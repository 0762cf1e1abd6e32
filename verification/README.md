# Verification of cxx-util

This project models the parts of cxx-util that carry real invariants, and proves what their
documentation and tests promise, for all inputs and all runs. `dafny verify dfyconfig.toml` checks it.

- **Semantic versions.** `VersionGrammar` is the Spirit grammar as a recursive-descent parser with
  ordered choice, greedy lists and expectation points; `VersionSyntax` is the same syntax as a
  declarative grammar and the proof that the parser decides it; `VersionPrinter` has the round trips
  and `VersionOrder` the comparison operators. `Version.dfy` is the object. `Decimal` is what
  Spirit's and Karma's `uint_` do with digits; `unsigned` has 32 bits. `VersionExamples` has cases
  after the repository's own tests.
- **doctest.** `Wildcard` is the backtracking wildcard matcher, `Subcases` the scheduler that re-runs
  a test body, seen as a tree of subcases.
- **Producer/consumer queue.** `QueueMachine` is a state machine with an explicit call stack, in
  which handlers do anything; `ProducerConsumerQueue` is the class, with re-entrant calls, for
  handlers that are finite scripts of calls, which may depend on the datum, proved equal to a
  sequential execution of the scripts and shown to be one of the behaviours of the machine.
- **Asynchronous operations.** `Operation` is version 2 of the reference-counted operation: a machine
  of copies, moves, resets, forks and nested invocations, and objects on the heap that follow it.
- **Ring buffer.** `PotRingbuffer` works on an array with the wrapping arithmetic of a 64-bit
  `size_t`; `Bits` defines `&` and `^` bit by bit.
- **WebSocket objects.** `MessageQueue`, `Connector` and `Acceptor` are classes that follow step
  functions over their fields, the FIFO of tasks posted to the io_service, and the handlers called.
  What the network, websocketpp and users do is a free choice at every step; `MessageHistory` says
  what the runs of the message queue come to in terms of these choices. `Asio`, `Basics` and
  `Alphabet` hold what is shared.

Where the code and its own words disagree, the model follows the code. The message of the
assertion in `potringbuffer.hpp` says "power of two", while the assertion tests for an even number:
`PotRingbuffer.EvenIsNotEnough` shows that the cells of the buffer are distinct exactly for powers of
two. `version.hpp` is named after semantic versions: `VersionOrder.SemVerExactly` shows that the
order is the one of section 11 of Semantic Versioning 2.0.0 exactly while all-digit pre-release
identifiers fit in an `unsigned`, and `VersionOrder.Misordered` constructs a misordered pair for
every version where one does not. doctest promises a run for every leaf of a test:
`Subcases.EnumeratesExactly` shows that there is one exactly if the signatures of siblings do not
overlap and a signature recurs inside its own subcase only on the chain of last subcases. `close()`
of the WebSocket objects is to leave nothing waiting: it does exactly while `depth()`, a 32-bit
difference of sizes, can tell what waits (`MessageQueue.CloseEmpties`, `Acceptor.AcceptorImpl.Close`).

## Model

| member | source | states |
|---|---|---|
| `VersionSyntax.ParserCorrect` | src/version.cpp:43-90 | parsing yields a value exactly when the declarative grammar derives that value from the string: optional v, dotted numbers, optional pre-release list, optional build list |
| `VersionSyntax.ParserComplete` | src/version.cpp:43-57 | no derivable string is rejected or read differently by the greedy ordered-choice parser |
| `VersionSyntax.ParserSound` | src/version.cpp:43-57 | every accepted string is cut up into texts of the parts that were read |
| `VersionSyntax.DerivesUnique` | src/version.cpp:43-57 | the grammar is unambiguous |
| `VersionSyntax.PreReleaseExact` | src/version.cpp:50-57 | a pre-release element is a number when its digits fit, an identifier when its leading digits are absent or overflow, and is read back exactly |
| `VersionSyntax.UintMeaning` | src/version.cpp:48-51 | uint_ takes the whole digit run, and fails when there is none or its value overflows |
| `Decimal.ExtractMeaning` | src/version.cpp:48-51 | checked left-to-right accumulation overflows exactly when the value of the whole run is too large |
| `Decimal.ValueMeaning` | src/version.cpp:48-51 | which characters are digits, what each adds to a decimal run, and that a run overflows from 2^32 on |
| `VersionData.IdentifierMeaning` | src/version.cpp:56-57 | an identifier is a nonempty string over the digits, the letters of both cases and the hyphen, written out |
| `VersionObject.Version.Parse` | src/version.cpp:86-90 | succeeds exactly on derivable strings, and then holds the derived value |
| `VersionObject.Version.FromString` | src/version.cpp:80-84 | constructs a version exactly from the derivable strings, and fails on the others |
| `VersionPrinter.RoundTrip` | src/version.cpp:109-118 | parsing the printed form gives back all three parts exactly for the well-formed values: numbers that fit, identifiers that do not read as numbers, no empty list; and these are exactly the values that parsing can yield |
| `VersionPrinter.PrintInjective` | src/version.cpp:109-118 | different well-formed versions print differently |
| `VersionPrinter.PrintAfterParse` | src/version.cpp:86-118 | printing what was parsed is an idempotent normal form that identifies exactly the strings with the same meaning |
| `VersionPrinter.PrintIsShortest` | src/version.cpp:109-118 | the printed form is the shortest string that parses to the value, and the only one of that length |
| `VersionExamples.FullVersion` | tests/version.cpp:13-28 | a string with all parts, as it is written, and the value it is read as |
| `VersionExamples.NumericChain` | tests/version.cpp:30-80 | 1.9.0 before numeric pre-releases of 1.10.0, in numeric order, before textual ones |
| `VersionExamples.TextualChain` | tests/version.cpp:30-80 | textual pre-releases of 1.10.0 in their order, before 1.10.0 |
| `Decimal.Digits` | src/version.cpp:112-114 | the printed digits denote the number, without leading zeros |
| `VersionOrder.LessMeaning` | src/version.cpp:96-107 | the corrected ternary orders by numbers, then a pre-release before its release, then by the first differing element; build metadata never matters |
| `VersionOrder.Trichotomy` | src/version.cpp:92-107 | exactly one of less, equal, greater holds |
| `VersionOrder.LessTransitive` | src/version.cpp:96-107 | the order is transitive |
| `VersionOrder.EqualIsCongruence` | src/version.cpp:92-94 | equal versions are interchangeable in comparisons |
| `VersionOrder.TotalPreorder` | include/util/version.hpp:55-69 | the derived operators are the total preorder that belongs to less and equal |
| `VersionOrder.LexIsBefore` | src/version.cpp:97-105 | lexicographic comparison finds the first difference |
| `VersionOrder.SemVerAgreement` | src/version.cpp:96-107 | three-number versions whose all-digit identifiers fit are ordered as section 11 of Semantic Versioning 2.0.0 defines |
| `VersionOrder.SemVerExactly` | src/version.cpp:47-54 | agreement against all such versions holds if and only if the all-digit identifiers fit |
| `VersionOrder.Misordered` | src/version.cpp:50-54 | for every parsed version with an overflowing identifier there is a parsed version that is misordered against it |
| `Wildcard.WildCmp` | include/util/doctest.h:2235-2270 | for all strings and patterns the result says whether the string falls into pieces that fit the pattern, where without case a letter also fits its other form; it terminates |
| `Wildcard.ToLowerMeaning` | include/util/doctest.h:2230-2231 | every capital letter is lowered to its own small letter, and nothing else changes |
| `Wildcard.AgreeIsSame` | include/util/doctest.h:2239-2257 | lowered characters agree if and only if they are equal or the two forms of one letter |
| `Wildcard.GlobIsMatches` | include/util/doctest.h:2249-2264 | matching by recursion is the existence of a division into fitting pieces |
| `Wildcard.LaterStartSubsumed` | include/util/doctest.h:2250-2255 | restarting only from the most recent star loses no match |
| `Wildcard.NoLaterStart` | include/util/doctest.h:2260-2269 | at the end of the string no remaining start of the last star could match |
| `Wildcard.CaseFoldingMatches` | include/util/doctest.h:2231-2257 | case-insensitive matching is case-sensitive matching of lowered inputs |
| `Wildcard.MatchesAny` | include/util/doctest.h:2282-2290 | some filter matches, or there is none and that counts |
| `Subcases.ContextState.RunTest` | include/util/doctest.h:3253-3278 | for every tree of subcases the loop terminates; its runs enter the paths to the leaves, one leaf a run, left to right, if and only if signatures are distinct, and then all subcases end up passed |
| `Subcases.EnumeratesExactly` | include/util/doctest.h:2308-2352 | the runs are the leaves, in order, if and only if sibling subcases share no signature and a signature recurs inside its own subcase only on the chain of last subcases |
| `Subcases.RunLeaf` | include/util/doctest.h:2308-2352 | under that condition one run enters exactly the path to the next leaf, passes what that completes, and skips something unless it is the last leaf |
| `Subcases.StackIsOpenSubcases` | include/util/doctest.h:2323-2347 | while the body of a subcase is run the stack is the surrounding one with that subcase on top, whatever the body enters, and afterwards it is as before |
| `Subcases.RunSkips` | include/util/doctest.h:2317-2321 | behind an entered subcase of the same level nothing is entered, and something is skipped if and only if not all of it has passed |
| `Subcases.EqualSiblingsHide` | include/util/doctest.h:2313-2315 | where it fails: a subcase behind a leaf of equal signature is never entered, and the only run is that leaf |
| `Subcases.ChainMayRecur` | include/util/doctest.h:2337-2344 | where it holds all the same: a subcase that is the last one inside its namesake |
| `Subcases.RunProgress` | include/util/doctest.h:2317-2344 | for any tree, a run that skips something has passed something new, so the loop ends |
| `QueueMachine.RunIsFifo` | include/util/producerconsumerqueue.hpp:22-60 | in every run, with arbitrary re-entrant handlers, the k-th handler given to consume() is invoked at most once and only with the k-th datum given to produce(), each post() makes at most one pairing, one queue is empty wherever user code runs, and depth is produced minus consumed |
| `QueueMachine.HistoryIsCalls` | include/util/producerconsumerqueue.hpp:22-39 | what has entered the queue is exactly what the calls have brought, in order |
| `QueueMachine.RunGrows` | include/util/producerconsumerqueue.hpp:50-58 | invocations are never taken back or reordered |
| `QueueMachine.StepKeepsStacked` | include/util/producerconsumerqueue.hpp:50-58 | nested post() frames alternate with handlers and a surrounding frame has made its only pairing |
| `ProducerConsumerQueue.DepthExact` | include/util/producerconsumerqueue.hpp:41-47 | depth() is the surplus exactly when that fits in an int |
| `ProducerConsumerQueue.DepthMoves` | include/util/producerconsumerqueue.hpp:41-47 | whatever the sizes, producing while depth() is negative and consuming while it is positive bring it one nearer to zero |
| `ProducerConsumerQueue.ScriptsAreRuns` | include/util/producerconsumerqueue.hpp:22-58 | executing scripted handlers sequentially is a behaviour of the re-entrant machine that ends with the same call stack |
| `ProducerConsumerQueue.RunAppend` | include/util/producerconsumerqueue.hpp:22-58 | execution of calls is compositional |
| `ProducerConsumerQueue.RunInOrder` | include/util/producerconsumerqueue.hpp:50-58 | execution keeps the FIFO pairing and only adds to the history |
| `ProducerConsumerQueue.RunMakesAllCalls` | include/util/producerconsumerqueue.hpp:50-58 | execution makes exactly the given calls and all calls of the handlers that it invokes, each once |
| `ProducerConsumerQueue.RunSingle` | include/util/producerconsumerqueue.hpp:22-58 | a call that completes a pair comes to the calls of its handler, made at once and in order; one that does not only waits |
| `ProducerConsumerQueue.ScriptMeaning` | include/util/producerconsumerqueue.hpp:50-58 | a handler makes the calls of its first branch for the datum, or its other calls if it has none |
| `ProducerConsumerQueue.ProducerConsumerQueue.ConsumeHandler` | include/util/producerconsumerqueue.hpp:22-29 | the re-entrant call equals the sequential execution and leaves one queue empty |
| `ProducerConsumerQueue.ProducerConsumerQueue.ProduceDatum` | include/util/producerconsumerqueue.hpp:32-39 | the same for a datum |
| `ProducerConsumerQueue.ProducerConsumerQueue.PostPairs` | include/util/producerconsumerqueue.hpp:50-58 | the loop makes at most one pairing, however its handler calls back |
| `Operation.Lifetime` | include/util/asio/operation.hpp:58-82 | in every run the count is the number of non-null pointers; once there is none the state has been freed and then the handler called, once, with the last completed or the default result, and not before |
| `Operation.FreedOnce` | include/util/asio/operation.hpp:63-82 | this happens when the count first reaches zero and nothing changes afterwards |
| `Operation.StepKeeps` | include/util/asio/operation.hpp:96-146 | copies, moves, forks, invocations, resets and destructions keep the count exact, and only complete() changes the result |
| `Operation.StepMeaning` | include/util/asio/operation.hpp:96-146 | who holds a pointer after each action: a copy or child if its source does, the target of a move instead of its source, a called object until its coroutine has ended; the state is freed and the handler called exactly when the last holder goes |
| `Operation.Program.Do` | include/util/asio/operation.hpp:96-146 | the objects on the heap follow the machine |
| `Operation.Program.ReturnFromCall` | include/util/asio/operation.hpp:120-141 | the end of operator() makes the pointer of its object null if and only if the coroutine has ended, leaves all others, and destroys the temporary of runChild() |
| `Operation.OperationState.Release` | include/util/asio/operation.hpp:63-82 | at zero, and only then, the state is freed and after that the handler is called with the result |
| `Operation.Program.constructor` | include/util/asio/operation.hpp:184-197 | a made operation has one reference and its default result |
| `PotRingbuffer.PotRingbuffer.PushBack` | include/util/potringbuffer.hpp:93-108 | appends, dropping the first element when full |
| `PotRingbuffer.PotRingbuffer.PushFront` | include/util/potringbuffer.hpp:111-117 | prepends, dropping the last element when full |
| `PotRingbuffer.PotRingbuffer.PopFront` | include/util/potringbuffer.hpp:120-123 | removes the first element only |
| `PotRingbuffer.PotRingbuffer.PopBack` | include/util/potringbuffer.hpp:126-135 | removes the last element only |
| `PotRingbuffer.PotRingbuffer.At` | include/util/potringbuffer.hpp:52-59 | reads the element at the index, taken around the circle |
| `PotRingbuffer.PotRingbuffer.SetAt` | include/util/potringbuffer.hpp:52-59 | changes that element and no other |
| `PotRingbuffer.PotRingbuffer.ReverseAt` | include/util/potringbuffer.hpp:62-69 | reads the element counted from the end |
| `PotRingbuffer.PotRingbuffer.Size` | include/util/potringbuffer.hpp:27-29 | the number of elements |
| `PotRingbuffer.PotRingbuffer.Full` | include/util/potringbuffer.hpp:42-49 | the one-bit test says whether the buffer holds N elements |
| `PotRingbuffer.SizeIsDistance` | include/util/potringbuffer.hpp:27-49 | the XOR test means distance N, and size() is the distance of the counters |
| `PotRingbuffer.ReverseNamesSame` | include/util/potringbuffer.hpp:62-69 | reverseAt(i) and at(size - i) name the same cell, machine wraparound included |
| `PotRingbuffer.AddMod` | include/util/potringbuffer.hpp:145-155 | wrapping addition and masking move a counter modulo 2N, also by minus one |
| `PotRingbuffer.ElementsWritten` | include/util/potringbuffer.hpp:137-143 | writing one element's cell leaves all others unchanged |
| `PotRingbuffer.KeepsLast` | include/util/potringbuffer.hpp:93-98 | any run of pushBack keeps the last N elements |
| `PotRingbuffer.PushesMirror` | include/util/potringbuffer.hpp:93-117 | pushFront is pushBack seen from the other end |
| `PotRingbuffer.EvenIsNotEnough` | include/util/potringbuffer.hpp:17-18 | cells of N elements are distinct if and only if N is a power of two, which the evenness test does not ensure |
| `PotRingbuffer.SixCollides` | include/util/potringbuffer.hpp:18 | capacity six passes the test and two of its first three cells coincide |
| `Bits.AndMask` | include/util/potringbuffer.hpp:138-154 | masking below a power of two takes the remainder |
| `Bits.XorBit` | include/util/potringbuffer.hpp:42-49 | flipping the bit N moves a counter by N |
| `Connector.ExactlyOnce` | include/util/asio/ws/connector.hpp:80-180 | in every run each issued connect is posted, nascent or completed, in one place only, and none completes twice, whatever callbacks arrive |
| `Connector.CompletionsStay` | include/util/asio/ws/connector.hpp:80-180 | completions are final |
| `Connector.AllComplete` | include/util/asio/ws/connector.hpp:80-180 | once nothing is posted or nascent, every connect has completed exactly once |
| `Connector.CloseAborts` | include/util/asio/ws/connector.hpp:80-98 | running a posted close completes every nascent connect with operation_aborted, and no other |
| `Connector.SuccessMeansOpened` | include/util/asio/ws/connector.hpp:136-180 | in every run a completion reports success if and only if an open callback came for the connection of that very operation while it was nascent, and the message queue was given that connection |
| `Connector.StepTells` | include/util/asio/ws/connector.hpp:113-180 | what each step outside close completes: at most one operation, that of its cause, with success exactly on open |
| `Connector.WhyCompleted` | include/util/asio/ws/connector.hpp:80-180 | in every run an operation has completed with an error code, success included, if and only if a callback for its nascent connection, a close, a failed get_connection or a connection that was nascent already brought it, each with its own code |
| `Connector.WhyNascent` | include/util/asio/ws/connector.hpp:113-130 | in every run a connection is nascent for an operation if and only if the body of asyncConnect got it for that operation and neither a callback for it nor a close has come since |
| `Connector.ConnectsInOrder` | include/util/asio/ws/connector.hpp:113-130 | the n-th body of asyncConnect that is run is that of the n-th call |
| `Connector.TasksAreFifo` | include/util/asio/ws/connector.hpp:80-173 | calls, closes and settling callbacks each post their task, tasks are run in the order of posting, and the callbacks of settled connections are cleared in that order |
| `Connector.NeverStuck` | include/util/asio/ws/connector.hpp:80-173 | whatever is posted can be run, with any connection or error |
| `Connector.ConnectorImpl.RunCloseBody` | include/util/asio/ws/connector.hpp:83-97 | the loop follows the step for the order in which it visits the map |
| `Connector.CallbackSettles` | include/util/asio/ws/connector.hpp:136-180 | after a callback its connection is no longer nascent and all others are untouched; if it was nascent its operation, not completed before, has completed once, with success on open and the transport's error or network_down on failure, and the clearing of its callbacks is posted; any further callback for it changes nothing |
| `MessageQueue.Conservation` | include/util/asio/ws/messagequeue.hpp:52-147 | in every run each issued receive is in exactly one of posted body, waiting, posted completion and completed, and none completes twice |
| `MessageQueue.CompletionOrder` | include/util/asio/ws/messagequeue.hpp:95-147 | the k-th datum goes to the k-th consumer, and receives that pass through the queue complete in consume order with what the queue delivered |
| `MessageQueue.CompletedInIssueOrder` | include/util/asio/ws/messagequeue.hpp:92-147 | in every run the receives that pass through the queue complete in the order of the asyncReceive calls |
| `MessageHistory.HistoryIsArrivals` | include/util/asio/ws/messagequeue.hpp:52-147 | in every run the queue has been given exactly what arrived, messages as they came, the transport's error or operation_aborted on close, and exactly the receives whose bodies found the transport well |
| `MessageHistory.BodiesInOrder` | include/util/asio/ws/messagequeue.hpp:92-122 | the n-th receive body that is run is that of the n-th call of asyncReceive, with its buffer |
| `MessageHistory.SuccessIsWholeMessage` | include/util/asio/ws/messagequeue.hpp:92-147 | in every run the receives that complete through the queue are exactly those that an arrival serves, the k-th to ask by the k-th arrival: the whole payload with success if it fits in the buffer of the call, what fits with message_size if not, an error as it is |
| `MessageHistory.DirectMeansError` | include/util/asio/ws/messagequeue.hpp:102-122 | a receive completes without waiting in the queue if and only if its body found an error in the transport, and then with that error and no bytes |
| `MessageHistory.CompletionsInOrder` | include/util/asio/ws/messagequeue.hpp:105-122 | completions are final, and are called in the order of posting, one for each that is run |
| `MessageHistory.TasksAreFifo` | include/util/asio/ws/messagequeue.hpp:92-122 | bodies and completions alike are run in the order in which they were posted |
| `MessageHistory.ConnectionIsLast` | include/util/asio/ws/messagequeue.hpp:67-132 | the connection is the last one given, and close closes that one, if there is any |
| `MessageHistory.NeverStuck` | include/util/asio/ws/messagequeue.hpp:102-122 | a posted completion can always be run, and a posted body once there is a connection |
| `MessageQueue.DeliverMeaning` | include/util/asio/ws/messagequeue.hpp:105-116 | a completion carries min(buffer, payload) bytes from the start of the payload, with message_size if and only if the payload did not fit; an error as it is |
| `MessageQueue.CloseAborts` | include/util/asio/ws/messagequeue.hpp:52-71 | close posts operation_aborted for waiting receives, in order, and nothing else, and for all of them if and only if depth() can tell their number; it closes the connection if there is one |
| `MessageQueue.CloseEmpties` | include/util/asio/ws/messagequeue.hpp:52-71 | close leaves neither waiting receives nor waiting data if and only if the surplus of data fits in an int |
| `MessageQueue.MessageQueueImpl.CloseQueue` | include/util/asio/ws/messagequeue.hpp:52-71 | for any sizes both loops terminate and come to the closing step; the queue ends empty if and only if its surplus fits in an int |
| `Acceptor.AcceptorImpl.Close` | include/util/asio/ws/acceptor.hpp:69-88 | for any sizes both loops terminate; both sides end empty if and only if depth() is right throughout, and then every accept that waited or was registered meanwhile has been called with operation_aborted and no connection, in order, and every waiting connection has been discarded, closed unless it came with an error; nothing is handed over |
| `Acceptor.AbortsEachOnce` | include/util/asio/ws/acceptor.hpp:73-75 | the accepts that close calls are exactly the waiting and re-registered ones, each once |
| `Acceptor.AbortStep` | include/util/asio/ws/acceptor.hpp:73-75 | one turn of the first loop aborts the first handler and queues what it registers |
| `Acceptor.AcceptorImpl.AsyncAccept` | include/util/asio/ws/acceptor.hpp:108-123 | an accept is served from the queue or waits in it; served, it hands the connection to its message queue exactly if there is no error, before its handler accepts anything else |
| `Acceptor.AcceptorImpl.RunTask` | include/util/asio/ws/acceptor.hpp:113-139 | the callbacks of a posted connection are cleared, and it is produced to the first waiting accept, whose message queue is given it exactly if there is no error, or waits |
| `Acceptor.EffectsAccount` | include/util/asio/ws/acceptor.hpp:77-118 | connections are handed over by accepts and closed by discarding handlers exactly where they are invoked without an error, in the order of invocation |

## Left out

- The source of Boost.Spirit and Boost.Karma is not part of this model; their documented behaviour is.
- What a failed parse leaves in the version object: unspecified, because it depends on attribute rollback inside Spirit.
- Printing a version that was not parsed and holds an empty list: the grammar never produces one.
- Tests of doctest that throw, `abort_after`, and bodies whose subcases change from run to run.
- The rest of doctest: assertion macros, options, ordering, output and colours.
- Handlers of the queue class that depend on anything else than the datum, or make endless calls: they are covered by the state machine, not by the scripts of the class.
- Threads: one thread runs the posted tasks in order.
- Acceptor.AcceptorImpl.Close: a handler that itself calls close(), or registers again for ever, is not modelled, and neither is the server that close() stops listening.
- Sending messages, and using a message queue that has no connection where that dereferences a null pointer.
- What a websocketpp connection does with its callbacks once they are cleared, or once it is closed: callbacks may come at any time.
- Destructor-time closing of the WebSocket objects, logging, and connection handles that can no longer be resolved beyond their having no effect.
- Exceptions during allocation in makeOperation, allocation hooks, and version 1 of the operation.
- `PotQueue`, `Variant`, callbacks, serial ports, file and path helpers, and template utilities.
