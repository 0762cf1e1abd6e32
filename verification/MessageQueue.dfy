// The WebSocket message queue: receive operations wait in a producer/consumer queue for messages,
// and complete through the io_service, which runs posted tasks in order in one thread.
module MessageQueue {
  import opened Asio
  import opened Basics
  import opened ProducerConsumerQueue
  import QueueMachine

  type Bytes = seq<bv8>

  // A receive operation with the size of its buffer, or the handler with which close() discards.
  datatype Key = Receive(id: nat, size: nat) | Drain

  // What is produced: a message, or an error code with a null message.
  datatype Arrival = Message(payload: Bytes) | Failure(ec: ErrorCode)

  type Receiver = Handler<Key, Arrival>

  const DRAIN: Receiver := Silent(Drain)

  // The handler that a receive operation waits with.
  function Receiving(id: nat, size: nat): Receiver {
    Silent(Receive(id, size))
  }

  // The handlers of this queue make no calls on it.
  predicate IsSilent(h: Receiver) {
    h == Silent(h.key)
  }

  // The arguments of the completion handler, with the bytes left in the buffer.
  datatype Outcome = Outcome(id: nat, ec: ErrorCode, bytes: Bytes)

  // A completion, and whether the operation has passed through the queue.
  datatype Completion = Completion(outcome: Outcome, queued: bool)

  datatype Task = ReceiveBody(id: nat, size: nat) | Finish(completion: Completion)

  // The connection of the queue, none being a null pointer, and the connections that close() has
  // closed, belong to it too.
  datatype State = State(issued: nat, tasks: seq<Task>, queue: Queue<Key, Arrival>, completed: seq<Completion>,
                         ptr: Option<Connection>, closed: seq<Connection>)

  const INITIAL := State(0, [], Queue([], [], [], [], []), [], None, [])

  // The transport's error codes and the messages are the environment's choice.
  datatype Action =
    | SetConnection(con: Connection)
    | AsyncReceive(size: nat)
    | RunReceive(transport: ErrorCode)
    | RunFinish
    | HandleMessage(payload: Bytes)
    | HandleClose(transport: ErrorCode)
    | Close

  // The body of a receive and the close callback dereference the pointer to the connection.
  predicate Enabled(s: State, a: Action) {
    match a
    case RunReceive(_) => s.tasks != [] && s.tasks[0].ReceiveBody? && s.ptr.Some?
    case HandleClose(_) => s.ptr.Some?
    case RunFinish => s.tasks != [] && s.tasks[0].Finish?
    case _ => true
  }

  // The queue's handler: it copies what fits in the buffer, and reports message_size if the
  // payload did not fit.
  function Deliver(id: nat, size: nat, arrival: Arrival): Outcome {
    match arrival
    case Message(payload) =>
      var n := Min(size, |payload|);
      Outcome(id, if n == |payload| then Success else MessageSize, payload[..n])
    case Failure(ec) => Outcome(id, ec, [])
  }

  // The outcomes of invoked handlers, in the order of invocation; those of close() have none.
  function Outcomes(invoked: seq<(Receiver, Arrival)>): seq<Outcome> {
    if invoked == [] then []
    else
      Outcomes(invoked[..|invoked| - 1]) +
      var (h, arrival) := invoked[|invoked| - 1];
      if h.key.Receive? then [Deliver(h.key.id, h.key.size, arrival)] else []
  }

  function Finishes(outcomes: seq<Outcome>): (tasks: seq<Task>)
    ensures |tasks| == |outcomes|
    ensures forall i :: 0 <= i < |tasks| ==> tasks[i] == Finish(Completion(outcomes[i], true))
  {
    seq(|outcomes|, i requires 0 <= i < |outcomes| => Finish(Completion(outcomes[i], true)))
  }

  // A call of the queue: the handlers that it invokes post their completions.
  function Feed(s: State, c: Call<Key, Arrival>): State {
    var q := Run(s.queue, [c]);
    if |s.queue.invoked| <= |q.invoked| then
      s.(queue := q, tasks := s.tasks + Finishes(Outcomes(q.invoked[|s.queue.invoked|..])))
    else s
  }

  function FeedAll(s: State, calls: seq<Call<Key, Arrival>>): State {
    if calls == [] then s else Feed(FeedAll(s, calls[..|calls| - 1]), calls[|calls| - 1])
  }

  function Surplus(q: Queue<Key, Arrival>): int {
    |q.data| - |q.handlers|
  }

  // The calls that close() makes: it produces an aborted datum as often as depth() is below zero,
  // and consumes with a discarding handler as often as it is above.
  function CloseCalls(q: Queue<Key, Arrival>): seq<Call<Key, Arrival>> {
    var depth := ToInt(Surplus(q));
    if depth < 0 then seq(-depth, _ => Produce(Failure(OperationAborted))) else seq(depth, _ => Consume(DRAIN))
  }

  function Step(s: State, a: Action): State
    requires Enabled(s, a)
  {
    match a
    case SetConnection(con) => s.(ptr := Some(con))
    case AsyncReceive(size) => s.(issued := s.issued + 1, tasks := s.tasks + [ReceiveBody(s.issued, size)])
    case RunReceive(ec) =>
      var (id, size) := (s.tasks[0].id, s.tasks[0].size);
      var s1 := s.(tasks := s.tasks[1..]);
      if ec.Success? then Feed(s1, Consume(Receiving(id, size)))
      else s1.(tasks := s1.tasks + [Finish(Completion(Outcome(id, ec, []), false))])
    case RunFinish => s.(tasks := s.tasks[1..], completed := s.completed + [s.tasks[0].completion])
    case HandleMessage(payload) => Feed(s, Produce(Message(payload)))
    case HandleClose(ec) => Feed(s, Produce(Failure(if ec.Success? then OperationAborted else ec)))
    case Close =>
      var s' := FeedAll(s, CloseCalls(s.queue));
      s'.(closed := if s.ptr.Some? then s.closed + [s.ptr.value] else s.closed)
  }

  ghost predicate IsRun(run: seq<State>, actions: seq<Action>) {
    && |run| == |actions| + 1 && run[0] == INITIAL
    && forall i :: 0 <= i < |actions| ==> Enabled(run[i], actions[i]) && run[i + 1] == Step(run[i], actions[i])
  }

  // ----- where an operation is -----

  function TaskId(t: Task): nat {
    match t
    case ReceiveBody(id, _) => id
    case Finish(c) => c.outcome.id
  }

  function TaskIds(tasks: seq<Task>): (ids: seq<nat>)
    ensures |ids| == |tasks| && forall i :: 0 <= i < |ids| ==> ids[i] == TaskId(tasks[i])
  {
    seq(|tasks|, i requires 0 <= i < |tasks| => TaskId(tasks[i]))
  }

  function DoneIds(completed: seq<Completion>): (ids: seq<nat>)
    ensures |ids| == |completed| && forall i :: 0 <= i < |ids| ==> ids[i] == completed[i].outcome.id
  {
    seq(|completed|, i requires 0 <= i < |completed| => completed[i].outcome.id)
  }

  function WaitingCount(handlers: seq<Receiver>, id: nat): nat {
    if handlers == [] then 0
    else (if handlers[0].key.Receive? && handlers[0].key.id == id then 1 else 0) + WaitingCount(handlers[1..], id)
  }

  // The number of places an operation is in: in a posted body or a posted completion, waiting in
  // the queue, completed.
  function Places(s: State, id: nat): nat {
    Count(TaskIds(s.tasks), id) + WaitingCount(s.queue.handlers, id) + Count(DoneIds(s.completed), id)
  }

  // The outcomes, among these, of operations that have passed through the queue.
  function QueuedDone(completed: seq<Completion>): seq<Outcome> {
    if completed == [] then []
    else
      QueuedDone(completed[..|completed| - 1]) +
      if completed[|completed| - 1].queued then [completed[|completed| - 1].outcome] else []
  }

  function Finished(tasks: seq<Task>): seq<Completion> {
    if tasks == [] then []
    else (if tasks[0].Finish? then [tasks[0].completion] else []) + Finished(tasks[1..])
  }

  ghost predicate Plain(q: Queue<Key, Arrival>) {
    Quiescent(q) && InOrder(q) && forall h <- q.handlers :: IsSilent(h)
  }

  // Completed and still to be completed: what went through the queue is exactly what the queue has
  // delivered, in the same order.
  ghost predicate Ordered(s: State) {
    QueuedDone(s.completed + Finished(s.tasks)) == Outcomes(s.queue.invoked)
  }

  ghost predicate Invariant(s: State) {
    Plain(s.queue) && Ordered(s) && forall id: nat :: Places(s, id) == if id < s.issued then 1 else 0
  }

  // ----- one call of the queue -----

  predicate IsPlainCall(c: Call<Key, Arrival>) {
    c.Consume? ==> IsSilent(c.handler)
  }

  function Pairs(q: Queue<Key, Arrival>): bool {
    q.handlers != [] && q.data != []
  }

  lemma RunPlain(q: Queue<Key, Arrival>, c: Call<Key, Arrival>)
    requires Plain(q) && IsPlainCall(c)
    ensures var q' := Enqueue(q, c);
            Run(q, [c]) == if Pairs(q') then Pop(q') else q'
    ensures Plain(Run(q, [c]))
  {
    RunSingle(q, c);
    RunQuiescent(q, [c]);
    RunInOrder(q, [c]);
    var q' := Enqueue(q, c);
    assert forall h <- q'.handlers :: IsSilent(h);
    if Pairs(q') {
      assert q'.handlers[0] in q'.handlers;
      assert Script(q'.handlers[0], q'.data[0]) == [];
      assert Run(Pop(q'), []) == Pop(q');
    }
  }

  lemma OutcomesOne(invoked: seq<(Receiver, Arrival)>, p: (Receiver, Arrival))
    ensures Outcomes(invoked + [p]) ==
            Outcomes(invoked) + if p.0.key.Receive? then [Deliver(p.0.key.id, p.0.key.size, p.1)] else []
    ensures Outcomes([p]) == if p.0.key.Receive? then [Deliver(p.0.key.id, p.0.key.size, p.1)] else []
  {
    assert (invoked + [p])[..|invoked|] == invoked;
    assert [p][..0] == [];
    assert Outcomes([p][..0]) == [];
  }

  // What one call does: the pair that it completes, if any, posts its outcome.
  lemma FeedMeaning(s: State, c: Call<Key, Arrival>)
    requires Plain(s.queue) && IsPlainCall(c)
    ensures var q' := Enqueue(s.queue, c);
            Feed(s, c) ==
            if Pairs(q') then
              s.(queue := Pop(q'), tasks := s.tasks + Finishes(Outcomes([(q'.handlers[0], q'.data[0])])))
            else s.(queue := q')
    ensures Plain(Feed(s, c).queue)
  {
    RunPlain(s.queue, c);
    var q' := Enqueue(s.queue, c);
    var n := |s.queue.invoked|;
    if Pairs(q') {
      assert Pop(q').invoked[n..] == [(q'.handlers[0], q'.data[0])];
    } else {
      assert q'.invoked[n..] == [];
      assert Outcomes([]) == [] && Finishes([]) == [];
      assert s.tasks + [] == s.tasks;
    }
  }

  lemma TaskIdsAppend(a: seq<Task>, b: seq<Task>, id: nat)
    ensures Count(TaskIds(a + b), id) == Count(TaskIds(a), id) + Count(TaskIds(b), id)
  {
    assert TaskIds(a + b) == TaskIds(a) + TaskIds(b);
  }

  lemma {:induction false} WaitingOne(handlers: seq<Receiver>, h: Receiver, id: nat)
    ensures WaitingCount(handlers + [h], id) ==
            WaitingCount(handlers, id) + if h.key.Receive? && h.key.id == id then 1 else 0
  {
    if handlers == [] {
      assert handlers + [h] == [h] && [h][1..] == [];
    } else {
      assert (handlers + [h])[1..] == handlers[1..] + [h];
      WaitingOne(handlers[1..], h, id);
    }
  }

  // A call of the queue moves operations around but neither loses nor duplicates any; a consume
  // call brings its own operation with it.
  lemma FeedPlaces(s: State, c: Call<Key, Arrival>, id: nat)
    requires Plain(s.queue) && IsPlainCall(c)
    ensures Places(Feed(s, c), id) ==
            Places(s, id) + if c.Consume? && c.handler.key.Receive? && c.handler.key.id == id then 1 else 0
  {
    FeedMeaning(s, c);
    var q' := Enqueue(s.queue, c);
    if c.Consume? { WaitingOne(s.queue.handlers, c.handler, id); }
    if Pairs(q') {
      var p := (q'.handlers[0], q'.data[0]);
      OutcomesOne([], p);
      TaskIdsAppend(s.tasks, Finishes(Outcomes([p])), id);
      FinishCount(p, id);
      assert WaitingCount(q'.handlers, id) ==
             (if p.0.key.Receive? && p.0.key.id == id then 1 else 0) + WaitingCount(q'.handlers[1..], id);
    }
  }

  lemma FinishCount(p: (Receiver, Arrival), id: nat)
    ensures Count(TaskIds(Finishes(Outcomes([p]))), id) == if p.0.key.Receive? && p.0.key.id == id then 1 else 0
  {
    OutcomesOne([], p);
    if p.0.key.Receive? {
      assert TaskIds(Finishes(Outcomes([p]))) == [p.0.key.id];
    } else {
      assert TaskIds(Finishes(Outcomes([p]))) == [];
    }
  }

  lemma QueuedDoneOne(completed: seq<Completion>, c: Completion)
    ensures QueuedDone(completed + [c]) == QueuedDone(completed) + if c.queued then [c.outcome] else []
  {
    assert (completed + [c])[..|completed|] == completed;
  }

  lemma {:induction false} FinishedAppend(a: seq<Task>, t: Task)
    ensures Finished(a + [t]) == Finished(a) + if t.Finish? then [t.completion] else []
  {
    var last := if t.Finish? then [t.completion] else [];
    if a == [] {
      assert a + [t] == [t] && [t][1..] == [];
      assert Finished([t]) == last + Finished([]) == last;
    } else {
      assert (a + [t])[1..] == a[1..] + [t];
      FinishedAppend(a[1..], t);
      var first := if a[0].Finish? then [a[0].completion] else [];
      assert first + (Finished(a[1..]) + last) == (first + Finished(a[1..])) + last;
    }
  }

  // Posting a task keeps the completions before it in place.
  lemma PostedOrder(completed: seq<Completion>, tasks: seq<Task>, t: Task)
    ensures QueuedDone(completed + Finished(tasks + [t])) ==
            QueuedDone(completed + Finished(tasks)) +
            if t.Finish? && t.completion.queued then [t.completion.outcome] else []
  {
    FinishedAppend(tasks, t);
    if t.Finish? {
      assert completed + (Finished(tasks) + [t.completion]) == (completed + Finished(tasks)) + [t.completion];
      QueuedDoneOne(completed + Finished(tasks), t.completion);
    } else {
      assert Finished(tasks) + [] == Finished(tasks);
    }
  }

  lemma FeedOrder(s: State, c: Call<Key, Arrival>)
    requires Plain(s.queue) && IsPlainCall(c) && Ordered(s)
    ensures Ordered(Feed(s, c))
  {
    hide Feed, Run, InOrder, Finished, QueuedDone, Outcomes, Deliver;
    FeedMeaning(s, c);
    var q' := Enqueue(s.queue, c);
    if Pairs(q') {
      var p := (q'.handlers[0], q'.data[0]);
      OutcomesOne(s.queue.invoked, p);
      if p.0.key.Receive? {
        var t := Finish(Completion(Deliver(p.0.key.id, p.0.key.size, p.1), true));
        assert Finishes(Outcomes([p])) == [t];
        PostedOrder(s.completed, s.tasks, t);
      } else {
        assert s.tasks + Finishes(Outcomes([p])) == s.tasks;
        assert Outcomes(s.queue.invoked) + [] == Outcomes(s.queue.invoked);
      }
    }
  }

  lemma {:induction false} FeedAllKeeps(s: State, calls: seq<Call<Key, Arrival>>, id: nat)
    requires Plain(s.queue) && Ordered(s)
    requires forall i :: 0 <= i < |calls| ==>
               IsPlainCall(calls[i]) && (calls[i].Consume? ==> calls[i].handler == DRAIN)
    ensures Plain(FeedAll(s, calls).queue) && Ordered(FeedAll(s, calls))
    ensures Places(FeedAll(s, calls), id) == Places(s, id)
    ensures FeedAll(s, calls).issued == s.issued && FeedAll(s, calls).completed == s.completed
  {
    if calls == [] {
    } else {
      var rest, last := calls[..|calls| - 1], calls[|calls| - 1];
      FeedAllKeeps(s, rest, id);
      var s' := FeedAll(s, rest);
      FeedMeaning(s', last);
      FeedOrder(s', last);
      FeedPlaces(s', last, id);
    }
  }

  lemma {:induction false} FeedAllKeepsRest(s: State, calls: seq<Call<Key, Arrival>>)
    ensures var s' := FeedAll(s, calls);
            s'.issued == s.issued && s'.completed == s.completed && s'.ptr == s.ptr && s'.closed == s.closed
  {
    if calls == [] {
    } else {
      FeedAllKeepsRest(s, calls[..|calls| - 1]);
    }
  }

  // ----- all runs -----

  lemma StepOrder(s: State, a: Action)
    requires Plain(s.queue) && Ordered(s) && Enabled(s, a)
    ensures Plain(Step(s, a).queue) && Ordered(Step(s, a))
  {
    match a
    case SetConnection(_) =>
    case AsyncReceive(size) =>
      PostedOrder(s.completed, s.tasks, ReceiveBody(s.issued, size));
      assert QueuedDone(s.completed + Finished(s.tasks)) + [] == QueuedDone(s.completed + Finished(s.tasks));
    case RunReceive(ec) =>
      var s1 := s.(tasks := s.tasks[1..]);
      var (id, size) := (s.tasks[0].id, s.tasks[0].size);
      assert [] + Finished(s.tasks[1..]) == Finished(s.tasks[1..]);
      if ec.Success? {
        FeedMeaning(s1, Consume(Receiving(id, size)));
        FeedOrder(s1, Consume(Receiving(id, size)));
      } else {
        PostedOrder(s1.completed, s1.tasks, Finish(Completion(Outcome(id, ec, []), false)));
        assert QueuedDone(s1.completed + Finished(s1.tasks)) + [] == QueuedDone(s1.completed + Finished(s1.tasks));
      }
    case RunFinish =>
      var first := s.tasks[0].completion;
      assert s.completed + ([first] + Finished(s.tasks[1..])) == (s.completed + [first]) + Finished(s.tasks[1..]);
    case HandleMessage(payload) =>
      FeedMeaning(s, Produce(Message(payload)));
      FeedOrder(s, Produce(Message(payload)));
    case HandleClose(ec) =>
      var c := Produce(Failure(if ec.Success? then OperationAborted else ec));
      FeedMeaning(s, c);
      FeedOrder(s, c);
    case Close => CloseKeeps(s, 0);
  }

  lemma StepPlaces(s: State, a: Action, id: nat)
    requires Plain(s.queue) && Ordered(s) && Enabled(s, a)
    ensures Places(Step(s, a), id) == Places(s, id) + if a.AsyncReceive? && id == s.issued then 1 else 0
    ensures Step(s, a).issued == s.issued + if a.AsyncReceive? then 1 else 0
  {
    hide Feed, FeedAll, Run, InOrder, WaitingCount, CloseCalls;
    match a
    case SetConnection(_) =>
    case AsyncReceive(size) =>
      var t := ReceiveBody(s.issued, size);
      TaskIdsAppend(s.tasks, [t], id);
      assert TaskIds([t]) == [s.issued];
    case RunReceive(ec) => RunReceivePlaces(s, ec, id);
    case RunFinish => RunFinishPlaces(s, id);
    case HandleMessage(payload) =>
      FeedIssued(s, Produce(Message(payload)));
      FeedPlaces(s, Produce(Message(payload)), id);
    case HandleClose(ec) =>
      var c := Produce(Failure(if ec.Success? then OperationAborted else ec));
      FeedIssued(s, c);
      FeedPlaces(s, c, id);
    case Close => CloseKeeps(s, id);
  }

  lemma CloseKeeps(s: State, id: nat)
    requires Plain(s.queue) && Ordered(s)
    ensures Plain(Step(s, Close).queue) && Ordered(Step(s, Close))
    ensures Places(Step(s, Close), id) == Places(s, id) && Step(s, Close).issued == s.issued
  {
    hide Feed, FeedAll, Run, InOrder, WaitingCount;
    FeedAllKeeps(s, CloseCalls(s.queue), id);
  }

  lemma RunReceivePlaces(s: State, ec: ErrorCode, id: nat)
    requires Plain(s.queue) && Enabled(s, RunReceive(ec))
    ensures Places(Step(s, RunReceive(ec)), id) == Places(s, id) && Step(s, RunReceive(ec)).issued == s.issued
  {
    var (first, size) := (s.tasks[0].id, s.tasks[0].size);
    var s1 := s.(tasks := s.tasks[1..]);
    FirstTask(s.tasks, id);
    if ec.Success? {
      var c := Consume(Receiving(first, size));
      assert Step(s, RunReceive(ec)) == Feed(s1, c);
      FeedIssued(s1, c);
      FeedPlaces(s1, c, id);
    } else {
      var t := Finish(Completion(Outcome(first, ec, []), false));
      TaskIdsAppend(s1.tasks, [t], id);
      assert TaskIds([t]) == [first];
    }
  }

  lemma FeedIssued(s: State, c: Call<Key, Arrival>)
    ensures Feed(s, c).issued == s.issued
  {
  }

  lemma RunFinishPlaces(s: State, id: nat)
    requires Enabled(s, RunFinish)
    ensures Places(Step(s, RunFinish), id) == Places(s, id)
  {
    FirstTask(s.tasks, id);
    var first := s.tasks[0].completion;
    assert DoneIds(s.completed + [first]) == DoneIds(s.completed) + [first.outcome.id];
    CountAppend(DoneIds(s.completed), [first.outcome.id], id);
  }

  lemma FirstTask(tasks: seq<Task>, id: nat)
    requires tasks != []
    ensures Count(TaskIds(tasks), id) == Count(TaskIds(tasks[1..]), id) + if TaskId(tasks[0]) == id then 1 else 0
  {
    assert tasks == [tasks[0]] + tasks[1..];
    TaskIdsAppend([tasks[0]], tasks[1..], id);
    assert TaskIds([tasks[0]]) == [TaskId(tasks[0])];
  }

  lemma {:induction false} RunKeeps(run: seq<State>, actions: seq<Action>, i: nat)
    requires IsRun(run, actions) && i < |run|
    ensures Invariant(run[i])
  {
    if i == 0 {
      assert TaskIds([]) == [] && DoneIds([]) == [];
      assert forall id: nat :: Places(run[0], id) == 0;
    } else {
      RunKeeps(run, actions, i - 1);
      var (s, a) := (run[i - 1], actions[i - 1]);
      StepOrder(s, a);
      StepPlaces(s, a, 0);
      forall id: nat ensures Places(run[i], id) == if id < run[i].issued then 1 else 0 {
        StepPlaces(s, a, id);
      }
    }
  }

  // In every run each issued receive is in exactly one place, and none completes twice.
  lemma Conservation(run: seq<State>, actions: seq<Action>, i: nat)
    requires IsRun(run, actions) && i < |run|
    ensures forall id: nat :: Places(run[i], id) == if id < run[i].issued then 1 else 0
    ensures forall j, k :: 0 <= j < k < |run[i].completed| ==>
              run[i].completed[j].outcome.id != run[i].completed[k].outcome.id
  {
    RunKeeps(run, actions, i);
    var ids := DoneIds(run[i].completed);
    forall j, k | 0 <= j < k < |ids| ensures ids[j] != ids[k] {
      assert Places(run[i], ids[k]) <= 1;
      NoRepeats(ids, j, k);
    }
  }

  // In every run the k-th datum goes to the k-th consumer, and the receives that pass through the
  // queue complete in the order in which they were given to it, each with what fitted in its buffer.
  lemma CompletionOrder(run: seq<State>, actions: seq<Action>, i: nat)
    requires IsRun(run, actions) && i < |run|
    ensures var q := run[i].queue;
            && QueueMachine.Fifo(q.handlers, q.data, q.consumed, q.produced, q.invoked)
            && QueuedDone(run[i].completed) <= Outcomes(q.invoked)
            && QueuedDone(run[i].completed + Finished(run[i].tasks)) == Outcomes(q.invoked)
  {
    RunKeeps(run, actions, i);
    QueuedPrefix(run[i].completed, Finished(run[i].tasks));
  }

  lemma {:induction false} QueuedPrefix(a: seq<Completion>, b: seq<Completion>)
    ensures QueuedDone(a) <= QueuedDone(a + b)
    decreases |b|
  {
    if b == [] {
      assert a + b == a;
    } else {
      var b', last := b[..|b| - 1], b[|b| - 1];
      QueuedPrefix(a, b');
      assert a + b == (a + b') + [last];
      QueuedDoneOne(a + b', last);
    }
  }

  // ----- the order of issue -----

  ghost predicate Increasing(ids: seq<nat>) {
    forall i, j :: 0 <= i < j < |ids| ==> ids[i] < ids[j]
  }

  function ReceiveIds(hs: seq<Receiver>): seq<nat> {
    if hs == [] then []
    else
      var h := hs[|hs| - 1];
      ReceiveIds(hs[..|hs| - 1]) + if h.key.Receive? then [h.key.id] else []
  }

  function BodyIds(tasks: seq<Task>): seq<nat> {
    if tasks == [] then []
    else BodyId(tasks[0]) + BodyIds(tasks[1..])
  }

  function BodyId(t: Task): seq<nat> {
    if t.ReceiveBody? then [t.id] else []
  }

  function OutcomeIds(outcomes: seq<Outcome>): (ids: seq<nat>)
    ensures |ids| == |outcomes| && forall i :: 0 <= i < |ids| ==> ids[i] == outcomes[i].id
  {
    seq(|outcomes|, i requires 0 <= i < |outcomes| => outcomes[i].id)
  }

  // The receives that have been given to the queue, in that order, and then those that are still
  // posted are the issued ones in the order of issue, those aside that have failed at once.
  ghost predicate IssueOrder(s: State) {
    var ids := ReceiveIds(s.queue.consumed) + BodyIds(s.tasks);
    Increasing(ids) && forall id <- ids :: id < s.issued
  }

  lemma {:induction false} BodyIdsAppend(a: seq<Task>, b: seq<Task>)
    ensures BodyIds(a + b) == BodyIds(a) + BodyIds(b)
  {
    if a == [] {
      assert a + b == b;
    } else {
      hide BodyId;
      assert (a + b)[1..] == a[1..] + b && (a + b)[0] == a[0];
      BodyIdsAppend(a[1..], b);
      assert BodyIds(a + b) == BodyId(a[0]) + (BodyIds(a[1..]) + BodyIds(b));
    }
  }

  lemma BodyIdsOne(tasks: seq<Task>, t: Task)
    ensures BodyIds(tasks + [t]) == BodyIds(tasks) + BodyId(t)
  {
    BodyIdsAppend(tasks, [t]);
    assert [t][1..] == [] && BodyIds([t]) == BodyId(t) + BodyIds([]);
  }

  lemma {:induction false} NoBodies(outcomes: seq<Outcome>)
    ensures BodyIds(Finishes(outcomes)) == []
  {
    if outcomes == [] {
    } else {
      assert Finishes(outcomes)[1..] == Finishes(outcomes[1..]);
      NoBodies(outcomes[1..]);
    }
  }

  lemma ReceiveIdsOne(hs: seq<Receiver>, h: Receiver)
    ensures ReceiveIds(hs + [h]) == ReceiveIds(hs) + if h.key.Receive? then [h.key.id] else []
  {
    assert (hs + [h])[..|hs|] == hs;
  }

  lemma FeedIds(s: State, c: Call<Key, Arrival>)
    requires Plain(s.queue) && IsPlainCall(c)
    ensures BodyIds(Feed(s, c).tasks) == BodyIds(s.tasks) && Feed(s, c).issued == s.issued
    ensures ReceiveIds(Feed(s, c).queue.consumed) ==
            ReceiveIds(s.queue.consumed) + if c.Consume? && c.handler.key.Receive? then [c.handler.key.id] else []
  {
    FeedMeaning(s, c);
    if c.Consume? { ReceiveIdsOne(s.queue.consumed, c.handler); }
    var q' := Enqueue(s.queue, c);
    if Pairs(q') {
      var outcomes := Outcomes([(q'.handlers[0], q'.data[0])]);
      BodyIdsAppend(s.tasks, Finishes(outcomes));
      NoBodies(outcomes);
    }
  }

  lemma {:induction false} FeedAllIds(s: State, calls: seq<Call<Key, Arrival>>)
    requires Plain(s.queue)
    requires forall c <- calls :: IsPlainCall(c) && (c.Consume? ==> c.handler == DRAIN)
    ensures var s' := FeedAll(s, calls);
            && Plain(s'.queue) && BodyIds(s'.tasks) == BodyIds(s.tasks) && s'.issued == s.issued
            && ReceiveIds(s'.queue.consumed) == ReceiveIds(s.queue.consumed)
  {
    if calls == [] {
    } else {
      hide Feed, ReceiveIds, BodyIds, InOrder;
      FeedAllIds(s, calls[..|calls| - 1]);
      FeedMeaning(FeedAll(s, calls[..|calls| - 1]), calls[|calls| - 1]);
      FeedIds(FeedAll(s, calls[..|calls| - 1]), calls[|calls| - 1]);
    }
  }

  // Increasing sequences stay so when one of their elements goes, or a larger one comes.
  lemma RemoveKeeps(a: seq<nat>, x: nat, b: seq<nat>)
    requires Increasing(a + [x] + b)
    ensures Increasing(a + b) && forall id <- a + b :: id in a + [x] + b
  {
    var (all, rest) := (a + [x] + b, a + b);
    assert forall i :: 0 <= i < |rest| ==> rest[i] == all[if i < |a| then i else i + 1];
  }

  lemma AppendKeeps(a: seq<nat>, x: nat)
    requires Increasing(a) && forall id <- a :: id < x
    ensures Increasing(a + [x]) && forall id <- a + [x] :: id < x + 1
  {
    assert forall i :: 0 <= i < |a| ==> a[i] in a;
  }

  lemma StepIssueOrder(s: State, a: Action)
    requires Plain(s.queue) && IssueOrder(s) && Enabled(s, a)
    ensures IssueOrder(Step(s, a))
  {
    hide Feed, Run, ReceiveIds, Increasing, InOrder;
    assert ReceiveIds(s.queue.consumed) + [] == ReceiveIds(s.queue.consumed);
    match a
    case SetConnection(_) =>
    case AsyncReceive(size) => IssueKeeps(s, size);
    case RunReceive(ec) => RunReceiveKeeps(s, ec);
    case RunFinish =>
      assert [] + BodyIds(s.tasks[1..]) == BodyIds(s.tasks[1..]);
    case HandleMessage(payload) => FeedIds(s, Produce(Message(payload)));
    case HandleClose(ec) => FeedIds(s, Produce(Failure(if ec.Success? then OperationAborted else ec)));
    case Close => FeedAllIds(s, CloseCalls(s.queue));
  }

  lemma IssueKeeps(s: State, size: nat)
    requires IssueOrder(s)
    ensures IssueOrder(Step(s, AsyncReceive(size)))
  {
    hide ReceiveIds, BodyIds, Increasing;
    var (given, posted) := (ReceiveIds(s.queue.consumed), BodyIds(s.tasks));
    BodyIdsOne(s.tasks, ReceiveBody(s.issued, size));
    assert given + (posted + [s.issued]) == (given + posted) + [s.issued];
    AppendKeeps(given + posted, s.issued);
  }

  lemma RunReceiveKeeps(s: State, ec: ErrorCode)
    requires Plain(s.queue) && IssueOrder(s) && Enabled(s, RunReceive(ec))
    ensures IssueOrder(Step(s, RunReceive(ec)))
  {
    hide Feed, Run, ReceiveIds, Increasing, InOrder;
    var (t, given) := (s.tasks[0], ReceiveIds(s.queue.consumed));
    var s1 := s.(tasks := s.tasks[1..]);
    assert given + BodyIds(s.tasks) == given + [t.id] + BodyIds(s1.tasks);
    if ec.Success? {
      FeedIds(s1, Consume(Receiving(t.id, t.size)));
    } else {
      var posted := Finish(Completion(Outcome(t.id, ec, []), false));
      BodyIdsOne(s1.tasks, posted);
      RemoveKeeps(given, t.id, BodyIds(s1.tasks));
      assert BodyIds(s1.tasks) + [] == BodyIds(s1.tasks);
    }
  }

  lemma InitialOrder()
    ensures IssueOrder(INITIAL)
  {
  }

  lemma {:induction false} RunIssueOrder(run: seq<State>, actions: seq<Action>, i: nat)
    requires IsRun(run, actions) && i < |run|
    ensures IssueOrder(run[i])
  {
    hide IssueOrder, Step, Places, Ordered, Plain;
    if i == 0 {
      InitialOrder();
    } else {
      RunKeeps(run, actions, i - 1);
      RunIssueOrder(run, actions, i - 1);
      StepIssueOrder(run[i - 1], actions[i - 1]);
    }
  }

  // The outcomes of invoked handlers are those of the receives among them.
  lemma {:induction false} OutcomesOfReceives(consumed: seq<Receiver>, invoked: seq<(Receiver, Arrival)>)
    requires |invoked| <= |consumed| && forall k :: 0 <= k < |invoked| ==> invoked[k].0 == consumed[k]
    ensures OutcomeIds(Outcomes(invoked)) == ReceiveIds(consumed[..|invoked|])
    decreases |invoked|
  {
    if invoked == [] {
    } else {
      var n := |invoked| - 1;
      OutcomesOfReceives(consumed, invoked[..n]);
      assert consumed[..n + 1][..n] == consumed[..n];
    }
  }

  lemma {:induction false} ReceivesPrefix(hs: seq<Receiver>, n: nat)
    requires n <= |hs|
    ensures ReceiveIds(hs[..n]) <= ReceiveIds(hs)
    decreases |hs|
  {
    if n == |hs| {
      assert hs[..n] == hs;
    } else {
      ReceivesPrefix(hs[..|hs| - 1], n);
      assert hs[..|hs| - 1][..n] == hs[..n];
    }
  }

  // In every run the receives that pass through the queue complete in the order in which
  // asyncReceive was called for them.
  lemma CompletedInIssueOrder(run: seq<State>, actions: seq<Action>, i: nat)
    requires IsRun(run, actions) && i < |run|
    ensures Increasing(OutcomeIds(QueuedDone(run[i].completed)))
    ensures Increasing(OutcomeIds(QueuedDone(run[i].completed + Finished(run[i].tasks))))
  {
    CompletionOrder(run, actions, i);
    RunIssueOrder(run, actions, i);
    var q := run[i].queue;
    OutcomesOfReceives(q.consumed, q.invoked);
    ReceivesPrefix(q.consumed, |q.invoked|);
    var (given, all) := (ReceiveIds(q.consumed), ReceiveIds(q.consumed) + BodyIds(run[i].tasks));
    assert given <= all;
    PrefixIncreasing(given, all);
    PrefixIncreasing(OutcomeIds(Outcomes(q.invoked)), given);
    PrefixIncreasing(OutcomeIds(QueuedDone(run[i].completed)), OutcomeIds(Outcomes(q.invoked)));
  }

  lemma PrefixIncreasing(a: seq<nat>, b: seq<nat>)
    requires a <= b && Increasing(b)
    ensures Increasing(a)
  {
  }

  // What a completion carries: as much of the payload as fits, and message_size if and only if not
  // all of it did; of an error, the error itself and no bytes.
  ghost predicate Carries(o: Outcome, size: nat, arrival: Arrival) {
    match arrival
    case Message(payload) =>
      && o.bytes <= payload && |o.bytes| == Min(size, |payload|)
      && (o.ec == Success || o.ec == MessageSize) && (o.ec == Success <==> |payload| <= size)
      && (o.ec == Success <==> o.bytes == payload)
    case Failure(ec) => o.ec == ec && o.bytes == []
  }

  lemma DeliverMeaning(o: Outcome, size: nat, arrival: Arrival)
    ensures o == Deliver(o.id, size, arrival) <==> Carries(o, size, arrival)
  {
    if arrival.Message? && Carries(o, size, arrival) {
      assert o.bytes == arrival.payload[..Min(size, |arrival.payload|)];
    }
  }

  // ----- close() -----

  lemma NextCall(s: State, calls: seq<Call<Key, Arrival>>, k: nat)
    requires k < |calls|
    ensures FeedAll(s, calls[..k + 1]) == Feed(FeedAll(s, calls[..k]), calls[k])
  {
    assert calls[..k + 1][..k] == calls[..k];
  }

  // Each call changes the surplus of data by one.
  lemma FeedSurplus(s: State, c: Call<Key, Arrival>)
    requires Plain(s.queue) && IsPlainCall(c)
    ensures Surplus(Feed(s, c).queue) == Surplus(s.queue) + if c.Produce? then 1 else -1
  {
    FeedMeaning(s, c);
  }

  // After k of the calls of close(), depth() is k nearer to zero.
  lemma {:induction false} Closing(s: State, k: nat)
    requires Plain(s.queue) && k <= |CloseCalls(s.queue)|
    ensures var s' := FeedAll(s, CloseCalls(s.queue)[..k]);
            var up: int := if ToInt(Surplus(s.queue)) < 0 then k as int else -(k as int);
            && Plain(s'.queue)
            && Surplus(s'.queue) == Surplus(s.queue) + up
            && ToInt(Surplus(s'.queue)) == ToInt(Surplus(s.queue)) + up
  {
    hide Feed, InOrder, Run, ToInt, Surplus;
    var calls := CloseCalls(s.queue);
    if k == 0 {
      assert calls[..0] == [];
    } else {
      hide FeedAll;
      Closing(s, k - 1);
      NextCall(s, calls, k - 1);
      var s' := FeedAll(s, calls[..k - 1]);
      FeedMeaning(s', calls[k - 1]);
      FeedSurplus(s', calls[k - 1]);
      DepthMoves(Surplus(s'.queue));
    }
  }

  function AbortedOutcomes(handlers: seq<Receiver>): seq<Outcome> {
    if handlers == [] then []
    else
      AbortedOutcomes(handlers[..|handlers| - 1]) +
      var key := handlers[|handlers| - 1].key;
      if key.Receive? then [Outcome(key.id, OperationAborted, [])] else []
  }

  // What each call of close() posts.
  lemma FeedAbort(s: State)
    requires Plain(s.queue)
    ensures var s' := Feed(s, Produce(Failure(OperationAborted)));
            if s.queue.handlers == [] then s'.tasks == s.tasks && s'.queue.handlers == []
            else s'.tasks == s.tasks + Finishes(AbortedOutcomes([s.queue.handlers[0]]))
                 && s'.queue.handlers == s.queue.handlers[1..]
  {
    hide Feed, InOrder, Run, Outcomes;
    FeedMeaning(s, Produce(Failure(OperationAborted)));
    if s.queue.handlers != [] {
      var h := s.queue.handlers[0];
      OutcomesOne([], (h, Failure(OperationAborted)));
      assert [h][..0] == [];
      assert AbortedOutcomes([h][..0]) == [];
    }
  }

  lemma FeedDrain(s: State)
    requires Plain(s.queue)
    ensures Feed(s, Consume(DRAIN)).tasks == s.tasks
  {
    hide Feed, InOrder, Run, Outcomes;
    FeedMeaning(s, Consume(DRAIN));
    if s.queue.data != [] {
      OutcomesOne([], (DRAIN, s.queue.data[0]));
      assert s.tasks + [] == s.tasks;
    }
  }

  lemma AbortedOne(handlers: seq<Receiver>, h: Receiver)
    ensures AbortedOutcomes(handlers + [h]) == AbortedOutcomes(handlers) + AbortedOutcomes([h])
  {
    assert (handlers + [h])[..|handlers|] == handlers;
    assert [h][..0] == [] && AbortedOutcomes([h][..0]) == [];
  }

  // How many of the waiting handlers have been aborted after k of the calls of close().
  function AbortedBy(q: Queue<Key, Arrival>, k: nat): nat {
    if ToInt(Surplus(q)) < 0 then Min(k, |q.handlers|) else 0
  }

  lemma {:induction false} ClosingTasks(s: State, k: nat)
    requires Plain(s.queue) && k <= |CloseCalls(s.queue)|
    ensures var (s', n) := (FeedAll(s, CloseCalls(s.queue)[..k]), AbortedBy(s.queue, k));
            && s'.tasks == s.tasks + Finishes(AbortedOutcomes(s.queue.handlers[..n]))
            && (ToInt(Surplus(s.queue)) < 0 ==> s'.queue.handlers == s.queue.handlers[n..])
  {
    hide Feed, FeedAll, Plain, InOrder, CloseCalls, ToInt, Surplus, Finishes, AbortedOutcomes;
    if k == 0 {
      NoneClosed(s);
    } else {
      ClosingTasks(s, k - 1);
      ClosingNext(s, k);
      var n := AbortedBy(s.queue, k - 1);
      if AbortedBy(s.queue, k) != n { NextAborted(s.tasks, s.queue.handlers, n); }
    }
  }

  lemma NoneClosed(s: State)
    ensures FeedAll(s, CloseCalls(s.queue)[..0]) == s
    ensures s.tasks + Finishes(AbortedOutcomes(s.queue.handlers[..0])) == s.tasks
  {
    hide CloseCalls;
    assert CloseCalls(s.queue)[..0] == [];
    assert Finishes([]) == [];
  }

  lemma ClosingNext(s: State, k: nat)
    requires Plain(s.queue) && 0 < k <= |CloseCalls(s.queue)|
    requires var (s', n) := (FeedAll(s, CloseCalls(s.queue)[..k - 1]), AbortedBy(s.queue, k - 1));
             ToInt(Surplus(s.queue)) < 0 ==> s'.queue.handlers == s.queue.handlers[n..]
    ensures var (s', n) := (FeedAll(s, CloseCalls(s.queue)[..k - 1]), AbortedBy(s.queue, k - 1));
            var s'' := FeedAll(s, CloseCalls(s.queue)[..k]);
            if ToInt(Surplus(s.queue)) < 0 && n < |s.queue.handlers|
            then s''.tasks == s'.tasks + Finishes(AbortedOutcomes([s.queue.handlers[n]]))
                 && s''.queue.handlers == s.queue.handlers[n + 1..]
            else s''.tasks == s'.tasks && (ToInt(Surplus(s.queue)) < 0 ==> s''.queue.handlers == [])
  {
    hide FeedAll, Feed, AbortedOutcomes, InOrder, ToInt, Run;
    var calls := CloseCalls(s.queue);
    Closing(s, k - 1);
    NextCall(s, calls, k - 1);
    var s' := FeedAll(s, calls[..k - 1]);
    if ToInt(Surplus(s.queue)) < 0 {
      FeedAbort(s');
    } else {
      FeedDrain(s');
    }
  }

  lemma NextAborted(tasks: seq<Task>, hs: seq<Receiver>, n: nat)
    requires n < |hs|
    ensures tasks + Finishes(AbortedOutcomes(hs[..n])) + Finishes(AbortedOutcomes([hs[n]])) ==
            tasks + Finishes(AbortedOutcomes(hs[..n + 1]))
  {
    hide AbortedOutcomes;
    assert hs[..n + 1] == hs[..n] + [hs[n]];
    AbortedOne(hs[..n], hs[n]);
  }

  ghost predicate FitsInt(q: Queue<Key, Arrival>) {
    -INT_MAX - 1 <= Surplus(q) <= INT_MAX
  }

  // close() posts operation_aborted for waiting receives, first come, first served, and posts
  // nothing else; for all of them if depth() can tell how many there are. It completes nothing by
  // itself, and closes the connection.
  lemma CloseAborts(s: State)
    requires Plain(s.queue)
    ensures var (s', n) := (Step(s, Close), AbortedBy(s.queue, |CloseCalls(s.queue)|));
            && s'.tasks == s.tasks + Finishes(AbortedOutcomes(s.queue.handlers[..n]))
            && (n == |s.queue.handlers| <==> s.queue.handlers == [] || FitsInt(s.queue))
            && s'.completed == s.completed
            && s'.closed == if s.ptr.Some? then s.closed + [s.ptr.value] else s.closed
  {
    hide FeedAll, Plain, Finishes, AbortedOutcomes;
    var calls := CloseCalls(s.queue);
    ClosingTasks(s, |calls|);
    assert calls[..|calls|] == calls;
    FeedAllKeepsRest(s, calls);
    AbortsAll(s.queue);
  }

  lemma AbortsAll(q: Queue<Key, Arrival>)
    requires Plain(q)
    ensures AbortedBy(q, |CloseCalls(q)|) == |q.handlers| <==> q.handlers == [] || FitsInt(q)
  {
    DepthExact(|q.data|, |q.handlers|);
    DepthTooFar(Surplus(q));
  }

  // close() empties both sides of the queue if and only if depth() can tell its size.
  lemma CloseEmpties(s: State)
    requires Plain(s.queue)
    ensures Step(s, Close).queue.handlers == [] && Step(s, Close).queue.data == [] <==> FitsInt(s.queue)
  {
    var calls := CloseCalls(s.queue);
    assert calls[..|calls|] == calls;
    Closing(s, |calls|);
    DepthExact(|s.queue.data|, |s.queue.handlers|);
  }

  // s' is what close() has made of s with its first k calls.
  ghost predicate ClosedSoFar(s: State, s': State, k: nat) {
    k <= |CloseCalls(s.queue)| && s' == FeedAll(s, CloseCalls(s.queue)[..k])
  }

  // Which call comes next, by what depth() says.
  lemma ClosingStep(s: State, s': State, k: nat)
    requires Plain(s.queue) && ClosedSoFar(s, s', k)
    ensures Plain(s'.queue)
    ensures var depth := ToInt(Surplus(s'.queue));
            && |CloseCalls(s.queue)| - k == (if depth < 0 then -depth else depth)
            && (depth < 0 ==> ClosedSoFar(s, Feed(s', Produce(Failure(OperationAborted))), k + 1))
            && (depth > 0 ==> ClosedSoFar(s, Feed(s', Consume(DRAIN)), k + 1))
            && (depth == 0 ==> s' == FeedAll(s, CloseCalls(s.queue)))
            && (ToInt(Surplus(s.queue)) >= 0 ==> depth >= 0)
            && (ToInt(Surplus(s.queue)) < 0 ==> depth <= 0)
  {
    hide FeedAll, Feed, InOrder, ToInt;
    var calls := CloseCalls(s.queue);
    Closing(s, k);
    if k < |calls| {
      NextCall(s, calls, k);
    } else {
      assert calls[..k] == calls;
    }
  }

  // ----- the code -----

  class MessageQueueImpl {
    const mReceiveQueue: ProducerConsumerQueue<Key, Arrival>
    // The io_service, the operations issued and the handlers called.
    var tasks: seq<Task>
    var issued: nat
    var completed: seq<Completion>
    // The connection, and those that close() has closed.
    var mPtr: Option<Connection>
    var mClosed: seq<Connection>

    ghost function Abs(): State
      reads this, mReceiveQueue
    {
      State(issued, tasks, mReceiveQueue.Abs(), completed, mPtr, mClosed)
    }

    constructor ()
      ensures Abs() == INITIAL && fresh(mReceiveQueue)
    {
      mReceiveQueue := new ProducerConsumerQueue<Key, Arrival>();
      tasks, issued, completed := [], 0, [];
      mPtr, mClosed := None, [];
    }

    method SetConnectionPtr(con: Connection)
      modifies this
      ensures Abs() == Step(old(Abs()), SetConnection(con))
    {
      mPtr := Some(con);
    }

    method PostReceive(size: nat) returns (id: nat)
      modifies this
      ensures Abs() == Step(old(Abs()), AsyncReceive(size)) && id == old(issued)
    {
      id := issued;
      issued := issued + 1;
      tasks := tasks + [ReceiveBody(id, size)];
    }

    // The handlers that a call of the queue has invoked post their completions. They make no calls
    // on the queue, and posting concerns nothing that the queue holds, so posting their completions
    // in the order of invocation after the call is the same as posting them during the call.
    method CallQueue(c: Call<Key, Arrival>)
      requires Plain(mReceiveQueue.Abs()) && IsPlainCall(c)
      modifies this`tasks, mReceiveQueue
      ensures Abs() == Feed(old(Abs()), c) && Plain(mReceiveQueue.Abs())
    {
      FeedMeaning(Abs(), c);
      RunInOrder(mReceiveQueue.Abs(), [c]);
      var n := |mReceiveQueue.invoked|;
      match c {
        case Consume(h) => mReceiveQueue.ConsumeHandler(h);
        case Produce(d) => mReceiveQueue.ProduceDatum(d);
      }
      tasks := tasks + Finishes(Outcomes(mReceiveQueue.invoked[n..]));
    }

    method RunReceiveBody(transport: ErrorCode)
      requires Plain(mReceiveQueue.Abs()) && Enabled(Abs(), RunReceive(transport))
      modifies this, mReceiveQueue
      ensures Abs() == Step(old(Abs()), RunReceive(transport))
    {
      var t := tasks[0];
      tasks := tasks[1..];
      assert Abs() == old(Abs()).(tasks := tasks);
      if transport.Success? {
        CallQueue(Consume(Receiving(t.id, t.size)));
      } else {
        tasks := tasks + [Finish(Completion(Outcome(t.id, transport, []), false))];
      }
    }

    method RunCompletion()
      requires Enabled(Abs(), RunFinish)
      modifies this
      ensures Abs() == Step(old(Abs()), RunFinish)
    {
      completed := completed + [tasks[0].completion];
      tasks := tasks[1..];
    }

    method MessageCallback(payload: Bytes)
      requires Plain(mReceiveQueue.Abs())
      modifies this, mReceiveQueue
      ensures Abs() == Step(old(Abs()), HandleMessage(payload))
    {
      CallQueue(Produce(Message(payload)));
    }

    method CloseCallback(transport: ErrorCode)
      requires Plain(mReceiveQueue.Abs()) && Enabled(Abs(), HandleClose(transport))
      modifies this, mReceiveQueue
      ensures Abs() == Step(old(Abs()), HandleClose(transport))
    {
      CallQueue(Produce(Failure(if transport.Success? then OperationAborted else transport)));
    }

    // close(), for a queue of any size.
    method CloseQueue()
      requires Plain(mReceiveQueue.Abs())
      modifies this, mReceiveQueue
      ensures Abs() == Step(old(Abs()), Close)
      ensures mReceiveQueue.mHandlers == [] && mReceiveQueue.mData == [] <==> FitsInt(old(mReceiveQueue.Abs()))
    {
      hide Feed, FeedAll, ToInt, CloseCalls;
      ghost var s0 := Abs();
      ghost var k: nat := 0;
      NoCallsYet(s0);
      ClosingStep(s0, Abs(), k);
      var depth := mReceiveQueue.Depth();
      while depth < 0
        invariant ClosedSoFar(s0, Abs(), k) && Plain(mReceiveQueue.Abs())
        invariant depth == ToInt(Surplus(mReceiveQueue.Abs()))
        decreases |CloseCalls(s0.queue)| - k
      {
        ClosingStep(s0, Abs(), k);
        CallQueue(Produce(Failure(OperationAborted)));
        k := k + 1;
        ClosingStep(s0, Abs(), k);
        depth := mReceiveQueue.Depth();
      }
      while depth > 0
        invariant ClosedSoFar(s0, Abs(), k) && Plain(mReceiveQueue.Abs())
        invariant depth == ToInt(Surplus(mReceiveQueue.Abs())) >= 0
        decreases |CloseCalls(s0.queue)| - k
      {
        ClosingStep(s0, Abs(), k);
        CallQueue(Consume(DRAIN));
        k := k + 1;
        ClosingStep(s0, Abs(), k);
        depth := mReceiveQueue.Depth();
      }
      ClosingStep(s0, Abs(), k);
      CloseEmpties(s0);
      FeedAllKeepsRest(s0, CloseCalls(s0.queue));
      if mPtr.Some? {
        mClosed := mClosed + [mPtr.value];
      }
    }
  }

  lemma NoCallsYet(s: State)
    ensures ClosedSoFar(s, s, 0)
  {
    assert CloseCalls(s.queue)[..0] == [];
  }
}
