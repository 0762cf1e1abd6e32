// The producer/consumer queue, whose handlers run inside post() and may call consume and produce
// again: the class with its loop and its recursion, for handlers that are finite scripts, and the
// sequential execution of such scripts that the class turns out to be equal to.
module ProducerConsumerQueue {
  import opened QueueMachine

  // ----- depth() -----

  const SIZE_T: int := 0x1_0000_0000_0000_0000
  const UINT: int := 0x1_0000_0000
  const INT_MAX: int := 0x7FFF_FFFF

  // A difference of sizes in size_t arithmetic, converted to a 32-bit int.
  function ToInt(surplus: int): int {
    var low := (surplus % SIZE_T) % UINT;
    if low <= INT_MAX then low else low - UINT
  }

  function DepthOf(data: nat, handlers: nat): int {
    ToInt(data - handlers)
  }

  // The conversion changes the difference by a multiple of 2^32 only.
  lemma ToIntWraps(surplus: int) returns (k: int)
    ensures surplus == ToInt(surplus) + k * UINT && -INT_MAX - 1 <= ToInt(surplus) <= INT_MAX
  {
    var q, r := surplus / SIZE_T, surplus % SIZE_T;
    assert surplus == q * SIZE_T + r && SIZE_T == UINT * UINT;
    k := q * UINT + r / UINT + if r % UINT <= INT_MAX then 0 else 1;
  }

  lemma ToIntUnique(surplus: int, depth: int, k: int)
    requires surplus == depth + k * UINT && -INT_MAX - 1 <= depth <= INT_MAX
    ensures ToInt(surplus) == depth
  {
    var k' := ToIntWraps(surplus);
    assert (k - k') * UINT == ToInt(surplus) - depth;
  }

  // depth() is the surplus of data over handlers exactly when that fits in an int.
  lemma DepthExact(data: nat, handlers: nat)
    ensures DepthOf(data, handlers) == data - handlers <==> -INT_MAX - 1 <= data - handlers <= INT_MAX
  {
    var k := ToIntWraps(data - handlers);
    if -INT_MAX - 1 <= data - handlers <= INT_MAX {
      ToIntUnique(data - handlers, data - handlers, 0);
    }
  }

  // Whatever the sizes are, while depth() is negative one more datum brings it up by one, and while
  // it is positive one more handler brings it down by one.
  lemma DepthMoves(surplus: int)
    ensures ToInt(surplus) < 0 ==> ToInt(surplus + 1) == ToInt(surplus) + 1
    ensures ToInt(surplus) > 0 ==> ToInt(surplus - 1) == ToInt(surplus) - 1
  {
    var k := ToIntWraps(surplus);
    if ToInt(surplus) < 0 { ToIntUnique(surplus + 1, ToInt(surplus) + 1, k); }
    if ToInt(surplus) > 0 { ToIntUnique(surplus - 1, ToInt(surplus) - 1, k); }
  }

  // A surplus that does not fit in an int is at least 2^32 away from zero where depth() has its
  // sign, or is zero.
  lemma DepthTooFar(surplus: int)
    ensures surplus < -INT_MAX - 1 && ToInt(surplus) < 0 ==> surplus < -UINT
    ensures surplus > INT_MAX && ToInt(surplus) > 0 ==> surplus > UINT
    ensures ToInt(surplus) == 0 && surplus != 0 ==> surplus <= -UINT || surplus >= UINT
  {
    var k := ToIntWraps(surplus);
  }

  // ----- handlers as scripts -----

  // A handler with the calls that it makes when it is invoked, which may depend on the datum: those
  // of the first branch for that datum, or the others.
  datatype Handler<K, D> = Handler(key: K, branches: seq<Branch<K, D>>, otherwise: seq<Call<K, D>>)
  datatype Branch<K, D> = Branch(datum: D, calls: seq<Call<K, D>>)
  datatype Call<K, D> = Consume(handler: Handler<K, D>) | Produce(datum: D)

  function Choose<K, D(==)>(branches: seq<Branch<K, D>>, otherwise: seq<Call<K, D>>, d: D): seq<Call<K, D>> {
    if branches == [] then otherwise
    else if branches[0].datum == d then branches[0].calls
    else Choose(branches[1..], otherwise, d)
  }

  function Script<K, D(==)>(h: Handler<K, D>, d: D): seq<Call<K, D>> {
    Choose(h.branches, h.otherwise, d)
  }

  // A handler that makes no calls on the queue.
  function Silent<K, D>(key: K): Handler<K, D> {
    Handler(key, [], [])
  }

  datatype Queue<K, D> = Queue(handlers: seq<Handler<K, D>>, data: seq<D>,
                               consumed: seq<Handler<K, D>>, produced: seq<D>,
                               invoked: seq<(Handler<K, D>, D)>)

  ghost predicate Quiescent<K, D>(q: Queue<K, D>) {
    q.handlers == [] || q.data == []
  }

  ghost predicate InOrder<K, D>(q: Queue<K, D>) {
    Fifo(q.handlers, q.data, q.consumed, q.produced, q.invoked)
  }

  // Everything that the waiting handlers and the calls can still set off.
  function CallWeight<K, D>(c: Call<K, D>): nat {
    match c
    case Consume(h) => 1 + HandlerWeight(h)
    case Produce(_) => 1
  }

  function HandlerWeight<K, D>(h: Handler<K, D>): nat {
    1 + BranchesWeight(h.branches) + CallsWeight(h.otherwise)
  }

  function BranchesWeight<K, D>(branches: seq<Branch<K, D>>): nat {
    if branches == [] then 0 else CallsWeight(branches[0].calls) + BranchesWeight(branches[1..])
  }

  function CallsWeight<K, D>(calls: seq<Call<K, D>>): nat {
    if calls == [] then 0 else CallWeight(calls[0]) + CallsWeight(calls[1..])
  }

  function HandlersWeight<K, D>(hs: seq<Handler<K, D>>): nat {
    if hs == [] then 0 else HandlerWeight(hs[0]) + HandlersWeight(hs[1..])
  }

  // No script outweighs its handler.
  lemma {:induction false} ChooseWeight<K, D>(branches: seq<Branch<K, D>>, otherwise: seq<Call<K, D>>, d: D)
    ensures CallsWeight(Choose(branches, otherwise, d)) <= BranchesWeight(branches) + CallsWeight(otherwise)
  {
    if branches == [] {
    } else {
      ChooseWeight(branches[1..], otherwise, d);
    }
  }

  lemma ScriptWeight<K, D>(h: Handler<K, D>, d: D)
    ensures CallsWeight(Script(h, d)) < HandlerWeight(h)
  {
    ChooseWeight(h.branches, h.otherwise, d);
  }

  lemma {:induction false} CallsWeightAppend<K, D>(a: seq<Call<K, D>>, b: seq<Call<K, D>>)
    ensures CallsWeight(a + b) == CallsWeight(a) + CallsWeight(b)
  {
    if a == [] {
      assert a + b == b;
    } else {
      assert (a + b)[1..] == a[1..] + b;
      CallsWeightAppend(a[1..], b);
    }
  }

  lemma {:induction false} HandlersWeightAppend<K, D>(a: seq<Handler<K, D>>, b: seq<Handler<K, D>>)
    ensures HandlersWeight(a + b) == HandlersWeight(a) + HandlersWeight(b)
  {
    if a == [] {
      assert a + b == b;
    } else {
      assert (a + b)[1..] == a[1..] + b;
      HandlersWeightAppend(a[1..], b);
    }
  }

  function Pop<K, D>(q: Queue<K, D>): (q': Queue<K, D>)
    requires q.handlers != [] && q.data != []
  {
    q.(handlers := q.handlers[1..], data := q.data[1..], invoked := q.invoked + [(q.handlers[0], q.data[0])])
  }

  function Enqueue<K, D>(q: Queue<K, D>, c: Call<K, D>): Queue<K, D> {
    match c
    case Consume(h) => q.(handlers := q.handlers + [h], consumed := q.consumed + [h])
    case Produce(d) => q.(data := q.data + [d], produced := q.produced + [d])
  }

  // What an enqueued call can still set off, wherever it now waits.
  lemma EnqueueWeight<K, D>(q: Queue<K, D>, c: Call<K, D>)
    ensures HandlersWeight(Enqueue(q, c).handlers) + 1 == HandlersWeight(q.handlers) + CallWeight(c)
  {
    match c
    case Consume(h) =>
      assert [h][1..] == [];
      HandlersWeightAppend(q.handlers, [h]);
    case Produce(_) =>
  }

  // Each step of the execution lessens what can still be set off.
  lemma StepWeight<K, D>(q: Queue<K, D>, calls: seq<Call<K, D>>)
    requires calls != []
    ensures var q' := Enqueue(q, calls[0]);
            if q'.handlers != [] && q'.data != []
            then HandlersWeight(Pop(q').handlers) + CallsWeight(Script(q'.handlers[0], q'.data[0]) + calls[1..])
                 < HandlersWeight(q.handlers) + CallsWeight(calls)
            else HandlersWeight(q'.handlers) + CallsWeight(calls[1..])
                 < HandlersWeight(q.handlers) + CallsWeight(calls)
  {
    EnqueueWeight(q, calls[0]);
    var q' := Enqueue(q, calls[0]);
    if q'.handlers != [] && q'.data != [] {
      ScriptWeight(q'.handlers[0], q'.data[0]);
      CallsWeightAppend(Script(q'.handlers[0], q'.data[0]), calls[1..]);
    }
  }

  // Sequential execution without nesting: a call that completes a pair is replaced by the calls of
  // the handler, in front of the calls that were to follow.
  function Run<K, D(==)>(q: Queue<K, D>, calls: seq<Call<K, D>>): Queue<K, D>
    decreases HandlersWeight(q.handlers) + CallsWeight(calls)
  {
    if calls == [] then q
    else
      StepWeight(q, calls);
      var q' := Enqueue(q, calls[0]);
      if q'.handlers != [] && q'.data != [] then
        Run(Pop(q'), Script(q'.handlers[0], q'.data[0]) + calls[1..])
      else
        Run(q', calls[1..])
  }

  // One call that finds nothing to pair with.
  lemma RunWaits<K, D>(q: Queue<K, D>, calls: seq<Call<K, D>>)
    requires calls != []
    requires Enqueue(q, calls[0]).handlers == [] || Enqueue(q, calls[0]).data == []
    ensures Run(q, calls) == Run(Enqueue(q, calls[0]), calls[1..])
  {
    EnqueueWeight(q, calls[0]);
  }

  lemma {:induction false} RunAppend<K, D>(q: Queue<K, D>, a: seq<Call<K, D>>, b: seq<Call<K, D>>)
    ensures Run(q, a + b) == Run(Run(q, a), b)
    decreases HandlersWeight(q.handlers) + CallsWeight(a)
  {
    hide HandlersWeight, CallsWeight;
    if a == [] {
      assert a + b == b;
    } else {
      var rest := a[1..];
      assert (a + b)[1..] == rest + b && (a + b)[0] == a[0];
      StepWeight(q, a);
      var q' := Enqueue(q, a[0]);
      if q'.handlers != [] && q'.data != [] {
        var body := Script(q'.handlers[0], q'.data[0]);
        RunAppend(Pop(q'), body + rest, b);
        assert body + (rest + b) == (body + rest) + b;
      } else {
        RunAppend(q', rest, b);
      }
    }
  }

  // The execution of a single call.
  lemma RunSingle<K, D>(q: Queue<K, D>, c: Call<K, D>)
    ensures var q' := Enqueue(q, c);
            Run(q, [c]) ==
            if q'.handlers != [] && q'.data != [] then Run(Pop(q'), Script(q'.handlers[0], q'.data[0])) else q'
  {
    var q' := Enqueue(q, c);
    assert [c][1..] == [];
    if q'.handlers != [] && q'.data != [] {
      assert Script(q'.handlers[0], q'.data[0]) + [c][1..] == Script(q'.handlers[0], q'.data[0]);
    } else {
      assert Run(q', []) == q';
    }
  }

  // Execution ends with one of the queues empty.
  lemma {:induction false} RunQuiescent<K, D>(q: Queue<K, D>, calls: seq<Call<K, D>>)
    requires Quiescent(q)
    ensures Quiescent(Run(q, calls))
    decreases HandlersWeight(q.handlers) + CallsWeight(calls)
  {
    hide HandlersWeight, CallsWeight;
    if calls == [] {
    } else {
      StepWeight(q, calls);
      var q' := Enqueue(q, calls[0]);
      if q'.handlers != [] && q'.data != [] {
        RunQuiescent(Pop(q'), Script(q'.handlers[0], q'.data[0]) + calls[1..]);
      } else {
        RunQuiescent(q', calls[1..]);
      }
    }
  }

  // Execution keeps the FIFO pairing and only adds to the history.
  lemma {:induction false} RunInOrder<K, D>(q: Queue<K, D>, calls: seq<Call<K, D>>)
    requires InOrder(q)
    ensures InOrder(Run(q, calls))
    ensures q.invoked <= Run(q, calls).invoked
    ensures q.consumed <= Run(q, calls).consumed && q.produced <= Run(q, calls).produced
    decreases HandlersWeight(q.handlers) + CallsWeight(calls)
  {
    hide HandlersWeight, CallsWeight;
    if calls == [] {
    } else {
      StepWeight(q, calls);
      var q' := Enqueue(q, calls[0]);
      EnqueueInOrder(q, calls[0]);
      if q'.handlers != [] && q'.data != [] {
        PopInOrder(q');
        RunInOrder(Pop(q'), Script(q'.handlers[0], q'.data[0]) + calls[1..]);
      } else {
        RunInOrder(q', calls[1..]);
      }
    }
  }

  lemma EnqueueInOrder<K, D>(q: Queue<K, D>, c: Call<K, D>)
    requires InOrder(q)
    ensures InOrder(Enqueue(q, c))
    ensures var q' := Enqueue(q, c); q.invoked == q'.invoked && q.consumed <= q'.consumed && q.produced <= q'.produced
  {
  }

  lemma PopInOrder<K, D>(q: Queue<K, D>)
    requires InOrder(q) && q.handlers != [] && q.data != []
    ensures InOrder(Pop(q))
  {
  }

  // What a single call completes first.
  lemma FirstInvoked<K, D>(q: Queue<K, D>, c: Call<K, D>)
    requires InOrder(q)
    ensures var q' := Enqueue(q, c);
            if q'.handlers != [] && q'.data != [] then
              && q.invoked + [(q'.handlers[0], q'.data[0])] <= Run(q, [c]).invoked
              && (Script(q'.handlers[0], q'.data[0]) == [] ==> Run(q, [c]) == Pop(q'))
            else Run(q, [c]) == q'
  {
    RunSingle(q, c);
    EnqueueInOrder(q, c);
    var q' := Enqueue(q, c);
    if q'.handlers != [] && q'.data != [] {
      PopInOrder(q');
      RunInOrder(Pop(q'), Script(q'.handlers[0], q'.data[0]));
    }
  }

  // ----- every call is made -----

  // The script for a datum is the first branch for it, or the others if there is none.
  lemma {:induction false} ScriptMeaning<K, D>(h: Handler<K, D>, d: D, k: nat)
    requires k <= |h.branches| && forall i :: 0 <= i < k ==> h.branches[i].datum != d
    requires k < |h.branches| ==> h.branches[k].datum == d
    ensures Script(h, d) == if k < |h.branches| then h.branches[k].calls else h.otherwise
    decreases k
  {
    if k == 0 {
    } else {
      ScriptMeaning(h.(branches := h.branches[1..]), d, k - 1);
    }
  }

  // The calls that have been made on a queue, in any order.
  ghost function Made<K, D>(q: Queue<K, D>): multiset<Call<K, D>> {
    multiset(seq(|q.consumed|, i requires 0 <= i < |q.consumed| => Call<K, D>.Consume(q.consumed[i])))
    + multiset(seq(|q.produced|, i requires 0 <= i < |q.produced| => Call<K, D>.Produce(q.produced[i])))
  }

  // The calls that the invoked handlers have to make.
  ghost function Due<K, D>(invoked: seq<(Handler<K, D>, D)>): multiset<Call<K, D>> {
    if invoked == [] then multiset{}
    else
      var (h, d) := invoked[|invoked| - 1];
      Due(invoked[..|invoked| - 1]) + multiset(Script(h, d))
  }

  lemma EnqueueMakes<K, D>(q: Queue<K, D>, c: Call<K, D>)
    ensures Made(Enqueue(q, c)) == Made(q) + multiset{c} && Enqueue(q, c).invoked == q.invoked
  {
    var q' := Enqueue(q, c);
    match c
    case Consume(h) =>
      assert seq(|q'.consumed|, i requires 0 <= i < |q'.consumed| => Call<K, D>.Consume(q'.consumed[i])) ==
             seq(|q.consumed|, i requires 0 <= i < |q.consumed| => Call<K, D>.Consume(q.consumed[i])) + [c];
    case Produce(d) =>
      assert seq(|q'.produced|, i requires 0 <= i < |q'.produced| => Call<K, D>.Produce(q'.produced[i])) ==
             seq(|q.produced|, i requires 0 <= i < |q.produced| => Call<K, D>.Produce(q.produced[i])) + [c];
  }

  lemma PopOwes<K, D>(q: Queue<K, D>)
    requires q.handlers != [] && q.data != []
    ensures Due(Pop(q).invoked) == Due(q.invoked) + multiset(Script(q.handlers[0], q.data[0]))
    ensures Made(Pop(q)) == Made(q)
  {
    assert Pop(q).invoked[..|q.invoked|] == q.invoked;
  }

  lemma Balance<C>(made': multiset<C>, due: multiset<C>, script: multiset<C>, made: multiset<C>,
                   first: multiset<C>, rest: multiset<C>, due': multiset<C>)
    requires made' + (due + script) == (made + first) + (script + rest) + due'
    ensures made' + due == made + (first + rest) + due'
  {
    forall c ensures (made' + due)[c] == (made + (first + rest) + due')[c] {
      assert (made' + (due + script))[c] == ((made + first) + (script + rest) + due')[c];
    }
  }

  // Execution makes exactly the given calls and those of the scripts of the handlers that it
  // invokes, each once.
  lemma {:induction false} RunMakesAllCalls<K, D>(q: Queue<K, D>, calls: seq<Call<K, D>>)
    ensures Made(Run(q, calls)) + Due(q.invoked) == Made(q) + multiset(calls) + Due(Run(q, calls).invoked)
    decreases HandlersWeight(q.handlers) + CallsWeight(calls)
  {
    hide HandlersWeight, CallsWeight, Made, Due, Script;
    if calls == [] {
    } else {
      StepWeight(q, calls);
      var q' := Enqueue(q, calls[0]);
      EnqueueMakes(q, calls[0]);
      assert calls == [calls[0]] + calls[1..];
      if q'.handlers != [] && q'.data != [] {
        var script := Script(q'.handlers[0], q'.data[0]);
        PopOwes(q');
        RunMakesAllCalls(Pop(q'), script + calls[1..]);
        assert Run(q, calls) == Run(Pop(q'), script + calls[1..]);
        Balance(Made(Run(q, calls)), Due(q.invoked), multiset(script), Made(q), multiset{calls[0]},
                multiset(calls[1..]), Due(Run(q, calls).invoked));
      } else {
        RunMakesAllCalls(q', calls[1..]);
      }
    }
  }

  // What execution leaves waiting weighs less than what it was given.
  lemma {:induction false} RunWeight<K, D>(q: Queue<K, D>, calls: seq<Call<K, D>>)
    ensures HandlersWeight(Run(q, calls).handlers) <= HandlersWeight(q.handlers) + CallsWeight(calls)
    ensures calls != [] ==> HandlersWeight(Run(q, calls).handlers) < HandlersWeight(q.handlers) + CallsWeight(calls)
    decreases HandlersWeight(q.handlers) + CallsWeight(calls)
  {
    hide HandlersWeight, CallsWeight;
    if calls == [] {
    } else {
      StepWeight(q, calls);
      var q' := Enqueue(q, calls[0]);
      if q'.handlers != [] && q'.data != [] {
        RunWeight(Pop(q'), Script(q'.handlers[0], q'.data[0]) + calls[1..]);
      } else {
        RunWeight(q', calls[1..]);
      }
    }
  }

  // ----- scripts are behaviours of the machine -----

  function MachineOf<K, D>(q: Queue<K, D>, stack: seq<Frame>): Machine<Handler<K, D>, D> {
    Machine(q.handlers, q.data, stack, q.consumed, q.produced, q.invoked)
  }

  ghost predicate Leads<H(!new), D(!new)>(m: Machine<H, D>, m': Machine<H, D>) {
    exists run, actions :: IsPath(run, actions) && run[0] == m && run[|run| - 1] == m'
  }

  lemma LeadsByStep<H(!new), D(!new)>(m: Machine<H, D>, a: Action<H, D>)
    requires Enabled(m, a)
    ensures Leads(m, Step(m, a))
  {
    var run := [m, Step(m, a)];
    assert IsPath(run, [a]) && run[0] == m && run[|run| - 1] == Step(m, a);
  }

  lemma LeadsTransitive<H(!new), D(!new)>(m: Machine<H, D>, m': Machine<H, D>, m'': Machine<H, D>)
    requires Leads(m, m') && Leads(m', m'')
    ensures Leads(m, m'')
  {
    var r1, a1 :| IsPath(r1, a1) && r1[0] == m && r1[|r1| - 1] == m';
    var r2, a2 :| IsPath(r2, a2) && r2[0] == m' && r2[|r2| - 1] == m'';
    var run, actions := r1 + r2[1..], a1 + a2;
    assert forall i :: |a1| <= i < |run| ==> run[i] == r2[i - |a1|];
    assert forall i :: |a1| <= i < |actions| ==> actions[i] == a2[i - |a1|];
    assert IsPath(run, actions);
  }

  // Executing scripts is one of the things that user code can do: the machine gets from before the
  // calls to after them, through nested calls of post(), with the same call stack at the end.
  lemma {:induction false} ScriptsAreRuns<K(!new), D(!new)>(q: Queue<K, D>, stack: seq<Frame>, calls: seq<Call<K, D>>)
    requires UserRuns(MachineOf(q, stack)) && Quiescent(q)
    ensures Leads(MachineOf(q, stack), MachineOf(Run(q, calls), stack))
    decreases HandlersWeight(q.handlers) + CallsWeight(calls), 1
  {
    if calls == [] {
      var run := [MachineOf(q, stack)];
      var actions: seq<Action<Handler<K, D>, D>> := [];
      assert IsPath(run, actions) && run[0] == run[|run| - 1];
    } else {
      var q1 := Run(q, [calls[0]]);
      assert [calls[0]] + calls[1..] == calls;
      CallsWeightAppend([calls[0]], calls[1..]);
      RunAppend(q, [calls[0]], calls[1..]);
      RunWeight(q, [calls[0]]);
      RunQuiescent(q, [calls[0]]);
      CallIsRun(q, stack, calls[0]);
      ScriptsAreRuns(q1, stack, calls[1..]);
      LeadsTransitive(MachineOf(q, stack), MachineOf(q1, stack), MachineOf(Run(q, calls), stack));
    }
  }

  lemma {:induction false} CallIsRun<K(!new), D(!new)>(q: Queue<K, D>, stack: seq<Frame>, c: Call<K, D>)
    requires UserRuns(MachineOf(q, stack)) && Quiescent(q)
    ensures Leads(MachineOf(q, stack), MachineOf(Run(q, [c]), stack))
    decreases HandlersWeight(q.handlers) + CallsWeight([c]), 0
  {
    hide Leads, Run, Choose;
    var q' := Enqueue(q, c);
    EnqueueWeight(q, c);
    RunSingle(q, c);
    var m0 := MachineOf(q, stack);
    var m1 := MachineOf(q', [PostFrame(0)] + stack);
    LeadsByStep(m0, match c case Consume(h) => CallConsume(h) case Produce(d) => CallProduce(d));
    LeadsByStep(m1, Post);
    if q'.handlers != [] && q'.data != [] {
      var body := Script(q'.handlers[0], q'.data[0]);
      var inner := [UserFrame, PostFrame(1)] + stack;
      var m2 := MachineOf(Pop(q'), inner);
      assert Step(m1, Post) == m2;
      RunQuiescent(Pop(q'), body);
      ScriptWeight(q'.handlers[0], q'.data[0]);
      ScriptsAreRuns(Pop(q'), inner, body);
      var m3 := MachineOf(Run(Pop(q'), body), inner);
      LeadsByStep(m3, Return);
      var m4 := Step(m3, Return);
      assert m4.stack == [PostFrame(1)] + stack;
      LeadsByStep(m4, Post);
      assert Step(m4, Post).stack == stack;
      LeadsTransitive(m0, m1, m2);
      LeadsTransitive(m0, m2, m3);
      LeadsTransitive(m0, m3, m4);
      LeadsTransitive(m0, m4, MachineOf(Run(q, [c]), stack));
    } else {
      assert Step(m1, Post).stack == stack;
      LeadsTransitive(m0, m1, MachineOf(q', stack));
    }
  }

  // ----- the class -----

  class ProducerConsumerQueue<K, D(==)> {
    var mHandlers: seq<Handler<K, D>>
    var mData: seq<D>
    // Not fields of the original: the calls made on the queue and the handlers it has invoked.
    ghost var consumed: seq<Handler<K, D>>
    ghost var produced: seq<D>
    var invoked: seq<(Handler<K, D>, D)>

    constructor ()
      ensures Abs() == Queue([], [], [], [], [])
    {
      mHandlers, mData, invoked := [], [], [];
      consumed, produced := [], [];
    }

    ghost function Abs(): Queue<K, D>
      reads this
    {
      Queue(mHandlers, mData, consumed, produced, invoked)
    }

    // The re-entrant calls come to the same as executing the script of each handler in place.
    method ConsumeHandler(h: Handler<K, D>)
      requires Quiescent(Abs())
      modifies this
      ensures Abs() == Run(old(Abs()), [Consume(h)]) && Quiescent(Abs())
      decreases HandlersWeight(mHandlers) + CallWeight(Consume(h)), 0
    {
      RunSingle(Abs(), Consume(h));
      EnqueueWeight(Abs(), Consume(h));
      mHandlers := mHandlers + [h];
      consumed := consumed + [h];
      PostPairs();
    }

    method ProduceDatum(d: D)
      requires Quiescent(Abs())
      modifies this
      ensures Abs() == Run(old(Abs()), [Produce(d)]) && Quiescent(Abs())
      decreases HandlersWeight(mHandlers) + 1, 0
    {
      RunSingle(Abs(), Produce(d));
      mData := mData + [d];
      produced := produced + [d];
      PostPairs();
    }

    method Depth() returns (depth: int)
      ensures depth == DepthOf(|mData|, |mHandlers|)
    {
      depth := DepthOf(|mData|, |mHandlers|);
    }

    // post(): the loop body is executed at most once, because the handler leaves nothing to pair.
    method PostPairs()
      requires mHandlers == [] || mData == [] || Quiescent(Pop(Abs()))
      modifies this
      ensures Abs() ==
              if old(mHandlers) != [] && old(mData) != []
              then Run(Pop(old(Abs())), Script(old(mHandlers)[0], old(mData)[0]))
              else old(Abs())
      ensures Quiescent(Abs())
      decreases HandlersWeight(mHandlers), 0
    {
      ghost var paired := false;
      while |mHandlers| > 0 && |mData| > 0
        invariant !paired ==> Abs() == old(Abs())
        invariant paired ==> Quiescent(Abs()) && old(mHandlers) != [] && old(mData) != []
        invariant paired ==> Abs() == Run(Pop(old(Abs())), Script(old(mHandlers)[0], old(mData)[0]))
        decreases !paired
      {
        var handler, result := mHandlers[0], mData[0];
        mHandlers, mData := mHandlers[1..], mData[1..];
        invoked := invoked + [(handler, result)];
        ScriptWeight(handler, result);
        Invoke(Script(handler, result));
        paired := true;
      }
    }

    // The calls that a handler makes.
    method Invoke(calls: seq<Call<K, D>>)
      requires Quiescent(Abs())
      modifies this
      ensures Abs() == Run(old(Abs()), calls) && Quiescent(Abs())
      decreases HandlersWeight(mHandlers) + CallsWeight(calls), 1
    {
      if calls != [] {
        CallsWeightAppend([calls[0]], calls[1..]);
        RunWeight(Abs(), [calls[0]]);
        RunAppend(Abs(), [calls[0]], calls[1..]);
        assert [calls[0]] + calls[1..] == calls;
        match calls[0] {
          case Consume(h) => ConsumeHandler(h);
          case Produce(d) => ProduceDatum(d);
        }
        Invoke(calls[1..]);
      }
    }
  }
}
