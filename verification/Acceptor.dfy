// The WebSocket acceptor: accept handlers wait in a producer/consumer queue for connections, and
// closing it aborts them all, including those that aborted handlers register again.
module Acceptor {
  import opened Asio
  import opened Basics
  import opened ProducerConsumerQueue

  // An accept operation of a user, or the handler with which close() discards connections.
  datatype Key = Accept(id: nat) | Drain

  // What is produced: an error code and a connection pointer, null (none) on close.
  datatype Arrival = Arrival(ec: ErrorCode, con: Option<Connection>)

  const ABORTED := Arrival(OperationAborted, None)

  type AcceptHandler = Handler<Key, Arrival>

  const DRAIN: AcceptHandler := Silent(Drain)

  // A user's handler may call asyncAccept, to any depth and depending on what it is called with,
  // but does not produce connections.
  predicate IsAccept(h: AcceptHandler) {
    && h.key.Accept?
    && (forall c <- h.otherwise :: c.Consume? && IsAccept(c.handler))
    && forall b <- h.branches :: forall c <- b.calls :: c.Consume? && IsAccept(c.handler)
  }

  // The handlers that may wait in the queue.
  predicate IsOurs(h: AcceptHandler) {
    h == DRAIN || IsAccept(h)
  }

  predicate AreAccepts(calls: seq<Call<Key, Arrival>>) {
    forall c <- calls :: c.Consume? && IsAccept(c.handler)
  }

  lemma {:induction false} ChosenAreAccepts(branches: seq<Branch<Key, Arrival>>,
                                               otherwise: seq<Call<Key, Arrival>>, d: Arrival)
    requires AreAccepts(otherwise) && forall b <- branches :: AreAccepts(b.calls)
    ensures AreAccepts(Choose(branches, otherwise, d))
  {
    if branches == [] {
    } else {
      ChosenAreAccepts(branches[1..], otherwise, d);
    }
  }

  lemma ScriptIsAccepts(h: AcceptHandler, d: Arrival)
    requires IsOurs(h)
    ensures AreAccepts(Script(h, d))
  {
    ChosenAreAccepts(h.branches, h.otherwise, d);
  }

  // The handlers that a sequence of calls registers.
  function Registered(calls: seq<Call<Key, Arrival>>): (hs: seq<AcceptHandler>)
    ensures HandlersWeight(hs) <= CallsWeight(calls)
  {
    if calls == [] then []
    else
      var rest := Registered(calls[1..]);
      if calls[0].Consume? then
        HandlersWeightAppend([calls[0].handler], rest);
        assert [calls[0].handler][1..] == [];
        [calls[0].handler] + rest
      else rest
  }

  // The waiting handlers after the first of them has been aborted.
  function Next(hs: seq<AcceptHandler>): (next: seq<AcceptHandler>)
    requires hs != []
    ensures HandlersWeight(next) < HandlersWeight(hs)
  {
    ScriptWeight(hs[0], ABORTED);
    HandlersWeightAppend(hs[1..], Registered(Script(hs[0], ABORTED)));
    hs[1..] + Registered(Script(hs[0], ABORTED))
  }

  // The order in which close() aborts: first come, first served, with the handlers that are
  // registered on the way at the end of the queue.
  function AbortOrder(hs: seq<AcceptHandler>): seq<AcceptHandler>
    decreases HandlersWeight(hs)
  {
    if hs == [] then [] else [hs[0]] + AbortOrder(Next(hs))
  }

  // All accepts there are to abort: the given ones and, for each, those that it registers.
  function Registrations(hs: seq<AcceptHandler>): multiset<AcceptHandler>
    decreases HandlersWeight(hs)
  {
    if hs == [] then multiset{}
    else
      ScriptWeight(hs[0], ABORTED);
      multiset{hs[0]} + Registrations(Registered(Script(hs[0], ABORTED))) + Registrations(hs[1..])
  }

  lemma {:induction false} RegistrationsAppend(a: seq<AcceptHandler>, b: seq<AcceptHandler>)
    ensures Registrations(a + b) == Registrations(a) + Registrations(b)
    decreases |a|
  {
    if a == [] {
      assert a + b == b;
    } else {
      assert (a + b)[1..] == a[1..] + b;
      RegistrationsAppend(a[1..], b);
    }
  }

  // Each of them is aborted, exactly once.
  lemma {:induction false} AbortsEachOnce(hs: seq<AcceptHandler>)
    ensures multiset(AbortOrder(hs)) == Registrations(hs)
    decreases HandlersWeight(hs)
  {
    if hs == [] {
    } else {
      AbortsEachOnce(Next(hs));
      RegistrationsAppend(hs[1..], Registered(Script(hs[0], ABORTED)));
      assert AbortOrder(hs) == [hs[0]] + AbortOrder(Next(hs));
    }
  }

  // The queue with more handlers waiting.
  function Lengthened(q: Queue<Key, Arrival>, hs: seq<AcceptHandler>): Queue<Key, Arrival> {
    q.(handlers := q.handlers + hs, consumed := q.consumed + hs)
  }

  lemma LengthenedTwice(q: Queue<Key, Arrival>, a: seq<AcceptHandler>, b: seq<AcceptHandler>)
    ensures Lengthened(Lengthened(q, a), b) == Lengthened(q, a + b)
    ensures Lengthened(q, []) == q
  {
    assert q.handlers + a + b == q.handlers + (a + b);
    assert q.consumed + a + b == q.consumed + (a + b);
    assert q.handlers + [] == q.handlers && q.consumed + [] == q.consumed;
  }

  lemma EnqueueLengthens(q: Queue<Key, Arrival>, h: AcceptHandler)
    ensures Enqueue(q, Consume(h)) == Lengthened(q, [h])
  {
  }

  // Handlers that register others while no connection waits only lengthen the queue.
  lemma {:induction false} RunRegisters(q: Queue<Key, Arrival>, calls: seq<Call<Key, Arrival>>)
    requires q.data == [] && forall i :: 0 <= i < |calls| ==> calls[i].Consume?
    ensures Run(q, calls) == Lengthened(q, Registered(calls))
    decreases |calls|
  {
    if calls == [] {
      LengthenedTwice(q, [], []);
    } else {
      hide Run, Lengthened;
      var h, rest := calls[0].handler, Registered(calls[1..]);
      assert Registered(calls) == [h] + rest;
      EnqueueLengthens(q, h);
      RunWaits(q, calls);
      RunRegisters(Enqueue(q, calls[0]), calls[1..]);
      LengthenedTwice(q, [h], rest);
    }
  }

  // One turn of the first loop of close(), while handlers wait.
  lemma AbortStep(q: Queue<Key, Arrival>)
    requires q.data == [] && q.handlers != [] && IsOurs(q.handlers[0])
    ensures var q' := Run(q, [Produce(ABORTED)]);
            && q'.handlers == Next(q.handlers) && q'.data == []
            && q'.produced == q.produced + [ABORTED]
            && q'.consumed == q.consumed + Registered(Script(q.handlers[0], ABORTED))
            && q'.invoked == q.invoked + [(q.handlers[0], ABORTED)]
  {
    RunSingle(q, Produce(ABORTED));
    ScriptIsAccepts(q.handlers[0], ABORTED);
    RunRegisters(Pop(Enqueue(q, Produce(ABORTED))), Script(q.handlers[0], ABORTED));
  }

  // One turn of the second loop, while connections wait.
  lemma DrainStep(q: Queue<Key, Arrival>)
    requires q.handlers == [] && q.data != []
    ensures Run(q, [Consume(DRAIN)]) ==
            q.(data := q.data[1..], consumed := q.consumed + [DRAIN], invoked := q.invoked + [(DRAIN, q.data[0])])
  {
    RunSingle(q, Consume(DRAIN));
    assert Script(DRAIN, q.data[0]) == [];
  }

  // ----- sizes that depth() can tell -----

  // As close() aborts handler after handler, never so many wait that depth() is wrong about it.
  predicate FitsThroughout(hs: seq<AcceptHandler>)
    decreases HandlersWeight(hs)
  {
    |hs| <= INT_MAX + 1 && (hs != [] ==> FitsThroughout(Next(hs)))
  }

  predicate Fits(q: Queue<Key, Arrival>) {
    if q.data != [] then |q.data| <= INT_MAX else FitsThroughout(q.handlers)
  }

  function Surplus(q: Queue<Key, Arrival>): int {
    |q.data| - |q.handlers|
  }

  ghost predicate AllOurs(q: Queue<Key, Arrival>) {
    Quiescent(q) && forall h <- q.handlers :: IsOurs(h)
  }

  // Both loops keep up whether the queue fits.
  lemma AbortKeepsFit(q: Queue<Key, Arrival>)
    requires AllOurs(q) && ToInt(Surplus(q)) < 0
    ensures var q' := Run(q, [Produce(ABORTED)]);
            && (Fits(q') <==> Fits(q))
            && (q.handlers != [] ==> HandlersWeight(q'.handlers) < HandlersWeight(q.handlers))
            && (q.handlers == [] ==> q'.handlers == [] && ToInt(Surplus(q')) == ToInt(Surplus(q)) + 1)
  {
    DepthTooFar(Surplus(q));
    DepthExact(|q.data|, |q.handlers|);
    DepthMoves(Surplus(q));
    if q.handlers != [] {
      assert q.handlers[0] in q.handlers;
      AbortStep(q);
    } else {
      RunSingle(q, Produce(ABORTED));
    }
  }

  lemma DrainKeepsFit(q: Queue<Key, Arrival>)
    requires AllOurs(q) && ToInt(Surplus(q)) > 0
    ensures var q' := Run(q, [Consume(DRAIN)]);
            (Fits(q') <==> Fits(q)) && ToInt(Surplus(q')) == ToInt(Surplus(q)) - 1
  {
    DepthTooFar(Surplus(q));
    DepthExact(|q.data|, |q.handlers|);
    DepthMoves(Surplus(q));
    if q.data != [] {
      DrainStep(q);
    } else {
      RunSingle(q, Consume(DRAIN));
    }
  }

  // Where the loops stop, the queue is empty if and only if it fits.
  lemma StoppedEmpty(q: Queue<Key, Arrival>)
    requires Quiescent(q) && ToInt(Surplus(q)) == 0
    ensures q.handlers == [] && q.data == [] <==> Fits(q)
  {
    DepthExact(|q.data|, |q.handlers|);
  }

  // While the queue fits, depth() has the sign of the surplus.
  lemma FitMeansExact(q: Queue<Key, Arrival>)
    requires Quiescent(q) && Fits(q)
    ensures ToInt(Surplus(q)) == Surplus(q)
  {
    DepthExact(|q.data|, |q.handlers|);
  }

  // ----- the calls that close() makes -----

  function Aborts(hs: seq<AcceptHandler>): (r: seq<(AcceptHandler, Arrival)>)
    ensures |r| == |hs| && forall i :: 0 <= i < |r| ==> r[i] == (hs[i], Arrival(OperationAborted, None))
  {
    seq(|hs|, i requires 0 <= i < |hs| => (hs[i], ABORTED))
  }

  function Discards(data: seq<Arrival>): (r: seq<(AcceptHandler, Arrival)>)
    ensures |r| == |data| && forall i :: 0 <= i < |r| ==> r[i] == (DRAIN, data[i])
  {
    seq(|data|, i requires 0 <= i < |data| => (DRAIN, data[i]))
  }

  // The first loop on its way from q0 to q, having aborted the handlers in `done`.
  ghost predicate Aborting(q0: Queue<Key, Arrival>, q: Queue<Key, Arrival>, done: seq<AcceptHandler>) {
    && q.data == q0.data
    && done + AbortOrder(q.handlers) == AbortOrder(q0.handlers)
    && q.invoked == q0.invoked + Aborts(done)
  }

  lemma AbortTurn(q0: Queue<Key, Arrival>, q: Queue<Key, Arrival>, done: seq<AcceptHandler>)
    requires Aborting(q0, q, done) && AllOurs(q) && Fits(q) && ToInt(Surplus(q)) < 0
    ensures q.handlers != [] && Aborting(q0, Run(q, [Produce(ABORTED)]), done + [q.handlers[0]])
  {
    FitMeansExact(q);
    var first := q.handlers[0];
    var next := Next(q.handlers);
    assert first in q.handlers;
    AbortStep(q);
    assert AbortOrder(q.handlers) == [first] + AbortOrder(next);
    assert done + ([first] + AbortOrder(next)) == (done + [first]) + AbortOrder(next);
    assert Aborts(done + [first]) == Aborts(done) + [(first, ABORTED)];
    assert q0.invoked + (Aborts(done) + [(first, ABORTED)]) == (q0.invoked + Aborts(done)) + [(first, ABORTED)];
  }

  // The second loop on its way from q0 to q, having discarded so many connections.
  ghost predicate Discarding(q0: Queue<Key, Arrival>, q: Queue<Key, Arrival>, gone: nat) {
    && q.handlers == q0.handlers == []
    && gone <= |q0.data| && q.data == q0.data[gone..]
    && q.invoked == q0.invoked + Discards(q0.data[..gone])
  }

  // Between the loops: everything that waited has been aborted, and nothing has been discarded.
  lemma AbortsDone(q0: Queue<Key, Arrival>, q: Queue<Key, Arrival>, done: seq<AcceptHandler>)
    requires Aborting(q0, q, done) && AllOurs(q) && Fits(q) && ToInt(Surplus(q)) >= 0
    ensures done == AbortOrder(q0.handlers) && Discarding(q, q, 0)
  {
    FitMeansExact(q);
    assert Discards(q.data[..0]) == [];
  }

  // After the loops.
  lemma DiscardsDone(q0: Queue<Key, Arrival>, q1: Queue<Key, Arrival>, q: Queue<Key, Arrival>,
                     done: seq<AcceptHandler>, gone: nat)
    requires Aborting(q0, q1, done) && done == AbortOrder(q0.handlers)
    requires Discarding(q1, q, gone) && q.data == []
    ensures q.invoked == q0.invoked + Aborts(AbortOrder(q0.handlers)) + Discards(q0.data)
  {
    assert q1.data[..gone] == q0.data;
  }

  lemma NoneAborted(q: Queue<Key, Arrival>)
    ensures Aborting(q, q, [])
  {
    assert Aborts([]) == [] && q.invoked + [] == q.invoked;
  }

  lemma DiscardTurn(q0: Queue<Key, Arrival>, q: Queue<Key, Arrival>, gone: nat)
    requires Discarding(q0, q, gone) && Fits(q) && ToInt(Surplus(q)) > 0
    ensures Discarding(q0, Run(q, [Consume(DRAIN)]), gone + 1)
  {
    FitMeansExact(q);
    DrainStep(q);
    assert Discards(q0.data[..gone + 1]) == Discards(q0.data[..gone]) + [(DRAIN, q.data[0])];
  }

  // Only these handlers ever wait in the queue.
  lemma {:induction false} CallsKeepOurs(q: Queue<Key, Arrival>, calls: seq<Call<Key, Arrival>>)
    requires forall h <- q.handlers :: IsOurs(h)
    requires forall c <- calls :: c.Consume? ==> IsOurs(c.handler)
    ensures forall h <- Run(q, calls).handlers :: IsOurs(h)
    decreases HandlersWeight(q.handlers) + CallsWeight(calls)
  {
    if calls == [] {
    } else {
      hide IsOurs, Choose;
      StepWeight(q, calls);
      var q' := Enqueue(q, calls[0]);
      assert forall h <- q'.handlers :: IsOurs(h);
      if q'.handlers != [] && q'.data != [] {
        var script := Script(q'.handlers[0], q'.data[0]);
        ScriptIsOurs(q'.handlers[0], q'.data[0]);
        CallsKeepOurs(Pop(q'), script + calls[1..]);
      } else {
        CallsKeepOurs(q', calls[1..]);
      }
    }
  }

  lemma ScriptIsOurs(h: AcceptHandler, d: Arrival)
    requires IsOurs(h)
    ensures forall c <- Script(h, d) :: c.Consume? ==> IsOurs(c.handler)
  {
    ScriptIsAccepts(h, d);
  }

  // ----- what handlers do besides -----

  // An accept that is called without an error first gives the connection to its message queue, and
  // the discarding handler closes the connection that it is called with.
  datatype Effect = HandedOver(id: nat, con: Option<Connection>) | Closed(con: Option<Connection>)

  function EffectOf(h: AcceptHandler, d: Arrival): seq<Effect> {
    if !d.ec.Success? then []
    else if h.key.Accept? then [HandedOver(h.key.id, d.con)]
    else [Closed(d.con)]
  }

  function Effects(invoked: seq<(AcceptHandler, Arrival)>): seq<Effect> {
    if invoked == [] then []
    else EffectOf(invoked[0].0, invoked[0].1) + Effects(invoked[1..])
  }

  lemma {:induction false} EffectsAppend(a: seq<(AcceptHandler, Arrival)>, b: seq<(AcceptHandler, Arrival)>)
    ensures Effects(a + b) == Effects(a) + Effects(b)
  {
    if a == [] {
      assert a + b == b;
    } else {
      assert (a + b)[1..] == a[1..] + b;
      EffectsAppend(a[1..], b);
    }
  }

  lemma {:induction false} AbortsHaveNone(hs: seq<AcceptHandler>)
    ensures Effects(Aborts(hs)) == []
  {
    if hs == [] {
    } else {
      assert Aborts(hs)[1..] == Aborts(hs[1..]);
      AbortsHaveNone(hs[1..]);
    }
  }

  // The connections of data without an error, closed in order.
  function ClosedOf(data: seq<Arrival>): seq<Effect> {
    if data == [] then []
    else (if data[0].ec == Success then [Closed(data[0].con)] else []) + ClosedOf(data[1..])
  }

  lemma {:induction false} DiscardsClose(data: seq<Arrival>)
    ensures Effects(Discards(data)) == ClosedOf(data)
  {
    if data == [] {
    } else {
      assert Discards(data)[1..] == Discards(data[1..]);
      DiscardsClose(data[1..]);
    }
  }

  lemma ServedEffects(invoked: seq<(AcceptHandler, Arrival)>, h: AcceptHandler, d: Arrival)
    ensures Effects(invoked + [(h, d)]) == Effects(invoked) + EffectOf(h, d)
  {
    EffectsAppend(invoked, [(h, d)]);
    assert [(h, d)][1..] == [];
  }

  // Which effect belongs to which invocation, in order: those without an error, and no others.
  ghost predicate Accounts(effects: seq<Effect>, invoked: seq<(AcceptHandler, Arrival)>, at: seq<nat>) {
    && |at| == |effects|
    && (forall e :: 0 <= e < |at| ==> at[e] < |invoked| && Explains(invoked[at[e]], effects[e]))
    && (forall e, f :: 0 <= e < f < |at| ==> at[e] < at[f])
    && forall k :: 0 <= k < |invoked| && invoked[k].1.ec == Success ==> k in at
  }

  ghost predicate Explains(p: (AcceptHandler, Arrival), e: Effect) {
    && p.1.ec == Success
    && match p.0.key
       case Accept(id) => e == HandedOver(id, p.1.con)
       case Drain => e == Closed(p.1.con)
  }

  lemma {:induction false} EffectsAccount(invoked: seq<(AcceptHandler, Arrival)>) returns (at: seq<nat>)
    ensures Accounts(Effects(invoked), invoked, at)
  {
    hide Accounts, Effects;
    if invoked == [] {
      at := [];
      NoAccount();
    } else {
      var (before, (h, d)) := (invoked[..|invoked| - 1], invoked[|invoked| - 1]);
      assert invoked == before + [(h, d)];
      at := EffectsAccount(before);
      ServedEffects(before, h, d);
      if d.ec == Success {
        OneMoreAccount(Effects(before), before, at, (h, d), EffectOf(h, d)[0]);
        at := at + [|before|];
      } else {
        NoMoreAccount(Effects(before), before, at, (h, d));
      }
    }
  }

  lemma NoAccount()
    ensures Accounts(Effects([]), [], [])
  {
  }

  lemma OneMoreAccount(effects: seq<Effect>, invoked: seq<(AcceptHandler, Arrival)>, at: seq<nat>,
                       p: (AcceptHandler, Arrival), e: Effect)
    requires Accounts(effects, invoked, at) && Explains(p, e)
    ensures Accounts(effects + [e], invoked + [p], at + [|invoked|])
  {
    hide Explains;
    var at' := at + [|invoked|];
    assert |invoked| in at';
    assert forall k :: k in at ==> k in at';
  }

  lemma NoMoreAccount(effects: seq<Effect>, invoked: seq<(AcceptHandler, Arrival)>, at: seq<nat>,
                      p: (AcceptHandler, Arrival))
    requires Accounts(effects, invoked, at) && p.1.ec != Success
    ensures Accounts(effects + [], invoked + [p], at)
  {
    hide Explains;
  }

  class AcceptorImpl {
    const mConnectionQueue: ProducerConsumerQueue<Key, Arrival>
    // The bodies that handleOpen has posted, as the connections they are for; the connections whose
    // callbacks have been cleared; and what the invoked handlers have done besides.
    var tasks: seq<Connection>
    var cleared: seq<Connection>
    var effects: seq<Effect>

    ghost predicate Valid()
      reads this, mConnectionQueue
    {
      && AllOurs(mConnectionQueue.Abs()) && InOrder(mConnectionQueue.Abs())
      && effects == Effects(mConnectionQueue.invoked)
    }

    constructor ()
      ensures Valid() && fresh(mConnectionQueue) && tasks == [] && cleared == []
      ensures mConnectionQueue.Abs() == Queue([], [], [], [], [])
    {
      mConnectionQueue := new ProducerConsumerQueue<Key, Arrival>();
      tasks, cleared, effects := [], [], [];
    }

    // A call of the queue. The effects of the handlers that it invokes happen in the order in which
    // the handlers are invoked and concern nothing that the queue holds, so they are recorded
    // afterwards.
    method CallQueue(c: Call<Key, Arrival>)
      requires Valid() && (c.Consume? ==> IsOurs(c.handler))
      modifies this`effects, mConnectionQueue
      ensures Valid() && mConnectionQueue.Abs() == Run(old(mConnectionQueue.Abs()), [c])
    {
      hide Run, Effects, IsOurs, InOrder;
      CallsKeepOurs(mConnectionQueue.Abs(), [c]);
      RunInOrder(mConnectionQueue.Abs(), [c]);
      ghost var before := mConnectionQueue.invoked;
      var n := |mConnectionQueue.invoked|;
      match c {
        case Consume(h) => mConnectionQueue.ConsumeHandler(h);
        case Produce(d) => mConnectionQueue.ProduceDatum(d);
      }
      assert mConnectionQueue.invoked == before + mConnectionQueue.invoked[n..];
      EffectsAppend(before, mConnectionQueue.invoked[n..]);
      effects := effects + Effects(mConnectionQueue.invoked[n..]);
    }

    method AsyncAccept(h: AcceptHandler)
      requires Valid() && IsAccept(h)
      modifies this`effects, mConnectionQueue
      ensures Valid() && mConnectionQueue.Abs() == Run(old(mConnectionQueue.Abs()), [Consume(h)])
      // Nothing happens besides while it waits; served, it first of all hands the connection over,
      // unless there is an error, and that is all if its handler accepts no other waiting one.
      ensures var data := old(mConnectionQueue.mData);
              if data == [] then effects == old(effects)
              else
                var served := if data[0].ec == Success then [HandedOver(h.key.id, data[0].con)] else [];
                && old(effects) + served <= effects
                && (Script(h, data[0]) == [] || |data| == 1 ==> effects == old(effects) + served)
    {
      ghost var q0 := mConnectionQueue.Abs();
      AcceptEffects(q0, h);
      CallQueue(Consume(h));
    }

    method HandleOpen(found: Option<Connection>)
      modifies this`tasks
      ensures tasks == if found.Some? then old(tasks) + [found.value] else old(tasks)
    {
      if found.Some? {
        tasks := tasks + [found.value];
      }
    }

    // Running the first posted body; the transport's error code is the environment's.
    method RunTask(transport: ErrorCode)
      requires Valid() && tasks != []
      modifies this, mConnectionQueue
      ensures Valid() && tasks == old(tasks)[1..] && cleared == old(cleared) + [old(tasks)[0]]
      ensures mConnectionQueue.Abs() ==
              Run(old(mConnectionQueue.Abs()), [Produce(Arrival(transport, Some(old(tasks)[0])))])
      // The first waiting accept is given the connection, unless there is an error; a discarding
      // handler closes it; nothing happens besides.
      ensures var hs := old(mConnectionQueue.mHandlers);
              effects == old(effects) +
                         if hs == [] || transport != Success then []
                         else if hs[0].key.Accept? then [HandedOver(hs[0].key.id, Some(old(tasks)[0]))]
                         else [Closed(Some(old(tasks)[0]))]
    {
      ArrivalEffects(mConnectionQueue.Abs(), Arrival(transport, Some(tasks[0])));
      var con := tasks[0];
      tasks := tasks[1..];
      cleared := cleared + [con];
      CallQueue(Produce(Arrival(transport, Some(con))));
    }

    // close() always ends. It ends with both sides of the queue empty exactly if depth() could tell
    // the size of the queue throughout; and then it has called every accept that waited, or was
    // registered meanwhile, with operation_aborted, and discarded every waiting connection.
    method Close()
      requires Valid()
      modifies this`effects, mConnectionQueue
      ensures Valid()
      ensures mConnectionQueue.mHandlers == [] && mConnectionQueue.mData == [] <==> Fits(old(mConnectionQueue.Abs()))
      ensures Fits(old(mConnectionQueue.Abs())) ==>
                mConnectionQueue.invoked ==
                old(mConnectionQueue.invoked) + Aborts(AbortOrder(old(mConnectionQueue.mHandlers)))
                + Discards(old(mConnectionQueue.mData))
      ensures Fits(old(mConnectionQueue.Abs())) ==> effects == old(effects) + ClosedOf(old(mConnectionQueue.mData))
    {
      hide Fits, ToInt, Run, Aborting, Discarding, AllOurs, InOrder;
      var q := mConnectionQueue;
      ghost var q0 := q.Abs();
      ghost var done: seq<AcceptHandler> := [];
      NoneAborted(q0);
      var depth := q.Depth();
      while depth < 0
        invariant Valid() && depth == ToInt(Surplus(q.Abs()))
        invariant Fits(q.Abs()) <==> Fits(q0)
        invariant Fits(q0) ==> Aborting(q0, q.Abs(), done)
        decreases HandlersWeight(q.mHandlers), -depth
      {
        AbortKeepsFit(q.Abs());
        if Fits(q0) {
          AbortTurn(q0, q.Abs(), done);
          done := done + [q.mHandlers[0]];
        }
        CallQueue(Produce(ABORTED));
        depth := q.Depth();
      }
      ghost var q1, gone: nat := q.Abs(), 0;
      if Fits(q0) { AbortsDone(q0, q1, done); }
      while depth > 0
        invariant Valid() && depth == ToInt(Surplus(q.Abs())) >= 0
        invariant Fits(q.Abs()) <==> Fits(q0)
        invariant Fits(q0) ==> Discarding(q1, q.Abs(), gone)
        decreases depth
      {
        DrainKeepsFit(q.Abs());
        if Fits(q0) {
          DiscardTurn(q1, q.Abs(), gone);
          gone := gone + 1;
        }
        CallQueue(Consume(DRAIN));
        depth := q.Depth();
      }
      QuiescentIfOurs(q.Abs());
      StoppedEmpty(q.Abs());
      if Fits(q0) {
        DiscardsDone(q0, q1, q.Abs(), done, gone);
        CloseEffects(q0, q.Abs());
      }
    }
  }

  lemma CloseEffects(q0: Queue<Key, Arrival>, q: Queue<Key, Arrival>)
    requires q.invoked == q0.invoked + Aborts(AbortOrder(q0.handlers)) + Discards(q0.data)
    ensures Effects(q.invoked) == Effects(q0.invoked) + ClosedOf(q0.data)
  {
    var aborts := Aborts(AbortOrder(q0.handlers));
    EffectsAppend(q0.invoked + aborts, Discards(q0.data));
    EffectsAppend(q0.invoked, aborts);
    AbortsHaveNone(AbortOrder(q0.handlers));
    DiscardsClose(q0.data);
  }

  lemma AcceptEffects(q: Queue<Key, Arrival>, h: AcceptHandler)
    requires AllOurs(q) && InOrder(q) && IsAccept(h)
    ensures var effects := Effects(Run(q, [Consume(h)]).invoked);
            if q.data == [] then effects == Effects(q.invoked)
            else
              var served := if q.data[0].ec == Success then [HandedOver(h.key.id, q.data[0].con)] else [];
              && Effects(q.invoked) + served <= effects
              && (Script(h, q.data[0]) == [] || |q.data| == 1 ==> effects == Effects(q.invoked) + served)
  {
    hide Effects, Run, InOrder;
    FirstInvoked(q, Consume(h));
    if q.data != [] {
      var (d, invoked, after) := (q.data[0], q.invoked + [(h, q.data[0])], Run(q, [Consume(h)]).invoked);
      ServedEffects(q.invoked, h, d);
      assert after == invoked + after[|invoked|..];
      EffectsAppend(invoked, after[|invoked|..]);
      if |q.data| == 1 { NothingElse(Enqueue(q, Consume(h))); RunSingle(q, Consume(h)); }
    }
  }

  lemma ArrivalEffects(q: Queue<Key, Arrival>, d: Arrival)
    requires AllOurs(q)
    ensures Effects(Run(q, [Produce(d)]).invoked) ==
            Effects(q.invoked) + if q.handlers == [] then [] else EffectOf(q.handlers[0], d)
  {
    hide Effects, Run;
    RunSingle(q, Produce(d));
    if q.handlers != [] {
      assert q.handlers[0] in q.handlers;
      NothingElse(Enqueue(q, Produce(d)));
      ServedEffects(q.invoked, q.handlers[0], d);
    }
  }

  // When the last waiting connection is served, the handler can only let others wait.
  lemma NothingElse(q: Queue<Key, Arrival>)
    requires q.handlers != [] && |q.data| == 1 && IsOurs(q.handlers[0])
    ensures Run(Pop(q), Script(q.handlers[0], q.data[0])).invoked == q.invoked + [(q.handlers[0], q.data[0])]
  {
    ScriptIsAccepts(q.handlers[0], q.data[0]);
    RunRegisters(Pop(q), Script(q.handlers[0], q.data[0]));
  }

  lemma QuiescentIfOurs(q: Queue<Key, Arrival>)
    requires AllOurs(q)
    ensures Quiescent(q)
  {
  }
}
