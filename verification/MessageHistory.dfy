// What the runs of the message queue come to, in terms of what has happened: what arrived, who
// asked for it, and with what the receives complete.
module MessageHistory {
  import opened Asio
  import opened Basics
  import opened ProducerConsumerQueue
  import opened MessageQueue

  // ----- what arrives, and who waits for it -----

  function Positive(n: int): nat {
    if n > 0 then n else 0
  }

  // What an action produces: its message; on a close callback the transport's own error, or
  // operation_aborted if it recorded none; on close() an aborted datum as often as depth() is
  // below zero.
  function ArrivesBy(s: State, a: Action): seq<Arrival> {
    match a
    case HandleMessage(payload) => [Message(payload)]
    case HandleClose(transport) => [Failure(if transport.Success? then OperationAborted else transport)]
    case Close => seq(Positive(-ToInt(Surplus(s.queue))), _ => Failure(OperationAborted))
    case _ => []
  }

  // Whom an action lets wait: the receive whose body finds the transport well; on close() a
  // discarding handler as often as depth() is above zero.
  function AsksBy(s: State, a: Action): seq<Receiver> {
    match a
    case RunReceive(transport) =>
      if transport.Success? && s.tasks != [] && s.tasks[0].ReceiveBody?
      then [Receiving(s.tasks[0].id, s.tasks[0].size)] else []
    case Close => seq(Positive(ToInt(Surplus(s.queue))), _ => DRAIN)
    case _ => []
  }

  function Arrivals(run: seq<State>, actions: seq<Action>, i: nat): seq<Arrival>
    requires i < |run| && i <= |actions|
  {
    if i == 0 then [] else Arrivals(run, actions, i - 1) + ArrivesBy(run[i - 1], actions[i - 1])
  }

  function Askers(run: seq<State>, actions: seq<Action>, i: nat): seq<Receiver>
    requires i < |run| && i <= |actions|
  {
    if i == 0 then [] else Askers(run, actions, i - 1) + AsksBy(run[i - 1], actions[i - 1])
  }

  lemma FeedHistory(s: State, c: Call<Key, Arrival>)
    requires Plain(s.queue) && IsPlainCall(c)
    ensures var (q, q') := (s.queue, Feed(s, c).queue);
            && Plain(q')
            && q'.produced == q.produced + (if c.Produce? then [c.datum] else [])
            && q'.consumed == q.consumed + (if c.Consume? then [c.handler] else [])
  {
    hide Feed, Run, InOrder, Outcomes, Finishes;
    FeedMeaning(s, c);
  }

  lemma {:induction false} ClosingHistory(s: State, k: nat)
    requires Plain(s.queue) && k <= |CloseCalls(s.queue)|
    ensures var (q, q', up) := (s.queue, FeedAll(s, CloseCalls(s.queue)[..k]).queue, ToInt(Surplus(s.queue)) < 0);
            && Plain(q')
            && q'.produced == q.produced + seq(if up then k else 0, _ => Failure(OperationAborted))
            && q'.consumed == q.consumed + seq(if up then 0 else k, _ => DRAIN)
  {
    hide Feed, Plain, Surplus, ToInt;
    var calls := CloseCalls(s.queue);
    if k == 0 {
      assert calls[..0] == [];
    } else {
      hide FeedAll;
      ClosingHistory(s, k - 1);
      NextCall(s, calls, k - 1);
      FeedHistory(FeedAll(s, calls[..k - 1]), calls[k - 1]);
      assert seq(k, _ => Failure(OperationAborted)) ==
             seq(k - 1, _ => Failure(OperationAborted)) + [Failure(OperationAborted)];
      assert seq(k, _ => DRAIN) == seq(k - 1, _ => DRAIN) + [DRAIN];
    }
  }

  lemma CloseHistory(s: State)
    requires Plain(s.queue)
    ensures Step(s, Close).queue.produced == s.queue.produced + ArrivesBy(s, Close)
    ensures Step(s, Close).queue.consumed == s.queue.consumed + AsksBy(s, Close)
  {
    hide FeedAll, Plain;
    var calls := CloseCalls(s.queue);
    ClosingHistory(s, |calls|);
    assert calls[..|calls|] == calls;
  }

  lemma StepHistory(s: State, a: Action)
    requires Plain(s.queue) && Enabled(s, a)
    ensures Step(s, a).queue.produced == s.queue.produced + ArrivesBy(s, a)
    ensures Step(s, a).queue.consumed == s.queue.consumed + AsksBy(s, a)
  {
    hide Feed, FeedAll, Plain;
    match a
    case RunReceive(ec) =>
      var t := s.tasks[0];
      if ec.Success? { FeedHistory(s.(tasks := s.tasks[1..]), Consume(Receiving(t.id, t.size))); }
    case HandleMessage(payload) => FeedHistory(s, Produce(Message(payload)));
    case HandleClose(ec) => FeedHistory(s, Produce(Failure(if ec.Success? then OperationAborted else ec)));
    case Close => CloseHistory(s);
    case _ =>
  }

  // In every run the queue has been given exactly what arrived, and exactly those who asked.
  lemma {:induction false} HistoryIsArrivals(run: seq<State>, actions: seq<Action>, i: nat)
    requires IsRun(run, actions) && i < |run|
    ensures run[i].queue.produced == Arrivals(run, actions, i)
    ensures run[i].queue.consumed == Askers(run, actions, i)
  {
    hide Step, Invariant, ArrivesBy, AsksBy;
    if i == 0 {
    } else {
      RunKeeps(run, actions, i - 1);
      HistoryIsArrivals(run, actions, i - 1);
      PlainIfInvariant(run[i - 1]);
      StepHistory(run[i - 1], actions[i - 1]);
    }
  }

  lemma PlainIfInvariant(s: State)
    requires Invariant(s)
    ensures Plain(s.queue)
  {
  }

  // ----- the sizes of the buffers -----

  // The buffer sizes given to asyncReceive, call by call.
  function Sizes(actions: seq<Action>): seq<nat> {
    if actions == [] then []
    else
      var last := actions[|actions| - 1];
      Sizes(actions[..|actions| - 1]) + if last.AsyncReceive? then [last.size] else []
  }

  function Receives(actions: seq<Action>): nat {
    if actions == [] then 0
    else Receives(actions[..|actions| - 1]) + if actions[|actions| - 1].RunReceive? then 1 else 0
  }

  // The bodies of the calls from `next` on, with their sizes.
  function BodiesFrom(sizes: seq<nat>, next: nat): (bodies: seq<Task>)
    requires next <= |sizes|
    ensures |bodies| == |sizes| - next
    ensures forall k :: 0 <= k < |bodies| ==> bodies[k] == ReceiveBody(next + k, sizes[next + k])
  {
    seq(|sizes| - next, k requires 0 <= k < |sizes| - next => ReceiveBody(next + k, sizes[next + k]))
  }

  lemma BodiesAround(sizes: seq<nat>, next: nat, size: nat)
    requires next <= |sizes|
    ensures BodiesFrom(sizes + [size], next) == BodiesFrom(sizes, next) + [ReceiveBody(|sizes|, size)]
    ensures BodiesFrom(sizes, next) != [] ==> next < |sizes|
    ensures next < |sizes| ==> BodiesFrom(sizes, next) == [ReceiveBody(next, sizes[next])] + BodiesFrom(sizes, next + 1)
  {
  }

  function Bodies(tasks: seq<Task>): seq<Task> {
    if tasks == [] then []
    else (if tasks[0].ReceiveBody? then [tasks[0]] else []) + Bodies(tasks[1..])
  }

  lemma {:induction false} BodiesOne(tasks: seq<Task>, t: Task)
    ensures Bodies(tasks + [t]) == Bodies(tasks) + if t.ReceiveBody? then [t] else []
  {
    if tasks == [] {
      assert [] + [t] == [t] && [t][1..] == [];
      assert Bodies([t]) == (if t.ReceiveBody? then [t] else []) + Bodies([]);
    } else {
      assert (tasks + [t])[1..] == tasks[1..] + [t];
      BodiesOne(tasks[1..], t);
      assert Bodies(tasks + [t]) == (if tasks[0].ReceiveBody? then [tasks[0]] else [])
                                    + (Bodies(tasks[1..]) + if t.ReceiveBody? then [t] else []);
    }
  }

  lemma {:induction false} NoBodiesIn(tasks: seq<Task>, outcomes: seq<Outcome>)
    ensures Bodies(tasks + Finishes(outcomes)) == Bodies(tasks)
    decreases |outcomes|
  {
    if outcomes == [] {
      assert tasks + Finishes(outcomes) == tasks;
    } else {
      var before, last := outcomes[..|outcomes| - 1], outcomes[|outcomes| - 1];
      var t := Finish(Completion(last, true));
      NoBodiesIn(tasks, before);
      assert tasks + Finishes(outcomes) == (tasks + Finishes(before)) + [t];
      BodiesOne(tasks + Finishes(before), t);
    }
  }

  lemma FeedBodies(s: State, c: Call<Key, Arrival>)
    ensures Bodies(Feed(s, c).tasks) == Bodies(s.tasks)
  {
    hide Bodies, Outcomes, Run, Finishes;
    var q := Run(s.queue, [c]);
    if |s.queue.invoked| <= |q.invoked| {
      NoBodiesIn(s.tasks, Outcomes(q.invoked[|s.queue.invoked|..]));
    }
  }

  lemma {:induction false} FeedAllBodies(s: State, calls: seq<Call<Key, Arrival>>)
    ensures Bodies(FeedAll(s, calls).tasks) == Bodies(s.tasks)
  {
    hide Feed, Bodies;
    if calls == [] {
    } else {
      FeedAllBodies(s, calls[..|calls| - 1]);
      FeedBodies(FeedAll(s, calls[..|calls| - 1]), calls[|calls| - 1]);
    }
  }

  lemma StepBodies(s: State, a: Action)
    requires Enabled(s, a)
    ensures Bodies(Step(s, a).tasks) ==
            match a
            case AsyncReceive(size) => Bodies(s.tasks) + [ReceiveBody(s.issued, size)]
            case RunReceive(_) => Bodies(s.tasks)[1..]
            case _ => Bodies(s.tasks)
    ensures a.RunReceive? ==> Bodies(s.tasks) != [] && Bodies(s.tasks)[0] == s.tasks[0]
  {
    hide Feed, FeedAll;
    match a
    case SetConnection(_) =>
    case AsyncReceive(size) => BodiesOne(s.tasks, ReceiveBody(s.issued, size));
    case RunReceive(ec) =>
      var (t, rest) := (s.tasks[0], s.(tasks := s.tasks[1..]));
      if ec.Success? {
        FeedBodies(rest, Consume(Receiving(t.id, t.size)));
      } else {
        BodiesOne(rest.tasks, Finish(Completion(Outcome(t.id, ec, []), false)));
      }
    case RunFinish =>
    case HandleMessage(payload) => FeedBodies(s, Produce(Message(payload)));
    case HandleClose(ec) => FeedBodies(s, Produce(Failure(if ec.Success? then OperationAborted else ec)));
    case Close => FeedAllBodies(s, CloseCalls(s.queue));
  }

  lemma StepIssued(s: State, a: Action)
    requires Enabled(s, a)
    ensures Step(s, a).issued == s.issued + if a.AsyncReceive? then 1 else 0
  {
    hide Feed, FeedAll;
    match a
    case RunReceive(ec) => FeedIssued(s.(tasks := s.tasks[1..]), Consume(Receiving(s.tasks[0].id, s.tasks[0].size)));
    case HandleMessage(payload) => FeedIssued(s, Produce(Message(payload)));
    case HandleClose(ec) => FeedIssued(s, Produce(Failure(if ec.Success? then OperationAborted else ec)));
    case Close => FeedAllKeepsRest(s, CloseCalls(s.queue));
    case _ =>
  }

  // In every run the n-th call of asyncReceive is operation n, and the bodies are run in the order
  // of the calls, each with the size it was given.
  lemma {:induction false} BodiesInOrder(run: seq<State>, actions: seq<Action>, i: nat)
    requires IsRun(run, actions) && i < |run|
    ensures var (sizes, n) := (Sizes(actions[..i]), Receives(actions[..i]));
            && run[i].issued == |sizes| >= n && Bodies(run[i].tasks) == BodiesFrom(sizes, n)
            && (i < |actions| && actions[i].RunReceive? ==>
                  n < |sizes| && run[i].tasks[0] == ReceiveBody(n, sizes[n]))
  {
    hide Step, Bodies, BodiesFrom;
    if i == 0 {
      NoneYet();
    } else {
      BodiesInOrder(run, actions, i - 1);
      assert actions[..i][..i - 1] == actions[..i - 1];
      StepInOrder(run[i - 1], actions[i - 1], Sizes(actions[..i - 1]), Receives(actions[..i - 1]));
    }
    if i < |actions| { NextBody(run[i], actions[i], Sizes(actions[..i]), Receives(actions[..i])); }
  }

  lemma NoneYet()
    ensures Bodies([]) == BodiesFrom([], 0)
  {
  }

  lemma NextBody(s: State, a: Action, sizes: seq<nat>, n: nat)
    requires Enabled(s, a) && n <= |sizes| && Bodies(s.tasks) == BodiesFrom(sizes, n)
    ensures a.RunReceive? ==> n < |sizes| && s.tasks[0] == ReceiveBody(n, sizes[n])
  {
    hide Step, Bodies;
    StepBodies(s, a);
    BodiesAround(sizes, n, 0);
  }

  lemma StepInOrder(s: State, a: Action, sizes: seq<nat>, n: nat)
    requires Enabled(s, a) && s.issued == |sizes| >= n && Bodies(s.tasks) == BodiesFrom(sizes, n)
    ensures var sizes' := sizes + (if a.AsyncReceive? then [a.size] else []);
            var n' := n + if a.RunReceive? then 1 else 0;
            && Step(s, a).issued == |sizes'| >= n' && Bodies(Step(s, a).tasks) == BodiesFrom(sizes', n')
  {
    hide Step, Bodies, BodiesFrom;
    StepBodies(s, a);
    StepIssued(s, a);
    NextBody(s, a, sizes, n);
    BodiesAround(sizes, n, if a.AsyncReceive? then a.size else 0);
    assert !a.AsyncReceive? ==> sizes + [] == sizes;
  }

  // ----- receives that pass through the queue -----

  // Whoever asks is a receive of some call of asyncReceive, with its size, or a discarding handler.
  ghost predicate AsksAsCalled(h: Receiver, sizes: seq<nat>) {
    h == DRAIN || exists id: nat :: id < |sizes| && h == Receiving(id, sizes[id])
  }

  lemma StillAsCalled(h: Receiver, before: seq<nat>, sizes: seq<nat>)
    requires AsksAsCalled(h, before) && before <= sizes
    ensures AsksAsCalled(h, sizes)
  {
    if h != DRAIN {
      var id: nat :| id < |before| && h == Receiving(id, before[id]);
      assert h == Receiving(id, sizes[id]);
    }
  }

  lemma StepAsks(s: State, a: Action, sizes: seq<nat>, n: nat)
    requires a.RunReceive? ==> s.tasks != [] && n < |sizes| && s.tasks[0] == ReceiveBody(n, sizes[n])
    ensures forall h <- AsksBy(s, a) :: AsksAsCalled(h, sizes)
  {
  }

  lemma {:induction false} AskersAsCalled(run: seq<State>, actions: seq<Action>, i: nat)
    requires IsRun(run, actions) && i < |run|
    ensures forall h <- Askers(run, actions, i) :: AsksAsCalled(h, Sizes(actions[..i]))
  {
    if i == 0 {
    } else {
      hide IsRun, AsksBy, AsksAsCalled;
      AskersAsCalled(run, actions, i - 1);
      BodiesInOrder(run, actions, i - 1);
      assert actions[..i][..i - 1] == actions[..i - 1];
      var before := Sizes(actions[..i - 1]);
      StepAsks(run[i - 1], actions[i - 1], before, Receives(actions[..i - 1]));
      forall h | h in Askers(run, actions, i) ensures AsksAsCalled(h, Sizes(actions[..i])) {
        StillAsCalled(h, before, Sizes(actions[..i]));
      }
    }
  }

  // The errors that arrive are errors.
  lemma {:induction false} ArrivalsHonest(run: seq<State>, actions: seq<Action>, i: nat)
    requires IsRun(run, actions) && i < |run|
    ensures forall d <- Arrivals(run, actions, i) :: d.Failure? ==> !d.ec.Success?
  {
    if i == 0 {
    } else {
      ArrivalsHonest(run, actions, i - 1);
    }
  }

  lemma {:induction false} OutcomesWhich(invoked: seq<(Receiver, Arrival)>, o: Outcome)
    ensures o in Outcomes(invoked) <==>
            exists k :: 0 <= k < |invoked| && invoked[k].0.key.Receive?
                        && o == Deliver(invoked[k].0.key.id, invoked[k].0.key.size, invoked[k].1)
  {
    if invoked == [] {
    } else {
      hide Deliver;
      OutcomesWhich(invoked[..|invoked| - 1], o);
    }
  }

  // The k-th to ask is the receive of outcome o, and o carries the k-th arrival.
  ghost predicate Served(sizes: seq<nat>, askers: seq<Receiver>, arrivals: seq<Arrival>, k: nat, o: Outcome) {
    && k < |askers| && k < |arrivals| && o.id < |sizes|
    && askers[k] == Receiving(o.id, sizes[o.id])
    && Carries(o, sizes[o.id], arrivals[k])
  }

  lemma ServedIs(sizes: seq<nat>, h: Receiver, d: Arrival, o: Outcome)
    requires AsksAsCalled(h, sizes)
    ensures h.key.Receive? && o == Deliver(h.key.id, h.key.size, d)
            <==> o.id < |sizes| && h == Receiving(o.id, sizes[o.id]) && Carries(o, sizes[o.id], d)
  {
    hide Deliver, Carries;
    if o.id < |sizes| { DeliverMeaning(o, sizes[o.id], d); }
    if h.key.Receive? { DeliverKeepsId(h.key, d); }
  }

  lemma ServedExactly(invoked: seq<(Receiver, Arrival)>, sizes: seq<nat>, askers: seq<Receiver>,
                      arrivals: seq<Arrival>, o: Outcome)
    requires |invoked| == Min(|askers|, |arrivals|)
    requires forall k :: 0 <= k < |invoked| ==> invoked[k] == (askers[k], arrivals[k])
    requires forall h <- askers :: AsksAsCalled(h, sizes)
    ensures o in Outcomes(invoked) <==> exists k :: Served(sizes, askers, arrivals, k, o)
  {
    hide Outcomes, Deliver, Carries, AsksAsCalled;
    OutcomesWhich(invoked, o);
    forall k: nat | k < |invoked|
      ensures invoked[k].0.key.Receive? && o == Deliver(invoked[k].0.key.id, invoked[k].0.key.size, invoked[k].1)
              <==> Served(sizes, askers, arrivals, k, o)
    {
      ServedIs(sizes, askers[k], arrivals[k], o);
    }
  }

  ghost predicate ServedInRun(run: seq<State>, actions: seq<Action>, i: nat, k: nat, o: Outcome)
    requires i < |run| && i <= |actions|
  {
    Served(Sizes(actions[..i]), Askers(run, actions, i), Arrivals(run, actions, i), k, o)
  }

  // In every run the receives that complete through the queue, posted or called, are exactly those
  // that an arrival has served: the k-th to ask gets the k-th arrival, the whole payload with
  // success if it fits in the buffer given to asyncReceive, what fits with message_size if not, and
  // an error as it is.
  lemma SuccessIsWholeMessage(run: seq<State>, actions: seq<Action>, i: nat, o: Outcome)
    requires IsRun(run, actions) && i < |run|
    ensures o in QueuedDone(run[i].completed + Finished(run[i].tasks)) <==>
            exists k :: ServedInRun(run, actions, i, k, o)
    ensures forall d <- Arrivals(run, actions, i) :: d.Failure? ==> !d.ec.Success?
  {
    hide Arrivals, Askers, Sizes, Served, Outcomes, QueuedDone, Finished, Step, AsksAsCalled;
    CompletionOrder(run, actions, i);
    HistoryIsArrivals(run, actions, i);
    ArrivalsHonest(run, actions, i);
    AskersAsCalled(run, actions, i);
    AllServed(run, actions, i);
    var (sizes, askers, arrivals) := (Sizes(actions[..i]), Askers(run, actions, i), Arrivals(run, actions, i));
    ServedExactly(run[i].queue.invoked, sizes, askers, arrivals, o);
    forall k: nat ensures ServedInRun(run, actions, i, k, o) <==> Served(sizes, askers, arrivals, k, o) {}
  }

  lemma DeliverKeepsId(key: Key, d: Arrival)
    ensures key.Receive? ==> Deliver(key.id, key.size, d).id == key.id
  {
  }

  // Nobody waits while something has arrived.
  lemma AllServed(run: seq<State>, actions: seq<Action>, i: nat)
    requires IsRun(run, actions) && i < |run|
    ensures var q := run[i].queue; |q.invoked| == Min(|q.consumed|, |q.produced|)
  {
    RunKeeps(run, actions, i);
  }

  // ----- completions, posted and called -----

  // All completions so far: those whose handlers have been called and those that are posted.
  function Completions(s: State): seq<Completion> {
    s.completed + Finished(s.tasks)
  }

  // What a receive body posts that finds an error in the transport.
  ghost predicate FailsAtOnce(s: State, a: Action, e: Completion) {
    && a.RunReceive? && !a.transport.Success? && s.tasks != [] && s.tasks[0].ReceiveBody?
    && e == Completion(Outcome(s.tasks[0].id, a.transport, []), false)
  }

  // Only completions of receives that pass through the queue have been added.
  ghost predicate QueuedAdded(before: seq<Completion>, after: seq<Completion>) {
    before <= after && forall k :: |before| <= k < |after| ==> after[k].queued
  }

  lemma AddedBehind(first: seq<Completion>, before: seq<Completion>, after: seq<Completion>)
    requires QueuedAdded(before, after)
    ensures QueuedAdded(first + before, first + after)
  {
  }

  lemma {:induction false} FinishesAdd(tasks: seq<Task>, outcomes: seq<Outcome>)
    ensures QueuedAdded(Finished(tasks), Finished(tasks + Finishes(outcomes)))
    decreases |outcomes|
  {
    if outcomes == [] {
      assert tasks + Finishes(outcomes) == tasks;
    } else {
      var before, last := outcomes[..|outcomes| - 1], outcomes[|outcomes| - 1];
      var t := Finish(Completion(last, true));
      FinishesAdd(tasks, before);
      assert tasks + Finishes(outcomes) == (tasks + Finishes(before)) + [t];
      FinishedAppend(tasks + Finishes(before), t);
    }
  }

  lemma FeedAdds(s: State, c: Call<Key, Arrival>)
    ensures QueuedAdded(Completions(s), Completions(Feed(s, c))) && Feed(s, c).completed == s.completed
  {
    hide Finished, Outcomes, Run, Finishes;
    var q := Run(s.queue, [c]);
    if |s.queue.invoked| <= |q.invoked| {
      var outcomes := Outcomes(q.invoked[|s.queue.invoked|..]);
      FinishesAdd(s.tasks, outcomes);
      AddedBehind(s.completed, Finished(s.tasks), Finished(s.tasks + Finishes(outcomes)));
    }
  }

  lemma {:induction false} FeedAllAdds(s: State, calls: seq<Call<Key, Arrival>>)
    ensures QueuedAdded(Completions(s), Completions(FeedAll(s, calls))) && FeedAll(s, calls).completed == s.completed
  {
    hide Feed, Completions;
    if calls == [] {
    } else {
      FeedAllAdds(s, calls[..|calls| - 1]);
      FeedAdds(FeedAll(s, calls[..|calls| - 1]), calls[|calls| - 1]);
    }
  }

  lemma FirstFinished(s: State)
    requires s.tasks != []
    ensures Finished(s.tasks) == (if s.tasks[0].Finish? then [s.tasks[0].completion] else []) + Finished(s.tasks[1..])
  {
  }

  // Each step adds completions behind those there are: at most one that has bypassed the queue.
  lemma StepAdds(s: State, a: Action)
    requires Enabled(s, a)
    ensures var (before, after) := (Completions(s), Completions(Step(s, a)));
            if a.RunReceive? && !a.transport.Success?
            then after == before + [Completion(Outcome(s.tasks[0].id, a.transport, []), false)]
            else QueuedAdded(before, after)
    ensures |Step(s, a).completed| == |s.completed| + if a.RunFinish? then 1 else 0
    ensures s.completed <= Step(s, a).completed
  {
    hide Feed, FeedAll, Finished;
    match a
    case SetConnection(_) =>
    case AsyncReceive(size) => FinishedAppend(s.tasks, ReceiveBody(s.issued, size));
    case RunReceive(ec) =>
      var (t, rest) := (s.tasks[0], s.(tasks := s.tasks[1..]));
      FirstFinished(s);
      if ec.Success? {
        FeedAdds(rest, Consume(Receiving(t.id, t.size)));
      } else {
        FinishedAppend(rest.tasks, Finish(Completion(Outcome(t.id, ec, []), false)));
      }
    case RunFinish =>
      FirstFinished(s);
      var first := s.tasks[0].completion;
      assert s.completed + ([first] + Finished(s.tasks[1..])) == (s.completed + [first]) + Finished(s.tasks[1..]);
    case HandleMessage(payload) => FeedAdds(s, Produce(Message(payload)));
    case HandleClose(ec) => FeedAdds(s, Produce(Failure(if ec.Success? then OperationAborted else ec)));
    case Close => FeedAllAdds(s, CloseCalls(s.queue));
  }

  // In every run a receive completes without having waited in the queue exactly if its body found
  // an error in the transport, and then with that very error and no bytes.
  lemma {:induction false} DirectMeansError(run: seq<State>, actions: seq<Action>, i: nat, e: Completion)
    requires IsRun(run, actions) && i < |run| && !e.queued
    ensures e in Completions(run[i]) <==> exists j :: 0 <= j < i && FailsAtOnce(run[j], actions[j], e)
  {
    if i == 0 {
    } else {
      hide Step, Completions;
      DirectMeansError(run, actions, i - 1, e);
      var (s, a) := (run[i - 1], actions[i - 1]);
      StepAdds(s, a);
      assert e in Completions(run[i]) <==> e in Completions(s) || FailsAtOnce(s, a, e);
    }
  }

  lemma CalledFirst(s: State)
    ensures s.completed <= Completions(s)
  {
  }

  function Finishings(actions: seq<Action>): nat {
    if actions == [] then 0
    else Finishings(actions[..|actions| - 1]) + if actions[|actions| - 1].RunFinish? then 1 else 0
  }

  // In every run handlers are called in the order in which their completions were posted, one for
  // each completion that the io_service runs.
  lemma {:induction false} CompletionsInOrder(run: seq<State>, actions: seq<Action>, i: nat, j: nat)
    requires IsRun(run, actions) && i <= j < |run|
    ensures Completions(run[i]) <= Completions(run[j])
    ensures run[j].completed <= Completions(run[j]) && |run[j].completed| == Finishings(actions[..j])
    decreases j
  {
    if j == 0 {
      CalledFirst(run[0]);
    } else {
      hide Step, Completions;
      CompletionsInOrder(run, actions, if i == j then i - 1 else i, j - 1);
      StepAdds(run[j - 1], actions[j - 1]);
      CalledFirst(run[j]);
      assert actions[..j][..j - 1] == actions[..j - 1];
    }
  }

  // ----- the io_service -----

  // A posted task can be run: a completion at any time, a receive body once there is a connection,
  // whatever the transport then reports.
  lemma NeverStuck(s: State, transport: ErrorCode)
    requires s.tasks != []
    ensures Enabled(s, RunFinish) <==> s.tasks[0].Finish?
    ensures Enabled(s, RunReceive(transport)) <==> s.tasks[0].ReceiveBody? && s.ptr.Some?
  {
  }

  predicate RunsTask(a: Action) {
    a.RunReceive? || a.RunFinish?
  }

  // The tasks that have been run and those that are posted, in order.
  function TaskLog(run: seq<State>, actions: seq<Action>, i: nat): seq<Task>
    requires i < |run| && i <= |actions|
  {
    Ran(run, actions, i) + run[i].tasks
  }

  function Ran(run: seq<State>, actions: seq<Action>, i: nat): seq<Task>
    requires i < |run| && i <= |actions|
  {
    if i == 0 then []
    else
      var s := run[i - 1];
      Ran(run, actions, i - 1) + if RunsTask(actions[i - 1]) && s.tasks != [] then [s.tasks[0]] else []
  }

  lemma FeedPosts(s: State, c: Call<Key, Arrival>)
    ensures s.tasks <= Feed(s, c).tasks
  {
  }

  lemma {:induction false} FeedAllPosts(s: State, calls: seq<Call<Key, Arrival>>)
    ensures s.tasks <= FeedAll(s, calls).tasks
  {
    hide Feed;
    if calls == [] {
    } else {
      FeedAllPosts(s, calls[..|calls| - 1]);
      FeedPosts(FeedAll(s, calls[..|calls| - 1]), calls[|calls| - 1]);
    }
  }

  lemma StepPosts(s: State, a: Action)
    requires Enabled(s, a)
    ensures RunsTask(a) ==> s.tasks != []
    ensures (if RunsTask(a) then s.tasks[1..] else s.tasks) <= Step(s, a).tasks
  {
    hide Feed, FeedAll;
    match a
    case RunReceive(ec) => FeedPosts(s.(tasks := s.tasks[1..]), Consume(Receiving(s.tasks[0].id, s.tasks[0].size)));
    case HandleMessage(payload) => FeedPosts(s, Produce(Message(payload)));
    case HandleClose(ec) => FeedPosts(s, Produce(Failure(if ec.Success? then OperationAborted else ec)));
    case Close => FeedAllPosts(s, CloseCalls(s.queue));
    case _ =>
  }

  lemma RunFirst(ran: seq<Task>, tasks: seq<Task>, tasks': seq<Task>, runs: bool)
    requires runs ==> tasks != []
    requires (if runs then tasks[1..] else tasks) <= tasks'
    ensures ran + tasks <= ran + (if runs then [tasks[0]] else []) + tasks'
  {
    if runs { assert tasks == [tasks[0]] + tasks[1..]; }
  }

  lemma StepLog(run: seq<State>, actions: seq<Action>, i: nat)
    requires IsRun(run, actions) && i < |actions|
    ensures TaskLog(run, actions, i) <= TaskLog(run, actions, i + 1)
  {
    hide Step, Enabled;
    var (s, a) := (run[i], actions[i]);
    StepPosts(s, a);
    RunFirst(Ran(run, actions, i), s.tasks, run[i + 1].tasks, RunsTask(a));
  }

  lemma PrefixTransitive(a: seq<Task>, b: seq<Task>, c: seq<Task>)
    requires a <= b <= c
    ensures a <= c
  {
  }

  // In every run bodies and completions alike are run in the order in which they were posted.
  lemma {:induction false} TasksAreFifo(run: seq<State>, actions: seq<Action>, i: nat, j: nat)
    requires IsRun(run, actions) && i <= j < |run|
    ensures TaskLog(run, actions, i) <= TaskLog(run, actions, j)
  {
    hide TaskLog, Step, Enabled;
    if i == j {
    } else {
      TasksAreFifo(run, actions, i, j - 1);
      StepLog(run, actions, j - 1);
      PrefixTransitive(TaskLog(run, actions, i), TaskLog(run, actions, j - 1), TaskLog(run, actions, j));
    }
  }

  // ----- the connection -----

  function LastConnection(actions: seq<Action>): Option<Connection> {
    if actions == [] then None
    else
      match actions[|actions| - 1]
      case SetConnection(con) => Some(con)
      case _ => LastConnection(actions[..|actions| - 1])
  }

  // What close() closes, call by call.
  function ClosedBy(actions: seq<Action>): seq<Connection> {
    if actions == [] then []
    else
      var (before, last) := (actions[..|actions| - 1], LastConnection(actions[..|actions| - 1]));
      ClosedBy(before) + if actions[|actions| - 1].Close? && last.Some? then [last.value] else []
  }

  lemma StepConnection(s: State, a: Action)
    requires Enabled(s, a)
    ensures Step(s, a).ptr == if a.SetConnection? then Some(a.con) else s.ptr
    ensures Step(s, a).closed == s.closed + if a.Close? && s.ptr.Some? then [s.ptr.value] else []
  {
    hide FeedAll;
    if a.Close? { FeedAllKeepsRest(s, CloseCalls(s.queue)); }
  }

  // In every run the connection is the last one given, and close() closes that one if there is any.
  lemma {:induction false} ConnectionIsLast(run: seq<State>, actions: seq<Action>, i: nat)
    requires IsRun(run, actions) && i < |run|
    ensures run[i].ptr == LastConnection(actions[..i]) && run[i].closed == ClosedBy(actions[..i])
  {
    hide Step;
    if i == 0 {
    } else {
      ConnectionIsLast(run, actions, i - 1);
      StepConnection(run[i - 1], actions[i - 1]);
      assert actions[..i][..i - 1] == actions[..i - 1];
    }
  }
}
