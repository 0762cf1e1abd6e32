// The producer/consumer queue as a state machine with an explicit call stack. Handlers run inside
// post() and may do anything: call consume and produce again, to any depth, any number of times.
module QueueMachine {
  import opened Basics

  // PostFrame: a call of post() that has made so many pairings; UserFrame: a running handler.
  datatype Frame = PostFrame(pairings: nat) | UserFrame

  // handlers and data are the two queues; stack is the call stack, innermost call first, with the
  // code outside all handlers below it; the rest is history.
  datatype Machine<H, D> = Machine(handlers: seq<H>, data: seq<D>, stack: seq<Frame>,
                                   consumed: seq<H>, produced: seq<D>, invoked: seq<(H, D)>)

  // User code runs: outside all handlers, or in the innermost one.
  predicate UserRuns<H, D>(m: Machine<H, D>) {
    m.stack == [] || m.stack[0].UserFrame?
  }

  datatype Action<H, D> = CallConsume(h: H) | CallProduce(d: D) | Return | Post

  function Step<H, D>(m: Machine<H, D>, a: Action<H, D>): Machine<H, D>
    requires Enabled(m, a)
  {
    match a
    case CallConsume(h) =>
      m.(handlers := m.handlers + [h], consumed := m.consumed + [h], stack := [PostFrame(0)] + m.stack)
    case CallProduce(d) =>
      m.(data := m.data + [d], produced := m.produced + [d], stack := [PostFrame(0)] + m.stack)
    case Return =>
      m.(stack := m.stack[1..])
    case Post =>
      // one test of the loop condition: pair and invoke, or return to the caller
      if m.handlers != [] && m.data != [] then
        m.(handlers := m.handlers[1..], data := m.data[1..],
           invoked := m.invoked + [(m.handlers[0], m.data[0])],
           stack := [UserFrame, PostFrame(m.stack[0].pairings + 1)] + m.stack[1..])
      else
        m.(stack := m.stack[1..])
  }

  // User code, when it runs, may call the queue or return from its handler; otherwise post() runs.
  predicate Enabled<H, D>(m: Machine<H, D>, a: Action<H, D>) {
    match a
    case CallConsume(_) => UserRuns(m)
    case CallProduce(_) => UserRuns(m)
    case Return => m.stack != [] && m.stack[0].UserFrame?
    case Post => m.stack != [] && m.stack[0].PostFrame?
  }

  ghost predicate IsRun<H, D>(run: seq<Machine<H, D>>, actions: seq<Action<H, D>>) {
    IsPath(run, actions) && run[0] == Machine([], [], [], [], [], [])
  }

  ghost predicate IsPath<H, D>(run: seq<Machine<H, D>>, actions: seq<Action<H, D>>) {
    && |run| == |actions| + 1
    && forall i :: 0 <= i < |actions| ==> Enabled(run[i], actions[i]) && run[i + 1] == Step(run[i], actions[i])
  }

  // The k-th handler is invoked only with the k-th datum, in order of k, and what has not been
  // paired waits in the queues.
  ghost predicate Fifo<H, D>(handlers: seq<H>, data: seq<D>,
                             consumed: seq<H>, produced: seq<D>, invoked: seq<(H, D)>) {
    && |invoked| <= |consumed| && |invoked| <= |produced|
    && handlers == consumed[|invoked|..]
    && data == produced[|invoked|..]
    && forall k :: 0 <= k < |invoked| ==> invoked[k] == (consumed[k], produced[k])
  }

  function Pairable<H, D>(m: Machine<H, D>): nat {
    Min(|m.handlers|, |m.data|)
  }

  // The call stack alternates between post() and handlers; a post() that is running a handler has
  // made its one pairing, and the innermost one can make at most one in all.
  ghost predicate Stacked<H, D>(m: Machine<H, D>) {
    && (forall i :: 0 <= i < |m.stack| - 1 ==> m.stack[i].PostFrame? != m.stack[i + 1].PostFrame?)
    && (m.stack != [] ==> m.stack[|m.stack| - 1].PostFrame?)
    && (forall i :: 0 < i < |m.stack| && m.stack[i].PostFrame? ==> m.stack[i].pairings == 1)
    && (UserRuns(m) ==> Pairable(m) == 0)
    && (!UserRuns(m) ==> m.stack[0].pairings + Pairable(m) <= 1)
  }

  ghost predicate Invariant<H, D>(m: Machine<H, D>) {
    Fifo(m.handlers, m.data, m.consumed, m.produced, m.invoked) && Stacked(m)
  }

  lemma StepKeepsFifo<H, D>(m: Machine<H, D>, a: Action<H, D>)
    requires Fifo(m.handlers, m.data, m.consumed, m.produced, m.invoked) && Enabled(m, a)
    ensures var m' := Step(m, a);
            && Fifo(m'.handlers, m'.data, m'.consumed, m'.produced, m'.invoked)
            && m.invoked <= m'.invoked && m.consumed <= m'.consumed && m.produced <= m'.produced
  {
  }

  // One step of the machine keeps this discipline: a call puts a frame of post() on top, the end of
  // a call takes the top frame off, and a pairing puts a handler on top of a post() that is done.
  lemma StepKeepsStacked<H, D>(m: Machine<H, D>, a: Action<H, D>)
    requires Stacked(m) && Enabled(m, a)
    ensures Stacked(Step(m, a))
  {
    match a
    case Post => if m.handlers != [] && m.data != [] { PairingKeeps(m); } else { PopFrameKeeps(m, a); }
    case Return => PopFrameKeeps(m, a);
    case _ =>
      var stack' := Step(m, a).stack;
      assert forall i :: 1 <= i < |stack'| ==> stack'[i] == m.stack[i - 1];
  }

  lemma PairingKeeps<H, D>(m: Machine<H, D>)
    requires Stacked(m) && Enabled(m, Post) && m.handlers != [] && m.data != []
    ensures Stacked(Step(m, Post))
  {
    var stack' := Step(m, Post).stack;
    assert stack'[1] == PostFrame(1);
    assert forall i :: 2 <= i < |stack'| ==> stack'[i] == m.stack[i - 1];
  }

  lemma PopFrameKeeps<H, D>(m: Machine<H, D>, a: Action<H, D>)
    requires Stacked(m) && Enabled(m, a)
    requires a.Return? || (a.Post? && (m.handlers == [] || m.data == []))
    ensures Stacked(Step(m, a))
  {
    var stack' := Step(m, a).stack;
    assert forall i :: 0 <= i < |stack'| ==> stack'[i] == m.stack[i + 1];
  }

  lemma {:induction false} RunKeeps<H, D>(run: seq<Machine<H, D>>, actions: seq<Action<H, D>>, i: nat)
    requires IsRun(run, actions) && i < |run|
    ensures Invariant(run[i])
  {
    if i == 0 {
    } else {
      RunKeeps(run, actions, i - 1);
      StepKeepsFifo(run[i - 1], actions[i - 1]);
      StepKeepsStacked(run[i - 1], actions[i - 1]);
    }
  }

  // The calls that user code has made, in order.
  function ConsumedBy<H, D>(actions: seq<Action<H, D>>): seq<H> {
    if actions == [] then []
    else
      var last := actions[|actions| - 1];
      ConsumedBy(actions[..|actions| - 1]) + if last.CallConsume? then [last.h] else []
  }

  function ProducedBy<H, D>(actions: seq<Action<H, D>>): seq<D> {
    if actions == [] then []
    else
      var last := actions[|actions| - 1];
      ProducedBy(actions[..|actions| - 1]) + if last.CallProduce? then [last.d] else []
  }

  // Every call enters the queue, and nothing else does.
  lemma {:induction false} HistoryIsCalls<H, D>(run: seq<Machine<H, D>>, actions: seq<Action<H, D>>, i: nat)
    requires IsRun(run, actions) && i < |run|
    ensures run[i].consumed == ConsumedBy(actions[..i]) && run[i].produced == ProducedBy(actions[..i])
  {
    if i == 0 {
    } else {
      HistoryIsCalls(run, actions, i - 1);
      assert actions[..i][..i - 1] == actions[..i - 1];
    }
  }

  // In every run, at every point: FIFO pairing; each call of post() makes at most one pairing; and
  // wherever user code runs, inside a handler or not, one of the queues is empty, so that exactly
  // as many handlers have been invoked as have found a datum.
  lemma RunIsFifo<H, D>(run: seq<Machine<H, D>>, actions: seq<Action<H, D>>, i: nat)
    requires IsRun(run, actions) && i < |run|
    ensures var m := run[i];
            && Fifo(m.handlers, m.data, m.consumed, m.produced, m.invoked)
            && (forall f <- m.stack :: f.PostFrame? ==> f.pairings <= 1)
            && (UserRuns(m) ==> (m.handlers == [] || m.data == []) && |m.invoked| == Min(|m.consumed|, |m.produced|))
            && |m.data| - |m.handlers| == |m.produced| - |m.consumed|
            && m.consumed == ConsumedBy(actions[..i]) && m.produced == ProducedBy(actions[..i])
  {
    HistoryIsCalls(run, actions, i);
    RunKeeps(run, actions, i);
  }

  ghost predicate Extends<H, D>(m: Machine<H, D>, m': Machine<H, D>) {
    m.invoked <= m'.invoked && m.consumed <= m'.consumed && m.produced <= m'.produced
  }

  lemma RunStepExtends<H, D>(run: seq<Machine<H, D>>, actions: seq<Action<H, D>>, i: nat)
    requires IsRun(run, actions) && i < |actions|
    ensures Extends(run[i], run[i + 1])
  {
    RunKeeps(run, actions, i);
    StepKeepsFifo(run[i], actions[i]);
  }

  // Invocations are never taken back or reordered.
  lemma {:induction false} RunGrows<H, D>(run: seq<Machine<H, D>>, actions: seq<Action<H, D>>, i: nat, j: nat)
    requires IsRun(run, actions) && i <= j < |run|
    ensures Extends(run[i], run[j])
  {
    if i == j {
    } else {
      RunGrows(run, actions, i, j - 1);
      RunStepExtends(run, actions, j - 1);
    }
  }
}
