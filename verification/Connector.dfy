// The WebSocket connector: connections that are being opened wait in a map, from which an open or
// fail callback or a close takes them. The io_service is the FIFO of posted tasks, run by one
// thread.
module Connector {
  import opened Asio
  import opened Basics

  datatype Task = ConnectBody(id: nat) | CloseBody | ClearHandlers(con: Connection)

  // A call of the completion handler, and the connection given to the message queue before it.
  datatype Completion = Completion(id: nat, ec: ErrorCode, con: Option<Connection>)

  // cleared: the connections whose callbacks have been cleared.
  datatype State = State(issued: nat, tasks: seq<Task>, nascent: map<Connection, nat>, completed: seq<Completion>,
                         cleared: seq<Connection>)

  const INITIAL := State(0, [], map[], [], [])

  // AsyncConnect and Close are calls of the user, made outside handlers or inside them: all that
  // they do is to post a task. The Run actions run the first posted task; websocketpp chooses the
  // connection or reports an error, and the map is iterated in the order of its pointers.
  datatype Action =
    | AsyncConnect
    | Close
    | RunConnect(ec: ErrorCode, con: Connection)
    | RunClose(order: seq<Connection>)
    | RunClear
    | HandleOpen(found: Option<Connection>)
    | HandleFail(found: Option<Connection>, transport: ErrorCode)

  ghost predicate Enumerates(order: seq<Connection>, nascent: map<Connection, nat>) {
    && (forall i, j :: 0 <= i < j < |order| ==> order[i] != order[j])
    && (forall c :: c in order <==> c in nascent)
  }

  ghost predicate Enabled(s: State, a: Action) {
    match a
    case RunConnect(_, _) => s.tasks != [] && s.tasks[0].ConnectBody?
    case RunClose(order) => s.tasks != [] && s.tasks[0].CloseBody? && Enumerates(order, s.nascent)
    case RunClear => s.tasks != [] && s.tasks[0].ClearHandlers?
    case _ => true
  }

  function Aborted(order: seq<Connection>, nascent: map<Connection, nat>): (r: seq<Completion>)
    requires forall c <- order :: c in nascent
    ensures |r| == |order|
    ensures forall i :: 0 <= i < |order| ==> r[i] == Completion(nascent[order[i]], OperationAborted, None)
  {
    seq(|order|, i requires 0 <= i < |order| => Completion(nascent[order[i]], OperationAborted, None))
  }

  function OpenOrFail(s: State, con: Connection, ec: ErrorCode): State {
    if con in s.nascent then
      s.(nascent := s.nascent - {con},
         tasks := s.tasks + [ClearHandlers(con)],
         completed := s.completed + [Completion(s.nascent[con], ec, Some(con))])
    else s
  }

  ghost function Step(s: State, a: Action): State
    requires Enabled(s, a)
  {
    match a
    case AsyncConnect => s.(issued := s.issued + 1, tasks := s.tasks + [ConnectBody(s.issued)])
    case Close => s.(tasks := s.tasks + [CloseBody])
    case RunConnect(ec, con) =>
      var id := s.tasks[0].id;
      var s1 := s.(tasks := s.tasks[1..]);
      if !ec.Success? then s1.(completed := s.completed + [Completion(id, ec, None)])
      else if con !in s.nascent then s1.(nascent := s.nascent[con := id])
      else s1.(completed := s.completed + [Completion(id, OperationAborted, None)])
    case RunClose(order) =>
      s.(tasks := s.tasks[1..], nascent := map[], completed := s.completed + Aborted(order, s.nascent))
    case RunClear => s.(tasks := s.tasks[1..], cleared := s.cleared + [s.tasks[0].con])
    case HandleOpen(found) =>
      if found.Some? then OpenOrFail(s, found.value, Success) else s
    case HandleFail(found, transport) =>
      if found.Some? then OpenOrFail(s, found.value, if transport.Success? then NetworkDown else transport) else s
  }

  ghost predicate IsRun(run: seq<State>, actions: seq<Action>) {
    && |run| == |actions| + 1 && run[0] == INITIAL
    && forall i :: 0 <= i < |actions| ==> Enabled(run[i], actions[i]) && run[i + 1] == Step(run[i], actions[i])
  }

  // ----- where an operation is -----

  function PostedIds(tasks: seq<Task>): seq<nat> {
    if tasks == [] then []
    else (if tasks[0].ConnectBody? then [tasks[0].id] else []) + PostedIds(tasks[1..])
  }

  function CompletedIds(completed: seq<Completion>): (ids: seq<nat>)
    ensures |ids| == |completed| && forall i :: 0 <= i < |ids| ==> ids[i] == completed[i].id
  {
    seq(|completed|, i requires 0 <= i < |completed| => completed[i].id)
  }

  // The number of places an operation is in: posted, nascent, completed.
  ghost function Places(s: State, id: nat): nat {
    Count(PostedIds(s.tasks), id) + (if id in s.nascent.Values then 1 else 0) + Count(CompletedIds(s.completed), id)
  }

  ghost predicate Injective(nascent: map<Connection, nat>) {
    forall c, d :: c in nascent && d in nascent && c != d ==> nascent[c] != nascent[d]
  }

  // Every operation issued so far is in one place only, and no other operation is anywhere.
  ghost predicate Invariant(s: State) {
    Injective(s.nascent) && forall id: nat :: Places(s, id) == if id < s.issued then 1 else 0
  }

  lemma {:induction false} PostedIdsAppend(a: seq<Task>, t: Task)
    ensures PostedIds(a + [t]) == PostedIds(a) + if t.ConnectBody? then [t.id] else []
  {
    var last := if t.ConnectBody? then [t.id] else [];
    if a == [] {
      assert a + [t] == [t] && [t][1..] == [];
      assert PostedIds([t]) == last + PostedIds([]) == last;
    } else {
      assert (a + [t])[1..] == a[1..] + [t];
      PostedIdsAppend(a[1..], t);
      var first := if a[0].ConnectBody? then [a[0].id] else [];
      assert first + (PostedIds(a[1..]) + last) == (first + PostedIds(a[1..])) + last;
    }
  }

  lemma CompletedIdsAppend(a: seq<Completion>, b: seq<Completion>, id: nat)
    ensures Count(CompletedIds(a + b), id) == Count(CompletedIds(a), id) + Count(CompletedIds(b), id)
  {
    assert CompletedIds(a + b) == CompletedIds(a) + CompletedIds(b);
  }

  lemma CompletedOne(a: seq<Completion>, e: Completion, id: nat)
    ensures Count(CompletedIds(a + [e]), id) == Count(CompletedIds(a), id) + if id == e.id then 1 else 0
  {
    CompletedIdsAppend(a, [e], id);
    assert CompletedIds([e]) == [e.id];
  }

  // Aborting connections one after another completes each of their operations once.
  lemma {:induction false} AbortedCount(order: seq<Connection>, nascent: map<Connection, nat>, id: nat)
    requires Injective(nascent) && (forall c <- order :: c in nascent)
    requires forall i, j :: 0 <= i < j < |order| ==> order[i] != order[j]
    ensures Count(CompletedIds(Aborted(order, nascent)), id) == if exists c <- order :: nascent[c] == id then 1 else 0
    decreases |order|
  {
    if order == [] {
      assert CompletedIds(Aborted(order, nascent)) == [];
    } else {
      var rest, c := order[..|order| - 1], order[|order| - 1];
      assert forall d <- rest :: d in order && d != c;
      AbortedCount(rest, nascent, id);
      var last := Completion(nascent[c], OperationAborted, None);
      assert Aborted(order, nascent) == Aborted(rest, nascent) + [last];
      CompletedOne(Aborted(rest, nascent), last, id);
      assert forall d :: d in order <==> d in rest || d == c;
    }
  }

  lemma RunCloseCount(s: State, order: seq<Connection>, id: nat)
    requires Injective(s.nascent) && Enumerates(order, s.nascent)
    ensures Count(CompletedIds(s.completed + Aborted(order, s.nascent)), id) ==
            Count(CompletedIds(s.completed), id) + if id in s.nascent.Values then 1 else 0
  {
    AbortedCount(order, s.nascent, id);
    CompletedIdsAppend(s.completed, Aborted(order, s.nascent), id);
    if id in s.nascent.Values {
      var c :| c in s.nascent && s.nascent[c] == id;
      assert c in order;
    }
  }

  // Taking a connection out of the map takes out its operation, and putting one in puts it in.
  lemma RemovedValue(nascent: map<Connection, nat>, c: Connection, id: nat)
    requires Injective(nascent) && c in nascent
    ensures Injective(nascent - {c})
    ensures id in (nascent - {c}).Values <==> id in nascent.Values && id != nascent[c]
  {
    if id in nascent.Values && id != nascent[c] {
      var d :| d in nascent && nascent[d] == id;
      assert d in nascent - {c};
    }
  }

  lemma AddedValue(nascent: map<Connection, nat>, c: Connection, v: nat, id: nat)
    requires Injective(nascent) && c !in nascent && v !in nascent.Values
    ensures Injective(nascent[c := v])
    ensures id in nascent[c := v].Values <==> id in nascent.Values || id == v
  {
    assert c in nascent[c := v];
    if id in nascent.Values {
      var d :| d in nascent && nascent[d] == id;
      assert nascent[c := v][d] == id;
    }
  }

  lemma OpenOrFailPlaces(s: State, con: Connection, ec: ErrorCode, id: nat)
    requires Injective(s.nascent)
    ensures Injective(OpenOrFail(s, con, ec).nascent)
    ensures Places(OpenOrFail(s, con, ec), id) == Places(s, id)
  {
    if con in s.nascent {
      RemovedValue(s.nascent, con, id);
      PostedIdsAppend(s.tasks, ClearHandlers(con));
      CompletedOne(s.completed, Completion(s.nascent[con], ec, Some(con)), id);
    }
  }

  lemma RunConnectPlaces(s: State, ec: ErrorCode, con: Connection, id: nat)
    requires Injective(s.nascent) && Enabled(s, RunConnect(ec, con)) && Places(s, s.tasks[0].id) <= 1
    ensures Injective(Step(s, RunConnect(ec, con)).nascent)
    ensures Places(Step(s, RunConnect(ec, con)), id) == Places(s, id)
  {
    var first := s.tasks[0].id;
    assert PostedIds(s.tasks) == [first] + PostedIds(s.tasks[1..]);
    CountAppend([first], PostedIds(s.tasks[1..]), id);
    CountAppend([first], PostedIds(s.tasks[1..]), first);
    if ec.Success? && con !in s.nascent {
      AddedValue(s.nascent, con, first, id);
    } else {
      CompletedOne(s.completed, Completion(first, if ec.Success? then OperationAborted else ec, None), id);
    }
  }

  // Every step leaves each operation in as many places as it was in; asyncConnect adds one.
  lemma StepPlaces(s: State, a: Action, id: nat)
    requires Injective(s.nascent) && Enabled(s, a)
    requires a.RunConnect? ==> Places(s, s.tasks[0].id) <= 1
    ensures Injective(Step(s, a).nascent)
    ensures Places(Step(s, a), id) == Places(s, id) + if a.AsyncConnect? && id == s.issued then 1 else 0
  {
    match a
    case AsyncConnect => PostedIdsAppend(s.tasks, ConnectBody(s.issued));
    case Close => PostedIdsAppend(s.tasks, CloseBody);
    case RunConnect(ec, con) => RunConnectPlaces(s, ec, con, id);
    case RunClose(order) => RunCloseCount(s, order, id);
    case RunClear =>
    case HandleOpen(found) => if found.Some? { OpenOrFailPlaces(s, found.value, Success, id); }
    case HandleFail(found, transport) =>
      if found.Some? { OpenOrFailPlaces(s, found.value, if transport.Success? then NetworkDown else transport, id); }
  }

  lemma StepKeeps(s: State, a: Action)
    requires Invariant(s) && Enabled(s, a)
    ensures Invariant(Step(s, a))
  {
    hide Places;
    StepPlaces(s, a, 0);
    forall id: nat ensures Places(Step(s, a), id) == if id < Step(s, a).issued then 1 else 0 {
      StepPlaces(s, a, id);
    }
  }

  lemma {:induction false} RunKeeps(run: seq<State>, actions: seq<Action>, i: nat)
    requires IsRun(run, actions) && i < |run|
    ensures Invariant(run[i])
  {
    if i == 0 {
      assert CompletedIds([]) == [];
      assert forall id: nat :: Places(run[0], id) == 0;
    } else {
      RunKeeps(run, actions, i - 1);
      StepKeeps(run[i - 1], actions[i - 1]);
    }
  }

  // In every run, whatever callbacks arrive, duplicated or not, each issued operation is in exactly
  // one place, and no operation completes twice.
  lemma ExactlyOnce(run: seq<State>, actions: seq<Action>, i: nat)
    requires IsRun(run, actions) && i < |run|
    ensures forall id: nat :: Places(run[i], id) == if id < run[i].issued then 1 else 0
    ensures forall j, k :: 0 <= j < k < |run[i].completed| ==> run[i].completed[j].id != run[i].completed[k].id
  {
    RunKeeps(run, actions, i);
    var ids := CompletedIds(run[i].completed);
    forall j, k | 0 <= j < k < |ids| ensures ids[j] != ids[k] {
      assert Places(run[i], ids[k]) <= 1;
      NoRepeats(ids, j, k);
    }
  }

  // A completion is final.
  lemma {:induction false} CompletionsStay(run: seq<State>, actions: seq<Action>, i: nat, j: nat)
    requires IsRun(run, actions) && i <= j < |run|
    ensures run[i].completed <= run[j].completed
  {
    if i == j {
    } else {
      CompletionsStay(run, actions, i, j - 1);
      assert run[j] == Step(run[j - 1], actions[j - 1]);
    }
  }

  // Once nothing is posted or nascent, every issued operation has completed, exactly once.
  lemma AllComplete(run: seq<State>, actions: seq<Action>, i: nat)
    requires IsRun(run, actions) && i < |run| && run[i].tasks == [] && run[i].nascent == map[]
    ensures forall id: nat :: Count(CompletedIds(run[i].completed), id) == if id < run[i].issued then 1 else 0
  {
    RunKeeps(run, actions, i);
    assert forall id: nat :: Places(run[i], id) == Count(CompletedIds(run[i].completed), id);
  }

  // ----- why an operation completes, and why it waits -----

  // The action a is what makes completion e happen: a callback for the nascent connection of the
  // operation, with its own error; a close; or the body of asyncConnect, when it gets no connection,
  // or one that is nascent already.
  ghost predicate Causes(s: State, a: Action, e: Completion) {
    match a
    case HandleOpen(found) =>
      found.Some? && Holds(s, found.value, e.id) && e == Completion(e.id, Success, found)
    case HandleFail(found, transport) =>
      && found.Some? && Holds(s, found.value, e.id) && e.con == found
      && e.ec == (if transport.Success? then NetworkDown else transport)
    case RunClose(_) => e.id in s.nascent.Values && e == Completion(e.id, OperationAborted, None)
    case RunConnect(ec, con) =>
      && s.tasks != [] && s.tasks[0] == ConnectBody(e.id) && e.con.None?
      && (if ec.Success? then con in s.nascent && e.ec == OperationAborted else e.ec == ec)
    case _ => false
  }

  ghost predicate Holds(s: State, con: Connection, id: nat) {
    con in s.nascent && s.nascent[con] == id
  }

  // What a step outside close completes: what it causes and nothing else, at most one operation;
  // with success if and only if an open callback came for its connection, which the message queue
  // has then been given.
  lemma StepTells(s: State, a: Action)
    requires Enabled(s, a) && !a.RunClose?
    ensures var added := Step(s, a).completed[|s.completed|..];
            && s.completed <= Step(s, a).completed && |added| <= 1
            && (forall e :: e in added <==> Causes(s, a, e))
            && forall e <- added ::
                 && (e.ec.Success? <==> a.HandleOpen?)
                 && (e.con.Some? <==> a.HandleOpen? || a.HandleFail?)
                 && (e.con.Some? ==> e.con.value !in Step(s, a).nascent)
  {
    var s' := Step(s, a);
    if |s'.completed| > |s.completed| {
      assert s'.completed[|s.completed|..] == [s'.completed[|s.completed|]];
    } else {
      assert s'.completed[|s.completed|..] == [];
    }
  }

  lemma StepCauses(s: State, a: Action, e: Completion)
    requires Enabled(s, a)
    ensures e in Step(s, a).completed <==> e in s.completed || Causes(s, a, e)
  {
    var s' := Step(s, a);
    if a.RunClose? {
      AbortedMeaning(a.order, s.nascent);
    } else {
      StepTells(s, a);
      assert s'.completed == s.completed + s'.completed[|s.completed|..];
    }
  }

  // In every run the operations that have completed are exactly those that something has caused to
  // complete, each with the error that belongs to its cause.
  lemma {:induction false} WhyCompleted(run: seq<State>, actions: seq<Action>, i: nat, e: Completion)
    requires IsRun(run, actions) && i < |run|
    ensures e in run[i].completed <==> exists j :: 0 <= j < i && Causes(run[j], actions[j], e)
  {
    if i == 0 {
    } else {
      WhyCompleted(run, actions, i - 1, e);
      StepCauses(run[i - 1], actions[i - 1], e);
    }
  }

  // What takes a connection out of the map.
  ghost predicate Ends(a: Action, con: Connection) {
    a.RunClose? || IsCallback(a, con)
  }

  // The body of asyncConnect got this connection for this operation.
  ghost predicate Begins(s: State, a: Action, con: Connection, id: nat) {
    a == RunConnect(Success, con) && s.tasks != [] && s.tasks[0] == ConnectBody(id) && con !in s.nascent
  }

  lemma StepHolds(s: State, a: Action, con: Connection, id: nat)
    requires Enabled(s, a)
    ensures Holds(Step(s, a), con, id) <==> (Holds(s, con, id) && !Ends(a, con)) || Begins(s, a, con, id)
    ensures Begins(s, a, con, id) ==>
              Step(s, a).nascent == s.nascent[con := id] && Step(s, a).completed == s.completed
  {
  }

  // Action j began the operation, and nothing has ended it since.
  ghost predicate Pending(run: seq<State>, actions: seq<Action>, i: nat, con: Connection, id: nat, j: nat)
    requires i <= |run| && i <= |actions|
  {
    j < i && Begins(run[j], actions[j], con, id) && NoneEnds(actions[j + 1..i], con)
  }

  lemma PendingStep(run: seq<State>, actions: seq<Action>, i: nat, con: Connection, id: nat, j: nat)
    requires i < |run| && i < |actions|
    ensures Pending(run, actions, i + 1, con, id, j) <==>
            if j == i then Begins(run[i], actions[i], con, id)
            else Pending(run, actions, i, con, id, j) && !Ends(actions[i], con)
  {
    hide Begins, Ends;
    if j < i {
      assert actions[j + 1..i + 1] == actions[j + 1..i] + [actions[i]];
    } else if j == i {
      assert actions[i + 1..i + 1] == [];
    }
  }

  // In every run a connection is nascent, for an operation, if and only if the body of asyncConnect
  // got it for that operation, and there has been no callback for it and no close since.
  lemma {:induction false} WhyNascent(run: seq<State>, actions: seq<Action>, i: nat, con: Connection, id: nat)
    requires IsRun(run, actions) && i < |run|
    ensures Holds(run[i], con, id) <==> exists j :: Pending(run, actions, i, con, id, j)
  {
    if i == 0 {
    } else {
      hide Begins, Ends, Holds, Step, Enabled, Pending;
      var p := i - 1;
      WhyNascent(run, actions, p, con, id);
      StepHolds(run[p], actions[p], con, id);
      PendingStep(run, actions, p, con, id, p);
      NotPendingYet(run, actions, p, con, id);
      assert run[i] == Step(run[p], actions[p]);
      if j :| Pending(run, actions, p, con, id, j) {
        PendingStep(run, actions, p, con, id, j);
        assert !Ends(actions[p], con) ==> Pending(run, actions, i, con, id, j);
      }
      if j :| Pending(run, actions, i, con, id, j) {
        PendingStep(run, actions, p, con, id, j);
        assert j == p || Pending(run, actions, p, con, id, j);
      }
    }
  }

  lemma NotPendingYet(run: seq<State>, actions: seq<Action>, i: nat, con: Connection, id: nat)
    requires i <= |run| && i <= |actions|
    ensures !Pending(run, actions, i, con, id, i)
  {
  }

  ghost predicate NoneEnds(actions: seq<Action>, con: Connection) {
    forall a <- actions :: !Ends(a, con)
  }

  // ----- the io_service -----

  // The task that an action posts: a body for each call of the user, and for each callback that
  // settles a connection the clearing of its callbacks.
  ghost function PostedBy(s: State, a: Action): seq<Task> {
    match a
    case AsyncConnect => [ConnectBody(s.issued)]
    case Close => [CloseBody]
    case HandleOpen(found) => if found.Some? && found.value in s.nascent then [ClearHandlers(found.value)] else []
    case HandleFail(found, _) => if found.Some? && found.value in s.nascent then [ClearHandlers(found.value)] else []
    case _ => []
  }

  ghost function Posted(run: seq<State>, actions: seq<Action>, i: nat): seq<Task>
    requires i < |run| && i <= |actions|
  {
    if i == 0 then [] else Posted(run, actions, i - 1) + PostedBy(run[i - 1], actions[i - 1])
  }

  // The tasks that have been run.
  ghost function Ran(run: seq<State>, actions: seq<Action>, i: nat): seq<Task>
    requires i < |run| && i <= |actions|
  {
    if i == 0 then []
    else
      var (s, a) := (run[i - 1], actions[i - 1]);
      Ran(run, actions, i - 1) +
      if (a.RunConnect? || a.RunClose? || a.RunClear?) && s.tasks != [] then [s.tasks[0]] else []
  }

  // The connections whose callbacks these tasks clear.
  function Clears(tasks: seq<Task>): seq<Connection> {
    if tasks == [] then []
    else
      var last := tasks[|tasks| - 1];
      Clears(tasks[..|tasks| - 1]) + if last.ClearHandlers? then [last.con] else []
  }

  // In every run the posted tasks are run in the order of posting, each once.
  lemma {:induction false} TasksAreFifo(run: seq<State>, actions: seq<Action>, i: nat)
    requires IsRun(run, actions) && i < |run|
    ensures Ran(run, actions, i) + run[i].tasks == Posted(run, actions, i)
    ensures run[i].cleared == Clears(Ran(run, actions, i))
  {
    if i == 0 {
    } else {
      var s := run[i - 1];
      hide Step, PostedBy;
      TasksAreFifo(run, actions, i - 1);
      StepTasks(s, actions[i - 1]);
      ClearsOne(Ran(run, actions, i - 1), s.tasks);
      RunOne(Ran(run, actions, i - 1), s.tasks, PostedBy(s, actions[i - 1]));
    }
  }

  lemma ClearsOne(ran: seq<Task>, tasks: seq<Task>)
    ensures tasks != [] ==>
              Clears(ran + [tasks[0]]) == Clears(ran) + if tasks[0].ClearHandlers? then [tasks[0].con] else []
  {
    if tasks != [] { assert (ran + [tasks[0]])[..|ran|] == ran; }
  }

  lemma RunOne(ran: seq<Task>, tasks: seq<Task>, posted: seq<Task>)
    ensures ran + (tasks + posted) == (ran + tasks) + posted
    ensures ran + [] == ran
    ensures tasks != [] ==> (ran + [tasks[0]]) + (tasks[1..] + posted) == (ran + tasks) + posted
  {
  }

  lemma StepTasks(s: State, a: Action)
    requires Enabled(s, a)
    ensures Step(s, a).tasks == (if a.RunConnect? || a.RunClose? || a.RunClear? then s.tasks[1..] else s.tasks)
                                + PostedBy(s, a)
    ensures Step(s, a).cleared == s.cleared + if a.RunClear? then [s.tasks[0].con] else []
  {
  }

  function Connects(actions: seq<Action>): nat {
    if actions == [] then 0
    else Connects(actions[..|actions| - 1]) + if actions[|actions| - 1].RunConnect? then 1 else 0
  }

  function Calls(actions: seq<Action>): nat {
    if actions == [] then 0
    else Calls(actions[..|actions| - 1]) + if actions[|actions| - 1].AsyncConnect? then 1 else 0
  }

  function Range(from: nat, to: nat): (r: seq<nat>)
    requires from <= to
    ensures |r| == to - from && forall k :: 0 <= k < |r| ==> r[k] == from + k
  {
    seq(to - from, k requires 0 <= k < to - from => from + k)
  }

  // In every run the n-th call of asyncConnect is operation n, and the bodies are run in that order.
  lemma {:induction false} ConnectsInOrder(run: seq<State>, actions: seq<Action>, i: nat)
    requires IsRun(run, actions) && i < |run|
    ensures run[i].issued == Calls(actions[..i]) >= Connects(actions[..i])
    ensures PostedIds(run[i].tasks) == Range(Connects(actions[..i]), run[i].issued)
    ensures i < |actions| && actions[i].RunConnect? ==> run[i].tasks[0] == ConnectBody(Connects(actions[..i]))
  {
    hide Step, PostedIds, Range;
    if i == 0 {
      NonePosted();
    } else {
      ConnectsInOrder(run, actions, i - 1);
      assert actions[..i][..i - 1] == actions[..i - 1];
      StepIds(run[i - 1], actions[i - 1], Connects(actions[..i - 1]));
    }
    if i < |actions| { NextConnect(run[i], actions[i], Connects(actions[..i])); }
  }

  lemma NonePosted()
    ensures PostedIds([]) == Range(0, 0)
  {
  }

  lemma NextConnect(s: State, a: Action, next: nat)
    requires Enabled(s, a) && next <= s.issued && PostedIds(s.tasks) == Range(next, s.issued)
    ensures a.RunConnect? ==> s.tasks[0] == ConnectBody(next) && next < s.issued
  {
    if a.RunConnect? { assert PostedIds(s.tasks)[0] == s.tasks[0].id; }
  }

  lemma StepIds(s: State, a: Action, next: nat)
    requires Enabled(s, a) && next <= s.issued && PostedIds(s.tasks) == Range(next, s.issued)
    ensures var (s', next') := (Step(s, a), next + if a.RunConnect? then 1 else 0);
            && s'.issued == s.issued + (if a.AsyncConnect? then 1 else 0) && next' <= s'.issued
            && PostedIds(s'.tasks) == Range(next', s'.issued)
  {
    hide PostedIds;
    NextConnect(s, a, next);
    match a
    case AsyncConnect =>
      PostedIdsAppend(s.tasks, ConnectBody(s.issued));
      assert Range(next, s.issued) + [s.issued] == Range(next, s.issued + 1);
    case Close => PostedIdsAppend(s.tasks, CloseBody);
    case RunConnect(_, _) =>
      PostedIdsFirst(s.tasks);
      assert PostedIds(s.tasks[1..]) == PostedIds(s.tasks)[1..] == Range(next + 1, s.issued);
    case RunClose(_) => PostedIdsFirst(s.tasks);
    case RunClear => PostedIdsFirst(s.tasks);
    case HandleOpen(found) => if found.Some? { PostedIdsAppend(s.tasks, ClearHandlers(found.value)); }
    case HandleFail(found, _) => if found.Some? { PostedIdsAppend(s.tasks, ClearHandlers(found.value)); }
  }

  lemma PostedIdsFirst(tasks: seq<Task>)
    requires tasks != []
    ensures PostedIds(tasks) == (if tasks[0].ConnectBody? then [tasks[0].id] else []) + PostedIds(tasks[1..])
  {
  }

  // A posted task can be run: with any connection or error, and whatever the order of the map.
  lemma NeverStuck(s: State, ec: ErrorCode, con: Connection) returns (a: Action)
    requires s.tasks != []
    ensures Enabled(s, a) && (a.RunConnect? || a.RunClose? || a.RunClear?)
    ensures s.tasks[0].ConnectBody? ==> a == RunConnect(ec, con)
  {
    match s.tasks[0]
    case ConnectBody(_) => a := RunConnect(ec, con);
    case CloseBody =>
      var order := Listed(s.nascent.Keys);
      a := RunClose(order);
    case ClearHandlers(_) => a := RunClear;
  }

  lemma {:induction false} Listed(cons: set<Connection>) returns (order: seq<Connection>)
    ensures forall c :: c in order <==> c in cons
    ensures forall i, j :: 0 <= i < j < |order| ==> order[i] != order[j]
  {
    if cons == {} {
      order := [];
    } else {
      var c :| c in cons;
      var rest := Listed(cons - {c});
      order := rest + [c];
    }
  }

  // ----- callbacks -----

  ghost predicate IsCallback(a: Action, con: Connection) {
    (a.HandleOpen? || a.HandleFail?) && a.found == Some(con)
  }

  // Success on open; on failure the transport's error, or one made up if it recorded none.
  function CallbackError(a: Action): ErrorCode
    requires a.HandleOpen? || a.HandleFail?
  {
    if a.HandleOpen? then Success else if a.transport.Success? then NetworkDown else a.transport
  }

  // A callback settles its connection for good: if that was nascent, its operation, which had not
  // completed, is completed now, once, with success on open and with an error on failure; no other
  // connection is touched; and a further callback for it, of either kind, changes nothing.
  lemma CallbackSettles(s: State, a: Action, con: Connection)
    requires Invariant(s) && IsCallback(a, con)
    ensures var s' := Step(s, a);
            && con !in s'.nascent && s'.issued == s.issued && s'.cleared == s.cleared
            && s'.tasks == s.tasks + (if con in s.nascent then [ClearHandlers(con)] else [])
            && (forall c :: c != con ==> (c in s'.nascent <==> c in s.nascent)
                                         && (c in s.nascent ==> s'.nascent[c] == s.nascent[c]))
            && (con !in s.nascent ==> s' == s)
            && (con in s.nascent ==>
                  var id := s.nascent[con];
                  && Count(CompletedIds(s.completed), id) == 0 && Count(CompletedIds(s'.completed), id) == 1
                  && s'.completed == s.completed + [Completion(id, CallbackError(a), Some(con))])
            && forall b :: IsCallback(b, con) ==> Step(s', b) == s'
  {
    if con in s.nascent {
      var ec := CallbackError(a);
      var id := s.nascent[con];
      assert Step(s, a).completed == s.completed + [Completion(id, ec, Some(con))];
      assert Places(s, id) <= 1;
      CompletedOne(s.completed, Completion(id, ec, Some(con)), id);
    }
  }

  // An open callback for a nascent connection, and the completion that it makes.
  ghost predicate Opened(s: State, a: Action, e: Completion) {
    && a.HandleOpen? && a.found.Some? && a.found.value in s.nascent
    && e == Completion(s.nascent[a.found.value], Success, a.found)
  }

  // In every run a completion reports success if and only if an open callback came for the
  // connection of that very operation while it was nascent.
  lemma {:induction false} SuccessMeansOpened(run: seq<State>, actions: seq<Action>, i: nat, k: nat)
    requires IsRun(run, actions) && i < |run| && k < |run[i].completed|
    ensures run[i].completed[k].ec.Success? <==>
            exists j :: 0 <= j < i && Opened(run[j], actions[j], run[i].completed[k])
  {
    if i == 0 {
    } else {
      var s, a := run[i - 1], actions[i - 1];
      if k < |s.completed| {
        CompletionsStay(run, actions, i - 1, i);
        SuccessMeansOpened(run, actions, i - 1, k);
      } else if a.RunClose? {
        assert run[i].completed[k] == Aborted(a.order, s.nascent)[k - |s.completed|];
      } else {
        StepTells(s, a);
        assert run[i].completed[k] in run[i].completed[|s.completed|..];
        if a.HandleOpen? { assert Opened(s, a, run[i].completed[k]); }
      }
    }
  }

  // Running a posted close completes every nascent operation with operation_aborted, and no other.
  lemma CloseAborts(s: State, order: seq<Connection>)
    requires Invariant(s) && Enabled(s, RunClose(order))
    ensures var s' := Step(s, RunClose(order));
            && s'.nascent == map[]
            && (forall c | c in s.nascent ::
                  Completion(s.nascent[c], OperationAborted, None) in s'.completed[|s.completed|..])
            && (forall e <- s'.completed[|s.completed|..] :: e.id in s.nascent.Values && e.ec == OperationAborted)
            && |s'.completed| == |s.completed| + |s.nascent|
  {
    hide Invariant;
    assert Step(s, RunClose(order)).completed[|s.completed|..] == Aborted(order, s.nascent);
    AbortedMeaning(order, s.nascent);
    EnumerationSize(order, s.nascent);
  }

  lemma AbortedMeaning(order: seq<Connection>, nascent: map<Connection, nat>)
    requires Enumerates(order, nascent)
    ensures forall c | c in nascent :: Completion(nascent[c], OperationAborted, None) in Aborted(order, nascent)
    ensures forall e <- Aborted(order, nascent) ::
              e.id in nascent.Values && e == Completion(e.id, OperationAborted, None)
  {
    forall c | c in nascent ensures Completion(nascent[c], OperationAborted, None) in Aborted(order, nascent) {
      assert c in order;
      var i :| 0 <= i < |order| && order[i] == c;
      assert Aborted(order, nascent)[i] == Completion(nascent[c], OperationAborted, None);
    }
    forall e | e in Aborted(order, nascent)
      ensures e.id in nascent.Values && e == Completion(e.id, OperationAborted, None)
    {
      var i :| 0 <= i < |order| && Aborted(order, nascent)[i] == e;
      assert order[i] in order;
    }
  }

  lemma EnumerationSize(order: seq<Connection>, nascent: map<Connection, nat>)
    requires Enumerates(order, nascent)
    ensures |order| == |nascent|
  {
    DistinctSize(order);
    assert ElementSet(order) == nascent.Keys;
  }

  function ElementSet(order: seq<Connection>): set<Connection> {
    set c | c in order
  }

  lemma {:induction false} DistinctSize(order: seq<Connection>)
    requires forall i, j :: 0 <= i < j < |order| ==> order[i] != order[j]
    ensures |ElementSet(order)| == |order|
  {
    if order == [] {
      assert ElementSet(order) == {};
    } else {
      var rest, last := order[..|order| - 1], order[|order| - 1];
      DistinctSize(rest);
      assert order == rest + [last];
      assert last !in rest;
      assert ElementSet(order) == ElementSet(rest) + {last};
    }
  }

  // ----- the code -----

  class ConnectorImpl {
    var mNascentConnections: map<Connection, nat>
    // The io_service, the operations issued and the handlers called.
    var tasks: seq<Task>
    var issued: nat
    var completed: seq<Completion>
    var cleared: seq<Connection>

    constructor ()
      ensures Abs() == INITIAL
    {
      mNascentConnections, tasks, issued, completed, cleared := map[], [], 0, [], [];
    }

    ghost function Abs(): State
      reads this
    {
      State(issued, tasks, mNascentConnections, completed, cleared)
    }

    method PostClose()
      modifies this
      ensures Abs() == Step(old(Abs()), Close)
    {
      tasks := tasks + [CloseBody];
    }

    method PostConnect() returns (id: nat)
      modifies this
      ensures Abs() == Step(old(Abs()), AsyncConnect) && id == old(issued)
    {
      id := issued;
      issued := issued + 1;
      tasks := tasks + [ConnectBody(id)];
    }

    method RunConnectBody(ec: ErrorCode, con: Connection)
      requires Enabled(Abs(), RunConnect(ec, con))
      modifies this
      ensures Abs() == Step(old(Abs()), RunConnect(ec, con))
    {
      var id := tasks[0].id;
      tasks := tasks[1..];
      if !ec.Success? {
        completed := completed + [Completion(id, ec, None)];
        return;
      }
      if con !in mNascentConnections {
        mNascentConnections := mNascentConnections[con := id];
      } else {
        completed := completed + [Completion(id, OperationAborted, None)];
      }
    }

    // The loop of close(), in the order in which the map is iterated.
    method RunCloseBody() returns (ghost order: seq<Connection>)
      requires tasks != [] && tasks[0].CloseBody?
      modifies this
      ensures Enumerates(order, old(mNascentConnections))
      ensures old(Enabled(Abs(), RunClose(order))) && Abs() == Step(old(Abs()), RunClose(order))
    {
      tasks := tasks[1..];
      order := [];
      var left := mNascentConnections.Keys;
      while left != {}
        invariant left <= mNascentConnections.Keys && mNascentConnections == old(mNascentConnections)
        invariant forall i, j :: 0 <= i < j < |order| ==> order[i] != order[j]
        invariant forall c :: c in order <==> c in mNascentConnections && c !in left
        invariant tasks == old(tasks)[1..] && issued == old(issued) && cleared == old(cleared)
        invariant completed == old(completed) + Aborted(order, mNascentConnections)
      {
        var con :| con in left;
        completed := completed + [Completion(mNascentConnections[con], OperationAborted, None)];
        assert Aborted(order + [con], mNascentConnections) ==
               Aborted(order, mNascentConnections) + [Completion(mNascentConnections[con], OperationAborted, None)];
        order := order + [con];
        left := left - {con};
      }
      mNascentConnections := map[];
    }

    method RunClearHandlers()
      requires Enabled(Abs(), RunClear)
      modifies this
      ensures Abs() == Step(old(Abs()), RunClear)
    {
      cleared := cleared + [tasks[0].con];
      tasks := tasks[1..];
    }

    method HandleFailCallback(found: Option<Connection>, transport: ErrorCode)
      modifies this
      ensures Abs() == Step(old(Abs()), HandleFail(found, transport))
    {
      if found.Some? {
        HandleOpenOrFail(found.value, if transport.Success? then NetworkDown else transport);
      }
    }

    method HandleOpenCallback(found: Option<Connection>)
      modifies this
      ensures Abs() == Step(old(Abs()), HandleOpen(found))
    {
      if found.Some? {
        HandleOpenOrFail(found.value, Success);
      }
    }

    method HandleOpenOrFail(con: Connection, ec: ErrorCode)
      modifies this
      ensures Abs() == OpenOrFail(old(Abs()), con, ec)
    {
      if con in mNascentConnections {
        var id := mNascentConnections[con];
        mNascentConnections := mNascentConnections - {con};
        tasks := tasks + [ClearHandlers(con)];
        completed := completed + [Completion(id, ec, Some(con))];
      }
    }
  }
}
