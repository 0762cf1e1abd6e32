// The asynchronous operation: Operation objects share one reference-counted state, and releasing
// the last reference frees the state and then calls the completion handler.
module Operation {

  // ----- the lifetime of one operation -----

  // What an observer sees of the shared state.
  datatype Event<+R> = Freed | Called(result: R)

  // A call of operator() in progress; the object of a child is a temporary of runChild().
  datatype Frame = Frame(id: nat, child: bool)

  // objects: the Operation objects that exist, with whether their pointer is non-null.
  // frames: the calls of operator() in progress, innermost first.
  datatype World<R> = World(objects: map<nat, bool>, refs: nat, alive: bool, result: R,
                            events: seq<Event<R>>, frames: seq<Frame>)

  datatype Action<R> =
    | Copy(source: nat, target: nat)
    | Move(source: nat, target: nat)
    | Destroy(id: nat)
    | Complete(id: nat, result: R)
    | Invoke(id: nat)
    | RunChild(id: nat, temporary: nat)
    | Return(done: bool)  // the coroutine returns from the innermost call; done: it has ended

  // What the code assumes: an object exists while it is used, its pointer is not null where it is
  // dereferenced, and no object is destroyed while it is being called.
  predicate Enabled<R>(w: World<R>, a: Action<R>) {
    match a
    case Copy(i, j) => i in w.objects && j !in w.objects
    case Move(i, j) => i in w.objects && j !in w.objects
    case Destroy(i) => i in w.objects && forall f <- w.frames :: f.id != i
    case Complete(i, _) => i in w.objects && w.objects[i]
    case Invoke(i) => i in w.objects && w.objects[i]
    case RunChild(i, t) => i in w.objects && w.objects[i] && t !in w.objects
    case Return(_) => w.frames != []
  }

  function Acquired<R>(w: World<R>): World<R> {
    w.(refs := w.refs + 1)
  }

  // intrusive_ptr_release: at zero the handler and the result are taken out, the state is freed,
  // and only then the handler is called.
  function Released<R>(w: World<R>): World<R> {
    if w.refs <= 1 then w.(refs := 0, alive := false, events := w.events + [Freed, Called(w.result)])
    else w.(refs := w.refs - 1)
  }

  // The pointer of an object becomes null.
  function Dropped<R>(w: World<R>, i: nat): World<R> {
    if i !in w.objects then w
    else
      var w' := w.(objects := w.objects[i := false]);
      if w.objects[i] then Released(w') else w'
  }

  function Copied<R>(w: World<R>, i: nat, j: nat): World<R>
    requires i in w.objects
  {
    var w' := w.(objects := w.objects[j := w.objects[i]]);
    if w.objects[i] then Acquired(w') else w'
  }

  function Moved<R>(w: World<R>, i: nat, j: nat): World<R>
    requires i in w.objects
  {
    w.(objects := w.objects[j := w.objects[i]][i := false])
  }

  function Destroyed<R>(w: World<R>, i: nat): World<R> {
    var w' := Dropped(w, i);
    w'.(objects := w'.objects - {i})
  }

  function Step<R>(w: World<R>, a: Action<R>): World<R>
    requires Enabled(w, a)
  {
    match a
    case Copy(i, j) => Copied(w, i, j)
    case Move(i, j) => Moved(w, i, j)
    case Destroy(i) => Destroyed(w, i)
    case Complete(_, r) => w.(result := r)
    case Invoke(i) => w.(frames := [Frame(i, false)] + w.frames)
    case RunChild(i, t) => Copied(w, i, t).(frames := [Frame(t, true)] + w.frames)
    case Return(done) =>
      var f := w.frames[0];
      var w1 := w.(frames := w.frames[1..]);
      var w2 := if done then Dropped(w1, f.id) else w1;
      if f.child then Destroyed(w2, f.id) else w2
  }

  // makeOperation: one object, one reference.
  function Made<R>(first: nat, defaultResult: R): World<R> {
    World(map[first := true], 1, true, defaultResult, [], [])
  }

  ghost predicate IsRun<R>(run: seq<World<R>>, actions: seq<Action<R>>, first: nat, defaultResult: R) {
    && |run| == |actions| + 1
    && run[0] == Made(first, defaultResult)
    && forall i :: 0 <= i < |actions| ==> Enabled(run[i], actions[i]) && run[i + 1] == Step(run[i], actions[i])
  }

  // The arguments of the last complete() call, or the default result.
  function LastResult<R>(defaultResult: R, actions: seq<Action<R>>): R {
    if actions == [] then defaultResult
    else
      match actions[|actions| - 1]
      case Complete(_, r) => r
      case _ => LastResult(defaultResult, actions[..|actions| - 1])
  }

  // The objects whose pointer is not null.
  function Holders(objects: map<nat, bool>): set<nat> {
    set i | i in objects && objects[i]
  }

  // Calls in progress are calls of existing objects, and those that surround a call of a temporary
  // are not calls of that temporary.
  ghost predicate Nested<R>(w: World<R>) {
    && (forall f <- w.frames :: f.id in w.objects)
    && (forall k, l :: 0 <= k < l < |w.frames| && w.frames[k].child ==> w.frames[l].id != w.frames[k].id)
  }

  ghost predicate Invariant<R>(w: World<R>) {
    Nested(w) && Counted(w)
  }

  // The count is exact, and the state has been freed and the handler called once it is zero.
  ghost predicate Counted<R>(w: World<R>) {
    && w.refs == |Holders(w.objects)|
    && (w.alive <==> w.refs > 0)
    && w.events == if w.alive then [] else [Freed, Called(w.result)]
  }

  lemma HoldersChange(objects: map<nat, bool>, i: nat, b: bool)
    ensures Holders(objects[i := b]) == if b then Holders(objects) + {i} else Holders(objects) - {i}
    ensures i in objects && objects[i] <==> i in Holders(objects)
  {
  }

  lemma HoldersWithout(objects: map<nat, bool>, i: nat)
    requires i !in Holders(objects)
    ensures Holders(objects - {i}) == Holders(objects)
  {
  }

  lemma DroppedKeeps<R>(w: World<R>, i: nat)
    requires Counted(w)
    ensures Counted(Dropped(w, i))
    ensures Dropped(w, i).result == w.result && Dropped(w, i).frames == w.frames
    ensures Dropped(w, i).objects.Keys == w.objects.Keys && i !in Holders(Dropped(w, i).objects)
    ensures w.refs == 0 ==> Dropped(w, i).refs == 0
  {
    hide Holders;
    HoldersChange(w.objects, i, false);
  }

  lemma CopiedKeeps<R>(w: World<R>, i: nat, j: nat)
    requires Counted(w) && i in w.objects && j !in w.objects
    ensures Counted(Copied(w, i, j))
    ensures w.refs == 0 ==> Copied(w, i, j).refs == 0
  {
    hide Holders;
    HoldersChange(w.objects, i, true);
    HoldersChange(w.objects, j, w.objects[i]);
    assert j !in Holders(w.objects);
  }

  lemma DestroyedKeeps<R>(w: World<R>, i: nat)
    requires Counted(w)
    ensures Counted(Destroyed(w, i)) && Destroyed(w, i).result == w.result
    ensures Destroyed(w, i).objects.Keys == w.objects.Keys - {i} && Destroyed(w, i).frames == w.frames
    ensures w.refs == 0 ==> Destroyed(w, i).refs == 0
  {
    hide Holders;
    DroppedKeeps(w, i);
    HoldersWithout(Dropped(w, i).objects, i);
  }

  lemma MovedKeeps<R>(w: World<R>, i: nat, j: nat)
    requires Counted(w) && i in w.objects && j !in w.objects
    ensures Counted(Moved(w, i, j))
  {
    hide Holders;
    MovedMeaning(w, i, j);
    HoldersChange(w.objects, j, true);
    if i in Holders(w.objects) { SameSize(Holders(w.objects), i, j); }
  }

  lemma SameSize(h: set<nat>, i: nat, j: nat)
    requires i in h && j !in h
    ensures |h - {i} + {j}| == |h|
  {
    assert |h - {i}| == |h| - 1;
  }

  // Every step keeps the count exact; a state that is gone stays gone; only complete() changes the
  // result.
  lemma StepKeeps<R>(w: World<R>, a: Action<R>)
    requires Invariant(w) && Enabled(w, a)
    ensures Invariant(Step(w, a))
    ensures w.refs == 0 ==> Step(w, a).refs == 0
    ensures Step(w, a).result == if a.Complete? then a.result else w.result
  {
    hide Holders;
    StepKeepsNested(w, a);
    match a
    case Copy(i, j) => CopiedKeeps(w, i, j);
    case Move(i, j) => MovedKeeps(w, i, j);
    case Destroy(i) => DestroyedKeeps(w, i);
    case Complete(i, _) => HoldersChange(w.objects, i, true);
    case Invoke(_) =>
    case RunChild(i, t) => CopiedKeeps(w, i, t);
    case Return(done) => ReturnKeeps(w, done);
  }

  lemma FirstFrame<R>(w: World<R>)
    requires Invariant(w) && w.frames != []
    ensures w.frames[0].id in w.objects && Counted(w.(frames := w.frames[1..]))
  {
    assert w.frames[0] in w.frames;
  }

  lemma ReturnKeeps<R>(w: World<R>, done: bool)
    requires Invariant(w) && w.frames != []
    ensures var w' := Step(w, Return(done));
            Counted(w') && (w.refs == 0 ==> w'.refs == 0) && w'.result == w.result
  {
    var f := w.frames[0];
    var w1 := w.(frames := w.frames[1..]);
    DroppedKeeps(w1, f.id);
    var w2 := if done then Dropped(w1, f.id) else w1;
    DestroyedKeeps(w2, f.id);
  }

  // Which objects hold a pointer after each action, and which objects and calls there are.
  ghost predicate HoldsAfter<R>(w: World<R>, a: Action<R>, w': World<R>)
    requires a.Return? ==> w.frames != []
  {
    var (h, h', ids, ids') := (Holders(w.objects), Holders(w'.objects), w.objects.Keys, w'.objects.Keys);
    match a
    case Copy(i, j) => h' == h + (if i in h then {j} else {}) && ids' == ids + {j} && w'.frames == w.frames
    case Move(i, j) => h' == (if i in h then h - {i} + {j} else h) && ids' == ids + {j} && w'.frames == w.frames
    case Destroy(i) => h' == h - {i} && ids' == ids - {i} && w'.frames == w.frames
    case Complete(_, _) => h' == h && ids' == ids && w'.frames == w.frames
    case Invoke(i) => h' == h && ids' == ids && w'.frames == [Frame(i, false)] + w.frames
    case RunChild(_, t) => h' == h + {t} && ids' == ids + {t} && w'.frames == [Frame(t, true)] + w.frames
    case Return(done) =>
      var f := w.frames[0];
      && w.frames == [f] + w'.frames
      && h' == (if done || f.child then h - {f.id} else h)
      && ids' == (if f.child then ids - {f.id} else ids)
  }

  // Copies and children are new holders exactly if their source is one; moving hands the pointer
  // over; a call that returns keeps its pointer until its coroutine has ended; and the last holder
  // to go, and no other, has the state freed and the handler called with the result.
  lemma StepMeaning<R>(w: World<R>, a: Action<R>)
    requires Invariant(w) && Enabled(w, a)
    ensures HoldsAfter(w, a, Step(w, a))
    ensures var (h, h') := (Holders(w.objects), Holders(Step(w, a).objects));
            && Step(w, a).refs == w.refs + |h'| - |h|
            && Step(w, a).events == w.events + if h != {} && h' == {} then [Freed, Called(w.result)] else []
  {
    hide Nested;
    ActionMeaning(w, a);
    hide Holders, Step;
    StepKeeps(w, a);
    if w.refs == 0 { GoneStays(w, a); }
    if a.Complete? { HoldersChange(w.objects, a.id, true); }
  }

  lemma ActionMeaning<R>(w: World<R>, a: Action<R>)
    requires Enabled(w, a)
    ensures HoldsAfter(w, a, Step(w, a))
  {
    hide Holders;
    match a
    case Copy(i, j) => CopiedMeaning(w, i, j);
    case Move(i, j) => MovedMeaning(w, i, j);
    case Destroy(i) => DestroyedMeaning(w, i);
    case Complete(_, _) =>
    case Invoke(_) =>
    case RunChild(i, t) =>
      CopiedMeaning(w, i, t);
      HoldersChange(w.objects, i, true);
    case Return(done) =>
      var f := w.frames[0];
      var w1 := w.(frames := w.frames[1..]);
      DroppedMeaning(w1, f.id);
      DestroyedMeaning(if done then Dropped(w1, f.id) else w1, f.id);
  }

  lemma CopiedMeaning<R>(w: World<R>, i: nat, j: nat)
    requires i in w.objects && j !in w.objects
    ensures var (w', h) := (Copied(w, i, j), Holders(w.objects));
            && Holders(w'.objects) == h + (if i in h then {j} else {})
            && w'.objects.Keys == w.objects.Keys + {j} && w'.frames == w.frames
  {
    hide Holders;
    HoldersChange(w.objects, i, true);
    HoldersChange(w.objects, j, w.objects[i]);
  }

  lemma MovedMeaning<R>(w: World<R>, i: nat, j: nat)
    requires i in w.objects && j !in w.objects
    ensures var (w', h) := (Moved(w, i, j), Holders(w.objects));
            && Holders(w'.objects) == (if i in h then h - {i} + {j} else h)
            && w'.objects.Keys == w.objects.Keys + {j} && w'.frames == w.frames
  {
    hide Holders;
    HoldersChange(w.objects, i, true);
    HoldersChange(w.objects, j, w.objects[i]);
    HoldersChange(w.objects[j := w.objects[i]], i, false);
  }

  lemma DroppedMeaning<R>(w: World<R>, i: nat)
    ensures var w' := Dropped(w, i);
            && Holders(w'.objects) == Holders(w.objects) - {i}
            && w'.objects.Keys == w.objects.Keys && w'.frames == w.frames
  {
    hide Holders;
    HoldersChange(w.objects, i, false);
  }

  lemma DestroyedMeaning<R>(w: World<R>, i: nat)
    ensures var w' := Destroyed(w, i);
            && Holders(w'.objects) == Holders(w.objects) - {i}
            && w'.objects.Keys == w.objects.Keys - {i} && w'.frames == w.frames
  {
    hide Holders;
    DroppedMeaning(w, i);
    HoldersWithout(Dropped(w, i).objects, i);
  }

  lemma StepKeepsNested<R>(w: World<R>, a: Action<R>)
    requires Nested(w) && Enabled(w, a)
    ensures Nested(Step(w, a))
  {
    match a
    case Copy(i, j) => SameCallsKeep(w, Copied(w, i, j));
    case Move(i, j) => SameCallsKeep(w, Moved(w, i, j));
    case Destroy(i) => SameCallsKeep(w, Destroyed(w, i));
    case Complete(_, r) =>
    case Invoke(i) => PushKeeps(w, Step(w, a), Frame(i, false));
    case RunChild(i, t) => PushKeeps(w, Step(w, a), Frame(t, true));
    case Return(done) => PopKeeps(w, Step(w, a));
  }

  lemma SameCallsKeep<R>(w: World<R>, w': World<R>)
    requires Nested(w) && w'.frames == w.frames
    requires forall f <- w.frames :: f.id in w.objects ==> f.id in w'.objects
    ensures Nested(w')
  {
  }

  // A new call: of an object that exists, or of a temporary that did not exist before.
  lemma PushKeeps<R>(w: World<R>, w': World<R>, f: Frame)
    requires Nested(w) && w'.frames == [f] + w.frames && w.objects.Keys + {f.id} == w'.objects.Keys
    requires f.child ==> f.id !in w.objects
    ensures Nested(w')
  {
    assert forall k :: 0 < k < |w'.frames| ==> w'.frames[k] == w.frames[k - 1] && w.frames[k - 1] in w.frames;
  }

  // The end of a call, and of its object if that is a temporary.
  lemma PopKeeps<R>(w: World<R>, w': World<R>)
    requires Nested(w) && w.frames != [] && w'.frames == w.frames[1..]
    requires w'.objects.Keys == if w.frames[0].child then w.objects.Keys - {w.frames[0].id} else w.objects.Keys
    ensures Nested(w')
  {
    assert forall k :: 0 <= k < |w'.frames| ==> w'.frames[k] == w.frames[k + 1] && w.frames[k + 1] in w.frames;
  }

  lemma {:induction false} RunKeeps<R>(run: seq<World<R>>, actions: seq<Action<R>>, first: nat, defaultResult: R,
                                       i: nat)
    requires IsRun(run, actions, first, defaultResult) && i < |run|
    ensures Invariant(run[i])
    ensures run[i].result == LastResult(defaultResult, actions[..i])
  {
    if i == 0 {
      assert Holders(run[0].objects) == {first};
    } else {
      hide Holders, Step, Invariant;
      RunKeeps(run, actions, first, defaultResult, i - 1);
      StepKeeps(run[i - 1], actions[i - 1]);
      assert actions[..i][..i - 1] == actions[..i - 1];
    }
  }

  // In every run the count is the number of non-null pointers at all times; nothing happens to the
  // state while there is one; and once there is none, it has been freed and then the handler has
  // been called, once, with the arguments of the last complete() call or the default result.
  lemma Lifetime<R>(run: seq<World<R>>, actions: seq<Action<R>>, first: nat, defaultResult: R, i: nat)
    requires IsRun(run, actions, first, defaultResult) && i < |run|
    ensures run[i].refs == |Holders(run[i].objects)|
    ensures Holders(run[i].objects) != {} ==> run[i].events == []
    ensures Holders(run[i].objects) == {} ==>
              run[i].events == [Freed, Called(LastResult(defaultResult, actions[..i]))]
  {
    RunKeeps(run, actions, first, defaultResult, i);
  }

  // A state that is gone is not touched any more.
  lemma GoneStays<R>(w: World<R>, a: Action<R>)
    requires Invariant(w) && Enabled(w, a) && w.refs == 0
    ensures Step(w, a).refs == 0 && Step(w, a).events == w.events && !a.Complete?
  {
    hide Step, Nested;
    StepKeeps(w, a);
    assert Holders(w.objects) == {};
    assert forall i :: i in w.objects && w.objects[i] ==> i in Holders(w.objects);
  }

  // It happens when the count first reaches zero, and nothing changes it afterwards.
  lemma {:induction false} FreedOnce<R>(run: seq<World<R>>, actions: seq<Action<R>>, first: nat, defaultResult: R,
                                        i: nat, j: nat)
    requires IsRun(run, actions, first, defaultResult) && i <= j < |run| && run[i].refs == 0
    ensures run[j].refs == 0 && run[j].events == run[i].events
    ensures LastResult(defaultResult, actions[..j]) == LastResult(defaultResult, actions[..i])
  {
    hide Holders, Step, Enabled, Invariant;
    if i == j {
    } else {
      FreedOnce(run, actions, first, defaultResult, i, j - 1);
      RunKeeps(run, actions, first, defaultResult, j - 1);
      GoneStays(run[j - 1], actions[j - 1]);
      assert actions[..j][..j - 1] == actions[..j - 1];
    }
  }

  // ----- the code -----

  class OperationState<R> {
    var mResult: R
    var mRefs: nat
    // Not fields of the original: whether the object has been destroyed, and what was observed.
    var freed: bool
    var events: seq<Event<R>>

    constructor (defaultResult: R)
      ensures mResult == defaultResult && mRefs == 0 && !freed && events == []
    {
      mResult, mRefs, freed, events := defaultResult, 0, false, [];
    }

    method SetResult(result: R)
      requires !freed
      modifies this`mResult
      ensures mResult == result
    {
      mResult := result;
    }

    method AddRef()
      requires !freed
      modifies this`mRefs
      ensures mRefs == old(mRefs) + 1
    {
      mRefs := mRefs + 1;
    }

    method Release()
      requires !freed && mRefs > 0
      modifies this`mRefs, this`freed, this`events
      ensures mRefs == old(mRefs) - 1
      ensures freed <==> mRefs == 0
      ensures events == if mRefs == 0 then old(events) + [Freed, Called(mResult)] else old(events)
    {
      mRefs := mRefs - 1;
      if mRefs == 0 {
        var result := mResult;
        freed := true;
        events := events + [Freed];
        events := events + [Called(result)];
      }
    }
  }

  class OperationObject<R> {
    var m: OperationState?<R>

    // From the pointer that makeOperation creates.
    constructor FromState(state: OperationState<R>)
      requires !state.freed
      modifies state`mRefs
      ensures m == state && state.mRefs == old(state.mRefs) + 1
    {
      m := state;
      new;
      state.AddRef();
    }

    constructor CopyOf(other: OperationObject<R>)
      requires other.m != null ==> !other.m.freed
      modifies if other.m == null then {} else {other.m}
      ensures m == other.m
      ensures m != null ==> m.mRefs == old(other.m.mRefs) + 1 && !m.freed
      ensures m != null ==> m.mResult == old(other.m.mResult) && m.events == old(other.m.events)
    {
      m := other.m;
      new;
      if m != null {
        m.AddRef();
      }
    }

    constructor MoveOf(other: OperationObject<R>)
      modifies other`m
      ensures m == old(other.m) && other.m == null
    {
      m := other.m;
      new;
      other.m := null;
    }

    // m.reset(), and the destructor of the pointer.
    method Reset()
      requires m != null ==> !m.freed && m.mRefs > 0
      modifies this`m, if m == null then {} else {m}
      ensures m == null
      ensures old(m) != null ==>
                && old(m).mRefs == old(m.mRefs) - 1 && (old(m).freed <==> old(m).mRefs == 0)
                && old(m).mResult == old(m.mResult)
                && old(m).events == old(m.events) + if old(m).mRefs == 0 then [Freed, Called(old(m).mResult)] else []
    {
      if m != null {
        var state := m;
        m := null;
        state.Release();
      }
    }

    method CompleteWith(result: R)
      requires m != null && !m.freed
      modifies m`mResult
      ensures m.mResult == result
    {
      m.SetResult(result);
    }
  }

  // Which of some objects have a pointer that is not null.
  ghost function Held<R>(objects: map<nat, OperationObject<R>>): map<nat, bool>
    reads objects.Values
  {
    map i | i in objects :: objects[i].m != null
  }

  lemma HeldWith<R>(objects: map<nat, OperationObject<R>>, j: nat, o: OperationObject<R>)
    ensures Held(objects[j := o]) == Held(objects)[j := o.m != null]
  {
  }

  lemma HeldWithout<R>(objects: map<nat, OperationObject<R>>, i: nat)
    ensures Held(objects - {i}) == Held(objects) - {i}
  {
  }

  lemma HeldIs<R>(objects: map<nat, OperationObject<R>>, held: map<nat, bool>)
    requires held.Keys == objects.Keys
    requires forall i :: i in objects ==> held[i] == (objects[i].m != null)
    ensures Held(objects) == held
  {
  }

  lemma HeldAt<R>(objects: map<nat, OperationObject<R>>)
    ensures Held(objects).Keys == objects.Keys
    ensures forall i :: i in objects ==> Held(objects)[i] == (objects[i].m != null)
  {
  }

  // A program that does anything with the objects of one operation.
  class Program<R> {
    const state: OperationState<R>
    var objects: map<nat, OperationObject<R>>
    var frames: seq<Frame>

    ghost predicate Valid()
      reads this, objects.Values, state
    {
      && (forall i, j :: i in objects && j in objects && i != j ==> objects[i] != objects[j])
      && (forall i :: i in objects ==> objects[i].m == null || objects[i].m == state)
      && (state.freed <==> state.mRefs == 0)
    }

    ghost function Abs(): World<R>
      reads this, objects.Values, state
    {
      World(Held(objects), state.mRefs, !state.freed, state.mResult, state.events, frames)
    }

    // makeOperation
    constructor (first: nat, defaultResult: R)
      ensures Valid() && Abs() == Made(first, defaultResult)
    {
      var s := new OperationState<R>(defaultResult);
      var o := new OperationObject<R>.FromState(s);
      state := s;
      objects := map[first := o];
      frames := [];
    }

    method CopyObject(i: nat, j: nat)
      requires Valid() && Counted(Abs()) && i in objects && j !in objects
      modifies this`objects, state
      ensures Valid() && Abs() == Copied(old(Abs()), i, j)
      ensures fresh(objects.Values - old(objects.Values))
    {
      hide Holders, Held, Counted;
      HolderKeepsAlive(i);
      var o := new OperationObject<R>.CopyOf(objects[i]);
      HeldWith(objects, j, o);
      objects := objects[j := o];
    }

    method MoveObject(i: nat, j: nat)
      requires Valid() && i in objects && j !in objects
      modifies this`objects, objects[i]
      ensures Valid() && Abs() == Moved(old(Abs()), i, j)
      ensures fresh(objects.Values - old(objects.Values))
    {
      hide Held;
      HeldAt(objects);
      ghost var held := Held(objects);
      var o := new OperationObject<R>.MoveOf(objects[i]);
      HeldIs(objects, held[i := false]);
      HeldWith(objects, j, o);
      assert held[i := false][j := held[i]] == held[j := held[i]][i := false];
      objects := objects[j := o];
    }

    method DropPointer(i: nat)
      requires Valid() && Counted(Abs()) && i in objects
      modifies objects[i], state
      ensures Valid() && Abs() == Dropped(old(Abs()), i)
      ensures objects[i].m == null
    {
      hide Held, Holders, Counted;
      HolderKeepsAlive(i);
      HeldAt(objects);
      ghost var held := Held(objects);
      objects[i].Reset();
      HeldIs(objects, held[i := false]);
    }

    method DestroyObject(i: nat)
      requires Valid() && Counted(Abs()) && i in objects
      modifies this`objects, objects[i], state
      ensures Valid() && Abs() == Destroyed(old(Abs()), i)
      ensures objects == old(objects) - {i}
    {
      hide Held, Holders, Counted;
      DropPointer(i);
      HeldWithout(objects, i);
      objects := objects - {i};
    }

    // While a pointer is not null, the state has not been freed.
    lemma HolderKeepsAlive(i: nat)
      requires Valid() && Counted(Abs()) && i in objects
      ensures i in Abs().objects && Abs().objects[i] == (objects[i].m != null)
      ensures objects[i].m != null ==> !state.freed && state.mRefs > 0
    {
      if objects[i].m != null {
        assert i in Holders(Abs().objects);
      }
    }

    // The end of a call: operator() resets the pointer when the coroutine has ended, and the
    // temporary of runChild() is destroyed.
    method ReturnFromCall(done: bool)
      requires Valid() && Invariant(Abs()) && frames != []
      modifies this, objects.Values, state
      ensures Valid() && Abs() == Step(old(Abs()), Return(done))
      ensures var f := old(frames)[0];
              && frames == old(frames)[1..]
              && objects == (if f.child then old(objects) - {f.id} else old(objects))
              && (forall i :: i in objects ==>
                    objects[i].m == if done && i == f.id then null else old(objects[i].m))
              && (!done && !f.child ==> state.mRefs == old(state.mRefs) && state.events == old(state.events))
    {
      hide Held, Holders, Nested, Counted, Invariant;
      HeldAt(objects);
      FirstFrame(Abs());
      var f := frames[0];
      frames := frames[1..];
      ghost var w1 := Abs();
      assert w1 == old(Abs()).(frames := frames);
      DroppedKeeps(w1, f.id);
      if done {
        DropPointer(f.id);
      }
      if f.child {
        DestroyObject(f.id);
      }
    }

    method Do(a: Action<R>)
      requires Valid() && Invariant(Abs()) && Enabled(Abs(), a)
      modifies this, objects.Values, state
      ensures Valid() && Abs() == Step(old(Abs()), a)
      ensures fresh(objects.Values - old(objects.Values))
    {
      hide Held, Holders, Counted, Nested;
      HeldAt(objects);
      match a {
        case Copy(i, j) => CopyObject(i, j);
        case Move(i, j) => MoveObject(i, j);
        case Destroy(i) => DestroyObject(i);
        case Complete(i, r) =>
          HolderKeepsAlive(i);
          objects[i].CompleteWith(r);
        case Invoke(i) => frames := [Frame(i, false)] + frames;
        case RunChild(i, t) =>
          CopyObject(i, t);
          frames := [Frame(t, true)] + frames;
        case Return(done) => ReturnFromCall(done);
      }
    }
  }
}
