// doctest's subcase scheduler: a test body is re-run, entering one path of subcases at a time,
// until no subcase had to be skipped.
module Subcases {

  datatype Signature = Signature(name: string, file: string, line: int)

  // A test body, seen as the tree of the subcases it contains.
  datatype Subcase = Subcase(signature: Signature, body: seq<Subcase>)

  type Path = seq<Signature>

  // ----- specification of one run of a body -----

  // The part of doctest's ContextState that concerns subcases, and the subcases entered so far.
  datatype State = State(passed: set<Signature>, enteredLevels: set<int>, level: int, hasSkipped: bool,
                         stack: seq<Signature>, entered: Path)

  // Subcase::Subcase, with the truth value of the new object.
  function Construct(s: State, signature: Signature): (State, bool) {
    if signature in s.passed then (s, false)
    else if s.level in s.enteredLevels then (s.(hasSkipped := true), false)
    else
      (s.(stack := s.stack + [signature],
          enteredLevels := s.enteredLevels + {s.level},
          level := s.level + 1,
          entered := s.entered + [signature]),
       true)
  }

  // Subcase::~Subcase of an entered subcase.
  function Destroy(s: State, signature: Signature): State {
    s.(level := s.level - 1,
       passed := if s.hasSkipped then s.passed else s.passed + {signature},
       stack := if s.stack == [] then s.stack else s.stack[..|s.stack| - 1])
  }

  // The body meets its subcases in order; the body of an entered one is run before its destructor.
  function RunBody(s: State, body: seq<Subcase>): State
    decreases body
  {
    if body == [] then s
    else
      var (s1, entered) := Construct(s, body[0].signature);
      RunBody(if entered then Destroy(RunBody(s1, body[0].body), body[0].signature) else s1, body[1..])
  }

  // What the scheduler resets before each run.
  function Reset(passed: set<Signature>, stack: seq<Signature>): State {
    State(passed, {}, 0, false, stack, [])
  }

  // ----- the leaves of a body -----

  function Prefixed(signature: Signature, paths: seq<Path>): (r: seq<Path>)
    ensures |r| == |paths| && forall i :: 0 <= i < |r| ==> r[i] == [signature] + paths[i]
  {
    seq(|paths|, i requires 0 <= i < |paths| => [signature] + paths[i])
  }

  // The paths from the root to the leaves, left to right.
  function LeafPaths(body: seq<Subcase>): seq<Path> {
    if body == [] then [] else LeafPathsOf(body[0]) + LeafPaths(body[1..])
  }

  function LeafPathsOf(t: Subcase): (r: seq<Path>)
    ensures r != []
  {
    if t.body == [] then [[t.signature]]
    else
      assert LeafPaths(t.body) == LeafPathsOf(t.body[0]) + LeafPaths(t.body[1..]);
      Prefixed(t.signature, LeafPaths(t.body))
  }

  function Signatures(body: seq<Subcase>): set<Signature> {
    if body == [] then {} else SignaturesOf(body[0]) + Signatures(body[1..])
  }

  function SignaturesOf(t: Subcase): set<Signature> {
    {t.signature} + Signatures(t.body)
  }

  // The signatures of all subcases off the chain of last subcases: the last one of the body, the
  // last one in that one's body, and so on.
  function OffChain(body: seq<Subcase>): set<Signature> {
    if body == [] then {}
    else if |body| == 1 then OffChain(body[0].body)
    else SignaturesOf(body[0]) + OffChain(body[1..])
  }

  // Different subcases of one body share no signature, and the signature of a subcase recurs inside
  // its own body only on the chain of last subcases.
  predicate Distinct(body: seq<Subcase>) {
    body != [] ==>
      && body[0].signature !in OffChain(body[0].body)
      && SignaturesOf(body[0]) !! Signatures(body[1..])
      && Distinct(body[0].body) && Distinct(body[1..])
  }

  // The subcases all of whose leaves are among the first i leaves.
  function PassedAfter(body: seq<Subcase>, i: nat): set<Signature>
    requires i <= |LeafPaths(body)|
  {
    if body == [] then {}
    else
      var n := |LeafPathsOf(body[0])|;
      if i < n then PassedWithin(body[0], i)
      else SignaturesOf(body[0]) + PassedAfter(body[1..], i - n)
  }

  function PassedWithin(t: Subcase, i: nat): set<Signature>
    requires i <= |LeafPathsOf(t)|
  {
    if i == |LeafPathsOf(t)| then SignaturesOf(t)
    else if t.body == [] then {}
    else PassedAfter(t.body, i)
  }

  lemma {:induction false} PassedAfterBounds(body: seq<Subcase>, i: nat)
    requires i <= |LeafPaths(body)|
    ensures PassedAfter(body, i) <= Signatures(body)
    ensures i == 0 ==> PassedAfter(body, i) == {}
    ensures i == |LeafPaths(body)| ==> PassedAfter(body, i) == Signatures(body)
  {
    if body == [] {
    } else {
      var n := |LeafPathsOf(body[0])|;
      if i >= n {
        PassedAfterBounds(body[1..], i - n);
      } else if body[0].body != [] {
        PassedAfterBounds(body[0].body, i);
      }
    }
  }

  lemma {:induction false} PassedAfterGrows(body: seq<Subcase>, i: nat)
    requires i < |LeafPaths(body)|
    ensures PassedAfter(body, i) <= PassedAfter(body, i + 1)
  {
    var n := |LeafPathsOf(body[0])|;
    if i >= n {
      PassedAfterGrows(body[1..], i - n);
    } else if body[0].body != [] {
      PassedAfterBounds(body[0].body, i);
      if i + 1 < n { PassedAfterGrows(body[0].body, i); }
    }
  }

  // Before the last leaf only subcases off the chain can have passed, and before the last leaf of
  // all, all of those have.
  lemma {:induction false} PassedOffChain(body: seq<Subcase>, i: nat)
    requires i < |LeafPaths(body)|
    ensures PassedAfter(body, i) <= OffChain(body)
    ensures i + 1 == |LeafPaths(body)| ==> PassedAfter(body, i) == OffChain(body)
  {
    var t, rest := body[0], body[1..];
    var n := |LeafPathsOf(t)|;
    LeavesOf(rest);
    if i >= n {
      PassedOffChain(rest, i - n);
    } else if t.body != [] {
      PassedOffChain(t.body, i);
      PassedAfterBounds(t.body, i);
    }
  }

  // ----- one run -----

  // Behind an entered subcase of the same level nothing is entered, and whatever has not passed
  // yet is skipped.
  lemma {:induction false} RunSkips(s: State, body: seq<Subcase>)
    requires s.level in s.enteredLevels
    ensures RunBody(s, body) == s.(hasSkipped := s.hasSkipped || exists t <- body :: t.signature !in s.passed)
    decreases |body|
  {
    if body == [] {
    } else {
      assert body == [body[0]] + body[1..];
      RunSkips(Construct(s, body[0].signature).0, body[1..]);
    }
  }

  // No level from the current one on has been entered, and nothing has been skipped.
  ghost predicate Fresh(s: State) {
    !s.hasSkipped && forall l :: l in s.enteredLevels ==> l < s.level
  }

  // The state after a run that enters the i-th leaf of the body.
  ghost predicate RanLeaf(s: State, s': State, body: seq<Subcase>, i: nat)
    requires i < |LeafPaths(body)|
  {
    && s'.passed == s.passed + PassedAfter(body, i + 1)
    && s'.level == s.level && s.level in s'.enteredLevels && s.enteredLevels <= s'.enteredLevels
    && s'.hasSkipped == (i + 1 < |LeafPaths(body)|)
    && s'.stack == s.stack
    && s'.entered == s.entered + LeafPaths(body)[i]
  }

  // The same for the first subcase of a body, from its constructor to its destructor.
  lemma {:induction false} EnterSubcase(s: State, t: Subcase, i: nat)
    requires t.signature !in OffChain(t.body) && Distinct(t.body) && i < |LeafPathsOf(t)|
    requires s.passed * SignaturesOf(t) == PassedWithin(t, i) && Fresh(s)
    ensures Construct(s, t.signature).1
    ensures var s2 := Destroy(RunBody(Construct(s, t.signature).0, t.body), t.signature);
            && s2.passed == s.passed + PassedWithin(t, i + 1)
            && s2.level == s.level && s.level in s2.enteredLevels && s.enteredLevels <= s2.enteredLevels
            && s2.hasSkipped == (i + 1 < |LeafPathsOf(t)|)
            && s2.stack == s.stack
            && s2.entered == s.entered + LeafPathsOf(t)[i]
    decreases t, 0
  {
    hide Distinct, OffChain;
    NotPassedYet(s, t, i);
    var s1 := Construct(s, t.signature).0;
    if t.body == [] {
      assert RunBody(s1, t.body) == s1;
    } else {
      hide LeafPaths, Signatures, PassedAfter, RunBody;
      RunLeaf(s1, t.body, i);
      PassedAfterBounds(t.body, i + 1);
    }
  }

  lemma NotPassedYet(s: State, t: Subcase, i: nat)
    requires t.signature !in OffChain(t.body) && i < |LeafPathsOf(t)|
    requires s.passed * SignaturesOf(t) == PassedWithin(t, i)
    ensures t.signature !in s.passed
    ensures t.body != [] ==> s.passed * Signatures(t.body) == PassedAfter(t.body, i)
  {
    if t.body != [] {
      PassedAfterBounds(t.body, i);
      PassedOffChain(t.body, i);
    }
  }

  // A run of a body of which the first i leaves have passed enters exactly the path to the next
  // leaf, passes what that completes, and skips something unless that leaf is the last.
  lemma {:induction false} RunLeaf(s: State, body: seq<Subcase>, i: nat)
    requires Distinct(body) && i < |LeafPaths(body)|
    requires s.passed * Signatures(body) == PassedAfter(body, i) && Fresh(s)
    ensures RanLeaf(s, RunBody(s, body), body, i)
    decreases body, 1
  {
    var t, rest := body[0], body[1..];
    var n := |LeafPathsOf(t)|;
    if i < n {
      PassedWithinBounds(t, i);
      PassedWithinBounds(t, i + 1);
      assert s.passed * SignaturesOf(t) == PassedWithin(t, i);
      EnterSubcase(s, t, i);
      var s2 := Destroy(RunBody(Construct(s, t.signature).0, t.body), t.signature);
      PassedAfterBounds(rest, 0);
      assert s.passed * Signatures(rest) == {};
      assert rest != [] ==> rest[0].signature in Signatures(rest);
      RunSkips(s2, rest);
      LeavesOf(rest);
    } else {
      PassedAfterBounds(rest, i - n);
      assert SignaturesOf(t) <= s.passed by { assert SignaturesOf(t) <= PassedAfter(body, i); }
      assert s.passed * Signatures(rest) == PassedAfter(rest, i - n);
      RunLeaf(s, rest, i - n);
      PassedAfterBounds(rest, i - n + 1);
    }
  }

  lemma PassedWithinBounds(t: Subcase, i: nat)
    requires i <= |LeafPathsOf(t)|
    ensures PassedWithin(t, i) <= SignaturesOf(t)
  {
    if i < |LeafPathsOf(t)| && t.body != [] { PassedAfterBounds(t.body, i); }
  }

  lemma LeavesOf(body: seq<Subcase>)
    ensures body != [] ==> LeafPaths(body) != []
  {
  }

  // ----- any body -----

  // What every run keeps, with signatures distinct or not.
  ghost predicate Kept(s: State, s': State, body: seq<Subcase>) {
    && s'.level == s.level && s'.stack == s.stack && s.enteredLevels <= s'.enteredLevels
    && s.passed <= s'.passed <= s.passed + Signatures(body)
    && (s.hasSkipped ==> s'.hasSkipped)
    && s.entered <= s'.entered
    && forall k :: |s.entered| <= k < |s'.entered| ==> s'.entered[k] !in s.passed
  }

  // The run of the first subcase of a body.
  function RunFirst(s: State, t: Subcase): State {
    var (s1, entered) := Construct(s, t.signature);
    if entered then Destroy(RunBody(s1, t.body), t.signature) else s1
  }

  lemma RunStep(s: State, body: seq<Subcase>)
    requires body != []
    ensures RunBody(s, body) == RunBody(RunFirst(s, body[0]), body[1..])
  {
  }

  // Only subcases that have not passed are entered; levels and the stack are given back.
  lemma {:induction false} RunKeeps(s: State, body: seq<Subcase>)
    ensures Kept(s, RunBody(s, body), body)
    decreases body, 1
  {
    if body == [] {
    } else {
      hide RunBody;
      var s2 := RunFirst(s, body[0]);
      assert [body[0]][1..] == [];
      assert Signatures(body) == Signatures([body[0]]) + Signatures(body[1..]);
      RunStep(s, body);
      RunFirstKeeps(s, body[0]);
      RunKeeps(s2, body[1..]);
    }
  }

  lemma {:induction false} RunFirstKeeps(s: State, t: Subcase)
    ensures Kept(s, RunFirst(s, t), [t])
    decreases t, 0
  {
    var (s1, entered) := Construct(s, t.signature);
    assert Signatures([t]) == SignaturesOf(t) by { assert [t][1..] == []; }
    if entered {
      RunKeeps(s1, t.body);
      assert s1.stack[..|s1.stack| - 1] == s.stack;
    }
  }

  // While the body of a subcase is run, and whatever it enters, the stack is that of the surrounding
  // subcases with this one on top; afterwards it is as before.
  lemma StackIsOpenSubcases(s: State, t: Subcase)
    requires t.signature !in s.passed && s.level !in s.enteredLevels
    ensures var (s1, entered) := Construct(s, t.signature);
            && entered && s1.stack == RunBody(s1, t.body).stack == s.stack + [t.signature]
            && s1.level == RunBody(s1, t.body).level == s.level + 1
            && RunFirst(s, t).stack == s.stack && RunFirst(s, t).level == s.level
            && (t.signature in RunFirst(s, t).passed || RunFirst(s, t).hasSkipped)
  {
    RunKeeps(Construct(s, t.signature).0, t.body);
    RunFirstKeeps(s, t);
  }

  // A run that skips something has passed something new: the first subcase that it left.
  lemma {:induction false} RunProgress(s: State, body: seq<Subcase>)
    requires Fresh(s)
    ensures RunBody(s, body).hasSkipped ==> s.passed < RunBody(s, body).passed
    decreases body
  {
    if body == [] {
    } else {
      hide RunBody, Signatures;
      var t, s2 := body[0], RunFirst(s, body[0]);
      RunStep(s, body);
      if t.signature in s.passed {
        RunProgress(s, body[1..]);
      } else {
        var s1 := Construct(s, t.signature).0;
        RunProgress(s1, t.body);
        RunKeeps(s1, t.body);
        RunKeeps(s2, body[1..]);
        if !RunBody(s1, t.body).hasSkipped { assert t.signature in s2.passed; }
      }
    }
  }

  // The runs of the do-while loop of one test, each with the subcases that it entered, and the
  // subcases that have passed at the end.
  function Runs(body: seq<Subcase>, passed: set<Signature>, stack: seq<Signature>): (r: (seq<Path>, set<Signature>))
    ensures r.0 != []
    decreases Signatures(body) - passed
  {
    var s := RunBody(Reset(passed, stack), body);
    RunKeeps(Reset(passed, stack), body);
    RunProgress(Reset(passed, stack), body);
    if s.hasSkipped then
      var more := Runs(body, s.passed, stack);
      ([s.entered] + more.0, more.1)
    else ([s.entered], s.passed)
  }

  // What the runs of a test should be: one for every leaf, left to right, and one for a body
  // without subcases.
  function OneRunPerLeaf(body: seq<Subcase>): seq<Path> {
    if body == [] then [[]] else LeafPaths(body)
  }

  lemma {:induction false} RunsEnumerate(body: seq<Subcase>, i: nat, stack: seq<Signature>)
    requires Distinct(body) && i < |LeafPaths(body)|
    ensures Runs(body, PassedAfter(body, i), stack) == (LeafPaths(body)[i..], Signatures(body))
    decreases |LeafPaths(body)| - i
  {
    var passed := PassedAfter(body, i);
    PassedAfterBounds(body, i);
    RunLeaf(Reset(passed, stack), body, i);
    PassedAfterGrows(body, i);
    PassedAfterBounds(body, i + 1);
    var s := RunBody(Reset(passed, stack), body);
    assert s.entered == LeafPaths(body)[i] && s.passed == PassedAfter(body, i + 1);
    assert LeafPaths(body)[i..] == [LeafPaths(body)[i]] + LeafPaths(body)[i + 1..];
    if i + 1 < |LeafPaths(body)| {
      RunsEnumerate(body, i + 1, stack);
    } else {
      assert LeafPaths(body)[i..] == [s.entered];
    }
  }

  // The converse. A run that enters the path to the i-th leaf, after everything that the leaves
  // before it complete has passed, passes everything that this leaf completes.
  lemma {:induction false} RunCompletes(s: State, body: seq<Subcase>, i: nat)
    requires i < |LeafPaths(body)| && Fresh(s) && PassedAfter(body, i) <= s.passed
    requires RunBody(s, body).entered == s.entered + LeafPaths(body)[i]
    ensures PassedAfter(body, i + 1) <= RunBody(s, body).passed
    ensures i + 1 == |LeafPaths(body)| ==> !RunBody(s, body).hasSkipped
    decreases body, 1
  {
    var t, rest := body[0], body[1..];
    var n := |LeafPathsOf(t)|;
    var s2 := RunFirst(s, t);
    RunStep(s, body);
    RunKeeps(s, body);
    LeavesOf(rest);
    if i < n {
      assert RunBody(s, body).entered[|s.entered|] == t.signature;
      FirstCompletes(s, t, rest, i);
      RunFirstKeeps(s, t);
      RunSkips(s2, rest);
      PassedAfterBounds(rest, 0);
    } else {
      assert t.signature in s.passed by { assert t.signature in PassedAfter(body, i); }
      RunCompletes(s, rest, i - n);
    }
  }

  lemma {:induction false} FirstCompletes(s: State, t: Subcase, rest: seq<Subcase>, i: nat)
    requires i < |LeafPathsOf(t)| && Fresh(s) && PassedWithin(t, i) <= s.passed && t.signature !in s.passed
    requires RunBody(RunFirst(s, t), rest).entered == s.entered + LeafPathsOf(t)[i]
    ensures PassedWithin(t, i + 1) <= RunFirst(s, t).passed
    ensures RunFirst(s, t).level in RunFirst(s, t).enteredLevels
    ensures i + 1 == |LeafPathsOf(t)| ==> !RunFirst(s, t).hasSkipped
    decreases t, 0
  {
    var s1, s2 := Construct(s, t.signature).0, RunFirst(s, t);
    RunKeeps(s1, t.body);
    RunSkips(s2, rest);
    if t.body == [] {
      assert RunBody(s1, t.body) == s1;
    } else {
      assert s.entered + ([t.signature] + LeafPaths(t.body)[i]) == s1.entered + LeafPaths(t.body)[i];
      RunCompletes(s1, t.body, i);
      PassedAfterBounds(t.body, i + 1);
    }
  }

  // No signature on the path to a leaf has been passed by the leaves before it.
  ghost predicate Separated(body: seq<Subcase>, from: nat) {
    forall i :: from <= i < |LeafPaths(body)| ==> forall x <- LeafPaths(body)[i] :: x !in PassedAfter(body, i)
  }

  // Runs that enumerate the leaves enter only what has not passed, at every leaf.
  lemma {:induction false} RunsSeparate(body: seq<Subcase>, passed: set<Signature>, stack: seq<Signature>, i: nat)
    requires i < |LeafPaths(body)| && PassedAfter(body, i) <= passed
    requires Runs(body, passed, stack).0 == LeafPaths(body)[i..]
    ensures Separated(body, i)
    decreases |LeafPaths(body)| - i
  {
    var s0 := Reset(passed, stack);
    var s := RunBody(s0, body);
    var path := LeafPaths(body)[i];
    assert s.entered == Runs(body, passed, stack).0[0] == path;
    assert s0.entered + path == path;
    RunKeeps(s0, body);
    RunCompletes(s0, body, i);
    forall x <- path ensures x !in PassedAfter(body, i) {
      var k :| 0 <= k < |path| && path[k] == x;
    }
    if i + 1 < |LeafPaths(body)| {
      assert s.hasSkipped;
      assert Runs(body, s.passed, stack).0 == Runs(body, passed, stack).0[1..] == LeafPaths(body)[i + 1..];
      RunsSeparate(body, s.passed, stack, i + 1);
    }
  }

  // Every subcase of a body is on the path to some leaf.
  lemma {:induction false} OnSomePath(body: seq<Subcase>, x: Signature) returns (i: nat)
    requires x in Signatures(body)
    ensures i < |LeafPaths(body)| && x in LeafPaths(body)[i]
    decreases body
  {
    var t, n := body[0], |LeafPathsOf(body[0])|;
    if x !in SignaturesOf(t) {
      i := OnSomePath(body[1..], x);
      i := n + i;
    } else if x == t.signature {
      i := 0;
      assert LeafPathsOf(t)[0][0] == x;
    } else {
      i := OnSomePath(t.body, x);
    }
  }

  lemma {:induction false} SeparatedIsDistinct(body: seq<Subcase>)
    requires Separated(body, 0)
    ensures Distinct(body)
    decreases body
  {
    if body == [] {
    } else {
      var t, rest := body[0], body[1..];
      assert body == [t] + rest;
      SeparatedFirst(t, rest);
      SeparatedRest(t, rest);
      SeparatedIsDistinct(t.body);
      SeparatedIsDistinct(rest);
    }
  }

  lemma SeparatedRest(t: Subcase, rest: seq<Subcase>)
    requires Separated([t] + rest, 0)
    ensures SignaturesOf(t) !! Signatures(rest) && Separated(rest, 0)
  {
    var body, n := [t] + rest, |LeafPathsOf(t)|;
    assert body[1..] == rest;
    forall i | 0 <= i < |LeafPaths(rest)|
      ensures forall x <- LeafPaths(rest)[i] :: x !in PassedAfter(rest, i) && x !in SignaturesOf(t)
    {
      assert LeafPaths(body)[n + i] == LeafPaths(rest)[i];
      assert PassedAfter(body, n + i) == SignaturesOf(t) + PassedAfter(rest, i);
    }
    forall x | x in Signatures(rest) ensures x !in SignaturesOf(t) {
      var i := OnSomePath(rest, x);
      assert x in LeafPaths(rest)[i];
    }
  }

  lemma SeparatedFirst(t: Subcase, rest: seq<Subcase>)
    requires Separated([t] + rest, 0)
    ensures t.signature !in OffChain(t.body) && Separated(t.body, 0)
  {
    var body, n := [t] + rest, |LeafPathsOf(t)|;
    if t.body == [] {
    } else {
      forall i | 0 <= i < n
        ensures t.signature !in PassedAfter(t.body, i)
        ensures forall x <- LeafPaths(t.body)[i] :: x !in PassedAfter(t.body, i)
      {
        assert LeafPaths(body)[i] == [t.signature] + LeafPaths(t.body)[i];
        assert PassedAfter(body, i) == PassedAfter(t.body, i);
        assert t.signature in LeafPaths(body)[i];
        forall x <- LeafPaths(t.body)[i] ensures x !in PassedAfter(t.body, i) {
          assert x in LeafPaths(body)[i];
        }
      }
      PassedOffChain(t.body, n - 1);
    }
  }

  // The runs of a test enter the paths to the leaves, one leaf a run, left to right, if and only if
  // the signatures are distinct in this sense.
  lemma EnumeratesExactly(body: seq<Subcase>, stack: seq<Signature>)
    ensures Runs(body, {}, stack).0 == OneRunPerLeaf(body) <==> Distinct(body)
  {
    PassedAfterBounds(body, 0);
    LeavesOf(body);
    if body == [] {
    } else {
      if Distinct(body) {
        RunsEnumerate(body, 0, stack);
      }
      if Runs(body, {}, stack).0 == LeafPaths(body) {
        assert LeafPaths(body)[0..] == LeafPaths(body);
        RunsSeparate(body, {}, stack, 0);
        SeparatedIsDistinct(body);
      }
    }
  }

  // Where it fails: a sibling with the signature of a leaf before it counts as passed as soon as
  // that leaf has, so the only run ends without skipping and its leaves are never entered.
  lemma EqualSiblingsHide(t: Subcase, u: Subcase, stack: seq<Signature>)
    requires t.body == [] && u.signature == t.signature
    ensures !Distinct([t, u]) && |LeafPaths([t, u])| >= 2
    ensures Runs([t, u], {}, stack).0 == [[t.signature]]
  {
    var body := [t, u];
    assert body[1..] == [u] && [u][1..] == [];
    assert LeafPaths(body) == LeafPathsOf(t) + LeafPaths([u]);
    assert LeafPaths([u]) == LeafPathsOf(u) + LeafPaths([u][1..]);
    assert Signatures([u]) == SignaturesOf(u) + Signatures([u][1..]);
    var s1 := Construct(Reset({}, stack), t.signature).0;
    assert RunBody(s1, t.body) == s1;
    var s2 := Destroy(s1, t.signature);
    assert RunBody(s2, [u]) == RunBody(s2, [u][1..]) == s2;
    RunStep(Reset({}, stack), body);
    assert s2.entered == [t.signature];
  }

  // Where it holds although a signature recurs: on the chain of last subcases.
  lemma ChainMayRecur(t: Subcase, u: Subcase, stack: seq<Signature>)
    requires t.body == [u] && u.body == [] && u.signature == t.signature
    ensures Distinct([t]) && Runs([t], {}, stack).0 == [[t.signature, t.signature]]
  {
    assert [t][1..] == [] && [u][1..] == [];
    assert Distinct(t.body) && OffChain(t.body) == {};
    EnumeratesExactly([t], stack);
    assert LeafPaths([t]) == LeafPathsOf(t) + LeafPaths([t][1..]);
    assert LeafPaths(t.body) == LeafPathsOf(u) + LeafPaths([u][1..]) == [[u.signature]];
    assert LeafPathsOf(t) == [[t.signature] + [u.signature]] == LeafPaths([t]);
    assert [t.signature] + [u.signature] == [t.signature, t.signature];
  }

  // ----- the code -----

  class ContextState {
    var subcasesPassed: set<Signature>
    var subcasesEnteredLevels: set<int>
    var subcasesStack: seq<Signature>
    var subcasesCurrentLevel: int
    var subcasesHasSkipped: bool
    // Not a field of the original: the subcases that the current run has entered.
    var entered: Path

    constructor ()
      ensures subcasesStack == []
    {
      subcasesPassed, subcasesEnteredLevels, subcasesStack := {}, {}, [];
      subcasesCurrentLevel, subcasesHasSkipped := 0, false;
      entered := [];
    }

    ghost function Abs(): State
      reads this
    {
      State(subcasesPassed, subcasesEnteredLevels, subcasesCurrentLevel, subcasesHasSkipped, subcasesStack, entered)
    }

    method ConstructSubcase(signature: Signature) returns (isEntered: bool)
      modifies this
      ensures (Abs(), isEntered) == Construct(old(Abs()), signature)
    {
      if signature in subcasesPassed {
        return false;
      }
      if subcasesCurrentLevel in subcasesEnteredLevels {
        subcasesHasSkipped := true;
        return false;
      }
      subcasesStack := subcasesStack + [signature];
      subcasesEnteredLevels := subcasesEnteredLevels + {subcasesCurrentLevel};
      subcasesCurrentLevel := subcasesCurrentLevel + 1;
      entered := entered + [signature];
      return true;
    }

    method DestroySubcase(signature: Signature, isEntered: bool)
      modifies this
      ensures Abs() == if isEntered then Destroy(old(Abs()), signature) else old(Abs())
    {
      if isEntered {
        subcasesCurrentLevel := subcasesCurrentLevel - 1;
        if !subcasesHasSkipped {
          subcasesPassed := subcasesPassed + {signature};
        }
        if |subcasesStack| > 0 {
          subcasesStack := subcasesStack[..|subcasesStack| - 1];
        }
      }
    }

    // The test function, whose SUBCASE blocks are the given body.
    method CallTestFunc(body: seq<Subcase>)
      modifies this
      ensures Abs() == RunBody(old(Abs()), body)
      decreases body
    {
      if body != [] {
        var isEntered := ConstructSubcase(body[0].signature);
        if isEntered {
          CallTestFunc(body[0].body);
        }
        DestroySubcase(body[0].signature, isEntered);
        CallTestFunc(body[1..]);
      }
    }

    // The do-while loop of Context::run for one test, with the path that each run entered. For any
    // tree of subcases it terminates; it enumerates the leaves exactly if the signatures are
    // distinct, and then all subcases have passed.
    method RunTest(body: seq<Subcase>) returns (runs: seq<Path>)
      modifies this
      ensures (runs, subcasesPassed) == Runs(body, {}, old(subcasesStack))
      ensures runs == OneRunPerLeaf(body) <==> Distinct(body)
      ensures Distinct(body) ==> subcasesPassed == Signatures(body)
      ensures subcasesStack == old(subcasesStack)
    {
      subcasesPassed := {};
      runs := [];
      ghost var stack := subcasesStack;
      ghost var all := Runs(body, {}, stack);
      var again := true;
      assert runs + all.0 == all.0;
      while again
        invariant subcasesStack == stack
        invariant again ==> var left := Runs(body, subcasesPassed, stack); all == (runs + left.0, left.1)
        invariant !again ==> all == (runs, subcasesPassed)
        decreases again, Signatures(body) - subcasesPassed
      {
        subcasesHasSkipped := false;
        subcasesCurrentLevel := 0;
        subcasesEnteredLevels := {};
        entered := [];
        RunKeeps(Abs(), body);
        RunProgress(Abs(), body);
        CallTestFunc(body);
        if subcasesHasSkipped {
          ghost var more := Runs(body, subcasesPassed, stack).0;
          assert runs + ([entered] + more) == (runs + [entered]) + more;
        }
        runs := runs + [entered];
        again := subcasesHasSkipped;
      }
      EnumeratesExactly(body, stack);
      if Distinct(body) && body != [] {
        PassedAfterBounds(body, 0);
        LeavesOf(body);
        RunsEnumerate(body, 0, stack);
      }
    }
  }
}
