// doctest's wildcmp: a wildcard matcher that restarts only from the most recent star.
module Wildcard {
  import opened Alphabet

  // C strings: the terminating NUL is not part of the sequence.
  type CString = s: string | '\0' !in s

  // *(s + i), where the terminator is read at the end.
  function At(s: CString, i: nat): char
    requires i <= |s|
  {
    if i < |s| then s[i] else '\0'
  }

  function ToLower(c: char): char {
    if 'A' <= c <= 'Z' then (c as int + 32) as char else c
  }

  // The test of two characters, in either case mode.
  predicate Agree(c: char, d: char, caseSensitive: bool) {
    if caseSensitive then c == d else ToLower(c) == ToLower(d)
  }

  // ----- what a match is -----

  // The two forms of one letter.
  predicate AreForms(c: char, d: char) {
    exists i :: 0 <= i < 26 && ((c == UPPER[i] && d == LOWER[i]) || (c == LOWER[i] && d == UPPER[i]))
  }

  predicate Same(c: char, d: char, caseSensitive: bool) {
    c == d || (!caseSensitive && AreForms(c, d))
  }

  // A piece of the string that one character of the pattern stands for.
  predicate Fits(piece: string, w: char, cs: bool) {
    w == '*' || (|piece| == 1 && (w == '?' || Same(w, piece[0], cs)))
  }

  function Concat(pieces: seq<string>): string {
    if pieces == [] then [] else pieces[0] + Concat(pieces[1..])
  }

  // The string falls into consecutive pieces, one for every character of the pattern.
  ghost predicate Matches(s: string, w: string, cs: bool) {
    exists pieces :: MatchesAs(s, w, cs, pieces)
  }

  ghost predicate MatchesAs(s: string, w: string, cs: bool, pieces: seq<string>) {
    && |pieces| == |w|
    && s == Concat(pieces)
    && forall i :: 0 <= i < |w| ==> Fits(pieces[i], w[i], cs)
  }

  // The same by recursion over both strings.
  predicate Glob(s: string, w: string, cs: bool)
    decreases |s| + |w|
  {
    if w == [] then s == []
    else if w[0] == '*' then Glob(s, w[1..], cs) || (s != [] && Glob(s[1..], w, cs))
    else s != [] && (w[0] == '?' || Same(w[0], s[0], cs)) && Glob(s[1..], w[1..], cs)
  }

  lemma {:induction false} GlobMatches(s: string, w: string, cs: bool) returns (pieces: seq<string>)
    requires Glob(s, w, cs)
    ensures MatchesAs(s, w, cs, pieces)
    decreases |s| + |w|
  {
    if w == [] {
      pieces := [];
    } else if w[0] == '*' && Glob(s, w[1..], cs) {
      var rest := GlobMatches(s, w[1..], cs);
      pieces := [[]] + rest;
    } else if w[0] == '*' {
      var rest := GlobMatches(s[1..], w, cs);
      pieces := [[s[0]] + rest[0]] + rest[1..];
      assert s == [s[0]] + s[1..];
    } else {
      var rest := GlobMatches(s[1..], w[1..], cs);
      pieces := [[s[0]]] + rest;
      assert s == [s[0]] + s[1..];
    }
  }

  lemma {:induction false} MatchesGlob(s: string, w: string, cs: bool, pieces: seq<string>)
    requires MatchesAs(s, w, cs, pieces)
    ensures Glob(s, w, cs)
    decreases |s| + |w|
  {
    if w == [] {
    } else if pieces[0] == [] {
      MatchesGlob(s, w[1..], cs, pieces[1..]);
    } else if w[0] == '*' {
      var rest := [pieces[0][1..]] + pieces[1..];
      assert s[1..] == pieces[0][1..] + Concat(pieces[1..]);
      MatchesGlob(s[1..], w, cs, rest);
    } else {
      MatchesGlob(s[1..], w[1..], cs, pieces[1..]);
    }
  }

  lemma GlobIsMatches(s: string, w: string, cs: bool)
    ensures Glob(s, w, cs) <==> Matches(s, w, cs)
  {
    if Glob(s, w, cs) {
      var pieces := GlobMatches(s, w, cs);
    }
    if pieces :| MatchesAs(s, w, cs, pieces) {
      MatchesGlob(s, w, cs, pieces);
    }
  }

  // ----- what the test of two characters comes to -----

  // Every capital is lowered to its own small letter, and nothing else is changed.
  lemma ToLowerMeaning(c: char)
    ensures forall i :: 0 <= i < 26 && c == UPPER[i] ==> ToLower(c) == LOWER[i]
    ensures c !in UPPER ==> ToLower(c) == c
  {
    UpperCodes();
    LowerCodes();
  }

  // Without case, characters agree if they are equal or the two forms of one letter.
  lemma AgreeIsSame(c: char, d: char, cs: bool)
    ensures Agree(c, d, cs) <==> Same(c, d, cs)
    ensures c == '\0' ==> (Agree(c, d, cs) <==> d == '\0')
  {
    hide UPPER, LOWER;
    UpperCodes();
    LowerCodes();
    if !cs && Agree(c, d, cs) && c != d {
      var i := (if c < d then c else d) as int - 'A' as int;
      assert {c, d} == {UPPER[i], LOWER[i]};
    }
  }

  // ----- why restarting from the last star is enough -----

  // The positions of the string from which the pattern behind the star could still match.
  ghost predicate LaterMatch(s: string, cp: nat, w: string, cs: bool) {
    exists k :: cp <= k <= |s| && Glob(s[k..], w, cs)
  }

  // A star in front of w absorbs any number of characters.
  lemma {:induction false} StarAbsorbs(s: string, i: nat, w: string, cs: bool)
    requires i <= |s| && w != [] && w[0] == '*'
    ensures Glob(s[i..], w, cs) <==> LaterMatch(s, i, w[1..], cs)
    decreases |s| - i
  {
    if i == |s| {
      assert s[i..] == [];
    } else {
      StarAbsorbs(s, i + 1, w, cs);
      assert s[i..][1..] == s[i + 1..];
      if LaterMatch(s, i, w[1..], cs) {
        var k :| i <= k <= |s| && Glob(s[k..], w[1..], cs);
        if k > i {
          assert LaterMatch(s, i + 1, w[1..], cs);
        }
      }
      if LaterMatch(s, i + 1, w[1..], cs) {
        var k :| i + 1 <= k <= |s| && Glob(s[k..], w[1..], cs);
        assert i <= k <= |s|;
      }
    }
  }

  // A pattern that begins with n characters other than stars uses up exactly n characters.
  lemma {:induction false} LiteralPrefix(s: string, w: string, n: nat, cs: bool)
    requires n <= |w| && '*' !in w[..n] && Glob(s, w, cs)
    ensures n <= |s| && Glob(s[n..], w[n..], cs)
    decreases n
  {
    if n == 0 {
    } else {
      assert w[0] == w[..n][0];
      assert w[1..][..n - 1] == w[..n][1..];
      LiteralPrefix(s[1..], w[1..], n - 1, cs);
      assert s[1..][n - 1..] == s[n..] && w[1..][n - 1..] == w[n..];
    }
  }

  lemma LiteralPart(s: string, k: nat, w: string, mp: nat, j: nat, cs: bool)
    requires k <= |s| && mp <= j <= |w| && '*' !in w[mp..j] && Glob(s[k..], w[mp..], cs)
    ensures k + (j - mp) <= |s| && Glob(s[k + (j - mp)..], w[j..], cs)
  {
    var n := j - mp;
    assert w[mp..][..n] == w[mp..j];
    LiteralPrefix(s[k..], w[mp..], n, cs);
    assert s[k..][n..] == s[k + n..] && w[mp..][n..] == w[j..];
  }

  // What matches behind a star at a later position matches with the star at an earlier one.
  lemma StarReachesBack(s: string, i: nat, m: nat, w: string, cs: bool)
    requires i <= m <= |s| && w != [] && w[0] == '*' && Glob(s[m..], w, cs)
    ensures Glob(s[i..], w, cs)
  {
    hide Glob;
    StarAbsorbs(s, m, w, cs);
    StarAbsorbs(s, i, w, cs);
    var k :| m <= k <= |s| && Glob(s[k..], w[1..], cs);
    assert i <= k <= |s|;
  }

  // Nothing is lost at a later star: if a later start of the current attempt succeeds, then what
  // is left of the pattern, star included, also matches at the current position.
  lemma LaterStartSubsumed(s: string, cp: nat, i: nat, w: string, mp: nat, j: nat, cs: bool)
    requires mp <= j < |w| && '*' !in w[mp..j] && w[j] == '*'
    requires i <= |s| && cp + (j - mp) == i + 1
    requires LaterMatch(s, cp, w[mp..], cs)
    ensures Glob(s[i..], w[j..], cs)
  {
    hide Glob;
    var k :| cp <= k <= |s| && Glob(s[k..], w[mp..], cs);
    LiteralPart(s, k, w, mp, j, cs);
    StarReachesBack(s, i, k + (j - mp), w[j..], cs);
  }

  // At the end of the string no later start can succeed either: too few characters are left.
  lemma NoLaterStart(s: string, cp: nat, w: string, mp: nat, j: nat, cs: bool)
    requires mp <= j <= |w| && '*' !in w[mp..j] && cp + (j - mp) == |s| + 1
    ensures !LaterMatch(s, cp, w[mp..], cs)
  {
    forall k | cp <= k <= |s| ensures !Glob(s[k..], w[mp..], cs) {
      if Glob(s[k..], w[mp..], cs) {
        LiteralPart(s, k, w, mp, j, cs);
      }
    }
  }

  // An empty string matches exactly the patterns of stars.
  predicate OnlyStars(w: string) {
    forall i :: 0 <= i < |w| ==> w[i] == '*'
  }

  lemma {:induction false} EmptyGlob(w: string, cs: bool)
    ensures Glob([], w, cs) <==> OnlyStars(w)
  {
    if w == [] {
    } else {
      EmptyGlob(w[1..], cs);
      OnlyStarsStep(w);
    }
  }

  lemma OnlyStarsStep(w: string)
    requires w != []
    ensures OnlyStars(w) <==> w[0] == '*' && OnlyStars(w[1..])
  {
    if w[0] == '*' && OnlyStars(w[1..]) {
      forall i | 1 <= i < |w| ensures w[i] == '*' { assert w[1..][i - 1] == '*'; }
    }
  }

  // What the rest of the pattern from w on, read at position s, has to do with the answer while
  // the attempt that began at cp - 1 behind the star at mp - 1 is under way.
  ghost predicate Attempt(str: string, wild: string, cs: bool, goal: bool, s: nat, w: nat, mp: nat, cp: nat) {
    && s <= |str| && mp <= w <= |wild|
    && 1 <= cp && cp + (w - mp) == s + 1
    && '*' !in wild[mp..w]
    && (goal <==> Glob(str[s..], wild[w..], cs) || LaterMatch(str, cp, wild[mp..], cs))
  }

  // Both characters agree: the match goes on behind them; at the end of the pattern it fails.
  lemma StepBoth(str: string, wild: string, cs: bool, s: nat, w: nat)
    requires s < |str| && w <= |wild| && (w < |wild| ==> wild[w] != '*')
    ensures Glob(str[s..], wild[w..], cs) <==>
            && w < |wild| && (wild[w] == '?' || Same(wild[w], str[s], cs))
            && Glob(str[s + 1..], wild[w + 1..], cs)
  {
    if w < |wild| {
      assert str[s..][1..] == str[s + 1..] && wild[w..][1..] == wild[w + 1..];
    }
  }

  // A star begins a new attempt at the current position, whatever came before.
  lemma StartAttempt(str: string, wild: string, cs: bool, goal: bool, s: nat, w: nat)
    requires s < |str| && w < |wild| && wild[w] == '*'
    requires goal == Glob(str[s..], wild[w..], cs)
    ensures w + 1 == |wild| ==> goal
    ensures Attempt(str, wild, cs, goal, s, w + 1, w + 1, s + 1)
  {
    StarAbsorbs(str, s, wild[w..], cs);
    assert wild[w..][1..] == wild[w + 1..];
    NextStart(str, s, wild[w + 1..], cs);
    if w + 1 == |wild| {
      assert wild[w + 1..] == [] && str[|str|..] == [];
      assert Glob(str[|str|..], wild[w + 1..], cs);
    }
  }

  // A star reached by an attempt decides for it.
  lemma AttemptAtStar(str: string, wild: string, cs: bool, goal: bool, s: nat, w: nat, mp: nat, cp: nat)
    requires Attempt(str, wild, cs, goal, s, w, mp, cp)
    requires w < |wild| && wild[w] == '*'
    ensures goal == Glob(str[s..], wild[w..], cs)
  {
    if LaterMatch(str, cp, wild[mp..], cs) {
      LaterStartSubsumed(str, cp, s, wild, mp, w, cs);
    }
  }

  // A failed attempt is followed by the one that begins a character later.
  lemma Restart(str: string, wild: string, cs: bool, goal: bool, s: nat, w: nat, mp: nat, cp: nat)
    requires Attempt(str, wild, cs, goal, s, w, mp, cp)
    requires s < |str| && !Glob(str[s..], wild[w..], cs)
    ensures Attempt(str, wild, cs, goal, cp, mp, mp, cp + 1)
  {
    NextStart(str, cp, wild[mp..], cs);
    assert wild[mp..mp] == [];
  }

  lemma AttemptStepBoth(str: string, wild: string, cs: bool, goal: bool, s: nat, w: nat, mp: nat, cp: nat)
    requires Attempt(str, wild, cs, goal, s, w, mp, cp)
    requires s < |str| && w < |wild| && wild[w] != '*' && (wild[w] == '?' || Same(wild[w], str[s], cs))
    ensures Attempt(str, wild, cs, goal, s + 1, w + 1, mp, cp)
  {
    StepBoth(str, wild, cs, s, w);
    assert wild[mp..w + 1] == wild[mp..w] + [wild[w]];
  }

  // At the end of the string only stars may be left.
  lemma AttemptAtEnd(str: string, wild: string, cs: bool, goal: bool, s: nat, w: nat, mp: nat, cp: nat)
    requires Attempt(str, wild, cs, goal, s, w, mp, cp) && s == |str|
    ensures goal == Glob(str[s..], wild[w..], cs)
  {
    NoLaterStart(str, cp, wild, mp, w, cs);
  }

  lemma NextStart(s: string, i: nat, w: string, cs: bool)
    requires i <= |s|
    ensures LaterMatch(s, i, w, cs) <==> Glob(s[i..], w, cs) || LaterMatch(s, i + 1, w, cs)
  {
    if LaterMatch(s, i, w, cs) && !Glob(s[i..], w, cs) {
      var k :| i <= k <= |s| && Glob(s[k..], w, cs);
      assert i + 1 <= k;
    }
  }

  method WildCmp(str: CString, wild: CString, caseSensitive: bool) returns (r: bool)
    ensures r <==> Matches(str, wild, caseSensitive)
  {
    hide Glob, LaterMatch, Same, Agree;
    ghost var cs := caseSensitive;
    ghost var goal := Glob(str, wild, cs);
    GlobIsMatches(str, wild, cs);
    var s, w: nat := 0, 0;
    assert str[0..] == str && wild[0..] == wild;
    while At(str, s) != '\0' && At(wild, w) != '*'
      invariant s <= |str| && w <= |wild|
      invariant goal == Glob(str[s..], wild[w..], cs)
      decreases |str| - s
    {
      StepBoth(str, wild, cs, s, w);
      AgreeIsSame(At(wild, w), At(str, s), cs);
      if !Agree(At(wild, w), At(str, s), caseSensitive) && At(wild, w) != '?' {
        return false;
      }
      w, s := w + 1, s + 1;
    }

    // mp and cp are null until the first star.
    var starred := false;
    var mp, cp: nat := 0, 0;
    while At(str, s) != '\0'
      invariant s <= |str| && w <= |wild|
      invariant !starred ==> s == |str| || At(wild, w) == '*'
      invariant !starred ==> goal == Glob(str[s..], wild[w..], cs)
      invariant starred ==> Attempt(str, wild, cs, goal, s, w, mp, cp)
      decreases if starred then |wild| - mp else |wild| + 1, |str| + 1 - cp, |str| - s
    {
      AgreeIsSame(At(wild, w), At(str, s), cs);
      if At(wild, w) == '*' {
        if starred { AttemptAtStar(str, wild, cs, goal, s, w, mp, cp); }
        StartAttempt(str, wild, cs, goal, s, w);
        w := w + 1;
        if At(wild, w) == '\0' {
          return true;
        }
        starred, mp, cp := true, w, s + 1;
      } else if Agree(At(wild, w), At(str, s), caseSensitive) || At(wild, w) == '?' {
        AttemptStepBoth(str, wild, cs, goal, s, w, mp, cp);
        w, s := w + 1, s + 1;
      } else {
        StepBoth(str, wild, cs, s, w);
        Restart(str, wild, cs, goal, s, w, mp, cp);
        w := mp;
        s, cp := cp, cp + 1;
      }
    }

    if starred { AttemptAtEnd(str, wild, cs, goal, s, w, mp, cp); }
    assert str[s..] == [];
    EmptyGlob(wild[w..], cs);
    while At(wild, w) == '*'
      invariant w <= |wild|
      invariant goal == OnlyStars(wild[w..])
      decreases |wild| - w
    {
      OnlyStarsStep(wild[w..]);
      assert wild[w..][1..] == wild[w + 1..];
      w := w + 1;
    }
    if w < |wild| { OnlyStarsStep(wild[w..]); }
    r := At(wild, w) == '\0';
  }

  method MatchesAny(name: CString, filters: seq<CString>, matchEmpty: bool, caseSensitive: bool) returns (r: bool)
    ensures r <==> (filters == [] && matchEmpty) || exists f <- filters :: Matches(name, f, caseSensitive)
  {
    if |filters| == 0 && matchEmpty {
      return true;
    }
    for i := 0 to |filters|
      invariant forall f <- filters[..i] :: !Matches(name, f, caseSensitive)
    {
      var hit := WildCmp(name, filters[i], caseSensitive);
      if hit {
        return true;
      }
      assert filters[..i + 1] == filters[..i] + [filters[i]];
    }
    assert filters[..|filters|] == filters;
    return false;
  }

  // ----- case folding -----

  function Lowered(s: string): (r: string)
    ensures |r| == |s| && forall i :: 0 <= i < |s| ==> r[i] == ToLower(s[i])
  {
    seq(|s|, i requires 0 <= i < |s| => ToLower(s[i]))
  }

  // Matching without case is matching the lowered string against the lowered pattern.
  lemma {:induction false} CaseFolding(s: string, w: string)
    ensures Glob(s, w, false) <==> Glob(Lowered(s), Lowered(w), true)
    decreases |s| + |w|
  {
    hide AreForms;
    if s != [] {
      assert Lowered(s)[1..] == Lowered(s[1..]);
    }
    if w == [] {
    } else {
      assert Lowered(w)[1..] == Lowered(w[1..]);
      LoweredIsMeta(w[0]);
      if w[0] == '*' {
        CaseFolding(s, w[1..]);
        if s != [] { CaseFolding(s[1..], w); }
      } else if s != [] {
        AgreeIsSame(w[0], s[0], false);
        CaseFolding(s[1..], w[1..]);
      }
    }
  }

  lemma LoweredIsMeta(c: char)
    ensures (ToLower(c) == '*' <==> c == '*') && (ToLower(c) == '?' <==> c == '?')
  {
  }

  lemma CaseFoldingMatches(s: string, w: string)
    ensures Matches(s, w, false) <==> Matches(Lowered(s), Lowered(w), true)
  {
    CaseFolding(s, w);
    GlobIsMatches(s, w, false);
    GlobIsMatches(Lowered(s), Lowered(w), true);
  }
}
