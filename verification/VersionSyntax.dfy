// The version syntax as a declarative grammar, and the proof that the greedy parser decides it.
module VersionSyntax {
  import opened Decimal
  import opened Basics
  import opened VersionData
  import opened VersionGrammar

  // ----- the grammar: which text stands for which value -----

  type Syntax<!A> = (string, A) -> bool

  predicate NumberText(t: string, n: nat) {
    t != [] && AllDigits(t) && ValueOf(t) == n && n <= MAX
  }

  predicate IdentifierText(t: string, x: string) {
    t == x && IsIdentifier(x)
  }

  // A pre-release element is a number, or an identifier that does not begin with a number: its
  // leading digit run is empty or too large.
  predicate PreReleaseText(t: string, x: Identifier) {
    match x
    case Number(n) => NumberText(t, n)
    case Text(id) => t == id && ReadsAsText(id)
  }

  predicate ReadsAsText(id: string) {
    IsIdentifier(id) && (DigitRun(id) == 0 || Overflows(id[..DigitRun(id)]))
  }

  ghost predicate ListAs<A>(item: Syntax<A>, t: string, xs: seq<A>, texts: seq<string>) {
    && |texts| == |xs| > 0
    && t == Join(texts)
    && forall i :: 0 <= i < |xs| ==> item(texts[i], xs[i])
  }

  ghost predicate TaggedAs<A>(lead: char, item: Syntax<A>, t: string, o: Option<seq<A>>, texts: seq<string>) {
    match o
    case None => t == ""
    case Some(xs) => t != [] && t[0] == lead && ListAs(item, t[1..], xs, texts)
  }

  // How a version string is cut up: an optional v, the numbers, the pre-release part and the
  // build part, each list with the texts of its elements.
  datatype Cut = Cut(v: string, numbers: string, preRelease: string, build: string,
                     numberTexts: seq<string>, preReleaseTexts: seq<string>, buildTexts: seq<string>)

  ghost predicate DerivesAs(s: string, d: Data, c: Cut) {
    && s == c.v + c.numbers + c.preRelease + c.build
    && (c.v == "" || c.v == "v")
    && ListAs(NumberText, c.numbers, d.numbers, c.numberTexts)
    && TaggedAs('-', PreReleaseText, c.preRelease, d.preRelease, c.preReleaseTexts)
    && TaggedAs('+', IdentifierText, c.build, d.buildMetadata, c.buildTexts)
  }

  ghost predicate Derives(s: string, d: Data) {
    exists c :: DerivesAs(s, d, c)
  }

  // ----- single items -----

  // Before a character that stops it, the item parser reads back exactly the text of an item.
  ghost predicate ExactAt<A>(p: Parser<A>, item: Syntax<A>, stops: char -> bool, t: string, a: A, rest: string) {
    item(t, a) && (rest == [] || stops(rest[0])) ==> p(t + rest) == Ok(a, rest)
  }

  ghost predicate Exact<A(!new)>(p: Parser<A>, item: Syntax<A>, stops: char -> bool) {
    && stops('.')
    && (forall t :: Consumes(p, t))
    && forall t, a, rest :: ExactAt(p, item, stops, t, a, rest)
  }

  // Whatever the item parser takes is the text of the item it yields.
  ghost predicate SoundAt<A>(p: Parser<A>, item: Syntax<A>, s: string) {
    Consumes(p, s) && (p(s).Ok? ==> item(Consumed(s, p(s).rest), p(s).value))
  }

  predicate StopsNumber(c: char) { !IsDigit(c) }
  predicate StopsIdentifier(c: char) { !IsIdentifierChar(c) }

  lemma {:induction false} DigitRunOf(t: string, rest: string)
    requires AllDigits(t) && (rest == [] || StopsNumber(rest[0]))
    ensures DigitRun(t + rest) == |t|
  {
    if t == [] {
      assert t + rest == rest;
    } else {
      assert (t + rest)[1..] == t[1..] + rest;
      DigitRunOf(t[1..], rest);
    }
  }

  lemma {:induction false} IdentifierRunOf(t: string, rest: string)
    requires forall i :: 0 <= i < |t| ==> IsIdentifierChar(t[i])
    requires rest == [] || StopsIdentifier(rest[0])
    ensures IdentifierRun(t + rest) == |t|
  {
    if t == [] {
      assert t + rest == rest;
    } else {
      assert (t + rest)[1..] == t[1..] + rest;
      IdentifierRunOf(t[1..], rest);
    }
  }

  // The leading digits of an identifier do not depend on what stands behind the identifier.
  lemma {:induction false} DigitRunWithin(t: string, rest: string)
    requires rest == [] || StopsIdentifier(rest[0])
    ensures DigitRun(t + rest) == DigitRun(t)
  {
    if t == [] {
      assert t + rest == rest;
    } else {
      assert (t + rest)[1..] == t[1..] + rest;
      DigitRunWithin(t[1..], rest);
    }
  }

  // uint_ in one line: it needs a digit, and takes the whole run unless the run overflows.
  lemma UintMeaning(s: string)
    ensures var run := s[..DigitRun(s)];
            ParseUint(s) == if run == [] || Overflows(run) then Fail else Ok(ValueOf(run), s[|run|..])
  {
    ExtractMeaning("", s);
    assert "" + s[..DigitRun(s)] == s[..DigitRun(s)];
  }

  lemma NumberExact()
    ensures Exact(ParseUint, NumberText, StopsNumber)
  {
    ItemsConsume();
    forall t, n, rest ensures ExactAt(ParseUint, NumberText, StopsNumber, t, n, rest) {
      if NumberText(t, n) && (rest == [] || StopsNumber(rest[0])) {
        DigitRunOf(t, rest);
        UintMeaning(t + rest);
        assert (t + rest)[..|t|] == t && (t + rest)[|t|..] == rest;
      }
    }
  }

  lemma NumberSound(s: string)
    ensures SoundAt(ParseUint, NumberText, s)
  {
    UintMeaning(s);
  }

  lemma IdentifierExact()
    ensures Exact(ParseIdentifier, IdentifierText, StopsIdentifier)
  {
    ItemsConsume();
    forall t, x, rest ensures ExactAt(ParseIdentifier, IdentifierText, StopsIdentifier, t, x, rest) {
      if IdentifierText(t, x) && (rest == [] || StopsIdentifier(rest[0])) {
        IdentifierRunOf(t, rest);
        assert (t + rest)[..|t|] == t && (t + rest)[|t|..] == rest;
      }
    }
  }

  lemma PreReleaseExact()
    ensures Exact(ParsePreReleaseItem, PreReleaseText, StopsIdentifier)
  {
    ItemsConsume();
    forall t, x, rest ensures ExactAt(ParsePreReleaseItem, PreReleaseText, StopsIdentifier, t, x, rest) {
      if PreReleaseText(t, x) && (rest == [] || StopsIdentifier(rest[0])) {
        match x
        case Number(n) =>
          NumberExact();
          assert ExactAt(ParseUint, NumberText, StopsNumber, t, n, rest);
        case Text(id) =>
          UintMeaning(t + rest);
          DigitRunWithin(t, rest);
          assert (t + rest)[..DigitRun(t)] == t[..DigitRun(t)];
          IdentifierExact();
          assert ExactAt(ParseIdentifier, IdentifierText, StopsIdentifier, t, id, rest);
      }
    }
  }

  lemma PreReleaseSound(s: string)
    ensures SoundAt(ParsePreReleaseItem, PreReleaseText, s)
  {
    hide Extract, ValueOf, AllDigits;
    NumberSound(s);
    UintMeaning(s);
    if ParseUint(s).Fail? && ParseIdentifier(s).Ok? {
      var n := IdentifierRun(s);
      assert s == s[..n] + s[n..];
      DigitRunWithin(s[..n], s[n..]);
      assert s[..n][..DigitRun(s)] == s[..DigitRun(s)];
      assert Consumed(s, s[n..]) == s[..n];
    }
  }

  // ----- lists -----

  // What *('.' >> item) reads: every text with a dot in front.
  function DotJoin(texts: seq<string>): string {
    if texts == [] then "" else "." + Join(texts)
  }

  lemma JoinCons(texts: seq<string>)
    requires texts != []
    ensures Join(texts) == texts[0] + DotJoin(texts[1..])
  {
  }

  lemma DotJoinFirst(texts: seq<string>, rest: string)
    requires texts != []
    ensures DotJoin(texts) + rest == "." + (texts[0] + (DotJoin(texts[1..]) + rest))
    ensures var dots := DotJoin(texts[1..]); dots == "" || dots[0] == '.'
  {
    JoinCons(texts);
  }

  // One turn of *('.' >> item): the text t of item a in front of a tail that it reads as `more`.
  lemma MoreStep<A(!new)>(p: Parser<A>, item: Syntax<A>, stops: char -> bool, t: string, a: A, tail: string)
    requires Exact(p, item, stops) && item(t, a)
    requires tail == [] || stops(tail[0])
    ensures var (more, rest) := ParseMore(p, tail);
            ParseMore(p, "." + (t + tail)) == ([a] + more, rest)
  {
    assert ExactAt(p, item, stops, t, a, tail);
    assert ("." + (t + tail))[1..] == t + tail;
    assert Consumes(p, t + tail);
  }

  lemma NoMore<A(!new)>(p: Parser<A>, rest: string)
    requires (forall t :: Consumes(p, t)) && (rest == [] || rest[0] != '.')
    ensures ParseMore(p, DotJoin([]) + rest) == ([], rest)
  {
    assert DotJoin([]) + rest == rest;
  }

  lemma {:induction false} MoreComplete<A(!new)>(p: Parser<A>, item: Syntax<A>, stops: char -> bool,
                                           xs: seq<A>, texts: seq<string>, rest: string)
    requires Exact(p, item, stops)
    requires |texts| == |xs| && forall i :: 0 <= i < |xs| ==> item(texts[i], xs[i])
    requires rest == [] || (stops(rest[0]) && rest[0] != '.')
    ensures ParseMore(p, DotJoin(texts) + rest) == (xs, rest)
    decreases |xs|
  {
    hide DotJoin, ParseMore;
    if xs == [] {
      NoMore(p, rest);
    } else {
      var tail := DotJoin(texts[1..]) + rest;
      DotJoinFirst(texts, rest);
      MoreStep(p, item, stops, texts[0], xs[0], tail);
      MoreComplete(p, item, stops, xs[1..], texts[1..], rest);
      assert [xs[0]] + xs[1..] == xs;
    }
  }

  lemma ListComplete<A(!new)>(p: Parser<A>, item: Syntax<A>, stops: char -> bool,
                        t: string, xs: seq<A>, texts: seq<string>, rest: string)
    requires Exact(p, item, stops) && ListAs(item, t, xs, texts)
    requires rest == [] || (stops(rest[0]) && rest[0] != '.')
    ensures ParseList(p, t + rest) == Ok(xs, rest)
  {
    JoinCons(texts);
    var tail := DotJoin(texts[1..]) + rest;
    MoreComplete(p, item, stops, xs[1..], texts[1..], rest);
    assert ExactAt(p, item, stops, texts[0], xs[0], tail);
    assert t + rest == texts[0] + tail;
    assert [xs[0]] + xs[1..] == xs;
  }

  lemma DotJoinCons(s: string, first: string, more: seq<string>, tail: string, rest: string)
    requires s != [] && s[0] == '.' && s[1..] == first + tail && tail == DotJoin(more) + rest
    ensures s == DotJoin([first] + more) + rest
  {
    JoinCons([first] + more);
    assert ([first] + more)[1..] == more;
    assert s == "." + s[1..];
    assert "." + (first + (DotJoin(more) + rest)) == "." + (first + DotJoin(more)) + rest;
  }

  lemma {:induction false} MoreSound<A(!new)>(p: Parser<A>, item: Syntax<A>, s: string)
    returns (texts: seq<string>)
    requires (forall t :: Consumes(p, t)) && (forall t :: SoundAt(p, item, t))
    ensures var (xs, rest) := ParseMore(p, s);
            && |texts| == |xs| && (forall i :: 0 <= i < |xs| ==> item(texts[i], xs[i]))
            && s == DotJoin(texts) + rest
    decreases |s|
  {
    if s == [] || s[0] != '.' || !p(s[1..]).Ok? {
      texts := [];
      assert DotJoin(texts) + s == s;
    } else {
      hide DotJoin;
      var tail := p(s[1..]).rest;
      assert SoundAt(p, item, s[1..]);
      var first := Consumed(s[1..], tail);
      assert Consumes(p, s[1..]);
      var more := MoreSound(p, item, tail);
      texts := [first] + more;
      DotJoinCons(s, first, more, tail, ParseMore(p, tail).1);
    }
  }

  lemma ListSound<A(!new)>(p: Parser<A>, item: Syntax<A>, s: string) returns (t: string, texts: seq<string>)
    requires (forall t :: Consumes(p, t)) && (forall t :: SoundAt(p, item, t))
    requires ParseList(p, s).Ok?
    ensures ListAs(item, t, ParseList(p, s).value, texts) && s == t + ParseList(p, s).rest
  {
    hide DotJoin, ListAs, SoundAt, Consumes, Consumed, ParseList, ParseMore;
    assert SoundAt(p, item, s) && Consumes(p, s);
    ParseListMeaning(p, s);
    ItemSound(p, item, s);
    var (first, a, tail) := (Consumed(s, p(s).rest), p(s).value, p(s).rest);
    var more := MoreSound(p, item, tail);
    var (xs, rest) := ParseMore(p, tail);
    ListCons(item, first, a, more, xs);
    t, texts := first + DotJoin(more), [first] + more;
    Reassociate(s, first, tail, DotJoin(more), rest);
  }

  lemma ParseListMeaning<A(!new)>(p: Parser<A>, s: string)
    requires (forall t :: Consumes(p, t)) && ParseList(p, s).Ok?
    ensures p(s).Ok?
    ensures var (more, rest) := ParseMore(p, p(s).rest);
            ParseList(p, s) == Ok([p(s).value] + more, rest)
  {
  }

  lemma Reassociate(s: string, first: string, tail: string, dots: string, rest: string)
    requires s == first + tail && tail == dots + rest
    ensures s == (first + dots) + rest
  {
  }

  lemma ItemSound<A>(p: Parser<A>, item: Syntax<A>, s: string)
    requires SoundAt(p, item, s) && p(s).Ok?
    ensures item(Consumed(s, p(s).rest), p(s).value) && s == Consumed(s, p(s).rest) + p(s).rest
  {
  }

  lemma ListCons<A>(item: Syntax<A>, first: string, a: A, more: seq<string>, xs: seq<A>)
    requires item(first, a) && |more| == |xs| && forall i :: 0 <= i < |xs| ==> item(more[i], xs[i])
    ensures ListAs(item, first + DotJoin(more), [a] + xs, [first] + more)
  {
    JoinCons([first] + more);
    assert ([first] + more)[1..] == more;
  }

  // ----- whole versions -----

  lemma TaggedComplete<A(!new)>(lead: char, p: Parser<A>, item: Syntax<A>, stops: char -> bool,
                          t: string, o: Option<seq<A>>, texts: seq<string>, rest: string)
    requires Exact(p, item, stops) && TaggedAs(lead, item, t, o, texts)
    requires rest == [] || (stops(rest[0]) && rest[0] != '.' && rest[0] != lead)
    ensures Optional(ParseTagged(lead, p, t + rest), t + rest) == Ok(o, rest)
  {
    match o
    case None => assert t + rest == rest;
    case Some(xs) =>
      ListComplete(p, item, stops, t[1..], xs, texts, rest);
      assert (t + rest)[1..] == t[1..] + rest;
  }

  lemma TaggedSound<A(!new)>(lead: char, p: Parser<A>, item: Syntax<A>, s: string)
    returns (t: string, texts: seq<string>)
    requires (forall t :: Consumes(p, t)) && (forall t :: SoundAt(p, item, t))
    ensures var r := Optional(ParseTagged(lead, p, s), s);
            r.Ok? && TaggedAs(lead, item, t, r.value, texts) && s == t + r.rest
  {
    if s != [] && s[0] == lead && ParseList(p, s[1..]).Ok? {
      t, texts := ListSound(p, item, s[1..]);
      t := [lead] + t;
      assert t[1..] == Join(texts);
    } else {
      t, texts := "", [];
    }
  }

  // The numbers of a version begin with a digit, so a leading v is never part of them.
  lemma NumbersStart(t: string, xs: seq<nat>, texts: seq<string>)
    requires ListAs(NumberText, t, xs, texts)
    ensures t != [] && IsDigit(t[0])
  {
    JoinCons(texts);
    assert NumberText(texts[0], xs[0]);
  }

  lemma NumbersComplete(t: string, xs: seq<nat>, texts: seq<string>, rest: string)
    requires ListAs(NumberText, t, xs, texts)
    requires rest == [] || rest[0] == '-' || rest[0] == '+'
    ensures Numbers(t + rest) == Ok(xs, rest)
  {
    NumberExact();
    ListComplete(ParseUint, NumberText, StopsNumber, t, xs, texts, rest);
  }

  lemma PreReleasePartComplete(t: string, o: Option<seq<Identifier>>, texts: seq<string>, rest: string)
    requires TaggedAs('-', PreReleaseText, t, o, texts)
    requires rest == [] || rest[0] == '+'
    ensures Optional(PreRelease(t + rest), t + rest) == Ok(o, rest)
  {
    PreReleaseExact();
    TaggedComplete('-', ParsePreReleaseItem, PreReleaseText, StopsIdentifier, t, o, texts, rest);
  }

  lemma BuildPartComplete(t: string, o: Option<seq<string>>, texts: seq<string>)
    requires TaggedAs('+', IdentifierText, t, o, texts)
    ensures Optional(BuildMetadata(t), t) == Ok(o, "")
  {
    IdentifierExact();
    assert t + "" == t;
    TaggedComplete('+', ParseIdentifier, IdentifierText, StopsIdentifier, t, o, texts, "");
  }

  lemma ParserComplete(s: string, d: Data, c: Cut)
    requires DerivesAs(s, d, c)
    ensures ParseVersion(s) == Some(d)
  {
    hide Join, Numbers, PreRelease, BuildMetadata, Start;
    var s1 := c.preRelease + c.build;
    var s0 := c.numbers + s1;
    assert s == c.v + s0;
    NumbersStart(c.numbers, d.numbers, c.numberTexts);
    assert s0 == Unprefixed(s);
    assert c.build == [] || c.build[0] == '+';
    assert s1 == [] || s1[0] == '-' || s1[0] == '+';
    NumbersComplete(c.numbers, d.numbers, c.numberTexts, s1);
    PreReleasePartComplete(c.preRelease, d.preRelease, c.preReleaseTexts, c.build);
    BuildPartComplete(c.build, d.buildMetadata, c.buildTexts);
    StartSteps(s, d, s1, c.build, "");
  }

  // The parse of a whole version from the parses of its three parts.
  lemma StartSteps(s: string, d: Data, s1: string, s2: string, s3: string)
    requires Numbers(Unprefixed(s)) == Ok(d.numbers, s1)
    requires Optional(PreRelease(s1), s1) == Ok(d.preRelease, s2)
    requires Optional(BuildMetadata(s2), s2) == Ok(d.buildMetadata, s3)
    ensures Start(s) == Ok(d, s3)
  {
  }

  lemma ParserSound(s: string) returns (c: Cut)
    ensures ParseVersion(s).Some? ==> DerivesAs(s, ParseVersion(s).value, c)
  {
    hide ParseVersion;
    if ParseVersion(s).None? {
      return Cut("", "", "", "", [], [], []);
    }
    var d, s0, s1, s2 := StepsOf(s);
    var n, nTexts := NumbersSound(s0);
    var r, rTexts := PreReleasePartSound(s1);
    var b, bTexts := BuildPartSound(s2);
    var v := s[..|s| - |s0|];
    c := Cut(v, n, r, b, nTexts, rTexts, bTexts);
    Concatenate(s, v, n, r, b, s0, s1, s2);
  }

  lemma UnprefixedIsSuffix(s: string)
    ensures var s0 := Unprefixed(s);
            |s0| <= |s| && s == s[..|s| - |s0|] + s0 && (s[..|s| - |s0|] == "" || s[..|s| - |s0|] == "v")
  {
  }

  // The parses of the three parts that an accepting parse is made of.
  lemma StepsOf(s: string) returns (d: Data, s0: string, s1: string, s2: string)
    requires ParseVersion(s).Some?
    ensures d == ParseVersion(s).value && |s0| <= |s|
    ensures s == s[..|s| - |s0|] + s0 && (s[..|s| - |s0|] == "" || s[..|s| - |s0|] == "v")
    ensures Numbers(s0) == Ok(d.numbers, s1)
    ensures Optional(PreRelease(s1), s1) == Ok(d.preRelease, s2)
    ensures Optional(BuildMetadata(s2), s2) == Ok(d.buildMetadata, "")
  {
    hide Numbers, PreRelease, BuildMetadata;
    UnprefixedIsSuffix(s);
    d, s0 := ParseVersion(s).value, Unprefixed(s);
    s1 := Numbers(s0).rest;
    s2 := Optional(PreRelease(s1), s1).rest;
  }

  lemma Concatenate(s: string, v: string, n: string, r: string, b: string, s0: string, s1: string, s2: string)
    requires s == v + s0 && s0 == n + s1 && s1 == r + s2 && s2 == b + ""
    ensures s == v + n + r + b
  {
  }

  lemma NumbersSound(s: string) returns (t: string, texts: seq<string>)
    requires Numbers(s).Ok?
    ensures ListAs(NumberText, t, Numbers(s).value, texts) && s == t + Numbers(s).rest
  {
    ItemsConsume();
    forall t ensures SoundAt(ParseUint, NumberText, t) { NumberSound(t); }
    t, texts := ListSound(ParseUint, NumberText, s);
  }

  lemma PreReleasePartSound(s: string) returns (t: string, texts: seq<string>)
    ensures var r := Optional(PreRelease(s), s);
            r.Ok? && TaggedAs('-', PreReleaseText, t, r.value, texts) && s == t + r.rest
  {
    ItemsConsume();
    forall t ensures SoundAt(ParsePreReleaseItem, PreReleaseText, t) { PreReleaseSound(t); }
    t, texts := TaggedSound('-', ParsePreReleaseItem, PreReleaseText, s);
  }

  lemma BuildPartSound(s: string) returns (t: string, texts: seq<string>)
    ensures var r := Optional(BuildMetadata(s), s);
            r.Ok? && TaggedAs('+', IdentifierText, t, r.value, texts) && s == t + r.rest
  {
    ItemsConsume();
    forall t ensures SoundAt(ParseIdentifier, IdentifierText, t) {}
    t, texts := TaggedSound('+', ParseIdentifier, IdentifierText, s);
  }

  // Version::parse accepts s with value d exactly when the grammar derives s with value d.
  lemma ParserCorrect(s: string, d: Data)
    ensures ParseVersion(s) == Some(d) <==> Derives(s, d)
  {
    if ParseVersion(s) == Some(d) {
      var c := ParserSound(s);
    }
    if Derives(s, d) {
      var c :| DerivesAs(s, d, c);
      ParserComplete(s, d, c);
    }
  }

  // The grammar is unambiguous.
  lemma DerivesUnique(s: string, d: Data, e: Data)
    requires Derives(s, d) && Derives(s, e)
    ensures d == e
  {
    ParserCorrect(s, d);
    ParserCorrect(s, e);
  }
}
