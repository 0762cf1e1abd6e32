// operator<< of Version, and the round trips between printing and parsing.
module VersionPrinter {
  import opened Decimal
  import opened Basics
  import opened VersionData
  import opened VersionGrammar
  import opened VersionSyntax

  function PrintIdentifier(x: Identifier): string {
    match x
    case Number(n) => Digits(n)
    case Text(t) => t
  }

  function Texts<A>(show: A -> string, xs: seq<A>): (texts: seq<string>)
    ensures |texts| == |xs| && forall i :: 0 <= i < |xs| ==> texts[i] == show(xs[i])
  {
    seq(|xs|, i requires 0 <= i < |xs| => show(xs[i]))
  }

  // -(lead << auto_ % '.')
  function PrintTagged<A>(lead: char, show: A -> string, o: Option<seq<A>>): string {
    match o
    case None => ""
    case Some(xs) => [lead] + Join(Texts(show, xs))
  }

  function Print(d: Data): string {
    if d.numbers == [] then ""
    else
      Join(Texts(Digits, d.numbers))
      + PrintTagged('-', PrintIdentifier, d.preRelease)
      + PrintTagged('+', (x: string) => x, d.buildMetadata)
  }

  // A value that some string parses to.
  ghost predicate Parseable(d: Data) {
    exists s :: ParseVersion(s) == Some(d)
  }

  // Numbers fit in an `unsigned`, texts are identifiers that would not be read as numbers, and no
  // list is empty.
  predicate WellFormed(d: Data) {
    && d.numbers != [] && (forall n <- d.numbers :: n <= MAX)
    && (d.preRelease.Some? ==> d.preRelease.value != [] && forall x <- d.preRelease.value :: IsElement(x))
    && (d.buildMetadata.Some? ==> d.buildMetadata.value != [] && forall x <- d.buildMetadata.value :: IsIdentifier(x))
  }

  predicate IsElement(x: Identifier) {
    match x
    case Number(n) => n <= MAX
    case Text(t) => ReadsAsText(t)
  }

  // Every item of a list is written as a text of that item.
  ghost predicate Prints<A>(item: Syntax<A>, show: A -> string, xs: seq<A>) {
    xs != [] && forall x <- xs :: item(show(x), x)
  }

  lemma PrintedList<A>(item: Syntax<A>, show: A -> string, xs: seq<A>)
    requires Prints(item, show, xs)
    ensures ListAs(item, Join(Texts(show, xs)), xs, Texts(show, xs))
  {
  }

  lemma PrintedTagged<A>(lead: char, item: Syntax<A>, show: A -> string, o: Option<seq<A>>)
    requires o.Some? ==> Prints(item, show, o.value)
    ensures TaggedAs(lead, item, PrintTagged(lead, show, o), o, if o.Some? then Texts(show, o.value) else [])
  {
    match o
    case None =>
    case Some(xs) =>
      PrintedList(item, show, xs);
      assert PrintTagged(lead, show, o)[1..] == Join(Texts(show, xs));
  }

  // The parts of a well-formed value are written as texts of those parts.
  lemma PartsPrint(d: Data, identity: string -> string)
    requires WellFormed(d) && forall x :: identity(x) == x
    ensures Prints(NumberText, Digits, d.numbers)
    ensures d.preRelease.Some? ==> Prints(PreReleaseText, PrintIdentifier, d.preRelease.value)
    ensures d.buildMetadata.Some? ==> Prints(IdentifierText, identity, d.buildMetadata.value)
  {
  }

  // The printed form of a well-formed value derives that value.
  lemma PrintDerives(d: Data)
    requires WellFormed(d)
    ensures Derives(Print(d), d)
  {
    hide Join, Prints, Texts, NumberText, PreReleaseText, IdentifierText;
    var identity := (x: string) => x;
    PartsPrint(d, identity);
    PrintedList(NumberText, Digits, d.numbers);
    PrintedTagged('-', PreReleaseText, PrintIdentifier, d.preRelease);
    PrintedTagged('+', IdentifierText, identity, d.buildMetadata);
    var printed := Cut("", Join(Texts(Digits, d.numbers)),
                       PrintTagged('-', PrintIdentifier, d.preRelease), PrintTagged('+', identity, d.buildMetadata),
                       Texts(Digits, d.numbers),
                       if d.preRelease.Some? then Texts(PrintIdentifier, d.preRelease.value) else [],
                       if d.buildMetadata.Some? then Texts(identity, d.buildMetadata.value) else []);
    assert Print(d) == "" + printed.numbers + printed.preRelease + printed.build;
    assert DerivesAs(Print(d), d, printed);
  }

  // Whatever the syntax derives is well-formed.
  lemma DerivedIsWellFormed(s: string, d: Data)
    requires Derives(s, d)
    ensures WellFormed(d)
  {
    hide Join;
    var c :| DerivesAs(s, d, c);
    ItemsOf(NumberText, c.numbers, d.numbers, c.numberTexts);
    if d.preRelease.Some? { ItemsOf(PreReleaseText, c.preRelease[1..], d.preRelease.value, c.preReleaseTexts); }
    if d.buildMetadata.Some? { ItemsOf(IdentifierText, c.build[1..], d.buildMetadata.value, c.buildTexts); }
  }

  lemma ItemsOf<A>(item: Syntax<A>, t: string, xs: seq<A>, texts: seq<string>)
    requires ListAs(item, t, xs, texts)
    ensures xs != [] && forall x <- xs :: exists text :: item(text, x)
  {
  }

  // Parsing what was printed gives back all three parts of the well-formed values, which are the
  // values that can come out of parsing at all, and of no others.
  lemma RoundTrip(d: Data)
    ensures WellFormed(d) <==> ParseVersion(Print(d)) == Some(d)
    ensures WellFormed(d) <==> Parseable(d)
  {
    hide Print, ParseVersion, WellFormed;
    if WellFormed(d) {
      PrintDerives(d);
      ParserCorrect(Print(d), d);
    }
    if Parseable(d) {
      var s :| ParseVersion(s) == Some(d);
      ParserCorrect(s, d);
      DerivedIsWellFormed(s, d);
    }
  }

  lemma PrintInjective(d: Data, e: Data)
    ensures WellFormed(d) && WellFormed(e) ==> (Print(d) == Print(e) <==> d == e)
  {
    RoundTrip(d);
    RoundTrip(e);
  }

  // Printing a parsed string normalises it: doing so again changes nothing, and two accepted
  // strings have the same normal form exactly when they mean the same version.
  lemma PrintAfterParse(s: string, t: string)
    ensures ParseVersion(s).Some? ==>
              var normal := Print(ParseVersion(s).value);
              ParseVersion(normal) == ParseVersion(s) && Print(ParseVersion(normal).value) == normal
    ensures ParseVersion(s).Some? && ParseVersion(t).Some? ==>
              (Print(ParseVersion(s).value) == Print(ParseVersion(t).value) <==> ParseVersion(s) == ParseVersion(t))
  {
    hide ParseVersion, Print;
    if ParseVersion(s).Some? { RoundTripOfParse(s); }
    if ParseVersion(t).Some? { RoundTripOfParse(t); }
  }

  lemma RoundTripOfParse(s: string)
    ensures ParseVersion(s).Some? ==> ParseVersion(Print(ParseVersion(s).value)) == ParseVersion(s)
  {
    hide ParseVersion, Print;
    if ParseVersion(s).Some? {
      assert Parseable(ParseVersion(s).value);
      RoundTrip(ParseVersion(s).value);
    }
  }

  // ----- the printed form is the shortest one -----

  // No text is shorter than a, and none other is as short.
  ghost predicate Shortest(a: string, b: string) {
    |a| <= |b| && (|a| == |b| ==> a == b)
  }

  lemma {:induction false} DigitsShortest(t: string, n: nat)
    requires t != [] && AllDigits(t) && ValueOf(t) == n
    ensures Shortest(Digits(n), t)
    decreases |t|
  {
    hide Digits, ValueOf, AllDigits, DigitChar;
    var rest, last := t[..|t| - 1], t[|t| - 1];
    assert t == rest + [last];
    LastDigit(t, n);
    DigitsUnfold(n);
    if n < 10 {
      assert |t| == 1 ==> t == [last];
    } else {
      DigitsShortest(rest, n / 10);
    }
  }

  lemma LastDigit(t: string, n: nat)
    requires t != [] && AllDigits(t) && ValueOf(t) == n
    ensures var rest := t[..|t| - 1];
            AllDigits(rest) && ValueOf(rest) == n / 10 && t[|t| - 1] == DigitChar(n % 10) && (n >= 10 ==> rest != [])
  {
    var rest, last := t[..|t| - 1], t[|t| - 1];
    assert n == 10 * ValueOf(rest) + DigitValue(last) && DigitValue(last) < 10;
    assert DigitChar(DigitValue(last)) == last;
  }

  lemma DigitsUnfold(n: nat)
    ensures Digits(n) == if n < 10 then [DigitChar(n)] else Digits(n / 10) + [DigitChar(n % 10)]
  {
  }

  lemma {:induction false} JoinShortest(a: seq<string>, b: seq<string>)
    requires |a| == |b| && forall i :: 0 <= i < |a| ==> Shortest(a[i], b[i])
    ensures Shortest(Join(a), Join(b))
  {
    if |a| <= 1 {
    } else {
      assert Shortest(a[0], b[0]);
      JoinShortest(a[1..], b[1..]);
    }
  }

  lemma ElementShortest(x: Identifier, t: string)
    requires PreReleaseText(t, x)
    ensures Shortest(PrintIdentifier(x), t)
  {
    if x.Number? { DigitsShortest(t, x.n); }
  }

  lemma TaggedShortest<A>(lead: char, item: Syntax<A>, show: A -> string, t: string, o: Option<seq<A>>,
                          texts: seq<string>)
    requires TaggedAs(lead, item, t, o, texts)
    requires o.Some? && |texts| == |o.value| ==>
               forall i :: 0 <= i < |texts| ==> Shortest(show(o.value[i]), texts[i])
    ensures Shortest(PrintTagged(lead, show, o), t)
  {
    match o
    case None =>
    case Some(xs) =>
      JoinShortest(Texts(show, xs), texts);
      assert t == [lead] + t[1..];
  }

  // Printing gives the shortest string that parses to the value, and no other is as short: there is
  // no v in front, and there are no leading zeros.
  lemma PrintIsShortest(s: string, d: Data)
    requires ParseVersion(s) == Some(d)
    ensures Shortest(Print(d), s)
  {
    var c := ParserSound(s);
    hide ParseVersion, Join, Digits, PreReleaseText;
    forall i | 0 <= i < |d.numbers| ensures Shortest(Digits(d.numbers[i]), c.numberTexts[i]) {
      DigitsShortest(c.numberTexts[i], d.numbers[i]);
    }
    JoinShortest(Texts(Digits, d.numbers), c.numberTexts);
    if d.preRelease.Some? {
      forall i | 0 <= i < |c.preReleaseTexts|
        ensures Shortest(PrintIdentifier(d.preRelease.value[i]), c.preReleaseTexts[i])
      {
        ElementShortest(d.preRelease.value[i], c.preReleaseTexts[i]);
      }
    }
    TaggedShortest('-', PreReleaseText, PrintIdentifier, c.preRelease, d.preRelease, c.preReleaseTexts);
    TaggedShortest('+', IdentifierText, (x: string) => x, c.build, d.buildMetadata, c.buildTexts);
  }
}
