// The Spirit grammar of a version string as a recursive-descent parser: ordered choice, greedy
// lists that give back a trailing dot, and expectation points whose exceptions each rule turns
// into an ordinary failure.
module VersionGrammar {
  import opened Decimal
  import opened Basics
  import opened VersionData

  // Fail is an ordinary mismatch, Throw an expectation failure; both leave the input where it was.
  datatype Parsed<+A> = Fail | Throw | Ok(value: A, rest: string)

  type Parser<!A> = string -> Parsed<A>

  // The parser takes away a nonempty prefix of its input whenever it succeeds.
  ghost predicate Consumes<A>(p: Parser<A>, s: string) {
    p(s).Ok? ==> |p(s).rest| < |s| && s == Consumed(s, p(s).rest) + p(s).rest
  }

  ghost function Consumed(s: string, rest: string): string {
    if |rest| <= |s| then s[..|s| - |rest|] else s
  }

  // ----- primitive parsers -----

  function ParseUint(s: string): (r: Parsed<nat>)
    ensures !r.Throw?
    ensures r.Ok? ==> |r.rest| < |s| && s == s[..|s| - |r.rest|] + r.rest
  {
    if DigitRun(s) == 0 then Fail
    else
      match Extract(s, 0)
      case Overflow => Fail
      case Extracted(n, rest) =>
        ExtractMeaning("", s);
        Ok(n, rest)
  }

  // The length of the longest prefix of identifier characters.
  function IdentifierRun(s: string): (n: nat)
    ensures n <= |s| && forall i :: 0 <= i < n ==> IsIdentifierChar(s[i])
    ensures n < |s| ==> !IsIdentifierChar(s[n])
  {
    if s != [] && IsIdentifierChar(s[0]) then 1 + IdentifierRun(s[1..]) else 0
  }

  function ParseIdentifier(s: string): (r: Parsed<string>)
    ensures !r.Throw?
    ensures r.Ok? ==> |r.rest| < |s| && s == s[..|s| - |r.rest|] + r.rest
  {
    var n := IdentifierRun(s);
    if n == 0 then Fail else Ok(s[..n], s[n..])
  }

  // uint_ | identifier: the second alternative is tried only when the first one fails.
  function ParsePreReleaseItem(s: string): (r: Parsed<Identifier>)
    ensures !r.Throw?
    ensures r.Ok? ==> |r.rest| < |s| && s == s[..|s| - |r.rest|] + r.rest
  {
    match ParseUint(s)
    case Ok(n, rest) => Ok(Number(n), rest)
    case _ =>
      match ParseIdentifier(s)
      case Ok(t, rest) => Ok(Text(t), rest)
      case _ => Fail
  }

  // ----- combinators -----

  // item % '.', which is item >> *('.' >> item).
  function ParseList<A(!new)>(item: Parser<A>, s: string): (r: Parsed<seq<A>>)
    requires forall t :: Consumes(item, t)
    ensures r.Ok? ==> |r.rest| < |s|
  {
    match item(s)
    case Ok(a, rest) =>
      assert Consumes(item, s);
      var (more, rest') := ParseMore(item, rest);
      Ok([a] + more, rest')
    case Fail => Fail
    case Throw => Throw
  }

  // *('.' >> item): a dot with no item behind it is left in the input.
  function ParseMore<A(!new)>(item: Parser<A>, s: string): (r: (seq<A>, string))
    requires forall t :: Consumes(item, t)
    ensures |r.1| <= |s|
    decreases |s|
  {
    if s == [] || s[0] != '.' then ([], s)
    else
      match item(s[1..])
      case Ok(a, rest) =>
        assert Consumes(item, s[1..]);
        var (more, rest') := ParseMore(item, rest);
        ([a] + more, rest')
      case _ => ([], s)
  }

  // p > q: after p has matched, a failing q throws.
  function Expect<A>(r: Parsed<A>): Parsed<A> {
    if r.Fail? then Throw else r
  }

  // on_error<fail>: the rule fails instead of throwing.
  function OnErrorFail<A>(r: Parsed<A>): Parsed<A> {
    if r.Throw? then Fail else r
  }

  // lead > item % '.' as the body of a rule with an error handler.
  function ParseTagged<A(!new)>(lead: char, item: Parser<A>, s: string): (r: Parsed<seq<A>>)
    requires forall t :: Consumes(item, t)
    ensures !r.Throw?
    ensures r.Ok? ==> |r.rest| < |s|
  {
    OnErrorFail(if s == [] || s[0] != lead then Fail else Expect(ParseList(item, s[1..])))
  }

  // -p: a failing p yields none and consumes nothing.
  function Optional<A>(r: Parsed<A>, s: string): (o: Parsed<Option<A>>)
    ensures o.Throw? <==> r.Throw?
    ensures !o.Fail?
  {
    match r
    case Ok(a, rest) => Ok(Some(a), rest)
    case Fail => Ok(None, s)
    case Throw => Throw
  }

  lemma ItemsConsume()
    ensures forall t :: Consumes(ParseUint, t)
    ensures forall t :: Consumes(ParseIdentifier, t)
    ensures forall t :: Consumes(ParsePreReleaseItem, t)
  {
  }

  // ----- rules -----

  function Numbers(s: string): Parsed<seq<nat>> {
    ItemsConsume();
    OnErrorFail(ParseList(ParseUint, s))
  }

  function PreRelease(s: string): Parsed<seq<Identifier>> {
    ItemsConsume();
    ParseTagged('-', ParsePreReleaseItem, s)
  }

  function BuildMetadata(s: string): Parsed<seq<string>> {
    ItemsConsume();
    ParseTagged('+', ParseIdentifier, s)
  }

  // -lit('v')
  function Unprefixed(s: string): string {
    if s != [] && s[0] == 'v' then s[1..] else s
  }

  // -lit('v') > numbers > -preRelease > -buildMetadata, with its error handler.
  function Start(s: string): Parsed<Data> {
    OnErrorFail(
      match Expect(Numbers(Unprefixed(s)))
      case Ok(numbers, s1) => (
        match Expect(Optional(PreRelease(s1), s1))
        case Ok(preRelease, s2) => (
          match Expect(Optional(BuildMetadata(s2), s2))
          case Ok(build, s3) => Ok(Data(numbers, preRelease, build), s3)
          case _ => Throw)
        case _ => Throw)
      case _ => Throw)
  }

  // grammar >> eoi
  function ParseVersion(s: string): Option<Data> {
    match Start(s)
    case Ok(v, rest) => if rest == [] then Some(v) else None
    case _ => None
  }
}
