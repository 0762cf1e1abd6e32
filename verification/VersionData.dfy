// The value that a Version holds, and the text of dot-separated lists.
module VersionData {
  import opened Basics
  import opened Alphabet

  // One element of a pre-release: a boost::variant over `unsigned` (index 0) and std::string (1).
  datatype Identifier = Number(n: nat) | Text(text: string)

  datatype Data = Data(numbers: seq<nat>,
                       preRelease: Option<seq<Identifier>>,
                       buildMetadata: Option<seq<string>>)

  const EMPTY: Data := Data([], None, None)

  // The character set of the `identifier` rule.
  predicate IsIdentifierChar(c: char) {
    '0' <= c <= '9' || 'A' <= c <= 'Z' || 'a' <= c <= 'z' || c == '-'
  }

  predicate IsIdentifier(s: string) {
    s != [] && forall i :: 0 <= i < |s| ==> IsIdentifierChar(s[i])
  }

  // The character set written out.
  lemma IdentifierMeaning(s: string)
    ensures IsIdentifier(s) <==> s != "" && forall c <- s :: c in DIGITS || c in UPPER || c in LOWER || c == '-'
  {
    hide DIGITS, UPPER, LOWER;
    DigitCodes();
    UpperCodes();
    LowerCodes();
    assert forall i :: 0 <= i < |s| ==> s[i] in s;
  }

  // The texts of a list with dots between them.
  function Join(texts: seq<string>): string {
    if texts == [] then []
    else if |texts| == 1 then texts[0]
    else texts[0] + "." + Join(texts[1..])
  }
}
