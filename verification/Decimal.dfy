// Decimal digit runs: the meaning of a run, the overflow-checking extraction that Spirit's uint_
// performs on it, and the digits that Karma's uint_ prints.
module Decimal {
  import opened Alphabet

  // The largest value of the C++ type `unsigned`.
  const MAX: nat := 0xFFFF_FFFF

  predicate IsDigit(c: char) {
    '0' <= c <= '9'
  }

  predicate AllDigits(s: string) {
    forall i :: 0 <= i < |s| ==> IsDigit(s[i])
  }

  function DigitValue(c: char): nat
    requires IsDigit(c)
  {
    c as int - '0' as int
  }

  // The number that a run of digits denotes; leading zeros do not matter.
  function ValueOf(s: string): nat
    requires AllDigits(s)
  {
    if s == [] then 0 else 10 * ValueOf(s[..|s| - 1]) + DigitValue(s[|s| - 1])
  }

  // The digits, what each adds to a run, and when a run does not fit in 32 bits.
  lemma ValueMeaning(run: string, c: char)
    ensures IsDigit(c) <==> c in DIGITS
    ensures ValueOf("") == 0
    ensures AllDigits(run) ==> (Overflows(run) <==> ValueOf(run) >= 0x1_0000_0000)
    ensures AllDigits(run) ==> forall i :: 0 <= i < 10 && c == DIGITS[i] ==>
              AllDigits(run + [c]) && ValueOf(run + [c]) == 10 * ValueOf(run) + i
  {
    DigitCodes();
    assert (run + [c])[..|run|] == run;
  }

  // The length of the longest prefix of s that consists of digits.
  function DigitRun(s: string): (n: nat)
    ensures n <= |s| && AllDigits(s[..n])
    ensures n < |s| ==> !IsDigit(s[n])
  {
    if s != [] && IsDigit(s[0]) then
      var n := DigitRun(s[1..]);
      assert s[..n + 1] == [s[0]] + s[1..][..n];
      n + 1
    else
      0
  }

  // A run of digits whose value does not fit in an `unsigned`.
  predicate Overflows(s: string) {
    AllDigits(s) && ValueOf(s) > MAX
  }

  datatype Extraction = Overflow | Extracted(value: nat, rest: string)

  // Spirit's left-to-right accumulation: it multiplies and adds only after checking that neither
  // step leaves the range of `unsigned`.
  function Extract(s: string, acc: nat): Extraction
    requires acc <= MAX
  {
    if s == [] || !IsDigit(s[0]) then Extracted(acc, s)
    else if acc > MAX / 10 then Overflow
    else if 10 * acc > MAX - DigitValue(s[0]) then Overflow
    else Extract(s[1..], 10 * acc + DigitValue(s[0]))
  }

  // Adding a digit in front of a run, or more digits behind it, never makes its value smaller.
  lemma {:induction false} ValueGrows(a: string, b: string)
    requires AllDigits(a) && AllDigits(b)
    ensures AllDigits(a + b) && ValueOf(a + b) >= ValueOf(a)
  {
    if b == [] {
      assert a + b == a;
    } else {
      var b' := b[..|b| - 1];
      ValueGrows(a, b');
      assert (a + b)[..|a + b| - 1] == a + b';
    }
  }

  // The accumulation stops with Overflow exactly when the whole run is too large, and otherwise
  // yields the value of the whole run; `done` is the part already accumulated.
  lemma {:induction false} ExtractMeaning(done: string, s: string)
    requires AllDigits(done) && ValueOf(done) <= MAX
    ensures var run := done + s[..DigitRun(s)];
            && AllDigits(run)
            && Extract(s, ValueOf(done)) ==
               if ValueOf(run) > MAX then Overflow else Extracted(ValueOf(run), s[DigitRun(s)..])
    decreases |s|
  {
    var n := DigitRun(s);
    if n == 0 {
      assert done + s[..n] == done;
    } else {
      var next := done + [s[0]];
      assert next[..|next| - 1] == done;
      assert ValueOf(next) == 10 * ValueOf(done) + DigitValue(s[0]);
      assert done + s[..n] == next + s[1..][..n - 1];
      if ValueOf(next) <= MAX {
        ExtractMeaning(next, s[1..]);
        assert s[1..][n - 1..] == s[n..];
      } else {
        ValueGrows(next, s[1..][..n - 1]);
      }
    }
  }

  function DigitChar(d: nat): (c: char)
    requires d < 10
    ensures IsDigit(c) && DigitValue(c) == d
  {
    '0' + d as char
  }

  // The decimal digits of n without leading zeros, as Karma's uint_ writes them.
  function Digits(n: nat): (s: string)
    ensures s != [] && AllDigits(s) && ValueOf(s) == n
    ensures s[0] == '0' <==> n == 0
  {
    if n < 10 then
      assert [DigitChar(n)][..0] == [];
      [DigitChar(n)]
    else
      var s := Digits(n / 10) + [DigitChar(n % 10)];
      assert s[..|s| - 1] == Digits(n / 10);
      s
  }
}
