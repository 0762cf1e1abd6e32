// The letters and digits written out, and their places in the character set, so that what is said
// of characters does not rest on code arithmetic.
module Alphabet {
  const DIGITS: string := "0123456789"
  const UPPER: string := "ABCDEFGHIJKLMNOPQRSTUVWXYZ"
  const LOWER: string := "abcdefghijklmnopqrstuvwxyz"

  // Each of the three is a range of character codes.
  lemma DigitCodes()
    ensures |DIGITS| == 10 && forall i :: 0 <= i < 10 ==> DIGITS[i] as int == '0' as int + i
    ensures forall c: char :: c in DIGITS <==> '0' <= c <= '9'
  {
    forall c: char | '0' <= c <= '9' ensures c in DIGITS { assert c == DIGITS[c as int - '0' as int]; }
  }

  lemma UpperCodes()
    ensures |UPPER| == 26 && forall i :: 0 <= i < 26 ==> UPPER[i] as int == 'A' as int + i
    ensures forall c: char :: c in UPPER <==> 'A' <= c <= 'Z'
  {
    forall c: char | 'A' <= c <= 'Z' ensures c in UPPER { assert c == UPPER[c as int - 'A' as int]; }
  }

  lemma LowerCodes()
    ensures |LOWER| == 26 && forall i :: 0 <= i < 26 ==> LOWER[i] as int == 'a' as int + i
    ensures forall c: char :: c in LOWER <==> 'a' <= c <= 'z'
  {
    forall c: char | 'a' <= c <= 'z' ensures c in LOWER { assert c == LOWER[c as int - 'a' as int]; }
  }
}
