// The comparison operators of Version: a total order up to build metadata, and its relation to
// precedence as section 11 of Semantic Versioning 2.0.0 defines it.
module VersionOrder {
  import opened Decimal
  import opened Basics
  import opened VersionData
  import opened VersionGrammar
  import opened VersionSyntax
  import opened VersionPrinter

  // ----- the operators, as the standard library and Boost compose them -----

  // std::lexicographical_compare
  predicate LexLess<A>(less: (A, A) -> bool, a: seq<A>, b: seq<A>) {
    if b == [] then false
    else if a == [] then true
    else if less(a[0], b[0]) then true
    else if less(b[0], a[0]) then false
    else LexLess(less, a[1..], b[1..])
  }

  predicate NatLess(x: nat, y: nat) { x < y }

  predicate CharLess(c: char, d: char) { c < d }

  // boost::variant: the index of the alternative first, then its value.
  predicate IdentifierLess(x: Identifier, y: Identifier) {
    match (x, y)
    case (Number(m), Number(n)) => m < n
    case (Text(s), Text(t)) => LexLess(CharLess, s, t)
    case (Number(_), Text(_)) => true
    case (Text(_), Number(_)) => false
  }

  // boost::optional: none below some.
  predicate PreReleaseLess(a: Option<seq<Identifier>>, b: Option<seq<Identifier>>) {
    b.Some? && (a.None? || LexLess(IdentifierLess, a.value, b.value))
  }

  predicate Equal(a: Data, b: Data) {
    a.numbers == b.numbers && a.preRelease == b.preRelease
  }

  predicate Less(a: Data, b: Data) {
    if a.numbers == b.numbers then
      if PreReleaseLess(a.preRelease, b.preRelease)
      then a.preRelease.Some? && b.preRelease.Some?
      else a.preRelease.Some? && !b.preRelease.Some?
    else
      LexLess(NatLess, a.numbers, b.numbers)
  }

  predicate Greater(a: Data, b: Data) { Less(b, a) }

  predicate LessOrEqual(a: Data, b: Data) { Less(a, b) || Equal(a, b) }

  predicate GreaterOrEqual(a: Data, b: Data) { Greater(a, b) || Equal(a, b) }

  // ----- total orders -----

  ghost predicate StrictTotal<A(!new)>(less: (A, A) -> bool) {
    && (forall x :: !less(x, x))
    && (forall x, y :: x == y || less(x, y) || less(y, x))
    && (forall x, y, z :: less(x, y) && less(y, z) ==> less(x, z))
  }

  // An independent reading of lexicographic order: a and b agree up to some index, where a ends
  // first or has the smaller element.
  ghost predicate FirstDifference<A>(less: (A, A) -> bool, a: seq<A>, b: seq<A>, k: nat) {
    && k <= |a| && k < |b| && a[..k] == b[..k]
    && (k < |a| ==> less(a[k], b[k]))
  }

  ghost predicate Before<A>(less: (A, A) -> bool, a: seq<A>, b: seq<A>) {
    exists k :: FirstDifference(less, a, b, k)
  }

  lemma {:induction false} LexFinds<A(!new)>(less: (A, A) -> bool, a: seq<A>, b: seq<A>) returns (k: nat)
    requires StrictTotal(less) && LexLess(less, a, b)
    ensures FirstDifference(less, a, b, k)
  {
    if a == [] || less(a[0], b[0]) {
      k := 0;
    } else {
      assert a[0] == b[0];
      k := LexFinds(less, a[1..], b[1..]);
      assert a[..k + 1] == [a[0]] + a[1..][..k] && b[..k + 1] == [b[0]] + b[1..][..k];
      k := k + 1;
    }
  }

  lemma {:induction false} LexFound<A(!new)>(less: (A, A) -> bool, a: seq<A>, b: seq<A>, k: nat)
    requires StrictTotal(less) && FirstDifference(less, a, b, k)
    ensures LexLess(less, a, b)
  {
    if k == 0 {
    } else {
      assert a[0] == a[..k][0] == b[..k][0] == b[0];
      assert a[1..][..k - 1] == a[..k][1..] == b[..k][1..] == b[1..][..k - 1];
      LexFound(less, a[1..], b[1..], k - 1);
    }
  }

  lemma LexIsBefore<A(!new)>(less: (A, A) -> bool, a: seq<A>, b: seq<A>)
    requires StrictTotal(less)
    ensures LexLess(less, a, b) <==> Before(less, a, b)
  {
    if LexLess(less, a, b) {
      var k := LexFinds(less, a, b);
    }
    if k :| FirstDifference(less, a, b, k) {
      LexFound(less, a, b, k);
    }
  }

  lemma {:induction false} LexTriple<A(!new)>(less: (A, A) -> bool, a: seq<A>, b: seq<A>, c: seq<A>)
    requires StrictTotal(less)
    ensures !LexLess(less, a, a)
    ensures a == b || LexLess(less, a, b) || LexLess(less, b, a)
    ensures LexLess(less, a, b) && LexLess(less, b, c) ==> LexLess(less, a, c)
    decreases |a| + |b|
  {
    if a == [] {
    } else if b == [] {
      LexTriple(less, a[1..], b, []);
    } else {
      LexTriple(less, a[1..], b[1..], if c == [] then [] else c[1..]);
      assert a == [a[0]] + a[1..] && b == [b[0]] + b[1..];
    }
  }

  lemma LexIsTotal<A(!new)>(less: (A, A) -> bool)
    requires StrictTotal(less)
    ensures StrictTotal((a, b) => LexLess(less, a, b))
  {
    forall a, b, c
      ensures !LexLess(less, a, a)
      ensures a == b || LexLess(less, a, b) || LexLess(less, b, a)
      ensures LexLess(less, a, b) && LexLess(less, b, c) ==> LexLess(less, a, c)
    {
      LexTriple(less, a, b, c);
    }
  }

  lemma IdentifierLessIsTotal()
    ensures StrictTotal(IdentifierLess)
  {
    LexIsTotal(CharLess);
    var textLess := (s, t) => LexLess(CharLess, s, t);
    forall x: Identifier, y: Identifier, z: Identifier
      ensures !IdentifierLess(x, x)
      ensures x == y || IdentifierLess(x, y) || IdentifierLess(y, x)
      ensures IdentifierLess(x, y) && IdentifierLess(y, z) ==> IdentifierLess(x, z)
    {
      if x.Text? && y.Text? {
        assert !textLess(x.text, x.text);
        assert x.text == y.text || textLess(x.text, y.text) || textLess(y.text, x.text);
        if z.Text? && textLess(x.text, y.text) && textLess(y.text, z.text) {
          assert textLess(x.text, z.text);
        }
      }
      if x.Text? { assert !textLess(x.text, x.text); }
    }
  }

  // ----- Version's operators -----

  // What the ternary amounts to: a pre-release comes before its release, and two pre-releases of
  // the same release compare by their elements; the build metadata never matters.
  lemma LessMeaning(a: Data, b: Data)
    ensures Less(a, b) <==>
            || Before(NatLess, a.numbers, b.numbers)
            || (a.numbers == b.numbers && a.preRelease.Some? &&
                (b.preRelease.None? || Before(IdentifierLess, a.preRelease.value, b.preRelease.value)))
  {
    LexIsBefore(NatLess, a.numbers, b.numbers);
    LexTriple(NatLess, a.numbers, b.numbers, b.numbers);
    if a.preRelease.Some? && b.preRelease.Some? {
      IdentifierLessIsTotal();
      LexIsBefore(IdentifierLess, a.preRelease.value, b.preRelease.value);
    }
  }

  // Exactly one of a < b, a == b and a > b holds.
  lemma Trichotomy(a: Data, b: Data)
    ensures Less(a, b) || Equal(a, b) || Greater(a, b)
    ensures !(Less(a, b) && Equal(a, b)) && !(Less(a, b) && Greater(a, b)) && !(Greater(a, b) && Equal(a, b))
  {
    LexTriple(NatLess, a.numbers, b.numbers, a.numbers);
    if a.preRelease.Some? && b.preRelease.Some? {
      IdentifierLessIsTotal();
      LexTriple(IdentifierLess, a.preRelease.value, b.preRelease.value, a.preRelease.value);
    }
  }

  lemma LessTransitive(a: Data, b: Data, c: Data)
    requires Less(a, b) && Less(b, c)
    ensures Less(a, c)
  {
    LexTriple(NatLess, a.numbers, b.numbers, c.numbers);
    LexTriple(NatLess, a.numbers, b.numbers, a.numbers);
    if a.preRelease.Some? && b.preRelease.Some? && c.preRelease.Some? {
      IdentifierLessIsTotal();
      LexTriple(IdentifierLess, a.preRelease.value, b.preRelease.value, c.preRelease.value);
    }
  }

  // Equal versions are interchangeable in every comparison.
  lemma EqualIsCongruence(a: Data, a': Data, b: Data, b': Data)
    requires Equal(a, a') && Equal(b, b')
    ensures Less(a, b) == Less(a', b') && Equal(a, b) == Equal(a', b')
  {
  }

  // <= and >= are the total preorders that belong to < and ==.
  lemma TotalPreorder(a: Data, b: Data, c: Data)
    ensures LessOrEqual(a, b) <==> !Less(b, a)
    ensures GreaterOrEqual(a, b) <==> LessOrEqual(b, a)
    ensures LessOrEqual(a, b) || LessOrEqual(b, a)
    ensures LessOrEqual(a, b) && LessOrEqual(b, a) <==> Equal(a, b)
    ensures LessOrEqual(a, b) && LessOrEqual(b, c) ==> LessOrEqual(a, c)
  {
    Trichotomy(a, b);
    if Less(a, b) && Less(b, c) {
      LessTransitive(a, b, c);
    } else if LessOrEqual(a, b) && LessOrEqual(b, c) {
      EqualIsCongruence(a, a, b, if Equal(b, c) then c else b);
      EqualIsCongruence(a, if Equal(a, b) then b else a, c, c);
    }
  }

  // ----- Semantic Versioning 2.0.0, section 11 -----

  predicate IsNumeric(x: Identifier) {
    x.Number? || AllDigits(x.text)
  }

  function NumericValue(x: Identifier): nat
    requires IsNumeric(x)
  {
    match x
    case Number(n) => n
    case Text(t) => ValueOf(t)
  }

  // Numeric identifiers compare numerically, the others in ASCII order, and numeric ones come
  // first.
  ghost predicate SemVerIdentifierLess(x: Identifier, y: Identifier) {
    if IsNumeric(x) && IsNumeric(y) then NumericValue(x) < NumericValue(y)
    else if IsNumeric(x) || IsNumeric(y) then IsNumeric(x)
    else Before(AsciiLess, x.text, y.text)
  }

  predicate AsciiLess(c: char, d: char) {
    c as int < d as int
  }

  ghost predicate SemVerLess(a: Data, b: Data)
    requires |a.numbers| == |b.numbers| == 3
  {
    var (major, minor, patch) := (a.numbers[0], a.numbers[1], a.numbers[2]);
    var (major', minor', patch') := (b.numbers[0], b.numbers[1], b.numbers[2]);
    || major < major'
    || (major == major' && (minor < minor' || (minor == minor' && patch < patch')))
    || (a.numbers == b.numbers && a.preRelease.Some? &&
        (b.preRelease.None? || Before(SemVerIdentifierLess, a.preRelease.value, b.preRelease.value)))
  }

  // Every all-digit pre-release identifier fits in an `unsigned`, so that it was read as a number.
  predicate DigitsFit(d: Data) {
    d.preRelease.Some? ==> forall x <- d.preRelease.value :: x.Text? ==> !AllDigits(x.text)
  }

  lemma IdentifiersAgree(x: Identifier, y: Identifier)
    requires x.Text? ==> !AllDigits(x.text)
    requires y.Text? ==> !AllDigits(y.text)
    ensures IdentifierLess(x, y) <==> SemVerIdentifierLess(x, y)
  {
    if x.Text? && y.Text? {
      LexIsBefore(CharLess, x.text, y.text);
      forall k: nat
        ensures FirstDifference(CharLess, x.text, y.text, k) <==> FirstDifference(AsciiLess, x.text, y.text, k)
      {
      }
    }
  }

  lemma SemVerAgreement(a: Data, b: Data)
    requires |a.numbers| == |b.numbers| == 3 && DigitsFit(a) && DigitsFit(b)
    ensures Less(a, b) <==> SemVerLess(a, b)
  {
    LessMeaning(a, b);
    var (m, n) := (a.numbers, b.numbers);
    CoreOrder(m, n);
    if a.preRelease.Some? && b.preRelease.Some? {
      var (xs, ys) := (a.preRelease.value, b.preRelease.value);
      forall k: nat
        ensures FirstDifference(IdentifierLess, xs, ys, k) <==> FirstDifference(SemVerIdentifierLess, xs, ys, k)
      {
        if k < |xs| && k < |ys| {
          assert xs[k] in xs && ys[k] in ys;
          IdentifiersAgree(xs[k], ys[k]);
        }
      }
    }
  }

  lemma CoreOrder(m: seq<nat>, n: seq<nat>)
    requires |m| == |n| == 3
    ensures Before(NatLess, m, n) <==>
            m[0] < n[0] || (m[0] == n[0] && (m[1] < n[1] || (m[1] == n[1] && m[2] < n[2])))
  {
    LexIsBefore(NatLess, m, n);
    assert LexLess(NatLess, m[1..], n[1..]) <==>
           m[1] < n[1] || (m[1] == n[1] && LexLess(NatLess, m[2..], n[2..])) by {
      assert m[1..][1..] == m[2..] && n[1..][1..] == n[2..];
    }
    assert LexLess(NatLess, m[2..], n[2..]) <==> m[2] < n[2];
  }

  // The versions that d is to be compared with.
  ghost predicate Comparable(e: Data) {
    Parseable(e) && |e.numbers| == 3 && DigitsFit(e)
  }

  ghost predicate AgreesWith(d: Data, e: Data)
    requires |d.numbers| == |e.numbers| == 3
  {
    (Less(d, e) <==> SemVerLess(d, e)) && (Less(e, d) <==> SemVerLess(e, d))
  }

  // The condition is exact: a parsed three-number version is ordered as the standard says against
  // all such versions if and only if its all-digit pre-release identifiers fit in an `unsigned`.
  lemma SemVerExactly(d: Data)
    ensures Parseable(d) && |d.numbers| == 3 ==>
              (DigitsFit(d) <==> forall e | Comparable(e) :: AgreesWith(d, e))
  {
    if |d.numbers| == 3 && DigitsFit(d) {
      forall e | Comparable(e) ensures AgreesWith(d, e) {
        SemVerAgreement(d, e);
        SemVerAgreement(e, d);
      }
    } else if Parseable(d) && |d.numbers| == 3 {
      var e := Misordered(d);
    }
  }

  // An overflowing identifier is compared as text: a hyphen comes before it, although the standard
  // puts every number before every non-number.
  lemma Misordered(d: Data) returns (e: Data)
    requires Parseable(d) && |d.numbers| == 3 && !DigitsFit(d)
    ensures Comparable(e) && Less(e, d) && SemVerLess(d, e) && !AgreesWith(d, e)
  {
    var xs := d.preRelease.value;
    var k := FirstOverflow(xs);
    var ys := xs[..k] + [Text("-")];
    e := Data(d.numbers, Some(ys), None);
    TruncatedParses(d, k);
    assert IsIdentifier(xs[k].text) by {
      RoundTrip(d);
      assert IsElement(xs[k]);
    }
    assert FirstDifference(IdentifierLess, ys, xs, k) by {
      assert CharLess('-', xs[k].text[0]);
      assert LexLess(CharLess, "-", xs[k].text);
    }
    assert !AllDigits("-") by { assert !IsDigit("-"[0]); }
    assert FirstDifference(SemVerIdentifierLess, xs, ys, k);
    LessMeaning(e, d);
    Trichotomy(d, e);
    assert DigitsFit(e) by {
      forall y <- ys ensures y.Text? ==> !AllDigits(y.text) {
        if y in xs[..k] {
          var i :| 0 <= i < k && xs[..k][i] == y;
        }
      }
    }
  }

  lemma FirstOverflow(xs: seq<Identifier>) returns (k: nat)
    requires exists x <- xs :: x.Text? && AllDigits(x.text)
    ensures k < |xs| && xs[k].Text? && AllDigits(xs[k].text)
    ensures forall i :: 0 <= i < k ==> xs[i].Text? ==> !AllDigits(xs[i].text)
  {
    k := 0;
    while !(xs[k].Text? && AllDigits(xs[k].text))
      invariant 0 <= k < |xs|
      invariant forall i :: 0 <= i < k ==> xs[i].Text? ==> !AllDigits(xs[i].text)
      invariant exists i :: k <= i < |xs| && xs[i].Text? && AllDigits(xs[i].text)
      decreases |xs| - k
    {
      k := k + 1;
    }
  }

  // Cutting the pre-release of a parsed version off at k and putting a hyphen there gives a
  // parsed version.
  lemma TruncatedParses(d: Data, k: nat)
    requires Parseable(d) && d.preRelease.Some? && k < |d.preRelease.value|
    ensures Parseable(Data(d.numbers, Some(d.preRelease.value[..k] + [Text("-")]), None))
  {
    var e := Data(d.numbers, Some(d.preRelease.value[..k] + [Text("-")]), None);
    RoundTrip(d);
    RoundTrip(e);
    assert ReadsAsText("-") by { assert !IsDigit("-"[0]); }
    assert WellFormed(e);
  }
}
