// The bitwise operators & and ^ on unsigned numbers, defined bit by bit, and what they do with a
// power of two and with the mask below it.
module Bits {

  function And(x: nat, y: nat): nat
    decreases x
  {
    if x == 0 || y == 0 then 0
    else 2 * And(x / 2, y / 2) + (if x % 2 == 1 && y % 2 == 1 then 1 else 0)
  }

  function Xor(x: nat, y: nat): nat
    decreases x + y
  {
    if x == 0 && y == 0 then 0
    else 2 * Xor(x / 2, y / 2) + (if x % 2 != y % 2 then 1 else 0)
  }

  predicate IsPow2(n: nat) {
    n > 0 && (n == 1 || (n % 2 == 0 && IsPow2(n / 2)))
  }

  // x % 2m, from the lowest bit and the rest.
  lemma ModDouble(x: nat, m: nat)
    requires m > 0
    ensures x % (2 * m) == 2 * ((x / 2) % m) + x % 2
  {
    var q, r := (x / 2) / m, (x / 2) % m;
    assert x == 2 * (q * m + r) + x % 2 == q * (2 * m) + (2 * r + x % 2);
    ModUnique(x, 2 * m, q, 2 * r + x % 2);
  }

  lemma MulAtLeast(a: int, m: nat)
    requires a >= 1
    ensures a * m >= m
  {
  }

  lemma ModUnique(x: int, m: nat, q: int, r: int)
    requires m > 0 && 0 <= r < m && x == q * m + r
    ensures x % m == r && x / m == q
  {
    var q', r' := x / m, x % m;
    assert x == q' * m + r' && 0 <= r' < m;
    assert (q - q') * m == q * m - q' * m == r' - r;
    assert (q' - q) * m == r - r';
    if q' < q {
      MulAtLeast(q - q', m);
    } else if q' > q {
      MulAtLeast(q' - q, m);
    }
  }

  // Masking with p - 1 takes the remainder by a power of two p.
  lemma {:induction false} AndMask(x: nat, p: nat)
    requires IsPow2(p)
    ensures And(x, p - 1) == x % p
    decreases p
  {
    if x == 0 {
      assert x % p == 0;
    } else if p == 1 {
    } else {
      var h := p / 2;
      AndMask(x / 2, h);
      ModDouble(x, h);
      assert (p - 1) / 2 == h - 1 && (p - 1) % 2 == 1;
    }
  }

  // Flipping the bit p moves a number below 2p by p, up or down.
  lemma {:induction false} XorBit(x: nat, p: nat)
    requires IsPow2(p) && x < 2 * p
    ensures Xor(x, p) == if x < p then x + p else x - p
    decreases p
  {
    if p == 1 {
      assert Xor(0, 0) == 0;
    } else {
      XorBit(x / 2, p / 2);
    }
  }

  // Masking with n - 1 keeps the first n numbers apart only if n is a power of two: otherwise n - 1
  // has a zero bit below its top bit, and masking loses it.
  lemma {:induction false} MaskCollides(n: nat) returns (i: nat)
    requires n > 0 && !IsPow2(n)
    ensures 0 < i < n && And(i, n - 1) == 0
  {
    if n % 2 == 1 {
      i := 1;
      assert And(i / 2, (n - 1) / 2) == 0;
    } else {
      var j := MaskCollides(n / 2);
      i := 2 * j;
      assert (n - 1) / 2 == n / 2 - 1;
    }
  }

  // The array cell that the ring buffer uses for an index.
  function Cell(i: nat, n: nat): nat
    requires n > 0
  {
    And(i, n - 1)
  }

  lemma MaskSeparatesIffPow2(n: nat)
    requires n > 0
    ensures IsPow2(n) <==> forall i: nat, j: nat | i < j < n :: Cell(i, n) != Cell(j, n)
  {
    if IsPow2(n) {
      forall i: nat, j: nat | i < j < n ensures Cell(i, n) != Cell(j, n) {
        CellOfSmall(i, n);
        CellOfSmall(j, n);
      }
    } else {
      var i := MaskCollides(n);
      assert Cell(0, n) == Cell(i, n);
    }
  }

  lemma CellIsMod(i: nat, n: nat)
    requires IsPow2(n)
    ensures Cell(i, n) == i % n
  {
    AndMask(i, n);
  }

  lemma CellOfSmall(i: nat, n: nat)
    requires IsPow2(n) && i < n
    ensures Cell(i, n) == i
  {
    CellIsMod(i, n);
    ModUnique(i, n, 0, i);
  }

  lemma {:induction false} Pow2Product(p: nat, r: nat)
    requires IsPow2(p) && IsPow2(r)
    ensures IsPow2(p * r)
    decreases p
  {
    if p == 1 {
    } else {
      var h := p / 2;
      Pow2Product(h, r);
      var m := h * r;
      assert p * r == 2 * m by { assert p == 2 * h; }
      assert IsPow2(2 * m);
    }
  }

  // A power of two that does not exceed another one divides it.
  lemma {:induction false} Pow2Divides(p: nat, r: nat)
    requires IsPow2(p) && IsPow2(r) && p <= r
    ensures r % p == 0
    decreases p
  {
    if p == 1 {
    } else {
      Pow2Divides(p / 2, r / 2);
      ModDouble(r, p / 2);
    }
  }

  // Reducing by a multiple of m first does not change the remainder by m.
  lemma ModOfMod(x: int, w: nat, m: nat)
    requires m > 0 && w > 0 && w % m == 0
    ensures (x % w) % m == x % m
  {
    var c, q := w / m, x / w;
    var d, r := (x % w) / m, (x % w) % m;
    assert x == q * w + (x % w) && w == c * m && x % w == d * m + r;
    assert q * (c * m) == (q * c) * m;
    assert x == (q * c + d) * m + r;
    ModUnique(x, m, q * c + d, r);
  }
}
