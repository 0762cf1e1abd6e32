// The power-of-two ring buffer: begin and end run through twice the capacity, so that full and
// empty differ in one bit, and a push onto a full buffer overwrites the element at the far end.
module PotRingbuffer {
  import opened Bits

  // ----- index arithmetic -----

  // The number of values of size_t, and the conversion of a mathematical result to size_t.
  const WORD: int := 0x1_0000_0000_0000_0000

  function Word(x: int): nat {
    x % WORD
  }

  // What the class demands of its capacity: twice of it still fits, wrapped to zero if need be.
  predicate IsCapacity(n: nat) {
    n % 2 == 0 && IsPow2(n) && 2 * n <= WORD
  }

  // add(), with the wrapping addition and the mask 2 * N - 1
  function Add(x: nat, amount: nat, n: nat): nat
    requires n > 0
  {
    And(Word(x + amount), 2 * n - 1)
  }

  function Incr(x: nat, n: nat): nat
    requires n > 0
  {
    Add(x, 1, n)
  }

  function Decr(x: nat, n: nat): nat
    requires n > 0
  {
    Add(x, Word(-1), n)
  }

  predicate IsFull(begin: nat, end: nat, n: nat) {
    Xor(begin, n) == end
  }

  function SizeOf(begin: nat, end: nat, n: nat): nat
    requires n > 0
  {
    if IsFull(begin, end, n) then n else And(Word(end - begin), n - 1)
  }

  // wrappedAccess(): the cell for an index that has wrapped around in size_t arithmetic
  function Wrapped(index: int, n: nat): nat
    requires n > 0
  {
    Cell(Word(index), n)
  }

  // The invariant of the two counters.
  predicate Counters(begin: nat, end: nat, n: nat)
    requires n > 0
  {
    begin < 2 * n && end < 2 * n && Distance(begin, end, n) <= n
  }

  // How far end is ahead of begin on the circle of 2N.
  function Distance(begin: nat, end: nat, n: nat): nat
    requires n > 0
  {
    (end - begin) % (2 * n)
  }

  lemma WordIsPow2()
    ensures IsPow2(WORD)
  {
    assert IsPow2(0x10000);
    Pow2Product(0x10000, 0x10000);
    Pow2Product(0x1_0000_0000, 0x1_0000_0000);
  }

  lemma WordMod(x: int, m: nat)
    requires IsPow2(m) && m <= WORD
    ensures Word(x) % m == x % m
  {
    WordIsPow2();
    Pow2Divides(m, WORD);
    ModOfMod(x, WORD, m);
  }

  lemma AddMod(x: nat, amount: int, n: nat)
    requires IsCapacity(n)
    ensures Add(x, Word(amount), n) == (x + amount) % (2 * n)
  {
    var s := x + Word(amount);
    AndMask(Word(s), 2 * n);
    WordMod(s, 2 * n);
    WordMod(amount, 2 * n);
    ModShift(x, amount, Word(amount), 2 * n);
  }

  // Numbers with the same remainder stay that way when the same is added to them.
  lemma ModShift(x: int, a: int, b: int, m: nat)
    requires m > 0 && a % m == b % m
    ensures (x + a) % m == (x + b) % m
  {
    var q := (x + a) / m;
    var d := a / m - b / m;
    assert a - b == (a / m) * m - (b / m) * m == d * m;
    assert x + b == q * m + (x + a) % m - d * m == (q - d) * m + (x + a) % m;
    ModUnique(x + b, m, q - d, (x + a) % m);
  }

  lemma WrappedMod(index: int, n: nat)
    requires IsCapacity(n)
    ensures Wrapped(index, n) == index % n
  {
    CellIsMod(Word(index), n);
    WordMod(index, n);
  }

  // The counters as a distance: end is begin plus the distance, wrapped once at most.
  lemma DistanceMeaning(begin: nat, end: nat, n: nat)
    requires n > 0 && begin < 2 * n && end < 2 * n
    ensures Distance(begin, end, n) == if begin <= end then end - begin else end - begin + 2 * n
  {
    if begin <= end {
      ModUnique(end - begin, 2 * n, 0, end - begin);
    } else {
      ModUnique(end - begin, 2 * n, -1, end - begin + 2 * n);
    }
  }

  // (begin ^ N) == end tests the distance for N, and size() is the distance.
  lemma SizeIsDistance(begin: nat, end: nat, n: nat)
    requires IsCapacity(n) && Counters(begin, end, n)
    ensures IsFull(begin, end, n) <==> Distance(begin, end, n) == n
    ensures SizeOf(begin, end, n) == Distance(begin, end, n)
    ensures begin == end <==> Distance(begin, end, n) == 0
  {
    XorBit(begin, n);
    DistanceMeaning(begin, end, n);
    var d := Distance(begin, end, n);
    if d < n {
      WrappedMod(end - begin, n);
      if begin <= end {
        ModUnique(end - begin, n, 0, d);
      } else {
        ModUnique(end - begin, n, -2, d);
      }
    }
  }

  // Moving a counter by one moves the distance by one.
  lemma MoveEnd(begin: nat, end: nat, n: nat)
    requires IsCapacity(n) && Counters(begin, end, n)
    ensures var d := Distance(begin, end, n);
            && (d < n ==> Counters(begin, Incr(end, n), n) && Distance(begin, Incr(end, n), n) == d + 1)
            && (d > 0 ==> Counters(begin, Decr(end, n), n) && Distance(begin, Decr(end, n), n) == d - 1)
  {
    CounterMoves(end, n);
    DistanceMeaning(begin, end, n);
    DistanceMeaning(begin, Incr(end, n), n);
    DistanceMeaning(begin, Decr(end, n), n);
  }

  lemma MoveBegin(begin: nat, end: nat, n: nat)
    requires IsCapacity(n) && Counters(begin, end, n)
    ensures var d := Distance(begin, end, n);
            && (d > 0 ==> Counters(Incr(begin, n), end, n) && Distance(Incr(begin, n), end, n) == d - 1)
            && (d < n ==> Counters(Decr(begin, n), end, n) && Distance(Decr(begin, n), end, n) == d + 1)
  {
    CounterMoves(begin, n);
    DistanceMeaning(begin, end, n);
    DistanceMeaning(Incr(begin, n), end, n);
    DistanceMeaning(Decr(begin, n), end, n);
  }

  lemma CounterMoves(x: nat, n: nat)
    requires IsCapacity(n) && x < 2 * n
    ensures Incr(x, n) == if x + 1 == 2 * n then 0 else x + 1
    ensures Decr(x, n) == if x == 0 then 2 * n - 1 else x - 1
  {
    AddMod(x, 1, n);
    AddMod(x, -1, n);
    assert Word(1) == 1;
    if x + 1 == 2 * n { ModUnique(x + 1, 2 * n, 1, 0); } else { ModUnique(x + 1, 2 * n, 0, x + 1); }
    if x == 0 { ModUnique(x - 1, 2 * n, -1, 2 * n - 1); } else { ModUnique(x - 1, 2 * n, 0, x - 1); }
  }

  // The cell of the i-th element.
  function Slot(begin: nat, i: int, n: nat): (cell: nat)
    requires n > 0
    ensures cell < n
  {
    (begin + i) % n
  }

  // Cells repeat every N elements, and within N elements they are all different.
  lemma SlotsDiffer(begin: nat, i: int, j: int, n: nat)
    requires n > 0
    ensures Slot(begin, i, n) == Slot(begin, j, n) <==> i % n == j % n
    ensures 0 <= i < n && 0 <= j < n && i != j ==> Slot(begin, i, n) != Slot(begin, j, n)
  {
    if i % n == j % n { ModShift(begin, i, j, n); }
    if Slot(begin, i, n) == Slot(begin, j, n) { ModShift(0 - begin, begin + i, begin + j, n); }
    if 0 <= i < n && 0 <= j < n {
      ModUnique(i, n, 0, i);
      ModUnique(j, n, 0, j);
    }
  }

  // reverseAt(i) and at(size - i) name the same cell, also when mEnd - i wraps around.
  lemma ReverseNamesSame(begin: nat, end: nat, i: nat, n: nat)
    requires IsCapacity(n) && Counters(begin, end, n) && i < WORD
    ensures Wrapped(end - i, n) == Slot(begin, SizeOf(begin, end, n) - i, n)
    ensures 1 <= i <= SizeOf(begin, end, n) ==> Wrapped(end - i, n) == Wrapped(begin + (SizeOf(begin, end, n) - i), n)
  {
    SizeIsDistance(begin, end, n);
    DistanceMeaning(begin, end, n);
    var d := Distance(begin, end, n);
    WrappedMod(end - i, n);
    WrappedMod(begin + (d - i), n);
    if begin > end {
      ModUnique(2 * n, n, 2, 0);
      ModUnique(0, n, 0, 0);
      ModShift(end - i, 0, 2 * n, n);
    }
  }

  // Moving begin shifts the cells of the elements.
  lemma SlotShift(begin: nat, i: int, n: nat)
    requires IsCapacity(n) && begin < 2 * n
    ensures Slot(Incr(begin, n), i, n) == Slot(begin, i + 1, n)
    ensures Slot(Decr(begin, n), i, n) == Slot(begin, i - 1, n)
  {
    CounterMoves(begin, n);
    MovedSlot(Incr(begin, n), i, begin, i + 1, n);
    MovedSlot(Decr(begin, n), i, begin, i - 1, n);
  }

  lemma MovedSlot(b: nat, i: int, c: nat, j: int, n: nat)
    requires n > 0 && (b + i == c + j || b + i == c + j + 2 * n || b + i + 2 * n == c + j)
    ensures Slot(b, i, n) == Slot(c, j, n)
  {
    if b + i == c + j + 2 * n {
      AroundCircle(c + j, n, b + i);
    } else if b + i + 2 * n == c + j {
      AroundCircle(b + i, n, c + j);
    }
  }

  lemma AroundCircle(x: int, n: nat, y: int)
    requires n > 0 && y == x + 2 * n
    ensures x % n == y % n
  {
    var q, r := x / n, x % n;
    assert y == (q + 2) * n + r;
    ModUnique(y, n, q + 2, r);
  }

  // ----- the elements -----

  // The d elements from begin on, in an array of n cells.
  function Elements<T>(cells: seq<T>, begin: nat, d: nat, n: nat): (c: seq<T>)
    requires 0 < n == |cells|
    ensures |c| == d && forall i :: 0 <= i < d ==> c[i] == cells[Slot(begin, i, n)]
  {
    seq(d, i requires 0 <= i => cells[Slot(begin, i, n)])
  }

  lemma ElementsWritten<T>(cells: seq<T>, begin: nat, d: nat, n: nat, i: nat, x: T)
    requires 0 < n == |cells| && d <= n && i < n
    ensures Elements(cells[Slot(begin, i, n) := x], begin, d, n) ==
            if i < d then Elements(cells, begin, d, n)[i := x] else Elements(cells, begin, d, n)
  {
    hide Slot;
    forall j: nat | j < n && j != i ensures Slot(begin, j, n) != Slot(begin, i, n) {
      SlotsDiffer(begin, i, j, n);
    }
  }

  lemma ElementsShifted<T>(cells: seq<T>, begin: nat, d: nat, n: nat)
    requires IsCapacity(n) && n == |cells| && begin < 2 * n
    ensures d > 0 ==> Elements(cells, Incr(begin, n), d - 1, n) == Elements(cells, begin, d, n)[1..]
    ensures Elements(cells, Decr(begin, n), d + 1, n)[1..] == Elements(cells, begin, d, n)
  {
    hide Slot;
    forall i: int
      ensures Slot(Incr(begin, n), i, n) == Slot(begin, i + 1, n)
      ensures Slot(Decr(begin, n), i, n) == Slot(begin, i - 1, n)
    {
      SlotShift(begin, i, n);
    }
  }

  // The cell that at(index) names, for any index.
  lemma AtNames(begin: nat, index: nat, n: nat)
    requires IsCapacity(n)
    ensures index % n < n && Wrapped(begin + index, n) == Slot(begin, index % n, n)
  {
    WrappedMod(begin + index, n);
    ModUnique(index % n, n, 0, index % n);
    SlotsDiffer(begin, index, index % n, n);
  }

  // The cell that reverseAt(index) names.
  lemma ReverseAtNames(begin: nat, end: nat, index: nat, n: nat)
    requires IsCapacity(n) && Counters(begin, end, n) && 1 <= index <= Distance(begin, end, n)
    ensures Wrapped(end - index, n) == Slot(begin, Distance(begin, end, n) - index, n)
  {
    assert 2 * n <= WORD;
    SizeIsDistance(begin, end, n);
    ReverseNamesSame(begin, end, index, n);
  }

  // ----- the abstract deque -----

  function PushedBack<T>(c: seq<T>, n: nat, x: T): seq<T>
    requires 0 < n
  {
    if |c| == n then c[1..] + [x] else c + [x]
  }

  function PushedFront<T>(c: seq<T>, n: nat, x: T): seq<T>
    requires 0 < n
  {
    if |c| == n then [x] + c[..n - 1] else [x] + c
  }

  function PushedBackAll<T>(c: seq<T>, n: nat, xs: seq<T>): seq<T>
    requires 0 < n
    decreases |xs|
  {
    if xs == [] then c else PushedBackAll(PushedBack(c, n, xs[0]), n, xs[1..])
  }

  function Last<T>(s: seq<T>, n: nat): seq<T> {
    if |s| <= n then s else s[|s| - n..]
  }

  function Reverse<T>(s: seq<T>): (r: seq<T>)
    ensures |r| == |s| && forall i :: 0 <= i < |s| ==> r[i] == s[|s| - 1 - i]
  {
    seq(|s|, i requires 0 <= i < |s| => s[|s| - 1 - i])
  }

  // A run of pushBack keeps the last N elements of everything.
  lemma {:induction false} KeepsLast<T>(c: seq<T>, n: nat, xs: seq<T>)
    requires 0 < n && |c| <= n
    ensures PushedBackAll(c, n, xs) == Last(c + xs, n)
    decreases |xs|
  {
    if xs == [] {
      assert c + xs == c;
    } else {
      var c' := PushedBack(c, n, xs[0]);
      KeepsLast(c', n, xs[1..]);
      if |c| == n {
        assert (c + xs)[1..] == c' + xs[1..];
      } else {
        assert c + xs == c' + xs[1..];
      }
    }
  }

  // pushFront is pushBack seen from the other end.
  lemma PushesMirror<T>(c: seq<T>, n: nat, x: T)
    requires 0 < n && |c| <= n
    ensures Reverse(PushedFront(c, n, x)) == PushedBack(Reverse(c), n, x)
  {
  }

  // ----- the class -----

  class PotRingbuffer<T(0)> {
    const N: nat
    var mBegin: nat
    var mEnd: nat
    const mData: array<T>

    ghost predicate Valid()
      reads this
    {
      IsCapacity(N) && mData.Length == N && Counters(mBegin, mEnd, N)
    }

    // The elements from front to back.
    ghost function Contents(): (c: seq<T>)
      requires Valid()
      reads this, mData
    {
      Elements(mData[..], mBegin, Distance(mBegin, mEnd, N), N)
    }

    constructor (n: nat)
      requires IsCapacity(n)
      ensures Valid() && N == n && Contents() == [] && fresh(mData)
    {
      N := n;
      mBegin, mEnd := 0, 0;
      mData := new T[n];
      new;
      DistanceMeaning(0, 0, n);
    }

    method Capacity() returns (n: nat)
      ensures n == N
    {
      n := N;
    }

    method Size() returns (n: nat)
      requires Valid()
      ensures n == |Contents()|
    {
      SizeIsDistance(mBegin, mEnd, N);
      n := SizeOf(mBegin, mEnd, N);
    }

    method Empty() returns (b: bool)
      requires Valid()
      ensures b <==> Contents() == []
    {
      SizeIsDistance(mBegin, mEnd, N);
      b := mBegin == mEnd;
    }

    method Full() returns (b: bool)
      requires Valid()
      ensures b <==> |Contents()| == N
    {
      SizeIsDistance(mBegin, mEnd, N);
      b := IsFull(mBegin, mEnd, N);
    }

    // Reading through at(): any index is taken around the circle of N cells.
    method At(index: nat) returns (x: T)
      requires Valid()
      ensures index % N < |Contents()| ==> x == Contents()[index % N]
    {
      hide Slot, Wrapped;
      AtNames(mBegin, index, N);
      x := mData[Wrapped(mBegin + index, N)];
    }

    // Writing through at(): only that one element changes, if the cell holds one.
    method SetAt(index: nat, x: T)
      requires Valid()
      modifies mData
      ensures Valid()
      ensures Contents() == if index % N < |old(Contents())| then old(Contents())[index % N := x] else old(Contents())
    {
      hide Slot, Wrapped;
      AtNames(mBegin, index, N);
      ElementsWritten(mData[..], mBegin, Distance(mBegin, mEnd, N), N, index % N, x);
      mData[Wrapped(mBegin + index, N)] := x;
      assert mData[..] == old(mData[..])[Slot(mBegin, index % N, N) := x];
    }

    method ReverseAt(index: nat) returns (x: T)
      requires Valid() && index < WORD
      ensures 1 <= index <= |Contents()| ==> x == Contents()[|Contents()| - index]
    {
      WrappedMod(mEnd - index, N);
      x := mData[Wrapped(mEnd - index, N)];
      if 1 <= index <= Distance(mBegin, mEnd, N) {
        ReverseAtNames(mBegin, mEnd, index, N);
      }
    }

    method Front() returns (x: T)
      requires Valid()
      ensures Contents() != [] ==> x == Contents()[0]
    {
      ModUnique(0, N, 0, 0);
      x := At(0);
    }

    method Back() returns (x: T)
      requires Valid()
      ensures Contents() != [] ==> x == Contents()[|Contents()| - 1]
    {
      x := ReverseAt(1);
    }

    // The assignment through back().
    method SetBack(x: T)
      requires Valid() && Contents() != []
      modifies mData
      ensures Valid()
      ensures Contents() == old(Contents())[|old(Contents())| - 1 := x]
    {
      hide Slot, Wrapped;
      ghost var d := Distance(mBegin, mEnd, N);
      ReverseAtNames(mBegin, mEnd, 1, N);
      ElementsWritten(mData[..], mBegin, d, N, d - 1, x);
      mData[Wrapped(mEnd - 1, N)] := x;
      assert mData[..] == old(mData[..])[Slot(mBegin, d - 1, N) := x];
    }

    // On a full buffer the first element gives way.
    method PushBack(x: T)
      requires Valid()
      modifies this, mData
      ensures Valid()
      ensures Contents() == PushedBack(old(Contents()), N, x)
    {
      SizeIsDistance(mBegin, mEnd, N);
      if IsFull(mBegin, mEnd, N) {
        MoveBegin(mBegin, mEnd, N);
        ElementsShifted(mData[..], mBegin, N, N);
        mBegin := Incr(mBegin, N);
      }
      ghost var c := Contents();
      MoveEnd(mBegin, mEnd, N);
      mEnd := Incr(mEnd, N);
      assert Contents()[..|c|] == c;
      SetBack(x);
    }

    // On a full buffer the last element gives way.
    method PushFront(x: T)
      requires Valid()
      modifies this, mData
      ensures Valid()
      ensures Contents() == PushedFront(old(Contents()), N, x)
    {
      SizeIsDistance(mBegin, mEnd, N);
      if IsFull(mBegin, mEnd, N) {
        MoveEnd(mBegin, mEnd, N);
        mEnd := Decr(mEnd, N);
        assert Contents() == old(Contents())[..N - 1];
      }
      ghost var c := Contents();
      MoveBegin(mBegin, mEnd, N);
      ElementsShifted(mData[..], mBegin, Distance(mBegin, mEnd, N), N);
      mBegin := Decr(mBegin, N);
      assert Contents()[1..] == c;
      ModUnique(0, N, 0, 0);
      SetAt(0, x);
      assert Contents() == [x] + c;
    }

    // The source asserts that the buffer is not empty.
    method PopFront()
      requires Valid() && Contents() != []
      modifies this`mBegin
      ensures Valid() && Contents() == old(Contents())[1..]
    {
      MoveBegin(mBegin, mEnd, N);
      ElementsShifted(mData[..], mBegin, Distance(mBegin, mEnd, N), N);
      mBegin := Incr(mBegin, N);
    }

    method PopBack()
      requires Valid() && Contents() != []
      modifies this`mEnd
      ensures Valid() && Contents() == old(Contents())[..|old(Contents())| - 1]
    {
      MoveEnd(mBegin, mEnd, N);
      mEnd := Decr(mEnd, N);
    }
  }

  // The compile-time assertion tests only that the capacity is even. The cells of N elements are
  // different, as the class needs, if and only if the capacity is a power of two.
  lemma EvenIsNotEnough(n: nat)
    requires 0 < n <= WORD && n % 2 == 0
    ensures IsPow2(n) <==> forall i: nat, j: nat | i < j < n :: Wrapped(i, n) != Wrapped(j, n)
  {
    MaskSeparatesIffPow2(n);
    assert forall i: nat :: i < n ==> Word(i) == i;
    if forall i: nat, j: nat | i < j < n :: Wrapped(i, n) != Wrapped(j, n) {
      forall i: nat, j: nat | i < j < n ensures Cell(i, n) != Cell(j, n) {
        assert Wrapped(i, n) != Wrapped(j, n);
      }
    }
  }

  // Six is even: three pushes onto such a buffer already share a cell.
  lemma SixCollides()
    ensures 6 % 2 == 0 && !IsPow2(6)
    ensures Wrapped(0, 6) == Wrapped(2, 6)
  {
    assert And(2, 5) == 0 by { assert And(0, 1) == 0; assert And(1, 2) == 0; }
  }
}
