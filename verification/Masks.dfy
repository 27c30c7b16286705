// Ring arithmetic: masking with a power of two less one is the remainder.

module Masks {
  /** Bitwise and, on unbounded naturals. */
  function And(a: nat, b: nat): nat {
    if a == 0 || b == 0 then 0 else (a % 2) * (b % 2) + 2 * And(a / 2, b / 2)
  }

  /** The compile-time check on the queue's size. */
  predicate GoodSize(size: nat) {
    size > 1 && And(size, size - 1) == 0
  }

  function Pow2(e: nat): nat {
    if e == 0 then 1 else 2 * Pow2(e - 1)
  }

  lemma {:induction false} AndSelf(a: nat)
    ensures And(a, a) == a
  {
    if a != 0 {
      AndSelf(a / 2);
      assert a % 2 == 0 || a % 2 == 1;
    }
  }

  lemma {:induction false} HalfSize(size: nat)
    requires size > 1 && And(size, size - 1) == 0
    ensures size % 2 == 0 && And(size / 2, size / 2 - 1) == 0
  {
    if size % 2 == 1 {
      assert (size - 1) / 2 == size / 2;
      AndSelf(size / 2);
    } else {
      assert (size - 1) / 2 == size / 2 - 1;
    }
  }

  lemma {:induction false} Pow2And(e: nat)
    ensures Pow2(e) >= 1 && And(Pow2(e), Pow2(e) - 1) == 0
  {
    if e > 0 {
      Pow2And(e - 1);
      var h := Pow2(e - 1);
      assert 2 * h % 2 == 0 && 2 * h / 2 == h && (2 * h - 1) / 2 == h - 1;
    }
  }

  /** The check passes exactly for the powers of two greater than 1. */
  lemma {:induction false} GoodSizeIsPowerOfTwo(size: nat)
    ensures GoodSize(size) <==> exists e :: e > 0 && size == Pow2(e)
  {
    if GoodSize(size) {
      var e := Exponent(size);
    }
    forall e: nat | e > 0 && size == Pow2(e)
      ensures GoodSize(size)
    {
      Pow2And(e);
      Pow2And(e - 1);
    }
  }

  lemma {:induction false} Exponent(size: nat) returns (e: nat)
    requires size >= 1 && And(size, size - 1) == 0
    ensures size == Pow2(e) && (size > 1 ==> e > 0)
  {
    e := 0;
    if size > 1 {
      HalfSize(size);
      var d := Exponent(size / 2);
      e := d + 1;
    }
  }

  lemma DoubleMod(x: nat, h: nat)
    requires h > 0
    ensures x % (2 * h) == x % 2 + 2 * (x / 2 % h)
  {
    var q, r := x / 2 / h, x / 2 % h;
    assert x / 2 == q * h + r;
    assert x == 2 * (q * h + r) + x % 2;
    UniqueRemainder(x, 2 * h, q, 2 * r + x % 2);
  }

  lemma Multiple(d: int, m: nat)
    ensures d >= 1 ==> d * m >= m
    ensures d >= 2 ==> d * m >= 2 * m
    ensures d <= -1 ==> d * m + m <= 0
  {
  }

  lemma UniqueRemainder(x: nat, m: nat, q: nat, r: nat)
    requires m > 0 && r < m && x == q * m + r
    ensures x % m == r && x / m == q
  {
    var q', r' := x / m, x % m;
    var d: int := q' - q;
    assert d * m == q' * m - q * m;
    assert d * m == r - r';
    Multiple(d, m);
  }

  /** `x & (size - 1)` is `x % size` for every size that passes the check. */
  lemma {:induction false} MaskIsMod(x: nat, size: nat)
    requires size >= 1 && And(size, size - 1) == 0
    ensures And(x, size - 1) == x % size
    decreases size
  {
    if size > 1 {
      HalfSize(size);
      var h := size / 2;
      assert (size - 1) % 2 == 1 && (size - 1) / 2 == h - 1;
      MaskIsMod(x / 2, h);
      DoubleMod(x, h);
    }
  }

  /** Two counts that are less than a full turn apart share a slot only when they are equal. */
  lemma SameSlot(i: nat, j: nat, size: nat)
    requires size > 0 && i <= j < i + size
    ensures i % size == j % size <==> i == j
  {
    if i % size == j % size {
      var d: int := j / size - i / size;
      assert d * size == j / size * size - i / size * size;
      assert d * size == j - i;
      Multiple(d, size);
    }
  }

  /** The index after the newest one meets the oldest one exactly when the ring is full. */
  lemma FullTurn(i: nat, j: nat, size: nat)
    requires size > 1 && i <= j < i + size
    ensures (j + 1) % size == i % size <==> j + 1 == i + size
  {
    if j + 1 == i + size {
      var q, r := i / size, i % size;
      assert j + 1 == q * size + r + size;
      assert (q + 1) * size == q * size + size;
      UniqueRemainder(j + 1, size, q + 1, r);
    } else {
      SameSlot(i, j + 1, size);
    }
  }

  /** Stepping an index is stepping its count. */
  lemma NextSlot(count: nat, size: nat)
    requires size > 1
    ensures (count % size + 1) % size == (count + 1) % size
  {
    var q, r := count / size, count % size;
    assert count == q * size + r;
    if r + 1 < size {
      UniqueRemainder(count + 1, size, q, r + 1);
      UniqueRemainder(r + 1, size, 0, r + 1);
    } else {
      assert count + 1 == (q + 1) * size;
      UniqueRemainder(count + 1, size, q + 1, 0);
      UniqueRemainder(r + 1, size, 1, 0);
    }
  }

  /** The distance between two indices, computed with wrap-around, is the distance between the counts. */
  lemma Distance(read: nat, write: nat, size: nat)
    requires size > 1 && read <= write < read + size
    ensures var r, w := read % size, write % size;
            write - read == if w >= r then w - r else size - r + w
  {
    var r, w, d: int := read % size, write % size, write / size - read / size;
    assert d * size == write / size * size - read / size * size;
    assert write - read == d * size + (w - r);
    Multiple(d, size);
  }

  /** The test for a full ring, as it is computed from the two indices. */
  lemma FullMask(read: nat, write: nat, size: nat)
    requires GoodSize(size) && read <= write < read + size
    ensures And(write % size + 1, size - 1) == read % size <==> write - read == size - 1
  {
    hide And, GoodSize;
    GoodMask(write % size + 1, size);
    NextSlot(write, size);
    FullTurn(read, write, size);
  }

  lemma GoodMask(x: nat, size: nat)
    requires GoodSize(size)
    ensures size > 1 && And(x, size - 1) == x % size
  {
    MaskIsMod(x, size);
  }
}
