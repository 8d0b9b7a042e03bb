/** Index arithmetic by bit mask: what `& (capacity - 1)` computes when the capacity is a power of two. */
module BitMask {

  const WORD := 0x1_0000_0000_0000_0000

  /** Bitwise conjunction of two unsigned integers. */
  function And(a: nat, b: nat): nat {
    if a == 0 || b == 0 then 0 else (a % 2) * (b % 2) + 2 * And(a / 2, b / 2)
  }

  function Pow2(k: nat): (p: nat)
    ensures p > 0
  {
    if k == 0 then 1 else 2 * Pow2(k - 1)
  }

  /** The compile-time check on a capacity: `c > 0 && (c & (c - 1)) == 0`. */
  predicate MaskOk(c: nat) {
    c > 0 && And(c, c - 1) == 0
  }

  lemma {:induction false} AndSelf(a: nat)
    ensures And(a, a) == a
  {
    if a != 0 {
      AndSelf(a / 2);
    }
  }

  lemma {:induction false} Pow2IsMaskOk(k: nat)
    ensures MaskOk(Pow2(k))
  {
    if k > 0 {
      Pow2IsMaskOk(k - 1);
      var p := Pow2(k - 1);
      assert (2 * p) % 2 == 0 && (2 * p) / 2 == p && (2 * p - 1) / 2 == p - 1;
    }
  }

  lemma {:induction false} MaskOkIsPow2(c: nat) returns (k: nat)
    requires MaskOk(c)
    ensures c == Pow2(k)
  {
    var m := c / 2;
    if c == 1 {
      k := 0;
    } else if c % 2 == 1 {
      assert (c - 1) / 2 == m;
      AndSelf(m);
      assert false;
    } else {
      assert (c - 1) / 2 == m - 1;
      k := MaskOkIsPow2(m);
      k := k + 1;
    }
  }

  /** The compile-time check accepts exactly the powers of two. */
  lemma MaskOkExactly(c: nat)
    ensures MaskOk(c) <==> exists k: nat :: c == Pow2(k)
  {
    if MaskOk(c) {
      var k := MaskOkIsPow2(c);
    }
    if k: nat :| c == Pow2(k) {
      Pow2IsMaskOk(k);
    }
  }

  lemma MultipleIsFar(d: int, m: int)
    requires d != 0 && m > 0
    ensures d * m >= m || d * m <= -m
  {
  }

  lemma ModIs(x: int, m: int, q: int, r: int)
    requires 0 <= r < m && x == q * m + r
    ensures x % m == r
  {
    var d := q - x / m;
    assert d * m == q * m - (x / m) * m == x % m - r;
    if d != 0 {
      MultipleIsFar(d, m);
    }
  }

  lemma HalvedMod(x: nat, p: nat)
    requires p > 0
    ensures x % (2 * p) == x % 2 + 2 * ((x / 2) % p)
  {
    var h := x / 2;
    var q, r := h / p, h % p;
    assert h == q * p + r;
    assert x == 2 * h + x % 2;
    assert q * (2 * p) == 2 * (q * p);
    ModIs(x, 2 * p, q, x % 2 + 2 * r);
  }

  /** Masking with one less than a power of two is the remainder. */
  lemma {:induction false} MaskIsMod(x: nat, k: nat)
    ensures And(x, Pow2(k) - 1) == x % Pow2(k)
  {
    if k == 0 {
      assert x % 1 == 0;
    } else {
      var p := Pow2(k - 1);
      assert (2 * p - 1) / 2 == p - 1 && (2 * p - 1) % 2 == 1;
      MaskIsMod(x / 2, k - 1);
      HalvedMod(x, p);
    }
  }

  // ----- indices -----

  /** The index after `i`. */
  function Next(i: nat, capacity: nat): nat
    requires capacity > 0
  {
    And(i + 1, capacity - 1)
  }

  /** An index that ran past the end, brought back. */
  function Wrap(i: nat, capacity: nat): nat {
    if i < capacity then i else if i < 2 * capacity then i - capacity else 0
  }

  /** How far `b` is ahead of `a`, going round. */
  function Dist(a: nat, b: nat, capacity: nat): int {
    if a <= b then b - a else b + capacity - a
  }

  /** Going one on wraps at the capacity and nowhere else. */
  lemma NextWraps(i: nat, capacity: nat)
    requires MaskOk(capacity) && i < capacity
    ensures Next(i, capacity) == (if i + 1 == capacity then 0 else i + 1) == Wrap(i + 1, capacity)
  {
    var k := MaskOkIsPow2(capacity);
    MaskIsMod(i + 1, k);
    ModIs(i + 1, capacity, if i + 1 == capacity then 1 else 0, if i + 1 == capacity then 0 else i + 1);
  }

  /** Unsigned subtraction on machine words. */
  function WordMinus(a: nat, b: nat): (r: nat)
    requires a < WORD && b < WORD
    ensures r < WORD
  {
    if a >= b then a - b else a + WORD - b
  }

  lemma {:induction false} Pow2Divides(j: nat, k: nat)
    requires j <= k
    ensures Pow2(k) == Pow2(k - j) * Pow2(j)
  {
    if j > 0 {
      Pow2Divides(j - 1, k - 1);
    }
  }

  lemma {:induction false} Pow2Grows(j: nat, k: nat)
    requires j < k
    ensures Pow2(j) < Pow2(k)
  {
    if j + 1 < k {
      Pow2Grows(j, k - 1);
    }
  }

  lemma WordIsPow2()
    ensures Pow2(64) == WORD
  {
    assert Pow2(8) == 0x100;
    Pow2Divides(8, 16);
    Pow2Divides(16, 32);
    Pow2Divides(32, 64);
  }

  /** Two indices' word difference, masked, is their distance: also when the subtraction wrapped. */
  lemma MaskedDifference(head: nat, tail: nat, capacity: nat)
    requires MaskOk(capacity) && head < capacity && tail < capacity && capacity <= WORD
    ensures And(WordMinus(head, tail), capacity - 1) == Dist(tail, head, capacity)
  {
    var k := MaskOkIsPow2(capacity);
    WordIsPow2();
    if k > 64 {
      Pow2Grows(64, k);
    }
    MaskIsMod(WordMinus(head, tail), k);
    if head < tail {
      assert Pow2(64 - k) * capacity == WORD by {
        Pow2Divides(k, 64);
      }
      WrappedDifference(head, tail, capacity, Pow2(64 - k));
    } else {
      ModIs(head - tail, capacity, 0, head - tail);
    }
  }

  lemma WrappedDifference(head: nat, tail: nat, capacity: nat, times: nat)
    requires head < tail < capacity && times * capacity == WORD
    ensures (head + WORD - tail) % capacity == head + capacity - tail
  {
    OneLess(times, capacity);
    ModIs(head + WORD - tail, capacity, times - 1, head + capacity - tail);
  }

  lemma OneLess(times: nat, m: nat)
    ensures (times - 1) * m == times * m - m
  {
  }
}
