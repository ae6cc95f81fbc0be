/**
 Bit masks and wrapped words. Every index in the ring buffer, the block index and the blocks is
 taken with `i & (size - 1)`, and the queue compares its indices as wrapping unsigned words.
 */
module Bits {

  /** Bitwise and, one bit at a time. */
  function And(a: nat, b: nat): nat {
    if a == 0 || b == 0 then 0 else (if a % 2 == 1 && b % 2 == 1 then 1 else 0) + 2 * And(a / 2, b / 2)
  }

  /** `std::has_single_bit`. */
  predicate HasSingleBit(n: nat) {
    n == 1 || (n > 1 && n % 2 == 0 && HasSingleBit(n / 2))
  }

  lemma DoubleMod(a: nat, m: nat)
    requires m > 0
    ensures a % (2 * m) == a % 2 + 2 * ((a / 2) % m)
  {
    var q, r := (a / 2) / m, (a / 2) % m;
    assert a == 2 * (a / 2) + a % 2 && a / 2 == q * m + r;
    assert a == q * (2 * m) + (2 * r + a % 2);
    ModIs(a, 2 * m, q, 2 * r + a % 2);
  }

  lemma MulGap(d: int, m: nat)
    ensures d >= 1 ==> d * m >= m
    ensures d <= -1 ==> d * m + m <= 0
  {
    if d >= 1 { assert (d - 1) * m >= 0; }
    if d <= -1 { assert (-d - 1) * m >= 0; }
  }

  lemma ModIs(a: nat, m: nat, q: nat, r: nat)
    requires m > 0 && r < m && a == q * m + r
    ensures a % m == r && a / m == q
  {
    var k, t := a / m, a % m;
    assert (k - q) * m == k * m - q * m;
    MulGap(k - q, m);
  }

  /** Masking with a power of two less one is reduction modulo that power. */
  lemma {:induction false} MaskIsMod(a: nat, n: nat)
    requires HasSingleBit(n)
    ensures And(a, n - 1) == a % n
  {
    if n > 1 {
      MaskIsMod(a / 2, n / 2);
      DoubleMod(a, n / 2);
      assert (n - 1) % 2 == 1 && (n - 1) / 2 == n / 2 - 1;
    }
  }

  /** The slot of sequence `q` in a buffer of `n` slots. */
  function Slot(q: nat, n: nat): (r: nat)
    requires HasSingleBit(n)
    ensures r < n
  {
    MaskIsMod(q, n);
    And(q, n - 1)
  }

  lemma ModDistinct(a: nat, b: nat, n: nat)
    requires a < b < a + n
    ensures a % n != b % n
  {
    var d := b / n - a / n;
    assert b - a == d * n + (b % n - a % n);
    assert d <= 0 || d * n >= n;
  }

  lemma ModPeriodic(a: nat, n: nat)
    requires n > 0
    ensures (a + n) % n == a % n
  {
    assert a + n == (a / n + 1) * n + a % n by { assert a == (a / n) * n + a % n; }
    ModIs(a + n, n, a / n + 1, a % n);
  }

  /** Distinct sequences of one window of `n` never share a slot. */
  lemma SlotsDistinct(a: nat, b: nat, n: nat)
    requires HasSingleBit(n) && a < b < a + n
    ensures Slot(a, n) != Slot(b, n)
  {
    MaskIsMod(a, n);
    MaskIsMod(b, n);
    ModDistinct(a, b, n);
  }

  /** One lap on, the slot is the same. */
  lemma SlotPeriodic(a: nat, n: nat)
    requires HasSingleBit(n)
    ensures Slot(a + n, n) == Slot(a, n)
  {
    MaskIsMod(a, n);
    MaskIsMod(a + n, n);
    ModPeriodic(a, n);
  }

  /** A power of two is a whole number of smaller ones. */
  lemma {:induction false} PowersDivide(n: nat, m: nat) returns (c: nat)
    requires HasSingleBit(n) && HasSingleBit(m) && n <= m
    ensures m == c * n
  {
    if n == 1 {
      c := m;
    } else {
      c := PowersDivide(n / 2, m / 2);
      assert m == 2 * (m / 2) && n == 2 * (n / 2) && 2 * (c * (n / 2)) == c * (2 * (n / 2));
    }
  }
}
