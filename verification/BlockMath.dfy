/**
 How an element index splits into a block number and an offset, and how block numbers wrap around
 a circular block index. The definitions count in blocks; the lemmas tie them to the division,
 the masks and the wrapping words of the source.
 */
module BlockMath {
  import opened Bits

  /** First index of block number `m`. */
  function Base(m: nat, size: nat): nat {
    if m == 0 then 0 else Base(m - 1, size) + size
  }

  /** The number of the block that index `i` is in. */
  function Number(i: nat, size: nat): nat
    requires size > 0
  {
    if i < size then 0 else Number(i - size, size) + 1
  }

  /** Its offset inside that block. */
  function Offset(i: nat, size: nat): (r: nat)
    requires size > 0
    ensures r < size
  {
    if i < size then i else Offset(i - size, size)
  }

  lemma {:induction false} Split(i: nat, size: nat)
    requires size > 0
    ensures i == Base(Number(i, size), size) + Offset(i, size)
  {
    if i >= size { Split(i - size, size); }
  }

  lemma {:induction false} Join(m: nat, o: nat, size: nat)
    requires o < size
    ensures Number(Base(m, size) + o, size) == m && Offset(Base(m, size) + o, size) == o
  {
    if m > 0 { Join(m - 1, o, size); }
  }

  lemma {:induction false} BaseMonotone(m: nat, k: nat, size: nat)
    requires m <= k
    ensures Base(m, size) <= Base(k, size)
    ensures m < k ==> Base(m, size) + size <= Base(k, size)
    decreases k
  {
    if m < k { BaseMonotone(m, k - 1, size); }
  }

  /** An index is below the start of block `m` exactly when its block number is below `m`. */
  lemma NumberBelow(i: nat, m: nat, size: nat)
    requires size > 0
    ensures i < Base(m, size) <==> Number(i, size) < m
  {
    Split(i, size);
    var k := Number(i, size);
    if k < m { BaseMonotone(k, m, size); } else { BaseMonotone(m, k, size); }
  }

  /** `base == m * BLOCK_SIZE`, `i / BLOCK_SIZE` and `i & (BLOCK_SIZE - 1)`. */
  lemma {:induction false} BaseIsProduct(m: nat, size: nat)
    ensures Base(m, size) == m * size
  {
    if m > 0 {
      BaseIsProduct(m - 1, size);
      assert m * size == (m - 1) * size + size;
    }
  }

  lemma SplitIsDivMod(i: nat, size: nat)
    requires HasSingleBit(size)
    ensures Number(i, size) == i / size && Offset(i, size) == And(i, size - 1)
    ensures Base(Number(i, size), size) == i - And(i, size - 1)
  {
    Split(i, size);
    var m, o := Number(i, size), Offset(i, size);
    BaseIsProduct(m, size);
    ModIs(i, size, m, o);
    MaskIsMod(i, size);
  }

  /** Division of signed words, which truncates toward zero. */
  function TruncDiv(d: int, n: nat): int
    requires n > 0
  {
    if d >= 0 then d / n else -((-d) / n)
  }

  lemma DivExact(c: nat, size: nat)
    requires size > 0
    ensures (c * size) / size == c
  {
    ModIs(c * size, size, c, 0);
  }

  /** The signed distance between two block bases, in blocks. */
  lemma BlockDistance(m: nat, k: nat, size: nat)
    requires size > 0
    ensures TruncDiv(Base(m, size) - Base(k, size), size) == m - k
  {
    BaseIsProduct(m, size);
    BaseIsProduct(k, size);
    if m >= k { Product(m, k, size); } else { Product(k, m, size); }
  }

  lemma Product(m: nat, k: nat, size: nat)
    requires size > 0 && m >= k
    ensures m * size - k * size >= 0 && (m * size - k * size) / size == m - k
  {
    assert m * size - k * size == (m - k) * size;
    DivExact(m - k, size);
  }

  /** Slot of position `x` in a circular table. */
  function Wrap(x: int, size: nat): (r: nat)
    requires size > 0
    ensures r < size
    decreases if x >= 0 then x else size - x
  {
    if x < 0 then Wrap(x + size, size) else if x < size then x else Wrap(x - size, size)
  }

  lemma OneLap(q: int, size: nat)
    ensures (q - 1) * size == q * size - size
  {
  }

  /** How many laps of the table `x` is away from its slot. */
  lemma {:induction false} Laps(x: int, size: nat) returns (q: int)
    requires size > 0
    ensures x == q * size + Wrap(x, size)
    decreases if x >= 0 then x else size - x
  {
    if x < 0 {
      var p := Laps(x + size, size);
      q := p - 1;
      OneLap(p, size);
    } else if x < size {
      q := 0;
    } else {
      var p := Laps(x - size, size);
      q := p + 1;
      OneLap(q, size);
    }
  }

  lemma WrapIs(x: int, size: nat, q: int, r: nat)
    requires r < size && x == q * size + r
    ensures Wrap(x, size) == r
  {
    var k := Laps(x, size);
    assert (k - q) * size == k * size - q * size;
    MulGap(k - q, size);
  }

  lemma WrapIsMod(x: int, size: nat)
    requires size > 0
    ensures Wrap(x, size) == x % size
  {
    WrapIs(x, size, x / size, x % size);
  }

  lemma WrapAdd(x: int, d: int, size: nat)
    requires size > 0
    ensures Wrap(Wrap(x, size) + d, size) == Wrap(x + d, size)
  {
    var k := Laps(x, size);
    var q := Laps(x + d, size);
    assert (q - k) * size == q * size - k * size;
    WrapIs(Wrap(x, size) + d, size, q - k, Wrap(x + d, size));
  }

  lemma WrapDistinct(x: int, y: int, size: nat)
    requires x < y < x + size
    ensures Wrap(x, size) != Wrap(y, size)
  {
    var k := Laps(x, size);
    var q := Laps(y, size);
    assert (q - k) * size == q * size - k * size;
    MulGap(q - k, size);
  }

  lemma WrapSmall(x: nat, size: nat)
    requires x < size
    ensures Wrap(x, size) == x
  {
  }

  /**
   The source computes `(front + offset) & (size - 1)` on unsigned words with a signed, never
   positive offset; adding the wrapped offset and masking is stepping back around the table.
   */
  lemma MaskedOffset(front: nat, back: nat, size: nat, word: nat)
    requires HasSingleBit(size) && HasSingleBit(word) && size <= word && front < size && back < word
    ensures And((front + (word - back)) % word, size - 1) == Wrap(front - back, size)
  {
    var y := front + (word - back);
    if back <= front {
      ModIs(y, word, 1, front - back);
      MaskIsMod(front - back, size);
      WrapIsMod(front - back, size);
    } else {
      ModIs(y, word, 0, y);
      MaskIsMod(y, size);
      var c := PowersDivide(size, word);
      WrapLaps(front - back, c, size);
      WrapIsMod(y, size);
    }
  }

  lemma WrapLaps(x: int, c: int, size: nat)
    requires size > 0
    ensures Wrap(x + c * size, size) == Wrap(x, size)
  {
    var q := Laps(x, size);
    assert (q + c) * size == q * size + c * size;
    WrapIs(x + c * size, size, q + c, Wrap(x, size));
  }
}
