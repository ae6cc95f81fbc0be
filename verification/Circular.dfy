/**
 Wrapped queue indices. The queue keeps its indices in unsigned words that wrap and compares them
 with `circular_less_than`; the other modules use unbounded indices. Here `word` is the number of
 values of the index type, for any even word, and `half` of it the source's `1 << (bits - 1)`.
 */
module Circular {
  import opened BlockMath
  import opened Bits

  /** `static_cast<T>(a - b) > (1 << (bits - 1))` on unsigned words. */
  predicate CircularLess(a: nat, b: nat, half: nat)
    requires half > 0
  {
    Wrap(a - b, 2 * half) > half
  }

  lemma WrapDifference(x: int, y: int, size: nat)
    requires size > 0
    ensures Wrap(Wrap(x, size) - Wrap(y, size), size) == Wrap(x - y, size)
  {
    var w: int := Wrap(y, size);
    WrapAdd(x, 0 - w, size);
    var q := Laps(y, size);
    assert (0 - q) * size == 0 - q * size;
    WrapLaps(x - w, 0 - q, size);
  }

  /**
   On indices less than a word apart the wrapped comparison answers `x < y` exactly when the
   distance is within half a word; beyond that it is wrong.
   */
  lemma CircularOrder(x: int, y: int, half: nat)
    requires half > 0 && -2 * half < x - y < 2 * half
    ensures (CircularLess(Wrap(x, 2 * half), Wrap(y, 2 * half), half) <==> x < y) <==> 0 - half < x - y <= half
  {
    WrapDifference(x, y, 2 * half);
  }

  /** What `dequeue_bulk` computes as the number of elements it may take, on words. */
  function WrappedAvailable(tail: nat, count: nat, over: nat, half: nat): nat
    requires half > 0
  {
    Wrap(Wrap(tail, 2 * half) - Wrap(Wrap(count, 2 * half) - Wrap(over, 2 * half), 2 * half), 2 * half)
  }

  /** The number that `dequeue_bulk` computes is the difference, wrapped once. */
  lemma AvailableIs(tail: nat, count: nat, over: nat, half: nat)
    requires half > 0
    ensures WrappedAvailable(tail, count, over, half) == Wrap(tail - (count - over), 2 * half)
  {
    WrapDifference(count, over, 2 * half);
    WrapDifference(tail, count - over, 2 * half);
  }

  /** The comparison with zero, of a difference of less than half a word. */
  lemma PositiveTest(available: int, half: nat)
    requires half > 0 && 0 - half < available < half
    ensures CircularLess(0, Wrap(available, 2 * half), half) <==> available > 0
    ensures available > 0 ==> Wrap(available, 2 * half) == available
  {
    CircularOrder(0, available, half);
    assert Wrap(0, 2 * half) == 0;
  }

  /**
   With less than half a word between the tail and the effective dequeue count, the tests and
   the amounts of the dequeue protocol on words are those on unbounded indices.
   */
  lemma DequeueTestsAgree(tail: nat, count: nat, over: nat, half: nat)
    requires half > 0 && 0 - half < tail - (count - over) < half
    ensures var available := tail - (count - over);
      // dequeue: circular_less_than(count - overcommit, tail)
      && (CircularLess(Wrap(Wrap(count, 2 * half) - Wrap(over, 2 * half), 2 * half), Wrap(tail, 2 * half), half) <==> available > 0)
      // dequeue_bulk: circular_less_than(0, tail - (count - overcommit))
      && (CircularLess(0, WrappedAvailable(tail, count, over, half), half) <==> available > 0)
      && (available > 0 ==> WrappedAvailable(tail, count, over, half) == available)
  {
    WrapDifference(count, over, 2 * half);
    CircularOrder(count - over, tail, half);
    AvailableIs(tail, count, over, half);
    PositiveTest(tail - (count - over), half);
  }
}
