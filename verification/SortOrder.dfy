/** Comparators, sorted sequences, stable merging, and counting: what the sliding-window sorter is proved with. */
module SortOrder {

  type Comparator<!T> = (T, T) -> bool

  ghost predicate Incomparable<T>(less: Comparator<T>, x: T, y: T) {
    !less(x, y) && !less(y, x)
  }

  ghost predicate StrictWeakOrder<T(!new)>(less: Comparator<T>) {
    && (forall x :: !less(x, x))
    && (forall x, y, z :: less(x, y) && less(y, z) ==> less(x, z))
    && (forall x, y, z :: Incomparable(less, x, y) && Incomparable(less, y, z) ==> Incomparable(less, x, z))
  }

  /** In a strict weak order, whatever is below `z` is below anything not below `z`. */
  lemma BelowNotBelow<T(!new)>(less: Comparator<T>, x: T, y: T, z: T)
    requires StrictWeakOrder(less) && less(x, z) && !less(y, z)
    ensures less(x, y)
  {
    assert less(y, x) ==> less(y, z);
    assert less(z, y) ==> less(x, y);
    assert !less(x, y) ==> Incomparable(less, x, y) && Incomparable(less, y, z);
    assert !Incomparable(less, x, z);
  }

  predicate Sorted<T>(less: Comparator<T>, s: seq<T>) {
    forall i, j :: 0 <= i < j < |s| ==> !less(s[j], s[i])
  }

  // ---------------------------------------------------------------------------------------------
  // Merging and inserting
  // ---------------------------------------------------------------------------------------------

  /** `std::merge`: of equivalent elements those of `a` come first. */
  function Merge<T>(less: Comparator<T>, a: seq<T>, b: seq<T>): seq<T>
    decreases |a| + |b|
  {
    if a == [] then b
    else if b == [] then a
    else if less(b[0], a[0]) then [b[0]] + Merge(less, a, b[1..])
    else [a[0]] + Merge(less, a[1..], b)
  }

  lemma HeadAndTail<T>(s: seq<T>)
    requires s != []
    ensures multiset(s) == multiset{s[0]} + multiset(s[1..])
  {
    assert s == [s[0]] + s[1..];
  }

  lemma HeadCounts<T>(x: T, s: seq<T>)
    ensures multiset([x] + s) == multiset{x} + multiset(s)
  {
  }

  lemma {:induction false} MergeKeeps<T>(less: Comparator<T>, a: seq<T>, b: seq<T>)
    ensures multiset(Merge(less, a, b)) == multiset(a) + multiset(b)
    decreases |a| + |b|
  {
    if a != [] && b != [] {
      if less(b[0], a[0]) {
        MergeKeeps(less, a, b[1..]);
        HeadAndTail(b);
        HeadCounts(b[0], Merge(less, a, b[1..]));
      } else {
        MergeKeeps(less, a[1..], b);
        HeadAndTail(a);
        HeadCounts(a[0], Merge(less, a[1..], b));
      }
    }
  }

  /** Nothing in `s` is below `x`. */
  predicate AtLeast<T>(less: Comparator<T>, s: seq<T>, x: T) {
    forall i :: 0 <= i < |s| ==> !less(s[i], x)
  }

  lemma SortedCons<T>(less: Comparator<T>, x: T, s: seq<T>)
    requires Sorted(less, s) && AtLeast(less, s, x)
    ensures Sorted(less, [x] + s)
  {
  }

  lemma SameBounds<T>(less: Comparator<T>, s: seq<T>, m: multiset<T>, x: T)
    requires multiset(s) == m && forall y <- m :: !less(y, x)
    ensures AtLeast(less, s, x)
  {
    forall i | 0 <= i < |s| ensures !less(s[i], x) { assert s[i] in multiset(s); }
  }

  lemma {:induction false} MergeSorts<T(!new)>(less: Comparator<T>, a: seq<T>, b: seq<T>)
    requires StrictWeakOrder(less) && Sorted(less, a) && Sorted(less, b)
    ensures Sorted(less, Merge(less, a, b))
    decreases |a| + |b|
  {
    if a != [] && b != [] {
      if less(b[0], a[0]) {
        MergeSorts(less, a, b[1..]);
        MergeKeeps(less, a, b[1..]);
        forall y | y in multiset(a) + multiset(b[1..]) ensures !less(y, b[0]) {
          assert less(y, b[0]) ==> less(y, a[0]);
          if y in a { FirstIsLeast(less, a, y); } else { FirstIsLeast(less, b, y); }
        }
        SameBounds(less, Merge(less, a, b[1..]), multiset(a) + multiset(b[1..]), b[0]);
        SortedCons(less, b[0], Merge(less, a, b[1..]));
      } else {
        MergeSorts(less, a[1..], b);
        MergeKeeps(less, a[1..], b);
        forall y | y in multiset(a[1..]) + multiset(b) ensures !less(y, a[0]) {
          if y in a[1..] {
            FirstIsLeast(less, a, y);
          } else {
            FirstIsLeast(less, b, y);
            if less(y, a[0]) { BelowNotBelow(less, y, b[0], a[0]); }
          }
        }
        SameBounds(less, Merge(less, a[1..], b), multiset(a[1..]) + multiset(b), a[0]);
        SortedCons(less, a[0], Merge(less, a[1..], b));
      }
    }
  }

  lemma FirstIsLeast<T(!new)>(less: Comparator<T>, s: seq<T>, y: T)
    requires StrictWeakOrder(less) && Sorted(less, s) && y in s
    ensures !less(y, s[0])
  {
  }

  // ---------------------------------------------------------------------------------------------
  // Stable merges
  // ---------------------------------------------------------------------------------------------

  /** `r` takes from `a` and from `b`, each in its order; `fromA` says from which. */
  predicate Interleaves<T(==)>(a: seq<T>, b: seq<T>, r: seq<T>, fromA: seq<bool>)
    decreases |r|
  {
    && |fromA| == |r|
    && if r == [] then a == [] && b == []
       else if fromA[0] then a != [] && a[0] == r[0] && Interleaves(a[1..], b, r[1..], fromA[1..])
       else b != [] && b[0] == r[0] && Interleaves(a, b[1..], r[1..], fromA[1..])
  }

  /** An element of `b` comes before one of `a` only if it belongs before it. */
  ghost predicate FirstOfEquals<T>(less: Comparator<T>, r: seq<T>, fromA: seq<bool>)
    requires |fromA| == |r|
  {
    forall i, j :: 0 <= i < j < |r| && !fromA[i] && fromA[j] ==> less(r[i], r[j])
  }

  /** What `std::merge` and `std::inplace_merge` promise: sorted, and stable. */
  ghost predicate StableMerge<T>(less: Comparator<T>, a: seq<T>, b: seq<T>, r: seq<T>) {
    Sorted(less, r) && exists fromA: seq<bool> :: Interleaves(a, b, r, fromA) && FirstOfEquals(less, r, fromA)
  }

  lemma {:induction false} FirstTaken<T>(a: seq<T>, b: seq<T>, r: seq<T>, fromA: seq<bool>, side: bool) returns (j: nat)
    requires Interleaves(a, b, r, fromA) && (if side then a else b) != []
    ensures j < |r| && fromA[j] == side && r[j] == (if side then a else b)[0]
    decreases |r|
  {
    if fromA[0] == side {
      j := 0;
    } else {
      var k := FirstTaken(if side then a else a[1..], if side then b[1..] else b, r[1..], fromA[1..], side);
      j := k + 1;
    }
  }

  lemma HeadNotAbove<T>(less: Comparator<T>, a: seq<T>, b: seq<T>, r: seq<T>, fromA: seq<bool>)
    requires Sorted(less, r) && Interleaves(a, b, r, fromA) && r != [] && fromA[0] && b != []
    ensures !less(b[0], a[0])
  {
    var j := FirstTaken(a, b, r, fromA, false);
  }

  lemma HeadBelow<T>(less: Comparator<T>, a: seq<T>, b: seq<T>, r: seq<T>, fromA: seq<bool>)
    requires Interleaves(a, b, r, fromA) && FirstOfEquals(less, r, fromA) && r != [] && !fromA[0] && a != []
    ensures less(b[0], a[0])
  {
    var j := FirstTaken(a, b, r, fromA, true);
  }

  /** There is one stable merge only. */
  lemma {:induction false} StableMergeUnique<T>(less: Comparator<T>, a: seq<T>, b: seq<T>, r: seq<T>, fromA: seq<bool>)
    requires Sorted(less, r) && Interleaves(a, b, r, fromA) && FirstOfEquals(less, r, fromA)
    ensures r == Merge(less, a, b)
    decreases |r|
  {
    if r != [] {
      var rest, more := r[1..], fromA[1..];
      assert forall i :: 0 <= i < |rest| ==> rest[i] == r[i + 1] && more[i] == fromA[i + 1];
      assert r == [r[0]] + rest;
      if fromA[0] {
        StableMergeUnique(less, a[1..], b, rest, more);
        if b != [] { HeadNotAbove(less, a, b, r, fromA); }
      } else {
        StableMergeUnique(less, a, b[1..], rest, more);
        if a != [] { HeadBelow(less, a, b, r, fromA); }
      }
    }
  }

  lemma {:induction false} TakenFrom<T>(a: seq<T>, b: seq<T>, r: seq<T>, fromA: seq<bool>, j: nat)
    requires Interleaves(a, b, r, fromA) && j < |r| && fromA[j]
    ensures r[j] in a
    decreases |r|
  {
    if j > 0 {
      TakenFrom(if fromA[0] then a[1..] else a, if fromA[0] then b else b[1..], r[1..], fromA[1..], j - 1);
    }
  }

  function All(n: nat, side: bool): seq<bool> { seq(n, i => side) }

  lemma {:induction false} OneSide<T>(s: seq<T>, side: bool)
    ensures Interleaves(if side then s else [], if side then [] else s, s, All(|s|, side))
    decreases |s|
  {
    if s != [] {
      OneSide(s[1..], side);
      assert All(|s|, side)[1..] == All(|s| - 1, side);
    }
  }

  lemma MergeConsB<T(!new)>(less: Comparator<T>, a: seq<T>, b: seq<T>, r: seq<T>, fromA: seq<bool>)
    requires StrictWeakOrder(less) && Sorted(less, a) && a != [] && b != [] && less(b[0], a[0])
    requires Interleaves(a, b[1..], r, fromA) && FirstOfEquals(less, r, fromA)
    ensures Interleaves(a, b, [b[0]] + r, [false] + fromA) && FirstOfEquals(less, [b[0]] + r, [false] + fromA)
  {
    var r', f' := [b[0]] + r, [false] + fromA;
    assert r'[1..] == r && f'[1..] == fromA;
    forall i, j | 0 <= i < j < |r'| && !f'[i] && f'[j] ensures less(r'[i], r'[j]) {
      if i == 0 {
        TakenFrom(a, b[1..], r, fromA, j - 1);
        FirstIsLeast(less, a, r[j - 1]);
        BelowNotBelow(less, b[0], r[j - 1], a[0]);
      }
    }
  }

  lemma MergeConsA<T(!new)>(less: Comparator<T>, a: seq<T>, b: seq<T>, r: seq<T>, fromA: seq<bool>)
    requires a != [] && Interleaves(a[1..], b, r, fromA) && FirstOfEquals(less, r, fromA)
    ensures Interleaves(a, b, [a[0]] + r, [true] + fromA) && FirstOfEquals(less, [a[0]] + r, [true] + fromA)
  {
    var r', f' := [a[0]] + r, [true] + fromA;
    assert r'[1..] == r && f'[1..] == fromA;
  }

  /** And `Merge` is that one, of sorted sequences. */
  lemma {:induction false} MergeIsStable<T(!new)>(less: Comparator<T>, a: seq<T>, b: seq<T>) returns (fromA: seq<bool>)
    requires StrictWeakOrder(less) && Sorted(less, a) && Sorted(less, b)
    ensures Interleaves(a, b, Merge(less, a, b), fromA) && FirstOfEquals(less, Merge(less, a, b), fromA)
    decreases |a| + |b|
  {
    if a == [] {
      fromA := All(|b|, false);
      OneSide(b, false);
    } else if b == [] {
      fromA := All(|a|, true);
      OneSide(a, true);
    } else if less(b[0], a[0]) {
      var more := MergeIsStable(less, a, b[1..]);
      MergeConsB(less, a, b, Merge(less, a, b[1..]), more);
      fromA := [false] + more;
    } else {
      var more := MergeIsStable(less, a[1..], b);
      MergeConsA(less, a, b, Merge(less, a[1..], b), more);
      fromA := [true] + more;
    }
  }

  // ---------------------------------------------------------------------------------------------
  // Counting
  // ---------------------------------------------------------------------------------------------

  function CountIf<T>(s: seq<T>, p: T -> bool): nat {
    if s == [] then 0 else (if p(s[0]) then 1 else 0) + CountIf(s[1..], p)
  }

  lemma {:induction false} CountConcat<T>(a: seq<T>, b: seq<T>, p: T -> bool)
    ensures CountIf(a + b, p) == CountIf(a, p) + CountIf(b, p)
  {
    if a == [] {
      assert a + b == b;
    } else {
      CountConcat(a[1..], b, p);
      assert (a + b)[1..] == a[1..] + b;
    }
  }

  lemma RemoveAt<T>(s: seq<T>, k: nat)
    requires k < |s|
    ensures multiset(s[..k] + s[k + 1..]) == multiset(s) - multiset{s[k]}
  {
    assert s == s[..k] + [s[k]] + s[k + 1..];
  }

  lemma CountRemove<T>(s: seq<T>, k: nat, p: T -> bool)
    requires k < |s|
    ensures CountIf(s, p) == (if p(s[k]) then 1 else 0) + CountIf(s[..k] + s[k + 1..], p)
  {
    assert s == s[..k] + s[k..] && s[k..][1..] == s[k + 1..];
    CountConcat(s[..k], s[k..], p);
    CountConcat(s[..k], s[k + 1..], p);
  }

  lemma {:induction false} CountSame<T>(a: seq<T>, b: seq<T>, p: T -> bool)
    requires multiset(a) == multiset(b)
    ensures CountIf(a, p) == CountIf(b, p)
    decreases |a|
  {
    assert |multiset(a)| == |a| && |multiset(b)| == |b|;
    if a != [] {
      var k := Occurrence(a, b);
      RemoveAt(a, 0);
      RemoveAt(b, k);
      CountRemove(a, 0, p);
      CountRemove(b, k, p);
      CountSame(a[..0] + a[1..], b[..k] + b[k + 1..], p);
    }
  }

  lemma Occurrence<T>(a: seq<T>, b: seq<T>) returns (k: nat)
    requires a != [] && multiset(a) == multiset(b)
    ensures k < |b| && b[k] == a[0]
  {
    assert a[0] in multiset(b);
    k :| 0 <= k < |b| && b[k] == a[0];
  }

  lemma {:induction false} CountAll<T>(s: seq<T>, p: T -> bool)
    requires forall i :: 0 <= i < |s| ==> p(s[i])
    ensures CountIf(s, p) == |s|
  {
    if s != [] { CountAll(s[1..], p); }
  }

  lemma {:induction false} CountImplies<T>(s: seq<T>, p: T -> bool, q: T -> bool)
    requires forall i :: 0 <= i < |s| ==> p(s[i]) ==> q(s[i])
    ensures CountIf(s, p) <= CountIf(s, q)
  {
    if s != [] { CountImplies(s[1..], p, q); }
  }
}
