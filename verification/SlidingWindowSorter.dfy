/** The sliding-window sorter: entries go in, batches come out sorted as far as the window allows. */
module SlidingWindowSorter {
  import opened SortOrder

  // ---------------------------------------------------------------------------------------------
  // Sorting
  // ---------------------------------------------------------------------------------------------

  /** `std::upper_bound` on a[..n]: where `key` goes after everything equivalent to it. */
  method UpperBound<T(!new)>(a: array<T>, n: nat, key: T, less: Comparator<T>) returns (pos: nat)
    requires n <= a.Length
    ensures pos <= n
    ensures StrictWeakOrder(less) && Sorted(less, a[..n]) ==>
      (forall i :: 0 <= i < pos ==> !less(key, a[i])) && (forall i :: pos <= i < n ==> less(key, a[i]))
  {
    var lo, hi := 0, n;
    while lo < hi
      invariant lo <= hi <= n
      invariant StrictWeakOrder(less) && Sorted(less, a[..n]) ==>
        (forall i :: 0 <= i < lo ==> !less(key, a[i])) && (forall i :: hi <= i < n ==> less(key, a[i]))
    {
      var mid := (lo + hi) / 2;
      if StrictWeakOrder(less) && Sorted(less, a[..n]) { Partitioned(a[..n], mid, key, less); }
      if less(key, a[mid]) { hi := mid; } else { lo := mid + 1; }
    }
    pos := lo;
  }

  lemma Partitioned<T(!new)>(s: seq<T>, mid: nat, key: T, less: Comparator<T>)
    requires StrictWeakOrder(less) && Sorted(less, s) && mid < |s|
    ensures less(key, s[mid]) ==> forall i :: mid <= i < |s| ==> less(key, s[i])
    ensures !less(key, s[mid]) ==> forall i :: 0 <= i <= mid ==> !less(key, s[i])
  {
    forall i | mid <= i < |s| && less(key, s[mid]) ensures less(key, s[i]) {
      if i > mid { BelowNotBelow(less, key, s[i], s[mid]); }
    }
    forall i | 0 <= i <= mid && less(key, s[i]) ensures less(key, s[mid]) {
      if i < mid { BelowNotBelow(less, key, s[mid], s[i]); }
    }
  }

  /** `std::move_backward` of a[pos..n] by one, with `key` put into the gap. */
  method ShiftIn<T>(a: array<T>, pos: nat, n: nat, key: T)
    requires pos <= n < a.Length
    modifies a
    ensures a[..] == old(a[..pos] + [key] + a[pos..n] + a[n + 1..])
  {
    var q := n;
    while q > pos
      invariant pos <= q <= n
      invariant forall i :: 0 <= i <= q ==> a[i] == old(a[i])
      invariant forall i :: q < i <= n ==> a[i] == old(a[i - 1])
      invariant forall i :: n < i < a.Length ==> a[i] == old(a[i])
    {
      a[q] := a[q - 1];
      q := q - 1;
    }
    a[pos] := key;
    assert a[..] == old(a[..pos] + [key] + a[pos..n] + a[n + 1..]);
  }

  lemma InsertedKeeps<T>(s: seq<T>, pos: nat, n: nat)
    requires pos <= n < |s|
    ensures multiset(s[..pos] + [s[n]] + s[pos..n] + s[n + 1..]) == multiset(s)
  {
    assert s == s[..pos] + s[pos..n] + [s[n]] + s[n + 1..];
  }

  lemma InsertedSorted<T(!new)>(s: seq<T>, pos: nat, key: T, less: Comparator<T>)
    requires StrictWeakOrder(less) && Sorted(less, s) && pos <= |s|
    requires forall i :: 0 <= i < pos ==> !less(key, s[i])
    requires forall i :: pos <= i < |s| ==> less(key, s[i])
    ensures Sorted(less, s[..pos] + [key] + s[pos..])
  {
    var r := s[..pos] + [key] + s[pos..];
    forall i, j | 0 <= i < j < |r| ensures !less(r[j], r[i]) {
      if i == pos { assert less(key, s[j - 1]); }
    }
  }

  lemma InsertedPrefix<T>(s: seq<T>, r: seq<T>, pos: nat, n: nat)
    requires pos <= n < |s| && r == s[..pos] + [s[n]] + s[pos..n] + s[n + 1..]
    ensures |r| == |s| && r[..n + 1] == s[..n][..pos] + [s[n]] + s[..n][pos..]
  {
  }

  /** One pass of insertion_sort: a[n] goes to its place among a[..n]. */
  method InsertNext<T(!new)>(a: array<T>, n: nat, less: Comparator<T>)
    requires n < a.Length
    modifies a
    ensures multiset(a[..]) == multiset(old(a[..]))
    ensures StrictWeakOrder(less) && Sorted(less, old(a[..n])) ==> Sorted(less, a[..n + 1])
  {
    ghost var before := a[..];
    var key := a[n];
    var pos := UpperBound(a, n, key, less);
    assert a[..n] == before[..n];
    if StrictWeakOrder(less) && Sorted(less, a[..n]) { InsertedSorted(before[..n], pos, key, less); }
    ShiftIn(a, pos, n, key);
    InsertedKeeps(before, pos, n);
    InsertedPrefix(before, a[..], pos, n);
    assert a[..][..n + 1] == a[..n + 1];
  }

  /** insertion_sort, in place. */
  method InsertionSort<T(!new)>(a: array<T>, less: Comparator<T>)
    modifies a
    ensures multiset(a[..]) == multiset(old(a[..]))
    ensures StrictWeakOrder(less) ==> Sorted(less, a[..])
  {
    var it := 1;
    while it < a.Length
      invariant 1 <= it && (it <= a.Length || a.Length == 0)
      invariant multiset(a[..]) == multiset(old(a[..]))
      invariant StrictWeakOrder(less) && it <= a.Length ==> Sorted(less, a[..it])
    {
      InsertNext(a, it, less);
      it := it + 1;
    }
    assert a.Length > 0 ==> a[..a.Length] == a[..];
  }

  /** `std::sort`: some sorted permutation; nothing is promised about equivalent elements. */
  method StdSort<T(!new)>(s: seq<T>, less: Comparator<T>) returns (r: seq<T>)
    ensures multiset(r) == multiset(s)
    ensures StrictWeakOrder(less) ==> Sorted(less, r)
  {
    var a := new T[|s|](i requires 0 <= i < |s| => s[i]);
    assert a[..] == s;
    InsertionSort(a, less);
    r := a[..];
  }

  /** `std::inplace_merge` of the parts before and from `middle`: nothing but its promise is used. */
  method InplaceMerge<T(!new)>(s: seq<T>, middle: nat, less: Comparator<T>) returns (r: seq<T>)
    requires middle <= |s|
    ensures multiset(r) == multiset(s)
    ensures StrictWeakOrder(less) && Sorted(less, s[..middle]) && Sorted(less, s[middle..]) ==>
              StableMerge(less, s[..middle], s[middle..], r)
  {
    ghost var a, b := s[..middle], s[middle..];
    assert s == a + b;
    MergeKeeps(less, a, b);
    r := Merge(less, s[..middle], s[middle..]);
    if StrictWeakOrder(less) && Sorted(less, a) && Sorted(less, b) {
      ghost var fromA := MergeIsStable(less, a, b);
      MergeSorts(less, a, b);
    }
  }

  lemma StableIsMerge<T>(less: Comparator<T>, a: seq<T>, b: seq<T>, r: seq<T>)
    requires StableMerge(less, a, b, r)
    ensures r == Merge(less, a, b)
  {
    var fromA: seq<bool> :| Interleaves(a, b, r, fromA) && FirstOfEquals(less, r, fromA);
    StableMergeUnique(less, a, b, r, fromA);
  }

  // ---------------------------------------------------------------------------------------------
  // Configuration and the invariant of one epoch
  // ---------------------------------------------------------------------------------------------

  datatype Config<!T> = Config(
    windowSize: nat,
    batchSize: nat,
    enableSorting: bool,
    less: Comparator<T>,
    useInplaceMerge: bool,
    mergeThreshold: nat
  )

  /** From one flush to the next: what came in, what went out, and what is held. */
  datatype Epoch<T> = Epoch(ins: seq<T>, outs: seq<T>, window: seq<T>, pending: seq<T>)

  function Min(a: nat, b: nat): nat { if a < b then a else b }
  function Max(a: nat, b: nat): nat { if a < b then b else a }

  /** calculate_output_count, for a window of `n` entries, cut to what there is. */
  function OutputCount<T>(c: Config<T>, n: nat): nat {
    if n < c.windowSize then 0 else Min(n, Max(n - c.windowSize, c.batchSize))
  }

  /**
   * Of `held` entries `n` go out: none from a window that is not full; from a full one at least a batch,
   * or all there is, and enough to fit the rest into the window; and no more than these ask for.
   */
  predicate HandsOver<T>(c: Config<T>, held: nat, n: nat) {
    && n <= held
    && (held < c.windowSize ==> n == 0)
    && (held >= c.windowSize ==>
          n >= Min(c.batchSize, held) && held - n <= c.windowSize && (n == Min(c.batchSize, held) || held - n == c.windowSize))
  }

  lemma OutputHandsOver<T>(c: Config<T>, held: nat)
    ensures forall n: nat :: HandsOver(c, held, n) <==> n == OutputCount(c, held)
  {
  }

  lemma JoinedLength<T(!new)>(c: Config<T>, window: seq<T>, pending: seq<T>, merged: seq<T>)
    requires Joined(c, window, pending, merged)
    ensures |merged| == |window| + |pending|
  {
    assert |multiset(merged)| == |multiset(window) + multiset(pending)|;
  }

  /** How many elements of `s` are not below `y`, and how many are above `x`. */
  function NotBelow<T>(less: Comparator<T>, s: seq<T>, y: T): nat { CountIf(s, z => !less(z, y)) }
  function Above<T>(less: Comparator<T>, s: seq<T>, x: T): nat { CountIf(s, z => less(x, z)) }

  /** Every element has at most `k` earlier ones that belong after it. */
  ghost predicate BoundedDisorder<T>(less: Comparator<T>, ins: seq<T>, k: nat) {
    forall i :: 0 <= i < |ins| ==> Above(less, ins[..i], ins[i]) <= k
  }

  /** Sorting is on, with a comparator that is one, and a batch no larger than the window. */
  ghost predicate CanSort<T(!new)>(c: Config<T>) {
    c.enableSorting && StrictWeakOrder(c.less) && c.batchSize <= c.windowSize
  }

  /** The disorder that the window makes up for. */
  function Slack<T>(c: Config<T>): nat {
    if c.batchSize <= c.windowSize then c.windowSize - c.batchSize else 0
  }

  ghost predicate Tolerated<T(!new)>(c: Config<T>, e: Epoch<T>) {
    CanSort(c) && BoundedDisorder(c.less, e.ins, Slack(c))
  }

  /** Everything emitted so far may stay before everything still held. */
  ghost predicate Settled<T>(less: Comparator<T>, outs: seq<T>, held: seq<T>) {
    forall y, z :: y in outs && z in held ==> !less(z, y)
  }

  ghost predicate EpochOk<T(!new)>(c: Config<T>, e: Epoch<T>) {
    && multiset(e.ins) == multiset(e.outs) + multiset(e.window) + multiset(e.pending)
    && (!c.enableSorting ==> e.outs + e.window + e.pending == e.ins)
    && (c.enableSorting && StrictWeakOrder(c.less) ==> Sorted(c.less, e.window))
    // An emitted element left enough behind it, or came with enough that belongs after it.
    && (CanSort(c) ==> forall y <- e.outs :: NotBelow(c.less, e.ins, y) > Slack(c))
    && (Tolerated(c, e) ==> Sorted(c.less, e.outs) && Settled(c.less, e.outs, e.window + e.pending))
  }

  // ---------------------------------------------------------------------------------------------
  // Arrivals
  // ---------------------------------------------------------------------------------------------

  lemma DisorderPrefix<T>(less: Comparator<T>, ins: seq<T>, x: T, k: nat)
    requires BoundedDisorder(less, ins + [x], k)
    ensures BoundedDisorder(less, ins, k) && Above(less, ins, x) <= k
  {
    var all := ins + [x];
    forall i | 0 <= i < |ins| ensures Above(less, ins[..i], ins[i]) <= k {
      assert all[..i] == ins[..i] && all[i] == ins[i];
    }
    assert all[..|ins|] == ins && all[|ins|] == x;
  }

  /** An element below `y` has at least as many before it that belong after it as are not below `y`. */
  lemma AboveBeatsNotBelow<T(!new)>(less: Comparator<T>, s: seq<T>, x: T, y: T)
    requires StrictWeakOrder(less) && less(x, y)
    ensures NotBelow(less, s, y) <= Above(less, s, x)
  {
    forall i | 0 <= i < |s| && !less(s[i], y) ensures less(x, s[i]) { BelowNotBelow(less, x, s[i], y); }
    CountImplies(s, z => !less(z, y), z => less(x, z));
  }

  lemma NotBelowGrows<T>(less: Comparator<T>, s: seq<T>, x: T, y: T)
    ensures NotBelow(less, s + [x], y) >= NotBelow(less, s, y)
  {
    CountConcat(s, [x], z => !less(z, y));
  }

  function Arrived<T>(e: Epoch<T>, x: T): Epoch<T> {
    e.(ins := e.ins + [x], pending := e.pending + [x])
  }

  lemma ArriveSettled<T(!new)>(c: Config<T>, e: Epoch<T>, x: T)
    requires EpochOk(c, e) && Tolerated(c, Arrived(e, x))
    ensures Sorted(c.less, e.outs) && Settled(c.less, e.outs, e.window + (e.pending + [x]))
  {
    DisorderPrefix(c.less, e.ins, x, Slack(c));
    forall y, z | y in e.outs && z in e.window + (e.pending + [x]) ensures !c.less(z, y) {
      if z in e.window + e.pending {
      } else if c.less(x, y) {
        AboveBeatsNotBelow(c.less, e.ins, x, y);
      }
    }
  }

  lemma Arrive<T(!new)>(c: Config<T>, e: Epoch<T>, x: T)
    requires EpochOk(c, e)
    ensures EpochOk(c, Arrived(e, x))
  {
    var e' := Arrived(e, x);
    if CanSort(c) {
      forall y | y in e.outs ensures NotBelow(c.less, e'.ins, y) > Slack(c) { NotBelowGrows(c.less, e.ins, x, y); }
    }
    if Tolerated(c, e') { ArriveSettled(c, e, x); }
    assert e.outs + e.window + (e.pending + [x]) == (e.outs + e.window + e.pending) + [x];
  }

  // ---------------------------------------------------------------------------------------------
  // Emission
  // ---------------------------------------------------------------------------------------------

  /** What the window is once the pending entries have joined it. */
  ghost predicate Joined<T(!new)>(c: Config<T>, window: seq<T>, pending: seq<T>, merged: seq<T>) {
    && multiset(merged) == multiset(window) + multiset(pending)
    && (!c.enableSorting ==> merged == window + pending)
    && (c.enableSorting && StrictWeakOrder(c.less) && Sorted(c.less, window) ==> Sorted(c.less, merged))
  }

  lemma JoinedEpoch<T(!new)>(c: Config<T>, e: Epoch<T>, merged: seq<T>)
    requires EpochOk(c, e) && Joined(c, e.window, e.pending, merged)
    ensures EpochOk(c, e.(window := merged, pending := []))
  {
    var e' := e.(window := merged, pending := []);
    forall z | z in merged ensures z in e.window + e.pending { assert z in multiset(merged); }
    assert e.outs + (e.window + e.pending) + [] == e.outs + e.window + e.pending;
  }

  /** After an emission of n entries, each of those has more than Slack(c) elements of the window not below it. */
  lemma EmittedSupport<T(!new)>(c: Config<T>, merged: seq<T>, n: nat, k: nat)
    requires CanSort(c) && Sorted(c.less, merged) && k < n <= |merged| && |merged| - n >= Slack(c)
    ensures NotBelow(c.less, merged, merged[k]) > Slack(c)
  {
    var p := z => !c.less(z, merged[k]);
    assert merged == merged[..k] + merged[k..];
    CountConcat(merged[..k], merged[k..], p);
    CountAll(merged[k..], p);
  }

  lemma NotBelowPart<T>(less: Comparator<T>, ins: seq<T>, outs: seq<T>, window: seq<T>, y: T)
    requires multiset(ins) == multiset(outs) + multiset(window)
    ensures NotBelow(less, ins, y) >= NotBelow(less, window, y)
  {
    var p := z => !less(z, y);
    assert multiset(outs + window) == multiset(ins);
    CountSame(ins, outs + window, p);
    CountConcat(outs, window, p);
  }

  lemma SortedConcat<T>(less: Comparator<T>, a: seq<T>, b: seq<T>)
    requires Sorted(less, a) && Sorted(less, b) && Settled(less, a, b)
    ensures Sorted(less, a + b)
  {
    forall i, j | 0 <= i < j < |a + b| ensures !less((a + b)[j], (a + b)[i]) {
      if i < |a| && |a| <= j { assert a[i] in a && b[j - |a|] in b; }
    }
  }

  lemma EmitSettled<T(!new)>(c: Config<T>, e: Epoch<T>, n: nat)
    requires Tolerated(c, e) && EpochOk(c, e) && e.pending == [] && n <= |e.window|
    ensures Sorted(c.less, e.outs + e.window[..n]) && Settled(c.less, e.outs + e.window[..n], e.window[n..] + [])
  {
    assert e.window + e.pending == e.window;
    SortedConcat(c.less, e.outs, e.window[..n]);
  }

  function Emitted<T>(e: Epoch<T>, n: nat): Epoch<T>
    requires n <= |e.window|
  {
    Epoch(e.ins, e.outs + e.window[..n], e.window[n..], [])
  }

  lemma EmitSupported<T(!new)>(c: Config<T>, e: Epoch<T>, n: nat, y: T)
    requires EpochOk(c, e) && e.pending == [] && CanSort(c)
    requires n == OutputCount(c, |e.window|) && y in e.outs + e.window[..n]
    ensures NotBelow(c.less, e.ins, y) > Slack(c)
  {
    if y !in e.outs {
      var k :| 0 <= k < n && e.window[k] == y;
      EmittedSupport(c, e.window, n, k);
      NotBelowPart(c.less, e.ins, e.outs, e.window, y);
    }
  }

  lemma EmitConserves<T(!new)>(c: Config<T>, e: Epoch<T>, n: nat)
    requires EpochOk(c, e) && e.pending == [] && n <= |e.window|
    ensures var e' := Emitted(e, n);
            && multiset(e.ins) == multiset(e'.outs) + multiset(e'.window) + multiset(e'.pending)
            && (!c.enableSorting ==> e'.outs + e'.window + e'.pending == e.ins)
  {
    assert e.window == e.window[..n] + e.window[n..];
    assert e.outs + e.window + [] == e.outs + e.window[..n] + e.window[n..] + [];
  }

  lemma Emit<T(!new)>(c: Config<T>, e: Epoch<T>)
    requires EpochOk(c, e) && e.pending == []
    ensures EpochOk(c, Emitted(e, OutputCount(c, |e.window|)))
  {
    var n := OutputCount(c, |e.window|);
    var e' := Emitted(e, n);
    EmitConserves(c, e, n);
    if CanSort(c) {
      forall y | y in e'.outs ensures NotBelow(c.less, e.ins, y) > Slack(c) { EmitSupported(c, e, n, y); }
    }
    if Tolerated(c, e') { EmitSettled(c, e, n); }
  }

  function Flatten<T>(batches: seq<seq<T>>): seq<T> {
    if batches == [] then [] else Flatten(batches[..|batches| - 1]) + batches[|batches| - 1]
  }

  /** What one call of process_batch hands to the consumer: the first `n` entries, if there are any. */
  function Handed<T>(merged: seq<T>, n: nat): seq<seq<T>>
    requires n <= |merged|
  {
    if n == 0 then [] else [merged[..n]]
  }

  lemma FlattenHanded<T>(out: seq<seq<T>>, merged: seq<T>, n: nat)
    requires n <= |merged|
    ensures Flatten(out + Handed(merged, n)) == Flatten(out) + merged[..n]
  {
    if n == 0 {
      assert out + Handed(merged, n) == out;
    } else {
      assert (out + [merged[..n]])[..|out|] == out;
    }
  }

  /** `whole` ends with `part`. */
  ghost predicate EndsWith<T>(whole: seq<T>, part: seq<T>) {
    |part| <= |whole| && whole[|whole| - |part|..] == part
  }

  /** Every entry added from the first on, against all that was handed over and all that is held. */
  ghost predicate Conserved<T>(inputs: seq<T>, outputs: seq<T>, window: seq<T>, pending: seq<T>) {
    multiset(inputs) == multiset(outputs) + multiset(window) + multiset(pending)
  }

  /** What process_batch does to an epoch: join, emit `n`, keep the rest. */
  ghost predicate Processed<T(!new)>(c: Config<T>, e: Epoch<T>, merged: seq<T>, n: nat, e': Epoch<T>) {
    && Joined(c, e.window, e.pending, merged)
    && n <= |merged|
    && e' == Epoch(e.ins, e.outs + merged[..n], merged[n..], [])
  }

  lemma ProcessedOk<T(!new)>(c: Config<T>, e: Epoch<T>, merged: seq<T>, e': Epoch<T>)
    requires EpochOk(c, e) && Processed(c, e, merged, OutputCount(c, |merged|), e')
    ensures EpochOk(c, e') && |e'.window| <= c.windowSize
  {
    JoinedEpoch(c, e, merged);
    Emit(c, e.(window := merged, pending := []));
  }

  lemma MoveOut<T>(o: multiset<T>, w: multiset<T>, p: multiset<T>, a: multiset<T>, b: multiset<T>)
    requires a + b == w + p
    ensures o + w + p == o + a + b
  {
    assert o + w + p == o + (w + p);
    assert o + a + b == o + (a + b);
  }

  lemma EndsWithMore<T>(whole: seq<T>, part: seq<T>, more: seq<T>)
    requires EndsWith(whole, part)
    ensures EndsWith(whole + more, part + more)
  {
  }

  lemma ProcessedConserves<T(!new)>(
      c: Config<T>, e: Epoch<T>, merged: seq<T>, n: nat, e': Epoch<T>, inputs: seq<T>, outputs: seq<T>)
    requires Processed(c, e, merged, n, e') && Conserved(inputs, outputs, e.window, e.pending)
    ensures Conserved(inputs, outputs + merged[..n], e'.window, e'.pending)
  {
    assert merged == merged[..n] + merged[n..];
    MoveOut(multiset(outputs), multiset(e.window), multiset(e.pending), multiset(merged[..n]), multiset(merged[n..]));
  }

  /** What the counters and the history say of one another. */
  ghost predicate Accounted<T>(total: nat, out: seq<seq<T>>, inputs: seq<T>, e: Epoch<T>) {
    && total == |Flatten(out)|
    && Conserved(inputs, Flatten(out), e.window, e.pending)
    && EndsWith(inputs, e.ins) && EndsWith(Flatten(out), e.outs)
  }

  lemma ProcessedAccounts<T(!new)>(
      c: Config<T>, e: Epoch<T>, merged: seq<T>, n: nat, e': Epoch<T>, total: nat, out: seq<seq<T>>, inputs: seq<T>)
    requires Processed(c, e, merged, n, e') && Accounted(total, out, inputs, e)
    ensures Accounted(total + n, out + Handed(merged, n), inputs, e')
  {
    FlattenHanded(out, merged, n);
    EndsWithMore(Flatten(out), e.outs, merged[..n]);
    ProcessedConserves(c, e, merged, n, e', inputs, Flatten(out));
  }

  lemma EmptyEpoch<T(!new)>(c: Config<T>)
    ensures EpochOk(c, Epoch([], [], [], []))
  {
  }

  lemma NothingProcessed<T(!new)>(c: Config<T>, e: Epoch<T>)
    requires e.window == [] && e.pending == []
    ensures Processed(c, e, [], 0, e) && OutputCount(c, 0) == 0
  {
    assert e.outs + [] == e.outs;
  }

  lemma ArriveAccounts<T>(total: nat, out: seq<seq<T>>, inputs: seq<T>, e: Epoch<T>, x: T)
    requires Accounted(total, out, inputs, e)
    ensures Accounted(total, out, inputs + [x], Arrived(e, x))
  {
    EndsWithMore(inputs, e.ins, [x]);
  }

  function ArrivedAll<T>(e: Epoch<T>, xs: seq<T>): Epoch<T> {
    e.(ins := e.ins + xs, pending := e.pending + xs)
  }

  lemma ArriveAllAccounts<T>(total: nat, out: seq<seq<T>>, inputs: seq<T>, e: Epoch<T>, xs: seq<T>)
    requires Accounted(total, out, inputs, e)
    ensures Accounted(total, out, inputs + xs, ArrivedAll(e, xs))
  {
    EndsWithMore(inputs, e.ins, xs);
  }

  lemma {:induction false} ArriveAll<T(!new)>(c: Config<T>, e: Epoch<T>, xs: seq<T>)
    requires EpochOk(c, e)
    ensures EpochOk(c, ArrivedAll(e, xs))
    decreases |xs|
  {
    if xs == [] {
      assert ArrivedAll(e, xs) == e;
    } else {
      Arrive(c, e, xs[0]);
      ArriveAll(c, Arrived(e, xs[0]), xs[1..]);
      assert xs == [xs[0]] + xs[1..];
      assert e.ins + xs == e.ins + [xs[0]] + xs[1..] && e.pending + xs == e.pending + [xs[0]] + xs[1..];
    }
  }

  /** The last emission of an epoch takes everything, and a tolerated epoch then reads sorted. */
  lemma FlushSorts<T(!new)>(c: Config<T>, e: Epoch<T>, merged: seq<T>, e': Epoch<T>)
    requires EpochOk(c, e) && Processed(c, e, merged, |merged|, e')
    ensures e'.window == [] && multiset(e'.outs) == multiset(e.ins)
    ensures !c.enableSorting ==> e'.outs == e.ins
    ensures Tolerated(c, e) ==> Sorted(c.less, e'.outs)
  {
    assert merged[..|merged|] == merged;
    JoinedEpoch(c, e, merged);
    var j := e.(window := merged, pending := []);
    if Tolerated(c, e) {
      EmitSettled(c, j, |merged|);
    }
    assert multiset(e'.outs) == multiset(e.ins);
    assert j.outs + j.window + j.pending == e'.outs;
  }

  // ---------------------------------------------------------------------------------------------
  // The sorter
  // ---------------------------------------------------------------------------------------------

  class Sorter<T(!new)> {
    var config: Config<T>
    var window: seq<T>
    var pending: seq<T>
    /** The batches handed to the consumer, one per call. */
    var out: seq<seq<T>>
    var totalProcessed: nat
    var mergeOperations: nat
    var sortOperations: nat
    /** Everything ever added, and the current epoch; read by no operation. */
    ghost var inputs: seq<T>
    ghost var epoch: Epoch<T>

    ghost predicate Valid()
      reads this
    {
      && Accounted(totalProcessed, out, inputs, epoch)
      && |window| <= config.windowSize
      && epoch.window == window && epoch.pending == pending
      && EpochOk(config, epoch)
    }

    constructor (c: Config<T>)
      ensures Valid() && config == c && out == [] && inputs == []
      ensures epoch == Epoch([], [], [], [])
    {
      config, window, pending, out := c, [], [], [];
      totalProcessed, mergeOperations, sortOperations := 0, 0, 0;
      inputs, epoch := [], Epoch([], [], [], []);
      EmptyEpoch(c);
    }

    predicate ShouldProcess()
      reads this
    {
      |pending| >= config.batchSize
    }

    /** merge_with_window: the capacity of the vector, which decides on the merge used, is left open. */
    method MergeWithWindow()
      modifies `window, `pending
      ensures pending == [] && multiset(window) == multiset(old(window)) + multiset(old(pending))
      ensures StrictWeakOrder(config.less) && Sorted(config.less, old(window)) && Sorted(config.less, old(pending)) ==>
                window == Merge(config.less, old(window), old(pending))
    {
      var roomy: bool := *;
      if config.useInplaceMerge && roomy {
        var middle := |window|;
        window := window + pending;
        assert window[..middle] == old(window) && window[middle..] == old(pending);
        window := InplaceMerge(window, middle, config.less);
        if StableMerge(config.less, old(window), old(pending), window) {
          StableIsMerge(config.less, old(window), old(pending), window);
        }
      } else {
        MergeKeeps(config.less, window, pending);
        var buffer := Merge(config.less, window, pending);
        window := buffer;
      }
      pending := [];
    }

    method SortAndMerge()
      modifies `window, `pending, `sortOperations, `mergeOperations
      ensures pending == []
      ensures multiset(window) == multiset(old(window)) + multiset(old(pending))
      ensures StrictWeakOrder(config.less) && Sorted(config.less, old(window)) ==> Sorted(config.less, window)
      ensures sortOperations == old(sortOperations) + if old(pending) == [] then 0 else 1
      ensures mergeOperations ==
              old(mergeOperations) + if old(pending) == [] || old(window) == [] then 0 else 1
    {
      if pending == [] { return; }
      if |pending| <= config.mergeThreshold {
        var a := new T[|pending|](i requires 0 <= i < |pending| reads this => pending[i]);
        assert a[..] == pending;
        InsertionSort(a, config.less);
        pending := a[..];
      } else {
        pending := StdSort(pending, config.less);
      }
      sortOperations := sortOperations + 1;
      if window == [] {
        window := pending;
        pending := [];
      } else {
        if StrictWeakOrder(config.less) && Sorted(config.less, window) {
          MergeSorts(config.less, window, pending);
        }
        MergeWithWindow();
        mergeOperations := mergeOperations + 1;
      }
    }

    method OutputEntries(count: nat)
      modifies `window, `out, `totalProcessed
      ensures var n := Min(count, |old(window)|);
              && window == old(window)[n..]
              && out == old(out) + Handed(old(window), n)
              && totalProcessed == old(totalProcessed) + n
    {
      if count == 0 || window == [] { return; }
      var end := Min(count, |window|);
      var output := window[..end];
      window := window[end..];
      out := out + [output];
      totalProcessed := totalProcessed + |output|;
    }

    /** maintain_window_size: the entries in excess are erased, without reaching the consumer. */
    method MaintainWindowSize()
      modifies `window
      ensures window == if |old(window)| > config.windowSize
                        then old(window)[|old(window)| - config.windowSize..] else old(window)
    {
      if |window| > config.windowSize {
        var excess := |window| - config.windowSize;
        window := window[excess..];
      }
    }

    method Join()
      modifies `window, `pending, `sortOperations, `mergeOperations
      ensures pending == [] && Joined(config, old(window), old(pending), window)
    {
      if config.enableSorting {
        SortAndMerge();
      } else {
        window := window + pending;
        pending := [];
      }
    }

    method Release(forceAll: bool)
      modifies `window, `out, `totalProcessed
      ensures var merged := old(window);
              var n := if forceAll then |merged| else OutputCount(config, |merged|);
              && window == merged[n..]
              && out == old(out) + Handed(merged, n)
              && totalProcessed == old(totalProcessed) + n
    {
      var outputCount := if forceAll then |window|
                         else if |window| < config.windowSize then 0
                         else Max(|window| - config.windowSize, config.batchSize);
      if outputCount > 0 {
        OutputEntries(outputCount);
      }
      MaintainWindowSize();
    }

    method JoinAndRelease(forceAll: bool) returns (ghost merged: seq<T>)
      modifies `window, `pending, `sortOperations, `mergeOperations, `out, `totalProcessed
      ensures Joined(config, old(window), old(pending), merged) && pending == []
      ensures |merged| == |old(window)| + |old(pending)|
      ensures var n := if forceAll then |merged| else OutputCount(config, |merged|);
              && window == merged[n..]
              && out == old(out) + Handed(merged, n)
              && totalProcessed == old(totalProcessed) + n
    {
      Join();
      merged := window;
      JoinedLength(config, old(window), old(pending), merged);
      Release(forceAll);
    }

    /** The only place where entries leave: what is joined is handed over or kept, and never erased. */
    method ProcessBatch(forceAll: bool) returns (ghost merged: seq<T>)
      requires Valid()
      modifies this
      ensures config == old(config) && inputs == old(inputs)
      ensures var n := if forceAll then |merged| else OutputCount(config, |merged|);
              && Processed(config, old(epoch), merged, n, epoch)
              && out == old(out) + Handed(merged, n)
              && window == merged[n..] && pending == []
              && totalProcessed == old(totalProcessed) + n
      ensures |merged| == |old(window)| + |old(pending)|
      ensures Accounted(totalProcessed, out, inputs, epoch)
      ensures !forceAll ==> Valid()
    {
      if pending == [] && window == [] {
        merged := [];
        NothingProcessed(config, epoch);
        return;
      }
      merged := JoinAndRelease(forceAll);
      ghost var n := if forceAll then |merged| else OutputCount(config, |merged|);
      epoch := Epoch(epoch.ins, epoch.outs + merged[..n], window, []);
      ProcessedAccounts(config, old(epoch), merged, n, epoch, old(totalProcessed), old(out), inputs);
      if !forceAll { ProcessedOk(config, old(epoch), merged, epoch); }
    }

    /**
     * What has happened to the `held` entries, of which `waiting` had not been sorted in: below the batch
     * size they are all kept; otherwise so many have gone out as the window and the batch ask for.
     */
    ghost predicate Passes(held: nat, waiting: nat, total0: nat)
      reads this
    {
      && totalProcessed >= total0
      && |window| + |pending| == held - (totalProcessed - total0)
      && (if waiting < config.batchSize then totalProcessed == total0
          else pending == [] && HandsOver(config, held, totalProcessed - total0))
    }

    /** Processes a batch if there are enough entries for one. */
    method ProcessIfDue() returns (ghost merged: seq<T>)
      requires Valid()
      modifies this
      ensures Valid() && config == old(config) && inputs == old(inputs)
      ensures |old(pending)| < config.batchSize ==> epoch == old(epoch) && out == old(out)
      ensures |old(pending)| >= config.batchSize ==>
                var n := OutputCount(config, |merged|);
                && Processed(config, old(epoch), merged, n, epoch)
                && out == old(out) + Handed(merged, n)
      ensures Passes(|old(window)| + |old(pending)|, |old(pending)|, old(totalProcessed))
    {
      merged := [];
      if ShouldProcess() {
        merged := ProcessBatch(false);
        OutputHandsOver(config, |merged|);
      }
    }

    /** add_entry. */
    method AddEntry(entry: T) returns (ghost merged: seq<T>)
      requires Valid()
      modifies this
      ensures Valid() && config == old(config)
      ensures inputs == old(inputs) + [entry]
      ensures |old(pending)| + 1 < config.batchSize ==>
                epoch == Arrived(old(epoch), entry) && out == old(out)
      ensures Passes(|old(window)| + |old(pending)| + 1, |old(pending)| + 1, old(totalProcessed))
      ensures |old(pending)| + 1 >= config.batchSize ==>
                var n := OutputCount(config, |merged|);
                && Processed(config, Arrived(old(epoch), entry), merged, n, epoch)
                && out == old(out) + Handed(merged, n)
    {
      merged := [];
      Arrive(config, epoch, entry);
      ArriveAccounts(totalProcessed, out, inputs, epoch, entry);
      pending := pending + [entry];
      inputs, epoch := inputs + [entry], Arrived(epoch, entry);
      merged := ProcessIfDue();
    }

    method AddSome(entries: seq<T>) returns (ghost merged: seq<T>)
      requires Valid()
      modifies this
      ensures Valid() && config == old(config) && inputs == old(inputs) + entries
      ensures Passes(|old(window)| + |old(pending)| + |entries|, |old(pending)| + |entries|, old(totalProcessed))
      ensures |old(pending)| + |entries| < config.batchSize ==> epoch == ArrivedAll(old(epoch), entries) && out == old(out)
      ensures |old(pending)| + |entries| >= config.batchSize ==>
                var n := OutputCount(config, |merged|);
                && Processed(config, ArrivedAll(old(epoch), entries), merged, n, epoch)
                && out == old(out) + Handed(merged, n)
    {
      ArriveAll(config, epoch, entries);
      ArriveAllAccounts(totalProcessed, out, inputs, epoch, entries);
      pending := pending + entries;
      inputs, epoch := inputs + entries, ArrivedAll(epoch, entries);
      merged := ProcessIfDue();
    }

    /** add_entries: an empty list does nothing. */
    method AddEntries(entries: seq<T>) returns (ghost merged: seq<T>)
      requires Valid()
      modifies this
      ensures Valid() && config == old(config)
      ensures inputs == old(inputs) + entries
      ensures entries == [] ==> epoch == old(epoch) && out == old(out)
      ensures entries != [] ==>
                Passes(|old(window)| + |old(pending)| + |entries|, |old(pending)| + |entries|, old(totalProcessed))
      ensures entries != [] && |old(pending)| + |entries| < config.batchSize ==>
                epoch == ArrivedAll(old(epoch), entries) && out == old(out)
      ensures entries != [] && |old(pending)| + |entries| >= config.batchSize ==>
                var n := OutputCount(config, |merged|);
                && Processed(config, ArrivedAll(old(epoch), entries), merged, n, epoch)
                && out == old(out) + Handed(merged, n)
    {
      merged := [];
      if entries == [] {
        assert inputs + entries == inputs;
        return;
      }
      merged := AddSome(entries);
    }

    /**
     * flush: all that is held goes out, and a new epoch begins. `flushed` is the epoch that ends: the
     * concatenation of the batches handed over since the flush before, in the order of the calls.
     */
    method Flush() returns (ghost flushed: Epoch<T>)
      requires Valid()
      modifies this
      ensures Valid() && config == old(config) && inputs == old(inputs)
      ensures window == [] && pending == [] && epoch == Epoch([], [], [], [])
      ensures EndsWith(Flatten(out), flushed.outs) && flushed.ins == old(epoch).ins
      ensures old(epoch).outs <= flushed.outs && |out| <= |old(out)| + 1 && old(out) <= out
      ensures multiset(flushed.outs) == multiset(flushed.ins)
      ensures !config.enableSorting ==> flushed.outs == flushed.ins
      ensures Tolerated(config, old(epoch)) ==> Sorted(config.less, flushed.outs)
    {
      ghost var merged: seq<T> := [];
      if pending != [] || window != [] {
        merged := ProcessBatch(true);
      } else {
        NothingProcessed(config, epoch);
      }
      FlushSorts(config, old(epoch), merged, epoch);
      flushed := epoch;
      epoch := Epoch([], [], [], []);
      EmptyEpoch(config);
    }

    /** reconfigure: what the old configuration held has gone out before the new one takes over. */
    method Reconfigure(c: Config<T>) returns (ghost flushed: Epoch<T>)
      requires Valid()
      modifies this
      ensures Valid() && config == c && inputs == old(inputs)
      ensures window == [] && pending == [] && epoch == Epoch([], [], [], [])
      ensures EndsWith(Flatten(out), flushed.outs) && flushed.ins == old(epoch).ins
      ensures multiset(flushed.outs) == multiset(flushed.ins)
      ensures !old(config).enableSorting ==> flushed.outs == flushed.ins
      ensures Tolerated(old(config), old(epoch)) ==> Sorted(old(config).less, flushed.outs)
    {
      flushed := Flush();
      config := c;
      EmptyEpoch(c);
    }
  }
}
