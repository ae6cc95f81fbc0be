/**
 The optimistic dequeue protocol of the concurrent queue: a dequeuer first counts itself in on
 `dequeueOptimisticCount`, then decides from a possibly stale `dequeueOvercommit` whether there is
 anything for it, and either takes indices from `headIndex` or gives its count back on
 `dequeueOvercommit`. Any number of dequeuers run at once, each for at most `max` items; `dequeue`
 is the case `max == 1`. One step is one atomic operation. Indices are unbounded here; module
 Circular relates them to wrapped ones.
 */
module Overcommit {

  datatype Pc =
    | Idle
    | LoadTail(max: nat)                                         // read tailIndex
    | LoadOvercommit(max: nat, tail: nat)                        // read dequeueOvercommit
    | LoadCount(max: nat, tail: nat, over: nat)                  // read dequeueOptimisticCount, decide whether to try
    | CountIn(over: nat, desired: nat)                           // dequeueOptimisticCount += desired
    | Reload(over: nat, desired: nat, mine: nat, ticket: nat)    // read tailIndex again, decide how much is there
    | GiveBack(amount: nat, granted: nat, ticket: nat)           // dequeueOvercommit += amount
    | TakeHead(granted: nat, ticket: nat)                        // headIndex += granted

  /**
   History, one entry per count-in, in the order of the count-ins: how much was counted in, the
   overcommit value the dequeuer had read, how much it then found it may take, how much of that
   it has taken from the head, and how much it has given back. No step reads it.
   */
  datatype Book = Book(desired: seq<nat>, seen: seq<nat>, granted: seq<nat>, taken: seq<nat>, returned: seq<nat>)

  /** `claims` is history too: the index ranges handed out, in order. */
  datatype State = State(
    tail: nat,
    head: nat,
    count: nat,
    overcommit: nat,
    pcs: seq<Pc>,
    book: Book,
    claims: seq<(nat, nat)>
  )

  ghost predicate Init(s: State) {
    && s.tail == s.head == s.count == s.overcommit == 0
    && (forall t :: 0 <= t < |s.pcs| ==> s.pcs[t] == Idle)
    && s.book == Book([], [], [], [], [])
    && s.claims == []
  }

  function Go(s: State, t: nat, pc: Pc): State
    requires t < |s.pcs|
  {
    s.(pcs := s.pcs[t := pc])
  }

  function Min(a: nat, b: nat): nat {
    if a < b then a else b
  }

  /** The enqueuing thread makes `n` more elements visible. */
  ghost predicate EnqueueStep(s: State, s': State, n: nat) {
    s' == s.(tail := s.tail + n)
  }

  ghost predicate DequeueStep(s: State, s': State, t: nat)
    requires t < |s.pcs|
  {
    match s.pcs[t]
    case Idle =>
      exists max: nat :: max >= 1 && s' == Go(s, t, LoadTail(max))
    case LoadTail(max) =>
      s' == Go(s, t, LoadOvercommit(max, s.tail))
    case LoadOvercommit(max, tail) =>
      s' == Go(s, t, LoadCount(max, tail, s.overcommit))
    case LoadCount(max, tail, over) =>
      var available := tail - (s.count - over);
      s' == Go(s, t, if available > 0 then CountIn(over, Min(available, max)) else Idle)
    case CountIn(over, desired) =>
      s' == Go(s, t, Reload(over, desired, s.count, |s.book.desired|))
            .(count := s.count + desired,
              book := Book(s.book.desired + [desired], s.book.seen + [over], s.book.granted + [0],
                           s.book.taken + [0], s.book.returned + [0]))
    case Reload(over, desired, mine, k) =>
      var available := s.tail - (mine - over);
      var granted := if available > 0 then Min(desired, available) else 0;
      s' == Go(s, t, if granted < desired then GiveBack(desired - granted, granted, k) else TakeHead(granted, k))
            .(book := if k < |s.book.granted| then s.book.(granted := s.book.granted[k := granted]) else s.book)
    case GiveBack(amount, granted, k) =>
      s' == Go(s, t, if granted > 0 then TakeHead(granted, k) else Idle)
            .(overcommit := s.overcommit + amount,
              book := if k < |s.book.returned| then s.book.(returned := s.book.returned[k := amount]) else s.book)
    case TakeHead(granted, k) =>
      s' == Go(s, t, Idle)
            .(head := s.head + granted,
              claims := s.claims + [(s.head, s.head + granted)],
              book := if k < |s.book.taken| then s.book.(taken := s.book.taken[k := granted]) else s.book)
  }

  /** A dequeuer is never blocked. */
  lemma DequeueGoes(s: State, t: nat) returns (s': State)
    requires t < |s.pcs|
    ensures DequeueStep(s, s', t) && |s'.pcs| == |s.pcs|
  {
    match s.pcs[t]
    case Idle =>
      s' := Go(s, t, LoadTail(1));
    case LoadTail(max) =>
      s' := Go(s, t, LoadOvercommit(max, s.tail));
    case LoadOvercommit(max, tail) =>
      s' := Go(s, t, LoadCount(max, tail, s.overcommit));
    case LoadCount(max, tail, over) =>
      var available := tail - (s.count - over);
      s' := Go(s, t, if available > 0 then CountIn(over, Min(available, max)) else Idle);
    case CountIn(over, desired) =>
      s' := Go(s, t, Reload(over, desired, s.count, |s.book.desired|))
            .(count := s.count + desired,
              book := Book(s.book.desired + [desired], s.book.seen + [over], s.book.granted + [0],
                           s.book.taken + [0], s.book.returned + [0]));
    case Reload(over, desired, mine, k) =>
      var available := s.tail - (mine - over);
      var granted := if available > 0 then Min(desired, available) else 0;
      s' := Go(s, t, if granted < desired then GiveBack(desired - granted, granted, k) else TakeHead(granted, k))
            .(book := if k < |s.book.granted| then s.book.(granted := s.book.granted[k := granted]) else s.book);
    case GiveBack(amount, granted, k) =>
      s' := Go(s, t, if granted > 0 then TakeHead(granted, k) else Idle)
            .(overcommit := s.overcommit + amount,
              book := if k < |s.book.returned| then s.book.(returned := s.book.returned[k := amount]) else s.book);
    case TakeHead(granted, k) =>
      s' := Go(s, t, Idle)
            .(head := s.head + granted,
              claims := s.claims + [(s.head, s.head + granted)],
              book := if k < |s.book.taken| then s.book.(taken := s.book.taken[k := granted]) else s.book);
  }

  ghost predicate Step(s: State, s': State) {
    || (exists n :: EnqueueStep(s, s', n))
    || (exists t :: 0 <= t < |s.pcs| && DequeueStep(s, s', t))
  }

  // ---------------------------------------------------------------------------------------------
  // Sums
  // ---------------------------------------------------------------------------------------------

  function Sum(xs: seq<nat>): nat {
    if xs == [] then 0 else Sum(xs[..|xs| - 1]) + xs[|xs| - 1]
  }

  lemma SumSnoc(xs: seq<nat>, x: nat)
    ensures Sum(xs + [x]) == Sum(xs) + x
  {
    assert (xs + [x])[..|xs|] == xs;
  }

  lemma {:induction false} SumUpdate(xs: seq<nat>, k: nat, v: nat)
    requires k < |xs|
    ensures Sum(xs[k := v]) + xs[k] == Sum(xs) + v
  {
    var n := |xs| - 1;
    if k == n {
      assert xs[k := v][..n] == xs[..n];
    } else {
      SumUpdate(xs[..n], k, v);
      assert xs[k := v][..n] == xs[..n][k := v];
    }
  }

  lemma {:induction false} SumMonotone(xs: seq<nat>, ys: seq<nat>)
    requires |xs| == |ys| && forall i :: 0 <= i < |xs| ==> xs[i] <= ys[i]
    ensures Sum(xs) <= Sum(ys)
  {
    if xs != [] { SumMonotone(xs[..|xs| - 1], ys[..|ys| - 1]); }
  }

  lemma {:induction false} SumPrefix(xs: seq<nat>, k: nat)
    requires k <= |xs|
    ensures Sum(xs[..k]) <= Sum(xs)
    decreases |xs|
  {
    if k < |xs| {
      SumPrefix(xs[..|xs| - 1], k);
      assert xs[..|xs| - 1][..k] == xs[..k];
    } else {
      assert xs[..k] == xs;
    }
  }

  // ---------------------------------------------------------------------------------------------
  // The invariant
  // ---------------------------------------------------------------------------------------------

  ghost predicate BookShape(b: Book) {
    |b.desired| == |b.seen| == |b.granted| == |b.taken| == |b.returned|
  }

  /** What the k-th count-in found out about its own share. */
  ghost predicate EntryOk(b: Book, k: nat, tail: nat)
    requires BookShape(b) && k < |b.desired|
  {
    && b.granted[k] + b.returned[k] <= b.desired[k]
    && b.taken[k] <= b.granted[k]
    // The overcommit value it had read came from earlier count-ins only.
    && b.seen[k] <= Sum(b.returned[..k])
    // And it was granted no more than the tail it then saw allowed.
    && (b.granted[k] > 0 ==> Sum(b.desired[..k]) + b.granted[k] <= tail + b.seen[k])
  }

  /** Nothing more will be booked for the k-th count-in. */
  predicate Settled(b: Book, k: nat)
    requires BookShape(b) && k < |b.desired|
  {
    b.taken[k] == b.granted[k] && b.granted[k] + b.returned[k] == b.desired[k]
  }

  predicate HasTicket(pc: Pc) {
    pc.Reload? || pc.GiveBack? || pc.TakeHead?
  }

  ghost predicate PcOk(pc: Pc, b: Book, overcommit: nat)
    requires BookShape(b)
  {
    match pc
    case LoadTail(max) => max >= 1
    case LoadOvercommit(max, _) => max >= 1
    case LoadCount(max, _, over) => max >= 1 && over <= overcommit
    case CountIn(over, desired) => desired >= 1 && over <= overcommit
    case Reload(over, desired, mine, k) =>
      && desired >= 1 && k < |b.desired| && mine == Sum(b.desired[..k])
      && b.desired[k] == desired && b.seen[k] == over && b.granted[k] == b.taken[k] == b.returned[k] == 0
    case GiveBack(amount, granted, k) =>
      && k < |b.desired| && b.granted[k] == granted && amount + granted == b.desired[k]
      && b.taken[k] == b.returned[k] == 0
    case TakeHead(granted, k) =>
      && k < |b.desired| && b.granted[k] == granted && granted >= 1 && b.taken[k] == 0
      && granted + b.returned[k] == b.desired[k]
    case _ => true
  }

  /** The claims follow one another from index 0 up to the head. */
  ghost predicate Tiles(claims: seq<(nat, nat)>, head: nat) {
    && (claims == [] ==> head == 0)
    && (claims != [] ==> claims[0].0 == 0 && claims[|claims| - 1].1 == head)
    && (forall i :: 0 <= i < |claims| ==> claims[i].0 <= claims[i].1)
    && (forall i :: 0 <= i < |claims| - 1 ==> claims[i].1 == claims[i + 1].0)
  }

  ghost predicate Inv(s: State) {
    && BookShape(s.book)
    && s.count == Sum(s.book.desired)
    && s.overcommit == Sum(s.book.returned)
    && s.head == Sum(s.book.taken)
    && (forall k :: 0 <= k < |s.book.desired| ==> EntryOk(s.book, k, s.tail))
    && (forall t :: 0 <= t < |s.pcs| ==> PcOk(s.pcs[t], s.book, s.overcommit))
    && (forall t, u :: 0 <= t < |s.pcs| && 0 <= u < |s.pcs| && t != u && HasTicket(s.pcs[t]) && HasTicket(s.pcs[u]) ==>
          s.pcs[t].ticket != s.pcs[u].ticket)
    && (forall k :: 0 <= k < |s.book.desired| ==> Settled(s.book, k) || Held(s.pcs, k))
    && Tiles(s.claims, s.head)
  }

  ghost predicate Held(pcs: seq<Pc>, k: nat) {
    exists t :: 0 <= t < |pcs| && HasTicket(pcs[t]) && pcs[t].ticket == k
  }

  /**
   The counting argument. Of what earlier count-ins wanted, at least what the last grantee had
   seen returned was not granted; so all the grants together fit below the tail it saw.
   */
  lemma {:induction false} GrantsFit(b: Book, tail: nat)
    requires BookShape(b) && forall k :: 0 <= k < |b.desired| ==> EntryOk(b, k, tail)
    ensures Sum(b.granted) <= tail
    decreases |b.desired|
  {
    if |b.desired| > 0 {
      var n := |b.desired| - 1;
      var before := Book(b.desired[..n], b.seen[..n], b.granted[..n], b.taken[..n], b.returned[..n]);
      if b.granted[n] == 0 {
        forall k | 0 <= k < n ensures EntryOk(before, k, tail) {
          assert EntryOk(b, k, tail);
          assert before.returned[..k] == b.returned[..k] && before.desired[..k] == b.desired[..k];
        }
        GrantsFit(before, tail);
      } else {
        assert EntryOk(b, n, tail);
        SharesFit(b.granted[..n], b.returned[..n], b.desired[..n]) by {
          forall k | 0 <= k < n ensures b.granted[k] + b.returned[k] <= b.desired[k] { assert EntryOk(b, k, tail); }
        }
      }
    }
  }

  lemma {:induction false} SharesFit(granted: seq<nat>, returned: seq<nat>, desired: seq<nat>)
    requires |granted| == |returned| == |desired|
    requires forall k :: 0 <= k < |desired| ==> granted[k] + returned[k] <= desired[k]
    ensures Sum(granted) + Sum(returned) <= Sum(desired)
  {
    var n := |desired| - 1;
    if desired != [] { SharesFit(granted[..n], returned[..n], desired[..n]); }
  }

  // ---------------------------------------------------------------------------------------------
  // Every step keeps it
  // ---------------------------------------------------------------------------------------------

  lemma InitInv(s: State)
    requires Init(s)
    ensures Inv(s)
  {
  }

  lemma EnqueueInv(s: State, s': State, n: nat)
    requires Inv(s) && EnqueueStep(s, s', n)
    ensures Inv(s')
  {
    forall k | 0 <= k < |s.book.desired| ensures EntryOk(s'.book, k, s'.tail) { assert EntryOk(s.book, k, s.tail); }
  }

  /** The part of the invariant about who holds which ticket. */
  ghost predicate Threads(pcs: seq<Pc>, b: Book, overcommit: nat) {
    && BookShape(b)
    && (forall t :: 0 <= t < |pcs| ==> PcOk(pcs[t], b, overcommit))
    && (forall t, u :: 0 <= t < |pcs| && 0 <= u < |pcs| && t != u && HasTicket(pcs[t]) && HasTicket(pcs[u]) ==>
          pcs[t].ticket != pcs[u].ticket)
    && (forall k :: 0 <= k < |b.desired| ==> Settled(b, k) || Held(pcs, k))
  }

  /** A step of `t` that rewrites at most the book entry of its own ticket. */
  lemma ThreadsStep(pcs: seq<Pc>, pcs': seq<Pc>, t: nat, b: Book, b': Book, overcommit: nat, overcommit': nat)
    requires Threads(pcs, b, overcommit) && BookShape(b') && overcommit <= overcommit'
    requires t < |pcs| && |pcs'| == |pcs| && pcs' == pcs[t := pcs'[t]] && PcOk(pcs'[t], b', overcommit')
    requires b'.desired == b.desired
    requires forall k :: 0 <= k < |b.desired| ==> SameEntry(b, b', k) || (HasTicket(pcs[t]) && k == pcs[t].ticket)
    requires HasTicket(pcs'[t]) ==> HasTicket(pcs[t]) && pcs'[t].ticket == pcs[t].ticket
    requires HasTicket(pcs[t]) && !HasTicket(pcs'[t]) ==> pcs[t].ticket < |b.desired| && Settled(b', pcs[t].ticket)
    ensures Threads(pcs', b', overcommit')
  {
    forall u | 0 <= u < |pcs| && u != t ensures PcOk(pcs'[u], b', overcommit') {
      assert PcOk(pcs[u], b, overcommit);
      if HasTicket(pcs[u]) { assert SameEntry(b, b', pcs[u].ticket); }
    }
    forall k | 0 <= k < |b'.desired| ensures Settled(b', k) || Held(pcs', k) {
      assert Settled(b, k) || Held(pcs, k);
      if HasTicket(pcs'[t]) && pcs'[t].ticket == k {
      } else if Held(pcs, k) {
        var u :| 0 <= u < |pcs| && HasTicket(pcs[u]) && pcs[u].ticket == k;
        assert u != t ==> pcs'[u] == pcs[u];
      } else {
        assert SameEntry(b, b', k);
      }
    }
  }

  predicate SameEntry(b: Book, b': Book, k: nat)
    requires BookShape(b) && BookShape(b') && k < |b.desired| == |b'.desired|
  {
    && b'.seen[k] == b.seen[k] && b'.granted[k] == b.granted[k]
    && b'.taken[k] == b.taken[k] && b'.returned[k] == b.returned[k]
  }

  lemma LoadInv(s: State, s': State, t: nat)
    requires Inv(s) && t < |s.pcs| && DequeueStep(s, s', t)
    requires s.pcs[t].Idle? || s.pcs[t].LoadTail? || s.pcs[t].LoadOvercommit? || s.pcs[t].LoadCount?
    ensures Inv(s')
  {
    assert PcOk(s.pcs[t], s.book, s.overcommit);
    assert s' == Go(s, t, s'.pcs[t]);
    ThreadsStep(s.pcs, s'.pcs, t, s.book, s.book, s.overcommit, s.overcommit);
  }

  /** The book after one more count-in. */
  function Opened(b: Book, desired: nat, seen: nat): Book {
    Book(b.desired + [desired], b.seen + [seen], b.granted + [0], b.taken + [0], b.returned + [0])
  }

  lemma EntriesGrow(b: Book, desired: nat, seen: nat, tail: nat)
    requires BookShape(b) && (forall k :: 0 <= k < |b.desired| ==> EntryOk(b, k, tail)) && seen <= Sum(b.returned)
    ensures forall k :: 0 <= k <= |b.desired| ==> EntryOk(Opened(b, desired, seen), k, tail)
  {
    var b' := Opened(b, desired, seen);
    forall k | 0 <= k <= |b.desired| ensures EntryOk(b', k, tail) {
      assert b'.returned[..k] == b.returned[..k] && b'.desired[..k] == b.desired[..k];
      if k < |b.desired| { assert EntryOk(b, k, tail); } else { assert b.returned[..k] == b.returned; }
    }
  }

  lemma ThreadsGrow(pcs: seq<Pc>, t: nat, b: Book, desired: nat, seen: nat, overcommit: nat)
    requires Threads(pcs, b, overcommit) && t < |pcs| && !HasTicket(pcs[t]) && desired >= 1
    ensures Threads(pcs[t := Reload(seen, desired, Sum(b.desired), |b.desired|)], Opened(b, desired, seen), overcommit)
  {
    var n, b' := |b.desired|, Opened(b, desired, seen);
    var pcs' := pcs[t := Reload(seen, desired, Sum(b.desired), n)];
    assert b'.desired[..n] == b.desired;
    forall u | 0 <= u < |pcs| && u != t ensures PcOk(pcs'[u], b', overcommit) {
      assert PcOk(pcs[u], b, overcommit);
      if pcs[u].Reload? { assert b'.desired[..pcs[u].ticket] == b.desired[..pcs[u].ticket]; }
    }
    forall k | 0 <= k <= n ensures Settled(b', k) || Held(pcs', k) {
      if k == n {
        assert pcs'[t].ticket == n;
      } else if !Settled(b, k) {
        var u :| 0 <= u < |pcs| && HasTicket(pcs[u]) && pcs[u].ticket == k;
        assert pcs'[u] == pcs[u];
      }
    }
  }

  lemma CountInInv(s: State, s': State, t: nat)
    requires Inv(s) && t < |s.pcs| && s.pcs[t].CountIn? && DequeueStep(s, s', t)
    ensures Inv(s')
  {
    var CountIn(over, desired) := s.pcs[t];
    assert PcOk(s.pcs[t], s.book, s.overcommit);
    SumSnoc(s.book.desired, desired);
    SumSnoc(s.book.returned, 0);
    SumSnoc(s.book.taken, 0);
    EntriesGrow(s.book, desired, over, s.tail);
    ThreadsGrow(s.pcs, t, s.book, desired, over, s.overcommit);
    assert s'.book == Opened(s.book, desired, over);
    assert Threads(s'.pcs, s'.book, s'.overcommit);
  }

  lemma ReloadInv(s: State, s': State, t: nat)
    requires Inv(s) && t < |s.pcs| && s.pcs[t].Reload? && DequeueStep(s, s', t)
    ensures Inv(s')
  {
    var k := s.pcs[t].ticket;
    assert PcOk(s.pcs[t], s.book, s.overcommit);
    forall j | 0 <= j < |s.book.desired| ensures EntryOk(s'.book, j, s.tail) { assert EntryOk(s.book, j, s.tail); }
    ThreadsStep(s.pcs, s'.pcs, t, s.book, s'.book, s.overcommit, s.overcommit);
  }

  lemma GiveBackInv(s: State, s': State, t: nat)
    requires Inv(s) && t < |s.pcs| && s.pcs[t].GiveBack? && DequeueStep(s, s', t)
    ensures Inv(s')
  {
    var GiveBack(amount, _, k) := s.pcs[t];
    assert PcOk(s.pcs[t], s.book, s.overcommit);
    SumUpdate(s.book.returned, k, amount);
    forall j | 0 <= j < |s.book.desired| ensures EntryOk(s'.book, j, s.tail) {
      assert EntryOk(s.book, j, s.tail);
      SumMonotone(s.book.returned[..j], s'.book.returned[..j]);
    }
    ThreadsStep(s.pcs, s'.pcs, t, s.book, s'.book, s.overcommit, s'.overcommit);
  }

  /** The indices about to be taken are below the tail. */
  lemma TakeFits(s: State, t: nat)
    requires Inv(s) && t < |s.pcs| && s.pcs[t].TakeHead?
    ensures s.head + s.pcs[t].granted <= s.tail
  {
    var TakeHead(granted, k) := s.pcs[t];
    assert PcOk(s.pcs[t], s.book, s.overcommit);
    GrantsFit(s.book, s.tail);
    SumUpdate(s.book.taken, k, granted);
    forall j | 0 <= j < |s.book.desired| ensures s.book.taken[k := granted][j] <= s.book.granted[j] {
      assert EntryOk(s.book, j, s.tail);
    }
    SumMonotone(s.book.taken[k := granted], s.book.granted);
  }

  lemma TakeHeadInv(s: State, s': State, t: nat)
    requires Inv(s) && t < |s.pcs| && s.pcs[t].TakeHead? && DequeueStep(s, s', t)
    ensures Inv(s')
  {
    var TakeHead(granted, k) := s.pcs[t];
    assert PcOk(s.pcs[t], s.book, s.overcommit);
    SumUpdate(s.book.taken, k, granted);
    forall j | 0 <= j < |s.book.desired| ensures EntryOk(s'.book, j, s.tail) { assert EntryOk(s.book, j, s.tail); }
    ThreadsStep(s.pcs, s'.pcs, t, s.book, s'.book, s.overcommit, s.overcommit);
  }

  lemma DequeueInv(s: State, s': State, t: nat)
    requires Inv(s) && t < |s.pcs| && DequeueStep(s, s', t)
    ensures Inv(s')
  {
    match s.pcs[t]
    case CountIn(_, _) => CountInInv(s, s', t);
    case Reload(_, _, _, _) => ReloadInv(s, s', t);
    case GiveBack(_, _, _) => GiveBackInv(s, s', t);
    case TakeHead(_, _) => TakeHeadInv(s, s', t);
    case _ => LoadInv(s, s', t);
  }

  lemma StepInv(s: State, s': State)
    requires Inv(s) && Step(s, s')
    ensures Inv(s')
  {
    if n :| EnqueueStep(s, s', n) {
      EnqueueInv(s, s', n);
    } else {
      var t :| 0 <= t < |s.pcs| && DequeueStep(s, s', t);
      DequeueInv(s, s', t);
    }
  }

  // ---------------------------------------------------------------------------------------------
  // What every run keeps
  // ---------------------------------------------------------------------------------------------

  ghost predicate Run(run: seq<State>) {
    run != [] && Init(run[0]) && forall i :: 0 <= i < |run| - 1 ==> StepAt(run, i)
  }

  ghost predicate StepAt(run: seq<State>, i: nat)
    requires i < |run| - 1
  {
    Step(run[i], run[i + 1])
  }

  /** There are runs of any number of threads. */
  lemma StartsRun(threads: nat) returns (run: seq<State>)
    ensures Run(run) && |run[0].pcs| == threads
  {
    run := [State(0, 0, 0, 0, seq(threads, t => Idle), Book([], [], [], [], []), [])];
  }

  lemma {:induction false} RunInv(run: seq<State>, i: nat)
    requires Run(run) && i < |run|
    ensures Inv(run[i])
    decreases i
  {
    if i == 0 {
      InitInv(run[0]);
    } else {
      RunInv(run, i - 1);
      assert StepAt(run, i - 1);
      StepInv(run[i - 1], run[i]);
    }
  }

  lemma {:induction false} TilesOrdered(claims: seq<(nat, nat)>, head: nat, i: nat, j: nat)
    requires Tiles(claims, head) && i < j < |claims|
    ensures claims[i].1 <= claims[j].0
    decreases j
  {
    if i + 1 < j { TilesOrdered(claims, head, i, j - 1); }
  }

  /** Some dequeuer was handed this index. */
  ghost predicate Claimed(claims: seq<(nat, nat)>, index: nat) {
    exists i :: 0 <= i < |claims| && claims[i].0 <= index < claims[i].1
  }

  lemma {:induction false} TilesCover(claims: seq<(nat, nat)>, head: nat, index: nat)
    requires Tiles(claims, head) && index < head
    ensures Claimed(claims, index)
    decreases |claims|
  {
    var n := |claims| - 1;
    if index < claims[n].0 {
      TilesCover(claims[..n], claims[n].0, index);
      var i :| 0 <= i < n && claims[..n][i].0 <= index < claims[..n][i].1;
      assert claims[i] == claims[..n][i];
    }
  }

  /**
   In every run the head never passes the tail, and the index ranges handed to dequeuers are
   disjoint and together are exactly [0, headIndex).
   */
  lemma HeadNeverPassesTail(run: seq<State>, i: nat)
    requires Run(run) && i < |run|
    ensures var s := run[i];
      && s.head <= s.tail
      && (forall a, b :: 0 <= a < b < |s.claims| ==> s.claims[a].1 <= s.claims[b].0)
      && (forall a :: 0 <= a < |s.claims| ==> s.claims[a].1 <= s.head)
      && (forall index: nat :: index < s.head ==> Claimed(s.claims, index))
  {
    RunInv(run, i);
    var s := run[i];
    HeadBound(s);
    forall a, b | 0 <= a < b < |s.claims| ensures s.claims[a].1 <= s.claims[b].0 { TilesOrdered(s.claims, s.head, a, b); }
    forall a | 0 <= a < |s.claims| ensures s.claims[a].1 <= s.head {
      if a < |s.claims| - 1 { TilesOrdered(s.claims, s.head, a, |s.claims| - 1); }
    }
    forall index: nat | index < s.head ensures Claimed(s.claims, index) {
      TilesCover(s.claims, s.head, index);
    }
  }

  lemma HeadBound(s: State)
    requires Inv(s)
    ensures s.head <= s.tail
  {
    GrantsFit(s.book, s.tail);
    forall j | 0 <= j < |s.book.desired| ensures s.book.taken[j] <= s.book.granted[j] { assert EntryOk(s.book, j, s.tail); }
    SumMonotone(s.book.taken, s.book.granted);
  }

  lemma {:induction false} SettledSums(b: Book)
    requires BookShape(b) && forall k :: 0 <= k < |b.desired| ==> Settled(b, k)
    ensures Sum(b.desired) == Sum(b.taken) + Sum(b.returned)
    decreases |b.desired|
  {
    if b.desired != [] {
      var n := |b.desired| - 1;
      var before := Book(b.desired[..n], b.seen[..n], b.granted[..n], b.taken[..n], b.returned[..n]);
      forall k | 0 <= k < n ensures Settled(before, k) { assert Settled(b, k); }
      assert Settled(b, n);
      SettledSums(before);
    }
  }

  /**
   When no dequeue is under way the counters agree with the head, so the emptiness test of the
   next one is exact: it goes on to take something if and only if there is something to take.
   */
  lemma QuiescentTestIsExact(run: seq<State>, i: nat)
    requires Run(run) && i < |run|
    requires forall t :: 0 <= t < |run[i].pcs| ==> run[i].pcs[t] == Idle
    ensures var s := run[i]; s.count - s.overcommit == s.head
    ensures var s := run[i]; s.tail - (s.count - s.overcommit) > 0 <==> s.head < s.tail
  {
    RunInv(run, i);
    var s := run[i];
    forall k | 0 <= k < |s.book.desired| ensures Settled(s.book, k) { assert Settled(s.book, k) || Held(s.pcs, k); }
    SettledSums(s.book);
  }
}
