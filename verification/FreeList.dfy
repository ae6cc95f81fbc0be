/**
 The reference-counted lock-free free list of the vendored concurrent queue, as a transition
 system. One step is one atomic operation of one thread; any number of threads run `add` and
 `try_get` at once. A node's `freeListRefs` word packs a 31-bit count with the
 should-be-on-freelist bit, and every arithmetic step on it wraps at 32 bits.
 */
module FreeList {

  type Node = nat
  type Thread = nat

  datatype Option<+T> = None | Some(value: T)

  const SHOULD_BE_ON_FREELIST: nat := 0x8000_0000
  const WORD: nat := 0x1_0000_0000

  /** Where control goes once a node has been linked: `add` returns, `try_get` looks at its new head. */
  datatype Resume = Return | Retry(head: Option<Node>)

  datatype Pc =
    | Idle
    | AddMark(n: Node)                                        // add: set the should-be-on-freelist bit
    | LinkLoad(n: Node, k: Resume)                            // add_knowing_refcount_is_zero: load the head
    | LinkNext(n: Node, head: Option<Node>, k: Resume)        //   store freeListNext
    | LinkRefs(n: Node, head: Option<Node>, k: Resume)        //   store 1 into freeListRefs
    | LinkCas(n: Node, head: Option<Node>, k: Resume)         //   swing the head
    | LinkRelease(n: Node, head: Option<Node>, k: Resume)     //   swing failed: give the reference back
    | GetLoad                                                 // try_get: load the head
    | GetRefs(n: Node)                                        //   load freeListRefs
    | GetBump(n: Node, refs: nat)                             //   CAS refs -> refs + 1
    | GetNext(n: Node)                                        //   load freeListNext
    | GetCas(n: Node, next: Option<Node>)                     //   swing the head
    | GetTake(n: Node)                                        //   got it: drop both references
    | GetDrop(n: Node, head: Option<Node>)                    //   lost it: drop the reference just taken

  /** Shared memory, the threads' program counters, and the nodes that client code holds. */
  datatype State = State(
    head: Option<Node>,
    next: seq<Option<Node>>,
    refs: seq<nat>,
    owned: set<Node>,
    pcs: seq<Pc>
  )

  /** 32-bit fetch_add and fetch_sub, wrapping. */
  function Add(x: nat, y: nat): nat {
    if x + y < WORD then x + y else x + y - WORD
  }

  function Sub(x: nat, y: nat): nat
    requires y <= WORD
  {
    if y <= x then x - y else x + WORD - y
  }

  /** `refs & REFS_MASK`. */
  function Masked(refs: nat): nat {
    if refs < SHOULD_BE_ON_FREELIST then refs else refs - SHOULD_BE_ON_FREELIST
  }

  function Go(s: State, t: Thread, pc: Pc): State
    requires t < |s.pcs|
  {
    s.(pcs := s.pcs[t := pc])
  }

  function Resumed(k: Resume): Pc {
    match k
    case Return => Idle
    case Retry(None) => Idle
    case Retry(Some(h)) => GetRefs(h)
  }

  ghost predicate Init(s: State) {
    && s.head == None
    && |s.next| == |s.refs|
    && (forall n :: 0 <= n < |s.next| ==> s.next[n] == None && s.refs[n] == 0)
    && (forall n: Node :: n in s.owned <==> n < |s.next|)
    && (forall t :: 0 <= t < |s.pcs| ==> s.pcs[t] == Idle)
    && |s.pcs| + 2 < SHOULD_BE_ON_FREELIST
  }

  ghost predicate In(h: Option<Node>, bound: nat) {
    h.Some? ==> h.value < bound
  }

  /** A program counter names only nodes that exist. */
  ghost predicate Within(pc: Pc, bound: nat) {
    match pc
    case Idle => true
    case GetLoad => true
    case AddMark(n) => n < bound
    case LinkLoad(n, k) => n < bound && (k.Retry? ==> In(k.head, bound))
    case LinkNext(n, h, k) => n < bound && In(h, bound) && (k.Retry? ==> In(k.head, bound))
    case LinkRefs(n, h, k) => n < bound && In(h, bound) && (k.Retry? ==> In(k.head, bound))
    case LinkCas(n, h, k) => n < bound && In(h, bound) && (k.Retry? ==> In(k.head, bound))
    case LinkRelease(n, h, k) => n < bound && In(h, bound) && (k.Retry? ==> In(k.head, bound))
    case GetRefs(n) => n < bound
    case GetBump(n, _) => n < bound
    case GetNext(n) => n < bound
    case GetCas(n, nx) => n < bound && In(nx, bound)
    case GetTake(n) => n < bound
    case GetDrop(n, h) => n < bound && In(h, bound)
  }

  /** The memory of every node is there, and nothing points at a node that is not. */
  ghost predicate Typed(s: State) {
    && |s.next| == |s.refs|
    && (forall n <- s.owned :: n < |s.next|)
    && In(s.head, |s.next|)
    && (forall n :: 0 <= n < |s.next| ==> In(s.next[n], |s.next|))
    && (forall t :: 0 <= t < |s.pcs| ==> Within(s.pcs[t], |s.next|))
  }

  /** One atomic step of thread `t`. A call to `add` takes a node its client holds. */
  ghost predicate Step(s: State, s': State, t: Thread)
    requires Typed(s) && t < |s.pcs|
  {
    match s.pcs[t]
    case Idle =>
      || s' == Go(s, t, GetLoad)
      || exists n <- s.owned :: s' == Go(s, t, AddMark(n)).(owned := s.owned - {n})
    case AddMark(n) =>
      s' == Go(s, t, if s.refs[n] == 0 then LinkLoad(n, Return) else Idle)
            .(refs := s.refs[n := Add(s.refs[n], SHOULD_BE_ON_FREELIST)])
    case LinkLoad(n, k) =>
      s' == Go(s, t, LinkNext(n, s.head, k))
    case LinkNext(n, h, k) =>
      s' == Go(s, t, LinkRefs(n, h, k)).(next := s.next[n := h])
    case LinkRefs(n, h, k) =>
      s' == Go(s, t, LinkCas(n, h, k)).(refs := s.refs[n := 1])
    case LinkCas(n, h, k) =>
      if s.head == h then s' == Go(s, t, Resumed(k)).(head := Some(n))
      else s' == Go(s, t, LinkRelease(n, s.head, k))
    case LinkRelease(n, h, k) =>
      s' == Go(s, t, if s.refs[n] == 1 then LinkNext(n, h, k) else Resumed(k))
            .(refs := s.refs[n := Add(s.refs[n], SHOULD_BE_ON_FREELIST - 1)])
    case GetLoad =>
      s' == Go(s, t, if s.head.Some? then GetRefs(s.head.value) else Idle)
    case GetRefs(n) =>
      s' == Go(s, t, if Masked(s.refs[n]) == 0 then GetLoad else GetBump(n, s.refs[n]))
    case GetBump(n, r) =>
      if s.refs[n] == r then s' == Go(s, t, GetNext(n)).(refs := s.refs[n := Add(r, 1)])
      else s' == Go(s, t, GetLoad)
    case GetNext(n) =>
      s' == Go(s, t, GetCas(n, s.next[n]))
    case GetCas(n, nx) =>
      if s.head == Some(n) then s' == Go(s, t, GetTake(n)).(head := nx)
      else s' == Go(s, t, GetDrop(n, s.head))
    case GetTake(n) =>
      s' == Go(s, t, Idle).(refs := s.refs[n := Sub(s.refs[n], 2)], owned := s.owned + {n})
    case GetDrop(n, h) =>
      s' == Go(s, t, if s.refs[n] == SHOULD_BE_ON_FREELIST + 1 then LinkLoad(n, Retry(h)) else Resumed(Retry(h)))
            .(refs := s.refs[n := Sub(s.refs[n], 1)])
  }

  // ---------------------------------------------------------------------------------------------
  // The invariant
  // ---------------------------------------------------------------------------------------------

  /** Where a node is in its life. */
  datatype Place =
    | Owned              // held by client code
    | Adding(t: Thread)  // handed to add, bit not yet set
    | Zeroed(t: Thread)  // bit set, count zero: t alone may touch the node's memory
    | Armed(t: Thread)   // count back above zero, head not yet swung
    | Listed             // on the list
    | Taken(t: Thread)   // swung off the list by t, references not yet dropped
    | Pending            // bit set, some reader still holds a reference: the last one will link it

  /** Threads that hold a counted reference to `n` from inside `try_get`. */
  predicate Reads(pc: Pc, n: Node) {
    (pc.GetNext? || pc.GetCas? || pc.GetDrop?) && pc.n == n
  }

  ghost function Readers(pcs: seq<Pc>, n: Node): set<Thread> {
    set t | 0 <= t < |pcs| && Reads(pcs[t], n)
  }

  /** What the node's place contributes to its reference word. */
  function Share(p: Place): nat {
    match p
    case Zeroed(_) => SHOULD_BE_ON_FREELIST
    case Pending => SHOULD_BE_ON_FREELIST
    case Armed(_) => 1
    case Listed => 1
    case Taken(_) => 2
    case _ => 0
  }

  /** The place that a program counter fixes for the node it works on. */
  ghost predicate PcAgrees(pc: Pc, t: Thread, place: seq<Place>, next: seq<Option<Node>>)
    requires |place| == |next| && Within(pc, |next|)
  {
    match pc
    case AddMark(n) => place[n] == Adding(t)
    case LinkLoad(n, _) => place[n] == Zeroed(t)
    case LinkNext(n, _, _) => place[n] == Zeroed(t)
    case LinkRefs(n, h, _) => place[n] == Zeroed(t) && next[n] == h
    case LinkCas(n, h, _) => place[n] == Armed(t) && next[n] == h
    case LinkRelease(n, _, _) => place[n] == Armed(t)
    case GetBump(n, r) => Masked(r) != 0
    case GetCas(n, nx) => next[n] == nx
    case GetTake(n) => place[n] == Taken(t)
    case _ => true
  }

  /** And back: a place that names a thread is one that thread is working in. */
  ghost predicate PlaceAgrees(p: Place, n: Node, pcs: seq<Pc>) {
    match p
    case Adding(t) => t < |pcs| && pcs[t] == AddMark(n)
    case Zeroed(t) => t < |pcs| && (pcs[t].LinkLoad? || pcs[t].LinkNext? || pcs[t].LinkRefs?) && pcs[t].n == n
    case Armed(t) => t < |pcs| && (pcs[t].LinkCas? || pcs[t].LinkRelease?) && pcs[t].n == n
    case Taken(t) => t < |pcs| && pcs[t] == GetTake(n)
    case _ => true
  }

  ghost predicate Distinct(list: seq<Node>) {
    forall i, j :: 0 <= i < j < |list| ==> list[i] != list[j]
  }

  /** What position `i` of the list points at. */
  function After(list: seq<Node>, i: nat): Option<Node> {
    if i + 1 < |list| then Some(list[i + 1]) else None
  }

  /** Following `next` from `head` visits `list` and ends at null. */
  ghost predicate Chain(head: Option<Node>, next: seq<Option<Node>>, list: seq<Node>) {
    && head == (if list == [] then None else Some(list[0]))
    && forall i :: 0 <= i < |list| ==> list[i] < |next| && next[list[i]] == After(list, i)
  }

  /** The reference word of `n` is what its place and its readers make it. */
  ghost predicate RefsOk(r: nat, p: Place, pcs: seq<Pc>, n: Node) {
    && r == Share(p) + |Readers(pcs, n)|
    && (p.Zeroed? ==> Readers(pcs, n) == {})
    && (p.Pending? ==> Readers(pcs, n) != {})
  }

  ghost predicate RefsAgree(s: State, place: seq<Place>)
    requires |s.refs| == |place|
  {
    forall n :: 0 <= n < |place| ==> RefsOk(s.refs[n], place[n], s.pcs, n)
  }

  ghost predicate PlacesAgree(s: State, place: seq<Place>, list: seq<Node>)
    requires Typed(s) && |place| == |s.next|
  {
    && (forall t :: 0 <= t < |s.pcs| ==> PcAgrees(s.pcs[t], t, place, s.next))
    && (forall n :: 0 <= n < |place| ==> PlaceAgrees(place[n], n, s.pcs))
    && (forall n :: 0 <= n < |place| ==> (n in s.owned <==> place[n] == Owned))
    && (forall n :: 0 <= n < |place| ==> (n in list <==> place[n] == Listed))
  }

  ghost predicate Inv(s: State, place: seq<Place>, list: seq<Node>) {
    && Typed(s)
    && |place| == |s.next|
    && |s.pcs| + 2 < SHOULD_BE_ON_FREELIST
    && Distinct(list)
    && Chain(s.head, s.next, list)
    && PlacesAgree(s, place, list)
    && RefsAgree(s, place)
  }

  // ---------------------------------------------------------------------------------------------
  // Every step keeps it
  // ---------------------------------------------------------------------------------------------

  lemma ReadersGo(pcs: seq<Pc>, t: Thread, pc: Pc, n: Node)
    requires t < |pcs|
    ensures Readers(pcs[t := pc], n) == if Reads(pc, n) then Readers(pcs, n) + {t} else Readers(pcs, n) - {t}
    ensures |Readers(pcs[t := pc], n)| ==
            |Readers(pcs, n)| + (if Reads(pc, n) then 1 else 0) - (if Reads(pcs[t], n) then 1 else 0)
  {
    var before, after := Readers(pcs, n), Readers(pcs[t := pc], n);
    var rest := before - {t};
    assert after == if Reads(pc, n) then rest + {t} else rest;
    assert before == if Reads(pcs[t], n) then rest + {t} else rest;
  }

  /** Reference words never reach the point where the count would carry into the bit. */
  lemma CountBound(pcs: seq<Pc>, n: Node)
    ensures |Readers(pcs, n)| <= |pcs|
  {
    InitialSegment(Readers(pcs, n), |pcs|);
  }

  lemma {:induction false} InitialSegment(a: set<nat>, bound: nat)
    requires forall x <- a :: x < bound
    ensures |a| <= bound
  {
    if bound > 0 {
      InitialSegment(a - {bound - 1}, bound - 1);
    } else {
      assert a == {};
    }
  }

  lemma InitInv(s: State) returns (place: seq<Place>)
    requires Init(s)
    ensures Inv(s, place, [])
  {
    place := seq(|s.next|, _ => Owned);
    forall n | 0 <= n < |place| ensures RefsOk(s.refs[n], place[n], s.pcs, n) {
      assert Readers(s.pcs, n) == {};
    }
  }

  /** The count in a reference word follows the readers that come and go. */
  lemma RefsMove(pcs: seq<Pc>, t: Thread, pc: Pc, n: Node, r: nat, p: Place, r': nat, p': Place)
    requires t < |pcs| && RefsOk(r, p, pcs, n)
    requires r' + Share(p) + (if Reads(pcs[t], n) then 1 else 0) == r + Share(p') + (if Reads(pc, n) then 1 else 0)
    requires p'.Zeroed? ==> r' == SHOULD_BE_ON_FREELIST
    requires p'.Pending? ==> r' > SHOULD_BE_ON_FREELIST
    ensures RefsOk(r', p', pcs[t := pc], n)
  {
    ReadersGo(pcs, t, pc, n);
  }

  /** A step of `t` that touches the reference word and the place of at most `n`. */
  lemma RefsStep(s: State, s': State, t: Thread, pc: Pc, place: seq<Place>, place': seq<Place>, n: Node)
    requires |s.refs| == |place| == |s'.refs| == |place'|
    requires RefsAgree(s, place) && t < |s.pcs| && s'.pcs == s.pcs[t := pc]
    requires forall m :: 0 <= m < |place| && m != n ==> s'.refs[m] == s.refs[m] && place'[m] == place[m]
    requires forall m :: 0 <= m < |place| && m != n ==> (Reads(pc, m) <==> Reads(s.pcs[t], m))
    requires n < |place| ==> RefsOk(s'.refs[n], place'[n], s'.pcs, n)
    ensures RefsAgree(s', place')
  {
    forall m | 0 <= m < |place'| ensures RefsOk(s'.refs[m], place'[m], s'.pcs, m) {
      if m != n {
        assert RefsOk(s.refs[m], place[m], s.pcs, m);
        ReadersGo(s.pcs, t, pc, m);
        assert Readers(s'.pcs, m) == Readers(s.pcs, m);
      }
    }
  }

  lemma TypedStep(s: State, s': State, t: Thread)
    requires Typed(s) && t < |s.pcs| && Step(s, s', t)
    ensures Typed(s') && |s'.next| == |s.next| && |s'.pcs| == |s.pcs|
    ensures s'.pcs == s.pcs[t := s'.pcs[t]]
  {
  }

  /** `n` is in no other thread's hands. */
  predicate FreeFor(p: Place, t: Thread) {
    p.Owned? || p.Listed? || p.Pending? || p.t == t
  }

  /** The program counter fixes the place of `n`. */
  predicate Works(pc: Pc, n: Node) {
    && (pc.AddMark? || pc.LinkLoad? || pc.LinkNext? || pc.LinkRefs? || pc.LinkCas? || pc.LinkRelease? || pc.GetTake?)
    && pc.n == n
  }

  /** A step of `t` that moves `n` to place `p`, and touches no other node's memory or place. */
  lemma PlacesStep(s: State, s': State, t: Thread, place: seq<Place>, list: seq<Node>, list': seq<Node>, n: Node, p: Place)
    requires Typed(s) && Typed(s') && |place| == |s.next| == |s'.next| && n < |place|
    requires PlacesAgree(s, place, list)
    requires t < |s.pcs| == |s'.pcs| && s'.pcs == s.pcs[t := s'.pcs[t]]
    requires p == place[n] || FreeFor(place[n], t)
    requires forall m :: m != n ==> !Works(s.pcs[t], m)
    requires PcAgrees(s'.pcs[t], t, place[n := p], s'.next) && PlaceAgrees(p, n, s'.pcs)
    requires s'.next == s.next[n := s'.next[n]] && (s'.next == s.next || (Readers(s.pcs, n) == {} && FreeFor(place[n], t)))
    requires n in s'.owned <==> p == Owned
    requires n in list' <==> p == Listed
    requires forall m :: m != n ==> (m in s'.owned <==> m in s.owned) && (m in list' <==> m in list)
    ensures PlacesAgree(s', place[n := p], list')
  {
    forall u | 0 <= u < |s.pcs| && u != t ensures PcAgrees(s'.pcs[u], u, place[n := p], s'.next) {
      assert PcAgrees(s.pcs[u], u, place, s.next);
      if Reads(s.pcs[u], n) { assert u in Readers(s.pcs, n); }
    }
    forall m | 0 <= m < |place| && m != n ensures PlaceAgrees(place[m], m, s'.pcs) {
      assert PlaceAgrees(place[m], m, s.pcs);
      assert !Works(s.pcs[t], m);
    }
  }

  /** The head is swung to a node that points at the old head. */
  lemma ChainPush(head: Option<Node>, next: seq<Option<Node>>, list: seq<Node>, n: Node)
    requires Distinct(list) && Chain(head, next, list) && n < |next| && next[n] == head && n !in list
    ensures Distinct([n] + list) && Chain(Some(n), next, [n] + list)
  {
    var list' := [n] + list;
    forall i | 0 <= i < |list'|
      ensures list'[i] < |next| && next[list'[i]] == After(list', i)
    {
      if i > 0 { assert list'[i] == list[i - 1] && After(list', i) == After(list, i - 1); }
    }
  }

  /** The head is swung to what the head points at. */
  lemma ChainPop(head: Option<Node>, next: seq<Option<Node>>, list: seq<Node>)
    requires Distinct(list) && Chain(head, next, list) && head.Some?
    ensures list != [] && list[0] == head.value && list == [list[0]] + list[1..]
    ensures Distinct(list[1..]) && Chain(next[list[0]], next, list[1..])
    ensures forall m :: m in list[1..] <==> m in list && m != head.value
  {
    var list' := list[1..];
    assert next[list[0]] == After(list, 0);
    forall i | 0 <= i < |list'|
      ensures list'[i] < |next| && next[list'[i]] == After(list', i)
    {
      assert list'[i] == list[i + 1] && After(list', i) == After(list, i + 1);
    }
    forall m | m in list && m != head.value ensures m in list[1..] {
      var i :| 0 <= i < |list| && list[i] == m;
      assert list[1..][i - 1] == m;
    }
  }

  /** Nothing the list visits is rewritten. */
  lemma ChainFrame(head: Option<Node>, next: seq<Option<Node>>, next': seq<Option<Node>>, list: seq<Node>, n: Node)
    requires Chain(head, next, list) && n < |next| == |next'| && n !in list
    requires forall m :: 0 <= m < |next| && m != n ==> next'[m] == next[m]
    ensures Chain(head, next', list)
  {
  }


  lemma AddMarkInv(s: State, s': State, t: Thread, place: seq<Place>, list: seq<Node>) returns (place': seq<Place>)
    requires Inv(s, place, list) && t < |s.pcs| && s.pcs[t].AddMark? && Step(s, s', t)
    ensures Inv(s', place', list)
  {
    TypedStep(s, s', t);
    var n := s.pcs[t].n;
    CountBound(s.pcs, n);
    assert PcAgrees(s.pcs[t], t, place, s.next) && RefsOk(s.refs[n], place[n], s.pcs, n);
    place' := place[n := if s.refs[n] == 0 then Zeroed(t) else Pending];
    PlacesStep(s, s', t, place, list, list, n, place'[n]);
    RefsMove(s.pcs, t, s'.pcs[t], n, s.refs[n], place[n], s'.refs[n], place'[n]);
    RefsStep(s, s', t, s'.pcs[t], place, place', n);
  }

  lemma LinkNextInv(s: State, s': State, t: Thread, place: seq<Place>, list: seq<Node>)
    requires Inv(s, place, list) && t < |s.pcs| && s.pcs[t].LinkNext? && Step(s, s', t)
    ensures Inv(s', place, list)
  {
    TypedStep(s, s', t);
    var n := s.pcs[t].n;
    assert PcAgrees(s.pcs[t], t, place, s.next) && RefsOk(s.refs[n], place[n], s.pcs, n);
    ChainFrame(s.head, s.next, s'.next, list, n);
    assert place[n := place[n]] == place;
    PlacesStep(s, s', t, place, list, list, n, place[n]);
    RefsMove(s.pcs, t, s'.pcs[t], n, s.refs[n], place[n], s'.refs[n], place[n]);
    RefsStep(s, s', t, s'.pcs[t], place, place, n);
  }

  lemma LinkRefsInv(s: State, s': State, t: Thread, place: seq<Place>, list: seq<Node>) returns (place': seq<Place>)
    requires Inv(s, place, list) && t < |s.pcs| && s.pcs[t].LinkRefs? && Step(s, s', t)
    ensures Inv(s', place', list)
  {
    TypedStep(s, s', t);
    var n := s.pcs[t].n;
    assert PcAgrees(s.pcs[t], t, place, s.next) && RefsOk(s.refs[n], place[n], s.pcs, n);
    place' := place[n := Armed(t)];
    PlacesStep(s, s', t, place, list, list, n, place'[n]);
    RefsMove(s.pcs, t, s'.pcs[t], n, s.refs[n], place[n], s'.refs[n], place'[n]);
    RefsStep(s, s', t, s'.pcs[t], place, place', n);
  }

  lemma LinkCasInv(s: State, s': State, t: Thread, place: seq<Place>, list: seq<Node>) returns (place': seq<Place>, list': seq<Node>)
    requires Inv(s, place, list) && t < |s.pcs| && s.pcs[t].LinkCas? && s.head == s.pcs[t].head && Step(s, s', t)
    ensures Inv(s', place', list')
  {
    TypedStep(s, s', t);
    var n := s.pcs[t].n;
    assert PcAgrees(s.pcs[t], t, place, s.next) && RefsOk(s.refs[n], place[n], s.pcs, n);
    place', list' := place[n := Listed], [n] + list;
    ChainPush(s.head, s.next, list, n);
    PlacesStep(s, s', t, place, list, list', n, Listed);
    RefsMove(s.pcs, t, s'.pcs[t], n, s.refs[n], place[n], s'.refs[n], place'[n]);
    RefsStep(s, s', t, s'.pcs[t], place, place', n);
  }

  lemma LinkReleaseInv(s: State, s': State, t: Thread, place: seq<Place>, list: seq<Node>) returns (place': seq<Place>)
    requires Inv(s, place, list) && t < |s.pcs| && s.pcs[t].LinkRelease? && Step(s, s', t)
    ensures Inv(s', place', list)
  {
    TypedStep(s, s', t);
    var n := s.pcs[t].n;
    CountBound(s.pcs, n);
    assert PcAgrees(s.pcs[t], t, place, s.next) && RefsOk(s.refs[n], place[n], s.pcs, n);
    place' := place[n := if s.refs[n] == 1 then Zeroed(t) else Pending];
    PlacesStep(s, s', t, place, list, list, n, place'[n]);
    RefsMove(s.pcs, t, s'.pcs[t], n, s.refs[n], place[n], s'.refs[n], place'[n]);
    RefsStep(s, s', t, s'.pcs[t], place, place', n);
  }

  lemma GetBumpInv(s: State, s': State, t: Thread, place: seq<Place>, list: seq<Node>)
    requires Inv(s, place, list) && t < |s.pcs| && s.pcs[t].GetBump? && s.refs[s.pcs[t].n] == s.pcs[t].refs && Step(s, s', t)
    ensures Inv(s', place, list)
  {
    TypedStep(s, s', t);
    var n := s.pcs[t].n;
    CountBound(s.pcs, n);
    assert PcAgrees(s.pcs[t], t, place, s.next) && RefsOk(s.refs[n], place[n], s.pcs, n);
    assert place[n := place[n]] == place;
    PlacesStep(s, s', t, place, list, list, n, place[n]);
    RefsMove(s.pcs, t, s'.pcs[t], n, s.refs[n], place[n], s'.refs[n], place[n]);
    RefsStep(s, s', t, s'.pcs[t], place, place, n);
  }

  lemma GetNextInv(s: State, s': State, t: Thread, place: seq<Place>, list: seq<Node>)
    requires Inv(s, place, list) && t < |s.pcs| && s.pcs[t].GetNext? && Step(s, s', t)
    ensures Inv(s', place, list)
  {
    TypedStep(s, s', t);
    var n := s.pcs[t].n;
    assert PcAgrees(s.pcs[t], t, place, s.next) && RefsOk(s.refs[n], place[n], s.pcs, n);
    assert place[n := place[n]] == place;
    PlacesStep(s, s', t, place, list, list, n, place[n]);
    RefsMove(s.pcs, t, s'.pcs[t], n, s.refs[n], place[n], s'.refs[n], place[n]);
    RefsStep(s, s', t, s'.pcs[t], place, place, n);
  }

  lemma GetCasInv(s: State, s': State, t: Thread, place: seq<Place>, list: seq<Node>) returns (place': seq<Place>, list': seq<Node>)
    requires Inv(s, place, list) && t < |s.pcs| && s.pcs[t].GetCas? && s.head == Some(s.pcs[t].n) && Step(s, s', t)
    ensures Inv(s', place', list')
  {
    TypedStep(s, s', t);
    var n := s.pcs[t].n;
    assert PcAgrees(s.pcs[t], t, place, s.next) && RefsOk(s.refs[n], place[n], s.pcs, n);
    place', list' := place[n := Taken(t)], list[1..];
    ChainPop(s.head, s.next, list);
    PlacesStep(s, s', t, place, list, list', n, Taken(t));
    RefsMove(s.pcs, t, s'.pcs[t], n, s.refs[n], place[n], s'.refs[n], place'[n]);
    RefsStep(s, s', t, s'.pcs[t], place, place', n);
  }

  lemma GetTakeInv(s: State, s': State, t: Thread, place: seq<Place>, list: seq<Node>) returns (place': seq<Place>)
    requires Inv(s, place, list) && t < |s.pcs| && s.pcs[t].GetTake? && Step(s, s', t)
    ensures Inv(s', place', list)
  {
    TypedStep(s, s', t);
    var n := s.pcs[t].n;
    CountBound(s.pcs, n);
    assert PcAgrees(s.pcs[t], t, place, s.next) && RefsOk(s.refs[n], place[n], s.pcs, n);
    place' := place[n := Owned];
    PlacesStep(s, s', t, place, list, list, n, Owned);
    RefsMove(s.pcs, t, s'.pcs[t], n, s.refs[n], place[n], s'.refs[n], place'[n]);
    RefsStep(s, s', t, s'.pcs[t], place, place', n);
  }

  /** A reader finds should-be-on-freelist and its own reference alone exactly when linking fell to it. */
  lemma LastReader(pcs: seq<Pc>, t: Thread, n: Node, r: nat, p: Place)
    requires t < |pcs| && |pcs| + 2 < SHOULD_BE_ON_FREELIST && RefsOk(r, p, pcs, n) && Reads(pcs[t], n)
    ensures r >= 1 && !p.Zeroed?
    ensures r == SHOULD_BE_ON_FREELIST + 1 ==> p == Pending
    ensures p == Pending ==> r >= SHOULD_BE_ON_FREELIST + 1
  {
    assert t in Readers(pcs, n);
    ReadersGo(pcs, t, Idle, n);
    CountBound(pcs, n);
  }

  lemma GetDropInv(s: State, s': State, t: Thread, place: seq<Place>, list: seq<Node>) returns (place': seq<Place>)
    requires Inv(s, place, list) && t < |s.pcs| && s.pcs[t].GetDrop? && Step(s, s', t)
    ensures Inv(s', place', list)
  {
    TypedStep(s, s', t);
    var n := s.pcs[t].n;
    assert RefsOk(s.refs[n], place[n], s.pcs, n);
    LastReader(s.pcs, t, n, s.refs[n], place[n]);
    place' := if s.refs[n] == SHOULD_BE_ON_FREELIST + 1 then place[n := Zeroed(t)] else place;
    assert place' == place[n := place'[n]];
    PlacesStep(s, s', t, place, list, list, n, place'[n]);
    RefsMove(s.pcs, t, s'.pcs[t], n, s.refs[n], place[n], s'.refs[n], place'[n]);
    RefsStep(s, s', t, s'.pcs[t], place, place', n);
  }

  /** A client hands a node it holds to `add`. */
  lemma CallInv(s: State, s': State, t: Thread, place: seq<Place>, list: seq<Node>) returns (place': seq<Place>)
    requires Inv(s, place, list) && t < |s.pcs| && s.pcs[t].Idle? && Step(s, s', t)
    requires t < |s'.pcs| && s'.pcs[t].AddMark?
    ensures Inv(s', place', list)
  {
    TypedStep(s, s', t);
    var n := s'.pcs[t].n;
    assert RefsOk(s.refs[n], place[n], s.pcs, n);
    place' := place[n := Adding(t)];
    PlacesStep(s, s', t, place, list, list, n, place'[n]);
    RefsMove(s.pcs, t, s'.pcs[t], n, s.refs[n], place[n], s'.refs[n], place'[n]);
    RefsStep(s, s', t, s'.pcs[t], place, place', n);
  }

  /** Steps after which memory and places are what they were. */
  ghost predicate Quiet(s: State, s': State, t: Thread)
    requires t < |s.pcs|
  {
    && t < |s'.pcs| && s' == Go(s, t, s'.pcs[t])
    && (s'.pcs[t].GetLoad? || s.pcs[t].GetLoad? || s.pcs[t].GetRefs? || s.pcs[t].LinkLoad? || s.pcs[t].LinkCas? || s.pcs[t].GetCas?)
  }

  lemma QuietInv(s: State, s': State, t: Thread, place: seq<Place>, list: seq<Node>)
    requires Inv(s, place, list) && t < |s.pcs| && Step(s, s', t) && Quiet(s, s', t)
    ensures Inv(s', place, list)
  {
    TypedStep(s, s', t);
    assert PcAgrees(s.pcs[t], t, place, s.next);
    assert forall m :: Reads(s.pcs[t], m) <==> Reads(s'.pcs[t], m);
    RefsStep(s, s', t, s'.pcs[t], place, place, |place|);
    forall u | 0 <= u < |s.pcs| ensures PcAgrees(s'.pcs[u], u, place, s'.next) {
      assert PcAgrees(s.pcs[u], u, place, s.next);
    }
    forall m | 0 <= m < |place| ensures PlaceAgrees(place[m], m, s'.pcs) {
      assert PlaceAgrees(place[m], m, s.pcs);
    }
  }

  lemma StepInv(s: State, s': State, t: Thread, place: seq<Place>, list: seq<Node>)
    returns (place': seq<Place>, list': seq<Node>)
    requires Inv(s, place, list) && t < |s.pcs| && Step(s, s', t)
    ensures Inv(s', place', list')
  {
    place', list' := place, list;
    TypedStep(s, s', t);
    if Quiet(s, s', t) {
      QuietInv(s, s', t, place, list);
    } else {
      match s.pcs[t]
      case Idle => place' := CallInv(s, s', t, place, list);
      case AddMark(_) => place' := AddMarkInv(s, s', t, place, list);
      case LinkNext(_, _, _) => LinkNextInv(s, s', t, place, list);
      case LinkRefs(_, _, _) => place' := LinkRefsInv(s, s', t, place, list);
      case LinkCas(_, _, _) => place', list' := LinkCasInv(s, s', t, place, list);
      case LinkRelease(_, _, _) => place' := LinkReleaseInv(s, s', t, place, list);
      case GetBump(_, _) => GetBumpInv(s, s', t, place, list);
      case GetNext(_) => GetNextInv(s, s', t, place, list);
      case GetCas(_, _) => place', list' := GetCasInv(s, s', t, place, list);
      case GetTake(_) => place' := GetTakeInv(s, s', t, place, list);
      case GetDrop(_, _) => place' := GetDropInv(s, s', t, place, list);
    }
  }

  // ---------------------------------------------------------------------------------------------
  // What every run keeps
  // ---------------------------------------------------------------------------------------------

  /** A run: a start state, then one step of some thread at a time. */
  ghost predicate Run(run: seq<State>) {
    && run != []
    && Init(run[0])
    && forall i :: 0 <= i < |run| - 1 ==> StepAt(run, i)
  }

  ghost predicate StepAt(run: seq<State>, i: nat)
    requires i < |run| - 1
  {
    Next(run[i], run[i + 1])
  }

  ghost predicate Next(s: State, s': State) {
    Typed(s) && exists t :: 0 <= t < |s.pcs| && Step(s, s', t)
  }

  lemma NextInv(s: State, s': State, place: seq<Place>, list: seq<Node>) returns (place': seq<Place>, list': seq<Node>)
    requires Inv(s, place, list) && Next(s, s')
    ensures Inv(s', place', list')
  {
    var t :| 0 <= t < |s.pcs| && Step(s, s', t);
    place', list' := StepInv(s, s', t, place, list);
  }

  function NodesBelow(k: nat): (r: set<Node>)
    ensures forall n: Node :: n in r <==> n < k
  {
    if k == 0 then {} else NodesBelow(k - 1) + {k - 1}
  }

  /** There are runs of any number of nodes, and of as many threads as the count has room for. */
  lemma StartsRun(nodes: nat, threads: nat) returns (run: seq<State>)
    requires threads + 2 < SHOULD_BE_ON_FREELIST
    ensures Run(run) && |run[0].next| == nodes && |run[0].pcs| == threads
  {
    run := [State(None, seq(nodes, n => None), seq(nodes, n => 0), NodesBelow(nodes), seq(threads, t => Idle))];
  }

  lemma {:induction false} RunInv(run: seq<State>, i: nat) returns (place: seq<Place>, list: seq<Node>)
    requires Run(run) && i < |run|
    ensures Inv(run[i], place, list)
    decreases i
  {
    if i == 0 {
      place := InitInv(run[0]);
      list := [];
    } else {
      place, list := RunInv(run, i - 1);
      assert StepAt(run, i - 1);
      place, list := NextInv(run[i - 1], run[i], place, list);
    }
  }

  /** The list is finite, visits no node twice, and holds no node a client or a thread holds. */
  ghost predicate Safe(s: State) {
    && Typed(s)
    && (exists list :: ListSafe(s, list))
    // A node try_get is about to return is on its way to one client only, with its bit clear.
    && (forall t :: 0 <= t < |s.pcs| && s.pcs[t].GetTake? ==>
          s.pcs[t].n !in s.owned && s.refs[s.pcs[t].n] < SHOULD_BE_ON_FREELIST)
    && (forall t, u :: 0 <= t < u < |s.pcs| && s.pcs[t].GetTake? && s.pcs[u].GetTake? ==> s.pcs[t].n != s.pcs[u].n)
  }

  ghost predicate ListSafe(s: State, list: seq<Node>)
    requires Typed(s)
  {
    && Distinct(list)
    && Chain(s.head, s.next, list)
    && forall n <- list ::
         && n < |s.refs| && n !in s.owned
         && 1 <= s.refs[n] < SHOULD_BE_ON_FREELIST
         && (forall t :: 0 <= t < |s.pcs| ==> !Works(s.pcs[t], n))
  }

  lemma RunsAreSafe(run: seq<State>, i: nat)
    requires Run(run) && i < |run|
    ensures Safe(run[i])
  {
    var place, list := RunInv(run, i);
    InvIsSafe(run[i], place, list);
  }

  lemma InvIsSafe(s: State, place: seq<Place>, list: seq<Node>)
    requires Inv(s, place, list)
    ensures Safe(s)
  {
    forall n | n in list
      ensures n < |s.refs| && n !in s.owned && 1 <= s.refs[n] < SHOULD_BE_ON_FREELIST
      ensures forall t :: 0 <= t < |s.pcs| ==> !Works(s.pcs[t], n)
    {
      assert place[n] == Listed && RefsOk(s.refs[n], place[n], s.pcs, n);
      CountBound(s.pcs, n);
      forall t | 0 <= t < |s.pcs| ensures !Works(s.pcs[t], n) { assert PcAgrees(s.pcs[t], t, place, s.next); }
    }
    assert ListSafe(s, list);
    forall t | 0 <= t < |s.pcs| && s.pcs[t].GetTake?
      ensures place[s.pcs[t].n] == Taken(t)
      ensures s.pcs[t].n !in s.owned && s.refs[s.pcs[t].n] < SHOULD_BE_ON_FREELIST
    {
      var n := s.pcs[t].n;
      assert PcAgrees(s.pcs[t], t, place, s.next) && RefsOk(s.refs[n], place[n], s.pcs, n);
      CountBound(s.pcs, n);
    }
  }

  /**
   No node is lost: once every call has returned, each node is either held by a client or on the
   list, never both and never neither, and the list's nodes carry exactly the list's reference.
   */
  lemma QuiescentConservation(run: seq<State>) returns (list: seq<Node>)
    requires Run(run)
    requires var s := run[|run| - 1]; forall t :: 0 <= t < |s.pcs| ==> s.pcs[t] == Idle
    ensures var s := run[|run| - 1];
      && Distinct(list) && Chain(s.head, s.next, list)
      && |s.refs| == |s.next|
      && forall n :: 0 <= n < |s.next| ==>
           && (n in list <==> n !in s.owned)
           && s.refs[n] == if n in list then 1 else 0
  {
    var s := run[|run| - 1];
    var place;
    place, list := RunInv(run, |run| - 1);
    forall n | 0 <= n < |s.next|
      ensures (n in list <==> n !in s.owned) && s.refs[n] == if n in list then 1 else 0
    {
      assert Readers(s.pcs, n) == {};
      assert PlaceAgrees(place[n], n, s.pcs) && RefsOk(s.refs[n], place[n], s.pcs, n);
    }
  }

  /** In this step `try_get` returns `n` to a client. */
  ghost predicate Returns(s: State, s': State, n: Node) {
    Typed(s) && exists t :: 0 <= t < |s.pcs| && s.pcs[t] == GetTake(n) && Step(s, s', t)
  }

  /** In this step a client that holds `n` calls `add` on it. */
  ghost predicate Hands(s: State, s': State, n: Node) {
    Typed(s) && n in s.owned && exists t :: 0 <= t < |s.pcs| == |s'.pcs| && s.pcs[t] == Idle && s'.pcs[t] == AddMark(n)
  }

  lemma HeldUnlessHanded(s: State, s': State, n: Node)
    requires Next(s, s') && n in s.owned && !Hands(s, s', n)
    ensures n in s'.owned
  {
    var t :| 0 <= t < |s.pcs| && Step(s, s', t);
    TypedStep(s, s', t);
  }

  lemma {:induction false} HeldThroughout(run: seq<State>, i: nat, j: nat, n: Node)
    requires Run(run) && i <= j < |run| && n in run[i].owned
    requires forall k :: i <= k < j ==> !Hands(run[k], run[k + 1], n)
    ensures n in run[j].owned
    decreases j - i
  {
    if i < j {
      HeldThroughout(run, i, j - 1, n);
      assert StepAt(run, j - 1) && !Hands(run[j - 1], run[j - 1 + 1], n);
      HeldUnlessHanded(run[j - 1], run[j], n);
    }
  }

  /** Between two returns of the same node some client has called `add` on it. */
  lemma ReturnedOncePerAdd(run: seq<State>, i: nat, j: nat, n: Node)
    requires Run(run) && i < j < |run| - 1
    requires Returns(run[i], run[i + 1], n) && Returns(run[j], run[j + 1], n)
    ensures exists k :: i < k < j && Hands(run[k], run[k + 1], n)
  {
    RunsAreSafe(run, j);
    if forall k :: i < k < j ==> !Hands(run[k], run[k + 1], n) {
      assert n in run[i + 1].owned;
      HeldThroughout(run, i + 1, j, n);
      assert false;
    }
  }
}
