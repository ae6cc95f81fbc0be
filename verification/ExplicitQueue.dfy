/**
 An explicit producer's sub-queue: one enqueuing thread, any number of dequeuers. Elements live in
 fixed-size blocks linked in a ring; a block is reused once all its empty flags are set. A dequeuer
 that has claimed an index finds its block through a circular index of (base, block) entries that
 the producer keeps appending to, overwrites as it wraps, and replaces by one twice the size when
 it is full. One step is one atomic operation; claiming an index is the protocol of module
 Overcommit, run here with one item per dequeue.
 */
module ExplicitQueue {
  import opened BlockMath
  import Overcommit

  type Element = int

  datatype Cell = Empty | Full(e: Element)

  datatype Entry = Entry(base: nat, block: nat)

  /** A published block index. `front` is the slot of the latest entry, -1 before there is one. */
  datatype Header = Header(size: nat, entries: seq<Entry>, front: int)

  /** The enqueuing thread, inside `enqueue(e)`. */
  datatype Enqueue =
    | EIdle
    | Begin(e: Element)                // is the tail at the end of a block?
    | ScanFlag(e: Element, j: nat)     // is_empty of the next block in the ring: test flag j
    | Grow(e: Element)                 // make room in the block index
    | Acquire(e: Element)              // requisition a block and link it
    | ResetFlag(e: Element, j: nat)    // reset_empty: clear flag j
    | PutBase(e: Element)              // write the index entry ...
    | PutBlock(e: Element)
    | PutFront(e: Element)             // ... and publish it
    | Construct(e: Element)            // construct the element in its cell
    | PutTail(e: Element)              // publish the new tail

  /** A dequeuer that has claimed index `i`. */
  datatype Reader =
    | RIdle
    | LoadIndex(i: nat)                        // load the block index
    | LoadFront(i: nat, h: nat)                // load its front
    | ReadBase(i: nat, h: nat, f: nat)         // read the front entry's base, compute the entry to use
    | ReadBlock(i: nat, h: nat, slot: nat)     // read that entry's block
    | Move(i: nat, b: nat)                     // move the element out
    | SetEmpty(i: nat, b: nat)                 // set its empty flag

  /**
   `blockIndex` points at the last of `headers`; the earlier ones are no longer written but may
   still be read. From `log` on the fields are history: what was enqueued; which block each block
   number was given; for each header the shift between block numbers and its slots, its latest
   block number and the lowest one it still has; which indices have been moved out, which of those
   have their flag set, and what their dequeuers got. No step's guard reads them but `Acquire`'s: the
   pool gives out a block that is not in the ring, and `Ring` tells the ring's blocks by `blockOf`.
   */
  datatype State = State(
    size: nat,
    oc: Overcommit.State,
    enq: Enqueue,
    tailBlock: nat,
    next: seq<nat>,
    used: nat,
    prFront: nat,
    headers: seq<Header>,
    flags: seq<seq<bool>>,
    cells: seq<seq<Cell>>,
    readers: seq<Reader>,
    log: seq<Element>,
    blockOf: seq<nat>,
    shifts: seq<int>,
    tops: seq<int>,
    lows: seq<nat>,
    moved: set<nat>,
    emptied: set<nat>,
    received: seq<(nat, Element)>
  )

  /** Sizes the steps index by. */
  ghost predicate Shape(s: State) {
    && s.size > 0
    && |s.flags| == |s.cells| == |s.next|
    && (forall b :: 0 <= b < |s.flags| ==> |s.flags[b]| == |s.cells[b]| == s.size && s.next[b] < |s.next|)
    && s.tailBlock < |s.next|
    && |s.headers| > 0 && |s.headers| == |s.shifts| == |s.tops| == |s.lows|
    && (forall h :: 0 <= h < |s.headers| ==> 0 < s.headers[h].size == |s.headers[h].entries|)
    && s.prFront < Last(s).size
    && |s.readers| == |s.oc.pcs|
    && (forall t :: 0 <= t < |s.readers| ==> ReaderShape(s, s.readers[t]))
    && (s.enq.ScanFlag? ==> s.enq.j < s.size)
    && (s.enq.ResetFlag? ==> s.enq.j < s.size)
  }

  ghost predicate ReaderShape(s: State, r: Reader) {
    match r
    case LoadFront(_, h) => h < |s.headers| && s.headers[h].front >= 0
    case ReadBase(_, h, f) => h < |s.headers| && f < |s.headers[h].entries|
    case ReadBlock(_, h, slot) => h < |s.headers| && slot < |s.headers[h].entries|
    case Move(_, b) => b < |s.cells|
    case SetEmpty(_, b) => b < |s.cells|
    case _ => true
  }

  function Last(s: State): Header
    requires |s.headers| > 0
  {
    s.headers[|s.headers| - 1]
  }

  /** Where the empty flag of offset `o` sits in its block. */
  function FlagAt(o: nat, size: nat): nat
    requires o < size
  {
    size - 1 - o
  }

  ghost predicate Init(s: State) {
    && Shape(s)
    && Overcommit.Init(s.oc)
    && s.enq == EIdle
    && (forall t :: 0 <= t < |s.readers| ==> s.readers[t] == RIdle)
    && s.used == 0 && s.prFront == 0
    && |s.headers| == 1 && s.headers[0].front == -1
    && s.log == [] && s.blockOf == [] && s.shifts == [0] && s.tops == [-1] && s.lows == [0]
    && s.moved == {} && s.emptied == {} && s.received == []
  }

  // ---------------------------------------------------------------------------------------------
  // Enqueue
  // ---------------------------------------------------------------------------------------------

  /** new_block_index: the used entries in order, then whatever is in the new memory. */
  ghost predicate IsCopy(grown: seq<Entry>, entries: seq<Entry>, prFront: nat, used: nat)
    requires |entries| > 0
  {
    && |grown| == 2 * |entries| && used <= |entries|
    && forall j :: 0 <= j < used ==> grown[j] == entries[Wrap(prFront - used + j, |entries|)]
  }

  /** The ring: the blocks that are in use, oldest first. */
  function Ring(s: State): seq<nat> {
    s.blockOf[Oldest(s)..]
  }

  ghost predicate EnqueueStep(s: State, s': State)
    requires Shape(s)
  {
    var t := s.oc.tail;
    match s.enq
    case EIdle =>
      exists e :: s' == s.(enq := Begin(e))
    case Begin(e) =>
      if Offset(t, s.size) != 0 then s' == s.(enq := Construct(e))
      else if s.used == 0 then s' == s.(enq := Grow(e))
      else s' == s.(enq := ScanFlag(e, 0))
    case ScanFlag(e, j) =>
      var ahead := s.next[s.tailBlock];
      if !s.flags[ahead][j] then s' == s.(enq := Grow(e))
      else if j + 1 < s.size then s' == s.(enq := ScanFlag(e, j + 1))
      else s' == s.(enq := ResetFlag(e, 0), tailBlock := ahead, blockOf := s.blockOf + [ahead])
    case Grow(e) =>
      if s.used == Last(s).size then
        exists grown :: IsCopy(grown, Last(s).entries, s.prFront, s.used) &&
          s' == s.(enq := Acquire(e), prFront := s.used,
                   headers := s.headers + [Header(2 * Last(s).size, grown, s.used - 1)],
                   shifts := s.shifts + [s.used - |s.blockOf|],
                   tops := s.tops + [s.tops[|s.tops| - 1]],
                   lows := s.lows[|s.lows| - 1 := Oldest(s)] + [0])
      else s' == s.(enq := Acquire(e))
    case Acquire(e) =>
      exists b :: 0 <= b < |s.next| && b !in Ring(s) &&
        s' == s.(enq := ResetFlag(e, 0), tailBlock := b, used := s.used + 1, blockOf := s.blockOf + [b],
                 next := if s.used == 0 then s.next[b := b] else s.next[b := s.next[s.tailBlock]][s.tailBlock := b])
    case ResetFlag(e, j) =>
      s' == s.(enq := if j + 1 < s.size then ResetFlag(e, j + 1) else PutBase(e),
               flags := s.flags[s.tailBlock := s.flags[s.tailBlock][j := false]])
    case PutBase(e) =>
      s' == Rewrite(s, Last(s).entries[s.prFront].(base := t)).(enq := PutBlock(e))
    case PutBlock(e) =>
      s' == Rewrite(s, Last(s).entries[s.prFront].(block := s.tailBlock)).(enq := PutFront(e))
    case PutFront(e) =>
      var h := |s.headers| - 1;
      s' == s.(enq := Construct(e),
               headers := s.headers[h := s.headers[h].(front := s.prFront)],
               tops := s.tops[h := s.tops[h] + 1],
               prFront := Wrap(s.prFront + 1, Last(s).size))
    case Construct(e) =>
      s' == s.(enq := PutTail(e),
               cells := s.cells[s.tailBlock := s.cells[s.tailBlock][Offset(t, s.size) := Full(e)]])
    case PutTail(e) =>
      Overcommit.EnqueueStep(s.oc, s'.oc, 1) && s' == s.(enq := EIdle, oc := s'.oc, log := s.log + [e])
  }

  /** Number of the oldest block in the ring. */
  function Oldest(s: State): nat {
    if s.used <= |s.blockOf| then |s.blockOf| - s.used else 0
  }

  /** One plain store into the entry the producer is preparing. */
  function Rewrite(s: State, entry: Entry): State
    requires |s.headers| > 0 && s.prFront < |Last(s).entries|
  {
    var h := |s.headers| - 1;
    s.(headers := s.headers[h := s.headers[h].(entries := s.headers[h].entries[s.prFront := entry])])
  }

  // ---------------------------------------------------------------------------------------------
  // Dequeue
  // ---------------------------------------------------------------------------------------------

  function GoRead(s: State, t: nat, r: Reader): State
    requires t < |s.readers|
  {
    s.(readers := s.readers[t := r])
  }

  /** The entry to use for index `i`, counted from the front entry by its base. */
  function LookupSlot(i: nat, f: nat, base: nat, blockSize: nat, indexSize: nat): nat
    requires blockSize > 0 && indexSize > 0
  {
    Wrap(f + TruncDiv(Base(Number(i, blockSize), blockSize) - base, blockSize), indexSize)
  }

  ghost predicate DequeueStep(s: State, s': State, t: nat)
    requires Shape(s) && t < |s.readers|
  {
    match s.readers[t]
    case RIdle =>
      && Overcommit.DequeueStep(s.oc, s'.oc, t)
      && (s.oc.pcs[t].Idle? ==> s'.oc == Overcommit.Go(s.oc, t, Overcommit.LoadTail(1)))
      && s' == (if s.oc.pcs[t].TakeHead? then GoRead(s, t, LoadIndex(s.oc.head)) else s).(oc := s'.oc)
    case LoadIndex(i) =>
      s' == GoRead(s, t, LoadFront(i, |s.headers| - 1))
    case LoadFront(i, h) =>
      s' == GoRead(s, t, ReadBase(i, h, s.headers[h].front))
    case ReadBase(i, h, f) =>
      s' == GoRead(s, t, ReadBlock(i, h, LookupSlot(i, f, s.headers[h].entries[f].base, s.size, s.headers[h].size)))
    case ReadBlock(i, h, slot) =>
      s' == GoRead(s, t, Move(i, s.headers[h].entries[slot].block))
    case Move(i, b) =>
      var cell := s.cells[b][Offset(i, s.size)];
      exists e :: (cell.Full? ==> e == cell.e) &&
        s' == GoRead(s, t, SetEmpty(i, b))
              .(cells := s.cells[b := s.cells[b][Offset(i, s.size) := Empty]],
                moved := s.moved + {i},
                received := s.received + [(i, e)])
    case SetEmpty(i, b) =>
      s' == GoRead(s, t, RIdle)
            .(flags := s.flags[b := s.flags[b][FlagAt(Offset(i, s.size), s.size) := true]],
              emptied := s.emptied + {i})
  }

  ghost predicate Step(s: State, s': State) {
    Shape(s) && (EnqueueStep(s, s') || exists t :: 0 <= t < |s.readers| && DequeueStep(s, s', t))
  }

  // ---------------------------------------------------------------------------------------------
  // The invariant
  // ---------------------------------------------------------------------------------------------

  /** The new block has been chosen but its index entry is not published. */
  predicate Preparing(enq: Enqueue) {
    enq.ResetFlag? || enq.PutBase? || enq.PutBlock? || enq.PutFront?
  }

  /** Inside the last block, the producer has room at the tail. */
  predicate Opened(enq: Enqueue) {
    Preparing(enq) || enq.Construct? || enq.PutTail?
  }

  /** How the tail lies to the blocks entered so far. */
  ghost predicate TailOk(enq: Enqueue, tail: nat, blocks: nat, size: nat)
    requires size > 0
  {
    && tail <= Base(blocks, size)
    && (blocks > 0 ==> Base(blocks - 1, size) <= tail)
    && (Preparing(enq) ==> blocks > 0 && tail == Base(blocks - 1, size))
    && (Opened(enq) ==> tail < Base(blocks, size))
    && (enq.ScanFlag? || enq.Grow? || enq.Acquire? ==> tail == Base(blocks, size))
    && (enq.EIdle? || enq.Begin? ==> blocks > 0 ==> Base(blocks - 1, size) < tail)
  }

  predicate LinkedAt(blockOf: seq<nat>, next: seq<nat>, m: nat)
    requires m + 1 < |blockOf|
  {
    blockOf[m] < |next| && next[blockOf[m]] == blockOf[m + 1]
  }

  /** The last `used` blocks entered are distinct, linked in order, and the last links back to the oldest. */
  ghost predicate Linked(blockOf: seq<nat>, used: nat, tailBlock: nat, next: seq<nat>) {
    var n := |blockOf|;
    && used <= n && (n > 0 ==> used > 0)
    && (forall m :: n - used <= m < n ==> blockOf[m] < |next|)
    && (forall m, k :: n - used <= m < k < n ==> blockOf[m] != blockOf[k])
    && (n > 0 ==> tailBlock == blockOf[n - 1] && next[tailBlock] == blockOf[n - used])
    && (forall m :: n - used <= m < n - 1 ==> LinkedAt(blockOf, next, m))
  }

  ghost predicate RingOk(s: State) {
    Linked(s.blockOf, s.used, s.tailBlock, s.next)
  }

  /** A flag of block number `m` is set exactly when that element has been completely dequeued. */
  ghost predicate FlagOk(s: State, m: nat, o: nat)
    requires Shape(s) && m < |s.blockOf| && s.blockOf[m] < |s.flags| && o < s.size
  {
    s.flags[s.blockOf[m]][FlagAt(o, s.size)] <==> Base(m, s.size) + o in s.emptied
  }

  ghost predicate FlagsOk(s: State)
    requires Shape(s) && RingOk(s)
  {
    forall m, o :: Oldest(s) <= m < |s.blockOf| && 0 <= o < s.size ==>
      // While the newest block's flags are being cleared only the first few are.
      (m == |s.blockOf| - 1 && s.enq.ResetFlag? && FlagAt(o, s.size) >= s.enq.j) || FlagOk(s, m, o)
  }

  /** What is_empty has seen so far stays true. */
  ghost predicate ScanOk(s: State)
    requires Shape(s) && RingOk(s)
  {
    s.enq.ScanFlag? ==> s.used > 0 && forall o :: 0 <= o < s.size && FlagAt(o, s.size) < s.enq.j ==> Base(Oldest(s), s.size) + o in s.emptied
  }

  /** The element of index `x` is in its cell, and its block is still in the ring under its number. */
  ghost predicate CellOk(s: State, x: nat, e: Element)
    requires Shape(s) && RingOk(s)
  {
    var m := Number(x, s.size);
    Oldest(s) <= m < |s.blockOf| && s.cells[s.blockOf[m]][Offset(x, s.size)] == Full(e)
  }

  ghost predicate CellsOk(s: State)
    requires Shape(s) && RingOk(s)
  {
    && |s.log| == s.oc.tail
    && (forall x :: 0 <= x < |s.log| && x !in s.moved ==> CellOk(s, x, s.log[x]))
    && (s.enq.PutTail? ==> CellOk(s, |s.log|, s.enq.e))
    && s.emptied <= s.moved
    && (forall x <- s.moved :: x < s.oc.head)
    && (forall x :: 0 <= x < s.oc.head && x !in s.emptied ==> Oldest(s) <= Number(x, s.size))
  }

  /** Header `h` has the entries of block numbers [Low, top], each at its number shifted. */
  function Low(s: State, h: nat): nat
    requires h < |s.lows|
  {
    if h == |s.headers| - 1 then Oldest(s) else s.lows[h]
  }

  ghost predicate EntryOk(s: State, h: nat, m: nat)
    requires Shape(s) && h < |s.headers|
  {
    m < |s.blockOf| && s.headers[h].entries[Wrap(m + s.shifts[h], s.headers[h].size)] == Entry(Base(m, s.size), s.blockOf[m])
  }

  /** Slot `f` of header `h` is the one for block number `m`. */
  ghost predicate AtSlot(s: State, h: nat, f: nat, m: nat)
    requires Shape(s) && h < |s.headers|
  {
    f == Wrap(m + s.shifts[h], s.headers[h].size)
  }

  ghost predicate HeaderOk(s: State, h: nat)
    requires Shape(s) && h < |s.headers|
  {
    && (forall m :: Low(s, h) <= m <= s.tops[h] ==> EntryOk(s, h, m))
    && (s.tops[h] >= 0 ==> s.headers[h].front == Wrap(s.tops[h] + s.shifts[h], s.headers[h].size))
  }

  ghost predicate HeadersOk(s: State)
    requires Shape(s)
  {
    var h := |s.headers| - 1;
    && (forall g :: 0 <= g < |s.headers| ==> HeaderOk(s, g))
    && s.tops[h] == |s.blockOf| - (if Preparing(s.enq) then 2 else 1)
    && s.prFront == Wrap(s.tops[h] + 1 + s.shifts[h], Last(s).size)
    && s.used <= Last(s).size
    && (s.enq.Acquire? ==> s.used < Last(s).size)
    && (s.enq.PutBlock? || s.enq.PutFront? ==> Last(s).entries[s.prFront].base == s.oc.tail)
    && (s.enq.PutFront? ==> Last(s).entries[s.prFront].block == s.tailBlock)
  }

  /** The header a dequeuer looks in has its index's block. */
  ghost predicate InHeader(s: State, i: nat, h: nat)
    requires Shape(s) && h < |s.headers|
  {
    Low(s, h) <= Number(i, s.size) <= s.tops[h]
  }

  ghost predicate ReaderOk(s: State, r: Reader)
    requires Shape(s) && ReaderShape(s, r)
  {
    match r
    case RIdle => true
    case LoadIndex(i) => i < s.oc.head && i !in s.moved
    case LoadFront(i, h) => i < s.oc.head && i !in s.moved && InHeader(s, i, h)
    case ReadBase(i, h, f) =>
      && i < s.oc.head && i !in s.moved && InHeader(s, i, h)
      && exists m: nat :: Number(i, s.size) <= m <= s.tops[h] && AtSlot(s, h, f, m)
    case ReadBlock(i, h, slot) =>
      && i < s.oc.head && i !in s.moved && InHeader(s, i, h)
      && slot == Wrap(Number(i, s.size) + s.shifts[h], s.headers[h].size)
    case Move(i, b) =>
      && i < s.oc.head && i !in s.moved
      && Number(i, s.size) < |s.blockOf| && b == s.blockOf[Number(i, s.size)]
    case SetEmpty(i, b) =>
      && i in s.moved && i !in s.emptied
      && Number(i, s.size) < |s.blockOf| && b == s.blockOf[Number(i, s.size)]
  }

  /** No two dequeuers work on the same index. */
  ghost predicate Apart(a: Reader, b: Reader) {
    a.RIdle? || b.RIdle? || a.i != b.i
  }

  ghost predicate ReadersOk(s: State)
    requires Shape(s)
  {
    && (forall t :: 0 <= t < |s.readers| ==> ReaderOk(s, s.readers[t]))
    && (forall t, u :: 0 <= t < u < |s.readers| ==> Apart(s.readers[t], s.readers[u]))
  }

  /** Each dequeue asks for one item. */
  predicate Single(pc: Overcommit.Pc) {
    match pc
    case Idle => true
    case LoadTail(max) => max == 1
    case LoadOvercommit(max, _) => max == 1
    case LoadCount(max, _, _) => max == 1
    case CountIn(_, desired) => desired <= 1
    case Reload(_, desired, _, _) => desired <= 1
    case GiveBack(amount, granted, _) => amount + granted <= 1
    case TakeHead(granted, _) => granted <= 1
  }

  /** What was received is what was enqueued, each index once. */
  ghost predicate ReceivedOk(s: State) {
    && (forall k :: 0 <= k < |s.received| ==>
          s.received[k].0 in s.moved && s.received[k].0 < |s.log| && s.received[k].1 == s.log[s.received[k].0])
    && (forall j, k :: 0 <= j < k < |s.received| ==> s.received[j].0 != s.received[k].0)
  }

  /** The part of the invariant about blocks, index and dequeuers past their claim. */
  ghost predicate Core(s: State) {
    && Shape(s)
    && s.oc.head <= s.oc.tail
    && TailOk(s.enq, s.oc.tail, |s.blockOf|, s.size)
    && RingOk(s)
    && FlagsOk(s)
    && ScanOk(s)
    && CellsOk(s)
    && HeadersOk(s)
    && ReadersOk(s)
    && ReceivedOk(s)
  }

  ghost predicate Inv(s: State) {
    && Core(s)
    && Overcommit.Inv(s.oc)
    && AllSingle(s.oc)
  }

  // ---------------------------------------------------------------------------------------------
  // Facts about the invariant
  // ---------------------------------------------------------------------------------------------

  /** Distinct live indices never share a cell. */
  lemma CellsApart(s: State, x: nat, y: nat)
    requires Shape(s) && RingOk(s) && x != y
    requires Oldest(s) <= Number(x, s.size) < |s.blockOf| && Oldest(s) <= Number(y, s.size) < |s.blockOf|
    ensures s.blockOf[Number(x, s.size)] != s.blockOf[Number(y, s.size)] || Offset(x, s.size) != Offset(y, s.size)
  {
    Split(x, s.size);
    Split(y, s.size);
    var m, k := Number(x, s.size), Number(y, s.size);
    if m < k { assert s.blockOf[m] != s.blockOf[k]; }
    if k < m { assert s.blockOf[k] != s.blockOf[m]; }
  }

  /** An index that has been stored is in a block whose entry is published. */
  lemma Published(s: State, x: nat)
    requires Core(s) && x < s.oc.tail
    ensures Number(x, s.size) <= s.tops[|s.headers| - 1] && Number(x, s.size) < |s.blockOf|
  {
    NumberBelow(x, |s.blockOf|, s.size);
    if Preparing(s.enq) { NumberBelow(x, |s.blockOf| - 1, s.size); }
  }

  /** A claimed index that is not completely dequeued is below the tail and in the ring. */
  lemma Live(s: State, x: nat)
    requires Core(s) && x < s.oc.head && x !in s.emptied
    ensures x < s.oc.tail && Oldest(s) <= Number(x, s.size) < |s.blockOf|
  {
    Published(s, x);
  }

  /** An index a dequeuer works on, before and after the move. */
  lemma ReaderLive(s: State, t: nat)
    requires Core(s) && t < |s.readers| && !s.readers[t].RIdle?
    ensures var x := s.readers[t].i;
      x < s.oc.head && x !in s.emptied && x < s.oc.tail && Oldest(s) <= Number(x, s.size) < |s.blockOf|
  {
    assert ReaderOk(s, s.readers[t]);
    Live(s, s.readers[t].i);
  }

  // ---------------------------------------------------------------------------------------------
  // Enqueue steps keep it
  // ---------------------------------------------------------------------------------------------

  /** Readers look at nothing that a step with these effects changes. */
  lemma ReadersKeep(s: State, s': State)
    requires Shape(s) && Shape(s') && ReadersOk(s)
    requires s'.readers == s.readers && s'.size == s.size && s'.oc.head == s.oc.head
    requires s'.moved == s.moved && s'.emptied == s.emptied
    requires |s.blockOf| <= |s'.blockOf| && forall m :: 0 <= m < |s.blockOf| ==> s'.blockOf[m] == s.blockOf[m]
    requires |s.headers| <= |s'.headers|
    requires forall h :: 0 <= h < |s.headers| ==>
      s'.headers[h].size == s.headers[h].size && s'.shifts[h] == s.shifts[h] && s.tops[h] <= s'.tops[h]
    requires forall h, t :: 0 <= h < |s.headers| && 0 <= t < |s.readers| && !s.readers[t].RIdle? && s.readers[t].i !in s.moved ==>
      Low(s', h) <= Number(s.readers[t].i, s.size) || Number(s.readers[t].i, s.size) < Low(s, h)
    ensures ReadersOk(s')
  {
    forall t | 0 <= t < |s.readers| ensures ReaderOk(s', s'.readers[t]) {
      var r := s.readers[t];
      assert ReaderOk(s, r);
      if r.ReadBase? {
        var m: nat :| Number(r.i, s.size) <= m <= s.tops[r.h] && AtSlot(s, r.h, r.f, m);
        assert AtSlot(s', r.h, r.f, m);
      }
    }
  }

  /** The producer's program counter moves between points where it has nothing half done. */
  predicate Deciding(enq: Enqueue) {
    enq.EIdle? || enq.Begin? || enq.ScanFlag? || enq.Grow? || enq.Acquire? || enq.Construct?
  }

  lemma DecideTail(s: State, e: Element, enq': Enqueue)
    requires Shape(s) && TailOk(Begin(e), s.oc.tail, |s.blockOf|, s.size)
    requires enq' == if Offset(s.oc.tail, s.size) != 0 then Construct(e) else if s.used == 0 then Grow(e) else ScanFlag(e, 0)
    ensures TailOk(enq', s.oc.tail, |s.blockOf|, s.size)
  {
    var n, t := |s.blockOf|, s.oc.tail;
    Split(t, s.size);
    Join(n, 0, s.size);
    var k := Number(t, s.size);
    if k < n { BaseMonotone(k, n - 1, s.size); } else { BaseMonotone(n, k, s.size); }
  }

  lemma KeepFlags(s: State, s': State)
    requires Shape(s) && RingOk(s) && FlagsOk(s) && Shape(s')
    requires s' == s.(enq := s'.enq) && !s.enq.ResetFlag? && !s'.enq.ResetFlag?
    ensures FlagsOk(s')
  {
    forall m, o | Oldest(s') <= m < |s'.blockOf| && 0 <= o < s'.size ensures FlagOk(s', m, o) { assert FlagOk(s, m, o); }
  }

  lemma KeepCells(s: State, s': State)
    requires Shape(s) && RingOk(s) && CellsOk(s) && Shape(s')
    requires s'.size == s.size && s'.oc == s.oc && s'.log == s.log && s'.moved == s.moved && s'.emptied == s.emptied && s'.cells == s.cells
    requires s'.blockOf == s.blockOf && s'.used == s.used && RingOk(s') && !s'.enq.PutTail?
    ensures CellsOk(s')
  {
    forall x | 0 <= x < |s.log| && x !in s.moved ensures CellOk(s', x, s.log[x]) { assert CellOk(s, x, s.log[x]); }
  }

  lemma KeepHeaders(s: State, s': State)
    requires Shape(s) && HeadersOk(s) && Shape(s')
    requires s'.size == s.size && s'.headers == s.headers && s'.shifts == s.shifts && s'.tops == s.tops && s'.lows == s.lows
    requires s'.prFront == s.prFront && s'.blockOf == s.blockOf && s'.used == s.used
    requires Preparing(s.enq) == Preparing(s'.enq) && (s'.enq.Acquire? ==> s.used < Last(s).size)
    requires !s'.enq.PutBlock? && !s'.enq.PutFront?
    ensures HeadersOk(s')
  {
    forall h | 0 <= h < |s.headers| ensures HeaderOk(s', h) {
      assert HeaderOk(s, h);
      forall m | Low(s', h) <= m <= s'.tops[h] ensures EntryOk(s', h, m) { assert EntryOk(s, h, m); }
    }
  }

  lemma ScanOn(s: State, s': State, j: nat)
    requires Shape(s) && RingOk(s) && FlagsOk(s) && ScanOk(s) && Shape(s') && RingOk(s')
    requires s' == s.(enq := s'.enq) && s.enq.ScanFlag? && s'.enq.ScanFlag? && s'.enq.j == s.enq.j + 1
    requires s.flags[s.next[s.tailBlock]][s.enq.j]
    ensures ScanOk(s')
  {
    forall o | 0 <= o < s.size && FlagAt(o, s.size) < s'.enq.j ensures Base(Oldest(s), s.size) + o in s.emptied {
      assert FlagOk(s, Oldest(s), o);
    }
  }

  lemma DecideShape(s: State, s': State)
    requires Shape(s) && RingOk(s) && EnqueueStep(s, s') && s' == s.(enq := s'.enq)
    requires s.enq.EIdle? || s.enq.Begin? || s.enq.ScanFlag? || s.enq.Grow?
    ensures Shape(s') && RingOk(s')
  {
  }

  lemma DecideInv(s: State, s': State)
    requires Core(s) && EnqueueStep(s, s') && s' == s.(enq := s'.enq)
    requires s.enq.EIdle? || s.enq.Begin? || s.enq.ScanFlag? || s.enq.Grow?
    ensures Core(s')
  {
    DecideShape(s, s');
    if s.enq.Begin? { DecideTail(s, s.enq.e, s'.enq); }
    KeepFlags(s, s');
    KeepCells(s, s');
    KeepHeaders(s, s');
    if s.enq.ScanFlag? && s'.enq.ScanFlag? { ScanOn(s, s', s.enq.j); }
    ReadersKeep(s, s');
  }

  /** is_empty answered yes: every element of the block ahead has been completely dequeued. */
  lemma AheadIsEmpty(s: State, x: nat)
    requires Core(s) && s.enq.ScanFlag? && s.enq.j + 1 == s.size && s.flags[s.next[s.tailBlock]][s.enq.j]
    requires Number(x, s.size) == Oldest(s)
    ensures x in s.emptied
  {
    Split(x, s.size);
    assert FlagOk(s, Oldest(s), Offset(x, s.size));
  }

  /** The block ahead becomes the new last block. */
  ghost predicate Reuses(s: State, s': State)
    requires Shape(s)
  {
    var ahead := s.next[s.tailBlock];
    && s.enq.ScanFlag? && s.enq.j + 1 == s.size && s.flags[ahead][s.enq.j]
    && s' == s.(enq := ResetFlag(s.enq.e, 0), tailBlock := ahead, blockOf := s.blockOf + [ahead])
  }

  lemma ReusedApart(blockOf: seq<nat>, used: nat, b: nat)
    requires 0 < used <= |blockOf| && b == blockOf[|blockOf| - used]
    requires forall m, k :: |blockOf| - used <= m < k < |blockOf| ==> blockOf[m] != blockOf[k]
    ensures forall m, k :: |blockOf| + 1 - used <= m < k < |blockOf| + 1 ==> (blockOf + [b])[m] != (blockOf + [b])[k]
  {
    var more := blockOf + [b];
    forall m, k | |blockOf| + 1 - used <= m < k < |blockOf| + 1 ensures more[m] != more[k] {
      if k == |blockOf| { assert blockOf[|blockOf| - used] != blockOf[m]; }
    }
  }

  lemma ReusedLinks(blockOf: seq<nat>, used: nat, tailBlock: nat, next: seq<nat>, m: nat)
    requires Linked(blockOf, used, tailBlock, next) && used > 0 && |blockOf| + 1 - used <= m < |blockOf|
    ensures LinkedAt(blockOf + [next[tailBlock]], next, m)
  {
    if m < |blockOf| - 1 { assert LinkedAt(blockOf, next, m); }
  }

  lemma LinkedReuse(blockOf: seq<nat>, used: nat, tailBlock: nat, next: seq<nat>)
    requires Linked(blockOf, used, tailBlock, next) && used > 0
    ensures Linked(blockOf + [next[tailBlock]], used, next[tailBlock], next)
  {
    var n, b := |blockOf|, next[tailBlock];
    ReusedApart(blockOf, used, b);
    forall m | n + 1 - used <= m < n ensures LinkedAt(blockOf + [b], next, m) {
      ReusedLinks(blockOf, used, tailBlock, next, m);
    }
    assert used > 1 ==> LinkedAt(blockOf, next, n - used);
  }

  lemma ReuseRing(s: State, s': State)
    requires Shape(s) && RingOk(s) && s.used > 0 && Reuses(s, s')
    ensures Shape(s') && RingOk(s') && Oldest(s') == Oldest(s) + 1
  {
    LinkedReuse(s.blockOf, s.used, s.tailBlock, s.next);
  }

  lemma ReuseFlags(s: State, s': State)
    requires Shape(s) && RingOk(s) && FlagsOk(s) && Reuses(s, s') && Shape(s') && RingOk(s') && Oldest(s') == Oldest(s) + 1
    ensures FlagsOk(s') && ScanOk(s')
  {
    forall m, o | Oldest(s') <= m < |s.blockOf| && 0 <= o < s'.size ensures FlagOk(s', m, o) { assert FlagOk(s, m, o); }
  }

  /** Appending a block number leaves the headers' entries alone. */
  lemma HeadersAppend(s: State, s': State)
    requires Shape(s) && HeadersOk(s) && Shape(s') && Deciding(s.enq) && s'.enq.ResetFlag?
    requires s'.headers == s.headers && s'.shifts == s.shifts && s'.tops == s.tops && s'.lows == s.lows && s'.size == s.size
    requires s'.prFront == s.prFront && s'.used <= Last(s).size
    requires |s'.blockOf| == |s.blockOf| + 1 && s.blockOf == s'.blockOf[..|s.blockOf|] && Oldest(s) <= Oldest(s')
    ensures HeadersOk(s')
  {
    forall h | 0 <= h < |s.headers| ensures HeaderOk(s', h) {
      assert HeaderOk(s, h);
      forall m | Low(s', h) <= m <= s'.tops[h] ensures EntryOk(s', h, m) { assert EntryOk(s, h, m); }
    }
  }

  /** Nothing live was in the block that is reused. */
  lemma ReuseCells(s: State, s': State)
    requires Core(s) && Reuses(s, s') && Shape(s') && RingOk(s') && Oldest(s') == Oldest(s) + 1
    ensures CellsOk(s')
  {
    forall x | 0 <= x < s.oc.head && x !in s.emptied ensures Oldest(s') <= Number(x, s.size) {
      if Number(x, s.size) == Oldest(s) { AheadIsEmpty(s, x); }
    }
    forall x | 0 <= x < |s.log| && x !in s.moved ensures CellOk(s', x, s.log[x]) {
      assert CellOk(s, x, s.log[x]);
      if Number(x, s.size) == Oldest(s) { AheadIsEmpty(s, x); }
    }
  }

  lemma ReuseReaders(s: State, s': State)
    requires Core(s) && Reuses(s, s') && Shape(s') && Oldest(s') == Oldest(s) + 1
    ensures ReadersOk(s')
  {
    forall t | 0 <= t < |s.readers| && !s.readers[t].RIdle? && s.readers[t].i !in s.moved
      ensures Oldest(s') <= Number(s.readers[t].i, s.size)
    {
      ReaderLive(s, t);
      if Number(s.readers[t].i, s.size) == Oldest(s) { AheadIsEmpty(s, s.readers[t].i); }
    }
    ReadersKeep(s, s');
  }

  lemma ReuseInv(s: State, s': State)
    requires Core(s) && Reuses(s, s')
    ensures Core(s')
  {
    ReuseRing(s, s');
    ReuseFlags(s, s');
    ReuseCells(s, s');
    HeadersAppend(s, s');
    ReuseReaders(s, s');
    BaseMonotone(|s.blockOf|, |s'.blockOf|, s.size);
  }

  // Growing the block index

  ghost predicate Grows(s: State, s': State, grown: seq<Entry>)
    requires Shape(s)
  {
    && s.enq.Grow? && s.used == Last(s).size && IsCopy(grown, Last(s).entries, s.prFront, s.used)
    && s' == s.(enq := Acquire(s.enq.e), prFront := s.used,
                headers := s.headers + [Header(2 * Last(s).size, grown, s.used - 1)],
                shifts := s.shifts + [s.used - |s.blockOf|],
                tops := s.tops + [s.tops[|s.tops| - 1]],
                lows := s.lows[|s.lows| - 1 := Oldest(s)] + [0])
  }

  /** The slot that the copy takes the entry of block `m` from. */
  lemma CopiedSlot(s: State, m: nat)
    requires Shape(s) && RingOk(s) && HeadersOk(s) && s.enq.Grow? && Oldest(s) <= m < |s.blockOf|
    ensures var h := |s.headers| - 1;
            Wrap(s.prFront - s.used + (m - Oldest(s)), Last(s).size) == Wrap(m + s.shifts[h], Last(s).size)
  {
    var h := |s.headers| - 1;
    WrapAdd(|s.blockOf| + s.shifts[h], m - Oldest(s) - s.used, Last(s).size);
  }

  /** The copy has the entry of block `m` where the new header looks for it. */
  lemma GrowEntry(s: State, s': State, grown: seq<Entry>, m: nat)
    requires Shape(s) && RingOk(s) && HeadersOk(s) && Grows(s, s', grown) && Shape(s')
    requires Oldest(s) <= m < |s.blockOf|
    ensures EntryOk(s', |s.headers|, m)
  {
    var h, n, old_ := |s.headers| - 1, |s.blockOf|, Last(s);
    assert HeaderOk(s, h) && EntryOk(s, h, m);
    CopiedSlot(s, m);
    WrapSmall(m - Oldest(s), 2 * old_.size);
    assert grown[m - Oldest(s)] == old_.entries[Wrap(s.prFront - s.used + (m - Oldest(s)), old_.size)];
  }

  lemma GrowHeaders(s: State, s': State, grown: seq<Entry>)
    requires Shape(s) && RingOk(s) && HeadersOk(s) && Grows(s, s', grown) && Shape(s')
    ensures HeadersOk(s')
  {
    var g := |s.headers|;
    forall h | 0 <= h < |s'.headers| ensures HeaderOk(s', h) {
      if h < g {
        assert HeaderOk(s, h);
        forall m | Low(s', h) <= m <= s'.tops[h] ensures EntryOk(s', h, m) { assert EntryOk(s, h, m); }
      } else {
        forall m | Low(s', h) <= m <= s'.tops[h] ensures EntryOk(s', h, m) { GrowEntry(s, s', grown, m); }
        WrapSmall(s.used - 1, 2 * Last(s).size);
      }
    }
    WrapSmall(s.used, 2 * Last(s).size);
  }

  lemma GrowInv(s: State, s': State, grown: seq<Entry>)
    requires Core(s) && Grows(s, s', grown)
    ensures Core(s')
  {
    GrowHeaders(s, s', grown);
    GrowFlags(s, s', grown);
    KeepCells(s, s');
    ReadersKeep(s, s');
  }

  lemma GrowFlags(s: State, s': State, grown: seq<Entry>)
    requires Shape(s) && RingOk(s) && FlagsOk(s) && Grows(s, s', grown) && Shape(s')
    ensures FlagsOk(s')
  {
    forall m, o | Oldest(s') <= m < |s'.blockOf| && 0 <= o < s'.size ensures FlagOk(s', m, o) { assert FlagOk(s, m, o); }
  }

  // A new block in the ring

  ghost predicate Acquires(s: State, s': State, b: nat)
    requires Shape(s)
  {
    && s.enq.Acquire? && b < |s.next| && b !in Ring(s)
    && s' == s.(enq := ResetFlag(s.enq.e, 0), tailBlock := b, used := s.used + 1, blockOf := s.blockOf + [b],
                next := if s.used == 0 then s.next[b := b] else s.next[b := s.next[s.tailBlock]][s.tailBlock := b])
  }

  lemma LinkedAcquire(blockOf: seq<nat>, used: nat, tailBlock: nat, next: seq<nat>, b: nat, next': seq<nat>)
    requires Linked(blockOf, used, tailBlock, next) && b < |next| && tailBlock < |next| && b !in blockOf[|blockOf| - used..]
    requires next' == if used == 0 then next[b := b] else next[b := next[tailBlock]][tailBlock := b]
    ensures Linked(blockOf + [b], used + 1, b, next')
  {
    var n, blockOf' := |blockOf|, blockOf + [b];
    forall m | n - used <= m < n ensures blockOf[m] != b { assert blockOf[m] == blockOf[n - used..][m - (n - used)]; }
    forall m | n - used <= m < n ensures LinkedAt(blockOf', next', m) {
      if m < n - 1 { assert LinkedAt(blockOf, next, m); }
    }
  }

  lemma AcquireRing(s: State, s': State, b: nat)
    requires Shape(s) && RingOk(s) && Acquires(s, s', b)
    ensures Shape(s') && RingOk(s') && Oldest(s') == Oldest(s)
  {
    LinkedAcquire(s.blockOf, s.used, s.tailBlock, s.next, b, s'.next);
  }

  lemma AcquireInv(s: State, s': State, b: nat)
    requires Core(s) && Acquires(s, s', b)
    ensures Core(s')
  {
    AcquireRing(s, s', b);
    AcquireMemory(s, s', b);
    HeadersAppend(s, s');
    ReadersKeep(s, s');
    BaseMonotone(|s.blockOf|, |s'.blockOf|, s.size);
  }

  lemma AcquireMemory(s: State, s': State, b: nat)
    requires Shape(s) && RingOk(s) && FlagsOk(s) && CellsOk(s) && Acquires(s, s', b) && Shape(s') && RingOk(s') && Oldest(s') == Oldest(s)
    ensures FlagsOk(s') && CellsOk(s')
  {
    forall m, o | Oldest(s') <= m < |s.blockOf| && 0 <= o < s'.size ensures FlagOk(s', m, o) { assert FlagOk(s, m, o); }
    forall x | 0 <= x < |s.log| && x !in s.moved ensures CellOk(s', x, s.log[x]) { assert CellOk(s, x, s.log[x]); }
  }

  // Clearing its flags

  lemma ResetFlagInv(s: State, s': State)
    requires Core(s) && s.enq.ResetFlag? && EnqueueStep(s, s')
    ensures Core(s')
  {
    ResetFlags(s, s');
    KeepCells(s, s');
    KeepHeaders(s, s');
    ReadersKeep(s, s');
  }

  lemma ResetFlags(s: State, s': State)
    requires Core(s) && s.enq.ResetFlag? && EnqueueStep(s, s')
    ensures Shape(s') && FlagsOk(s')
  {
    var n, b := |s.blockOf|, s.tailBlock;
    forall m, o | Oldest(s') <= m < n && 0 <= o < s'.size
      ensures (m == n - 1 && s'.enq.ResetFlag? && FlagAt(o, s.size) >= s'.enq.j) || FlagOk(s', m, o)
    {
      if m < n - 1 {
        assert FlagOk(s, m, o) && s.blockOf[m] != s.blockOf[n - 1];
      } else if FlagAt(o, s.size) < s.enq.j {
        assert FlagOk(s, m, o);
      } else {
        assert Base(n - 1, s.size) + o !in s.emptied;
      }
    }
  }

  // Writing and publishing the index entry

  /** The slot being prepared is none that a dequeuer may still need. */
  lemma PreparedSlot(s: State, m: nat)
    requires Shape(s) && RingOk(s) && HeadersOk(s) && Preparing(s.enq) && Oldest(s) <= m <= s.tops[|s.headers| - 1]
    ensures Wrap(m + s.shifts[|s.headers| - 1], Last(s).size) != s.prFront
  {
    var h := |s.headers| - 1;
    WrapDistinct(m + s.shifts[h], s.tops[h] + 1 + s.shifts[h], Last(s).size);
  }

  lemma PutHeaders(s: State, s': State, entry: Entry)
    requires Shape(s) && RingOk(s) && HeadersOk(s) && (s.enq.PutBase? || s.enq.PutBlock?) && Shape(s')
    requires s' == Rewrite(s, entry).(enq := s'.enq) && (s'.enq.PutBlock? || s'.enq.PutFront?)
    requires entry.base == s.oc.tail && (s'.enq.PutFront? ==> entry.block == s.tailBlock)
    ensures HeadersOk(s')
  {
    var g := |s.headers| - 1;
    forall h | 0 <= h < |s'.headers| ensures HeaderOk(s', h) {
      assert HeaderOk(s, h);
      forall m | Low(s', h) <= m <= s'.tops[h] ensures EntryOk(s', h, m) {
        assert EntryOk(s, h, m);
        if h == g { PreparedSlot(s, m); }
      }
    }
  }

  lemma PutEntryShape(s: State, s': State, entry: Entry)
    requires Shape(s) && RingOk(s) && (s.enq.PutBase? || s.enq.PutBlock?)
    requires s' == Rewrite(s, entry).(enq := s'.enq) && (s'.enq.PutBlock? || s'.enq.PutFront?)
    ensures Shape(s') && RingOk(s')
  {
  }

  lemma PutEntryInv(s: State, s': State, entry: Entry)
    requires Core(s) && (s.enq.PutBase? || s.enq.PutBlock?)
    requires s' == Rewrite(s, entry).(enq := s'.enq) && (s'.enq.PutBlock? || s'.enq.PutFront?)
    requires entry.base == s.oc.tail && (s'.enq.PutFront? ==> entry.block == s.tailBlock)
    ensures Core(s')
  {
    PutEntryShape(s, s', entry);
    PutHeaders(s, s', entry);
    KeepCells(s, s');
    PutFlags(s, s');
    ReadersKeep(s, s');
  }

  /** Steps that touch neither flags nor blocks, outside the clearing of flags. */
  lemma PutFlags(s: State, s': State)
    requires Shape(s) && RingOk(s) && FlagsOk(s) && Shape(s') && RingOk(s') && !s.enq.ResetFlag? && !s'.enq.ResetFlag?
    requires s'.size == s.size && s'.flags == s.flags && s'.blockOf == s.blockOf && s'.used == s.used && s'.emptied == s.emptied
    ensures FlagsOk(s')
  {
    forall m, o | Oldest(s') <= m < |s'.blockOf| && 0 <= o < s'.size ensures FlagOk(s', m, o) { assert FlagOk(s, m, o); }
  }

  /** The new front entry is the one that was prepared. */
  lemma FrontHeader(s: State, s': State, h: nat)
    requires Shape(s) && RingOk(s) && HeadersOk(s) && s.enq.PutFront? && Shape(s') && h < |s.headers|
    requires |s.blockOf| > 0 && s.oc.tail == Base(|s.blockOf| - 1, s.size)
    requires Publishes(s, s')
    ensures HeaderOk(s', h)
  {
    assert HeaderOk(s, h);
    forall m | Low(s', h) <= m <= s'.tops[h] ensures EntryOk(s', h, m) {
      if m <= s.tops[h] { assert EntryOk(s, h, m); }
    }
  }

  lemma FrontHeaders(s: State, s': State)
    requires Shape(s) && RingOk(s) && HeadersOk(s) && s.enq.PutFront? && Shape(s')
    requires |s.blockOf| > 0 && s.oc.tail == Base(|s.blockOf| - 1, s.size)
    requires Publishes(s, s')
    ensures HeadersOk(s')
  {
    var g := |s.headers| - 1;
    WrapAdd(s.tops[g] + 1 + s.shifts[g], 1, Last(s).size);
    forall h: nat | h < |s'.headers| ensures HeaderOk(s', h) { FrontHeader(s, s', h); }
  }

  ghost predicate Publishes(s: State, s': State)
    requires Shape(s) && s.enq.PutFront?
  {
    var h := |s.headers| - 1;
    s' == s.(enq := Construct(s.enq.e),
             headers := s.headers[h := s.headers[h].(front := s.prFront)],
             tops := s.tops[h := s.tops[h] + 1],
             prFront := Wrap(s.prFront + 1, Last(s).size))
  }

  lemma PutFrontInv(s: State, s': State)
    requires Core(s) && s.enq.PutFront? && Publishes(s, s')
    ensures Core(s')
  {
    assert Shape(s');
    FrontHeaders(s, s');
    KeepCells(s, s');
    PutFlags(s, s');
    ReadersKeep(s, s');
  }

  // The element and the tail

  lemma ConstructShape(s: State, s': State)
    requires Shape(s) && RingOk(s) && s.enq.Construct? && EnqueueStep(s, s')
    ensures Shape(s') && RingOk(s') && s'.moved == s.moved && s'.log == s.log
  {
  }

  lemma ConstructCells(s: State, s': State)
    requires Core(s) && s.enq.Construct? && EnqueueStep(s, s')
    ensures Shape(s') && RingOk(s') && CellsOk(s')
  {
    ConstructShape(s, s');
    var n, t := |s.blockOf|, s.oc.tail;
    NumberBelow(t, n, s.size);
    NumberBelow(t, n - 1, s.size);
    assert Number(t, s.size) == n - 1;
    forall x | 0 <= x < |s.log| && x !in s.moved ensures CellOk(s', x, s.log[x]) {
      assert CellOk(s, x, s.log[x]);
      CellsApart(s, x, t);
    }
  }

  lemma ConstructInv(s: State, s': State)
    requires Core(s) && s.enq.Construct? && EnqueueStep(s, s')
    ensures Core(s')
  {
    ConstructCells(s, s');
    PutFlags(s, s');
    KeepHeaders(s, s');
    ReadersKeep(s, s');
  }

  lemma PutTailCells(s: State, s': State)
    requires Core(s) && s.enq.PutTail? && EnqueueStep(s, s')
    ensures Shape(s') && RingOk(s') && CellsOk(s')
  {
    forall x | 0 <= x < |s'.log| && x !in s'.moved ensures CellOk(s', x, s'.log[x]) {
      if x < |s.log| { assert CellOk(s, x, s.log[x]); } else { assert CellOk(s, x, s.enq.e); }
    }
  }

  lemma PutTailInv(s: State, s': State)
    requires Core(s) && s.enq.PutTail? && EnqueueStep(s, s')
    ensures Core(s')
  {
    PutTailCells(s, s');
    PutFlags(s, s');
    KeepHeaders(s, s');
    ReadersKeep(s, s');
  }

  lemma ScanFlagInv(s: State, s': State)
    requires Core(s) && s.enq.ScanFlag? && EnqueueStep(s, s')
    ensures Core(s') && s'.oc == s.oc
  {
    if Reuses(s, s') { ReuseInv(s, s'); } else { DecideInv(s, s'); }
  }

  lemma GrowStepInv(s: State, s': State)
    requires Core(s) && s.enq.Grow? && EnqueueStep(s, s')
    ensures Core(s') && s'.oc == s.oc
  {
    if s.used == Last(s).size {
      GrowInv(s, s', s'.headers[|s.headers|].entries);
    } else {
      DecideInv(s, s');
    }
  }

  lemma EnqueueInv(s: State, s': State)
    requires Core(s) && EnqueueStep(s, s')
    ensures Core(s') && (s.enq.PutTail? || s'.oc == s.oc)
  {
    match s.enq
    case ScanFlag(_, _) => ScanFlagInv(s, s');
    case Grow(_) => GrowStepInv(s, s');
    case Acquire(_) => AcquireInv(s, s', s'.tailBlock);
    case ResetFlag(_, _) => ResetFlagInv(s, s');
    case PutBase(_) => PutEntryInv(s, s', Last(s).entries[s.prFront].(base := s.oc.tail));
    case PutBlock(_) => PutEntryInv(s, s', Last(s).entries[s.prFront].(block := s.tailBlock));
    case PutFront(_) => PutFrontInv(s, s');
    case Construct(_) => ConstructInv(s, s');
    case PutTail(_) => PutTailInv(s, s');
    case _ => DecideInv(s, s');
  }

  // ---------------------------------------------------------------------------------------------
  // Dequeue steps keep it
  // ---------------------------------------------------------------------------------------------

  /** A dequeuer goes on with the index it has; nothing else changes. */
  lemma LookupShape(s: State, s': State, t: nat)
    requires Shape(s) && RingOk(s) && t < |s.readers| && |s'.readers| == |s.readers| && s' == GoRead(s, t, s'.readers[t])
    requires ReaderShape(s, s'.readers[t])
    ensures Shape(s') && RingOk(s')
  {
  }

  lemma LookupInv(s: State, s': State, t: nat)
    requires Core(s) && t < |s.readers| && |s'.readers| == |s.readers| && s' == GoRead(s, t, s'.readers[t])
    requires !s.readers[t].RIdle? && !s'.readers[t].RIdle? && s'.readers[t].i == s.readers[t].i
    requires ReaderShape(s, s'.readers[t]) && ReaderOk(s, s'.readers[t])
    ensures Core(s')
  {
    LookupShape(s, s', t);
    LookupMemory(s, s');
    forall u | 0 <= u < |s.readers| ensures ReaderOk(s', s'.readers[u]) {
      assert ReaderOk(s, s'.readers[u]);
      SameReader(s, s', s'.readers[u]);
    }
    forall u, v | 0 <= u < v < |s.readers| ensures Apart(s'.readers[u], s'.readers[v]) {
      assert Apart(s.readers[u], s.readers[v]);
    }
  }

  lemma SameReader(s: State, s': State, r: Reader)
    requires Shape(s) && Shape(s') && s' == s.(readers := s'.readers) && ReaderShape(s, r) && ReaderOk(s, r)
    ensures ReaderShape(s', r) && ReaderOk(s', r)
  {
    if r.ReadBase? {
      var m: nat :| Number(r.i, s.size) <= m <= s.tops[r.h] && AtSlot(s, r.h, r.f, m);
      assert AtSlot(s', r.h, r.f, m);
    }
  }

  lemma SameFlags(s: State, s': State)
    requires Shape(s) && RingOk(s) && FlagsOk(s) && ScanOk(s) && Shape(s') && RingOk(s')
    requires s'.size == s.size && s'.flags == s.flags && s'.blockOf == s.blockOf && s'.used == s.used
    requires s'.emptied == s.emptied && s'.enq == s.enq
    ensures FlagsOk(s') && ScanOk(s')
  {
    forall m, o | Oldest(s') <= m < |s'.blockOf| && 0 <= o < s'.size
      ensures (m == |s.blockOf| - 1 && s.enq.ResetFlag? && FlagAt(o, s.size) >= s.enq.j) || FlagOk(s', m, o)
    {
      assert (m == |s.blockOf| - 1 && s.enq.ResetFlag? && FlagAt(o, s.size) >= s.enq.j) || FlagOk(s, m, o);
    }
  }

  /** The cells stay as they are; more may be emptied, and one more index may be claimed. */
  lemma SameCells(s: State, s': State)
    requires Shape(s) && RingOk(s) && CellsOk(s) && Shape(s') && RingOk(s')
    requires s'.size == s.size && s'.oc.tail == s.oc.tail && s'.log == s.log && s'.moved == s.moved && s'.cells == s.cells
    requires s'.blockOf == s.blockOf && s'.used == s.used && s'.enq == s.enq
    requires s.emptied <= s'.emptied <= s.moved
    requires s.oc.head <= s'.oc.head <= s.oc.tail
    ensures CellsOk(s')
  {
    forall x | 0 <= x < |s.log| && x !in s.moved ensures CellOk(s', x, s.log[x]) { assert CellOk(s, x, s.log[x]); }
    if s.enq.PutTail? { assert CellOk(s, |s.log|, s.enq.e); }
    forall x | 0 <= x < s'.oc.head && x !in s'.emptied ensures Oldest(s') <= Number(x, s.size) {
      if s.oc.head <= x { assert CellOk(s, x, s.log[x]); }
    }
  }

  lemma LookupMemory(s: State, s': State)
    requires Core(s) && Shape(s') && s' == s.(readers := s'.readers)
    ensures FlagsOk(s') && ScanOk(s') && CellsOk(s') && HeadersOk(s')
  {
    SameFlags(s, s');
    SameCells(s, s');
    SameHeaders(s, s');
  }

  lemma LoadIndexOk(s: State, t: nat)
    requires Core(s) && t < |s.readers| && s.readers[t].LoadIndex?
    ensures var r := LoadFront(s.readers[t].i, |s.headers| - 1); ReaderShape(s, r) && ReaderOk(s, r)
  {
    ReaderLive(s, t);
    Published(s, s.readers[t].i);
    assert ReaderOk(s, s.readers[t]) && HeaderOk(s, |s.headers| - 1);
  }

  lemma LoadFrontOk(s: State, t: nat)
    requires Core(s) && t < |s.readers| && s.readers[t].LoadFront?
    ensures var LoadFront(i, h) := s.readers[t];
      var r := ReadBase(i, h, s.headers[h].front); ReaderShape(s, r) && ReaderOk(s, r)
  {
    var LoadFront(i, h) := s.readers[t];
    assert ReaderOk(s, s.readers[t]) && HeaderOk(s, h);
    assert AtSlot(s, h, s.headers[h].front, s.tops[h]);
  }

  lemma LookupFinds(i: nat, m: nat, shift: int, blockSize: nat, indexSize: nat)
    requires blockSize > 0 && indexSize > 0
    ensures LookupSlot(i, Wrap(m + shift, indexSize), Base(m, blockSize), blockSize, indexSize) ==
            Wrap(Number(i, blockSize) + shift, indexSize)
  {
    var k := Number(i, blockSize);
    BlockDistance(k, m, blockSize);
    WrapAdd(m + shift, k - m, indexSize);
  }

  /** The entry that the signed offset from the front entry leads to is the one of the index's block. */
  lemma ReadBaseOk(s: State, t: nat)
    requires Core(s) && t < |s.readers| && s.readers[t].ReadBase?
    ensures var ReadBase(i, h, f) := s.readers[t];
      var r := ReadBlock(i, h, LookupSlot(i, f, s.headers[h].entries[f].base, s.size, s.headers[h].size));
      ReaderShape(s, r) && ReaderOk(s, r)
  {
    var ReadBase(i, h, f) := s.readers[t];
    assert ReaderOk(s, s.readers[t]) && HeaderOk(s, h);
    var m: nat :| Number(i, s.size) <= m <= s.tops[h] && AtSlot(s, h, f, m);
    assert EntryOk(s, h, m);
    LookupFinds(i, m, s.shifts[h], s.size, s.headers[h].size);
  }

  lemma ReadBlockOk(s: State, t: nat)
    requires Core(s) && t < |s.readers| && s.readers[t].ReadBlock?
    ensures var ReadBlock(i, h, slot) := s.readers[t];
      var r := Move(i, s.headers[h].entries[slot].block); ReaderShape(s, r) && ReaderOk(s, r)
  {
    var ReadBlock(i, h, slot) := s.readers[t];
    assert ReaderOk(s, s.readers[t]) && HeaderOk(s, h);
    assert EntryOk(s, h, Number(i, s.size));
    ReaderLive(s, t);
  }

  lemma MoveCells(s: State, s': State, i: nat)
    requires Shape(s) && RingOk(s) && CellsOk(s) && Shape(s') && RingOk(s')
    requires i < s.oc.head && Oldest(s) <= Number(i, s.size) < |s.blockOf|
    requires
      var b := s.blockOf[Number(i, s.size)];
      && s'.size == s.size && s'.oc == s.oc && s'.log == s.log && s'.blockOf == s.blockOf && s'.used == s.used && s'.enq == s.enq
      && s'.moved == s.moved + {i} && s'.emptied == s.emptied
      && s'.cells == s.cells[b := s.cells[b][Offset(i, s.size) := Empty]]
    requires s.oc.head <= s.oc.tail
    ensures CellsOk(s')
  {
    forall x | 0 <= x < |s.log| && x !in s'.moved ensures CellOk(s', x, s.log[x]) {
      assert CellOk(s, x, s.log[x]);
      CellsApart(s, x, i);
    }
    if s.enq.PutTail? {
      assert CellOk(s, |s.log|, s.enq.e);
      CellsApart(s, |s.log|, i);
    }
  }

  /** What a dequeuer moves out is the element that was enqueued at its index. */
  lemma MoveGets(s: State, s': State, t: nat)
    requires Core(s) && t < |s.readers| && s.readers[t].Move? && DequeueStep(s, s', t)
    ensures var i := s.readers[t].i; i < |s.log| && s'.received == s.received + [(i, s.log[i])]
  {
    assert ReaderOk(s, s.readers[t]);
    ReaderLive(s, t);
    assert CellOk(s, s.readers[t].i, s.log[s.readers[t].i]);
  }

  lemma MoveReaders(s: State, s': State, t: nat)
    requires Shape(s) && ReadersOk(s) && Shape(s') && t < |s.readers|
    requires s.readers[t].Move? || s.readers[t].SetEmpty?
    requires |s'.readers| == |s.readers| && s'.readers == s.readers[t := s'.readers[t]] && ReaderOk(s', s'.readers[t])
    requires s'.readers[t].RIdle? || s'.readers[t].i == s.readers[t].i
    requires s'.size == s.size && s'.headers == s.headers && s'.shifts == s.shifts && s'.tops == s.tops && s'.lows == s.lows
    requires s'.used == s.used && s'.blockOf == s.blockOf && s.oc.head == s'.oc.head && |s'.cells| == |s.cells|
    requires forall x :: x != s.readers[t].i ==> (x in s'.moved <==> x in s.moved) && (x in s'.emptied <==> x in s.emptied)
    ensures ReadersOk(s')
  {
    forall u | 0 <= u < |s.readers| && u != t ensures ReaderOk(s', s'.readers[u]) {
      assert ReaderOk(s, s.readers[u]);
      if u < t { assert Apart(s.readers[u], s.readers[t]); } else { assert Apart(s.readers[t], s.readers[u]); }
      OtherReader(s, s', s.readers[u]);
    }
    forall u, v | 0 <= u < v < |s.readers| ensures Apart(s'.readers[u], s'.readers[v]) {
      assert Apart(s.readers[u], s.readers[v]);
    }
  }

  lemma MoveReceived(s: State, s': State, i: nat)
    requires ReceivedOk(s) && i !in s.moved && i < |s.log|
    requires s'.log == s.log && s'.moved == s.moved + {i} && s'.received == s.received + [(i, s.log[i])]
    ensures ReceivedOk(s')
  {
  }

  /** The whole effect of moving out the element of index `i`. */
  ghost predicate Moves(s: State, s': State, t: nat)
    requires Shape(s) && t < |s.readers| && s.readers[t].Move? && s.readers[t].i < |s.log|
  {
    var Move(i, b) := s.readers[t];
    s' == GoRead(s, t, SetEmpty(i, b))
          .(cells := s.cells[b := s.cells[b][Offset(i, s.size) := Empty]],
            moved := s.moved + {i},
            received := s.received + [(i, s.log[i])])
  }

  lemma MoveShape(s: State, s': State, t: nat)
    requires Shape(s) && RingOk(s) && t < |s.readers| && s.readers[t].Move? && s.readers[t].i < |s.log| && Moves(s, s', t)
    ensures Shape(s') && RingOk(s')
  {
  }

  lemma MoveCore(s: State, s': State, t: nat)
    requires Core(s) && t < |s.readers| && s.readers[t].Move? && s.readers[t].i < |s.log| && Moves(s, s', t)
    ensures Core(s')
  {
    var i := s.readers[t].i;
    assert ReaderOk(s, s.readers[t]);
    ReaderLive(s, t);
    MoveShape(s, s', t);
    MoveReceived(s, s', i);
    MoveCells(s, s', i);
    SameFlags(s, s');
    SameHeaders(s, s');
    MoveReaders(s, s', t);
  }

  lemma MoveInv(s: State, s': State, t: nat)
    requires Core(s) && t < |s.readers| && s.readers[t].Move? && DequeueStep(s, s', t)
    ensures Core(s')
  {
    MoveGets(s, s', t);
    MoveCore(s, s', t);
  }

  /** Another dequeuer's index is not affected by what this one moved or emptied. */
  lemma OtherReader(s: State, s': State, r: Reader)
    requires Shape(s) && Shape(s') && ReaderShape(s, r) && ReaderOk(s, r)
    requires s'.size == s.size && s'.headers == s.headers && s'.shifts == s.shifts && s'.tops == s.tops && s'.lows == s.lows
    requires s'.used == s.used && s'.blockOf == s.blockOf && s.oc.head <= s'.oc.head && |s'.cells| == |s.cells|
    requires !r.RIdle? ==> (r.i in s'.moved <==> r.i in s.moved) && (r.i in s'.emptied <==> r.i in s.emptied)
    ensures ReaderShape(s', r) && ReaderOk(s', r)
  {
    if r.ReadBase? {
      var m: nat :| Number(r.i, s.size) <= m <= s.tops[r.h] && AtSlot(s, r.h, r.f, m);
      assert AtSlot(s', r.h, r.f, m);
    }
  }

  lemma SameHeaders(s: State, s': State)
    requires Shape(s) && HeadersOk(s) && Shape(s')
    requires s'.size == s.size && s'.headers == s.headers && s'.shifts == s.shifts && s'.tops == s.tops && s'.lows == s.lows
    requires s'.prFront == s.prFront && s'.blockOf == s.blockOf && s'.used == s.used && s'.enq == s.enq
    requires s'.tailBlock == s.tailBlock && s'.oc.tail == s.oc.tail
    ensures HeadersOk(s')
  {
    forall h | 0 <= h < |s.headers| ensures HeaderOk(s', h) {
      assert HeaderOk(s, h);
      forall m | Low(s', h) <= m <= s'.tops[h] ensures EntryOk(s', h, m) { assert EntryOk(s, h, m); }
    }
  }

  lemma FlagAfter(s: State, s': State, i: nat, m: nat, o: nat)
    requires Shape(s) && RingOk(s) && Shape(s') && Oldest(s) <= Number(i, s.size) < |s.blockOf|
    requires
      var b := s.blockOf[Number(i, s.size)];
      && s'.size == s.size && s'.blockOf == s.blockOf && s'.emptied == s.emptied + {i}
      && s'.flags == s.flags[b := s.flags[b][FlagAt(Offset(i, s.size), s.size) := true]]
    requires Oldest(s) <= m < |s.blockOf| && o < s.size && FlagOk(s, m, o)
    ensures FlagOk(s', m, o)
  {
    Split(i, s.size);
    Join(m, o, s.size);
    var x := Base(m, s.size) + o;
    if x != i { CellsApart(s, x, i); }
  }

  lemma SetEmptyFlags(s: State, s': State, i: nat)
    requires Shape(s) && RingOk(s) && FlagsOk(s) && ScanOk(s) && Shape(s') && RingOk(s')
    requires Oldest(s) <= Number(i, s.size) < |s.blockOf| && s'.used == s.used && s'.enq == s.enq
    requires
      var b := s.blockOf[Number(i, s.size)];
      && s'.size == s.size && s'.blockOf == s.blockOf && s'.emptied == s.emptied + {i}
      && s'.flags == s.flags[b := s.flags[b][FlagAt(Offset(i, s.size), s.size) := true]]
    ensures FlagsOk(s') && ScanOk(s')
  {
    forall m, o | Oldest(s') <= m < |s'.blockOf| && 0 <= o < s'.size
      ensures (m == |s.blockOf| - 1 && s.enq.ResetFlag? && FlagAt(o, s.size) >= s.enq.j) || FlagOk(s', m, o)
    {
      assert (m == |s.blockOf| - 1 && s.enq.ResetFlag? && FlagAt(o, s.size) >= s.enq.j) || FlagOk(s, m, o);
      if FlagOk(s, m, o) { FlagAfter(s, s', i, m, o); }
    }
  }

  lemma SetEmptyShape(s: State, s': State, t: nat)
    requires Shape(s) && RingOk(s) && t < |s.readers| && s.readers[t].SetEmpty? && DequeueStep(s, s', t)
    ensures Shape(s') && RingOk(s')
  {
  }

  lemma SetEmptyInv(s: State, s': State, t: nat)
    requires Core(s) && t < |s.readers| && s.readers[t].SetEmpty? && DequeueStep(s, s', t)
    ensures Core(s')
  {
    var i := s.readers[t].i;
    assert ReaderOk(s, s.readers[t]);
    ReaderLive(s, t);
    SetEmptyShape(s, s', t);
    SetEmptyFlags(s, s', i);
    SameCells(s, s');
    SameHeaders(s, s');
    MoveReaders(s, s', t);
  }

  // Claiming an index

  lemma SingleStep(oc: Overcommit.State, oc': Overcommit.State, t: nat)
    requires Overcommit.Inv(oc) && t < |oc.pcs| && Single(oc.pcs[t]) && Overcommit.DequeueStep(oc, oc', t)
    requires oc.pcs[t].Idle? ==> oc' == Overcommit.Go(oc, t, Overcommit.LoadTail(1))
    ensures |oc'.pcs| == |oc.pcs| && Single(oc'.pcs[t]) && oc'.tail == oc.tail
    ensures forall u :: 0 <= u < |oc.pcs| && u != t ==> oc'.pcs[u] == oc.pcs[u]
    ensures oc'.head == if oc.pcs[t].TakeHead? then oc.head + 1 else oc.head
  {
    assert Overcommit.PcOk(oc.pcs[t], oc.book, oc.overcommit);
  }

  lemma ClaimReaders(s: State, s': State, t: nat)
    requires Shape(s) && ReadersOk(s) && Shape(s') && t < |s.readers| && s.readers[t].RIdle?
    requires s'.readers == s.readers || s'.readers == s.readers[t := LoadIndex(s.oc.head)]
    requires s'.readers != s.readers ==> s'.oc.head == s.oc.head + 1 && s.oc.head !in s.moved
    requires s'.size == s.size && s'.headers == s.headers && s'.shifts == s.shifts && s'.tops == s.tops && s'.lows == s.lows
    requires s'.used == s.used && s'.blockOf == s.blockOf && s.oc.head <= s'.oc.head && |s'.cells| == |s.cells|
    requires s'.moved == s.moved && s'.emptied == s.emptied && (forall x <- s.moved :: x < s.oc.head)
    ensures ReadersOk(s')
  {
    forall u | 0 <= u < |s.readers| ensures ReaderOk(s', s'.readers[u]) {
      assert ReaderOk(s, s.readers[u]);
      if u != t { OtherReader(s, s', s.readers[u]); }
    }
    forall u, v | 0 <= u < v < |s.readers| ensures Apart(s'.readers[u], s'.readers[v]) {
      assert Apart(s.readers[u], s.readers[v]);
      assert ReaderOk(s, s.readers[u]) && ReaderOk(s, s.readers[v]);
    }
  }

  lemma ClaimCore(s: State, s': State, t: nat, take: bool)
    requires Core(s) && t < |s.readers| && s.readers[t].RIdle? && |s'.oc.pcs| == |s.oc.pcs|
    requires s' == (if take then GoRead(s, t, LoadIndex(s.oc.head)) else s).(oc := s'.oc)
    requires s'.oc.tail == s.oc.tail && s'.oc.head == (if take then s.oc.head + 1 else s.oc.head) && s'.oc.head <= s.oc.tail
    ensures Core(s')
  {
    SameFlags(s, s');
    SameCells(s, s');
    SameHeaders(s, s');
    ClaimReaders(s, s', t);
  }

  ghost predicate AllSingle(oc: Overcommit.State) {
    forall t :: 0 <= t < |oc.pcs| ==> Single(oc.pcs[t])
  }

  lemma ClaimCounts(oc: Overcommit.State, oc': Overcommit.State, t: nat)
    requires Overcommit.Inv(oc) && AllSingle(oc) && t < |oc.pcs| && Overcommit.DequeueStep(oc, oc', t)
    requires oc.pcs[t].Idle? ==> oc' == Overcommit.Go(oc, t, Overcommit.LoadTail(1))
    ensures Overcommit.Inv(oc') && AllSingle(oc') && |oc'.pcs| == |oc.pcs|
    ensures oc'.tail == oc.tail && oc'.head == (if oc.pcs[t].TakeHead? then oc.head + 1 else oc.head)
    ensures oc'.head <= oc'.tail
  {
    SingleStep(oc, oc', t);
    Overcommit.DequeueInv(oc, oc', t);
    Overcommit.HeadBound(oc');
  }

  lemma ClaimInv(s: State, s': State, t: nat)
    requires Inv(s) && t < |s.readers| && s.readers[t].RIdle? && DequeueStep(s, s', t)
    ensures Inv(s')
  {
    ClaimCounts(s.oc, s'.oc, t);
    ClaimCore(s, s', t, s.oc.pcs[t].TakeHead?);
  }

  lemma DequeueCore(s: State, s': State, t: nat)
    requires Core(s) && t < |s.readers| && DequeueStep(s, s', t) && !s.readers[t].RIdle?
    ensures Core(s') && s'.oc == s.oc
  {
    match s.readers[t]
    case LoadIndex(_) => LoadIndexOk(s, t); LookupInv(s, s', t);
    case LoadFront(_, _) => LoadFrontOk(s, t); LookupInv(s, s', t);
    case ReadBase(_, _, _) => ReadBaseOk(s, t); LookupInv(s, s', t);
    case ReadBlock(_, _, _) => ReadBlockOk(s, t); LookupInv(s, s', t);
    case Move(_, _) => MoveInv(s, s', t);
    case SetEmpty(_, _) => SetEmptyInv(s, s', t);
  }

  // ---------------------------------------------------------------------------------------------
  // What every run keeps
  // ---------------------------------------------------------------------------------------------

  lemma InitInv(s: State)
    requires Init(s)
    ensures Inv(s)
  {
    Overcommit.InitInv(s.oc);
    WrapSmall(0, Last(s).size);
  }

  lemma StepInv(s: State, s': State)
    requires Inv(s) && Step(s, s')
    ensures Inv(s')
  {
    if t :| 0 <= t < |s.readers| && DequeueStep(s, s', t) {
      if s.readers[t].RIdle? { ClaimInv(s, s', t); } else { DequeueCore(s, s', t); }
    } else {
      EnqueueInv(s, s');
      if s.enq.PutTail? { Overcommit.EnqueueInv(s.oc, s'.oc, 1); }
    }
  }
}
