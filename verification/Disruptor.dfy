/**
 The disruptor's multi-producer sequencer and the logger built on it, as one transition system:
 any number of producers claim sequences with a compare-and-set on the cursor, fill ring slots
 and set per-slot flags, possibly out of order; one consumer scans for the first gap, moves
 events out, clears flags, moves the gating sequence and posts batches to the sinks' strands.
 One step is one atomic operation of one thread.
 */
module Disruptor {
  import opened Bits

  // ---------------------------------------------------------------------------------------------
  // State
  // ---------------------------------------------------------------------------------------------

  /** What a producer puts through the ring: a log message, or the shutdown signal. */
  datatype Entry = Message(text: string) | Stop

  /** A ring slot. A slot is reused: what an earlier event left in it stays until overwritten. */
  datatype Event = Event(text: string, stop: bool)

  /** next, try_next, next_batch, and the claim made by Logger::shutdown. */
  datatype Mode = Next | TryNext | Batch | Shutdown

  /** One claim, with the entries it is for. */
  datatype Op = Op(mode: Mode, entries: seq<Entry>)

  datatype Producer =
    | Idle
    | LoadCursor(op: Op)                          // read the cursor
    | LoadGating(op: Op, current: int)            // read the gating sequence, test for backpressure
    | Cas(op: Op, current: int)                   // compare-and-set the cursor
    | WriteText(op: Op, first: nat, k: nat)       // fill slot first + k
    | WriteStop(op: Op, first: nat, k: nat)       //   ... its shutdown_signal
    | Publish(op: Op, first: nat, k: nat)         // set the flag of first + k
    | Join                                        // shutdown: wait for the consumer thread
    | PostFlush(sink: nat)                        // shutdown: post the flush to each strand

  datatype Consumer =
    | Head                                                      // loop head: still running?
    | Load                                                      // read the cursor
    | Scan(q: nat, avail: int)                                  // get_highest_published: test flag q
    | Take(q: nat, avail: int, batch: seq<string>)              // look at event q, move it out
    | Mark(q: nat, avail: int, batch: seq<string>, stop: bool)  // clear flag q
    | Halt(q: nat, batch: seq<string>)                          // shutdown seen: running_ := false
    | Gate(last: nat, batch: seq<string>)                       // store the gating sequence
    | Post(sink: nat, batch: seq<string>)                       // post the batch to strand `sink`
    | Done

  /** Work queued on a strand. */
  datatype Work = ProcessBatch(texts: seq<string>) | FlushNow | FinalFlush

  /**
   `log` and `published` are history: what was claimed, in claim order, and which of it has been
   published so far. No step reads them.
   */
  datatype State = State(
    cursor: int,
    gating: int,
    flags: seq<bool>,
    slots: seq<Event>,
    running: bool,
    strands: seq<seq<Work>>,
    producers: seq<Producer>,
    consumer: Consumer,
    nextSeq: nat,
    log: seq<Entry>,
    published: seq<bool>
  )

  ghost predicate Init(s: State) {
    && s.cursor == -1 && s.gating == -1 && s.nextSeq == 0
    && HasSingleBit(|s.flags|) && |s.slots| == |s.flags|
    && (forall i :: 0 <= i < |s.flags| ==> !s.flags[i])
    && s.running
    && (forall i :: 0 <= i < |s.strands| ==> s.strands[i] == [])
    && (forall p :: 0 <= p < |s.producers| ==> s.producers[p] == Idle)
    && s.consumer == Head
    && s.log == [] && s.published == []
  }

  /** next and try_next claim one sequence, shutdown claims one for the signal; a batch may be any size. */
  predicate WellFormed(op: Op) {
    && ((op.mode.Next? || op.mode.TryNext?) ==> |op.entries| == 1)
    && (op.mode.Shutdown? ==> op.entries == [Stop])
  }

  /** Sizes the steps index by. */
  ghost predicate Shape(s: State) {
    && HasSingleBit(|s.flags|) && |s.slots| == |s.flags|
    && s.cursor >= -1
    && (s.consumer.Take? ==> s.consumer.q > 0 || s.consumer.avail >= 0)
    && (forall p :: 0 <= p < |s.producers| ==> ProducerShape(s.producers[p]))
  }

  predicate ProducerShape(pc: Producer) {
    match pc
    case LoadCursor(op) => WellFormed(op)
    case LoadGating(op, current) => WellFormed(op) && current >= -1
    case Cas(op, current) => WellFormed(op) && current >= -1
    case WriteText(op, _, k) => WellFormed(op) && k < |op.entries|
    case WriteStop(op, _, k) => WellFormed(op) && k < |op.entries|
    case Publish(op, _, k) => WellFormed(op) && k < |op.entries|
    case _ => true
  }

  // ---------------------------------------------------------------------------------------------
  // Producer steps
  // ---------------------------------------------------------------------------------------------

  function Go(s: State, p: nat, pc: Producer): State
    requires p < |s.producers|
  {
    s.(producers := s.producers[p := pc])
  }

  /** Claiming up to `current + n` would overwrite what the consumer has not freed. */
  predicate WouldWrap(current: int, n: nat, size: nat, gating: int) {
    current + n - size > gating
  }

  function AfterWrite(op: Op, first: nat, k: nat): Producer {
    if k + 1 < |op.entries| then WriteText(op, first, k + 1) else Publish(op, first, 0)
  }

  function AfterPublish(op: Op, first: nat, k: nat): Producer {
    if k + 1 < |op.entries| then Publish(op, first, k + 1) else if op.mode.Shutdown? then Join else Idle
  }

  ghost predicate ProducerStep(s: State, s': State, p: nat)
    requires Shape(s) && p < |s.producers|
  {
    match s.producers[p]
    case Idle =>
      || (exists op :: WellFormed(op) && (op.mode.Shutdown? ==> s.running) && s' == Go(s, p, LoadCursor(op)))
      || (exists i :: 0 <= i < |s.strands| && s' == s.(strands := s.strands[i := s.strands[i] + [FlushNow]]))
    case LoadCursor(op) =>
      s' == Go(s, p, LoadGating(op, s.cursor))
    case LoadGating(op, current) =>
      if WouldWrap(current, |op.entries|, |s.flags|, s.gating)
      then s' == if op.mode.TryNext? then Go(s, p, Idle) else s
      else s' == Go(s, p, Cas(op, current))
    case Cas(op, current) =>
      || s' == Go(s, p, if op.mode.TryNext? then Idle else LoadCursor(op))  // lost, or spurious failure
      || (&& s.cursor == current
          && s' == Go(s, p, if op.entries == [] then Idle else WriteText(op, current + 1, 0))
                   .(cursor := current + |op.entries|,
                     log := s.log + op.entries,
                     published := s.published + seq(|op.entries|, _ => false)))
    case WriteText(op, first, k) =>
      var i := Slot(first + k, |s.slots|);
      s' == Go(s, p, WriteStop(op, first, k))
            .(slots := if op.entries[k].Message? then s.slots[i := s.slots[i].(text := op.entries[k].text)] else s.slots)
    case WriteStop(op, first, k) =>
      var i := Slot(first + k, |s.slots|);
      s' == Go(s, p, AfterWrite(op, first, k))
            .(slots := s.slots[i := s.slots[i].(stop := op.entries[k].Stop?)])
    case Publish(op, first, k) =>
      s' == Go(s, p, AfterPublish(op, first, k))
            .(flags := s.flags[Slot(first + k, |s.flags|) := true],
              published := if first + k < |s.published| then s.published[first + k := true] else s.published)
    case Join =>
      s.consumer.Done? && s' == Go(s, p, PostFlush(0))
    case PostFlush(i) =>
      if i < |s.strands|
      then s' == Go(s, p, PostFlush(i + 1)).(strands := s.strands[i := s.strands[i] + [FinalFlush]])
      else s' == Go(s, p, Idle)
  }

  // ---------------------------------------------------------------------------------------------
  // Consumer steps
  // ---------------------------------------------------------------------------------------------

  /** What the loop does with the answer of get_highest_published: wait, or drain up to it. */
  function Scanned(nextSeq: nat, highest: int): Consumer {
    if highest < nextSeq then Head else Take(nextSeq, highest, [])
  }

  ghost predicate ConsumerStep(s: State, s': State)
    requires Shape(s)
  {
    match s.consumer
    case Head =>
      s' == s.(consumer := if s.running then Load else Done)
    case Load =>
      s' == s.(consumer := Scan(s.nextSeq, s.cursor))
    case Scan(q, avail) =>
      if q > avail then s' == s.(consumer := Scanned(s.nextSeq, avail))
      else if s.flags[Slot(q, |s.flags|)] then s' == s.(consumer := Scan(q + 1, avail))
      else s' == s.(consumer := Scanned(s.nextSeq, q - 1))
    case Take(q, avail, batch) =>
      if q > avail then s' == s.(consumer := Gate(q - 1, batch))
      else
        var i := Slot(q, |s.slots|);
        var event := s.slots[i];
        if event.stop then s' == s.(consumer := Mark(q, avail, batch, true))
        else exists rest :: s' == s.(consumer := Mark(q, avail, batch + [event.text], false),
                                     slots := s.slots[i := event.(text := rest)])
    case Mark(q, avail, batch, stop) =>
      s' == s.(flags := s.flags[Slot(q, |s.flags|) := false],
               consumer := if stop then Halt(q, batch) else Take(q + 1, avail, batch))
    case Halt(q, batch) =>
      s' == s.(running := false, consumer := Gate(q, batch))
    case Gate(last, batch) =>
      s' == s.(gating := last, nextSeq := last + 1, consumer := if batch == [] then Head else Post(0, batch))
    case Post(i, batch) =>
      if i < |s.strands|
      then s' == s.(strands := s.strands[i := s.strands[i] + [ProcessBatch(batch)]], consumer := Post(i + 1, batch))
      else s' == s.(consumer := Head)
    case Done => false
  }

  ghost predicate Step(s: State, s': State) {
    && Shape(s)
    && (ConsumerStep(s, s') || exists p :: 0 <= p < |s.producers| && ProducerStep(s, s', p))
  }

  // ---------------------------------------------------------------------------------------------
  // The invariant
  // ---------------------------------------------------------------------------------------------

  /** Sequences below this one have had their flags cleared. */
  function MarkedTo(c: Consumer, nextSeq: nat): nat {
    match c
    case Take(q, _, _) => q
    case Mark(q, _, _, _) => q
    case Halt(q, _) => q + 1
    case Gate(last, _) => last + 1
    case _ => nextSeq
  }

  /** Sequences below this one have been looked at and moved out of their slots. */
  function MovedTo(c: Consumer, nextSeq: nat): nat {
    if c.Mark? then c.q + 1 else MarkedTo(c, nextSeq)
  }

  /** Sequences below this one are known to the consumer to be published. */
  function KnownTo(c: Consumer, nextSeq: nat): int {
    match c
    case Scan(q, _) => q
    case Take(_, avail, _) => avail + 1
    case Mark(_, avail, _, _) => avail + 1
    case Halt(q, _) => q + 1
    case Gate(last, _) => last + 1
    case _ => nextSeq
  }

  /** The consumer's positions are in order and everything it relies on is published. */
  ghost predicate PositionsOk(c: Consumer, nextSeq: nat, published: seq<bool>) {
    && nextSeq <= MarkedTo(c, nextSeq) <= MovedTo(c, nextSeq) <= KnownTo(c, nextSeq) <= |published|
    && (forall j :: 0 <= j < KnownTo(c, nextSeq) ==> published[j])
    && (c.Scan? ==> c.q <= c.avail + 1 <= |published|)
    && (c.Take? ==> nextSeq <= c.avail)
    && (c.Halt? ==> nextSeq <= c.q)
    && (c.Gate? ==> nextSeq <= c.last)
  }

  /** The flag of a slot is set exactly when the one sequence of the window that maps to it is published and not yet marked consumed. */
  ghost predicate FlagsOk(flags: seq<bool>, base: nat, published: seq<bool>, marked: nat)
    requires HasSingleBit(|flags|)
  {
    forall j :: base <= j < base + |flags| ==> FlagOk(flags, j, published, marked)
  }

  ghost predicate FlagOk(flags: seq<bool>, j: nat, published: seq<bool>, marked: nat)
    requires HasSingleBit(|flags|)
  {
    flags[Slot(j, |flags|)] <==> j < |published| && published[j] && marked <= j
  }

  ghost predicate Holds(slots: seq<Event>, j: nat, e: Entry)
    requires HasSingleBit(|slots|)
  {
    var event := slots[Slot(j, |slots|)];
    match e
    case Message(text) => event == Event(text, false)
    case Stop => event.stop
  }

  /** A published event that has not been moved out is still in its slot. */
  ghost predicate SlotsOk(slots: seq<Event>, log: seq<Entry>, published: seq<bool>, moved: nat)
    requires HasSingleBit(|slots|) && |published| == |log|
  {
    forall j :: moved <= j < |log| && published[j] ==> Holds(slots, j, log[j])
  }

  /** The claimed sequences a producer has not published yet are [Lo, Hi). */
  function Lo(pc: Producer): nat {
    match pc
    case WriteText(_, first, _) => first
    case WriteStop(_, first, _) => first
    case Publish(_, first, k) => first + k
    case _ => 0
  }

  function Hi(pc: Producer): nat {
    match pc
    case WriteText(op, first, _) => first + |op.entries|
    case WriteStop(op, first, _) => first + |op.entries|
    case Publish(op, first, _) => first + |op.entries|
    case _ => 0
  }

  predicate Holding(pc: Producer) {
    pc.WriteText? || pc.WriteStop? || pc.Publish?
  }

  /** A claim is recorded in the log and none of what is left of it is published. */
  ghost predicate ClaimOk(pc: Producer, log: seq<Entry>, published: seq<bool>)
    requires |published| == |log|
  {
    Holding(pc) ==>
      && pc.first + |pc.op.entries| <= |log|
      && log[pc.first..pc.first + |pc.op.entries|] == pc.op.entries
      && forall j :: Lo(pc) <= j < Hi(pc) ==> !published[j]
  }

  /** Entries [from, to) of a claim are in their slots. */
  ghost predicate InSlots(op: Op, first: nat, from: nat, to: nat, slots: seq<Event>)
    requires HasSingleBit(|slots|) && to <= |op.entries|
  {
    forall d :: from <= d < to ==> Holds(slots, first + d, op.entries[d])
  }

  /** What a producer has written so far is in its slots. */
  ghost predicate WrittenOk(pc: Producer, slots: seq<Event>)
    requires HasSingleBit(|slots|) && ProducerShape(pc)
  {
    match pc
    case WriteText(op, first, k) => InSlots(op, first, 0, k, slots)
    case WriteStop(op, first, k) =>
      && InSlots(op, first, 0, k, slots)
      && (op.entries[k].Message? ==> slots[Slot(first + k, |slots|)].text == op.entries[k].text)
    case Publish(op, first, k) => InSlots(op, first, k, |op.entries|, slots)
    case _ => true
  }

  /** A passed backpressure test stays passed, whatever happens before the compare-and-set. */
  ghost predicate TestOk(pc: Producer, size: nat, gating: int) {
    pc.Cas? ==> !WouldWrap(pc.current, |pc.op.entries|, size, gating)
  }

  ghost predicate Disjoint(a: Producer, b: Producer) {
    Holding(a) && Holding(b) ==> Hi(a) <= Lo(b) || Hi(b) <= Lo(a)
  }

  ghost predicate RingInv(s: State) {
    && Shape(s)
    && s.cursor == |s.log| - 1 && |s.published| == |s.log|
    && s.gating == s.nextSeq - 1
    && s.gating <= s.cursor <= s.gating + |s.flags|
    && PositionsOk(s.consumer, s.nextSeq, s.published)
    && FlagsOk(s.flags, s.nextSeq, s.published, MarkedTo(s.consumer, s.nextSeq))
    && SlotsOk(s.slots, s.log, s.published, MovedTo(s.consumer, s.nextSeq))
  }

  ghost predicate ClaimsInv(s: State)
    requires Shape(s) && |s.published| == |s.log|
  {
    && (forall p :: 0 <= p < |s.producers| ==>
          && ClaimOk(s.producers[p], s.log, s.published)
          && WrittenOk(s.producers[p], s.slots)
          && TestOk(s.producers[p], |s.flags|, s.gating))
    && (forall p, r :: 0 <= p < |s.producers| && 0 <= r < |s.producers| && p != r ==>
          Disjoint(s.producers[p], s.producers[r]))
  }

  /** The texts of the messages, in order; the shutdown signal carries none. */
  function Texts(es: seq<Entry>): seq<string> {
    if es == [] then []
    else Texts(es[..|es| - 1]) + if es[|es| - 1].Message? then [es[|es| - 1].text] else []
  }

  predicate NoStop(es: seq<Entry>) {
    forall i :: 0 <= i < |es| ==> es[i].Message?
  }

  /** Everything before `n` is a message, but for a signal at `n - 1` once the loop has been told to stop. */
  predicate Ended(log: seq<Entry>, n: nat, running: bool)
    requires n <= |log|
  {
    if running then NoStop(log[..n]) else n > 0 && log[n - 1].Stop? && NoStop(log[..n - 1])
  }

  /** The batch in hand is exactly what has been moved out since `nextSeq`. */
  ghost predicate BatchOk(c: Consumer, nextSeq: nat, log: seq<Entry>, running: bool)
    requires nextSeq <= MovedTo(c, nextSeq) <= |log|
  {
    && (c.Load? || c.Scan? || c.Take? || c.Mark? || c.Halt? ==> running)
    && (c.Done? ==> !running)
    && match c
       case Take(q, _, batch) => batch == Texts(log[nextSeq..q]) && NoStop(log[..q])
       case Mark(q, _, batch, stop) =>
         batch == Texts(log[nextSeq..q + 1]) && NoStop(log[..q]) && (stop <==> log[q].Stop?)
       case Halt(q, batch) => batch == Texts(log[nextSeq..q + 1]) && NoStop(log[..q]) && log[q].Stop?
       case Gate(last, batch) => batch == Texts(log[nextSeq..last + 1]) && Ended(log, last + 1, running)
       case _ => Ended(log, nextSeq, running)
  }

  function Given(w: Work): seq<string> {
    match w
    case ProcessBatch(texts) => texts
    case _ => []
  }

  /** The texts a strand has been given, across batch boundaries. */
  function Delivered(strand: seq<Work>): seq<string> {
    if strand == [] then [] else Delivered(strand[..|strand| - 1]) + Given(strand[|strand| - 1])
  }

  /** What sink `i` has yet to be handed of the batch being posted. */
  function Owed(c: Consumer, i: nat): seq<string> {
    if c.Post? && c.sink <= i then c.batch else []
  }

  /** Every strand has received the messages below `nextSeq`, in claim order, each once. */
  ghost predicate StrandsOk(strands: seq<seq<Work>>, c: Consumer, nextSeq: nat, log: seq<Entry>)
    requires nextSeq <= |log|
  {
    forall i :: 0 <= i < |strands| ==> Delivered(strands[i]) + Owed(c, i) == Texts(log[..nextSeq])
  }

  /** The flush that shutdown posts comes after every batch. */
  ghost predicate FlushLast(strand: seq<Work>, done: bool) {
    && (forall a :: 0 <= a < |strand| && strand[a] == FinalFlush ==> done)
    && (forall a, b :: 0 <= a < b < |strand| && strand[a] == FinalFlush ==> !strand[b].ProcessBatch?)
  }

  ghost predicate FlushesInv(s: State) {
    && (forall i :: 0 <= i < |s.strands| ==> FlushLast(s.strands[i], s.consumer.Done?))
    && (forall p :: 0 <= p < |s.producers| && s.producers[p].PostFlush? ==> s.consumer.Done?)
  }

  ghost predicate Inv(s: State) {
    && RingInv(s)
    && ClaimsInv(s)
    && BatchOk(s.consumer, s.nextSeq, s.log, s.running)
    && StrandsOk(s.strands, s.consumer, s.nextSeq, s.log)
    && FlushesInv(s)
  }

  // ---------------------------------------------------------------------------------------------
  // Flags and slots
  // ---------------------------------------------------------------------------------------------

  lemma SlotsDiffer(i: nat, j: nat, base: nat, n: nat)
    requires HasSingleBit(n) && base <= i < base + n && base <= j < base + n && i != j
    ensures Slot(i, n) != Slot(j, n)
  {
    if i < j { SlotsDistinct(i, j, n); } else { SlotsDistinct(j, i, n); }
  }

  lemma FlagSet(flags: seq<bool>, base: nat, published: seq<bool>, marked: nat, j: nat)
    requires HasSingleBit(|flags|) && FlagsOk(flags, base, published, marked)
    requires base <= j < base + |flags| && j < |published| && marked <= j
    ensures FlagsOk(flags[Slot(j, |flags|) := true], base, published[j := true], marked)
  {
    var flags', published' := flags[Slot(j, |flags|) := true], published[j := true];
    forall i: nat | base <= i < base + |flags| ensures FlagOk(flags', i, published', marked) {
      assert FlagOk(flags, i, published, marked);
      if i != j { SlotsDiffer(i, j, base, |flags|); }
    }
  }

  lemma FlagClear(flags: seq<bool>, base: nat, published: seq<bool>, j: nat)
    requires HasSingleBit(|flags|) && FlagsOk(flags, base, published, j) && base <= j < base + |flags|
    ensures FlagsOk(flags[Slot(j, |flags|) := false], base, published, j + 1)
  {
    var flags' := flags[Slot(j, |flags|) := false];
    var marked := j + 1;
    forall i: nat | base <= i < base + |flags| ensures FlagOk(flags', i, published, marked) {
      assert FlagOk(flags, i, published, j);
      if i != j { SlotsDiffer(i, j, base, |flags|); }
    }
  }

  /** The window may move up once every flag it leaves behind is cleared. */
  lemma FlagWindow(flags: seq<bool>, base: nat, base': nat, published: seq<bool>, marked: nat)
    requires HasSingleBit(|flags|) && FlagsOk(flags, base, published, marked)
    requires base <= base' <= marked <= |published| <= base + |flags|
    ensures FlagsOk(flags, base', published, marked)
  {
    forall i | base' <= i < base' + |flags| ensures FlagOk(flags, i, published, marked) {
      if i < base + |flags| {
        assert FlagOk(flags, i, published, marked);
      } else {
        SlotPeriodic(i - |flags|, |flags|);
        assert FlagOk(flags, i - |flags|, published, marked);
      }
    }
  }

  lemma FlagGrow(flags: seq<bool>, base: nat, published: seq<bool>, marked: nat, n: nat)
    requires HasSingleBit(|flags|) && FlagsOk(flags, base, published, marked)
    ensures FlagsOk(flags, base, published + seq(n, _ => false), marked)
  {
    var published' := published + seq(n, _ => false);
    forall i: nat | base <= i < base + |flags| ensures FlagOk(flags, i, published', marked) {
      assert FlagOk(flags, i, published, marked);
    }
  }

  /** Writing one slot of the window leaves every other one alone. */
  lemma HoldsFrame(slots: seq<Event>, base: nat, i: nat, event: Event, j: nat, e: Entry)
    requires HasSingleBit(|slots|) && base <= i < base + |slots| && base <= j < base + |slots| && i != j
    ensures Holds(slots[Slot(i, |slots|) := event], j, e) <==> Holds(slots, j, e)
  {
    SlotsDiffer(i, j, base, |slots|);
  }

  lemma SlotsFrame(slots: seq<Event>, log: seq<Entry>, published: seq<bool>, moved: nat, moved': nat, base: nat, i: nat, event: Event)
    requires HasSingleBit(|slots|) && |published| == |log| && SlotsOk(slots, log, published, moved)
    requires base <= moved <= moved' && |log| <= base + |slots| && base <= i < |log|
    requires i < moved' || !published[i]
    ensures SlotsOk(slots[Slot(i, |slots|) := event], log, published, moved')
  {
    forall j | moved' <= j < |log| && published[j] ensures Holds(slots[Slot(i, |slots|) := event], j, log[j]) {
      HoldsFrame(slots, base, i, event, j, log[j]);
    }
  }

  // ---------------------------------------------------------------------------------------------
  // Steps keep the ring
  // ---------------------------------------------------------------------------------------------

  lemma ProducersStep(s: State, s': State, p: nat)
    requires Shape(s) && p < |s.producers| && ProducerStep(s, s', p)
    ensures |s'.producers| == |s.producers| && s'.producers == s.producers[p := s'.producers[p]]
  {
  }

  lemma SizesStep(s: State, s': State, p: nat)
    requires Shape(s) && p < |s.producers| && ProducerStep(s, s', p)
    ensures |s'.flags| == |s.flags| && |s'.slots| == |s.slots| && |s'.producers| == |s.producers|
    ensures s'.producers == s.producers[p := s'.producers[p]]
    ensures s'.cursor >= -1 && s'.consumer == s.consumer
  {
    ProducersStep(s, s', p);
  }

  lemma PcStep(s: State, s': State, p: nat)
    requires Shape(s) && p < |s.producers| && ProducerShape(s.producers[p])
    requires ProducerStep(s, s', p) && |s'.producers| == |s.producers|
    ensures ProducerShape(s'.producers[p])
  {
  }

  lemma ShapeStep(s: State, s': State, p: nat)
    requires Shape(s) && p < |s.producers| && ProducerStep(s, s', p)
    ensures |s'.flags| == |s.flags| && |s'.slots| == |s.slots| && |s'.producers| == |s.producers|
    ensures s'.producers == s.producers[p := s'.producers[p]]
    ensures Shape(s')
  {
    SizesStep(s, s', p);
    PcStep(s, s', p);
  }

  lemma RingCas(s: State, s': State, p: nat)
    requires RingInv(s) && p < |s.producers| && s.producers[p].Cas? && TestOk(s.producers[p], |s.flags|, s.gating)
    requires ProducerStep(s, s', p) && s.cursor == s.producers[p].current && s'.log != s.log
    ensures RingInv(s')
  {
    ShapeStep(s, s', p);
    FlagGrow(s.flags, s.nextSeq, s.published, MarkedTo(s.consumer, s.nextSeq), |s.producers[p].op.entries|);
    forall j | MovedTo(s.consumer, s.nextSeq) <= j < |s'.log| && s'.published[j] ensures Holds(s'.slots, j, s'.log[j]) {
      assert s.published[j];
    }
  }

  lemma RingWrite(s: State, s': State, p: nat)
    requires RingInv(s) && p < |s.producers| && (s.producers[p].WriteText? || s.producers[p].WriteStop?)
    requires ClaimOk(s.producers[p], s.log, s.published) && ProducerStep(s, s', p)
    ensures RingInv(s')
  {
    ShapeStep(s, s', p);
    var j := s.producers[p].first + s.producers[p].k;
    assert Lo(s.producers[p]) <= j < Hi(s.producers[p]);
    Unpublished(s, j);
    var moved := MovedTo(s.consumer, s.nextSeq);
    var i := Slot(j, |s.slots|);
    assert s.slots == s.slots[i := s.slots[i]];
    SlotsFrame(s.slots, s.log, s.published, moved, moved, s.nextSeq, j, s'.slots[i]);
  }

  /** What is not published the consumer has not reached. */
  lemma Unpublished(s: State, j: nat)
    requires RingInv(s) && j < |s.log| && !s.published[j]
    ensures s.nextSeq <= j < s.nextSeq + |s.flags| && MovedTo(s.consumer, s.nextSeq) <= j
  {
  }

  /** What is published next is in its slot. */
  lemma NextIsWritten(pc: Producer, log: seq<Entry>, published: seq<bool>, slots: seq<Event>)
    requires pc.Publish? && ProducerShape(pc) && |published| == |log| && HasSingleBit(|slots|)
    requires ClaimOk(pc, log, published) && WrittenOk(pc, slots)
    ensures var j := pc.first + pc.k;
            j < |log| && !published[j] && Holds(slots, j, log[j])
  {
    assert Lo(pc) <= pc.first + pc.k < Hi(pc);
    assert log[pc.first + pc.k] == log[pc.first..pc.first + |pc.op.entries|][pc.k];
    assert Holds(slots, pc.first + pc.k, pc.op.entries[pc.k]);
  }

  lemma PublishSlots(slots: seq<Event>, log: seq<Entry>, published: seq<bool>, moved: nat, j: nat)
    requires HasSingleBit(|slots|) && |published| == |log| && SlotsOk(slots, log, published, moved)
    requires j < |log| && Holds(slots, j, log[j])
    ensures SlotsOk(slots, log, published[j := true], moved)
  {
  }

  lemma PublishPositions(c: Consumer, nextSeq: nat, published: seq<bool>, j: nat)
    requires j < |published| && PositionsOk(c, nextSeq, published)
    ensures PositionsOk(c, nextSeq, published[j := true])
  {
  }

  lemma PublishFrame(s: State, s': State, p: nat)
    requires Shape(s) && p < |s.producers| && s.producers[p].Publish? && ProducerStep(s, s', p)
    requires s.producers[p].first + s.producers[p].k < |s.published|
    ensures var j := s.producers[p].first + s.producers[p].k;
            s' == s.(producers := s'.producers, flags := s.flags[Slot(j, |s.flags|) := true], published := s.published[j := true])
  {
  }

  lemma RingPublishes(s: State, s': State, j: nat)
    requires RingInv(s) && Shape(s') && j < |s.log| && !s.published[j] && Holds(s.slots, j, s.log[j])
    requires s' == s.(producers := s'.producers, flags := s.flags[Slot(j, |s.flags|) := true], published := s.published[j := true])
    ensures RingInv(s')
  {
    Unpublished(s, j);
    FlagSet(s.flags, s.nextSeq, s.published, MarkedTo(s.consumer, s.nextSeq), j);
    PublishSlots(s.slots, s.log, s.published, MovedTo(s.consumer, s.nextSeq), j);
    PublishPositions(s.consumer, s.nextSeq, s.published, j);
  }

  lemma RingPublish(s: State, s': State, p: nat)
    requires RingInv(s) && p < |s.producers| && s.producers[p].Publish?
    requires ClaimOk(s.producers[p], s.log, s.published) && WrittenOk(s.producers[p], s.slots) && ProducerStep(s, s', p)
    ensures RingInv(s')
  {
    ShapeStep(s, s', p);
    NextIsWritten(s.producers[p], s.log, s.published, s.slots);
    PublishFrame(s, s', p);
    RingPublishes(s, s', s.producers[p].first + s.producers[p].k);
  }

  /** The scan reads one flag at a time; every sequence it has passed is published. */
  lemma RingScan(s: State, s': State)
    requires RingInv(s) && s.consumer.Scan? && ConsumerStep(s, s')
    ensures RingInv(s')
  {
    var Scan(q, avail) := s.consumer;
    ScanPositions(s.nextSeq, q, avail, s.published);
    if q <= avail {
      assert FlagOk(s.flags, q, s.published, s.nextSeq);
    }
    RingCarries(s, s');
  }

  lemma ScanPositions(nextSeq: nat, q: nat, avail: int, published: seq<bool>)
    requires PositionsOk(Scan(q, avail), nextSeq, published)
    ensures q > avail ==> PositionsOk(Scanned(nextSeq, avail), nextSeq, published)
    ensures q <= avail && published[q] ==> PositionsOk(Scan(q + 1, avail), nextSeq, published)
    ensures q <= avail ==> PositionsOk(Scanned(nextSeq, q - 1), nextSeq, published)
  {
  }

  /** A step of the consumer that touches neither flags nor slots, and leaves the same marked and moved. */
  lemma RingCarries(s: State, s': State)
    requires RingInv(s) && s' == s.(consumer := s'.consumer, strands := s'.strands, running := s'.running)
    requires PositionsOk(s'.consumer, s.nextSeq, s.published)
    requires MarkedTo(s'.consumer, s.nextSeq) == MarkedTo(s.consumer, s.nextSeq)
    requires MovedTo(s'.consumer, s.nextSeq) == MovedTo(s.consumer, s.nextSeq)
    requires s'.consumer.Take? ==> s'.consumer.q > 0 || s'.consumer.avail >= 0
    ensures RingInv(s')
  {
  }

  lemma RingQuiet(s: State, s': State)
    requires RingInv(s) && (s.consumer.Head? || s.consumer.Load? || s.consumer.Post? || s.consumer.Halt?)
    requires ConsumerStep(s, s')
    ensures RingInv(s')
  {
    RingCarries(s, s');
  }

  lemma TakePositions(nextSeq: nat, q: nat, avail: int, batch: seq<string>, published: seq<bool>)
    requires PositionsOk(Take(q, avail, batch), nextSeq, published)
    ensures q > avail ==> PositionsOk(Gate(q - 1, batch), nextSeq, published)
    ensures q <= avail ==> forall b, stop :: PositionsOk(Mark(q, avail, b, stop), nextSeq, published)
  {
  }

  /** The consumer goes from sequence `q` to marking it; of the slots only that of `q` may have changed. */
  lemma RingMoved(s: State, s': State, q: nat)
    requires RingInv(s) && s.consumer.Take? && q == s.consumer.q && q <= s.consumer.avail
    requires |s'.slots| == |s.slots| && s'.slots == s.slots[Slot(q, |s.slots|) := s'.slots[Slot(q, |s.slots|)]]
    requires s' == s.(consumer := s'.consumer, slots := s'.slots) && s'.consumer.Mark? && s'.consumer.q == q
    requires PositionsOk(s'.consumer, s.nextSeq, s.published)
    ensures RingInv(s')
  {
    SlotsFrame(s.slots, s.log, s.published, q, q + 1, s.nextSeq, q, s'.slots[Slot(q, |s.slots|)]);
  }

  lemma TakeSlots(s: State, s': State)
    requires Shape(s) && s.consumer.Take? && ConsumerStep(s, s') && s.consumer.q <= s.consumer.avail
    ensures var i := Slot(s.consumer.q, |s.slots|);
            |s'.slots| == |s.slots| && s'.slots == s.slots[i := s'.slots[i]]
    ensures s' == s.(consumer := s'.consumer, slots := s'.slots)
    ensures s'.consumer.Mark? && s'.consumer.q == s.consumer.q && s'.consumer.avail == s.consumer.avail
  {
  }

  lemma RingTake(s: State, s': State)
    requires RingInv(s) && s.consumer.Take? && ConsumerStep(s, s')
    ensures RingInv(s')
  {
    var Take(q, avail, batch) := s.consumer;
    TakePositions(s.nextSeq, q, avail, batch, s.published);
    if q <= avail {
      TakeSlots(s, s');
      RingMoved(s, s', q);
    } else {
      RingCarries(s, s');
    }
  }

  lemma RingMark(s: State, s': State)
    requires RingInv(s) && s.consumer.Mark? && ConsumerStep(s, s')
    ensures RingInv(s')
  {
    FlagClear(s.flags, s.nextSeq, s.published, s.consumer.q);
  }

  lemma RingGate(s: State, s': State)
    requires RingInv(s) && s.consumer.Gate? && ConsumerStep(s, s')
    ensures RingInv(s') && s'.gating > s.gating
  {
    FlagWindow(s.flags, s.nextSeq, s.consumer.last + 1, s.published, s.consumer.last + 1);
  }

  // ---------------------------------------------------------------------------------------------
  // Steps keep the claims
  // ---------------------------------------------------------------------------------------------

  /** What a claim still holds lies in the window the consumer has not freed. */
  lemma ClaimInWindow(s: State, p: nat, j: nat)
    requires RingInv(s) && ClaimsInv(s) && p < |s.producers| && Lo(s.producers[p]) <= j < Hi(s.producers[p])
    ensures Holding(s.producers[p]) && j < |s.log| && !s.published[j] && s.nextSeq <= j < s.nextSeq + |s.slots|
  {
    assert ClaimOk(s.producers[p], s.log, s.published);
    Unpublished(s, j);
  }

  ghost predicate PcInv(pc: Producer, s: State)
    requires Shape(s) && |s.published| == |s.log| && ProducerShape(pc)
  {
    ClaimOk(pc, s.log, s.published) && WrittenOk(pc, s.slots) && TestOk(pc, |s.flags|, s.gating)
  }

  /** A step of `p`: the others keep their claims, and what `p` now holds none of them holds. */
  lemma ClaimsGo(s: State, s': State, p: nat)
    requires Shape(s) && |s.published| == |s.log| && ClaimsInv(s)
    requires Shape(s') && |s'.published| == |s'.log|
    requires p < |s.producers| == |s'.producers| && s'.producers == s.producers[p := s'.producers[p]]
    requires forall r :: 0 <= r < |s.producers| && r != p ==> PcInv(s'.producers[r], s')
    requires PcInv(s'.producers[p], s')
    requires forall r :: 0 <= r < |s.producers| && r != p ==> Disjoint(s'.producers[p], s.producers[r])
    ensures ClaimsInv(s')
  {
    forall q, r | 0 <= q < |s.producers| && 0 <= r < |s.producers| && q != r
      ensures Disjoint(s'.producers[q], s'.producers[r])
    {
      assert Disjoint(s.producers[q], s.producers[r]);
    }
    forall r | 0 <= r < |s'.producers| ensures PcInv(s'.producers[r], s') { }
  }

  lemma ClaimGrow(pc: Producer, log: seq<Entry>, published: seq<bool>, more: seq<Entry>, flags: seq<bool>)
    requires |published| == |log| && |more| == |flags| && ClaimOk(pc, log, published)
    ensures ClaimOk(pc, log + more, published + flags)
  {
    if Holding(pc) {
      assert (log + more)[pc.first..pc.first + |pc.op.entries|] == log[pc.first..pc.first + |pc.op.entries|];
    }
  }

  lemma ClaimsCas(s: State, s': State, p: nat)
    requires RingInv(s) && ClaimsInv(s) && p < |s.producers| && s.producers[p].Cas?
    requires ProducerStep(s, s', p) && s'.log != s.log && |s'.published| == |s'.log|
    ensures Shape(s') && ClaimsInv(s')
  {
    ShapeStep(s, s', p);
    var op := s.producers[p].op;
    assert s'.log == s.log + op.entries && s'.producers[p] == WriteText(op, |s.log|, 0);
    assert s'.log[|s.log|..|s.log| + |op.entries|] == op.entries;
    forall r | 0 <= r < |s.producers| && r != p
      ensures PcInv(s'.producers[r], s') && Disjoint(s'.producers[p], s.producers[r])
    {
      var pc := s.producers[r];
      assert ClaimOk(pc, s.log, s.published) && WrittenOk(pc, s.slots) && TestOk(pc, |s.flags|, s.gating);
      ClaimGrow(pc, s.log, s.published, op.entries, s'.published[|s.log|..]);
    }
    ClaimsGo(s, s', p);
  }

  lemma WrittenFrameAt(s: State, r: nat, i: nat, event: Event, d: nat)
    requires RingInv(s) && ClaimsInv(s) && r < |s.producers| && Holding(s.producers[r])
    requires s.nextSeq <= i < s.nextSeq + |s.slots| && !(Lo(s.producers[r]) <= i < Hi(s.producers[r]))
    requires d < |s.producers[r].op.entries| && Lo(s.producers[r]) <= s.producers[r].first + d
    ensures var pc := s.producers[r];
            && (Holds(s.slots[Slot(i, |s.slots|) := event], pc.first + d, pc.op.entries[d])
                <==> Holds(s.slots, pc.first + d, pc.op.entries[d]))
            && Slot(pc.first + d, |s.slots|) != Slot(i, |s.slots|)
  {
    var pc := s.producers[r];
    ClaimInWindow(s, r, pc.first + d);
    HoldsFrame(s.slots, s.nextSeq, i, event, pc.first + d, pc.op.entries[d]);
    SlotsDiffer(i, pc.first + d, s.nextSeq, |s.slots|);
  }

  /** The slot of entry `d` of a claim is as good in the one ring as in the other. */
  ghost predicate SameSlot(pc: Producer, d: nat, slots: seq<Event>, slots': seq<Event>)
    requires Holding(pc) && d < |pc.op.entries| && HasSingleBit(|slots|) && |slots'| == |slots|
  {
    && slots'[Slot(pc.first + d, |slots|)] == slots[Slot(pc.first + d, |slots|)]
    && (Holds(slots', pc.first + d, pc.op.entries[d]) <==> Holds(slots, pc.first + d, pc.op.entries[d]))
  }

  lemma RangeMoves(pc: Producer, from: nat, to: nat, slots: seq<Event>, slots': seq<Event>)
    requires Holding(pc) && HasSingleBit(|slots|) && |slots'| == |slots| && to <= |pc.op.entries|
    requires forall d :: from <= d < to ==> SameSlot(pc, d, slots, slots')
    requires InSlots(pc.op, pc.first, from, to, slots)
    ensures InSlots(pc.op, pc.first, from, to, slots')
  {
    forall d | from <= d < to ensures Holds(slots', pc.first + d, pc.op.entries[d]) {
      assert SameSlot(pc, d, slots, slots');
    }
  }

  lemma WrittenMoves(pc: Producer, slots: seq<Event>, slots': seq<Event>)
    requires HasSingleBit(|slots|) && |slots'| == |slots| && ProducerShape(pc) && WrittenOk(pc, slots)
    requires Holding(pc) ==> forall d :: 0 <= d < |pc.op.entries| && Lo(pc) <= pc.first + d ==> SameSlot(pc, d, slots, slots')
    ensures WrittenOk(pc, slots')
  {
    match pc
    case WriteText(op, _, k) => RangeMoves(pc, 0, k, slots, slots');
    case WriteStop(op, _, k) =>
      assert SameSlot(pc, k, slots, slots');
      RangeMoves(pc, 0, k, slots, slots');
    case Publish(op, _, k) => RangeMoves(pc, k, |op.entries|, slots, slots');
    case _ =>
  }

  /** Another claim's slots are not touched by a write to slot `i` of the window. */
  lemma WrittenFrame(s: State, r: nat, i: nat, event: Event)
    requires RingInv(s) && ClaimsInv(s) && r < |s.producers|
    requires s.nextSeq <= i < s.nextSeq + |s.slots| && !(Lo(s.producers[r]) <= i < Hi(s.producers[r]))
    ensures WrittenOk(s.producers[r], s.slots[Slot(i, |s.slots|) := event])
  {
    var pc := s.producers[r];
    var slots' := s.slots[Slot(i, |s.slots|) := event];
    assert WrittenOk(pc, s.slots) && ProducerShape(pc);
    if Holding(pc) {
      forall d | 0 <= d < |pc.op.entries| && Lo(pc) <= pc.first + d ensures SameSlot(pc, d, s.slots, slots') {
        WrittenFrameAt(s, r, i, event, d);
      }
    }
    WrittenMoves(pc, s.slots, slots');
  }

  /** Only the slot that a producer is at has been written. */
  ghost predicate WritesOneSlot(pc: Producer, slots: seq<Event>, slots': seq<Event>)
    requires pc.WriteText? || pc.WriteStop?
    requires HasSingleBit(|slots|)
  {
    var i := Slot(pc.first + pc.k, |slots|);
    |slots'| == |slots| && slots' == slots[i := slots'[i]]
  }

  lemma WriteFrame(s: State, s': State, p: nat)
    requires Shape(s) && p < |s.producers| && (s.producers[p].WriteText? || s.producers[p].WriteStop?)
    requires ProducerStep(s, s', p)
    ensures WritesOneSlot(s.producers[p], s.slots, s'.slots)
  {
  }

  lemma OthersWrite(s: State, s': State, p: nat, r: nat)
    requires RingInv(s) && ClaimsInv(s) && p < |s.producers| && (s.producers[p].WriteText? || s.producers[p].WriteStop?)
    requires r < |s.producers| && r != p && WritesOneSlot(s.producers[p], s.slots, s'.slots)
    requires Shape(s') && s'.log == s.log && s'.published == s.published && s'.flags == s.flags && s'.gating == s.gating
    ensures PcInv(s.producers[r], s')
  {
    var pc := s.producers[p];
    var j := pc.first + pc.k;
    ClaimInWindow(s, p, j);
    assert Disjoint(pc, s.producers[r]);
    WrittenFrame(s, r, j, s'.slots[Slot(j, |s.slots|)]);
    assert ClaimOk(s.producers[r], s.log, s.published) && TestOk(s.producers[r], |s.flags|, s.gating);
  }

  lemma ClaimsWrite(s: State, s': State, p: nat)
    requires RingInv(s) && ClaimsInv(s) && p < |s.producers| && (s.producers[p].WriteText? || s.producers[p].WriteStop?)
    requires ProducerStep(s, s', p)
    ensures Shape(s') && |s'.published| == |s'.log| && ClaimsInv(s')
  {
    ShapeStep(s, s', p);
    assert ClaimOk(s.producers[p], s.log, s.published);
    OwnClaim(s, s', p);
    OwnWrite(s, s', p);
    WriteFrame(s, s', p);
    forall r | 0 <= r < |s.producers| && r != p
      ensures PcInv(s'.producers[r], s') && Disjoint(s'.producers[p], s.producers[r])
    {
      OthersWrite(s, s', p, r);
      assert Disjoint(s.producers[p], s.producers[r]);
    }
    ClaimsGo(s, s', p);
  }

  /** The part of a claim already written is still there after the next slot is written. */
  lemma OwnFrame(s: State, p: nat, event: Event)
    requires RingInv(s) && ClaimsInv(s) && p < |s.producers| && (s.producers[p].WriteText? || s.producers[p].WriteStop?)
    ensures var pc := s.producers[p];
      InSlots(pc.op, pc.first, 0, pc.k, s.slots[Slot(pc.first + pc.k, |s.slots|) := event])
  {
    var pc := s.producers[p];
    assert WrittenOk(pc, s.slots) && ProducerShape(pc);
    var j := pc.first + pc.k;
    ClaimInWindow(s, p, j);
    forall d | 0 <= d < pc.k ensures Holds(s.slots[Slot(j, |s.slots|) := event], pc.first + d, pc.op.entries[d]) {
      ClaimInWindow(s, p, pc.first + d);
      HoldsFrame(s.slots, s.nextSeq, j, event, pc.first + d, pc.op.entries[d]);
    }
  }

  lemma StopWritten(op: Op, first: nat, k: nat, slots: seq<Event>, slots': seq<Event>)
    requires WellFormed(op) && k < |op.entries| && HasSingleBit(|slots|) && |slots'| == |slots|
    requires
      var i := Slot(first + k, |slots|);
      && (op.entries[k].Message? ==> slots[i].text == op.entries[k].text)
      && slots'[i] == slots[i].(stop := op.entries[k].Stop?)
    requires InSlots(op, first, 0, k, slots')
    ensures WrittenOk(AfterWrite(op, first, k), slots')
  {
    assert Holds(slots', first + k, op.entries[k]);
  }

  lemma TextWritten(op: Op, first: nat, k: nat, slots: seq<Event>)
    requires WellFormed(op) && k < |op.entries| && HasSingleBit(|slots|)
    requires op.entries[k].Message? ==> slots[Slot(first + k, |slots|)].text == op.entries[k].text
    requires InSlots(op, first, 0, k, slots)
    ensures WrittenOk(WriteStop(op, first, k), slots)
  {
  }

  lemma OwnWriteText(s: State, s': State, p: nat)
    requires RingInv(s) && ClaimsInv(s) && p < |s.producers| && s.producers[p].WriteText?
    requires ProducerStep(s, s', p) && Shape(s') && |s'.slots| == |s.slots| && |s'.producers| == |s.producers|
    ensures WrittenOk(s'.producers[p], s'.slots)
  {
    var pc := s.producers[p];
    var i := Slot(pc.first + pc.k, |s.slots|);
    assert ProducerShape(pc);
    assert s.slots == s.slots[i := s.slots[i]];
    OwnFrame(s, p, s'.slots[i]);
    TextWritten(pc.op, pc.first, pc.k, s'.slots);
  }

  lemma OwnWriteStop(s: State, s': State, p: nat)
    requires RingInv(s) && ClaimsInv(s) && p < |s.producers| && s.producers[p].WriteStop?
    requires ProducerStep(s, s', p) && Shape(s') && |s'.slots| == |s.slots| && |s'.producers| == |s.producers|
    ensures WrittenOk(s'.producers[p], s'.slots)
  {
    var pc := s.producers[p];
    assert ProducerShape(pc) && WrittenOk(pc, s.slots);
    OwnFrame(s, p, s'.slots[Slot(pc.first + pc.k, |s.slots|)]);
    StopWritten(pc.op, pc.first, pc.k, s.slots, s'.slots);
  }

  /** A write changes no flag, and nothing of what is recorded of the claim. */
  lemma OwnClaim(s: State, s': State, p: nat)
    requires RingInv(s) && p < |s.producers| && (s.producers[p].WriteText? || s.producers[p].WriteStop?)
    requires ClaimOk(s.producers[p], s.log, s.published)
    requires ProducerStep(s, s', p) && |s'.producers| == |s.producers|
    ensures s'.log == s.log && s'.published == s.published && s'.flags == s.flags && s'.gating == s.gating
    ensures ClaimOk(s'.producers[p], s.log, s.published) && !s'.producers[p].Cas?
    ensures Lo(s'.producers[p]) == Lo(s.producers[p]) && Hi(s'.producers[p]) == Hi(s.producers[p])
    ensures Holding(s'.producers[p])
  {
    assert ProducerShape(s.producers[p]);
  }

  lemma OwnWrite(s: State, s': State, p: nat)
    requires RingInv(s) && ClaimsInv(s) && p < |s.producers| && (s.producers[p].WriteText? || s.producers[p].WriteStop?)
    requires ProducerStep(s, s', p) && Shape(s') && |s'.slots| == |s.slots| && |s'.producers| == |s.producers|
    ensures |s'.published| == |s'.log| && PcInv(s'.producers[p], s')
  {
    assert ClaimOk(s.producers[p], s.log, s.published);
    OwnClaim(s, s', p);
    if s.producers[p].WriteText? { OwnWriteText(s, s', p); } else { OwnWriteStop(s, s', p); }
  }

  /** Publishing the first of what is left of a claim. */
  lemma PublishedClaim(op: Op, first: nat, k: nat, log: seq<Entry>, published: seq<bool>, slots: seq<Event>)
    requires WellFormed(op) && k < |op.entries| && |published| == |log| && HasSingleBit(|slots|)
    requires ClaimOk(Publish(op, first, k), log, published) && WrittenOk(Publish(op, first, k), slots)
    ensures first + k < |published|
    ensures ClaimOk(AfterPublish(op, first, k), log, published[first + k := true])
    ensures WrittenOk(AfterPublish(op, first, k), slots)
  {
  }

  lemma OwnPublish(s: State, s': State, p: nat)
    requires RingInv(s) && ClaimsInv(s) && p < |s.producers| && s.producers[p].Publish?
    requires ProducerStep(s, s', p) && Shape(s') && |s'.producers| == |s.producers| && |s'.slots| == |s.slots|
    ensures |s'.published| == |s'.log| && PcInv(s'.producers[p], s')
  {
    var pc := s.producers[p];
    assert ProducerShape(pc) && ClaimOk(pc, s.log, s.published) && WrittenOk(pc, s.slots);
    PublishedClaim(pc.op, pc.first, pc.k, s.log, s.published, s.slots);
  }

  lemma ClaimsPublish(s: State, s': State, p: nat)
    requires RingInv(s) && ClaimsInv(s) && p < |s.producers| && s.producers[p].Publish?
    requires ProducerStep(s, s', p)
    ensures Shape(s') && |s'.published| == |s'.log| && ClaimsInv(s')
  {
    ShapeStep(s, s', p);
    OwnPublish(s, s', p);
    var pc := s.producers[p];
    ClaimInWindow(s, p, pc.first + pc.k);
    forall r | 0 <= r < |s.producers| && r != p
      ensures PcInv(s'.producers[r], s') && Disjoint(s'.producers[p], s.producers[r])
    {
      assert Disjoint(s.producers[p], s.producers[r]);
      assert ClaimOk(s.producers[r], s.log, s.published) && WrittenOk(s.producers[r], s.slots) && TestOk(s.producers[r], |s.flags|, s.gating);
    }
    ClaimsGo(s, s', p);
  }

  /** Steps that touch no memory but the producer's own program counter, or a strand. */
  lemma QuietStep(s: State, s': State, p: nat)
    requires RingInv(s) && ClaimsInv(s) && p < |s.producers| && ProducerStep(s, s', p)
    requires !Holding(s.producers[p]) && s'.log == s.log
    ensures s' == s.(producers := s'.producers, strands := s'.strands)
    ensures |s'.producers| == |s.producers| && !Holding(s'.producers[p])
    ensures TestOk(s'.producers[p], |s.flags|, s.gating)
  {
    assert ClaimOk(s.producers[p], s.log, s.published);
    assert s.published + seq(0, _ => false) == s.published;
  }

  lemma ClaimsQuiet(s: State, s': State, p: nat)
    requires RingInv(s) && ClaimsInv(s) && p < |s.producers| && ProducerStep(s, s', p)
    requires !Holding(s.producers[p]) && s'.log == s.log
    ensures RingInv(s') && ClaimsInv(s')
  {
    QuietStep(s, s', p);
    ShapeStep(s, s', p);
    forall r | 0 <= r < |s.producers| && r != p
      ensures PcInv(s'.producers[r], s') && Disjoint(s'.producers[p], s.producers[r])
    {
      assert ClaimOk(s.producers[r], s.log, s.published) && WrittenOk(s.producers[r], s.slots) && TestOk(s.producers[r], |s.flags|, s.gating);
    }
    ClaimsGo(s, s', p);
  }

  /** What a step of the consumer leaves of what the claims speak of. */
  lemma ConsumerFrame(s: State, s': State)
    requires Shape(s) && s.gating == s.nextSeq - 1 && PositionsOk(s.consumer, s.nextSeq, s.published) && ConsumerStep(s, s')
    ensures s'.producers == s.producers && s'.log == s.log && s'.published == s.published
    ensures |s'.flags| == |s.flags| && s'.gating >= s.gating
    ensures s'.slots != s.slots ==>
      && s.consumer.Take? && s.consumer.q <= s.consumer.avail && |s'.slots| == |s.slots|
      && s'.slots == s.slots[Slot(s.consumer.q, |s.slots|) := s'.slots[Slot(s.consumer.q, |s.slots|)]]
  {
  }

  lemma OneClaimConsumer(s: State, s': State, r: nat)
    requires RingInv(s) && ClaimsInv(s) && r < |s.producers| && Shape(s') && s'.producers == s.producers
    requires s'.log == s.log && s'.published == s.published && |s'.flags| == |s.flags| && s'.gating >= s.gating
    requires s'.slots != s.slots ==>
      && s.consumer.Take? && s.consumer.q <= s.consumer.avail && |s'.slots| == |s.slots|
      && s'.slots == s.slots[Slot(s.consumer.q, |s.slots|) := s'.slots[Slot(s.consumer.q, |s.slots|)]]
    ensures PcInv(s'.producers[r], s')
  {
    var pc := s.producers[r];
    assert ClaimOk(pc, s.log, s.published) && WrittenOk(pc, s.slots) && TestOk(pc, |s.flags|, s.gating);
    if s'.slots != s.slots {
      var q := s.consumer.q;
      if Lo(pc) <= q < Hi(pc) { ClaimInWindow(s, r, q); }
      WrittenFrame(s, r, q, s'.slots[Slot(q, |s.slots|)]);
    }
  }

  lemma ClaimsConsumer(s: State, s': State)
    requires RingInv(s) && ClaimsInv(s) && ConsumerStep(s, s') && RingInv(s')
    ensures ClaimsInv(s')
  {
    ConsumerFrame(s, s');
    forall r | 0 <= r < |s.producers| ensures PcInv(s'.producers[r], s') { OneClaimConsumer(s, s', r); }
    forall q, r | 0 <= q < |s.producers| && 0 <= r < |s.producers| && q != r
      ensures Disjoint(s'.producers[q], s'.producers[r])
    {
      assert Disjoint(s.producers[q], s.producers[r]);
    }
  }

  // ---------------------------------------------------------------------------------------------
  // Steps keep batches and strands
  // ---------------------------------------------------------------------------------------------

  lemma {:induction false} TextsConcat(a: seq<Entry>, b: seq<Entry>)
    ensures Texts(a + b) == Texts(a) + Texts(b)
    decreases |b|
  {
    if b == [] {
      assert a + b == a;
    } else {
      TextsConcat(a, b[..|b| - 1]);
      assert (a + b)[..|a + b| - 1] == a + b[..|b| - 1];
    }
  }

  /** Taking one more entry adds its text, if it has one. */
  lemma TextsNext(log: seq<Entry>, from: nat, q: nat)
    requires from <= q < |log|
    ensures Texts(log[from..q + 1]) == Texts(log[from..q]) + if log[q].Message? then [log[q].text] else []
  {
    assert log[from..q + 1][..q - from] == log[from..q];
  }

  lemma DeliveredNext(strand: seq<Work>, w: Work)
    ensures Delivered(strand + [w]) == Delivered(strand) + Given(w)
  {
    assert (strand + [w])[..|strand|] == strand;
  }

  /** What the consumer holds does not change when producers claim more. */
  lemma BatchGrow(c: Consumer, nextSeq: nat, log: seq<Entry>, more: seq<Entry>, running: bool)
    requires nextSeq <= MovedTo(c, nextSeq) <= |log| && BatchOk(c, nextSeq, log, running)
    ensures BatchOk(c, nextSeq, log + more, running)
  {
    match c
    case Take(q, _, _) => SliceGrow(log, more, nextSeq, q);
    case Mark(q, _, _, _) => SliceGrow(log, more, nextSeq, q + 1); SliceGrow(log, more, 0, q);
    case Halt(q, _) => SliceGrow(log, more, nextSeq, q + 1); SliceGrow(log, more, 0, q);
    case Gate(last, _) => SliceGrow(log, more, nextSeq, last + 1); EndedGrow(log, more, last + 1, running);
    case _ => EndedGrow(log, more, nextSeq, running);
  }

  lemma SliceGrow(log: seq<Entry>, more: seq<Entry>, from: nat, to: nat)
    requires from <= to <= |log|
    ensures (log + more)[from..to] == log[from..to] && (log + more)[..to] == log[..to]
  {
  }

  lemma EndedGrow(log: seq<Entry>, more: seq<Entry>, n: nat, running: bool)
    requires n <= |log| && Ended(log, n, running)
    ensures Ended(log + more, n, running)
  {
    SliceGrow(log, more, 0, n);
    if n > 0 { SliceGrow(log, more, 0, n - 1); }
  }

  lemma StrandsGrow(s: State, s': State, p: nat)
    requires Shape(s) && p < |s.producers| && ProducerStep(s, s', p)
    ensures |s'.strands| == |s.strands|
    ensures forall i :: 0 <= i < |s.strands| ==>
      s'.strands[i] == s.strands[i] || s'.strands[i] == s.strands[i] + [FlushNow] || s'.strands[i] == s.strands[i] + [FinalFlush]
  {
  }

  /** What a producer's step may change of what the consumer and the sinks see. */
  lemma ProducerFrame(s: State, s': State, p: nat) returns (more: seq<Entry>)
    requires Shape(s) && p < |s.producers| && ProducerStep(s, s', p)
    ensures s'.log == s.log + more
    ensures s'.consumer == s.consumer && s'.nextSeq == s.nextSeq && s'.running == s.running
    ensures |s'.strands| == |s.strands|
    ensures forall i :: 0 <= i < |s.strands| ==>
      s'.strands[i] == s.strands[i] || s'.strands[i] == s.strands[i] + [FlushNow] || s'.strands[i] == s.strands[i] + [FinalFlush]
  {
    StrandsGrow(s, s', p);
    more := if |s'.log| > |s.log| then s.producers[p].op.entries else [];
  }

  lemma StrandsFrame(strands: seq<seq<Work>>, strands': seq<seq<Work>>, c: Consumer, nextSeq: nat, log: seq<Entry>, more: seq<Entry>)
    requires nextSeq <= |log| && StrandsOk(strands, c, nextSeq, log) && |strands'| == |strands|
    requires forall i :: 0 <= i < |strands| ==>
      strands'[i] == strands[i] || strands'[i] == strands[i] + [FlushNow] || strands'[i] == strands[i] + [FinalFlush]
    ensures StrandsOk(strands', c, nextSeq, log + more)
  {
    assert (log + more)[..nextSeq] == log[..nextSeq];
    forall i | 0 <= i < |strands'| ensures Delivered(strands'[i]) + Owed(c, i) == Texts((log + more)[..nextSeq]) {
      DeliveredNext(strands[i], FlushNow);
      DeliveredNext(strands[i], FinalFlush);
    }
  }

  lemma TextProducer(s: State, s': State, p: nat)
    requires RingInv(s) && BatchOk(s.consumer, s.nextSeq, s.log, s.running) && StrandsOk(s.strands, s.consumer, s.nextSeq, s.log)
    requires p < |s.producers| && ProducerStep(s, s', p)
    ensures |s.log| <= |s'.log| && s'.nextSeq == s.nextSeq && s'.consumer == s.consumer
    ensures BatchOk(s'.consumer, s'.nextSeq, s'.log, s'.running)
    ensures StrandsOk(s'.strands, s'.consumer, s'.nextSeq, s'.log)
  {
    var more := ProducerFrame(s, s', p);
    BatchGrow(s.consumer, s.nextSeq, s.log, more, s.running);
    StrandsFrame(s.strands, s'.strands, s.consumer, s.nextSeq, s.log, more);
  }

  lemma BatchTake(q: nat, avail: int, batch: seq<string>, nextSeq: nat, log: seq<Entry>)
    requires nextSeq <= q < |log| && BatchOk(Take(q, avail, batch), nextSeq, log, true)
    ensures log[q].Stop? ==> BatchOk(Mark(q, avail, batch, true), nextSeq, log, true)
    ensures log[q].Message? ==> BatchOk(Mark(q, avail, batch + [log[q].text], false), nextSeq, log, true)
  {
    TextsNext(log, nextSeq, q);
    assert batch + [] == batch;
  }

  lemma TextTake(s: State, s': State)
    requires RingInv(s) && BatchOk(s.consumer, s.nextSeq, s.log, s.running) && s.consumer.Take? && ConsumerStep(s, s')
    ensures MovedTo(s'.consumer, s'.nextSeq) <= |s'.log| && s'.nextSeq <= MovedTo(s'.consumer, s'.nextSeq)
    ensures BatchOk(s'.consumer, s'.nextSeq, s'.log, s'.running)
  {
    var Take(q, avail, batch) := s.consumer;
    if q <= avail {
      assert s.published[q] && Holds(s.slots, q, s.log[q]);
      BatchTake(q, avail, batch, s.nextSeq, s.log);
    }
  }

  /** After marking: on to the next event, or to halting at the signal. */
  function Marked(q: nat, avail: int, batch: seq<string>, stop: bool): Consumer {
    if stop then Halt(q, batch) else Take(q + 1, avail, batch)
  }

  lemma BatchMark(q: nat, avail: int, batch: seq<string>, stop: bool, nextSeq: nat, log: seq<Entry>)
    requires nextSeq <= q < |log| && BatchOk(Mark(q, avail, batch, stop), nextSeq, log, true)
    ensures BatchOk(Marked(q, avail, batch, stop), nextSeq, log, true)
  {
    if !stop { assert log[..q + 1] == log[..q] + [log[q]]; }
  }

  lemma BatchHalt(q: nat, batch: seq<string>, nextSeq: nat, log: seq<Entry>)
    requires nextSeq <= q < |log| && BatchOk(Halt(q, batch), nextSeq, log, true)
    ensures BatchOk(Gate(q, batch), nextSeq, log, false)
  {
    assert log[..q + 1][..q] == log[..q];
  }

  lemma TextMark(s: State, s': State)
    requires RingInv(s) && BatchOk(s.consumer, s.nextSeq, s.log, s.running) && ConsumerStep(s, s')
    requires s.consumer.Mark? || s.consumer.Halt?
    ensures MovedTo(s'.consumer, s'.nextSeq) <= |s'.log| && s'.nextSeq <= MovedTo(s'.consumer, s'.nextSeq)
    ensures BatchOk(s'.consumer, s'.nextSeq, s'.log, s'.running)
  {
    match s.consumer
    case Mark(q, avail, batch, stop) => BatchMark(q, avail, batch, stop, s.nextSeq, s.log);
    case Halt(q, batch) => BatchHalt(q, batch, s.nextSeq, s.log);
  }

  lemma StrandsGate(strands: seq<seq<Work>>, c: Consumer, c': Consumer, nextSeq: nat, last: nat, log: seq<Entry>)
    requires nextSeq <= last < |log| && StrandsOk(strands, c, nextSeq, log)
    requires c.Gate? && c.batch == Texts(log[nextSeq..last + 1])
    requires c' == if c.batch == [] then Head else Post(0, c.batch)
    ensures StrandsOk(strands, c', last + 1, log)
  {
    assert log[..last + 1] == log[..nextSeq] + log[nextSeq..last + 1];
    TextsConcat(log[..nextSeq], log[nextSeq..last + 1]);
    forall i | 0 <= i < |strands| ensures Delivered(strands[i]) + Owed(c', i) == Texts(log[..last + 1]) {
      assert Delivered(strands[i]) + Owed(c, i) == Texts(log[..nextSeq]);
    }
  }

  lemma TextGate(s: State, s': State)
    requires RingInv(s) && BatchOk(s.consumer, s.nextSeq, s.log, s.running) && s.consumer.Gate? && ConsumerStep(s, s')
    requires StrandsOk(s.strands, s.consumer, s.nextSeq, s.log)
    ensures s'.nextSeq <= |s'.log|
    ensures BatchOk(s'.consumer, s'.nextSeq, s'.log, s'.running)
    ensures StrandsOk(s'.strands, s'.consumer, s'.nextSeq, s'.log)
  {
    StrandsGate(s.strands, s.consumer, s'.consumer, s.nextSeq, s.consumer.last, s.log);
  }

  lemma TextPost(s: State, s': State)
    requires RingInv(s) && BatchOk(s.consumer, s.nextSeq, s.log, s.running) && s.consumer.Post? && ConsumerStep(s, s')
    requires StrandsOk(s.strands, s.consumer, s.nextSeq, s.log)
    ensures s'.nextSeq <= |s'.log|
    ensures BatchOk(s'.consumer, s'.nextSeq, s'.log, s'.running)
    ensures StrandsOk(s'.strands, s'.consumer, s'.nextSeq, s'.log)
  {
    var Post(k, batch) := s.consumer;
    forall i | 0 <= i < |s.strands| ensures Delivered(s'.strands[i]) + Owed(s'.consumer, i) == Texts(s'.log[..s'.nextSeq]) {
      assert Delivered(s.strands[i]) + Owed(s.consumer, i) == Texts(s.log[..s.nextSeq]);
      DeliveredNext(s.strands[i], ProcessBatch(batch));
    }
  }

  lemma TextScan(s: State, s': State)
    requires RingInv(s) && BatchOk(s.consumer, s.nextSeq, s.log, s.running) && ConsumerStep(s, s')
    requires s.consumer.Head? || s.consumer.Load? || s.consumer.Scan?
    ensures s'.nextSeq == MovedTo(s'.consumer, s'.nextSeq) <= |s'.log|
    ensures BatchOk(s'.consumer, s'.nextSeq, s'.log, s'.running)
  {
    assert s.log[s.nextSeq..s.nextSeq] == [];
  }

  lemma FlushesProducer(s: State, s': State, p: nat)
    requires Shape(s) && p < |s.producers| && ProducerStep(s, s', p) && FlushesInv(s)
    ensures FlushesInv(s')
  {
    SizesStep(s, s', p);
    var _ := ProducerFrame(s, s', p);
    forall i | 0 <= i < |s'.strands| ensures FlushLast(s'.strands[i], s'.consumer.Done?) {
      assert FlushLast(s.strands[i], s.consumer.Done?);
    }
  }

  lemma FlushesConsumer(s: State, s': State)
    requires Shape(s) && ConsumerStep(s, s') && FlushesInv(s)
    ensures FlushesInv(s')
  {
    forall i | 0 <= i < |s'.strands| ensures FlushLast(s'.strands[i], s'.consumer.Done?) {
      assert FlushLast(s.strands[i], s.consumer.Done?);
    }
  }

  // ---------------------------------------------------------------------------------------------
  // Every run keeps the invariant
  // ---------------------------------------------------------------------------------------------

  lemma InitInv(s: State)
    requires Init(s)
    ensures Inv(s)
  {
    forall j: nat | j < |s.flags| ensures FlagOk(s.flags, j, s.published, 0) { }
  }

  lemma WriteKeeps(s: State, s': State, p: nat)
    requires RingInv(s) && ClaimsInv(s) && p < |s.producers| && ProducerStep(s, s', p)
    requires s.producers[p].WriteText? || s.producers[p].WriteStop?
    ensures RingInv(s') && ClaimsInv(s')
  {
    assert ClaimOk(s.producers[p], s.log, s.published);
    RingWrite(s, s', p);
    ClaimsWrite(s, s', p);
  }

  lemma PublishKeeps(s: State, s': State, p: nat)
    requires RingInv(s) && ClaimsInv(s) && p < |s.producers| && ProducerStep(s, s', p)
    requires s.producers[p].Publish?
    ensures RingInv(s') && ClaimsInv(s')
  {
    assert ClaimOk(s.producers[p], s.log, s.published) && WrittenOk(s.producers[p], s.slots);
    RingPublish(s, s', p);
    ClaimsPublish(s, s', p);
  }

  lemma CasKeeps(s: State, s': State, p: nat)
    requires RingInv(s) && ClaimsInv(s) && p < |s.producers| && ProducerStep(s, s', p)
    requires s.producers[p].Cas? && s'.log != s.log
    ensures RingInv(s') && ClaimsInv(s')
  {
    assert TestOk(s.producers[p], |s.flags|, s.gating);
    RingCas(s, s', p);
    ClaimsCas(s, s', p);
  }

  /** Only a compare-and-set that succeeds makes the log longer. */
  lemma LogGrows(s: State, s': State, p: nat)
    requires Shape(s) && p < |s.producers| && ProducerStep(s, s', p) && s'.log != s.log
    ensures s.producers[p].Cas?
  {
  }

  lemma ClaimsProducer(s: State, s': State, p: nat)
    requires RingInv(s) && ClaimsInv(s) && p < |s.producers| && ProducerStep(s, s', p)
    ensures RingInv(s') && ClaimsInv(s')
  {
    var pc := s.producers[p];
    if pc.WriteText? || pc.WriteStop? {
      WriteKeeps(s, s', p);
    } else if pc.Publish? {
      PublishKeeps(s, s', p);
    } else if s'.log == s.log {
      ClaimsQuiet(s, s', p);
    } else {
      LogGrows(s, s', p);
      CasKeeps(s, s', p);
    }
  }

  lemma ProducerInv(s: State, s': State, p: nat)
    requires Inv(s) && p < |s.producers| && ProducerStep(s, s', p)
    ensures Inv(s')
  {
    ClaimsProducer(s, s', p);
    TextProducer(s, s', p);
    FlushesProducer(s, s', p);
  }

  lemma RingConsumer(s: State, s': State)
    requires RingInv(s) && ConsumerStep(s, s')
    ensures RingInv(s')
  {
    match s.consumer {
      case Take(_, _, _) => RingTake(s, s');
      case Mark(_, _, _, _) => RingMark(s, s');
      case Gate(_, _) => RingGate(s, s');
      case Scan(_, _) => RingScan(s, s');
      case _ => RingQuiet(s, s');
    }
  }

  /** Steps that post nothing and leave `nextSeq` alone leave the strands as they are. */
  lemma StrandsStay(s: State, s': State)
    requires RingInv(s) && ConsumerStep(s, s') && !s.consumer.Gate? && !s.consumer.Post?
    requires StrandsOk(s.strands, s.consumer, s.nextSeq, s.log)
    ensures s'.nextSeq == s.nextSeq && s'.log == s.log && StrandsOk(s'.strands, s'.consumer, s'.nextSeq, s'.log)
  {
    assert s'.strands == s.strands && !s'.consumer.Post? && !s.consumer.Post?;
  }

  lemma TextConsumer(s: State, s': State)
    requires RingInv(s) && ConsumerStep(s, s')
    requires BatchOk(s.consumer, s.nextSeq, s.log, s.running) && StrandsOk(s.strands, s.consumer, s.nextSeq, s.log)
    ensures s'.nextSeq <= MovedTo(s'.consumer, s'.nextSeq) <= |s'.log|
    ensures BatchOk(s'.consumer, s'.nextSeq, s'.log, s'.running)
    ensures StrandsOk(s'.strands, s'.consumer, s'.nextSeq, s'.log)
  {
    match s.consumer {
      case Gate(_, _) => TextGate(s, s');
      case Post(_, _) => TextPost(s, s');
      case Take(_, _, _) => TextTake(s, s'); StrandsStay(s, s');
      case Mark(_, _, _, _) => TextMark(s, s'); StrandsStay(s, s');
      case Halt(_, _) => TextMark(s, s'); StrandsStay(s, s');
      case _ => TextScan(s, s'); StrandsStay(s, s');
    }
  }

  lemma ConsumerInv(s: State, s': State)
    requires Inv(s) && ConsumerStep(s, s')
    ensures Inv(s')
  {
    RingConsumer(s, s');
    TextConsumer(s, s');
    ClaimsConsumer(s, s');
    FlushesConsumer(s, s');
  }

  lemma StepInv(s: State, s': State)
    requires Inv(s) && Step(s, s')
    ensures Inv(s')
  {
    if p :| 0 <= p < |s.producers| && ProducerStep(s, s', p) {
      ProducerInv(s, s', p);
    } else {
      ConsumerInv(s, s');
    }
  }

  /** A run: a start state, then one step at a time. */
  ghost predicate Run(run: seq<State>) {
    run != [] && Init(run[0]) && forall i :: 0 <= i < |run| - 1 ==> StepAt(run, i)
  }

  ghost predicate StepAt(run: seq<State>, i: nat)
    requires i < |run| - 1
  {
    Step(run[i], run[i + 1])
  }

  lemma {:induction false} RunInv(run: seq<State>, i: nat)
    requires Run(run) && i < |run|
    ensures Inv(run[i])
    decreases i
  {
    if i == 0 {
      InitInv(run[0]);
    } else {
      RunInv(run, i - 1);
      assert StepAt(run, i - 1);
      StepInv(run[i - 1], run[i]);
    }
  }
}
