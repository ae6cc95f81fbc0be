/** What every run of the disruptor and the logger promises. */
module DisruptorRuns {
  import opened Bits
  import opened Disruptor

  // ---------------------------------------------------------------------------------------------
  // No overwrite
  // ---------------------------------------------------------------------------------------------

  /** The sequences of a claim, from the compare-and-set to the last publish. */
  predicate Claims(pc: Producer, q: nat) {
    Holding(pc) && Lo(pc) <= q < Hi(pc)
  }

  /** There are runs of any number of producers and sinks, on a buffer of any size the ring accepts. */
  lemma StartsRun(size: nat, sinks: nat, producers: nat) returns (run: seq<State>)
    requires HasSingleBit(size)
    ensures Run(run) && |run[0].flags| == size && |run[0].strands| == sinks && |run[0].producers| == producers
  {
    run := [State(-1, -1, seq(size, i => false), seq(size, i => Event("", false)), true, seq(sinks, i => []),
                  seq(producers, p => Idle), Head, 0, [], [])];
  }

  /**
   In every run the cursor is at most one lap ahead of the gating sequence, however stale the
   gating value a producer tested; no sequence is held by two producers; and two sequences that
   are claimed and not consumed never share a slot.
   */
  lemma NoOverwrite(run: seq<State>, i: nat)
    requires Run(run) && i < |run|
    ensures var s := run[i];
      && s.gating <= s.cursor <= s.gating + |s.flags|
      && HasSingleBit(|s.flags|)
      && (forall p, r, q: nat :: 0 <= p < r < |s.producers| && Claims(s.producers[p], q) ==> !Claims(s.producers[r], q))
      && (forall p, q: nat :: 0 <= p < |s.producers| && Claims(s.producers[p], q) ==> s.gating < q <= s.cursor)
      && (forall a: nat, b: nat :: s.gating < a < b <= s.cursor ==> Slot(a, |s.flags|) != Slot(b, |s.flags|))
  {
    RunInv(run, i);
    var s := run[i];
    forall a: nat, b: nat | s.gating < a < b <= s.cursor ensures Slot(a, |s.flags|) != Slot(b, |s.flags|) {
      SlotsDistinct(a, b, |s.flags|);
    }
    forall p, r, q: nat | 0 <= p < r < |s.producers| && Claims(s.producers[p], q) ensures !Claims(s.producers[r], q) {
      assert Disjoint(s.producers[p], s.producers[r]);
    }
    forall p, q: nat | 0 <= p < |s.producers| && Claims(s.producers[p], q) ensures s.gating < q <= s.cursor {
      ClaimInWindow(s, p, q);
    }
  }

  /** Backpressure stays safe because the gating sequence only ever grows. */
  lemma {:induction false} GatingMonotone(run: seq<State>, i: nat, j: nat)
    requires Run(run) && i <= j < |run|
    ensures run[i].gating <= run[j].gating
    ensures |run[i].log| <= |run[j].log| && run[i].log == run[j].log[..|run[i].log|]
    decreases j - i
  {
    if i < j {
      GatingMonotone(run, i, j - 1);
      RunInv(run, j - 1);
      assert StepAt(run, j - 1);
      StepMonotone(run[j - 1], run[j]);
    }
  }

  lemma StepMonotone(s: State, s': State)
    requires Inv(s) && Step(s, s')
    ensures s.gating <= s'.gating
    ensures |s.log| <= |s'.log| && s.log == s'.log[..|s.log|]
  {
    if p :| 0 <= p < |s.producers| && ProducerStep(s, s', p) {
      var _ := ProducerFrame(s, s', p);
      assert s'.gating == s.gating;
    }
  }

  /** Producer `p` claims sequence `q` in this step. */
  predicate NewlyClaims(s: State, s': State, p: nat, q: nat) {
    p < |s.producers| == |s'.producers| && Claims(s'.producers[p], q) && !Claims(s.producers[p], q)
  }

  /** A producer that already holds a claim does not claim more before it has finished. */
  lemma HoldersClaimNothing(s: State, s': State, p: nat, q: nat)
    requires Inv(s) && p < |s.producers| == |s'.producers| && ProducerStep(s, s', p) && Holding(s.producers[p])
    ensures Claims(s'.producers[p], q) ==> Claims(s.producers[p], q)
  {
    assert ClaimOk(s.producers[p], s.log, s.published);
    if !s.producers[p].Publish? { OwnClaim(s, s', p); }
  }

  lemma OthersClaim(s: State, s': State, p: nat, q: nat)
    requires Inv(s) && p < |s.producers| == |s'.producers| && ProducerStep(s, s', p) && !Holding(s.producers[p])
    ensures Claims(s'.producers[p], q) ==> |s.log| <= q < |s'.log|
  {
  }

  lemma ConsumerClaimsNothing(s: State, s': State)
    requires Shape(s) && ConsumerStep(s, s')
    ensures s'.producers == s.producers
  {
  }

  /** The sequences claimed in a step are those that the log gains. */
  lemma ClaimsAreNew(s: State, s': State, p: nat, q: nat)
    requires Inv(s) && Step(s, s') && NewlyClaims(s, s', p, q)
    ensures |s.log| <= q < |s'.log|
  {
    if r :| 0 <= r < |s.producers| && ProducerStep(s, s', r) {
      ProducersStep(s, s', r);
      if Holding(s.producers[r]) { HoldersClaimNothing(s, s', r, q); } else { OthersClaim(s, s', r, q); }
    } else {
      ConsumerClaimsNothing(s, s');
    }
  }

  lemma ClaimRange(run: seq<State>, i: nat, p: nat, q: nat)
    requires Run(run) && i < |run| - 1 && NewlyClaims(run[i], run[i + 1], p, q)
    ensures |run[i].log| <= q < |run[i + 1].log|
  {
    RunInv(run, i);
    assert StepAt(run, i);
    ClaimsAreNew(run[i], run[i + 1], p, q);
  }

  lemma OneHolder(run: seq<State>, i: nat, p: nat, r: nat, q: nat)
    requires Run(run) && i < |run| && p < |run[i].producers| && r < |run[i].producers|
    requires Claims(run[i].producers[p], q) && Claims(run[i].producers[r], q)
    ensures p == r
  {
    NoOverwrite(run, i);
  }

  lemma LogInRun(run: seq<State>, i: nat, j: nat)
    requires Run(run) && i <= j < |run|
    ensures |run[i].log| <= |run[j].log|
  {
    GatingMonotone(run, i, j);
  }

  /** No sequence is claimed twice in a run. */
  lemma ClaimedOnce(run: seq<State>, i: nat, j: nat, p: nat, r: nat, q: nat)
    requires Run(run) && i < |run| - 1 && j < |run| - 1
    requires NewlyClaims(run[i], run[i + 1], p, q) && NewlyClaims(run[j], run[j + 1], r, q)
    ensures i == j && p == r
  {
    ClaimRange(run, i, p, q);
    ClaimRange(run, j, r, q);
    if i < j {
      LogInRun(run, i + 1, j);
    } else if j < i {
      LogInRun(run, j + 1, i);
    } else {
      OneHolder(run, i + 1, p, r, q);
    }
  }

  // ---------------------------------------------------------------------------------------------
  // Flags
  // ---------------------------------------------------------------------------------------------

  /**
   In every run the flag of a slot is set exactly when the one sequence of (gating, gating + size]
   that maps to it is published and not yet marked consumed; and what get_highest_published hands
   the consumer, read flag by flag while producers publish, is a prefix without gaps.
   */
  lemma FlagsMeanPublished(run: seq<State>, i: nat)
    requires Run(run) && i < |run|
    ensures var s := run[i];
      && HasSingleBit(|s.flags|)
      && (forall q: nat :: s.gating < q <= s.gating + |s.flags| ==>
            (s.flags[Slot(q, |s.flags|)] <==> q < |s.published| && s.published[q] && MarkedTo(s.consumer, s.nextSeq) <= q))
      && (s.consumer.Take? ==> s.consumer.avail < |s.published| && forall q :: 0 <= q <= s.consumer.avail ==> s.published[q])
  {
    RunInv(run, i);
    var s := run[i];
    forall q: nat | s.gating < q <= s.gating + |s.flags|
      ensures s.flags[Slot(q, |s.flags|)] <==> q < |s.published| && s.published[q] && MarkedTo(s.consumer, s.nextSeq) <= q
    {
      assert FlagOk(s.flags, q, s.published, MarkedTo(s.consumer, s.nextSeq));
    }
  }

  // ---------------------------------------------------------------------------------------------
  // Delivery
  // ---------------------------------------------------------------------------------------------

  /**
   Once the consumer has exited, every sink's strand has been given, in claim order and each
   exactly once, the messages claimed before the first shutdown signal, and no others; and a
   flush posted by shutdown comes after all of them.
   */
  lemma EndToEndDelivery(run: seq<State>, i: nat) returns (signal: nat)
    requires Run(run) && i < |run| && run[i].consumer.Done?
    ensures var s := run[i];
      && signal < |s.log| && s.log[signal].Stop? && NoStop(s.log[..signal])
      && forall k :: 0 <= k < |s.strands| ==> Delivered(s.strands[k]) == Texts(s.log[..signal]) && FlushLast(s.strands[k], true)
  {
    RunInv(run, i);
    var s := run[i];
    signal := s.nextSeq - 1;
    TextsNext(s.log, 0, signal);
    assert s.log[..s.nextSeq] == s.log[0..signal + 1] && s.log[..signal] == s.log[0..signal];
    forall k | 0 <= k < |s.strands|
      ensures Delivered(s.strands[k]) == Texts(s.log[..signal]) && FlushLast(s.strands[k], true)
    {
      assert Delivered(s.strands[k]) + Owed(s.consumer, k) == Texts(s.log[..s.nextSeq]);
      assert Delivered(s.strands[k]) + [] == Delivered(s.strands[k]) && Texts(s.log[..signal]) + [] == Texts(s.log[..signal]);
    }
  }

  lemma {:induction false} TextsPrefix(log: seq<Entry>, n: nat)
    requires n <= |log|
    ensures Texts(log[..n]) <= Texts(log)
    decreases |log|
  {
    if n == |log| {
      assert log[..n] == log;
    } else {
      TextsPrefix(log[..|log| - 1], n);
      assert log[..|log| - 1][..n] == log[..n];
    }
  }

  lemma StrandPrefix(strands: seq<seq<Work>>, c: Consumer, nextSeq: nat, log: seq<Entry>, k: nat)
    requires nextSeq <= |log| && StrandsOk(strands, c, nextSeq, log) && k < |strands|
    ensures Delivered(strands[k]) + Owed(c, k) <= Texts(log)
  {
    TextsPrefix(log, nextSeq);
  }

  /** Before that, each strand has received a prefix of the messages, without gap or repetition. */
  lemma DeliveredIsPrefix(run: seq<State>, i: nat, k: nat)
    requires Run(run) && i < |run| && k < |run[i].strands|
    ensures Delivered(run[i].strands[k]) <= Texts(run[i].log)
  {
    RunInv(run, i);
    StrandPrefix(run[i].strands, run[i].consumer, run[i].nextSeq, run[i].log, k);
  }

  // ---------------------------------------------------------------------------------------------
  // Refinement to an unbounded log
  // ---------------------------------------------------------------------------------------------

  /** The specification: one unbounded log, and how much of it each sink has read. */
  datatype Fifo = Fifo(log: seq<Entry>, read: seq<seq<string>>)

  function Read(strands: seq<seq<Work>>): seq<seq<string>> {
    seq(|strands|, k requires 0 <= k < |strands| => Delivered(strands[k]))
  }

  function Abstract(s: State): Fifo { Fifo(s.log, Read(s.strands)) }

  /** Entries are appended at the end; a sink reads on from where it is. */
  ghost predicate FifoStep(a: Fifo, a': Fifo) {
    || a' == a
    || (a'.read == a.read && a.log <= a'.log)
    || (exists k, texts :: 0 <= k < |a.read| && a.read[k] + texts <= Texts(a.log) && a' == a.(read := a.read[k := a.read[k] + texts]))
  }

  /** A flush carries no text. */
  lemma FlushDelivers(strand: seq<Work>, strand': seq<Work>)
    requires strand' == strand || strand' == strand + [FlushNow] || strand' == strand + [FinalFlush]
    ensures Delivered(strand') == Delivered(strand)
  {
    DeliveredNext(strand, FlushNow);
    DeliveredNext(strand, FinalFlush);
  }

  lemma SameRead(strands: seq<seq<Work>>, strands': seq<seq<Work>>)
    requires |strands'| == |strands|
    requires forall k :: 0 <= k < |strands| ==> Delivered(strands'[k]) == Delivered(strands[k])
    ensures Read(strands') == Read(strands)
  {
  }

  lemma ProducerRefines(s: State, s': State, p: nat)
    requires Inv(s) && p < |s.producers| && ProducerStep(s, s', p)
    ensures Abstract(s').read == Abstract(s).read && s.log <= s'.log
  {
    var _ := ProducerFrame(s, s', p);
    forall k | 0 <= k < |s.strands| ensures Delivered(s'.strands[k]) == Delivered(s.strands[k]) {
      FlushDelivers(s.strands[k], s'.strands[k]);
    }
    SameRead(s.strands, s'.strands);
  }

  lemma PostRefines(s: State, s': State, k: nat, texts: seq<string>)
    requires Inv(s) && ConsumerStep(s, s') && s.consumer == Post(k, texts) && k < |s.strands|
    ensures Abstract(s).read[k] + texts <= Texts(s.log)
    ensures Abstract(s') == Abstract(s).(read := Abstract(s).read[k := Abstract(s).read[k] + texts])
  {
    StrandPrefix(s.strands, s.consumer, s.nextSeq, s.log, k);
    DeliveredNext(s.strands[k], ProcessBatch(texts));
    assert s' == s.(strands := s.strands[k := s.strands[k] + [ProcessBatch(texts)]], consumer := Post(k + 1, texts));
  }

  /** Every step of the pipeline is a step of the log, or changes nothing a client or a sink can see. */
  lemma RefinesFifo(run: seq<State>, i: nat)
    requires Run(run) && i < |run| - 1
    ensures FifoStep(Abstract(run[i]), Abstract(run[i + 1]))
  {
    RunInv(run, i);
    assert StepAt(run, i);
    var s, s' := run[i], run[i + 1];
    if p :| 0 <= p < |s.producers| && ProducerStep(s, s', p) {
      ProducerRefines(s, s', p);
    } else if s.consumer.Post? && s.consumer.sink < |s.strands| {
      PostRefines(s, s', s.consumer.sink, s.consumer.batch);
    } else {
      assert s'.log == s.log && s'.strands == s.strands;
    }
  }

  // ---------------------------------------------------------------------------------------------
  // Progress
  // ---------------------------------------------------------------------------------------------

  /**
   The consumer is in an iteration in which it read a cursor of at most `top`, and what it will find
   published goes at least up to `goal`. Nothing is said about the sequences after `goal`.
   */
  ghost predicate Iterating(s: State, goal: nat, top: nat) {
    && s.nextSeq <= goal <= top && goal < |s.log| == |s.published|
    && (forall q :: 0 <= q <= goal ==> s.published[q])
    && match s.consumer
       case Scan(_, avail) => goal <= avail <= top
       case Take(_, avail, _) => goal <= avail <= top
       case Mark(_, avail, _, _) => goal <= avail <= top
       case Halt(_, _) => true
       case Gate(last, _) => goal <= last <= top || (last < |s.log| && s.log[last].Stop?)
       case _ => false
  }

  /** The iteration has moved the gating sequence: at least to the goal, or to the signal. */
  ghost predicate Advanced(s: State, s': State, goal: nat, top: nat) {
    && 0 <= s'.gating < |s'.log| && s.gating < s'.gating
    && (goal <= s'.gating <= top || s'.log[s'.gating].Stop?)
  }

  function Rank(c: Consumer): int {
    match c
    case Scan(q, avail) => 3 * (avail + 1) + 3 + (avail + 1 - q)
    case Take(q, avail, _) => 3 * (avail + 1 - q) + 2
    case Mark(q, avail, _, _) => 3 * (avail + 1 - q) + 1
    case Halt(_, _) => 2
    case Gate(_, _) => 1
    case _ => 0
  }

  /** Whatever producers do meanwhile, the iteration goes on. */
  lemma ProducersDoNotDisturb(s: State, s': State, p: nat, goal: nat, top: nat)
    requires Inv(s) && Iterating(s, goal, top) && p < |s.producers| && ProducerStep(s, s', p)
    ensures Inv(s') && Iterating(s', goal, top) && s'.consumer == s.consumer && s'.gating == s.gating
  {
    ProducerInv(s, s', p);
    var _ := ProducerFrame(s, s', p);
    PublishedGrows(s, s', p);
  }

  lemma PublishedGrows(s: State, s': State, p: nat)
    requires RingInv(s) && p < |s.producers| && ProducerStep(s, s', p)
    ensures |s.published| <= |s'.published| && forall q :: 0 <= q < |s.published| && s.published[q] ==> s'.published[q]
    ensures s'.gating == s.gating
  {
  }

  ghost predicate GoesOn(s: State, s': State, goal: nat, top: nat) {
    Iterating(s', goal, top) && s'.gating == s.gating && 0 <= Rank(s'.consumer) < Rank(s.consumer)
  }

  /** The scan does not stop before the first sequence that is not published. */
  lemma ScanAdvances(s: State, s': State, goal: nat, top: nat)
    requires RingInv(s) && s.consumer.Scan? && Iterating(s, goal, top) && ConsumerStep(s, s')
    ensures GoesOn(s, s', goal, top)
  {
    if s.consumer.q <= goal {
      assert FlagOk(s.flags, s.consumer.q, s.published, MarkedTo(s.consumer, s.nextSeq));
    }
  }

  lemma TakeAdvances(s: State, s': State, goal: nat, top: nat)
    requires Shape(s) && PositionsOk(s.consumer, s.nextSeq, s.published)
    requires s.consumer.Take? && Iterating(s, goal, top) && ConsumerStep(s, s')
    ensures GoesOn(s, s', goal, top)
  {
  }

  lemma MarkAdvances(s: State, s': State, goal: nat, top: nat)
    requires Shape(s) && PositionsOk(s.consumer, s.nextSeq, s.published) && |s.published| == |s.log|
    requires BatchOk(s.consumer, s.nextSeq, s.log, s.running)
    requires (s.consumer.Mark? || s.consumer.Halt?) && Iterating(s, goal, top) && ConsumerStep(s, s')
    ensures GoesOn(s, s', goal, top)
  {
  }

  /** And each of the consumer's own steps brings its end nearer. */
  lemma ConsumerAdvances(s: State, s': State, goal: nat, top: nat)
    requires RingInv(s) && BatchOk(s.consumer, s.nextSeq, s.log, s.running)
    requires Iterating(s, goal, top) && ConsumerStep(s, s')
    ensures Advanced(s, s', goal, top) || GoesOn(s, s', goal, top)
  {
    match s.consumer
    case Scan(_, _) => ScanAdvances(s, s', goal, top);
    case Take(_, _, _) => TakeAdvances(s, s', goal, top);
    case Gate(_, _) => assert Advanced(s, s', goal, top);
    case _ => MarkAdvances(s, s', goal, top);
  }

  /** The consumer is never blocked inside an iteration. */
  lemma ConsumerEnabled(s: State) returns (s': State)
    requires Shape(s) && !s.consumer.Done?
    ensures ConsumerStep(s, s')
  {
    match s.consumer
    case Head => s' := s.(consumer := if s.running then Load else Done);
    case Load => s' := s.(consumer := Scan(s.nextSeq, s.cursor));
    case Scan(q, avail) =>
      s' := s.(consumer := if q > avail then Scanned(s.nextSeq, avail)
                           else if s.flags[Slot(q, |s.flags|)] then Scan(q + 1, avail) else Scanned(s.nextSeq, q - 1));
    case Take(q, avail, batch) =>
      if q > avail {
        s' := s.(consumer := Gate(q - 1, batch));
      } else {
        var event := s.slots[Slot(q, |s.slots|)];
        s' := if event.stop then s.(consumer := Mark(q, avail, batch, true))
              else s.(consumer := Mark(q, avail, batch + [event.text], false),
                      slots := s.slots[Slot(q, |s.slots|) := event.(text := "")]);
      }
    case Mark(q, avail, batch, stop) =>
      s' := s.(flags := s.flags[Slot(q, |s.flags|) := false],
               consumer := if stop then Halt(q, batch) else Take(q + 1, avail, batch));
    case Halt(q, batch) => s' := s.(running := false, consumer := Gate(q, batch));
    case Gate(last, batch) =>
      s' := s.(gating := last, nextSeq := last + 1, consumer := if batch == [] then Head else Post(0, batch));
    case Post(i, batch) =>
      s' := if i < |s.strands|
            then s.(strands := s.strands[i := s.strands[i] + [ProcessBatch(batch)]], consumer := Post(i + 1, batch))
            else s.(consumer := Head);
  }

  /** Consecutive states, each reached by a step of the consumer. */
  ghost predicate ConsumerRun(run: seq<State>) {
    run != [] && forall i :: 0 <= i < |run| - 1 ==> ConsumerStepAt(run, i)
  }

  ghost predicate ConsumerStepAt(run: seq<State>, i: nat)
    requires i < |run| - 1
  {
    Shape(run[i]) && ConsumerStep(run[i], run[i + 1])
  }

  lemma PrependStep(s: State, run: seq<State>)
    requires ConsumerRun(run) && Shape(s) && ConsumerStep(s, run[0])
    ensures ConsumerRun([s] + run)
  {
    var run' := [s] + run;
    forall i | 0 <= i < |run'| - 1 ensures ConsumerStepAt(run', i) {
      if i > 0 { assert ConsumerStepAt(run, i - 1); }
    }
  }

  lemma {:induction false} IterationEnds(s: State, goal: nat, top: nat) returns (run: seq<State>)
    requires Inv(s) && Iterating(s, goal, top)
    ensures ConsumerRun(run) && run[0] == s && Advanced(s, run[|run| - 1], goal, top)
    decreases Rank(s.consumer)
  {
    var s' := ConsumerEnabled(s);
    ConsumerInv(s, s');
    ConsumerAdvances(s, s', goal, top);
    if Advanced(s, s', goal, top) {
      run := [s, s'];
    } else {
      var rest := IterationEnds(s', goal, top);
      PrependStep(s, rest);
      run := [s] + rest;
    }
  }

  /**
   When the sequences up to `goal` are published and not all of them consumed, a full iteration of
   the consumer moves the gating sequence at least to `goal`, and at most to the cursor value it
   read, or to the shutdown signal. With `goal` the cursor itself it is the cursor.
   */
  lemma ConsumerMakesProgress(history: seq<State>, goal: nat) returns (run: seq<State>)
    requires Run(history)
    requires
      var s := history[|history| - 1];
      && s.consumer.Head? && s.running && s.gating < goal <= s.cursor && goal < |s.published|
      && forall q :: s.nextSeq <= q <= goal ==> s.published[q]
    ensures
      var s := history[|history| - 1];
      ConsumerRun(run) && run[0] == s && s.cursor >= 0 && Advanced(s, run[|run| - 1], goal, s.cursor)
  {
    var s := history[|history| - 1];
    RunInv(history, |history| - 1);
    var s1 := ConsumerEnabled(s);
    ConsumerInv(s, s1);
    var s2 := ConsumerEnabled(s1);
    ConsumerInv(s1, s2);
    var rest := IterationEnds(s2, goal, s.cursor);
    PrependStep(s1, rest);
    PrependStep(s, [s1] + rest);
    run := [s] + ([s1] + rest);
  }

  lemma IterationStep(s: State, s': State, goal: nat, top: nat)
    requires Inv(s) && Iterating(s, goal, top) && Step(s, s') && Inv(s')
    ensures Iterating(s', goal, top) || Advanced(s, s', goal, top)
  {
    if p :| 0 <= p < |s.producers| && ProducerStep(s, s', p) {
      ProducersDoNotDisturb(s, s', p, goal, top);
    } else {
      ConsumerAdvances(s, s', goal, top);
    }
  }

  /**
   And with producers stepping in between: from the moment the consumer reads the cursor with the
   sequences up to `goal` published, it does not get back to its loop head before the gating
   sequence has moved that far, or to a shutdown signal.
   */
  lemma {:induction false} IterationInRun(run: seq<State>, i: nat, j: nat, goal: nat, top: nat) returns (k: nat)
    requires Run(run) && i <= j < |run| && Iterating(run[i], goal, top)
    ensures Iterating(run[j], goal, top) || (i < k <= j && Advanced(run[i], run[k], goal, top))
    decreases j - i
  {
    k := i;
    if i < j {
      k := IterationInRun(run, i, j - 1, goal, top);
      if Iterating(run[j - 1], goal, top) {
        RunStepAdvances(run, j - 1, goal, top);
        GatingMonotone(run, i, j - 1);
        k := j;
      }
    }
  }

  lemma RunStepAdvances(run: seq<State>, i: nat, goal: nat, top: nat)
    requires Run(run) && i < |run| - 1 && Iterating(run[i], goal, top)
    ensures Iterating(run[i + 1], goal, top) || Advanced(run[i], run[i + 1], goal, top)
  {
    RunInv(run, i);
    RunInv(run, i + 1);
    assert StepAt(run, i);
    IterationStep(run[i], run[i + 1], goal, top);
  }

  /** The consumer has scanned and goes on with `highest`: to drain up to it, or back to its loop head if there is nothing. */
  ghost predicate ScanEnds(s: State, s': State, highest: int) {
    && s.consumer.Scan?
    && (s'.consumer == Take(s.nextSeq, highest, []) || (s'.consumer == Head && highest == s.nextSeq - 1))
  }

  /**
   What a scan answers is exactly the end of what is published without a gap, as far as it looked:
   all up to there is published, and it stopped either at the cursor it had read or at a sequence
   whose flag it saw clear, which was not published.
   */
  lemma ScanIsExact(run: seq<State>, i: nat) returns (highest: int)
    requires Run(run) && i < |run| - 1 && run[i].consumer.Scan? && !run[i + 1].consumer.Scan?
    ensures ScanEnds(run[i], run[i + 1], highest)
    ensures var s := run[i];
            && s.nextSeq - 1 <= highest <= s.consumer.avail < |s.published| == |s.log|
            && (forall q :: s.nextSeq <= q <= highest ==> s.published[q])
            && (highest == s.consumer.avail ||
                 (!s.published[highest + 1] && HasSingleBit(|s.flags|) && !s.flags[Slot(highest + 1, |s.flags|)]))
  {
    RunInv(run, i);
    assert StepAt(run, i);
    var s, s' := run[i], run[i + 1];
    if p :| 0 <= p < |s.producers| && ProducerStep(s, s', p) {
      var _ := ProducerFrame(s, s', p);
      assert false;
    }
    highest := ScanStops(s, s');
  }

  lemma ScanStops(s: State, s': State) returns (highest: int)
    requires RingInv(s) && ConsumerStep(s, s') && s.consumer.Scan? && !s'.consumer.Scan?
    ensures ScanEnds(s, s', highest)
    ensures s.nextSeq - 1 <= highest <= s.consumer.avail < |s.published| == |s.log|
    ensures forall q :: s.nextSeq <= q <= highest ==> s.published[q]
    ensures highest == s.consumer.avail || (!s.published[highest + 1] && !s.flags[Slot(highest + 1, |s.flags|)])
  {
    var Scan(q, avail) := s.consumer;
    highest := if s'.consumer.Take? then s'.consumer.avail else s.nextSeq - 1;
    if q <= avail {
      assert FlagOk(s.flags, q, s.published, MarkedTo(s.consumer, s.nextSeq));
    }
  }
}
