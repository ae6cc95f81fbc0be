/**
 * No stuck full buffer: from every reached state in which a producer waits for room, the run can go
 * on so that its claim succeeds.
 */
module DisruptorProgress {
  import opened Bits
  import opened Disruptor
  import opened DisruptorRuns
  import Paths

  // ---------------------------------------------------------------------------------------------
  // Every claim is attended to
  // ---------------------------------------------------------------------------------------------

  ghost predicate HeldBySome(producers: seq<Producer>, q: nat) {
    exists p :: 0 <= p < |producers| && Claims(producers[p], q)
  }

  /** What has been claimed and not published, some producer is still holding. */
  ghost predicate Attended(s: State) {
    forall q: nat :: q < |s.published| && !s.published[q] ==> HeldBySome(s.producers, q)
  }

  /** The cursor value that a producer is working with has been the cursor. */
  predicate WasCursor(pc: Producer, cursor: int) {
    pc.LoadGating? || pc.Cas? ==> pc.current <= cursor
  }

  predicate CurrentOk(s: State) {
    forall p :: 0 <= p < |s.producers| ==> WasCursor(s.producers[p], s.cursor)
  }

  /** What a producer goes on holding over its own step. */
  lemma OwnClaimKept(s: State, s': State, p: nat, q: nat)
    requires Inv(s) && p < |s.producers| && ProducerStep(s, s', p) && |s'.producers| == |s.producers|
    requires Claims(s.producers[p], q) && q < |s'.published| && !s'.published[q]
    ensures Claims(s'.producers[p], q)
  {
    var pc := s.producers[p];
    assert ClaimOk(pc, s.log, s.published) && ProducerShape(pc);
    if pc.WriteText? || pc.WriteStop? { OwnClaim(s, s', p); }
  }

  /** A claim that has just been made is held by the producer that made it. */
  lemma NewClaimHeld(s: State, s': State, p: nat, q: nat)
    requires Inv(s) && p < |s.producers| && ProducerStep(s, s', p) && |s'.producers| == |s.producers|
    requires |s.published| <= q < |s'.published|
    ensures Claims(s'.producers[p], q)
  {
  }

  lemma AttendedProducer(s: State, s': State, p: nat)
    requires Inv(s) && Attended(s) && p < |s.producers| && ProducerStep(s, s', p)
    ensures Attended(s')
  {
    ProducersStep(s, s', p);
    PublishedGrows(s, s', p);
    forall q: nat | q < |s'.published| && !s'.published[q] ensures HeldBySome(s'.producers, q) {
      if q < |s.published| {
        assert HeldBySome(s.producers, q);
        var r :| 0 <= r < |s.producers| && Claims(s.producers[r], q);
        if r == p { OwnClaimKept(s, s', p, q); }
        assert Claims(s'.producers[r], q);
      } else {
        NewClaimHeld(s, s', p, q);
      }
    }
  }

  lemma CurrentProducer(s: State, s': State, p: nat)
    requires Inv(s) && CurrentOk(s) && p < |s.producers| && ProducerStep(s, s', p)
    ensures CurrentOk(s')
  {
    ProducersStep(s, s', p);
    assert WasCursor(s.producers[p], s.cursor);
    CursorGrows(s, s', p);
    forall r | 0 <= r < |s'.producers| ensures WasCursor(s'.producers[r], s'.cursor) {
      assert WasCursor(s.producers[r], s.cursor);
    }
  }

  lemma CursorGrows(s: State, s': State, p: nat)
    requires Shape(s) && p < |s.producers| && ProducerStep(s, s', p) && |s'.producers| == |s.producers|
    requires WasCursor(s.producers[p], s.cursor)
    ensures s.cursor <= s'.cursor && WasCursor(s'.producers[p], s'.cursor)
  {
  }

  lemma ConsumerLeaves(s: State, s': State)
    requires Shape(s) && ConsumerStep(s, s')
    ensures s'.producers == s.producers && s'.log == s.log && s'.published == s.published
    ensures s'.cursor == s.cursor && |s'.flags| == |s.flags| && |s'.strands| == |s.strands|
  {
  }

  ghost predicate Steady(s: State) { Inv(s) && Attended(s) && CurrentOk(s) }

  lemma StepSteady(s: State, s': State)
    requires Steady(s) && Step(s, s')
    ensures Steady(s')
  {
    StepInv(s, s');
    if p :| 0 <= p < |s.producers| && ProducerStep(s, s', p) {
      AttendedProducer(s, s', p);
      CurrentProducer(s, s', p);
    } else {
      ConsumerLeaves(s, s');
    }
  }

  lemma InitSteady(s: State)
    requires Init(s)
    ensures Steady(s)
  {
    InitInv(s);
  }

  lemma {:induction false} RunSteady(run: seq<State>, i: nat)
    requires Run(run) && i < |run|
    ensures Steady(run[i])
    decreases i
  {
    if i == 0 {
      InitSteady(run[0]);
    } else {
      RunSteady(run, i - 1);
      assert StepAt(run, i - 1);
      StepSteady(run[i - 1], run[i]);
    }
  }

  // ---------------------------------------------------------------------------------------------
  // Reachability
  // ---------------------------------------------------------------------------------------------

  ghost function Steps(): (State, State) -> bool { (s, s') => Step(s, s') }

  ghost predicate Reaches(s: State, t: State) { Paths.Reaches(Steps(), s, t) }

  lemma ReachesSelf(s: State)
    ensures Reaches(s, s)
  {
    Paths.ReachesSelf(Steps(), s);
  }

  /** From `s` to `t`, and one step more. */
  lemma Then(s: State, t: State, u: State)
    requires Reaches(s, t) && Step(t, u)
    ensures Reaches(s, u)
  {
    Paths.Then(Steps(), s, t, u);
  }

  lemma ReachesTrans(s: State, t: State, u: State)
    requires Reaches(s, t) && Reaches(t, u)
    ensures Reaches(s, u)
  {
    Paths.ReachesTrans(Steps(), s, t, u);
  }

  lemma LinkIsStep(run: seq<State>, i: nat)
    requires i < |run| - 1
    ensures Paths.LinkAt(Steps(), run, i) <==> StepAt(run, i)
  {
  }

  lemma RunIsPath(run: seq<State>)
    requires run != [] && Init(run[0])
    ensures Run(run) <==> Paths.Path(Steps(), run)
  {
    forall i: nat | i < |run| - 1 ensures Paths.LinkAt(Steps(), run, i) <==> StepAt(run, i) { LinkIsStep(run, i); }
  }

  /** A run goes on along a path from where it is. */
  lemma RunGoesOn(run: seq<State>, t: State) returns (run': seq<State>)
    requires Run(run) && Reaches(run[|run| - 1], t)
    ensures Run(run') && run <= run' && run'[|run'| - 1] == t
  {
    RunIsPath(run);
    run' := Paths.GoesOn(Steps(), run, t);
    RunIsPath(run');
  }

  // ---------------------------------------------------------------------------------------------
  // Holders finish
  // ---------------------------------------------------------------------------------------------

  /** Nothing but producers' own places, slots, flags and strands differs. */
  ghost predicate SameCounters(s: State, t: State) {
    && t.cursor == s.cursor && t.gating == s.gating && t.log == s.log && t.running == s.running
    && t.consumer == s.consumer && |t.flags| == |s.flags| && |t.producers| == |s.producers|
  }

  /** Steps that a holder has left. */
  function HolderRank(pc: Producer): int {
    match pc
    case WriteText(op, _, k) => |op.entries| + 2 * (|op.entries| - k)
    case WriteStop(op, _, k) => |op.entries| + 2 * (|op.entries| - k) - 1
    case Publish(op, _, k) => |op.entries| - k
    case _ => 0
  }

  /** A step of holder `p` that brings it nearer to its end. */
  ghost predicate Nearer(s: State, s': State, p: nat)
    requires Shape(s) && p < |s.producers|
  {
    && ProducerStep(s, s', p) && SameCounters(s, s')
    && s'.producers == s.producers[p := s'.producers[p]]
    && 0 <= HolderRank(s'.producers[p]) < HolderRank(s.producers[p])
    && SameCall(s.producers[p], s'.producers[p])
  }

  /** Still the same claim, or past it: a shutdown goes on to wait for the consumer. */
  predicate SameCall(pc: Producer, pc': Producer) {
    Holding(pc) ==> if Holding(pc') then pc'.op == pc.op else pc' == if pc.op.mode.Shutdown? then Join else Idle
  }

  lemma HolderWritesText(s: State, p: nat) returns (s': State)
    requires RingInv(s) && p < |s.producers| && s.producers[p].WriteText?
    ensures Nearer(s, s', p)
  {
    assert ProducerShape(s.producers[p]);
    var WriteText(op, first, k) := s.producers[p];
    var i := Slot(first + k, |s.slots|);
    s' := Go(s, p, WriteStop(op, first, k))
          .(slots := if op.entries[k].Message? then s.slots[i := s.slots[i].(text := op.entries[k].text)] else s.slots);
  }

  lemma HolderWritesStop(s: State, p: nat) returns (s': State)
    requires RingInv(s) && p < |s.producers| && s.producers[p].WriteStop?
    ensures Nearer(s, s', p)
  {
    assert ProducerShape(s.producers[p]);
    var WriteStop(op, first, k) := s.producers[p];
    var i := Slot(first + k, |s.slots|);
    s' := Go(s, p, AfterWrite(op, first, k)).(slots := s.slots[i := s.slots[i].(stop := op.entries[k].Stop?)]);
  }

  lemma HolderPublishes(s: State, p: nat) returns (s': State)
    requires RingInv(s) && p < |s.producers| && s.producers[p].Publish?
    ensures Nearer(s, s', p)
  {
    assert ProducerShape(s.producers[p]);
    var Publish(op, first, k) := s.producers[p];
    s' := Go(s, p, AfterPublish(op, first, k))
          .(flags := s.flags[Slot(first + k, |s.flags|) := true],
            published := if first + k < |s.published| then s.published[first + k := true] else s.published);
  }

  lemma HolderSteps(s: State, p: nat) returns (s': State)
    requires RingInv(s) && p < |s.producers| && Holding(s.producers[p])
    ensures Nearer(s, s', p)
  {
    if s.producers[p].WriteText? {
      s' := HolderWritesText(s, p);
    } else if s.producers[p].WriteStop? {
      s' := HolderWritesStop(s, p);
    } else {
      s' := HolderPublishes(s, p);
    }
  }

  lemma ProducerStepIsStep(s: State, s': State, p: nat)
    requires Shape(s) && p < |s.producers| && ProducerStep(s, s', p)
    ensures Step(s, s')
  {
  }

  /** A holder, left to itself, publishes all it has claimed. */
  lemma {:induction false} HolderFinishes(s: State, p: nat) returns (t: State)
    requires Steady(s) && p < |s.producers|
    ensures Reaches(s, t) && Steady(t) && SameCounters(s, t)
    ensures t.producers == s.producers[p := t.producers[p]] && !Holding(t.producers[p])
    ensures !Holding(s.producers[p]) ==> t == s
    ensures SameCall(s.producers[p], t.producers[p])
    decreases HolderRank(s.producers[p])
  {
    if !Holding(s.producers[p]) {
      t := s;
      ReachesSelf(s);
    } else {
      var s' := HolderSteps(s, p);
      ProducerStepIsStep(s, s', p);
      StepSteady(s, s');
      t := HolderFinishes(s', p);
      ReachesSelf(s);
      Then(s, s, s');
      ReachesTrans(s, s', t);
    }
  }

  /** The first `k` producers hold nothing; those that did not hold anything before are where they were. */
  ghost predicate Finished(s: State, t: State, k: nat) {
    && |t.producers| == |s.producers|
    && (forall r :: 0 <= r < k && r < |t.producers| ==> !Holding(t.producers[r]))
    && (forall r :: 0 <= r < |s.producers| && !Holding(s.producers[r]) ==> t.producers[r] == s.producers[r])
  }

  lemma {:induction false} HoldersFinish(s: State, k: nat) returns (t: State)
    requires Steady(s) && k <= |s.producers|
    ensures Reaches(s, t) && Steady(t) && SameCounters(s, t) && Finished(s, t, k)
    decreases k
  {
    if k == 0 {
      t := s;
      ReachesSelf(s);
    } else {
      var u := HoldersFinish(s, k - 1);
      t := HolderFinishes(u, k - 1);
      ReachesTrans(s, u, t);
    }
  }

  lemma NobodyHolds(s: State)
    requires Steady(s) && forall r :: 0 <= r < |s.producers| ==> !Holding(s.producers[r])
    ensures forall q :: 0 <= q < |s.published| ==> s.published[q]
  {
    forall q: nat | q < |s.published| ensures s.published[q] {
      assert !s.published[q] ==> HeldBySome(s.producers, q);
    }
  }

  // ---------------------------------------------------------------------------------------------
  // The consumer comes home
  // ---------------------------------------------------------------------------------------------

  /** Nothing that a producer sees of itself, or of the log, differs. */
  ghost predicate SameProducers(s: State, t: State) {
    && t.producers == s.producers && t.log == s.log && t.published == s.published && t.cursor == s.cursor
    && |t.flags| == |s.flags| && |t.strands| == |s.strands|
  }

  /** Steps, at most, that the consumer is away from its loop head. */
  function Away(s: State): int {
    var sinks := |s.strands|;
    match s.consumer
    case Head => 0
    case Post(i, _) => if i <= sinks then sinks - i + 1 else 1
    case Gate(_, _) => sinks + 2
    case Halt(_, _) => sinks + 3
    case Take(q, avail, _) => sinks + 3 + if q <= avail then 2 * (avail + 1 - q) else 0
    case Mark(q, avail, _, _) => sinks + 2 + 2 * (avail + 1 - q)
    case Scan(q, avail) => sinks + 4 + 2 * (avail + 1 - s.nextSeq) + (avail + 1 - q)
    case Load => sinks + 5 + 3 * (s.cursor + 1 - s.nextSeq)
    case Done => 0
  }

  /** With no signal in the log the consumer is not told to stop. */
  lemma NotHalting(s: State)
    requires Inv(s) && NoStop(s.log)
    ensures !s.consumer.Halt?
  {
  }

  lemma NearerHome(s: State, s': State)
    requires Shape(s) && PositionsOk(s.consumer, s.nextSeq, s.published) && s.nextSeq <= s.cursor + 1
    requires !s.consumer.Head? && ConsumerStep(s, s')
    ensures 0 <= Away(s') < Away(s) && s'.running == (s.running && !s.consumer.Halt?) && s.nextSeq <= s'.nextSeq
  {
  }

  lemma ConsumerStepIsStep(s: State, s': State)
    requires Shape(s) && ConsumerStep(s, s')
    ensures Step(s, s')
  {
  }

  lemma {:induction false} ConsumerComesHome(s: State) returns (t: State)
    requires Steady(s) && s.running && NoStop(s.log)
    ensures Reaches(s, t) && Steady(t) && SameProducers(s, t) && t.consumer.Head? && t.running
    decreases Away(s)
  {
    if s.consumer.Head? {
      t := s;
      ReachesSelf(s);
    } else {
      var s' := ConsumerEnabled(s);
      ConsumerStepIsStep(s, s');
      StepSteady(s, s');
      ConsumerLeaves(s, s');
      NotHalting(s);
      NotHalting(s');
      NearerHome(s, s');
      t := ConsumerComesHome(s');
      ReachesSelf(s);
      Then(s, s, s');
      ReachesTrans(s, s', t);
    }
  }

  // ---------------------------------------------------------------------------------------------
  // The ring drains
  // ---------------------------------------------------------------------------------------------

  ghost predicate Calm(s: State) {
    && Steady(s) && s.running && NoStop(s.log)
    && forall q :: 0 <= q < |s.published| ==> s.published[q]
  }

  /** An iteration of the consumer, on its own, to its end. */
  lemma {:induction false} IterationDrains(s: State, goal: nat) returns (t: State)
    requires Steady(s) && Iterating(s, goal, goal)
    ensures Reaches(s, t) && Steady(t) && SameProducers(s, t) && Advanced(s, t, goal, goal)
    decreases Rank(s.consumer)
  {
    var s' := ConsumerEnabled(s);
    ConsumerStepIsStep(s, s');
    StepSteady(s, s');
    ConsumerLeaves(s, s');
    ConsumerAdvances(s, s', goal, goal);
    ReachesSelf(s);
    Then(s, s, s');
    if Advanced(s, s', goal, goal) {
      t := s';
    } else {
      t := IterationDrains(s', goal);
      ReachesTrans(s, s', t);
    }
  }

  /** The consumer, at its loop head, reads the cursor. */
  lemma IterationBegins(s: State) returns (t: State)
    requires Steady(s) && s.running && s.consumer.Head? && s.gating < s.cursor
    requires forall q :: 0 <= q < |s.published| ==> s.published[q]
    ensures Reaches(s, t) && Steady(t) && SameProducers(s, t) && t.gating == s.gating && Iterating(t, s.cursor, s.cursor)
  {
    var s1 := s.(consumer := Load);
    t := s.(consumer := Scan(s.nextSeq, s.cursor));
    ConsumerStepIsStep(s, s1);
    StepSteady(s, s1);
    ConsumerStepIsStep(s1, t);
    StepSteady(s1, t);
    ReachesSelf(s);
    Then(s, s, s1);
    Then(s, s1, t);
  }

  lemma RingDrains(s: State) returns (t: State)
    requires Calm(s) && s.consumer.Head?
    ensures Reaches(s, t) && Steady(t) && SameProducers(s, t) && t.gating == t.cursor
  {
    if s.gating == s.cursor {
      t := s;
      ReachesSelf(s);
    } else {
      var u := IterationBegins(s);
      t := IterationDrains(u, s.cursor);
      ReachesTrans(s, u, t);
    }
  }

  /** From any state with no signal in the log: claims published, consumer home, ring drained. */
  lemma AllDrains(s: State) returns (t: State)
    requires Steady(s) && s.running && NoStop(s.log)
    ensures Reaches(s, t) && Steady(t) && t.gating == t.cursor && t.log == s.log && |t.flags| == |s.flags|
    ensures |t.producers| == |s.producers|
    ensures forall r :: 0 <= r < |s.producers| && !Holding(s.producers[r]) ==> t.producers[r] == s.producers[r]
  {
    var a := HoldersFinish(s, |s.producers|);
    NobodyHolds(a);
    var b := ConsumerComesHome(a);
    t := RingDrains(b);
    ReachesTrans(s, a, b);
    ReachesTrans(s, b, t);
  }

  // ---------------------------------------------------------------------------------------------
  // A waiting producer goes on
  // ---------------------------------------------------------------------------------------------

  /** With the ring drained the test passes, on however old a value of the cursor. */
  lemma TestPasses(s: State, p: nat)
    requires Steady(s) && s.gating == s.cursor && p < |s.producers| && s.producers[p].LoadGating?
    requires |s.producers[p].op.entries| <= |s.flags|
    ensures ProducerStep(s, Go(s, p, Cas(s.producers[p].op, s.producers[p].current)), p)
  {
    assert WasCursor(s.producers[p], s.cursor);
  }

  /**
   * No stuck full buffer: whenever a producer waits for room for no more than the buffer holds, and
   * no signal has been logged, the run can go on so that it gets past the backpressure test.
   */
  lemma WaitingEnds(run: seq<State>, p: nat) returns (run': seq<State>)
    requires Run(run)
    requires var s := run[|run| - 1];
             && s.running && NoStop(s.log)
             && p < |s.producers| && s.producers[p].LoadGating? && |s.producers[p].op.entries| <= |s.flags|
    ensures Run(run') && run <= run'
    ensures var s, t := run[|run| - 1], run'[|run'| - 1];
            && p < |t.producers| && t.producers[p] == Cas(s.producers[p].op, s.producers[p].current)
            && t.gating == t.cursor && t.log == s.log && |t.flags| == |s.flags|
  {
    var s := run[|run| - 1];
    RunSteady(run, |run| - 1);
    var t := AllDrains(s);
    TestPasses(t, p);
    var u := Go(t, p, Cas(s.producers[p].op, s.producers[p].current));
    ProducerStepIsStep(t, u, p);
    Then(s, t, u);
    run' := RunGoesOn(run, u);
  }

  // ---------------------------------------------------------------------------------------------
  // And claims
  // ---------------------------------------------------------------------------------------------

  function Claimed(s: State, p: nat, op: Op): State
    requires p < |s.producers| && s.cursor >= -1
  {
    Go(s, p, if op.entries == [] then Idle else WriteText(op, s.cursor + 1, 0))
      .(cursor := s.cursor + |op.entries|,
        log := s.log + op.entries,
        published := s.published + seq(|op.entries|, _ => false))
  }

  /** From the test, with the cursor as it is: the compare-and-set succeeds. */
  lemma FreshClaim(s: State, p: nat)
    requires Steady(s) && s.gating == s.cursor && p < |s.producers|
    requires s.producers[p].Cas? && s.producers[p].current == s.cursor
    ensures ProducerStep(s, Claimed(s, p, s.producers[p].op), p)
  {
  }

  /** From the test, with an old value of the cursor: the compare-and-set fails, and the value is read again. */
  lemma StaleRetries(s: State, p: nat) returns (t: State)
    requires Steady(s) && s.gating == s.cursor && p < |s.producers|
    requires s.producers[p].Cas? && !s.producers[p].op.mode.TryNext? && |s.producers[p].op.entries| <= |s.flags|
    ensures Reaches(s, t) && Steady(t) && t.gating == t.cursor && t.log == s.log && t.cursor == s.cursor
    ensures p < |t.producers| && t.producers[p] == Cas(s.producers[p].op, t.cursor)
  {
    var op := s.producers[p].op;
    assert ProducerShape(s.producers[p]);
    var a := Go(s, p, LoadCursor(op));
    var b := Go(s, p, LoadGating(op, s.cursor));
    t := Go(s, p, Cas(op, s.cursor));
    ReachesSelf(s);
    assert ProducerStep(s, a, p);
    ProducerStepIsStep(s, a, p);
    StepSteady(s, a);
    assert a.producers[p := LoadGating(op, s.cursor)] == b.producers;
    assert ProducerStep(a, b, p);
    ProducerStepIsStep(a, b, p);
    StepSteady(a, b);
    TestPasses(b, p);
    assert b.producers[p := Cas(op, s.cursor)] == t.producers;
    ProducerStepIsStep(b, t, p);
    StepSteady(b, t);
    Then(s, s, a);
    Then(s, a, b);
    Then(s, b, t);
  }

  /**
   * And unless it only tries once it can go on until its claim has succeeded, with nobody claiming
   * in between.
   */
  lemma ClaimSucceeds(run: seq<State>, p: nat) returns (run': seq<State>)
    requires Run(run)
    requires var s := run[|run| - 1];
             && s.running && NoStop(s.log)
             && p < |s.producers| && s.producers[p].LoadGating? && !s.producers[p].op.mode.TryNext?
             && |s.producers[p].op.entries| <= |s.flags|
    ensures Run(run') && run <= run'
    ensures var s, t := run[|run| - 1], run'[|run'| - 1];
            t.log == s.log + s.producers[p].op.entries
  {
    var middle := WaitingEnds(run, p);
    var s := middle[|middle| - 1];
    RunSteady(middle, |middle| - 1);
    var t := StaleRetries(s, p);
    FreshClaim(t, p);
    var u := Claimed(t, p, t.producers[p].op);
    ProducerStepIsStep(t, u, p);
    Then(s, t, u);
    run' := RunGoesOn(middle, u);
  }

  /** Some sequence of the claim would take the slot of an earlier one that has not been freed. */
  ghost predicate TakesSlot(current: int, n: nat, size: nat, gating: int)
    requires HasSingleBit(size)
  {
    exists q: nat, r: nat :: current < q <= current + n && gating < r < q && Slot(q, size) == Slot(r, size)
  }

  lemma WrapTakesSlot(current: int, n: nat, size: nat, gating: int)
    requires HasSingleBit(size) && gating >= -1 && -1 <= current <= gating + size
    ensures WouldWrap(current, n, size, gating) <==> TakesSlot(current, n, size, gating)
  {
    if WouldWrap(current, n, size, gating) {
      var q := current + n;
      SlotPeriodic(q - size, size);
      assert Slot(q, size) == Slot(q - size, size);
    }
    if TakesSlot(current, n, size, gating) {
      var q: nat, r: nat :| current < q <= current + n && gating < r < q && Slot(q, size) == Slot(r, size);
      if q - r < size { SlotsDiffer(r, q, r, size); }
    }
  }

  /**
   The backpressure test is exact: a producer that tests in a run goes on to claim if and only if no
   sequence that it wants would take the slot of an earlier one that has not been freed.
   */
  lemma TestIsExact(run: seq<State>, i: nat, p: nat)
    requires Run(run) && i < |run| - 1 && p < |run[i].producers| && run[i].producers[p].LoadGating?
    requires Shape(run[i]) && ProducerStep(run[i], run[i + 1], p)
    ensures var s, pc := run[i], run[i].producers[p];
            run[i + 1] == Go(s, p, Cas(pc.op, pc.current)) <==>
            !TakesSlot(pc.current, |pc.op.entries|, |s.flags|, s.gating)
  {
    RunSteady(run, i);
    var s := run[i];
    assert WasCursor(s.producers[p], s.cursor) && ProducerShape(s.producers[p]);
    WrapTakesSlot(s.producers[p].current, |s.producers[p].op.entries|, |s.flags|, s.gating);
    assert Go(s, p, Cas(s.producers[p].op, s.producers[p].current)).producers[p].Cas?;
  }

  lemma RunThen(run: seq<State>, u: State)
    requires Run(run) && Step(run[|run| - 1], u)
    ensures Run(run + [u])
  {
    var run' := run + [u];
    forall i | 0 <= i < |run'| - 1 ensures StepAt(run', i) {
      if i < |run| - 1 { assert StepAt(run, i); }
    }
  }

  lemma ReadsCursor(s: State, p: nat) returns (t: State)
    requires Shape(s) && p < |s.producers| && s.producers[p].LoadCursor?
    ensures Step(s, t) && Shape(t) && t == Go(s, p, LoadGating(s.producers[p].op, s.cursor))
  {
    t := Go(s, p, LoadGating(s.producers[p].op, s.cursor));
    assert ProducerShape(s.producers[p]);
    ProducerStepIsStep(s, t, p);
    ShapeStep(s, t, p);
  }

  lemma PassesTest(s: State, p: nat) returns (t: State)
    requires Shape(s) && p < |s.producers| && s.producers[p].LoadGating?
    requires s.producers[p].current + |s.producers[p].op.entries| <= s.gating + |s.flags|
    ensures Step(s, t) && Shape(t) && t == Go(s, p, Cas(s.producers[p].op, s.producers[p].current))
  {
    t := Go(s, p, Cas(s.producers[p].op, s.producers[p].current));
    ProducerStepIsStep(s, t, p);
    ShapeStep(s, t, p);
  }

  lemma MakesClaim(s: State, p: nat)
    requires Shape(s) && p < |s.producers| && s.producers[p].Cas? && s.producers[p].current == s.cursor
    ensures Step(s, Claimed(s, p, s.producers[p].op))
  {
    ProducerStepIsStep(s, Claimed(s, p, s.producers[p].op), p);
  }

  lemma ClaimedIs(s: State, a: State, b: State, p: nat, op: Op)
    requires p < |s.producers| && s.cursor >= -1
    requires a == Go(s, p, LoadGating(op, s.cursor)) && b == Go(a, p, Cas(op, s.cursor))
    ensures Claimed(b, p, op) == Claimed(s, p, op)
  {
    assert s.producers[p := a.producers[p]][p := b.producers[p]] == s.producers[p := b.producers[p]];
    assert b.producers[p := Idle] == s.producers[p := Idle];
    assert b.producers[p := WriteText(op, s.cursor + 1, 0)] == s.producers[p := WriteText(op, s.cursor + 1, 0)];
  }

  /** Three steps of one producer, with nobody else in between. */
  lemma ClaimSteps(s: State, p: nat) returns (a: State, b: State, c: State)
    requires Shape(s) && p < |s.producers| && s.producers[p].LoadCursor?
    requires s.cursor + |s.producers[p].op.entries| <= s.gating + |s.flags|
    ensures Step(s, a) && Step(a, b) && Step(b, c)
    ensures c == Claimed(s, p, s.producers[p].op)
  {
    a := ReadsCursor(s, p);
    b := PassesTest(a, p);
    MakesClaim(b, p);
    ClaimedIs(s, a, b, p, s.producers[p].op);
    c := Claimed(b, p, s.producers[p].op);
  }

  /** Where there is room a claim, of whichever kind, can be made by the producer's own next three steps. */
  lemma RoomIsTaken(run: seq<State>, p: nat) returns (run': seq<State>)
    requires Run(run)
    requires var s := run[|run| - 1];
             && p < |s.producers| && s.producers[p].LoadCursor?
             && s.cursor + |s.producers[p].op.entries| <= s.gating + |s.flags|
    ensures Run(run') && run <= run' && |run'| == |run| + 3
    ensures run[|run| - 1].cursor >= -1
    ensures run'[|run'| - 1] == Claimed(run[|run| - 1], p, run[|run| - 1].producers[p].op)
  {
    RunSteady(run, |run| - 1);
    var a, b, c := ClaimSteps(run[|run| - 1], p);
    RunThen(run, a);
    RunThen(run + [a], b);
    RunThen(run + [a] + [b], c);
    run' := run + [a] + [b] + [c];
  }

  /** On its way to a claim of `op`. */
  predicate Claiming(pc: Producer, op: Op) {
    match pc
    case LoadCursor(o) => o == op
    case LoadGating(o, _) => o == op
    case Cas(o, _) => o == op
    case _ => false
  }

  lemma ClaimGoesOn(s: State, s': State, p: nat, op: Op)
    requires Shape(s) && p < |s.producers| == |s'.producers| && ProducerStep(s, s', p) && Claiming(s.producers[p], op)
    ensures Claiming(s'.producers[p], op) || s'.log == s.log + op.entries || (op.mode.TryNext? && s'.producers[p].Idle?)
    ensures s'.log == s.log || s'.log == s.log + op.entries
  {
  }

  lemma OthersKeep(s: State, s': State, p: nat)
    requires Shape(s) && p < |s.producers| && Step(s, s') && !ProducerStep(s, s', p)
    ensures p < |s'.producers| && s'.producers[p] == s.producers[p]
  {
    if r :| 0 <= r < |s.producers| && ProducerStep(s, s', r) { ProducersStep(s, s', r); } else { ConsumerLeaves(s, s'); }
  }

  /** Only try_next gives up: any other claim goes on until all that it is for has been claimed. */
  lemma OnlyTryNextGivesUp(run: seq<State>, i: nat, p: nat, op: Op)
    requires Run(run) && i < |run| - 1 && p < |run[i].producers| && Claiming(run[i].producers[p], op)
    ensures p < |run[i + 1].producers|
    ensures Claiming(run[i + 1].producers[p], op) || run[i + 1].log == run[i].log + op.entries ||
            (op.mode.TryNext? && run[i + 1].producers[p].Idle?)
  {
    RunSteady(run, i);
    assert StepAt(run, i);
    var s, s' := run[i], run[i + 1];
    if ProducerStep(s, s', p) {
      ProducersStep(s, s', p);
      ClaimGoesOn(s, s', p, op);
    } else {
      OthersKeep(s, s', p);
    }
  }

  /** The size matters: in no run is a claim made that is larger than the buffer. */
  lemma ClaimFits(run: seq<State>, i: nat)
    requires Run(run) && i < |run| - 1
    ensures |run[i + 1].log| - |run[i].log| <= |run[i].flags|
  {
    RunSteady(run, i);
    RunSteady(run, i + 1);
    assert StepAt(run, i);
    StepClaimFits(run[i], run[i + 1]);
  }

  lemma StepClaimFits(s: State, s': State)
    requires Inv(s) && Step(s, s')
    ensures |s'.log| - |s.log| <= |s.flags|
  {
    if p :| 0 <= p < |s.producers| && ProducerStep(s, s', p) {
      if s'.log != s.log {
        LogGrows(s, s', p);
        assert TestOk(s.producers[p], |s.flags|, s.gating);
      }
    } else {
      ConsumerLeaves(s, s');
    }
  }
}
