/**
 * Shutdown: what a caller that comes back from it may rely on, and that it does come back.
 */
module DisruptorShutdown {
  import opened Bits
  import opened Disruptor
  import opened DisruptorRuns
  import opened DisruptorProgress

  /** Somewhere in Logger::shutdown. */
  predicate InShutdown(pc: Producer) {
    match pc
    case LoadCursor(op) => op.mode.Shutdown?
    case LoadGating(op, _) => op.mode.Shutdown?
    case Cas(op, _) => op.mode.Shutdown?
    case WriteText(op, _, _) => op.mode.Shutdown?
    case WriteStop(op, _, _) => op.mode.Shutdown?
    case Publish(op, _, _) => op.mode.Shutdown?
    case Join => true
    case PostFlush(_) => true
    case Idle => false
  }

  // ---------------------------------------------------------------------------------------------
  // Every strand is flushed last
  // ---------------------------------------------------------------------------------------------

  /** A flush posted by shutdown, with no batch after it. */
  ghost predicate FlushedLast(strand: seq<Work>) {
    exists a :: 0 <= a < |strand| && strand[a] == FinalFlush && forall b :: a < b < |strand| ==> !strand[b].ProcessBatch?
  }

  /** The strands that a shutdown has come past have got its flush. */
  ghost predicate PostedOk(pc: Producer, strands: seq<seq<Work>>) {
    pc.PostFlush? ==> forall k :: 0 <= k < pc.sink && k < |strands| ==> FinalFlush in strands[k]
  }

  ghost predicate Posted(s: State) {
    forall p :: 0 <= p < |s.producers| ==> PostedOk(s.producers[p], s.strands)
  }

  /** Strands are only added to. */
  ghost predicate StrandsKeep(s: State, s': State) {
    |s'.strands| == |s.strands| && forall k :: 0 <= k < |s.strands| ==> s.strands[k] <= s'.strands[k]
  }

  lemma PostedKept(pc: Producer, s: State, s': State)
    requires PostedOk(pc, s.strands) && StrandsKeep(s, s')
    ensures PostedOk(pc, s'.strands)
  {
    if pc.PostFlush? {
      forall k | 0 <= k < pc.sink && k < |s'.strands| ensures FinalFlush in s'.strands[k] {
        var a :| 0 <= a < |s.strands[k]| && s.strands[k][a] == FinalFlush;
        assert s'.strands[k][a] == FinalFlush;
      }
    }
  }

  lemma ProducerStrands(s: State, s': State, p: nat)
    requires Shape(s) && p < |s.producers| && ProducerStep(s, s', p)
    ensures StrandsKeep(s, s')
  {
    StrandsGrow(s, s', p);
  }

  lemma ConsumerStrands(s: State, s': State)
    requires Shape(s) && ConsumerStep(s, s')
    ensures StrandsKeep(s, s')
  {
  }

  lemma OwnPosted(s: State, s': State, p: nat)
    requires Shape(s) && p < |s.producers| == |s'.producers| && ProducerStep(s, s', p) && PostedOk(s.producers[p], s.strands)
    ensures PostedOk(s'.producers[p], s'.strands)
  {
    if s.producers[p].PostFlush? && s.producers[p].sink < |s.strands| {
      var i := s.producers[p].sink;
      ProducerStrands(s, s', p);
      PostedKept(s.producers[p], s, s');
      assert s'.strands[i] == s.strands[i] + [FinalFlush];
    }
  }

  lemma PostedStep(s: State, s': State)
    requires Posted(s) && Step(s, s')
    ensures Posted(s')
  {
    if p :| 0 <= p < |s.producers| && ProducerStep(s, s', p) {
      ProducersStep(s, s', p);
      ProducerStrands(s, s', p);
      forall r | 0 <= r < |s'.producers| ensures PostedOk(s'.producers[r], s'.strands) {
        if r == p { OwnPosted(s, s', p); } else { PostedKept(s.producers[r], s, s'); }
      }
    } else {
      ConsumerStrands(s, s');
      ConsumerLeaves(s, s');
      forall r | 0 <= r < |s'.producers| ensures PostedOk(s'.producers[r], s'.strands) { PostedKept(s.producers[r], s, s'); }
    }
  }

  lemma {:induction false} RunPosted(run: seq<State>, i: nat)
    requires Run(run) && i < |run|
    ensures Posted(run[i])
    decreases i
  {
    if i > 0 {
      RunPosted(run, i - 1);
      assert StepAt(run, i - 1);
      PostedStep(run[i - 1], run[i]);
    }
  }

  /** The only way out of shutdown is after the flush has been posted to every strand. */
  lemma ShutdownLeaves(s: State, s': State, p: nat)
    requires Inv(s) && Posted(s) && Step(s, s') && p < |s.producers| == |s'.producers|
    requires InShutdown(s.producers[p]) && s'.producers[p].Idle?
    ensures s.producers[p].PostFlush? && s'.strands == s.strands && s.consumer.Done? && s'.consumer.Done?
    ensures forall k :: 0 <= k < |s.strands| ==> FinalFlush in s.strands[k]
  {
    assert ProducerShape(s.producers[p]) && PostedOk(s.producers[p], s.strands);
    if r :| 0 <= r < |s.producers| && ProducerStep(s, s', r) {
      ProducersStep(s, s', r);
      assert r == p;
    } else {
      ConsumerLeaves(s, s');
      assert false;
    }
  }

  /**
   When a caller comes back from shutdown, the consumer has exited, every strand has been given the
   messages claimed before the first signal, each once and in claim order, and after its last batch
   a flush.
   */
  lemma ShutdownFlushes(run: seq<State>, i: nat, p: nat) returns (signal: nat)
    requires Run(run) && i < |run| - 1 && p < |run[i].producers| == |run[i + 1].producers|
    requires InShutdown(run[i].producers[p]) && run[i + 1].producers[p].Idle?
    ensures var s := run[i + 1];
      && s.consumer.Done? && signal < |s.log| && s.log[signal].Stop? && NoStop(s.log[..signal])
      && forall k :: 0 <= k < |s.strands| ==> Delivered(s.strands[k]) == Texts(s.log[..signal]) && FlushedLast(s.strands[k])
  {
    RunInv(run, i);
    RunPosted(run, i);
    assert StepAt(run, i);
    ShutdownLeaves(run[i], run[i + 1], p);
    signal := EndToEndDelivery(run, i + 1);
    var s := run[i + 1];
    forall k | 0 <= k < |s.strands| ensures FlushedLast(s.strands[k]) {
      assert FlushLast(s.strands[k], true);
      var a :| 0 <= a < |s.strands[k]| && s.strands[k][a] == FinalFlush;
    }
  }

  // ---------------------------------------------------------------------------------------------
  // The consumer exits
  // ---------------------------------------------------------------------------------------------

  ghost predicate AllPublished(s: State) { forall q :: 0 <= q < |s.published| ==> s.published[q] }

  lemma {:induction false} ConsumerGoesHome(s: State) returns (t: State)
    requires Steady(s)
    ensures Reaches(s, t) && Steady(t) && SameProducers(s, t) && s.nextSeq <= t.nextSeq
    ensures t.consumer.Head? || t.consumer.Done?
    decreases Away(s)
  {
    ReachesSelf(s);
    if s.consumer.Head? || s.consumer.Done? {
      t := s;
    } else {
      var s' := ConsumerEnabled(s);
      ConsumerStepIsStep(s, s');
      StepSteady(s, s');
      ConsumerLeaves(s, s');
      NearerHome(s, s');
      t := ConsumerGoesHome(s');
      Then(s, s, s');
      ReachesTrans(s, s', t);
    }
  }

  lemma ConsumerStops(s: State) returns (t: State)
    requires Steady(s) && s.consumer.Head? && !s.running
    ensures Reaches(s, t) && Steady(t) && SameProducers(s, t) && t.consumer.Done?
  {
    t := s.(consumer := Done);
    ConsumerStepIsStep(s, t);
    StepSteady(s, t);
    ReachesSelf(s);
    Then(s, s, t);
  }

  /** While it runs it has not come to the signal, so there is something for it to consume. */
  lemma SignalAhead(s: State)
    requires Inv(s) && s.consumer.Head? && s.running && !NoStop(s.log)
    ensures s.gating < s.cursor
  {
    assert s.log[..|s.log|] == s.log;
  }

  /** One iteration, if there is something to consume. */
  lemma ConsumerIterates(s: State) returns (t: State)
    requires Steady(s) && AllPublished(s) && s.consumer.Head? && s.running && s.gating < s.cursor
    ensures Reaches(s, t) && Steady(t) && SameProducers(s, t) && s.nextSeq < t.nextSeq
  {
    var u := IterationBegins(s);
    t := IterationDrains(u, s.cursor);
    ReachesTrans(s, u, t);
  }

  /** With everything published and a signal in the log the consumer, on its own, comes to its end. */
  lemma {:induction false} ConsumerExits(s: State) returns (t: State)
    requires Steady(s) && AllPublished(s) && !NoStop(s.log)
    ensures Reaches(s, t) && Steady(t) && SameProducers(s, t) && t.consumer.Done?
    decreases |s.log| - s.nextSeq
  {
    var home := ConsumerGoesHome(s);
    if home.consumer.Done? {
      t := home;
    } else if !home.running {
      t := ConsumerStops(home);
      ReachesTrans(s, home, t);
    } else {
      SignalAhead(home);
      var next := ConsumerIterates(home);
      t := ConsumerExits(next);
      ReachesTrans(s, home, next);
      ReachesTrans(s, next, t);
    }
  }

  // ---------------------------------------------------------------------------------------------
  // Shutdown returns
  // ---------------------------------------------------------------------------------------------

  /** A shutdown whose signal is in the log. */
  ghost predicate Signalled(s: State) {
    forall p :: 0 <= p < |s.producers| && (s.producers[p].Join? || s.producers[p].PostFlush?) ==> !NoStop(s.log)
  }

  lemma HolderSignalled(s: State, p: nat)
    requires Inv(s) && p < |s.producers| && Holding(s.producers[p]) && s.producers[p].op.mode.Shutdown?
    ensures !NoStop(s.log)
  {
    var pc := s.producers[p];
    assert ClaimOk(pc, s.log, s.published) && ProducerShape(pc);
    assert s.log[pc.first..pc.first + |pc.op.entries|][0] == s.log[pc.first];
  }

  lemma StopStays(log: seq<Entry>, more: seq<Entry>)
    requires !NoStop(log)
    ensures !NoStop(log + more)
  {
    var q :| 0 <= q < |log| && log[q].Stop?;
    assert (log + more)[q].Stop?;
  }

  lemma OwnSignalled(s: State, s': State, p: nat)
    requires Inv(s) && Signalled(s) && p < |s.producers| == |s'.producers| && ProducerStep(s, s', p)
    requires s'.producers[p].Join? || s'.producers[p].PostFlush?
    ensures !NoStop(s'.log)
  {
    assert ProducerShape(s.producers[p]);
    if Holding(s.producers[p]) { HolderSignalled(s, p); }
    var more := ProducerFrame(s, s', p);
    StopStays(s.log, more);
  }

  lemma SignalledStep(s: State, s': State)
    requires Inv(s) && Signalled(s) && Step(s, s')
    ensures Signalled(s')
  {
    if p :| 0 <= p < |s.producers| && ProducerStep(s, s', p) {
      ProducersStep(s, s', p);
      forall r | 0 <= r < |s'.producers| && (s'.producers[r].Join? || s'.producers[r].PostFlush?) ensures !NoStop(s'.log) {
        if r == p {
          OwnSignalled(s, s', p);
        } else {
          var more := ProducerFrame(s, s', p);
          StopStays(s.log, more);
        }
      }
    } else {
      ConsumerLeaves(s, s');
    }
  }

  lemma {:induction false} RunSignalled(run: seq<State>, i: nat)
    requires Run(run) && i < |run|
    ensures Signalled(run[i])
    decreases i
  {
    if i > 0 {
      RunSignalled(run, i - 1);
      RunInv(run, i - 1);
      assert StepAt(run, i - 1);
      SignalledStep(run[i - 1], run[i]);
    }
  }

  /** The flush is posted to the strands that are left, and shutdown returns. */
  lemma {:induction false} FlushesPosted(s: State, p: nat) returns (t: State, u: State)
    requires Steady(s) && p < |s.producers| && s.producers[p].PostFlush?
    ensures Reaches(s, t) && Step(t, u) && |t.producers| == |u.producers| == |s.producers|
    ensures t.producers[p].PostFlush? && u.producers[p].Idle?
    decreases if s.producers[p].sink < |s.strands| then |s.strands| - s.producers[p].sink else 0
  {
    var i := s.producers[p].sink;
    ReachesSelf(s);
    if i < |s.strands| {
      var s' := Go(s, p, PostFlush(i + 1)).(strands := s.strands[i := s.strands[i] + [FinalFlush]]);
      ProducerStepIsStep(s, s', p);
      StepSteady(s, s');
      Then(s, s, s');
      t, u := FlushesPosted(s', p);
      ReachesTrans(s, s', t);
    } else {
      t, u := s, Go(s, p, Idle);
      ProducerStepIsStep(t, u, p);
    }
  }

  /** From the wait for the consumer, once it has exited. */
  lemma JoinReturns(s: State, p: nat) returns (t: State, u: State)
    requires Steady(s) && p < |s.producers| && s.consumer.Done? && (s.producers[p].Join? || s.producers[p].PostFlush?)
    ensures Reaches(s, t) && Step(t, u) && |t.producers| == |u.producers| == |s.producers|
    ensures t.producers[p].PostFlush? && u.producers[p].Idle?
  {
    if s.producers[p].Join? {
      var s' := Go(s, p, PostFlush(0));
      ProducerStepIsStep(s, s', p);
      StepSteady(s, s');
      ReachesSelf(s);
      Then(s, s, s');
      t, u := FlushesPosted(s', p);
      ReachesTrans(s, s', t);
    } else {
      t, u := FlushesPosted(s, p);
    }
  }

  /** Own signal published, everybody else's claims too, consumer gone. */
  lemma ShutdownDrains(s: State, p: nat) returns (t: State)
    requires Steady(s) && Signalled(s) && p < |s.producers| && InShutdown(s.producers[p])
    requires Holding(s.producers[p]) || s.producers[p].Join? || s.producers[p].PostFlush?
    ensures Reaches(s, t) && Steady(t) && t.consumer.Done? && |t.producers| == |s.producers|
    ensures t.producers[p].Join? || t.producers[p].PostFlush?
  {
    if Holding(s.producers[p]) { HolderSignalled(s, p); }
    var a := HolderFinishes(s, p);
    var b := HoldersFinish(a, |a.producers|);
    NobodyHolds(b);
    t := ConsumerExits(b);
    ReachesTrans(s, a, b);
    ReachesTrans(s, b, t);
  }

  lemma RunGoesOnTo(run: seq<State>, t: State, u: State) returns (run': seq<State>)
    requires Run(run) && Reaches(run[|run| - 1], t) && Step(t, u)
    ensures Run(run') && run <= run' && |run'| >= 2 && run'[|run'| - 2] == t && run'[|run'| - 1] == u
  {
    var most := RunGoesOn(run, t);
    RunThen(most, u);
    run' := most + [u];
  }

  lemma ShutdownPath(s: State, p: nat) returns (t: State, u: State)
    requires Steady(s) && Signalled(s) && p < |s.producers| && InShutdown(s.producers[p])
    requires Holding(s.producers[p]) || s.producers[p].Join? || s.producers[p].PostFlush?
    ensures Reaches(s, t) && Step(t, u) && p < |t.producers| == |u.producers|
    ensures InShutdown(t.producers[p]) && u.producers[p].Idle?
  {
    var a := ShutdownDrains(s, p);
    t, u := JoinReturns(a, p);
    ReachesTrans(s, a, t);
  }

  /**
   Shutdown can always come back: from every reached state in which its signal has been claimed the
   run can go on, whatever else has been claimed, until the caller returns.
   */
  lemma ShutdownReturns(run: seq<State>, p: nat) returns (run': seq<State>)
    requires Run(run)
    requires var s := run[|run| - 1];
      && p < |s.producers| && InShutdown(s.producers[p])
      && (Holding(s.producers[p]) || s.producers[p].Join? || s.producers[p].PostFlush?)
    ensures Run(run') && run <= run' && |run'| >= 2
    ensures var s, t := run'[|run'| - 2], run'[|run'| - 1];
      && p < |s.producers| == |t.producers| && InShutdown(s.producers[p]) && t.producers[p].Idle?
  {
    RunSteady(run, |run| - 1);
    RunSignalled(run, |run| - 1);
    var t, u := ShutdownPath(run[|run| - 1], p);
    run' := RunGoesOnTo(run, t, u);
  }
}
