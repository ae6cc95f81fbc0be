/**
 * The dequeue protocol on machine words: the same steps as in module Overcommit, with every counter
 * and every value read from one wrapped, and the tests made with `circular_less_than`. As long as
 * each test compares values less than half a word apart, these are the steps on unbounded counters.
 */
module WordCounters {
  import opened BlockMath
  import opened Circular
  import Overcommit

  datatype Pc =
    | Idle
    | LoadTail(max: nat)
    | LoadOvercommit(max: nat, tail: nat)
    | LoadCount(max: nat, tail: nat, over: nat)
    | CountIn(over: nat, desired: nat)
    | Reload(over: nat, desired: nat, mine: nat)
    | GiveBack(amount: nat, granted: nat)
    | TakeHead(granted: nat)

  datatype Words = Words(tail: nat, head: nat, count: nat, overcommit: nat, pcs: seq<Pc>)

  /** What happens next: more elements, or a step of dequeuer `t`, for `max` elements if it begins. */
  datatype Action = Enqueue(n: nat) | Dequeue(t: nat, max: nat)

  function Go(w: Words, t: nat, pc: Pc): Words
    requires t < |w.pcs|
  {
    w.(pcs := w.pcs[t := pc])
  }

  /** `static_cast<size_t>(tail - (count - overcommit))`. */
  function Available(tail: nat, count: nat, over: nat, half: nat): nat
    requires half > 0
  {
    Wrap(tail - Wrap(count - over, 2 * half), 2 * half)
  }

  function DequeueStep(w: Words, t: nat, max: nat, half: nat): Words
    requires half > 0 && t < |w.pcs|
  {
    var word := 2 * half;
    match w.pcs[t]
    case Idle => Go(w, t, LoadTail(max))
    case LoadTail(m) => Go(w, t, LoadOvercommit(m, w.tail))
    case LoadOvercommit(m, tail) => Go(w, t, LoadCount(m, tail, w.overcommit))
    case LoadCount(m, tail, over) =>
      var available := Available(tail, w.count, over, half);
      Go(w, t, if CircularLess(0, available, half) then CountIn(over, Overcommit.Min(available, m)) else Idle)
    case CountIn(over, desired) =>
      Go(w, t, Reload(over, desired, w.count)).(count := Wrap(w.count + desired, word))
    case Reload(over, desired, mine) =>
      var available := Available(w.tail, mine, over, half);
      var granted := if CircularLess(0, available, half) then Overcommit.Min(desired, available) else 0;
      Go(w, t, if granted < desired then GiveBack(desired - granted, granted) else TakeHead(granted))
    case GiveBack(amount, granted) =>
      Go(w, t, if granted > 0 then TakeHead(granted) else Idle).(overcommit := Wrap(w.overcommit + amount, word))
    case TakeHead(granted) =>
      Go(w, t, Idle).(head := Wrap(w.head + granted, word))
  }

  predicate Enabled(threads: nat, a: Action) { a.Dequeue? ==> a.t < threads && a.max >= 1 }

  function Step(w: Words, a: Action, half: nat): Words
    requires half > 0 && Enabled(|w.pcs|, a)
  {
    match a
    case Enqueue(n) => w.(tail := Wrap(w.tail + n, 2 * half))
    case Dequeue(t, max) => DequeueStep(w, t, max, half)
  }

  // ---------------------------------------------------------------------------------------------
  // The unbounded counters behind them
  // ---------------------------------------------------------------------------------------------

  function ProjectPc(pc: Overcommit.Pc, half: nat): Pc
    requires half > 0
  {
    var word := 2 * half;
    match pc
    case Idle => Idle
    case LoadTail(max) => LoadTail(max)
    case LoadOvercommit(max, tail) => LoadOvercommit(max, Wrap(tail, word))
    case LoadCount(max, tail, over) => LoadCount(max, Wrap(tail, word), Wrap(over, word))
    case CountIn(over, desired) => CountIn(Wrap(over, word), desired)
    case Reload(over, desired, mine, _) => Reload(Wrap(over, word), desired, Wrap(mine, word))
    case GiveBack(amount, granted, _) => GiveBack(amount, granted)
    case TakeHead(granted, _) => TakeHead(granted)
  }

  function ProjectPcs(pcs: seq<Overcommit.Pc>, half: nat): seq<Pc>
    requires half > 0
  {
    seq(|pcs|, t requires 0 <= t < |pcs| => ProjectPc(pcs[t], half))
  }

  /** What of an unbounded state fits into words. */
  function Project(s: Overcommit.State, half: nat): Words
    requires half > 0
  {
    var word := 2 * half;
    Words(Wrap(s.tail, word), Wrap(s.head, word), Wrap(s.count, word), Wrap(s.overcommit, word), ProjectPcs(s.pcs, half))
  }

  /** The step of the unbounded protocol that the same action makes. */
  ghost predicate Lifts(s: Overcommit.State, s': Overcommit.State, a: Action)
    requires Enabled(|s.pcs|, a)
  {
    match a
    case Enqueue(n) => Overcommit.EnqueueStep(s, s', n)
    case Dequeue(t, max) =>
      && Overcommit.DequeueStep(s, s', t)
      && (s.pcs[t].Idle? ==> s' == Overcommit.Go(s, t, Overcommit.LoadTail(max)))
  }

  predicate Near(tail: nat, count: nat, over: nat, half: nat) { 0 - half < tail - (count - over) < half }

  /** A test that is about to be made compares values less than half a word apart. */
  predicate TestNear(s: Overcommit.State, a: Action, half: nat)
    requires Enabled(|s.pcs|, a)
  {
    a.Dequeue? ==>
      match s.pcs[a.t]
      case LoadCount(_, tail, over) => Near(tail, s.count, over, half)
      case Reload(over, _, mine, _) => Near(s.tail, mine, over, half)
      case _ => true
  }

  lemma AvailableAgrees(tail: nat, count: nat, over: nat, half: nat)
    requires half > 0 && Near(tail, count, over, half)
    ensures var word := 2 * half;
            var available := Available(Wrap(tail, word), Wrap(count, word), Wrap(over, word), half);
            && (CircularLess(0, available, half) <==> tail - (count - over) > 0)
            && (tail - (count - over) > 0 ==> available == tail - (count - over))
  {
    DequeueTestsAgree(tail, count, over, half);
  }

  lemma ProjectGo(s: Overcommit.State, t: nat, pc: Overcommit.Pc, half: nat)
    requires half > 0 && t < |s.pcs|
    ensures ProjectPcs(s.pcs[t := pc], half) == ProjectPcs(s.pcs, half)[t := ProjectPc(pc, half)]
    ensures ProjectPcs(s.pcs, half)[t] == ProjectPc(s.pcs[t], half)
  {
  }

  lemma CounterAdd(x: nat, d: nat, half: nat)
    requires half > 0
    ensures Wrap(Wrap(x, 2 * half) + d, 2 * half) == Wrap(x + d, 2 * half)
  {
    WrapAdd(x, d, 2 * half);
  }

  /** The steps that test nothing. */
  lemma CountersAgree(s: Overcommit.State, s': Overcommit.State, t: nat, max: nat, half: nat)
    requires half > 0 && t < |s.pcs| && max >= 1 && Lifts(s, s', Dequeue(t, max))
    requires !s.pcs[t].LoadCount? && !s.pcs[t].Reload?
    ensures Project(s', half) == DequeueStep(Project(s, half), t, max, half)
  {
    ProjectGo(s, t, s'.pcs[t], half);
    match s.pcs[t]
    case CountIn(_, desired) => CounterAdd(s.count, desired, half);
    case GiveBack(amount, _, _) => CounterAdd(s.overcommit, amount, half);
    case TakeHead(granted, _) => CounterAdd(s.head, granted, half);
    case _ =>
  }

  lemma FirstTestAgrees(s: Overcommit.State, s': Overcommit.State, t: nat, max: nat, half: nat)
    requires half > 0 && t < |s.pcs| && max >= 1 && Lifts(s, s', Dequeue(t, max)) && TestNear(s, Dequeue(t, max), half)
    requires s.pcs[t].LoadCount?
    ensures Project(s', half) == DequeueStep(Project(s, half), t, max, half)
  {
    ProjectGo(s, t, s'.pcs[t], half);
    AvailableAgrees(s.pcs[t].tail, s.count, s.pcs[t].over, half);
  }

  lemma SecondTestAgrees(s: Overcommit.State, s': Overcommit.State, t: nat, max: nat, half: nat)
    requires half > 0 && t < |s.pcs| && max >= 1 && Lifts(s, s', Dequeue(t, max)) && TestNear(s, Dequeue(t, max), half)
    requires s.pcs[t].Reload?
    ensures Project(s', half) == DequeueStep(Project(s, half), t, max, half)
  {
    ProjectGo(s, t, s'.pcs[t], half);
    AvailableAgrees(s.tail, s.pcs[t].mine, s.pcs[t].over, half);
  }

  lemma TestsAgree(s: Overcommit.State, s': Overcommit.State, t: nat, max: nat, half: nat)
    requires half > 0 && t < |s.pcs| && max >= 1 && Lifts(s, s', Dequeue(t, max)) && TestNear(s, Dequeue(t, max), half)
    requires s.pcs[t].LoadCount? || s.pcs[t].Reload?
    ensures Project(s', half) == DequeueStep(Project(s, half), t, max, half)
  {
    if s.pcs[t].LoadCount? { FirstTestAgrees(s, s', t, max, half); } else { SecondTestAgrees(s, s', t, max, half); }
  }

  /** One step: the words of the new state are what the step on words computes. */
  lemma StepAgrees(s: Overcommit.State, s': Overcommit.State, a: Action, half: nat)
    requires half > 0 && Enabled(|s.pcs|, a) && Lifts(s, s', a) && TestNear(s, a, half)
    ensures Project(s', half) == Step(Project(s, half), a, half)
  {
    match a
    case Enqueue(n) => CounterAdd(s.tail, n, half);
    case Dequeue(t, max) =>
      if s.pcs[t].LoadCount? || s.pcs[t].Reload? {
        TestsAgree(s, s', t, max, half);
      } else {
        CountersAgree(s, s', t, max, half);
      }
  }

  // ---------------------------------------------------------------------------------------------
  // Runs
  // ---------------------------------------------------------------------------------------------

  /** Step `i` of a sequence of word states is made by action `i`. */
  ghost predicate WordsAt(words: seq<Words>, actions: seq<Action>, half: nat, i: nat)
    requires half > 0 && |words| == |actions| + 1
  {
    i < |actions| ==> Enabled(|words[i].pcs|, actions[i]) && words[i + 1] == Step(words[i], actions[i], half)
  }

  ghost predicate LiftsAt(run: seq<Overcommit.State>, actions: seq<Action>, i: nat)
    requires |run| == |actions| + 1
  {
    i < |actions| ==> Enabled(|run[i].pcs|, actions[i]) && Lifts(run[i], run[i + 1], actions[i])
  }

  ghost predicate LiftedRun(run: seq<Overcommit.State>, actions: seq<Action>) {
    |run| == |actions| + 1 && forall i: nat :: i < |actions| ==> LiftsAt(run, actions, i)
  }

  ghost predicate NearAt(run: seq<Overcommit.State>, actions: seq<Action>, half: nat, i: nat)
    requires |run| == |actions| + 1
  {
    i < |actions| && Enabled(|run[i].pcs|, actions[i]) ==> TestNear(run[i], actions[i], half)
  }

  /** The unbounded protocol can always make the step. */
  lemma LiftExists(s: Overcommit.State, a: Action) returns (s': Overcommit.State)
    requires Enabled(|s.pcs|, a)
    ensures Lifts(s, s', a) && |s'.pcs| == |s.pcs|
  {
    match a
    case Enqueue(n) => s' := s.(tail := s.tail + n);
    case Dequeue(t, max) =>
      if s.pcs[t].Idle? {
        s' := Overcommit.Go(s, t, Overcommit.LoadTail(max));
      } else {
        s' := Overcommit.DequeueGoes(s, t);
      }
  }

  lemma {:induction false} RunLifts(s0: Overcommit.State, actions: seq<Action>) returns (run: seq<Overcommit.State>)
    requires forall i :: 0 <= i < |actions| ==> Enabled(|s0.pcs|, actions[i])
    ensures LiftedRun(run, actions) && run[0] == s0 && |run[|actions|].pcs| == |s0.pcs|
    decreases |actions|
  {
    if actions == [] {
      run := [s0];
    } else {
      var n := |actions| - 1;
      var before := RunLifts(s0, actions[..n]);
      var s' := LiftExists(before[n], actions[n]);
      run := before + [s'];
      forall i: nat | i < |actions| ensures LiftsAt(run, actions, i) {
        if i < n { assert LiftsAt(before, actions[..n], i); }
      }
    }
  }

  lemma LiftIsStep(s: Overcommit.State, s': Overcommit.State, a: Action)
    requires Enabled(|s.pcs|, a) && Lifts(s, s', a)
    ensures Overcommit.Step(s, s')
  {
  }

  lemma LiftedIsRun(run: seq<Overcommit.State>, actions: seq<Action>)
    requires LiftedRun(run, actions) && Overcommit.Init(run[0])
    ensures Overcommit.Run(run)
  {
    forall i | 0 <= i < |run| - 1 ensures Overcommit.StepAt(run, i) {
      assert LiftsAt(run, actions, i);
      LiftIsStep(run[i], run[i + 1], actions[i]);
    }
  }

  lemma {:induction false} WordsFollow(
      words: seq<Words>, run: seq<Overcommit.State>, actions: seq<Action>, half: nat, i: nat)
    requires half > 0 && |words| == |actions| + 1 && LiftedRun(run, actions) && i <= |actions|
    requires words[0] == Project(run[0], half)
    requires forall k: nat :: k < |actions| ==> WordsAt(words, actions, half, k)
    requires forall k: nat :: k < i ==> NearAt(run, actions, half, k)
    ensures words[i] == Project(run[i], half)
    decreases i
  {
    if i > 0 {
      WordsFollow(words, run, actions, half, i - 1);
      assert WordsAt(words, actions, half, i - 1) && LiftsAt(run, actions, i - 1) && NearAt(run, actions, half, i - 1);
      StepAgrees(run[i - 1], run[i], actions[i - 1], half);
    }
  }

  /**
   * Simulation: behind every run on words there is a run of the unbounded protocol that makes the
   * same actions, and up to the first test that compares values half a word or more apart the words
   * are those of its states.
   */
  lemma WordsSimulate(words: seq<Words>, actions: seq<Action>, s0: Overcommit.State, half: nat)
      returns (run: seq<Overcommit.State>)
    requires half > 0 && |words| == |actions| + 1 && Overcommit.Init(s0) && words[0] == Project(s0, half)
    requires forall i :: 0 <= i < |actions| ==> Enabled(|s0.pcs|, actions[i])
    requires forall k: nat :: k < |actions| ==> WordsAt(words, actions, half, k)
    ensures Overcommit.Run(run) && LiftedRun(run, actions) && run[0] == s0
    ensures forall i: nat :: i <= |actions| && (forall k: nat :: k < i ==> NearAt(run, actions, half, k)) ==>
              words[i] == Project(run[i], half)
  {
    run := RunLifts(s0, actions);
    LiftedIsRun(run, actions);
    forall i: nat | i <= |actions| && (forall k: nat :: k < i ==> NearAt(run, actions, half, k))
      ensures words[i] == Project(run[i], half)
    {
      WordsFollow(words, run, actions, half, i);
    }
  }
}
