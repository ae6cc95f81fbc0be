/**
 * Runs of the thread pool: what holds in every one of them, and the run that loses a task whenever
 * the pool may grow beyond its minimum.
 */
module ThreadPoolRuns {
  import Paths
  import opened ThreadPool

  ghost predicate Next(c: Config, s: State, s': State) { exists a: Action :: Step(c, s, s', a) }

  ghost function Nexts(c: Config): (State, State) -> bool { (s, s') => Next(c, s, s') }

  ghost predicate Path(c: Config, run: seq<State>) { Paths.Path(Nexts(c), run) }

  ghost predicate Run(c: Config, run: seq<State>) {
    ConfigOk(c) && Path(c, run) && run[0] == Init(c)
  }

  lemma {:induction false} CountEvery(kind: Kind, ws: seq<Worker>)
    requires forall i :: 0 <= i < |ws| ==> Is(kind, ws[i])
    ensures Count(kind, ws) == |ws|
    decreases |ws|
  {
    if ws != [] { CountEvery(kind, ws[..|ws| - 1]); }
  }

  lemma {:induction false} CountNone(kind: Kind, ws: seq<Worker>)
    requires forall i :: 0 <= i < |ws| ==> !Is(kind, ws[i])
    ensures Count(kind, ws) == 0
    decreases |ws|
  {
    if ws != [] { CountNone(kind, ws[..|ws| - 1]); }
  }

  lemma InitInv(c: Config)
    requires ConfigOk(c)
    ensures Inv(c, Init(c))
  {
    CountEvery(InList, Init(c).workers);
    CountNone(Active, Init(c).workers);
  }

  lemma {:induction false} RunInv(c: Config, run: seq<State>, i: nat)
    requires Run(c, run) && i < |run|
    ensures Inv(c, run[i])
    decreases i
  {
    if i == 0 {
      InitInv(c);
    } else {
      RunInv(c, run, i - 1);
      assert Paths.LinkAt(Nexts(c), run, i - 1);
      var a: Action :| Step(c, run[i - 1], run[i], a);
      StepInv(c, run[i - 1], run[i], a);
    }
  }

  /**
   * In every state of every run the list has at most the maximum of workers, and the difference that
   * enqueue is about to take, with the reads in either order, is not negative.
   */
  lemma ListBounded(c: Config, run: seq<State>, i: nat)
    requires Run(c, run) && i < |run|
    ensures Size(run[i]) <= c.maxThreads
    ensures 0 <= run[i].active <= Size(run[i])
    ensures run[i].holder.HaveSize? ==> run[i].active <= run[i].holder.size
    ensures run[i].holder.HaveActive? ==> run[i].holder.active <= Size(run[i])
  {
    RunInv(c, run, i);
    Ordered(run[i].workers);
  }

  predicate NoDuplicates(s: seq<nat>) { forall j, k :: 0 <= j < k < |s| ==> s[j] != s[k] }

  /** Every accepted task has been executed, and none more than once. */
  ghost predicate AllExecuted(s: State) {
    NoDuplicates(s.executions) && forall t :: t in s.executions <==> 0 <= t < |s.places|
  }

  /** At no time has a task been executed twice, or without having been accepted. */
  lemma AtMostOnce(c: Config, run: seq<State>, i: nat)
    requires Run(c, run) && i < |run|
    ensures NoDuplicates(run[i].executions)
    ensures forall t :: t in run[i].executions ==> 0 <= t < |run[i].places|
  {
    RunInv(c, run, i);
  }

  predicate EveryoneLeftIdle(s: State) {
    forall w :: 0 <= w < |s.workers| ==> LeftIdle(s.workers[w])
  }

  /**
   * When shutdown returns, a task that has not been executed is still in the queue, and then every
   * worker there ever was has left for want of work.
   */
  lemma ReturnAccounts(c: Config, run: seq<State>, i: nat)
    requires Run(c, run) && i < |run| && run[i].shutdown.Returned?
    ensures forall t :: 0 <= t < |run[i].places| ==> t in run[i].executions || t in run[i].tasks
    ensures AllExecuted(run[i]) || EveryoneLeftIdle(run[i])
  {
    RunInv(c, run, i);
    var s := run[i];
    assert AllGone(s.workers);
    forall t | 0 <= t < |s.places| ensures t in s.executions || t in s.tasks {
      assert s.places[t] == Queued || s.places[t] == Finished;
    }
    if !EveryoneLeftIdle(s) {
      var w :| 0 <= w < |s.workers| && !LeftIdle(s.workers[w]);
      assert s.workers[w].pc == Gone(false);
      assert s.tasks == [];
    }
  }

  /** A pool of fixed size has executed every accepted task exactly once when shutdown returns. */
  lemma FixedPoolDrains(c: Config, run: seq<State>, i: nat)
    requires Run(c, run) && i < |run| && run[i].shutdown.Returned? && c.minThreads == c.maxThreads
    ensures AllExecuted(run[i])
  {
    RunInv(c, run, i);
    ReturnAccounts(c, run, i);
    assert !LeftIdle(run[i].workers[0]);
  }

  // ---------------------------------------------------------------------------------------------
  // Building a run
  // ---------------------------------------------------------------------------------------------

  ghost predicate Reaches(c: Config, s: State, t: State) { Paths.Reaches(Nexts(c), s, t) }

  lemma ReachesSelf(c: Config, s: State)
    ensures Reaches(c, s, s)
  {
    Paths.ReachesSelf(Nexts(c), s);
  }

  /** From `s` to `t`, one action more, to `u`. */
  lemma Then(c: Config, s: State, t: State, u: State, a: Action)
    requires Reaches(c, s, t) && Step(c, t, u, a)
    ensures Reaches(c, s, u)
  {
    Paths.Then(Nexts(c), s, t, u);
  }

  lemma ReachesTrans(c: Config, s: State, t: State, u: State)
    requires Reaches(c, s, t) && Reaches(c, t, u)
    ensures Reaches(c, s, u)
  {
    Paths.ReachesTrans(Nexts(c), s, t, u);
  }

  /** enqueue when nobody is invalid and somebody seems free, or the list is full: the task is queued. */
  predicate EnqueueSkips(c: Config, s: State) {
    && s.holder.Free? && !s.stop && Count(Invalid, s.workers) == 0
    && (Size(s) == c.maxThreads || Size(s) != s.active)
  }

  function WithTask(s: State): State {
    s.(tasks := s.tasks + [|s.places|], priorities := s.priorities + [0], places := s.places + [Queued])
  }

  lemma EnqueueSkipping(c: Config, s: State)
    requires EnqueueSkips(c, s)
    ensures Reaches(c, s, WithTask(s))
  {
    var t := WithTask(s);
    ReachesSelf(c, s);
    Then(c, s, s, t.(holder := Counting), Pushes(0));
    Then(c, s, t.(holder := Counting), t.(holder := CheckFull), Counts);
    if Size(s) == c.maxThreads {
      Then(c, s, t.(holder := CheckFull), t, ChecksFull);
    } else {
      Then(c, s, t.(holder := CheckFull), t.(holder := ReadFirst), ChecksFull);
      Then(c, s, t.(holder := ReadFirst), t.(holder := HaveSize(Size(s))), ReadsFirst);
      Then(c, s, t.(holder := HaveSize(Size(s))), t, ReadsSecond);
    }
  }

  function WithWorker(s: State): State { s.(workers := s.workers + [Worker(true, true, Born)]) }

  lemma EnqueueCreating(c: Config, s: State)
    requires s.holder.Free? && !s.stop && Count(Invalid, s.workers) == 0
    requires Size(s) != c.maxThreads && Size(s) == s.active
    ensures Reaches(c, s, WithWorker(WithTask(s)))
  {
    var t := WithTask(s);
    ReachesSelf(c, s);
    Then(c, s, s, t.(holder := Counting), Pushes(0));
    Then(c, s, t.(holder := Counting), t.(holder := CheckFull), Counts);
    Then(c, s, t.(holder := CheckFull), t.(holder := ReadFirst), ChecksFull);
    Then(c, s, t.(holder := ReadFirst), t.(holder := HaveSize(Size(s))), ReadsFirst);
    Then(c, s, t.(holder := HaveSize(Size(s))), t.(holder := Creating), ReadsSecond);
    Then(c, s, t.(holder := Creating), WithWorker(t), Creates);
  }

  /** A new worker starts, takes the only task and begins to execute it. */
  lemma WorkerPicks(c: Config, s: State, w: nat, t: nat)
    requires w < |s.workers| && s.workers[w].pc.Born? && s.holder.Free? && s.tasks == [t] && t < |s.places|
    ensures Reaches(c, s, s.(workers := s.workers[w := s.workers[w].(valid := true, pc := Executing(t))],
                             tasks := [], active := s.active + 1, places := s.places[t := HeldBy(w)]))
  {
    var x := s.workers[w].(valid := true);
    var s1 := s.(workers := s.workers[w := x.(pc := Waiting)]);
    var s2 := s.(workers := s.workers[w := x.(pc := Taken(t))], tasks := [], places := s.places[t := HeldBy(w)]);
    var s3 := s.(workers := s.workers[w := x.(pc := Executing(t))], tasks := [], active := s.active + 1,
                 places := s.places[t := HeldBy(w)]);
    ReachesSelf(c, s);
    Then(c, s, s, s1, Starts(w));
    assert Remove([t], 0) == [] && IsTop(s1, 0);
    assert s1.workers[w := s1.workers[w].(pc := Taken(t))] == s2.workers;
    Then(c, s, s1, s2, Takes(w, 0));
    assert s2.workers[w := s2.workers[w].(pc := Executing(t))] == s3.workers;
    Then(c, s, s2, s3, Activates(w));
  }

  // ---------------------------------------------------------------------------------------------
  // The run that loses a task
  // ---------------------------------------------------------------------------------------------

  /** How far worker number `i` has come with task number `i`. */
  datatype Stage = ToStart | AtWork | AtRest | OnItsWay | Ended

  function At(stage: Stage, i: nat): Worker {
    match stage
    case ToStart => Worker(true, true, Born)
    case AtWork => Worker(true, true, Executing(i))
    case AtRest => Worker(true, true, Waiting)
    case OnItsWay => Worker(true, true, Leaving(true))
    case Ended => Worker(true, false, Gone(true))
  }

  /** Of `n` workers, the first `k` have got to the stage `b`, the others are still at `a`. */
  function Team(n: nat, k: nat, a: Stage, b: Stage): seq<Worker> {
    seq(n, i requires 0 <= i < n => At(if i < k then b else a, i))
  }

  function Ids(n: nat): seq<nat> { seq(n, i requires 0 <= i < n => i) }

  function Zeros(n: nat): seq<nat> { seq(n, i => 0) }

  /** Of `n` tasks, each for the worker of its number, the first `k` are finished. */
  function Served(n: nat, k: nat): seq<Place> {
    seq(n, i requires 0 <= i < n => if i < k then Finished else HeldBy(i))
  }

  lemma TeamCounts(n: nat, k: nat, a: Stage, b: Stage)
    requires k <= n
    ensures Count(InList, Team(n, k, a, b)) == n
    ensures a != Ended && b != Ended ==> Count(Invalid, Team(n, k, a, b)) == 0
  {
    var ws := Team(n, k, a, b);
    forall i | 0 <= i < n ensures ws[i].inList && (a != Ended && b != Ended ==> ws[i].valid) {
      assert ws[i] == At(if i < k then b else a, i);
    }
    CountEvery(InList, ws);
    if a != Ended && b != Ended { CountNone(Invalid, ws); }
  }

  lemma TeamNext(n: nat, k: nat, a: Stage, b: Stage)
    requires k < n
    ensures Team(n, k, a, b)[k] == At(a, k)
    ensures Team(n, k, a, b)[k := At(b, k)] == Team(n, k + 1, a, b)
  {
  }

  /** `k` tasks have come in one by one and a worker of its own has begun on each. */
  function Busy(c: Config, k: nat): State {
    Init(c).(workers := Team(c.minThreads, k, ToStart, AtWork), priorities := Zeros(k), active := k,
             places := Served(k, 0))
  }

  lemma TeamBegins(c: Config)
    ensures Busy(c, 0) == Init(c)
  {
    var a, b := Busy(c, 0).workers, Init(c).workers;
    forall i | 0 <= i < c.minThreads ensures a[i] == b[i] { assert a[i] == At(ToStart, i); }
    assert a == b;
  }

  lemma TeamGrows(m: nat)
    ensures (Team(m, m, ToStart, AtWork) + [Worker(true, true, Born)])[m := At(AtWork, m)] == Team(m + 1, 0, AtWork, AtRest)
  {
    var a := (Team(m, m, ToStart, AtWork) + [Worker(true, true, Born)])[m := At(AtWork, m)];
    var b := Team(m + 1, 0, AtWork, AtRest);
    forall i | 0 <= i < m + 1 ensures a[i] == b[i] { assert b[i] == At(AtWork, i); }
    assert a == b;
  }

  lemma OneMoreBusy(c: Config, k: nat)
    requires ConfigOk(c) && c.minThreads < c.maxThreads && k < c.minThreads
    ensures Reaches(c, Busy(c, k), Busy(c, k + 1))
  {
    var s := Busy(c, k);
    var t := WithTask(s);
    TeamCounts(c.minThreads, k, ToStart, AtWork);
    EnqueueSkipping(c, s);
    TeamNext(c.minThreads, k, ToStart, AtWork);
    assert t.tasks == [k] && t.priorities == Zeros(k + 1);
    WorkerPicks(c, t, k, k);
    assert t.places[k := HeldBy(k)] == Served(k + 1, 0);
    ReachesTrans(c, s, t, Busy(c, k + 1));
  }

  lemma {:induction false} AllBusy(c: Config, k: nat)
    requires ConfigOk(c) && c.minThreads < c.maxThreads && k <= c.minThreads
    ensures Reaches(c, Init(c), Busy(c, k))
    decreases k
  {
    if k == 0 {
      TeamBegins(c);
      ReachesSelf(c, Init(c));
    } else {
      AllBusy(c, k - 1);
      OneMoreBusy(c, k - 1);
      ReachesTrans(c, Init(c), Busy(c, k - 1), Busy(c, k));
    }
  }

  /** One more worker than the minimum, of which `k` have finished their tasks. */
  function Finishing(c: Config, k: nat): State {
    var n := c.minThreads + 1;
    Init(c).(workers := Team(n, k, AtWork, AtRest), priorities := Zeros(n), active := n - k,
             places := Served(n, k), executions := Ids(k))
  }

  lemma PoolGrows(c: Config)
    requires ConfigOk(c) && c.minThreads < c.maxThreads
    ensures Reaches(c, Busy(c, c.minThreads), Finishing(c, 0))
  {
    var m := c.minThreads;
    var s := Busy(c, m);
    var t := WithWorker(WithTask(s));
    TeamCounts(m, m, ToStart, AtWork);
    EnqueueCreating(c, s);
    assert t.tasks == [m] && t.priorities == Zeros(m + 1);
    WorkerPicks(c, t, m, m);
    TeamGrows(m);
    assert t.places[m := HeldBy(m)] == Served(m + 1, 0);
    assert Ids(0) == [] && Finishing(c, 0).executions == t.executions;
    ReachesTrans(c, s, t, Finishing(c, 0));
  }

  lemma OneMoreFinished(c: Config, k: nat)
    requires k < c.minThreads + 1
    ensures Reaches(c, Finishing(c, k), Finishing(c, k + 1))
  {
    var n := c.minThreads + 1;
    var s := Finishing(c, k);
    TeamNext(n, k, AtWork, AtRest);
    assert s.places[k := Finished] == Served(n, k + 1);
    assert s.executions + [k] == Ids(k + 1);
    var t := SetPc(s, k, Executed(k)).(places := Served(n, k + 1), executions := Ids(k + 1));
    ReachesSelf(c, s);
    Then(c, s, s, t, Executes(k));
    assert t.workers[k := t.workers[k].(pc := Waiting)] == s.workers[k := At(AtRest, k)];
    Then(c, s, t, Finishing(c, k + 1), Deactivates(k));
  }

  lemma {:induction false} AllFinished(c: Config, k: nat)
    requires k <= c.minThreads + 1
    ensures Reaches(c, Finishing(c, 0), Finishing(c, k))
    decreases k
  {
    if k == 0 {
      ReachesSelf(c, Finishing(c, 0));
    } else {
      AllFinished(c, k - 1);
      OneMoreFinished(c, k - 1);
      ReachesTrans(c, Finishing(c, 0), Finishing(c, k - 1), Finishing(c, k));
    }
  }

  /** With nothing to do, `k` workers have seen that there are more than enough, and are on their way out. */
  function Parting(c: Config, k: nat): State {
    var n := c.minThreads + 1;
    Finishing(c, n).(workers := Team(n, k, AtRest, OnItsWay))
  }

  lemma OneMoreParting(c: Config, k: nat)
    requires k < c.minThreads + 1
    ensures Reaches(c, Parting(c, k), Parting(c, k + 1))
  {
    var n := c.minThreads + 1;
    TeamCounts(n, k, AtRest, OnItsWay);
    TeamNext(n, k, AtRest, OnItsWay);
    ReachesSelf(c, Parting(c, k));
    Then(c, Parting(c, k), Parting(c, k), Parting(c, k + 1), Idles(k));
  }

  lemma {:induction false} AllParting(c: Config, k: nat)
    requires k <= c.minThreads + 1
    ensures Reaches(c, Parting(c, 0), Parting(c, k))
    decreases k
  {
    if k == 0 {
      ReachesSelf(c, Parting(c, 0));
    } else {
      AllParting(c, k - 1);
      OneMoreParting(c, k - 1);
      ReachesTrans(c, Parting(c, 0), Parting(c, k - 1), Parting(c, k));
    }
  }

  /** A task has come in while all are on their way out but none has said so; then `k` have ended. */
  function Leftover(c: Config, k: nat): State {
    var n := c.minThreads + 1;
    WithTask(Parting(c, n)).(workers := Team(n, k, OnItsWay, Ended))
  }

  lemma TaskTooLate(c: Config)
    requires ConfigOk(c) && c.minThreads < c.maxThreads
    ensures Reaches(c, Parting(c, c.minThreads + 1), Leftover(c, 0))
  {
    var n := c.minThreads + 1;
    TeamCounts(n, n, AtRest, OnItsWay);
    EnqueueSkipping(c, Parting(c, n));
    assert Team(n, n, AtRest, OnItsWay) == Team(n, 0, OnItsWay, Ended);
  }

  lemma {:induction false} AllEnded(c: Config, k: nat)
    requires k <= c.minThreads + 1
    ensures Reaches(c, Leftover(c, 0), Leftover(c, k))
    decreases k
  {
    if k == 0 {
      ReachesSelf(c, Leftover(c, 0));
    } else {
      AllEnded(c, k - 1);
      TeamNext(c.minThreads + 1, k - 1, OnItsWay, Ended);
      Then(c, Leftover(c, 0), Leftover(c, k - 1), Leftover(c, k), Exits(k - 1));
    }
  }

  lemma ShutsDown(c: Config, s: State)
    requires s.holder.Free? && !s.stop && s.shutdown.NotCalled? && AllGone(s.workers)
    requires s.cleaner.CleanerIdle? || s.cleaner.CleanerOff?
    ensures exists t: State :: Reaches(c, s, t) && t.shutdown.Returned? && t.places == s.places && t.executions == s.executions
  {
    var s1 := s.(stop := true, shutdown := Stopped);
    var s2 := s1.(workers := Dropped(s.workers), shutdown := Cleared);
    ReachesSelf(c, s);
    Then(c, s, s, s1, ShutStops);
    Then(c, s, s1, s2, ShutClears);
    var s3 := if s.cleaner.CleanerIdle? then s2.(cleaner := CleanerDone) else s2;
    if s.cleaner.CleanerIdle? { Then(c, s, s2, s3, CleanStops); }
    Then(c, s, s3, s3.(shutdown := Returned), ShutReturns);
  }

  lemma LeftoverReached(c: Config)
    requires ConfigOk(c) && c.minThreads < c.maxThreads
    ensures Reaches(c, Init(c), Leftover(c, c.minThreads + 1))
  {
    var n := c.minThreads + 1;
    var s := Init(c);
    AllBusy(c, c.minThreads);
    PoolGrows(c);
    ReachesTrans(c, s, Busy(c, c.minThreads), Finishing(c, 0));
    AllFinished(c, n);
    ReachesTrans(c, s, Finishing(c, 0), Finishing(c, n));
    assert Team(n, n, AtWork, AtRest) == Team(n, 0, AtRest, OnItsWay);
    assert Parting(c, 0) == Finishing(c, n);
    AllParting(c, n);
    ReachesTrans(c, s, Parting(c, 0), Parting(c, n));
    TaskTooLate(c);
    ReachesTrans(c, s, Parting(c, n), Leftover(c, 0));
    AllEnded(c, n);
    ReachesTrans(c, s, Leftover(c, 0), Leftover(c, n));
  }

  /** Whenever the pool may grow, some run returns from shutdown with an accepted task never executed. */
  lemma GrowingPoolMayLose(c: Config)
    requires ConfigOk(c) && c.minThreads < c.maxThreads
    ensures exists run: seq<State> :: Run(c, run) && Loses(run)
  {
    var n := c.minThreads + 1;
    var s := Leftover(c, n);
    LeftoverReached(c);
    assert forall i :: 0 <= i < n ==> s.workers[i] == At(Ended, i);
    ShutsDown(c, s);
    var t: State :| Reaches(c, s, t) && t.shutdown.Returned? && t.places == s.places && t.executions == s.executions;
    ReachesTrans(c, Init(c), s, t);
    var run: seq<State> :| Paths.Leads(Nexts(c), run, Init(c), t);
    assert n !in t.executions && n < |t.places|;
    assert Run(c, run) && Loses(run);
  }

  ghost predicate Loses(run: seq<State>) {
    run != [] && run[|run| - 1].shutdown.Returned? && !AllExecuted(run[|run| - 1])
  }

  /** Every run drains the queue before shutdown returns exactly when the pool cannot grow. */
  lemma DrainsExactly(c: Config)
    requires ConfigOk(c)
    ensures (forall run: seq<State> :: Run(c, run) ==> !Loses(run)) <==> c.minThreads == c.maxThreads
  {
    if c.minThreads == c.maxThreads {
      forall run: seq<State> | Run(c, run) ensures !Loses(run) {
        if run[|run| - 1].shutdown.Returned? { FixedPoolDrains(c, run, |run| - 1); }
      }
    } else {
      GrowingPoolMayLose(c);
    }
  }
}
