/**
 * What single calls on the pool do: which task a worker takes, when enqueue creates a worker, and
 * that shutdown can always return.
 */
module ThreadPoolCalls {
  import Paths
  import opened ThreadPool
  import opened ThreadPoolRuns

  // ---------------------------------------------------------------------------------------------
  // Priorities
  // ---------------------------------------------------------------------------------------------

  /** Every accepted task has the priority it came with. */
  predicate Ranked(s: State) { |s.priorities| == |s.places| }

  /** Priorities are given once, when a task is pushed, and the task is the next in number. */
  lemma PrioritiesGrow(c: Config, s: State, s': State, a: Action)
    requires Step(c, s, s', a)
    ensures s'.priorities == s.priorities + (if a.Pushes? then [a.priority] else [])
    ensures |s'.places| == |s.places| + (if a.Pushes? then 1 else 0)
    ensures a.Pushes? ==> s'.tasks == s.tasks + [|s.places|]
  {
    assert s.priorities + [] == s.priorities;
  }

  lemma {:induction false} RunRanked(c: Config, run: seq<State>, i: nat)
    requires Run(c, run) && i < |run|
    ensures Ranked(run[i])
    decreases i
  {
    if i > 0 {
      RunRanked(c, run, i - 1);
      assert Paths.LinkAt(Nexts(c), run, i - 1);
      var a: Action :| Step(c, run[i - 1], run[i], a);
      PrioritiesGrow(c, run[i - 1], run[i], a);
    }
  }

  /** Removing one leaves the others. */
  lemma OthersStay(tasks: seq<nat>, k: nat, u: nat)
    requires k < |tasks| && u in tasks
    ensures u == tasks[k] || u in Remove(tasks, k)
  {
    var j :| 0 <= j < |tasks| && tasks[j] == u;
    if j != k { assert Remove(tasks, k)[if j < k then j else j - 1] == u; }
  }

  /** Only a worker that takes it removes a task, and it removes one. */
  lemma LeavesByTaking(c: Config, s: State, s': State, a: Action, t: nat)
    requires Step(c, s, s', a) && t in s.tasks && t !in s'.tasks
    ensures a.Takes? && WorkerTakes(s, s', a.w, a.k) && s.tasks[a.k] == t
  {
    if a.Takes? { OthersStay(s.tasks, a.k, t); }
  }

  /** Some worker is on its way to execute the task. */
  predicate TakenBySome(workers: seq<Worker>, t: nat) {
    exists w :: 0 <= w < |workers| && workers[w].pc == WorkerPc.Taken(t)
  }

  lemma TopIsHighest(s: State, k: nat, u: nat)
    requires Ranked(s) && QueueOk(s.tasks, s.places) && IsTop(s, k) && u in s.tasks
    ensures u < |s.priorities| && s.tasks[k] < |s.priorities| && s.priorities[u] <= s.priorities[s.tasks[k]]
  {
    var j :| 0 <= j < |s.tasks| && s.tasks[j] == u;
    assert Priority(s, s.tasks[j]) <= Priority(s, s.tasks[k]);
  }

  lemma TakingOrder(s: State, s': State, w: nat, k: nat, t: nat)
    requires Ranked(s) && QueueOk(s.tasks, s.places) && WorkerTakes(s, s', w, k) && s.tasks[k] == t
    ensures forall u :: u in s.tasks ==> u < |s.priorities| && t < |s.priorities| && s.priorities[u] <= s.priorities[t]
    ensures forall u :: u in s.tasks && u != t ==> u in s'.tasks
    ensures TakenBySome(s'.workers, t)
  {
    forall u | u in s.tasks
      ensures u < |s.priorities| && t < |s.priorities| && s.priorities[u] <= s.priorities[t] && (u != t ==> u in s'.tasks)
    {
      TopIsHighest(s, k, u);
      OthersStay(s.tasks, k, u);
    }
    assert s'.workers[w].pc == WorkerPc.Taken(t);
  }

  lemma StepOfRun(c: Config, run: seq<State>, i: nat) returns (a: Action)
    requires Run(c, run) && i + 1 < |run|
    ensures Step(c, run[i], run[i + 1], a)
  {
    assert Paths.LinkAt(Nexts(c), run, i);
    a :| Step(c, run[i], run[i + 1], a);
  }

  /**
   * In every run a task leaves the queue only to be taken by a worker, alone, and then no task that is
   * queued has come with a higher priority.
   */
  lemma PriorityOrder(c: Config, run: seq<State>, i: nat, t: nat)
    requires Run(c, run) && i + 1 < |run| && t in run[i].tasks && t !in run[i + 1].tasks
    ensures forall u :: u in run[i].tasks ==>
      u < |run[i].priorities| && t < |run[i].priorities| && run[i].priorities[u] <= run[i].priorities[t]
    ensures forall u :: u in run[i].tasks && u != t ==> u in run[i + 1].tasks
    ensures TakenBySome(run[i + 1].workers, t)
  {
    RunInv(c, run, i);
    RunRanked(c, run, i);
    var a := StepOfRun(c, run, i);
    LeavesByTaking(c, run[i], run[i + 1], a, t);
    TakingOrder(run[i], run[i + 1], a.w, a.k, t);
  }

  // ---------------------------------------------------------------------------------------------
  // Enqueue
  // ---------------------------------------------------------------------------------------------

  /** A step of the call of enqueue that holds the mutex. */
  predicate OfEnqueue(a: Action) {
    a.Counts? || a.Erases? || a.ChecksFull? || a.ReadsFirst? || a.ReadsSecond? || a.Creates?
  }

  const NEW_WORKER := Worker(true, true, Born)

  function Grown(ws: seq<Worker>, grows: bool): seq<Worker> { if grows then ws + [NEW_WORKER] else ws }

  /** The list is not full, and has no worker that seems to be free. */
  predicate Lacks(c: Config, ws: seq<Worker>, active: int) {
    Count(InList, ws) != c.maxThreads && Count(InList, ws) == active
  }

  /** The workers that there will be when the call returns, if nobody else moves. */
  function Outlook(c: Config, s: State): seq<Worker> {
    match s.holder
    case Free => s.workers
    case Counting =>
      var ws := if Count(Invalid, s.workers) % 256 == 0 then s.workers else Erase(s.workers);
      Grown(ws, Lacks(c, ws, s.active))
    case Erasing => Grown(Erase(s.workers), Lacks(c, Erase(s.workers), s.active))
    case CheckFull => Grown(s.workers, Lacks(c, s.workers, s.active))
    case ReadFirst => Grown(s.workers, Size(s) == s.active)
    case HaveSize(size) => Grown(s.workers, size == s.active)
    case HaveActive(active) => Grown(s.workers, Size(s) == active)
    case Creating => Grown(s.workers, true)
  }

  lemma OutlookStays(c: Config, s: State, s': State, a: Action)
    requires Step(c, s, s', a) && OfEnqueue(a)
    ensures Outlook(c, s') == Outlook(c, s) && s'.active == s.active && s'.tasks == s.tasks
  {
  }

  /** From state `i` to state `j` only the call of enqueue moves. */
  ghost predicate EnqueueAlone(c: Config, run: seq<State>, i: nat, j: nat) {
    i <= j < |run| && forall k :: i <= k < j ==> EnqueueMoves(c, run, k)
  }

  ghost predicate EnqueueMoves(c: Config, run: seq<State>, k: nat)
    requires k + 1 < |run|
  {
    exists a: Action :: OfEnqueue(a) && Step(c, run[k], run[k + 1], a)
  }

  lemma {:induction false} OutlookAlong(c: Config, run: seq<State>, i: nat, j: nat)
    requires EnqueueAlone(c, run, i, j)
    ensures Outlook(c, run[j]) == Outlook(c, run[i]) && run[j].tasks == run[i].tasks
    decreases j - i
  {
    if i < j {
      OutlookAlong(c, run, i, j - 1);
      assert EnqueueMoves(c, run, j - 1);
      var a: Action :| OfEnqueue(a) && Step(c, run[j - 1], run[j], a);
      OutlookStays(c, run[j - 1], run[j], a);
    }
  }

  lemma {:induction false} EraseCounts(ws: seq<Worker>)
    ensures Count(InList, Erase(ws)) + Count(Invalid, ws) == Count(InList, ws)
    ensures Count(Invalid, Erase(ws)) == 0
    decreases |ws|
  {
    if ws != [] {
      var n := |ws| - 1;
      EraseCounts(ws[..n]);
      assert Erase(ws)[..n] == Erase(ws[..n]);
    }
  }

  /**
   * A call of enqueue that is left alone after it has pushed its task: workers that have ended are
   * dropped from the list, unless their number is a multiple of 256; and a worker is created if and
   * only if the list is then not full and as long as there are active workers.
   */
  lemma LoneEnqueue(c: Config, run: seq<State>, i: nat, j: nat)
    requires EnqueueAlone(c, run, i, j) && run[i].holder.Counting? && run[j].holder.Free?
    ensures var s, s' := run[i], run[j];
      var invalid := Count(Invalid, s.workers);
      var size := if invalid % 256 == 0 then Size(s) else Size(s) - invalid;
      && |s'.workers| == |s.workers| + (if size != c.maxThreads && size == s.active then 1 else 0)
      && (forall w :: 0 <= w < |s.workers| ==>
            s'.workers[w] == if s.workers[w].valid || invalid % 256 == 0 then s.workers[w] else s.workers[w].(inList := false))
      && (|s'.workers| > |s.workers| ==> s'.workers[|s.workers|] == Worker(true, true, Born))
      && s'.tasks == s.tasks
  {
    OutlookAlong(c, run, i, j);
    EraseCounts(run[i].workers);
  }

  // ---------------------------------------------------------------------------------------------
  // Cleanup
  // ---------------------------------------------------------------------------------------------

  /** The cleanup thread, when its interval is over, can drop by itself every worker that has ended, and does drop no other. */
  lemma CleanerCleans(c: Config, s: State) returns (t: State)
    requires s.cleaner.CleanerIdle? && !s.stop && Count(Invalid, s.workers) % 256 != 0
    ensures Reaches(c, s, t) && t == s.(workers := t.workers) && |t.workers| == |s.workers|
    ensures Count(Invalid, t.workers) == 0 && Size(t) == Size(s) - Count(Invalid, s.workers)
    ensures forall w :: 0 <= w < |s.workers| && s.workers[w].valid ==> t.workers[w] == s.workers[w]
  {
    var a, b := s.(cleaner := CleanerCounting), s.(cleaner := CleanerErasing);
    t := s.(workers := Erase(s.workers));
    ReachesSelf(c, s);
    Then(c, s, s, a, CleanWakes);
    Then(c, s, a, b, CleanCounts);
    Then(c, s, b, t, CleanErases);
    EraseCounts(s.workers);
  }

  // ---------------------------------------------------------------------------------------------
  // Shutdown returns
  // ---------------------------------------------------------------------------------------------

  /** Steps that a worker has left, but for the tasks it is still to take. */
  function WorkerRank(pc: WorkerPc): nat {
    match pc
    case Gone(_) => 0
    case Leaving(_) => 1
    case Waiting => 2
    case Born => 3
    case Executed(_) => 3
    case Executing(_) => 4
    case Taken(_) => 5
  }

  function WorkersRank(ws: seq<Worker>): nat {
    if ws == [] then 0 else WorkersRank(ws[..|ws| - 1]) + WorkerRank(ws[|ws| - 1].pc)
  }

  function HolderRank(h: Holder): nat {
    match h
    case Free => 0
    case Creating => 4
    case HaveSize(_) => 5
    case HaveActive(_) => 5
    case ReadFirst => 6
    case CheckFull => 7
    case Erasing => 8
    case Counting => 9
  }

  function CleanerRank(pc: CleanerPc): nat {
    match pc
    case CleanerOff => 0
    case CleanerDone => 0
    case CleanerIdle => 1
    case CleanerErasing => 2
    case CleanerCounting => 3
  }

  function ShutdownRank(pc: ShutdownPc): nat {
    match pc
    case Returned => 0
    case Cleared => 1
    case Stopped => 2
    case NotCalled => 3
  }

  function Rank(s: State): nat {
    WorkersRank(s.workers) + 4 * |s.tasks| + HolderRank(s.holder) + CleanerRank(s.cleaner) + ShutdownRank(s.shutdown)
  }

  lemma {:induction false} RankSet(ws: seq<Worker>, i: nat, w: Worker)
    requires i < |ws|
    ensures WorkersRank(ws[i := w]) + WorkerRank(ws[i].pc) == WorkersRank(ws) + WorkerRank(w.pc)
    decreases |ws|
  {
    var n := |ws| - 1;
    if i < n {
      RankSet(ws[..n], i, w);
      assert ws[i := w][..n] == ws[..n][i := w];
    } else {
      assert ws[i := w][..n] == ws[..n];
    }
  }

  lemma {:induction false} RankSame(ws: seq<Worker>, ws': seq<Worker>)
    requires |ws| == |ws'| && forall i :: 0 <= i < |ws| ==> ws'[i].pc == ws[i].pc
    ensures WorkersRank(ws') == WorkersRank(ws)
    decreases |ws|
  {
    if ws != [] { RankSame(ws[..|ws| - 1], ws'[..|ws| - 1]); }
  }

  lemma RankAdd(ws: seq<Worker>, w: Worker)
    ensures WorkersRank(ws + [w]) == WorkersRank(ws) + WorkerRank(w.pc)
  {
    assert (ws + [w])[..|ws|] == ws;
  }

  /** Enqueue goes on. */
  lemma HolderGoes(c: Config, s: State) returns (s': State, a: Action)
    requires !s.holder.Free?
    ensures Step(c, s, s', a) && Rank(s') < Rank(s)
  {
    match s.holder
    case Counting =>
      s', a := s.(holder := if Count(Invalid, s.workers) % 256 == 0 then CheckFull else Erasing), Counts;
    case Erasing =>
      RankSame(s.workers, Erase(s.workers));
      s', a := s.(workers := Erase(s.workers), holder := CheckFull), Erases;
    case CheckFull => s', a := s.(holder := if Size(s) == c.maxThreads then Free else ReadFirst), ChecksFull;
    case ReadFirst => s', a := s.(holder := HaveSize(Size(s))), ReadsFirst;
    case HaveSize(size) => s', a := s.(holder := if size == s.active then Creating else Free), ReadsSecond;
    case HaveActive(active) => s', a := s.(holder := if Size(s) == active then Creating else Free), ReadsSecond;
    case Creating =>
      RankAdd(s.workers, NEW_WORKER);
      s', a := s.(workers := s.workers + [NEW_WORKER], holder := Free), Creates;
  }

  /** There is a task of the highest priority. */
  lemma {:induction false} TopExists(s: State, n: nat) returns (k: nat)
    requires 0 < n <= |s.tasks|
    ensures k < n && forall j :: 0 <= j < n ==> Priority(s, s.tasks[j]) <= Priority(s, s.tasks[k])
    decreases n
  {
    k := 0;
    if n > 1 {
      k := TopExists(s, n - 1);
      if Priority(s, s.tasks[k]) < Priority(s, s.tasks[n - 1]) { k := n - 1; }
    }
  }

  /** A worker outside the mutex goes on. */
  lemma WorkerGoes(c: Config, s: State, w: nat) returns (s': State, a: Action)
    requires w < |s.workers| && !s.workers[w].pc.Gone? && !s.workers[w].pc.Waiting?
    ensures Step(c, s, s', a) && Rank(s') < Rank(s)
  {
    var x := s.workers[w];
    match x.pc
    case Born =>
      s', a := s.(workers := s.workers[w := x.(valid := true, pc := Waiting)]), Starts(w);
      RankSet(s.workers, w, x.(valid := true, pc := Waiting));
    case Taken(t) =>
      s', a := SetPc(s, w, Executing(t)).(active := s.active + 1), Activates(w);
      RankSet(s.workers, w, x.(pc := Executing(t)));
    case Executing(t) =>
      s', a := SetPc(s, w, Executed(t)).(places := Put(s.places, t, Finished), executions := s.executions + [t]), Executes(w);
      RankSet(s.workers, w, x.(pc := Executed(t)));
    case Executed(_) =>
      s', a := SetPc(s, w, Waiting).(active := s.active - 1), Deactivates(w);
      RankSet(s.workers, w, x.(pc := Waiting));
    case Leaving(idle) =>
      s', a := s.(workers := s.workers[w := x.(valid := false, pc := Gone(idle))]), Exits(w);
      RankSet(s.workers, w, x.(valid := false, pc := Gone(idle)));
  }

  /** A worker that waits takes a task, or leaves if there is none and the pool is stopped. */
  lemma WaiterGoes(c: Config, s: State, w: nat) returns (s': State, a: Action)
    requires w < |s.workers| && s.workers[w].pc.Waiting? && s.holder.Free? && s.stop
    ensures Step(c, s, s', a) && Rank(s') < Rank(s)
  {
    var x := s.workers[w];
    if s.tasks == [] {
      s', a := SetPc(s, w, Leaving(false)), Stops(w);
      RankSet(s.workers, w, x.(pc := Leaving(false)));
    } else {
      var k := TopExists(s, |s.tasks|);
      var t := s.tasks[k];
      s' := SetPc(s, w, WorkerPc.Taken(t)).(tasks := Remove(s.tasks, k), places := Put(s.places, t, HeldBy(w)));
      a := Takes(w, k);
      RankSet(s.workers, w, x.(pc := WorkerPc.Taken(t)));
    }
  }

  lemma CleanerGoes(c: Config, s: State) returns (s': State, a: Action)
    requires s.stop && !s.cleaner.CleanerOff? && !s.cleaner.CleanerDone?
    ensures Step(c, s, s', a) && Rank(s') < Rank(s)
  {
    RankSame(s.workers, Erase(s.workers));
    match s.cleaner
    case CleanerIdle => s', a := s.(cleaner := CleanerDone), CleanStops;
    case CleanerCounting =>
      s', a := s.(cleaner := if Count(Invalid, s.workers) % 256 == 0 then CleanerIdle else CleanerErasing), CleanCounts;
    case CleanerErasing => s', a := s.(workers := Erase(s.workers), cleaner := CleanerIdle), CleanErases;
  }

  lemma CallerGoes(c: Config, s: State) returns (s': State, a: Action)
    requires s.holder.Free? && !s.shutdown.Returned?
    requires !s.shutdown.NotCalled? ==> AllGone(s.workers) && (s.cleaner.CleanerOff? || s.cleaner.CleanerDone?)
    ensures Step(c, s, s', a) && Rank(s') < Rank(s)
  {
    RankSame(s.workers, Dropped(s.workers));
    match s.shutdown
    case NotCalled => s', a := s.(stop := true, shutdown := Stopped), ShutStops;
    case Stopped => s', a := s.(workers := Dropped(s.workers), shutdown := Cleared), ShutClears;
    case Cleared => s', a := s.(shutdown := Returned), ShutReturns;
  }

  /** Until shutdown has returned there is always a step that brings its return nearer. */
  lemma SomethingGoes(c: Config, s: State) returns (s': State, a: Action)
    requires Inv(c, s) && !s.shutdown.Returned?
    ensures Step(c, s, s', a) && Rank(s') < Rank(s)
  {
    if !s.holder.Free? {
      s', a := HolderGoes(c, s);
    } else if s.shutdown.NotCalled? {
      s', a := CallerGoes(c, s);
    } else if w :| 0 <= w < |s.workers| && !s.workers[w].pc.Gone? {
      if s.workers[w].pc.Waiting? { s', a := WaiterGoes(c, s, w); } else { s', a := WorkerGoes(c, s, w); }
    } else if !s.cleaner.CleanerOff? && !s.cleaner.CleanerDone? {
      s', a := CleanerGoes(c, s);
    } else {
      s', a := CallerGoes(c, s);
    }
  }

  lemma {:induction false} ReturnReached(c: Config, s: State) returns (t: State)
    requires Inv(c, s)
    ensures Reaches(c, s, t) && t.shutdown.Returned?
    decreases Rank(s)
  {
    ReachesSelf(c, s);
    if s.shutdown.Returned? {
      t := s;
    } else {
      var s', a := SomethingGoes(c, s);
      StepInv(c, s, s', a);
      Then(c, s, s, s', a);
      t := ReturnReached(c, s');
      ReachesTrans(c, s, s', t);
    }
  }

  /** Shutdown can always return: every run can go on until it has. */
  lemma ShutdownCanReturn(c: Config, run: seq<State>) returns (run': seq<State>)
    requires Run(c, run)
    ensures Run(c, run') && run <= run' && run'[|run'| - 1].shutdown.Returned?
  {
    RunInv(c, run, |run| - 1);
    var t := ReturnReached(c, run[|run| - 1]);
    run' := Paths.GoesOn(Nexts(c), run, t);
  }
}
