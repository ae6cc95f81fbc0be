/**
 * The thread pool as a transition system: workers, callers of enqueue, the cleanup thread and a
 * caller of shutdown, interleaved at every access to what they share.
 *
 * The task mutex is held by at most one thread. A worker's turn under the mutex reads one thing that
 * the mutex does not protect, the size of the worker list, and is therefore one step. A call of
 * enqueue keeps the mutex through several steps, between which the cleanup thread and the workers
 * outside the mutex go on. Whether a worker has been idle for long enough is left open.
 */
module ThreadPool {
  /** ThreadPoolConfig, as far as safety depends on it. */
  datatype Config = Config(minThreads: nat, maxThreads: nat, enableCleanup: bool)

  /** ThreadPoolConfig::ok; the constructor of the pool refuses anything else. */
  predicate ConfigOk(c: Config) {
    c.minThreads > 0 && c.maxThreads > 0 && c.minThreads <= c.maxThreads
  }

  /** Where a worker's thread stands. `idle` records why it leaves: for lack of work, or at the stop. */
  datatype WorkerPc =
    | Born
    | Waiting
    | Taken(task: nat)
    | Executing(task: nat)
    | Executed(task: nat)
    | Leaving(idle: bool)
    | Gone(idle: bool)

  datatype Worker = Worker(inList: bool, valid: bool, pc: WorkerPc)

  /** Who holds the task mutex: nobody, or a call of enqueue at one of its steps. */
  datatype Holder =
    | Free
    | Counting
    | Erasing
    | CheckFull
    | ReadFirst
    | HaveSize(size: nat)
    | HaveActive(active: int)
    | Creating

  datatype CleanerPc = CleanerOff | CleanerIdle | CleanerCounting | CleanerErasing | CleanerDone

  datatype ShutdownPc = NotCalled | Stopped | Cleared | Returned

  /** What became of an accepted task; a history variable, read by no step. */
  datatype Place = Queued | HeldBy(worker: nat) | Finished

  datatype State = State(
    workers: seq<Worker>,
    tasks: seq<nat>,
    priorities: seq<nat>,
    active: int,
    stop: bool,
    holder: Holder,
    cleaner: CleanerPc,
    shutdown: ShutdownPc,
    places: seq<Place>,
    executions: seq<nat>
  )

  // ---------------------------------------------------------------------------------------------
  // Counting workers
  // ---------------------------------------------------------------------------------------------

  datatype Kind = InList | Live | Active | Invalid

  predicate IsLive(pc: WorkerPc) { !pc.Leaving? && !pc.Gone? }
  predicate IsActive(pc: WorkerPc) { pc.Executing? || pc.Executed? }

  predicate Is(kind: Kind, w: Worker) {
    match kind
    case InList => w.inList
    case Live => IsLive(w.pc)
    case Active => IsActive(w.pc)
    case Invalid => w.inList && !w.valid
  }

  function One(b: bool): nat { if b then 1 else 0 }

  function Count(kind: Kind, ws: seq<Worker>): nat {
    if ws == [] then 0 else Count(kind, ws[..|ws| - 1]) + One(Is(kind, ws[|ws| - 1]))
  }

  function Size(s: State): nat { Count(InList, s.workers) }

  lemma {:induction false} CountSet(kind: Kind, ws: seq<Worker>, i: nat, w: Worker)
    requires i < |ws|
    ensures Count(kind, ws[i := w]) + One(Is(kind, ws[i])) == Count(kind, ws) + One(Is(kind, w))
    decreases |ws|
  {
    var n := |ws| - 1;
    var ws' := ws[i := w];
    if i < n {
      CountSet(kind, ws[..n], i, w);
      assert ws'[..n] == ws[..n][i := w];
    } else {
      assert ws'[..n] == ws[..n];
    }
  }

  lemma CountAdd(kind: Kind, ws: seq<Worker>, w: Worker)
    ensures Count(kind, ws + [w]) == Count(kind, ws) + One(Is(kind, w))
  {
    assert (ws + [w])[..|ws|] == ws;
  }

  /** Where one kind implies another, there are no more of the one than of the other. */
  lemma {:induction false} CountLe(a: Kind, ws: seq<Worker>, b: Kind, ws': seq<Worker>)
    requires |ws| == |ws'| && forall i :: 0 <= i < |ws| && Is(a, ws[i]) ==> Is(b, ws'[i])
    ensures Count(a, ws) <= Count(b, ws')
    decreases |ws|
  {
    if ws != [] { CountLe(a, ws[..|ws| - 1], b, ws'[..|ws| - 1]); }
  }

  // ---------------------------------------------------------------------------------------------
  // Steps
  // ---------------------------------------------------------------------------------------------

  function SetPc(s: State, w: nat, pc: WorkerPc): State
    requires w < |s.workers|
  {
    s.(workers := s.workers[w := s.workers[w].(pc := pc)])
  }

  /** std::erase_if on the worker list: the threads of invalid workers are joined and dropped. */
  function Erase(ws: seq<Worker>): seq<Worker> {
    seq(|ws|, i requires 0 <= i < |ws| => if ws[i].valid then ws[i] else ws[i].(inList := false))
  }

  function Remove(tasks: seq<nat>, k: nat): seq<nat>
    requires k < |tasks|
  {
    tasks[..k] + tasks[k + 1..]
  }

  function Put(places: seq<Place>, t: nat, p: Place): seq<Place> {
    if t < |places| then places[t := p] else places
  }

  /** The queue's top: a task of the highest priority in it. */
  predicate IsTop(s: State, k: nat) {
    && k < |s.tasks|
    && forall j :: 0 <= j < |s.tasks| ==> Priority(s, s.tasks[j]) <= Priority(s, s.tasks[k])
  }

  function Priority(s: State, task: nat): nat { if task < |s.priorities| then s.priorities[task] else 0 }

  predicate WorkerStarts(s: State, s': State, w: nat) {
    && w < |s.workers| && s.workers[w].pc.Born?
    && s' == s.(workers := s.workers[w := s.workers[w].(valid := true, pc := Waiting)])
  }

  predicate WorkerStops(s: State, s': State, w: nat) {
    && w < |s.workers| && s.workers[w].pc.Waiting? && s.holder.Free?
    && s.stop && s.tasks == []
    && s' == SetPc(s, w, Leaving(false))
  }

  predicate WorkerTakes(s: State, s': State, w: nat, k: nat) {
    && w < |s.workers| && s.workers[w].pc.Waiting? && s.holder.Free?
    && IsTop(s, k)
    && s' == SetPc(s, w, Taken(s.tasks[k])).(
               tasks := Remove(s.tasks, k), places := Put(s.places, s.tasks[k], HeldBy(w)))
  }

  /** Idle for long enough, and more workers in the list than the minimum. */
  predicate WorkerIdles(c: Config, s: State, s': State, w: nat) {
    && w < |s.workers| && s.workers[w].pc.Waiting? && s.holder.Free?
    && !s.stop && s.tasks == []
    && Size(s) > c.minThreads
    && s' == SetPc(s, w, Leaving(true))
  }

  predicate WorkerActivates(s: State, s': State, w: nat) {
    && w < |s.workers| && s.workers[w].pc.Taken?
    && s' == SetPc(s, w, Executing(s.workers[w].pc.task)).(active := s.active + 1)
  }

  predicate WorkerExecutes(s: State, s': State, w: nat) {
    && w < |s.workers| && s.workers[w].pc.Executing?
    && var t := s.workers[w].pc.task;
       s' == SetPc(s, w, Executed(t)).(places := Put(s.places, t, Finished), executions := s.executions + [t])
  }

  predicate WorkerDeactivates(s: State, s': State, w: nat) {
    && w < |s.workers| && s.workers[w].pc.Executed?
    && s' == SetPc(s, w, Waiting).(active := s.active - 1)
  }

  predicate WorkerExits(s: State, s': State, w: nat) {
    && w < |s.workers| && s.workers[w].pc.Leaving?
    && s' == s.(workers := s.workers[w := s.workers[w].(valid := false, pc := Gone(s.workers[w].pc.idle))])
  }

  /** enqueue, with the mutex just taken: refused after the stop, queued before it. */
  predicate EnqueuePushes(s: State, s': State, priority: nat) {
    && s.holder.Free? && !s.stop
    && s' == s.(tasks := s.tasks + [|s.places|], priorities := s.priorities + [priority],
                places := s.places + [Queued], holder := Counting)
  }

  /** cleanup_invalid_workers, first part: the number of invalid workers, in eight bits. */
  predicate EnqueueCounts(s: State, s': State) {
    && s.holder.Counting?
    && s' == s.(holder := if Count(Invalid, s.workers) % 256 == 0 then CheckFull else Erasing)
  }

  predicate EnqueueErases(s: State, s': State) {
    && s.holder.Erasing?
    && s' == s.(workers := Erase(s.workers), holder := CheckFull)
  }

  predicate EnqueueChecksFull(c: Config, s: State, s': State) {
    && s.holder.CheckFull?
    && s' == s.(holder := if Size(s) == c.maxThreads then Free else ReadFirst)
  }

  /** free_threads reads two values, in an order that the language leaves open. */
  predicate EnqueueReadsFirst(s: State, s': State) {
    && s.holder.ReadFirst?
    && (s' == s.(holder := HaveSize(Size(s))) || s' == s.(holder := HaveActive(s.active)))
  }

  /** The difference, which would wrap around if it were negative, decides on a new worker. */
  predicate EnqueueReadsSecond(s: State, s': State) {
    || (s.holder.HaveSize? && s' == s.(holder := if s.holder.size == s.active then Creating else Free))
    || (s.holder.HaveActive? && s' == s.(holder := if Size(s) == s.holder.active then Creating else Free))
  }

  predicate EnqueueCreates(s: State, s': State) {
    && s.holder.Creating?
    && s' == s.(workers := s.workers + [Worker(true, true, Born)], holder := Free)
  }

  /** The interval is over and the pool is not stopped, or was not a moment ago. */
  predicate CleanerWakes(s: State, s': State) {
    && s.cleaner.CleanerIdle? && !s.stop
    && s' == s.(cleaner := CleanerCounting)
  }

  predicate CleanerCounts(s: State, s': State) {
    && s.cleaner.CleanerCounting?
    && s' == s.(cleaner := if Count(Invalid, s.workers) % 256 == 0 then CleanerIdle else CleanerErasing)
  }

  predicate CleanerErases(s: State, s': State) {
    && s.cleaner.CleanerErasing?
    && s' == s.(workers := Erase(s.workers), cleaner := CleanerIdle)
  }

  predicate CleanerStops(s: State, s': State) {
    && s.cleaner.CleanerIdle? && s.stop
    && s' == s.(cleaner := CleanerDone)
  }

  predicate ShutdownStops(s: State, s': State) {
    && s.shutdown.NotCalled? && s.holder.Free?
    && s' == s.(stop := true, shutdown := Stopped)
  }

  function Dropped(ws: seq<Worker>): seq<Worker> {
    seq(|ws|, i requires 0 <= i < |ws| => ws[i].(inList := false))
  }

  /** workers_.clear(): every worker still in the list is joined, so its thread has ended. */
  predicate ShutdownClears(s: State, s': State) {
    && s.shutdown.Stopped?
    && (forall w :: 0 <= w < |s.workers| && s.workers[w].inList ==> s.workers[w].pc.Gone?)
    && s' == s.(workers := Dropped(s.workers), shutdown := Cleared)
  }

  predicate ShutdownReturns(s: State, s': State) {
    && s.shutdown.Cleared? && (s.cleaner.CleanerOff? || s.cleaner.CleanerDone?)
    && s' == s.(shutdown := Returned)
  }

  datatype Action =
    | Starts(w: nat) | Stops(w: nat) | Takes(w: nat, k: nat) | Idles(w: nat) | Activates(w: nat)
    | Executes(w: nat) | Deactivates(w: nat) | Exits(w: nat)
    | Pushes(priority: nat) | Counts | Erases | ChecksFull | ReadsFirst | ReadsSecond | Creates
    | CleanWakes | CleanCounts | CleanErases | CleanStops
    | ShutStops | ShutClears | ShutReturns

  predicate Step(c: Config, s: State, s': State, a: Action) {
    match a
    case Starts(w) => WorkerStarts(s, s', w)
    case Stops(w) => WorkerStops(s, s', w)
    case Takes(w, k) => WorkerTakes(s, s', w, k)
    case Idles(w) => WorkerIdles(c, s, s', w)
    case Activates(w) => WorkerActivates(s, s', w)
    case Executes(w) => WorkerExecutes(s, s', w)
    case Deactivates(w) => WorkerDeactivates(s, s', w)
    case Exits(w) => WorkerExits(s, s', w)
    case Pushes(priority) => EnqueuePushes(s, s', priority)
    case Counts => EnqueueCounts(s, s')
    case Erases => EnqueueErases(s, s')
    case ChecksFull => EnqueueChecksFull(c, s, s')
    case ReadsFirst => EnqueueReadsFirst(s, s')
    case ReadsSecond => EnqueueReadsSecond(s, s')
    case Creates => EnqueueCreates(s, s')
    case CleanWakes => CleanerWakes(s, s')
    case CleanCounts => CleanerCounts(s, s')
    case CleanErases => CleanerErases(s, s')
    case CleanStops => CleanerStops(s, s')
    case ShutStops => ShutdownStops(s, s')
    case ShutClears => ShutdownClears(s, s')
    case ShutReturns => ShutdownReturns(s, s')
  }

  /** The constructor has created the minimum of workers, and perhaps the cleanup thread. */
  function Init(c: Config): State {
    State(seq(c.minThreads, i => Worker(true, true, Born)), [], [], 0, false, Free,
          if c.enableCleanup then CleanerIdle else CleanerOff, NotCalled, [], [])
  }

  // ---------------------------------------------------------------------------------------------
  // The invariant
  // ---------------------------------------------------------------------------------------------

  /** An invalid worker has ended, and one that has not ended is in the list. */
  predicate WorkersOk(ws: seq<Worker>) {
    forall w :: 0 <= w < |ws| ==> (ws[w].valid || ws[w].pc.Gone?) && (ws[w].pc.Gone? || ws[w].inList)
  }

  predicate CountersOk(c: Config, s: State) {
    && s.active == Count(Active, s.workers)
    && Size(s) <= c.maxThreads
    && c.minThreads <= |s.workers|
  }

  /** While a call of enqueue holds the mutex no worker leaves, so that what it has read stays comparable. */
  predicate HolderOk(c: Config, s: State) {
    && (s.holder.ReadFirst? || s.holder.HaveSize? || s.holder.HaveActive? || s.holder.Creating? ==>
          Size(s) < c.maxThreads)
    && (s.holder.HaveSize? ==> Count(Live, s.workers) <= s.holder.size)
    && (s.holder.HaveActive? ==> s.holder.active <= Count(Live, s.workers))
    && (!s.holder.Free? ==> !s.stop)
  }

  function Holding(pc: WorkerPc, t: nat): bool { (pc.Taken? || pc.Executing?) && pc.task == t }

  predicate QueueOk(tasks: seq<nat>, places: seq<Place>) {
    && (forall k :: 0 <= k < |tasks| ==> tasks[k] < |places| && places[tasks[k]] == Queued)
    && (forall j, k :: 0 <= j < k < |tasks| ==> tasks[j] != tasks[k])
    && (forall t :: 0 <= t < |places| && places[t] == Queued ==> t in tasks)
  }

  predicate HeldOk(ws: seq<Worker>, places: seq<Place>) {
    && (forall w :: 0 <= w < |ws| && (ws[w].pc.Taken? || ws[w].pc.Executing?) ==>
          ws[w].pc.task < |places| && places[ws[w].pc.task] == HeldBy(w))
    && (forall t :: 0 <= t < |places| && places[t].HeldBy? ==>
          places[t].worker < |ws| && Holding(ws[places[t].worker].pc, t))
  }

  predicate ExecutionsOk(executions: seq<nat>, places: seq<Place>) {
    && (forall k :: 0 <= k < |executions| ==> executions[k] < |places| && places[executions[k]] == Finished)
    && (forall j, k :: 0 <= j < k < |executions| ==> executions[j] != executions[k])
    && (forall t :: 0 <= t < |places| && places[t] == Finished ==> t in executions)
  }

  /** A worker that left at the stop saw an empty queue, to which nothing is added any more. */
  predicate ExitsOk(s: State) {
    forall w :: 0 <= w < |s.workers| && (s.workers[w].pc == Leaving(false) || s.workers[w].pc == Gone(false)) ==>
      s.stop && s.tasks == []
  }

  predicate LeftIdle(w: Worker) { w.pc == Leaving(true) || w.pc == Gone(true) }

  predicate NoIdleExit(ws: seq<Worker>) {
    forall w :: 0 <= w < |ws| ==> !LeftIdle(ws[w])
  }

  predicate ShutdownOk(s: State) {
    && (!s.shutdown.NotCalled? ==> s.stop)
    && (s.shutdown.Cleared? || s.shutdown.Returned? ==> AllGone(s.workers))
  }

  predicate AllGone(ws: seq<Worker>) {
    forall w :: 0 <= w < |ws| ==> ws[w].pc.Gone?
  }

  predicate Inv(c: Config, s: State) {
    && WorkersOk(s.workers) && CountersOk(c, s) && HolderOk(c, s)
    && QueueOk(s.tasks, s.places) && HeldOk(s.workers, s.places) && ExecutionsOk(s.executions, s.places)
    && ExitsOk(s) && ShutdownOk(s)
    && (c.minThreads == c.maxThreads ==> NoIdleExit(s.workers))
  }

  // ---------------------------------------------------------------------------------------------
  // A worker's steps
  // ---------------------------------------------------------------------------------------------

  /** Everything about the counts, when one worker changes. */
  lemma WorkerCounts(ws: seq<Worker>, w: nat, x: Worker)
    requires w < |ws|
    ensures forall kind: Kind :: Count(kind, ws[w := x]) + One(Is(kind, ws[w])) == Count(kind, ws) + One(Is(kind, x))
  {
    forall kind: Kind { CountSet(kind, ws, w, x); }
  }

  lemma StartsInv(c: Config, s: State, s': State, w: nat)
    requires Inv(c, s) && WorkerStarts(s, s', w)
    ensures Inv(c, s')
  {
    WorkerCounts(s.workers, w, s'.workers[w]);
  }

  lemma LeavesInv(c: Config, s: State, s': State, w: nat)
    requires Inv(c, s) && (WorkerStops(s, s', w) || WorkerIdles(c, s, s', w))
    ensures Inv(c, s')
  {
    WorkerCounts(s.workers, w, s'.workers[w]);
  }

  lemma ActivatesInv(c: Config, s: State, s': State, w: nat)
    requires Inv(c, s) && WorkerActivates(s, s', w)
    ensures Inv(c, s')
  {
    WorkerCounts(s.workers, w, s'.workers[w]);
  }

  lemma DeactivatesInv(c: Config, s: State, s': State, w: nat)
    requires Inv(c, s) && WorkerDeactivates(s, s', w)
    ensures Inv(c, s')
  {
    WorkerCounts(s.workers, w, s'.workers[w]);
  }

  lemma ExitsInv(c: Config, s: State, s': State, w: nat)
    requires Inv(c, s) && WorkerExits(s, s', w)
    ensures Inv(c, s')
  {
    WorkerCounts(s.workers, w, s'.workers[w]);
  }

  lemma RemoveOk(tasks: seq<nat>, k: nat, places: seq<Place>, p: Place)
    requires QueueOk(tasks, places) && k < |tasks| && p != Queued
    ensures QueueOk(Remove(tasks, k), places[tasks[k] := p])
  {
    var t := tasks[k];
    var rest := Remove(tasks, k);
    assert forall j :: 0 <= j < |rest| ==> rest[j] == tasks[if j < k then j else j + 1];
    forall u | 0 <= u < |places| && places[t := p][u] == Queued ensures u in rest {
      var j :| 0 <= j < |tasks| && tasks[j] == u;
      assert u == rest[if j < k then j else j - 1];
    }
  }

  lemma TakesCountsOk(c: Config, s: State, s': State, w: nat, k: nat)
    requires WorkersOk(s.workers) && CountersOk(c, s) && HolderOk(c, s) && WorkerTakes(s, s', w, k)
    ensures WorkersOk(s'.workers) && CountersOk(c, s') && HolderOk(c, s')
  {
    WorkerCounts(s.workers, w, s'.workers[w]);
  }

  lemma TakesInv(c: Config, s: State, s': State, w: nat, k: nat)
    requires Inv(c, s) && WorkerTakes(s, s', w, k)
    ensures Inv(c, s')
  {
    TakesCountsOk(c, s, s', w, k);
    RemoveOk(s.tasks, k, s.places, HeldBy(w));
  }

  lemma ExecutesOk(executions: seq<nat>, places: seq<Place>, t: nat)
    requires ExecutionsOk(executions, places) && t < |places| && places[t] != Finished
    ensures ExecutionsOk(executions + [t], places[t := Finished])
  {
    var more := executions + [t];
    assert more[|executions|] == t;
    forall u | 0 <= u < |places| && places[t := Finished][u] == Finished ensures u in more {
      if u != t { assert u in executions; }
    }
  }

  lemma ExecutesCountsOk(c: Config, s: State, s': State, w: nat)
    requires WorkersOk(s.workers) && CountersOk(c, s) && HolderOk(c, s) && WorkerExecutes(s, s', w)
    ensures WorkersOk(s'.workers) && CountersOk(c, s') && HolderOk(c, s')
  {
    WorkerCounts(s.workers, w, s'.workers[w]);
  }

  lemma ExecutesInv(c: Config, s: State, s': State, w: nat)
    requires Inv(c, s) && WorkerExecutes(s, s', w)
    ensures Inv(c, s')
  {
    ExecutesCountsOk(c, s, s', w);
    ExecutesOk(s.executions, s.places, s.workers[w].pc.task);
  }

  // ---------------------------------------------------------------------------------------------
  // The steps of enqueue
  // ---------------------------------------------------------------------------------------------

  lemma PushOk(tasks: seq<nat>, places: seq<Place>)
    requires QueueOk(tasks, places)
    ensures QueueOk(tasks + [|places|], places + [Queued])
  {
    var more := tasks + [|places|];
    assert more[|tasks|] == |places|;
    forall u | 0 <= u < |places| + 1 && (places + [Queued])[u] == Queued ensures u in more {
      if u < |places| { assert u in tasks; }
    }
  }

  lemma PushesInv(c: Config, s: State, s': State, priority: nat)
    requires Inv(c, s) && EnqueuePushes(s, s', priority)
    ensures Inv(c, s')
  {
    PushOk(s.tasks, s.places);
  }

  /** Live workers are in the list, and executing ones are live. */
  lemma Ordered(ws: seq<Worker>)
    requires WorkersOk(ws)
    ensures Count(Active, ws) <= Count(Live, ws) <= Count(InList, ws)
  {
    CountLe(Active, ws, Live, ws);
    CountLe(Live, ws, InList, ws);
  }

  /** The steps that only read: the difference of size and activity is taken of numbers in the right order. */
  lemma ReadsInv(c: Config, s: State, s': State)
    requires Inv(c, s)
    requires EnqueueCounts(s, s') || EnqueueChecksFull(c, s, s') || EnqueueReadsFirst(s, s') || EnqueueReadsSecond(s, s')
    ensures Inv(c, s')
  {
    Ordered(s.workers);
  }

  lemma EraseCounts(ws: seq<Worker>)
    requires WorkersOk(ws)
    ensures WorkersOk(Erase(ws)) && Count(InList, Erase(ws)) <= Count(InList, ws)
    ensures Count(Live, Erase(ws)) == Count(Live, ws) && Count(Active, Erase(ws)) == Count(Active, ws)
  {
    var ws' := Erase(ws);
    CountLe(InList, ws', InList, ws);
    CountLe(Live, ws', Live, ws);
    CountLe(Live, ws, Live, ws');
    CountLe(Active, ws', Active, ws);
    CountLe(Active, ws, Active, ws');
  }

  lemma ErasesInv(c: Config, s: State, s': State)
    requires Inv(c, s) && (EnqueueErases(s, s') || CleanerErases(s, s'))
    ensures Inv(c, s')
  {
    EraseCounts(s.workers);
  }

  lemma CreatesInv(c: Config, s: State, s': State)
    requires Inv(c, s) && EnqueueCreates(s, s')
    ensures Inv(c, s')
  {
    forall kind: Kind { CountAdd(kind, s.workers, Worker(true, true, Born)); }
    assert forall w :: 0 <= w < |s.workers| ==> s'.workers[w] == s.workers[w];
  }

  // ---------------------------------------------------------------------------------------------
  // Cleanup and shutdown
  // ---------------------------------------------------------------------------------------------

  lemma DroppedCounts(ws: seq<Worker>)
    ensures Count(InList, Dropped(ws)) <= Count(InList, ws)
    ensures Count(Live, Dropped(ws)) == Count(Live, ws) && Count(Active, Dropped(ws)) == Count(Active, ws)
  {
    var ws' := Dropped(ws);
    CountLe(InList, ws', InList, ws);
    CountLe(Live, ws', Live, ws);
    CountLe(Live, ws, Live, ws');
    CountLe(Active, ws', Active, ws);
    CountLe(Active, ws, Active, ws');
  }

  lemma ClearsInv(c: Config, s: State, s': State)
    requires Inv(c, s) && ShutdownClears(s, s')
    ensures Inv(c, s')
  {
    DroppedCounts(s.workers);
  }

  lemma QuietInv(c: Config, s: State, s': State)
    requires Inv(c, s)
    requires
      || CleanerWakes(s, s') || CleanerCounts(s, s') || CleanerStops(s, s')
      || ShutdownStops(s, s') || ShutdownReturns(s, s')
    ensures Inv(c, s')
  {
  }

  lemma StepInv(c: Config, s: State, s': State, a: Action)
    requires Inv(c, s) && Step(c, s, s', a)
    ensures Inv(c, s')
  {
    match a
    case Starts(w) => StartsInv(c, s, s', w);
    case Stops(w) => LeavesInv(c, s, s', w);
    case Takes(w, k) => TakesInv(c, s, s', w, k);
    case Idles(w) => LeavesInv(c, s, s', w);
    case Activates(w) => ActivatesInv(c, s, s', w);
    case Executes(w) => ExecutesInv(c, s, s', w);
    case Deactivates(w) => DeactivatesInv(c, s, s', w);
    case Exits(w) => ExitsInv(c, s, s', w);
    case Pushes(priority) => PushesInv(c, s, s', priority);
    case Counts => ReadsInv(c, s, s');
    case Erases => ErasesInv(c, s, s');
    case ChecksFull => ReadsInv(c, s, s');
    case ReadsFirst => ReadsInv(c, s, s');
    case ReadsSecond => ReadsInv(c, s, s');
    case Creates => CreatesInv(c, s, s');
    case CleanWakes => QuietInv(c, s, s');
    case CleanCounts => QuietInv(c, s, s');
    case CleanErases => ErasesInv(c, s, s');
    case CleanStops => QuietInv(c, s, s');
    case ShutStops => QuietInv(c, s, s');
    case ShutClears => ClearsInv(c, s, s');
    case ShutReturns => QuietInv(c, s, s');
  }
}
