/**
 What single calls on an explicit producer's sub-queue do: a dequeue that is left alone receives the
 next element, an enqueue that returns has appended its element, and a new block is only asked for
 when the one ahead is still in use.
 */
module ExplicitQueueCalls {
  import opened BlockMath
  import opened ExplicitQueue
  import opened ExplicitQueueRuns
  import Overcommit
  import OvercommitCalls
  import Paths

  /** The step from state `i` is one of dequeuer `t`. */
  ghost predicate StepBy(run: seq<State>, i: nat, t: nat)
    requires i < |run| - 1
  {
    Shape(run[i]) && t < |run[i].readers| && DequeueStep(run[i], run[i + 1], t)
  }

  /** From state `i` on, `n` steps are made, all by dequeuer `t`. */
  ghost predicate Alone(run: seq<State>, i: nat, n: nat, t: nat) {
    i + n < |run| && forall k :: i <= k < i + n ==> StepBy(run, k, t)
  }

  /** Dequeuer `t` is about to begin, and something is available; the others may have stopped anywhere. */
  ghost predicate CanTake(s: State, t: nat) {
    && t < |s.readers| && s.readers[t].RIdle? && t < |s.oc.pcs| && s.oc.pcs[t] == Overcommit.Idle
    && OvercommitCalls.Available(s.oc) > 0
  }

  // ---------------------------------------------------------------------------------------------
  // A dequeue that is left alone
  // ---------------------------------------------------------------------------------------------

  /** A step on the counters only. */
  lemma CounterStep(run: seq<State>, i: nat, n: nat, t: nat, k: nat)
    requires Alone(run, i, n, t) && k < n && t < |run[i + k].readers| && run[i + k].readers[t].RIdle?
    requires t < |run[i + k].oc.pcs| && !run[i + k].oc.pcs[t].TakeHead?
    ensures run[i + k + 1] == run[i + k].(oc := run[i + k + 1].oc)
    ensures Overcommit.DequeueStep(run[i + k].oc, run[i + k + 1].oc, t)
    ensures run[i + k].oc.pcs[t].Idle? ==> run[i + k + 1].oc == Overcommit.Go(run[i + k].oc, t, Overcommit.LoadTail(1))
  {
    assert StepBy(run, i + k, t);
  }

  /** The call begins, reads the counters and finds that there is something. */
  lemma FindsSome(run: seq<State>, i: nat, t: nat)
    requires Alone(run, i, 7, t) && CanTake(run[i], t)
    ensures run[i + 4] == run[i].(oc := Overcommit.Go(run[i].oc, t, Overcommit.CountIn(run[i].oc.overcommit, 1)))
  {
    CounterStep(run, i, 7, t, 0);
    CounterStep(run, i, 7, t, 1);
    CounterStep(run, i, 7, t, 2);
    CounterStep(run, i, 7, t, 3);
    var s, a, d := run[i], run[i + 1], run[i + 4];
    OvercommitCalls.Decides(a.oc, run[i + 2].oc, run[i + 3].oc, d.oc, t, 1);
    assert s.oc.pcs[t := a.oc.pcs[t]][t := d.oc.pcs[t]] == s.oc.pcs[t := d.oc.pcs[t]];
  }

  lemma TakeStep(run: seq<State>, i: nat, n: nat, t: nat, k: nat)
    requires Alone(run, i, n, t) && k < n && t < |run[i + k].readers| && run[i + k].readers[t].RIdle?
    requires t < |run[i + k].oc.pcs| && run[i + k].oc.pcs[t].TakeHead?
    ensures run[i + k + 1] == GoRead(run[i + k], t, LoadIndex(run[i + k].oc.head)).(oc := run[i + k + 1].oc)
    ensures Overcommit.DequeueStep(run[i + k].oc, run[i + k + 1].oc, t)
  {
    assert StepBy(run, i + k, t);
  }

  /** Counts in and takes the next index. */
  lemma TakesIndex(run: seq<State>, i: nat, t: nat)
    requires Alone(run, i, 3, t) && t < |run[i].readers| && t < |run[i].oc.pcs| && run[i].readers[t].RIdle?
    requires run[i].oc.pcs[t] == Overcommit.CountIn(run[i].oc.overcommit, 1)
    requires run[i].oc.tail - (run[i].oc.count - run[i].oc.overcommit) >= 1
    ensures OvercommitCalls.Took(run[i].oc, run[i + 3].oc, t, 1)
    ensures run[i + 3] == GoRead(run[i], t, LoadIndex(run[i].oc.head)).(oc := run[i + 3].oc)
  {
    CounterStep(run, i, 3, t, 0);
    CounterStep(run, i, 3, t, 1);
    var b := run[i + 2];
    assert b.oc.pcs[t].TakeHead? && b.oc.head == run[i].oc.head;
    TakeStep(run, i, 3, t, 2);
    OvercommitCalls.Takes(run[i].oc, run[i + 1].oc, b.oc, run[i + 3].oc, t, 1);
  }

  lemma ReadStep(run: seq<State>, i: nat, n: nat, t: nat, k: nat)
    requires Alone(run, i, n, t) && k < n && t < |run[i + k].readers|
    requires var r := run[i + k].readers[t]; r.LoadIndex? || r.LoadFront? || r.ReadBase? || r.ReadBlock?
    ensures var s, s' := run[i + k], run[i + k + 1];
      && |s'.readers| == |s.readers| && s' == GoRead(s, t, s'.readers[t]) && s'.readers[t] != RIdle
      && s'.readers[t].i == s.readers[t].i
      && (s.readers[t].LoadIndex? ==> s'.readers[t].LoadFront?)
      && (s.readers[t].LoadFront? ==> s'.readers[t].ReadBase?)
      && (s.readers[t].ReadBase? ==> s'.readers[t].ReadBlock?)
      && (s.readers[t].ReadBlock? ==> s'.readers[t].Move?)
  {
    assert StepBy(run, i + k, t);
  }

  lemma Overwritten(readers: seq<Reader>, t: nat, a: Reader, b: Reader, c: Reader, d: Reader)
    requires t < |readers|
    ensures readers[t := a][t := b][t := c][t := d] == readers[t := d]
  {
  }

  /** Through the index to the block. */
  lemma FindsBlock(run: seq<State>, i: nat, t: nat)
    requires Alone(run, i, 6, t) && t < |run[i].readers| && run[i].readers[t].LoadIndex?
    ensures var s, d := run[i], run[i + 4];
      |d.readers| == |s.readers| && d == GoRead(s, t, d.readers[t]) && d.readers[t].Move? && d.readers[t].i == s.readers[t].i
  {
    ReadStep(run, i, 6, t, 0);
    ReadStep(run, i, 6, t, 1);
    ReadStep(run, i, 6, t, 2);
    ReadStep(run, i, 6, t, 3);
    Overwritten(run[i].readers, t, run[i + 1].readers[t], run[i + 2].readers[t], run[i + 3].readers[t], run[i + 4].readers[t]);
  }

  /** Moves the element out and sets its flag. */
  lemma MovesOut(s: State, a: State, b: State, t: nat)
    requires Core(s) && t < |s.readers| && s.readers[t].Move? && DequeueStep(s, a, t)
    requires Shape(a) && t < |a.readers| && DequeueStep(a, b, t)
    ensures Received(s, b, t, s.readers[t].i)
  {
    MoveGets(s, a, t);
    assert s.readers[t := a.readers[t]][t := RIdle] == s.readers[t := RIdle];
  }

  /** Dequeuer `t` has received the element of index `x` and is done with it. */
  ghost predicate Received(s: State, s': State, t: nat, x: nat)
    requires t < |s.readers|
  {
    && x < |s.log| && s'.received == s.received + [(x, s.log[x])] && s'.emptied == s.emptied + {x}
    && s'.readers == s.readers[t := RIdle] && s'.oc == s.oc && s'.log == s.log && s'.enq == s.enq
  }

  lemma MovesOutAt(run: seq<State>, i: nat, t: nat)
    requires Run(run) && Alone(run, i, 2, t) && t < |run[i].readers| && run[i].readers[t].Move?
    ensures Received(run[i], run[i + 2], t, run[i].readers[t].i)
  {
    RunInv(run, i);
    assert StepBy(run, i, t) && StepBy(run, i + 1, t);
    MovesOut(run[i], run[i + 1], run[i + 2], t);
  }

  lemma AlonePart(run: seq<State>, i: nat, n: nat, t: nat, j: nat, m: nat)
    requires Alone(run, i, n, t) && i <= j && j + m <= i + n
    ensures Alone(run, j, m, t)
  {
  }

  lemma LoneClaim(run: seq<State>, i: nat, t: nat)
    requires Run(run) && Alone(run, i, 7, t) && CanTake(run[i], t)
    ensures run[i + 7] == GoRead(run[i], t, LoadIndex(run[i].oc.head)).(oc := run[i + 7].oc)
    ensures run[i + 7].oc.head == run[i].oc.head + 1 && run[i + 7].oc.tail == run[i].oc.tail
    ensures run[i + 7].oc.pcs == run[i].oc.pcs
  {
    FindsSome(run, i, t);
    AlonePart(run, i, 7, t, i + 4, 3);
    TakesIndex(run, i + 4, t);
    var s := run[i];
    assert s.oc.pcs[t := run[i + 4].oc.pcs[t]][t := Overcommit.Idle] == s.oc.pcs;
  }

  lemma LoneRead(run: seq<State>, i: nat, t: nat)
    requires Run(run) && Alone(run, i, 6, t) && t < |run[i].readers| && run[i].readers[t].LoadIndex?
    ensures Received(run[i], run[i + 6], t, run[i].readers[t].i)
  {
    FindsBlock(run, i, t);
    AlonePart(run, i, 6, t, i + 4, 2);
    MovesOutAt(run, i + 4, t);
    var s := run[i];
    assert s.readers[t := run[i + 4].readers[t]][t := RIdle] == s.readers[t := RIdle];
  }

  /**
   A dequeue that is left alone, wherever the enqueuing thread and the other dequeuers have stopped,
   receives the element of the next index if one is available, by thirteen steps.
   */
  lemma LoneDequeue(run: seq<State>, i: nat, t: nat)
    requires Run(run) && Alone(run, i, 13, t) && CanTake(run[i], t)
    ensures var s, s' := run[i], run[i + 13];
      && s.oc.head < |s.log| && s'.received == s.received + [(s.oc.head, s.log[s.oc.head])]
      && s'.emptied == s.emptied + {s.oc.head} && s'.oc.head == s.oc.head + 1 && s'.oc.tail == s.oc.tail
      && s'.readers == s.readers && s'.oc.pcs == s.oc.pcs && s'.log == s.log && s'.enq == s.enq
  {
    AlonePart(run, i, 13, t, i, 7);
    AlonePart(run, i, 13, t, i + 7, 6);
    LoneClaim(run, i, t);
    LoneRead(run, i + 7, t);
    var s := run[i];
    assert s.readers[t := run[i + 7].readers[t]][t := RIdle] == s.readers;
  }

  /** And when no other dequeue is under way, an element is available as long as the queue is not empty. */
  lemma SomethingAvailable(run: seq<State>, i: nat)
    requires Run(run) && i < |run| && run[i].oc.head < run[i].oc.tail
    requires forall u :: 0 <= u < |run[i].oc.pcs| ==> run[i].oc.pcs[u] == Overcommit.Idle
    ensures OvercommitCalls.Available(run[i].oc) == run[i].oc.tail - run[i].oc.head
  {
    RunInv(run, i);
    OvercommitCalls.NobodyCountedIn(run[i].oc);
  }

  /** A dequeuer is never blocked. */
  lemma DequeueGoes(s: State, t: nat) returns (s': State)
    requires Shape(s) && t < |s.readers|
    ensures DequeueStep(s, s', t)
  {
    match s.readers[t]
    case RIdle =>
      var oc := Overcommit.DequeueGoes(s.oc, t);
      if s.oc.pcs[t].Idle? { oc := Overcommit.Go(s.oc, t, Overcommit.LoadTail(1)); }
      s' := (if s.oc.pcs[t].TakeHead? then GoRead(s, t, LoadIndex(s.oc.head)) else s).(oc := oc);
    case LoadIndex(i) => s' := GoRead(s, t, LoadFront(i, |s.headers| - 1));
    case LoadFront(i, h) => s' := GoRead(s, t, ReadBase(i, h, s.headers[h].front));
    case ReadBase(i, h, f) =>
      s' := GoRead(s, t, ReadBlock(i, h, LookupSlot(i, f, s.headers[h].entries[f].base, s.size, s.headers[h].size)));
    case ReadBlock(i, h, slot) => s' := GoRead(s, t, Move(i, s.headers[h].entries[slot].block));
    case Move(i, b) =>
      var cell := s.cells[b][Offset(i, s.size)];
      var e := if cell.Full? then cell.e else 0;
      s' := GoRead(s, t, SetEmpty(i, b))
            .(cells := s.cells[b := s.cells[b][Offset(i, s.size) := Empty]],
              moved := s.moved + {i},
              received := s.received + [(i, e)]);
    case SetEmpty(i, b) =>
      s' := GoRead(s, t, RIdle)
            .(flags := s.flags[b := s.flags[b][FlagAt(Offset(i, s.size), s.size) := true]],
              emptied := s.emptied + {i});
  }

  lemma RunThen(run: seq<State>, s': State)
    requires Run(run) && Step(run[|run| - 1], s')
    ensures Run(run + [s'])
  {
    var run' := run + [s'];
    forall k: nat | k < |run'| - 1 ensures Paths.LinkAt(Steps(), run', k) {
      if k < |run| - 1 { assert Paths.LinkAt(Steps(), run, k); }
    }
  }

  lemma DequeueIsStep(s: State, s': State, t: nat)
    requires Shape(s) && t < |s.readers| && DequeueStep(s, s', t)
    ensures Step(s, s')
  {
  }

  lemma ReadersStay(s: State, s': State, t: nat)
    requires Shape(s) && t < |s.readers| && DequeueStep(s, s', t)
    ensures |s'.readers| == |s.readers|
  {
  }

  lemma AloneMore(run: seq<State>, s': State, i: nat, n: nat, t: nat)
    requires Alone(run, i, n, t) && i + n == |run| - 1
    requires Shape(run[|run| - 1]) && t < |run[|run| - 1].readers| && DequeueStep(run[|run| - 1], s', t)
    ensures Alone(run + [s'], i, n + 1, t)
  {
    var run' := run + [s'];
    forall k | i <= k < i + (n + 1) ensures StepBy(run', k, t) {
      if k < i + n { assert StepBy(run, k, t); }
    }
  }

  /** A dequeuer can make any number of steps alone, whatever the others are in the middle of. */
  lemma {:induction false} RunsAlone(run: seq<State>, t: nat, n: nat) returns (run': seq<State>)
    requires Run(run) && t < |run[|run| - 1].readers|
    ensures Run(run') && run <= run' && Alone(run', |run| - 1, n, t) && |run'| == |run| + n
    ensures t < |run'[|run'| - 1].readers|
    decreases n
  {
    if n == 0 {
      run' := run;
    } else {
      var most := RunsAlone(run, t, n - 1);
      var s := most[|most| - 1];
      RunInv(most, |most| - 1);
      var s' := DequeueGoes(s, t);
      DequeueIsStep(s, s', t);
      ReadersStay(s, s', t);
      RunThen(most, s');
      AloneMore(most, s', |run| - 1, n - 1, t);
      run' := most + [s'];
    }
  }

  // ---------------------------------------------------------------------------------------------
  // Enqueue
  // ---------------------------------------------------------------------------------------------

  /** Inside a call the element stays the one it was called with, and is appended when the call returns. */
  lemma EnqueueOne(s: State, s': State)
    requires Shape(s) && EnqueueStep(s, s') && !s.enq.EIdle?
    ensures !s'.enq.EIdle? ==> s'.enq.e == s.enq.e && s'.log == s.log && s'.oc == s.oc
    ensures s'.enq.EIdle? ==> s'.log == s.log + [s.enq.e] && s'.oc == s.oc.(tail := s.oc.tail + 1)
  {
  }

  lemma DequeueLeaves(s: State, s': State, t: nat)
    requires Shape(s) && t < |s.readers| && DequeueStep(s, s', t)
    ensures s'.enq == s.enq && s'.log == s.log && s'.oc.tail == s.oc.tail
  {
  }

  lemma StepOne(s: State, s': State)
    requires Step(s, s') && !s.enq.EIdle?
    ensures !s'.enq.EIdle? ==> s'.enq.e == s.enq.e && s'.log == s.log && s'.oc.tail == s.oc.tail
    ensures s'.enq.EIdle? ==> s'.log == s.log + [s.enq.e] && s'.oc.tail == s.oc.tail + 1
  {
    if t :| 0 <= t < |s.readers| && DequeueStep(s, s', t) { DequeueLeaves(s, s', t); } else { EnqueueOne(s, s'); }
  }

  lemma StepOfRun(run: seq<State>, i: nat)
    requires Run(run) && i + 1 < |run|
    ensures Step(run[i], run[i + 1])
  {
    assert Paths.LinkAt(Steps(), run, i);
  }

  /** From its first step, at state `j`, the call has been under way up to state `i`. */
  ghost predicate Enqueueing(run: seq<State>, j: nat, i: nat, e: Element) {
    j <= i < |run| && run[j].enq == Begin(e) && forall k :: j <= k <= i ==> !run[k].enq.EIdle?
  }

  lemma {:induction false} CallKeeps(run: seq<State>, j: nat, i: nat, e: Element)
    requires Run(run) && Enqueueing(run, j, i, e)
    ensures run[i].enq.e == e && run[i].log == run[j].log && run[i].oc.tail == run[j].oc.tail
    decreases i
  {
    if j < i {
      CallKeeps(run, j, i - 1, e);
      StepOfRun(run, i - 1);
      StepOne(run[i - 1], run[i]);
    }
  }

  /** An enqueue that returns has appended its element, once, and made it visible; before that it has appended nothing. */
  lemma EnqueueAppends(run: seq<State>, j: nat, i: nat, e: Element)
    requires Run(run) && Enqueueing(run, j, i, e) && i + 1 < |run| && run[i + 1].enq.EIdle?
    ensures run[i + 1].log == run[j].log + [e] && run[i + 1].oc.tail == run[j].oc.tail + 1
  {
    CallKeeps(run, j, i, e);
    StepOfRun(run, i);
    StepOne(run[i], run[i + 1]);
  }

  /** The block ahead has an element that is not completely dequeued. */
  ghost predicate AheadInUse(s: State)
    requires s.size > 0
  {
    exists x: nat :: Number(x, s.size) == Oldest(s) && x !in s.emptied
  }

  lemma FlagClear(s: State, j: nat)
    requires Core(s) && s.enq.ScanFlag? && j == s.enq.j && !s.flags[s.next[s.tailBlock]][j]
    ensures AheadInUse(s)
  {
    var m, o := Oldest(s), s.size - 1 - j;
    assert FlagOk(s, m, o);
    SplitOf(m, o, s.size);
    assert Number(Base(m, s.size) + o, s.size) == m;
  }

  lemma SplitOf(m: nat, o: nat, size: nat)
    requires size > 0 && o < size
    ensures Number(Base(m, size) + o, size) == m
  {
    NumberBelow(Base(m, size) + o, m, size);
    NumberBelow(Base(m, size) + o, m + 1, size);
  }

  lemma NeedsBlock(s: State, s': State)
    requires Core(s) && EnqueueStep(s, s') && s'.enq.Grow? && !s.enq.Grow?
    ensures s.used == 0 || AheadInUse(s)
  {
    if s.enq.ScanFlag? { FlagClear(s, s.enq.j); }
  }

  /** Another block is only asked for when there is none yet, or the one ahead in the ring is still in use. */
  lemma BlockIsNeeded(run: seq<State>, i: nat)
    requires Run(run) && i + 1 < |run| && run[i + 1].enq.Grow? && !run[i].enq.Grow?
    ensures run[i].size > 0 && (run[i].used == 0 || AheadInUse(run[i]))
  {
    RunInv(run, i);
    StepOfRun(run, i);
    var s, s' := run[i], run[i + 1];
    if t :| 0 <= t < |s.readers| && DequeueStep(s, s', t) {
      DequeueLeaves(s, s', t);
      assert false;
    }
    NeedsBlock(s, s');
  }

  /** The block index is replaced only when every entry of it is in use, and then by one twice the size. */
  lemma IndexIsNeeded(run: seq<State>, i: nat)
    requires Run(run) && i + 1 < |run| && |run[i + 1].headers| != |run[i].headers|
    ensures |run[i].headers| > 0 && |run[i + 1].headers| == |run[i].headers| + 1
    ensures run[i].used == Last(run[i]).size && Last(run[i + 1]).size == 2 * run[i].used
  {
    RunInv(run, i);
    StepOfRun(run, i);
    var s, s' := run[i], run[i + 1];
    if t :| 0 <= t < |s.readers| && DequeueStep(s, s', t) {
      HeadersStay(s, s', t);
      assert false;
    }
    IndexGrows(s, s');
  }

  lemma HeadersStay(s: State, s': State, t: nat)
    requires Shape(s) && t < |s.readers| && DequeueStep(s, s', t)
    ensures s'.headers == s.headers
  {
  }

  lemma IndexGrows(s: State, s': State)
    requires Shape(s) && EnqueueStep(s, s') && |s'.headers| != |s.headers|
    ensures |s'.headers| == |s.headers| + 1 && s.used == Last(s).size && Last(s').size == 2 * s.used
  {
  }

  /** There is a block in the pool. */
  ghost predicate Spare(s: State) { exists b :: 0 <= b < |s.next| && b !in Ring(s) }

  /** Steps that an enqueue has left, at most. */
  function Left(s: State): int {
    match s.enq
    case EIdle => 0
    case Begin(_) => 2 * s.size + 9
    case ScanFlag(_, j) => 2 * s.size + 8 - j
    case Grow(_) => s.size + 7
    case Acquire(_) => s.size + 6
    case ResetFlag(_, j) => s.size + 5 - j
    case PutBase(_) => 5
    case PutBlock(_) => 4
    case PutFront(_) => 3
    case Construct(_) => 2
    case PutTail(_) => 1
  }

  /** Before it has a block it needs one in the pool; after that it does not. */
  ghost predicate CanGo(s: State) {
    s.enq.Begin? || s.enq.ScanFlag? || s.enq.Grow? || s.enq.Acquire? ==> Spare(s)
  }

  lemma SpareKept(s: State, s': State)
    requires s'.blockOf == s.blockOf && s'.used == s.used && |s'.next| == |s.next|
    ensures Spare(s) ==> Spare(s')
  {
    assert Ring(s') == Ring(s);
  }

  lemma GrowGoes(s: State) returns (s': State)
    requires Shape(s) && s.enq.Grow? && Spare(s)
    ensures EnqueueStep(s, s') && CanGo(s') && 0 <= Left(s') < Left(s)
  {
    var e := s.enq.e;
    if s.used == Last(s).size {
      var entries := Last(s).entries;
      var grown := seq(2 * |entries|, j requires 0 <= j < 2 * |entries| =>
        if j < s.used then entries[Wrap(s.prFront - s.used + j, |entries|)] else Entry(0, 0));
      assert IsCopy(grown, entries, s.prFront, s.used);
      s' := s.(enq := Acquire(e), prFront := s.used,
               headers := s.headers + [Header(2 * Last(s).size, grown, s.used - 1)],
               shifts := s.shifts + [s.used - |s.blockOf|],
               tops := s.tops + [s.tops[|s.tops| - 1]],
               lows := s.lows[|s.lows| - 1 := Oldest(s)] + [0]);
    } else {
      s' := s.(enq := Acquire(e));
    }
    SpareKept(s, s');
  }

  lemma AcquireGoes(s: State) returns (s': State)
    requires Shape(s) && s.enq.Acquire? && Spare(s)
    ensures EnqueueStep(s, s') && CanGo(s') && 0 <= Left(s') < Left(s)
  {
    var b :| 0 <= b < |s.next| && b !in Ring(s);
    s' := s.(enq := ResetFlag(s.enq.e, 0), tailBlock := b, used := s.used + 1, blockOf := s.blockOf + [b],
             next := if s.used == 0 then s.next[b := b] else s.next[b := s.next[s.tailBlock]][s.tailBlock := b]);
  }

  lemma BeginGoes(s: State) returns (s': State)
    requires Shape(s) && CanGo(s) && s.enq.Begin?
    ensures EnqueueStep(s, s') && CanGo(s') && 0 <= Left(s') < Left(s)
  {
    var e := s.enq.e;
    s' := s.(enq := if Offset(s.oc.tail, s.size) != 0 then Construct(e) else if s.used == 0 then Grow(e) else ScanFlag(e, 0));
    SpareKept(s, s');
  }

  lemma ScanGoes(s: State) returns (s': State)
    requires Shape(s) && CanGo(s) && s.enq.ScanFlag?
    ensures EnqueueStep(s, s') && CanGo(s') && 0 <= Left(s') < Left(s)
  {
    var ScanFlag(e, j) := s.enq;
    var ahead := s.next[s.tailBlock];
    if s.flags[ahead][j] && j + 1 == s.size {
      s' := s.(enq := ResetFlag(e, 0), tailBlock := ahead, blockOf := s.blockOf + [ahead]);
    } else {
      s' := s.(enq := if s.flags[ahead][j] then ScanFlag(e, j + 1) else Grow(e));
      SpareKept(s, s');
    }
  }

  lemma EntryGoes(s: State) returns (s': State)
    requires Shape(s) && (s.enq.ResetFlag? || s.enq.PutBase? || s.enq.PutBlock? || s.enq.PutFront? || s.enq.Construct? || s.enq.PutTail?)
    ensures EnqueueStep(s, s') && CanGo(s') && 0 <= Left(s') < Left(s)
  {
    match s.enq
    case ResetFlag(e, j) =>
      s' := s.(enq := if j + 1 < s.size then ResetFlag(e, j + 1) else PutBase(e),
               flags := s.flags[s.tailBlock := s.flags[s.tailBlock][j := false]]);
    case PutBase(e) => s' := Rewrite(s, Last(s).entries[s.prFront].(base := s.oc.tail)).(enq := PutBlock(e));
    case PutBlock(e) => s' := Rewrite(s, Last(s).entries[s.prFront].(block := s.tailBlock)).(enq := PutFront(e));
    case PutFront(e) =>
      var h := |s.headers| - 1;
      s' := s.(enq := Construct(e),
               headers := s.headers[h := s.headers[h].(front := s.prFront)],
               tops := s.tops[h := s.tops[h] + 1],
               prFront := Wrap(s.prFront + 1, Last(s).size));
    case Construct(e) =>
      s' := s.(enq := PutTail(e),
               cells := s.cells[s.tailBlock := s.cells[s.tailBlock][Offset(s.oc.tail, s.size) := Full(e)]]);
    case PutTail(e) => s' := s.(enq := EIdle, oc := s.oc.(tail := s.oc.tail + 1), log := s.log + [e]);
  }

  lemma EnqueueGoes(s: State) returns (s': State)
    requires Shape(s) && CanGo(s) && !s.enq.EIdle?
    ensures EnqueueStep(s, s') && CanGo(s') && 0 <= Left(s') < Left(s)
  {
    if s.enq.Begin? {
      s' := BeginGoes(s);
    } else if s.enq.ScanFlag? {
      s' := ScanGoes(s);
    } else if s.enq.Grow? {
      s' := GrowGoes(s);
    } else if s.enq.Acquire? {
      s' := AcquireGoes(s);
    } else {
      s' := EntryGoes(s);
    }
  }

  lemma EnqueueIsStep(s: State, s': State)
    requires Shape(s) && EnqueueStep(s, s')
    ensures Step(s, s')
  {
  }

  /** One step of the enqueuer, from the end of a run. */
  lemma EnqueueNext(run: seq<State>) returns (s': State)
    requires Run(run) && !run[|run| - 1].enq.EIdle? && CanGo(run[|run| - 1])
    ensures Run(run + [s']) && CanGo(s') && 0 <= Left(s') < Left(run[|run| - 1]) && s'.readers == run[|run| - 1].readers
  {
    var s := run[|run| - 1];
    RunInv(run, |run| - 1);
    s' := EnqueueGoes(s);
    EnqueueIsStep(s, s');
    ReadersKeptBy(s, s');
    RunThen(run, s');
  }

  /** And it does return: with a block in the pool, or past the need for one, by its own steps. */
  lemma {:induction false} EnqueueReturns(run: seq<State>) returns (run': seq<State>)
    requires Run(run) && !run[|run| - 1].enq.EIdle? && CanGo(run[|run| - 1])
    ensures Run(run') && run < run' && run'[|run'| - 1].enq.EIdle?
    ensures forall k :: |run| <= k < |run'| - 1 ==> !run'[k].enq.EIdle?
    ensures forall k :: |run| <= k < |run'| ==> run'[k].readers == run[|run| - 1].readers
    decreases Left(run[|run| - 1])
  {
    var s' := EnqueueNext(run);
    run' := run + [s'];
    if !s'.enq.EIdle? { run' := EnqueueReturns(run + [s']); }
  }

  lemma ReadersKeptBy(s: State, s': State)
    requires Shape(s) && EnqueueStep(s, s')
    ensures s'.readers == s.readers
  {
  }
}
