/** What a dequeue does that is left alone: it takes as much as it asks for, or as much as there is. */
module OvercommitCalls {
  import opened Overcommit

  /** The step from state `i` is one of dequeuer `t`. */
  ghost predicate StepBy(run: seq<State>, i: nat, t: nat)
    requires i < |run| - 1
  {
    t < |run[i].pcs| && DequeueStep(run[i], run[i + 1], t)
  }

  /** From state `i` on, `n` steps are made, all by dequeuer `t`. */
  ghost predicate Alone(run: seq<State>, i: nat, n: nat, t: nat) {
    i + n < |run| && forall k :: i <= k < i + n ==> StepBy(run, k, t)
  }

  /** From `s` to `s'` exactly the next `n` indices have been taken; nothing else that counts has changed. */
  ghost predicate Took(s: State, s': State, t: nat, n: nat)
    requires t < |s.pcs|
  {
    && s'.tail == s.tail && s'.head == s.head + n && s'.pcs == s.pcs[t := Idle]
    && s'.count == s.count + n && s'.overcommit == s.overcommit
    && s'.claims == s.claims + if n > 0 then [(s.head, s.head + n)] else []
  }

  lemma NobodyCountedIn(s: State)
    requires Inv(s) && forall t :: 0 <= t < |s.pcs| ==> !HasTicket(s.pcs[t])
    ensures s.count - s.overcommit == s.head <= s.tail
  {
    forall k | 0 <= k < |s.book.desired| ensures Settled(s.book, k) { assert Settled(s.book, k) || Held(s.pcs, k); }
    SettledSums(s.book);
    HeadBound(s);
  }

  /** The three reads and the decision. */
  lemma Decides(s: State, a: State, b: State, c: State, t: nat, max: nat)
    requires t < |s.pcs| && s.pcs[t] == LoadTail(max) && DequeueStep(s, a, t)
    requires t < |a.pcs| && DequeueStep(a, b, t) && t < |b.pcs| && DequeueStep(b, c, t)
    ensures var available := s.tail - (s.count - s.overcommit);
            c == Go(s, t, if available > 0 then CountIn(s.overcommit, Min(available, max)) else Idle)
  {
    assert s.pcs[t := a.pcs[t]][t := b.pcs[t]] == s.pcs[t := b.pcs[t]];
    assert s.pcs[t := b.pcs[t]][t := c.pcs[t]] == s.pcs[t := c.pcs[t]];
  }

  /** Counting in, finding all of it there, and taking it. */
  lemma Takes(s: State, a: State, b: State, c: State, t: nat, desired: nat)
    requires t < |s.pcs| && s.pcs[t] == CountIn(s.overcommit, desired) && desired >= 1
    requires s.tail - (s.count - s.overcommit) >= desired && DequeueStep(s, a, t)
    requires t < |a.pcs| && DequeueStep(a, b, t) && t < |b.pcs| && DequeueStep(b, c, t)
    ensures Took(s, c, t, desired)
  {
    assert b.pcs[t].TakeHead? && b.pcs[t].granted == desired;
    assert s.pcs[t := a.pcs[t]][t := b.pcs[t]] == s.pcs[t := b.pcs[t]];
    assert s.pcs[t := b.pcs[t]][t := c.pcs[t]] == s.pcs[t := c.pcs[t]];
  }

  /** What a dequeuer may still take: what is below the tail and no other has counted itself in for. */
  function Available(s: State): nat {
    if s.tail - (s.count - s.overcommit) > 0 then s.tail - (s.count - s.overcommit) else 0
  }

  /** That is never more than there is, and all there is when no other has stopped in the middle. */
  lemma AvailableIsThere(run: seq<State>, i: nat)
    requires Run(run) && i < |run|
    ensures run[i].head <= run[i].tail && Available(run[i]) <= run[i].tail - run[i].head
    ensures (forall t :: 0 <= t < |run[i].pcs| ==> !HasTicket(run[i].pcs[t])) ==> Available(run[i]) == run[i].tail - run[i].head
  {
    RunInv(run, i);
    var s := run[i];
    HeadBound(s);
    forall k | 0 <= k < |s.book.desired| ensures s.book.taken[k] + s.book.returned[k] <= s.book.desired[k] {
      assert EntryOk(s.book, k, s.tail);
    }
    SharesFit(s.book.taken, s.book.returned, s.book.desired);
    if forall t :: 0 <= t < |s.pcs| ==> !HasTicket(s.pcs[t]) { NobodyCountedIn(s); }
  }

  /**
   A dequeue that is left alone, wherever the others have stopped, takes the next indices, as many as
   it asked for if so many are available, by six steps; and if none is it says so, by three, and has
   changed nothing.
   */
  lemma LoneDequeue(run: seq<State>, i: nat, t: nat, max: nat)
    requires Run(run) && i < |run| && max >= 1 && t < |run[i].pcs| && run[i].pcs[t] == LoadTail(max)
    requires Alone(run, i, if Available(run[i]) > 0 then 6 else 3, t)
    ensures Took(run[i], run[if Available(run[i]) > 0 then i + 6 else i + 3], t, Min(max, Available(run[i])))
  {
    var s := run[i];
    assert StepBy(run, i, t) && StepBy(run, i + 1, t) && StepBy(run, i + 2, t);
    Decides(s, run[i + 1], run[i + 2], run[i + 3], t, max);
    if Available(s) > 0 {
      assert StepBy(run, i + 3, t) && StepBy(run, i + 4, t) && StepBy(run, i + 5, t);
      Takes(run[i + 3], run[i + 4], run[i + 5], run[i + 6], t, Min(max, Available(s)));
      assert s.pcs[t := run[i + 3].pcs[t]][t := Idle] == s.pcs[t := Idle];
    }
  }

  /** A dequeuer can make any number of steps alone, whatever the others are in the middle of. */
  lemma {:induction false} RunsAlone(run: seq<State>, t: nat, n: nat) returns (run': seq<State>)
    requires Run(run) && t < |run[|run| - 1].pcs|
    ensures Run(run') && run <= run' && Alone(run', |run| - 1, n, t) && |run'| == |run| + n
    ensures t < |run'[|run'| - 1].pcs|
    decreases n
  {
    if n == 0 {
      run' := run;
    } else {
      var most := RunsAlone(run, t, n - 1);
      var s' := DequeueGoes(most[|most| - 1], t);
      run' := most + [s'];
      StepsKept(most, s', |run| - 1, n - 1, t);
    }
  }

  lemma StepsKept(run: seq<State>, s': State, i: nat, n: nat, t: nat)
    requires Run(run) && Alone(run, i, n, t) && i + n == |run| - 1 && t < |run[|run| - 1].pcs|
    requires DequeueStep(run[|run| - 1], s', t)
    ensures Run(run + [s']) && Alone(run + [s'], i, n + 1, t)
  {
    var run' := run + [s'];
    forall k | 0 <= k < |run'| - 1 ensures StepAt(run', k) {
      if k < |run| - 1 { assert StepAt(run, k); }
    }
    forall k | i <= k < i + (n + 1) ensures StepBy(run', k, t) {
      if k < i + n { assert StepBy(run, k, t); }
    }
  }
}
