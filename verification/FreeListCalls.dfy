/**
 What single calls of the free list do: a call that is left alone adds or gets, and a `try_get` that
 comes back without a node has seen an empty list.
 */
module FreeListCalls {
  import opened FreeList

  /** The step from state `i` is one of thread `t`. */
  ghost predicate StepBy(run: seq<State>, i: nat, t: Thread)
    requires i < |run| - 1
  {
    Typed(run[i]) && t < |run[i].pcs| && Step(run[i], run[i + 1], t)
  }

  /** From state `i` on, `n` steps are made, all by thread `t`. */
  ghost predicate Alone(run: seq<State>, i: nat, n: nat, t: Thread) {
    i + n < |run| && forall k :: i <= k < i + n ==> StepBy(run, k, t)
  }

  // ---------------------------------------------------------------------------------------------
  // Left alone
  // ---------------------------------------------------------------------------------------------

  /** The front node has the list's reference, and perhaps some of readers that have stopped on their way. */
  lemma FrontRefs(s: State, place: seq<Place>, list: seq<Node>)
    requires Inv(s, place, list) && s.head.Some?
    ensures s.head.value < |s.refs| == |s.next| && 1 <= s.refs[s.head.value] < SHOULD_BE_ON_FREELIST - 1
    ensures s.head.value !in s.owned
  {
    var n := s.head.value;
    assert n == list[0] && n in list;
    assert RefsOk(s.refs[n], place[n], s.pcs, n);
    CountBound(s.pcs, n);
  }

  /** Memory after `try_get` has taken the front node: the list's reference to it is gone. */
  ghost predicate Got(s: State, s': State, t: Thread)
    requires s.head.Some? && s.head.value < |s.refs| == |s.next| && t < |s.pcs|
  {
    var n := s.head.value;
    s.refs[n] >= 1 && s' == Go(s, t, Idle).(head := s.next[n], refs := s.refs[n := s.refs[n] - 1], owned := s.owned + {n})
  }

  lemma TwoSteps(s: State, a: State, b: State, t: Thread)
    requires Typed(s) && t < |s.pcs| && s.pcs[t].GetLoad? && s.head.Some? && 1 <= s.refs[s.head.value] < SHOULD_BE_ON_FREELIST
    requires Step(s, a, t) && Typed(a) && t < |a.pcs| && Step(a, b, t)
    ensures b == Go(s, t, GetBump(s.head.value, s.refs[s.head.value]))
  {
    assert a == Go(s, t, GetRefs(s.head.value));
    assert s.pcs[t := a.pcs[t]][t := b.pcs[t]] == s.pcs[t := b.pcs[t]];
  }

  lemma ThreeSteps(s: State, a: State, b: State, c: State, t: Thread, n: Node, r: nat)
    requires Typed(s) && t < |s.pcs| && s.pcs[t] == GetBump(n, r) && s.head == Some(n) && s.refs[n] == r < WORD - 1
    requires Step(s, a, t) && Typed(a) && t < |a.pcs| && Step(a, b, t) && Typed(b) && t < |b.pcs| && Step(b, c, t)
    ensures c == Go(s, t, GetTake(n)).(refs := s.refs[n := r + 1], head := s.next[n])
  {
    assert a == Go(s, t, GetNext(n)).(refs := s.refs[n := r + 1]);
    assert b == Go(s, t, GetCas(n, s.next[n])).(refs := s.refs[n := r + 1]) by {
      assert s.pcs[t := a.pcs[t]][t := b.pcs[t]] == s.pcs[t := b.pcs[t]];
    }
    assert s.pcs[t := b.pcs[t]][t := c.pcs[t]] == s.pcs[t := c.pcs[t]];
  }

  lemma LastStep(s: State, a: State, t: Thread, n: Node, r: nat)
    requires Typed(s) && t < |s.pcs| && s.pcs[t] == GetTake(n) && s.refs[n] == r + 1 && r >= 1 && Step(s, a, t)
    ensures a == Go(s, t, Idle).(refs := s.refs[n := r - 1], owned := s.owned + {n})
  {
  }

  /**
   A `try_get` that is left alone on a list that is not empty returns the node that was at its front,
   wherever the other threads have stopped: after its six steps the caller owns that node, which
   nobody owned before, and the list begins with the next one.
   */
  lemma LoneGet(run: seq<State>, i: nat, t: Thread)
    requires Run(run) && Alone(run, i, 6, t) && t < |run[i].pcs| && run[i].pcs[t].GetLoad? && run[i].head.Some?
    ensures run[i].head.value < |run[i].refs| == |run[i].next| && run[i].head.value !in run[i].owned
    ensures Got(run[i], run[i + 6], t)
  {
    var place, list := RunInv(run, i);
    var s, n := run[i], run[i].head.value;
    FrontRefs(s, place, list);
    var r := s.refs[n];
    assert StepBy(run, i, t) && StepBy(run, i + 1, t) && StepBy(run, i + 2, t);
    assert StepBy(run, i + 3, t) && StepBy(run, i + 4, t) && StepBy(run, i + 5, t);
    TwoSteps(s, run[i + 1], run[i + 2], t);
    ThreeSteps(run[i + 2], run[i + 3], run[i + 4], run[i + 5], t, n, r);
    LastStep(run[i + 5], run[i + 6], t, n, r);
    GotIs(s, run[i + 2], run[i + 5], run[i + 6], t, n, r);
  }

  lemma GotIs(s: State, b: State, c: State, d: State, t: Thread, n: Node, r: nat)
    requires t < |s.pcs| && s.head == Some(n) && n < |s.refs| == |s.next| && s.refs[n] == r >= 1
    requires b == Go(s, t, GetBump(n, r))
    requires c == Go(b, t, GetTake(n)).(refs := b.refs[n := r + 1], head := b.next[n])
    requires d == Go(c, t, Idle).(refs := c.refs[n := r - 1], owned := c.owned + {n})
    ensures Got(s, d, t)
  {
    assert s.pcs[t := b.pcs[t]][t := c.pcs[t]][t := Idle] == s.pcs[t := Idle];
    assert s.refs[n := r + 1][n := r - 1] == s.refs[n := r - 1];
  }

  /** Memory after `add` has put its node at the front. */
  ghost predicate Put(s: State, s': State, t: Thread, n: Node)
    requires n < |s.refs| == |s.next| && t < |s.pcs|
  {
    s' == Go(s, t, Idle).(head := Some(n), next := s.next[n := s.head], refs := s.refs[n := 1])
  }

  lemma MarkAndLoad(s: State, a: State, b: State, t: Thread, n: Node)
    requires Typed(s) && t < |s.pcs| && s.pcs[t] == AddMark(n) && s.refs[n] == 0
    requires Step(s, a, t) && Typed(a) && t < |a.pcs| && Step(a, b, t)
    ensures b == Go(s, t, LinkNext(n, s.head, Return)).(refs := s.refs[n := SHOULD_BE_ON_FREELIST])
  {
    assert a == Go(s, t, LinkLoad(n, Return)).(refs := s.refs[n := SHOULD_BE_ON_FREELIST]);
    assert s.pcs[t := a.pcs[t]][t := b.pcs[t]] == s.pcs[t := b.pcs[t]];
  }

  lemma LinkSteps(s: State, a: State, b: State, c: State, t: Thread, n: Node)
    requires Typed(s) && t < |s.pcs| && s.pcs[t] == LinkNext(n, s.head, Return)
    requires Step(s, a, t) && Typed(a) && t < |a.pcs| && Step(a, b, t) && Typed(b) && t < |b.pcs| && Step(b, c, t)
    ensures Put(s, c, t, n)
  {
    assert a == Go(s, t, LinkRefs(n, s.head, Return)).(next := s.next[n := s.head]);
    assert b == Go(s, t, LinkCas(n, s.head, Return)).(next := s.next[n := s.head], refs := s.refs[n := 1]) by {
      assert s.pcs[t := a.pcs[t]][t := b.pcs[t]] == s.pcs[t := b.pcs[t]];
    }
    assert s.pcs[t := b.pcs[t]][t := c.pcs[t]] == s.pcs[t := c.pcs[t]];
  }

  /**
   An `add` that is left alone, wherever the others have stopped: a node that no reader still holds is
   put at the front of the list, by five steps; otherwise only its bit is set, by one, and the linking
   is left to the last of those readers.
   */
  lemma LoneAdd(run: seq<State>, i: nat, t: Thread)
    requires Run(run) && i < |run| && t < |run[i].pcs| && run[i].pcs[t].AddMark?
    requires run[i].pcs[t].n < |run[i].refs| && Alone(run, i, if run[i].refs[run[i].pcs[t].n] == 0 then 5 else 1, t)
    ensures run[i].pcs[t].n < |run[i].refs| == |run[i].next|
    ensures var s, n := run[i], run[i].pcs[t].n;
      if s.refs[n] == 0 then Put(s, run[i + 5], t, n)
      else run[i + 1] == Go(s, t, Idle).(refs := s.refs[n := s.refs[n] + SHOULD_BE_ON_FREELIST]) && Readers(s.pcs, n) != {}
  {
    var place, list := RunInv(run, i);
    var s, n := run[i], run[i].pcs[t].n;
    assert RefsOk(s.refs[n], place[n], s.pcs, n) && PcAgrees(s.pcs[t], t, place, s.next);
    CountBound(s.pcs, n);
    assert StepBy(run, i, t);
    if s.refs[n] == 0 { LonePut(run, i, t, n); }
  }

  lemma LonePut(run: seq<State>, i: nat, t: Thread, n: Node)
    requires Alone(run, i, 5, t) && t < |run[i].pcs| && run[i].pcs[t] == AddMark(n) && n < |run[i].refs| == |run[i].next|
    requires run[i].refs[n] == 0
    ensures Put(run[i], run[i + 5], t, n)
  {
    var s := run[i];
    assert StepBy(run, i, t) && StepBy(run, i + 1, t) && StepBy(run, i + 2, t) && StepBy(run, i + 3, t) && StepBy(run, i + 4, t);
    MarkAndLoad(s, run[i + 1], run[i + 2], t, n);
    LinkSteps(run[i + 2], run[i + 3], run[i + 4], run[i + 5], t, n);
    assert s.pcs[t := run[i + 2].pcs[t]][t := Idle] == s.pcs[t := Idle];
    assert s.refs[n := SHOULD_BE_ON_FREELIST][n := 1] == s.refs[n := 1];
  }

  // ---------------------------------------------------------------------------------------------
  // No call is ever blocked
  // ---------------------------------------------------------------------------------------------

  lemma LinkGoes(s: State, t: Thread) returns (s': State)
    requires Typed(s) && t < |s.pcs|
    requires s.pcs[t].AddMark? || s.pcs[t].LinkLoad? || s.pcs[t].LinkNext? || s.pcs[t].LinkRefs? || s.pcs[t].LinkCas? || s.pcs[t].LinkRelease?
    ensures Step(s, s', t)
  {
    match s.pcs[t]
    case AddMark(n) =>
      s' := Go(s, t, if s.refs[n] == 0 then LinkLoad(n, Return) else Idle)
            .(refs := s.refs[n := Add(s.refs[n], SHOULD_BE_ON_FREELIST)]);
    case LinkLoad(n, k) => s' := Go(s, t, LinkNext(n, s.head, k));
    case LinkNext(n, h, k) => s' := Go(s, t, LinkRefs(n, h, k)).(next := s.next[n := h]);
    case LinkRefs(n, h, k) => s' := Go(s, t, LinkCas(n, h, k)).(refs := s.refs[n := 1]);
    case LinkCas(n, h, k) =>
      s' := if s.head == h then Go(s, t, Resumed(k)).(head := Some(n)) else Go(s, t, LinkRelease(n, s.head, k));
    case LinkRelease(n, h, k) =>
      s' := Go(s, t, if s.refs[n] == 1 then LinkNext(n, h, k) else Resumed(k))
            .(refs := s.refs[n := Add(s.refs[n], SHOULD_BE_ON_FREELIST - 1)]);
  }

  lemma GetGoes(s: State, t: Thread) returns (s': State)
    requires Typed(s) && t < |s.pcs|
    requires s.pcs[t].GetLoad? || s.pcs[t].GetRefs? || s.pcs[t].GetBump? || s.pcs[t].GetNext? || s.pcs[t].GetCas? || s.pcs[t].GetTake? || s.pcs[t].GetDrop?
    ensures Step(s, s', t)
  {
    match s.pcs[t]
    case GetLoad => s' := Go(s, t, if s.head.Some? then GetRefs(s.head.value) else Idle);
    case GetRefs(n) => s' := Go(s, t, if Masked(s.refs[n]) == 0 then GetLoad else GetBump(n, s.refs[n]));
    case GetBump(n, r) =>
      s' := if s.refs[n] == r then Go(s, t, GetNext(n)).(refs := s.refs[n := Add(r, 1)]) else Go(s, t, GetLoad);
    case GetNext(n) => s' := Go(s, t, GetCas(n, s.next[n]));
    case GetCas(n, nx) =>
      s' := if s.head == Some(n) then Go(s, t, GetTake(n)).(head := nx) else Go(s, t, GetDrop(n, s.head));
    case GetTake(n) => s' := Go(s, t, Idle).(refs := s.refs[n := Sub(s.refs[n], 2)], owned := s.owned + {n});
    case GetDrop(n, h) =>
      s' := Go(s, t, if s.refs[n] == SHOULD_BE_ON_FREELIST + 1 then LinkLoad(n, Retry(h)) else Resumed(Retry(h)))
            .(refs := s.refs[n := Sub(s.refs[n], 1)]);
  }

  lemma Goes(s: State, t: Thread) returns (s': State)
    requires Typed(s) && t < |s.pcs|
    ensures Step(s, s', t)
  {
    if s.pcs[t].Idle? {
      s' := Go(s, t, GetLoad);
    } else if s.pcs[t].GetLoad? || s.pcs[t].GetRefs? || s.pcs[t].GetBump? || s.pcs[t].GetNext? || s.pcs[t].GetCas?
              || s.pcs[t].GetTake? || s.pcs[t].GetDrop? {
      s' := GetGoes(s, t);
    } else {
      s' := LinkGoes(s, t);
    }
  }

  /** A thread can make any number of steps alone, whatever the others are in the middle of. */
  lemma {:induction false} RunsAlone(run: seq<State>, t: Thread, n: nat) returns (run': seq<State>)
    requires Run(run) && t < |run[|run| - 1].pcs|
    ensures Run(run') && run <= run' && Alone(run', |run| - 1, n, t) && |run'| == |run| + n
    ensures t < |run'[|run'| - 1].pcs|
    decreases n
  {
    if n == 0 {
      run' := run;
    } else {
      var most := RunsAlone(run, t, n - 1);
      var place, list := RunInv(most, |most| - 1);
      var s' := Goes(most[|most| - 1], t);
      TypedStep(most[|most| - 1], s', t);
      run' := most + [s'];
      StepsKept(most, s', |run| - 1, n - 1, t);
    }
  }

  lemma StepsKept(run: seq<State>, s': State, i: nat, n: nat, t: Thread)
    requires Run(run) && Alone(run, i, n, t) && i + n == |run| - 1 && t < |run[|run| - 1].pcs|
    requires Typed(run[|run| - 1]) && Step(run[|run| - 1], s', t)
    ensures Run(run + [s']) && Alone(run + [s'], i, n + 1, t)
  {
    var run' := run + [s'];
    forall k | 0 <= k < |run'| - 1 ensures StepAt(run', k) {
      if k < |run| - 1 { assert StepAt(run, k); }
    }
    forall k | i <= k < i + (n + 1) ensures StepBy(run', k, t) {
      if k < i + n { assert StepBy(run, k, t); }
    }
  }

  // ---------------------------------------------------------------------------------------------
  // Coming back without a node
  // ---------------------------------------------------------------------------------------------

  /** In `try_get`, and not on the way out with a node. */
  predicate Getting(pc: Pc) {
    match pc
    case GetLoad => true
    case GetRefs(_) => true
    case GetBump(_, _) => true
    case GetNext(_) => true
    case GetCas(_, _) => true
    case GetDrop(_, _) => true
    case LinkLoad(_, k) => k.Retry?
    case LinkNext(_, _, k) => k.Retry?
    case LinkRefs(_, _, k) => k.Retry?
    case LinkCas(_, _, k) => k.Retry?
    case LinkRelease(_, _, k) => k.Retry?
    case _ => false
  }

  /** Going on with `h`, the head that was read when the swing failed. */
  predicate Holds(pc: Pc, h: Option<Node>) {
    match pc
    case GetDrop(_, head) => head == h
    case LinkLoad(_, k) => k == Retry(h)
    case LinkNext(_, _, k) => k == Retry(h)
    case LinkRefs(_, _, k) => k == Retry(h)
    case LinkCas(_, _, k) => k == Retry(h)
    case LinkRelease(_, _, k) => k == Retry(h)
    case _ => false
  }

  /** At state `j` this call has read the head, and it has not returned up to state `i`. */
  ghost predicate ReadAt(run: seq<State>, j: nat, i: nat, t: Thread, h: Option<Node>) {
    && j <= i < |run| - 1 && StepBy(run, j, t) && run[j].head == h
    && (run[j].pcs[t].GetLoad? || run[j].pcs[t].GetCas?)
    && forall k :: j <= k <= i ==> t < |run[k].pcs| && Getting(run[k].pcs[t])
  }

  lemma HoldsCameFrom(s: State, s': State, t: Thread, h: Option<Node>)
    requires Typed(s) && t < |s.pcs| == |s'.pcs| && Step(s, s', t) && Holds(s'.pcs[t], h)
    ensures Getting(s.pcs[t]) && (Holds(s.pcs[t], h) || (s.pcs[t].GetCas? && s.head == h))
  {
  }

  lemma HeldBefore(run: seq<State>, i: nat, t: Thread, h: Option<Node>)
    requires Run(run) && 0 < i < |run| && t < |run[i].pcs| && Holds(run[i].pcs[t], h)
    ensures t < |run[i - 1].pcs| && Getting(run[i - 1].pcs[t])
    ensures Holds(run[i - 1].pcs[t], h) || (run[i - 1].pcs[t].GetCas? && run[i - 1].head == h && StepBy(run, i - 1, t))
  {
    assert StepAt(run, i - 1);
    var u :| 0 <= u < |run[i - 1].pcs| && Step(run[i - 1], run[i], u);
    TypedStep(run[i - 1], run[i], u);
    if u == t { HoldsCameFrom(run[i - 1], run[i], t, h); }
  }

  lemma ReadEarlier(run: seq<State>, j: nat, i: nat, t: Thread, h: Option<Node>)
    requires 0 < i < |run| - 1 && ReadAt(run, j, i - 1, t, h) && t < |run[i].pcs| && Getting(run[i].pcs[t])
    ensures ReadAt(run, j, i, t, h)
  {
  }

  lemma {:induction false} HeldWasRead(run: seq<State>, i: nat, t: Thread, h: Option<Node>) returns (j: nat)
    requires Run(run) && i < |run| - 1 && t < |run[i].pcs| && Holds(run[i].pcs[t], h)
    ensures ReadAt(run, j, i, t, h)
    decreases i
  {
    if i == 0 {
      assert false;
    } else {
      HeldBefore(run, i, t, h);
      if Holds(run[i - 1].pcs[t], h) {
        j := HeldWasRead(run, i - 1, t, h);
      } else {
        j := i - 1;
        assert ReadAt(run, i - 1, i - 1, t, h);
      }
      ReadEarlier(run, j, i, t, h);
    }
  }

  /** A `try_get` that comes back without a node has, during the call, read a null head. */
  lemma EmptyWasSeen(run: seq<State>, i: nat, t: Thread) returns (j: nat)
    requires Run(run) && i < |run| - 1 && StepBy(run, i, t)
    requires Getting(run[i].pcs[t]) && t < |run[i + 1].pcs| && run[i + 1].pcs[t].Idle?
    ensures ReadAt(run, j, i, t, None)
  {
    if run[i].pcs[t].GetLoad? {
      j := i;
    } else {
      assert Holds(run[i].pcs[t], None);
      j := HeldWasRead(run, i, t, None);
    }
  }
}
