/** What every run of an explicit producer's sub-queue promises, and the copy made when its index grows. */
module ExplicitQueueRuns {
  import opened BlockMath
  import opened ExplicitQueue
  import Overcommit
  import Paths

  ghost function Steps(): (State, State) -> bool { (s, s') => Step(s, s') }

  ghost predicate Run(run: seq<State>) {
    Paths.Path(Steps(), run) && Init(run[0])
  }

  /** There are runs of any number of dequeuers, with blocks and an index of any size. */
  lemma StartsRun(size: nat, indexSize: nat, blocks: nat, threads: nat) returns (run: seq<State>)
    requires size > 0 && indexSize > 0 && blocks > 0
    ensures Run(run) && run[0].size == size && |run[0].flags| == blocks && |run[0].readers| == threads
  {
    var counts := Overcommit.StartsRun(threads);
    var index := Header(indexSize, seq(indexSize, i => Entry(0, 0)), -1);
    run := [State(size, counts[0], EIdle, 0, seq(blocks, b => b), 0, 0, [index],
                  seq(blocks, b => seq(size, o => false)), seq(blocks, b => seq(size, o => Empty)),
                  seq(threads, t => RIdle), [], [], [0], [-1], [0], {}, {}, [])];
    assert forall b :: 0 <= b < blocks ==> run[0].next[b] == b;
  }

  lemma StepsKeepInv()
    ensures forall s: State, s': State :: Kept()(s) && Steps()(s, s') ==> Kept()(s')
  {
    forall s: State, s': State | Inv(s) && Step(s, s') ensures Inv(s') { StepInv(s, s'); }
  }

  ghost function Kept(): State -> bool { s => Inv(s) }

  lemma RunInv(run: seq<State>, i: nat)
    requires Run(run) && i < |run|
    ensures Inv(run[i])
  {
    InitInv(run[0]);
    StepsKeepInv();
    Paths.HoldsAlong(Steps(), Kept(), run, i);
  }

  // ---------------------------------------------------------------------------------------------
  // First in, first out
  // ---------------------------------------------------------------------------------------------

  /**
   In every run the dequeuer of index i gets the i-th enqueued element, no index is served twice,
   and every element that has not been moved out yet is still in its cell.
   */
  lemma FifoOrder(run: seq<State>, i: nat)
    requires Run(run) && i < |run|
    ensures var s := run[i];
      && s.oc.head <= s.oc.tail == |s.log|
      && (forall k :: 0 <= k < |s.received| ==> s.received[k].0 < |s.log| && s.received[k].1 == s.log[s.received[k].0])
      && (forall j, k :: 0 <= j < k < |s.received| ==> s.received[j].0 != s.received[k].0)
      && Shape(s) && RingOk(s)
      && (forall x :: 0 <= x < |s.log| && x !in s.moved ==> CellOk(s, x, s.log[x]))
  {
    RunInv(run, i);
  }

  /** A block is reused only when every element it held has been completely dequeued. */
  lemma ReusedBlockIsEmpty(run: seq<State>, i: nat, x: nat)
    requires Run(run) && i < |run| - 1
    requires Shape(run[i]) && Reuses(run[i], run[i + 1]) && Number(x, run[i].size) == Oldest(run[i])
    ensures x in run[i].emptied && x in run[i].moved && x < run[i].oc.head
  {
    RunInv(run, i);
    AheadIsEmpty(run[i], x);
  }

  /**
   Whatever header a dequeuer loaded, and however the index has wrapped or grown since, the entry
   it is led to is the one of the block its index was put in.
   */
  lemma LookupAgrees(run: seq<State>, i: nat, t: nat)
    requires Run(run) && i < |run| && t < |run[i].readers| && run[i].readers[t].ReadBlock?
    ensures run[i].size > 0
    ensures var s := run[i]; var ReadBlock(x, h, slot) := s.readers[t]; var m := Number(x, s.size);
      && h < |s.headers| && slot < |s.headers[h].entries| && m < |s.blockOf|
      && s.headers[h].entries[slot] == Entry(Base(m, s.size), s.blockOf[m])
  {
    RunInv(run, i);
    var s := run[i];
    var ReadBlock(x, h, slot) := s.readers[t];
    assert ReaderOk(s, s.readers[t]) && HeaderOk(s, h);
    assert EntryOk(s, h, Number(x, s.size));
  }

  // ---------------------------------------------------------------------------------------------
  // Nothing is lost
  // ---------------------------------------------------------------------------------------------

  ghost predicate Reading(readers: seq<Reader>, x: nat) {
    exists t :: 0 <= t < |readers| && !readers[t].RIdle? && readers[t].i == x
  }

  ghost predicate Got(received: seq<(nat, Element)>, x: nat) {
    exists k :: 0 <= k < |received| && received[k].0 == x
  }

  /** Every claimed index is being worked on or has been received. */
  ghost predicate Accounted(s: State) {
    && (forall x: nat :: x < s.oc.head ==> x in s.moved || Reading(s.readers, x))
    && (forall x <- s.moved :: Got(s.received, x))
  }

  lemma ReadingKept(readers: seq<Reader>, t: nat, r: Reader, x: nat)
    requires t < |readers| && Reading(readers, x) && (readers[t].RIdle? || readers[t].i != x || (!r.RIdle? && r.i == x))
    ensures Reading(readers[t := r], x)
  {
    var u :| 0 <= u < |readers| && !readers[u].RIdle? && readers[u].i == x;
    assert readers[t := r][u] == if u == t then r else readers[u];
    if u == t { assert readers[t := r][t].i == x; }
  }

  lemma GotKept(received: seq<(nat, Element)>, p: (nat, Element), x: nat)
    requires Got(received, x) || p.0 == x
    ensures Got(received + [p], x)
  {
    if Got(received, x) {
      var k :| 0 <= k < |received| && received[k].0 == x;
      assert (received + [p])[k].0 == x;
    } else {
      assert (received + [p])[|received|].0 == x;
    }
  }

  lemma MoveAccounted(s: State, s': State, t: nat)
    requires Inv(s) && Accounted(s) && t < |s.readers| && s.readers[t].Move? && DequeueStep(s, s', t)
    ensures Accounted(s')
  {
    var i := s.readers[t].i;
    MoveGets(s, s', t);
    forall x: nat | x < s'.oc.head ensures x in s'.moved || Reading(s'.readers, x) {
      if x !in s'.moved { ReadingKept(s.readers, t, s'.readers[t], x); }
    }
    forall x | x in s'.moved ensures Got(s'.received, x) { GotKept(s.received, (i, s.log[i]), x); }
  }

  lemma OtherAccounted(s: State, s': State, t: nat)
    requires Inv(s) && Accounted(s) && t < |s.readers| && !s.readers[t].Move? && DequeueStep(s, s', t)
    ensures Accounted(s')
  {
    assert ReaderOk(s, s.readers[t]);
    if s.readers[t].RIdle? { SingleStep(s.oc, s'.oc, t); }
    forall x: nat | x < s'.oc.head ensures x in s'.moved || Reading(s'.readers, x) {
      if x !in s'.moved {
        if x == s.oc.head {
          assert s'.readers[t].i == x;
        } else {
          ReadingKept(s.readers, t, s'.readers[t], x);
        }
      }
    }
  }

  lemma AccountedStep(s: State, s': State)
    requires Inv(s) && Accounted(s) && Step(s, s')
    ensures Accounted(s')
  {
    if t :| 0 <= t < |s.readers| && DequeueStep(s, s', t) {
      if s.readers[t].Move? { MoveAccounted(s, s', t); } else { OtherAccounted(s, s', t); }
    } else {
      assert s'.readers == s.readers && s'.moved == s.moved && s'.received == s.received && s'.oc.head == s.oc.head;
    }
  }

  ghost function KeptAccounted(): State -> bool { s => Inv(s) && Accounted(s) }

  lemma StepsKeepAccounted()
    ensures forall s: State, s': State :: KeptAccounted()(s) && Steps()(s, s') ==> KeptAccounted()(s')
  {
    forall s: State, s': State | Inv(s) && Accounted(s) && Step(s, s') ensures Inv(s') && Accounted(s') {
      StepInv(s, s');
      AccountedStep(s, s');
    }
  }

  lemma RunAccounted(run: seq<State>, i: nat)
    requires Run(run) && i < |run|
    ensures Accounted(run[i])
  {
    InitInv(run[0]);
    assert Accounted(run[0]);
    StepsKeepAccounted();
    Paths.HoldsAlong(Steps(), KeptAccounted(), run, i);
  }

  /** When no dequeuer is at work, exactly the indices below the head have been received, each with its element. */
  lemma NothingLost(run: seq<State>, i: nat, x: nat)
    requires Run(run) && i < |run|
    requires forall t :: 0 <= t < |run[i].readers| ==> run[i].readers[t].RIdle?
    ensures x < run[i].oc.head <==> Got(run[i].received, x)
  {
    RunInv(run, i);
    RunAccounted(run, i);
    var s := run[i];
    if Got(s.received, x) {
      var k :| 0 <= k < |s.received| && s.received[k].0 == x;
      assert s.received[k].0 in s.moved;
    }
  }

  // ---------------------------------------------------------------------------------------------
  // new_block_index
  // ---------------------------------------------------------------------------------------------

  /** Copies the used entries, oldest first, to the start of a table twice the size. */
  method NewBlockIndex(entries: array<Entry>, prFront: nat, used: nat) returns (grown: array<Entry>)
    requires prFront < entries.Length && used <= entries.Length
    ensures IsCopy(grown[..], entries[..], prFront, used)
  {
    grown := new Entry[2 * entries.Length];
    var j := 0;
    if used != 0 {
      var i := Wrap(prFront - used, entries.Length);
      var first := true;
      while first || i != prFront
        invariant 0 <= j <= used && (first <==> j == 0)
        invariant i == Wrap(prFront - used + j, entries.Length)
        invariant first || i != prFront ==> j < used
        invariant forall k :: 0 <= k < j ==> grown[k] == entries[Wrap(prFront - used + k, entries.Length)]
        decreases used - j
      {
        grown[j] := entries[i];
        j := j + 1;
        WrapAdd(prFront - used + j - 1, 1, entries.Length);
        i := Wrap(i + 1, entries.Length);
        first := false;
        CopyEnds(prFront, used, j, entries.Length);
      }
    }
  }

  /** The copy loop comes back to the front after exactly `used` entries. */
  lemma CopyEnds(prFront: nat, used: nat, j: nat, size: nat)
    requires prFront < size && 1 <= j <= used <= size
    ensures Wrap(prFront - used + j, size) == prFront <==> j == used
  {
    WrapSmall(prFront, size);
    if j < used { WrapDistinct(prFront - used + j, prFront, size); }
  }
}
