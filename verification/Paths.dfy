/** Paths along a relation, and what they lead to. */
module Paths {
  ghost predicate LinkAt<S>(next: (S, S) -> bool, path: seq<S>, i: nat) {
    i + 1 < |path| ==> next(path[i], path[i + 1])
  }

  ghost predicate Path<S>(next: (S, S) -> bool, path: seq<S>) {
    path != [] && forall i: nat :: i < |path| ==> LinkAt(next, path, i)
  }

  ghost predicate Leads<S>(next: (S, S) -> bool, path: seq<S>, s: S, t: S) {
    Path(next, path) && path[0] == s && path[|path| - 1] == t
  }

  ghost predicate Reaches<S(!new)>(next: (S, S) -> bool, s: S, t: S) {
    exists path: seq<S> :: Leads(next, path, s, t)
  }

  lemma ReachesSelf<S(!new)>(next: (S, S) -> bool, s: S)
    ensures Reaches(next, s, s)
  {
    assert Leads(next, [s], s, s);
  }

  lemma PathJoin<S>(next: (S, S) -> bool, a: seq<S>, b: seq<S>)
    requires Path(next, a) && Path(next, b) && next(a[|a| - 1], b[0])
    ensures Path(next, a + b)
  {
    forall i: nat | i < |a + b| ensures LinkAt(next, a + b, i) {
      if i + 1 < |a| {
        assert LinkAt(next, a, i);
      } else if |a| <= i {
        assert LinkAt(next, b, i - |a|);
      }
    }
  }

  /** From `s` to `t`, and one step more. */
  lemma Then<S(!new)>(next: (S, S) -> bool, s: S, t: S, u: S)
    requires Reaches(next, s, t) && next(t, u)
    ensures Reaches(next, s, u)
  {
    var path: seq<S> :| Leads(next, path, s, t);
    assert Path(next, [u]);
    PathJoin(next, path, [u]);
    assert Leads(next, path + [u], s, u);
  }

  lemma PathTail<S>(next: (S, S) -> bool, path: seq<S>)
    requires Path(next, path) && |path| > 1
    ensures Path(next, path[1..]) && next(path[0], path[1])
  {
    assert LinkAt(next, path, 0);
    forall i: nat | i < |path| - 1 ensures LinkAt(next, path[1..], i) { assert LinkAt(next, path, i + 1); }
  }

  /** A path goes on along what its end reaches. */
  lemma GoesOn<S(!new)>(next: (S, S) -> bool, path: seq<S>, t: S) returns (path': seq<S>)
    requires Path(next, path) && Reaches(next, path[|path| - 1], t)
    ensures Path(next, path') && path <= path' && path'[|path'| - 1] == t
  {
    var more: seq<S> :| Leads(next, more, path[|path| - 1], t);
    if |more| == 1 {
      path' := path;
    } else {
      PathTail(next, more);
      PathJoin(next, path, more[1..]);
      path' := path + more[1..];
    }
  }

  lemma ReachesTrans<S(!new)>(next: (S, S) -> bool, s: S, t: S, u: S)
    requires Reaches(next, s, t) && Reaches(next, t, u)
    ensures Reaches(next, s, u)
  {
    var path: seq<S> :| Leads(next, path, s, t);
    var path' := GoesOn(next, path, u);
    assert Leads(next, path', s, u);
  }

  /** What holds at the start, and is kept by every step, holds all along. */
  lemma {:induction false} HoldsAlong<S(!new)>(next: (S, S) -> bool, inv: S -> bool, path: seq<S>, i: nat)
    requires Path(next, path) && i < |path| && inv(path[0])
    requires forall s: S, s': S :: inv(s) && next(s, s') ==> inv(s')
    ensures inv(path[i])
    decreases i
  {
    if i > 0 {
      HoldsAlong(next, inv, path, i - 1);
      assert LinkAt(next, path, i - 1);
    }
  }
}
