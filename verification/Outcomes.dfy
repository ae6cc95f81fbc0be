/**
 * Outcomes: a value or one of a list of error types. A combinator widens the list, and the held
 * alternative has to be found again in the wider one.
 *
 * A type is a number; an alternative is held by its index, as a variant holds it.
 */
module Outcomes {
  type TypeId = nat

  // ---------------------------------------------------------------------------------------------
  // Lists of error types
  // ---------------------------------------------------------------------------------------------

  predicate AllUnique(ts: seq<TypeId>) {
    ts == [] || (ts[0] !in ts[1..] && AllUnique(ts[1..]))
  }

  /** variant_unique_append: the types of `rest` that `acc` does not hold yet, one after the other. */
  function UniqueAppend(acc: seq<TypeId>, rest: seq<TypeId>): seq<TypeId>
    decreases |rest|
  {
    if rest == [] then acc
    else if rest[0] in acc then UniqueAppend(acc, rest[1..])
    else UniqueAppend(acc + [rest[0]], rest[1..])
  }

  /** merge_variants. */
  function Merge(a: seq<TypeId>, b: seq<TypeId>): seq<TypeId> { UniqueAppend(a, b) }

  /** merge_all: a left fold. */
  function MergeAll(lists: seq<seq<TypeId>>): seq<TypeId>
    decreases |lists|
  {
    if lists == [] then []
    else if |lists| == 1 then lists[0]
    else MergeAll([Merge(lists[0], lists[1])] + lists[2..])
  }

  /** The index at which a type first occurs; the length if it does not. */
  function FirstAt(ts: seq<TypeId>, t: TypeId): nat {
    if ts == [] || ts[0] == t then 0 else 1 + FirstAt(ts[1..], t)
  }

  lemma {:induction false} FirstAtFinds(ts: seq<TypeId>, t: TypeId)
    ensures FirstAt(ts, t) <= |ts|
    ensures t in ts <==> FirstAt(ts, t) < |ts|
    ensures t in ts ==> ts[FirstAt(ts, t)] == t
    ensures forall i :: 0 <= i < FirstAt(ts, t) ==> ts[i] != t
    decreases |ts|
  {
    if ts != [] && ts[0] != t {
      FirstAtFinds(ts[1..], t);
      assert ts == [ts[0]] + ts[1..];
    }
  }

  lemma {:induction false} FirstAtConcat(a: seq<TypeId>, b: seq<TypeId>, t: TypeId)
    ensures FirstAt(a + b, t) == if t in a then FirstAt(a, t) else |a| + FirstAt(b, t)
    decreases |a|
  {
    if a == [] {
      assert a + b == b;
    } else {
      assert (a + b)[1..] == a[1..] + b;
      if a[0] != t { FirstAtConcat(a[1..], b, t); }
      assert a == [a[0]] + a[1..];
    }
  }

  predicate Distinct(ts: seq<TypeId>) { forall i, j :: 0 <= i < j < |ts| ==> ts[i] != ts[j] }

  lemma {:induction false} AllUniqueIsDistinct(ts: seq<TypeId>)
    ensures AllUnique(ts) <==> Distinct(ts)
    decreases |ts|
  {
    if ts != [] {
      AllUniqueIsDistinct(ts[1..]);
      assert ts == [ts[0]] + ts[1..];
      if Distinct(ts) {
        assert forall i :: 0 <= i < |ts[1..]| ==> ts[1..][i] == ts[i + 1];
      }
      if AllUnique(ts) {
        forall i, j | 0 <= i < j < |ts| ensures ts[i] != ts[j] {
          assert ts[j] == ts[1..][j - 1];
          if i > 0 { assert ts[i] == ts[1..][i - 1]; }
        }
      }
    }
  }

  lemma DistinctIndex(ts: seq<TypeId>, i: nat)
    requires Distinct(ts) && i < |ts|
    ensures FirstAt(ts, ts[i]) == i
  {
    FirstAtFinds(ts, ts[i]);
  }

  /** A merge keeps what it started with in front, adds no second occurrence, and holds the union. */
  lemma {:induction false} MergeIsUnion(a: seq<TypeId>, b: seq<TypeId>)
    requires Distinct(a)
    ensures a <= Merge(a, b) && Distinct(Merge(a, b))
    ensures forall t: TypeId :: t in Merge(a, b) <==> t in a || t in b
    decreases |b|
  {
    if b != [] {
      var a' := if b[0] in a then a else a + [b[0]];
      MergeIsUnion(a', b[1..]);
      assert b == [b[0]] + b[1..];
    }
  }

  /** A type that `a` holds already can be left out of what follows, without changing an order. */
  lemma SkipKnown(a: seq<TypeId>, b: seq<TypeId>, t: TypeId)
    requires b != [] && b[0] in a
    ensures FirstAt(a + b, t) == FirstAt(a + b[1..], t) + (if t in a then 0 else 1)
    ensures t in a <==> FirstAt(a + b[1..], t) < |a|
  {
    FirstAtConcat(a, b, t);
    FirstAtConcat(a, b[1..], t);
    FirstAtFinds(a, t);
  }

  /** The types stand in the order in which they first occur in the two lists, one after the other. */
  lemma {:induction false} MergeKeepsOrder(a: seq<TypeId>, b: seq<TypeId>, i: nat, j: nat)
    requires Distinct(a) && i < j < |Merge(a, b)|
    ensures FirstAt(a + b, Merge(a, b)[i]) < FirstAt(a + b, Merge(a, b)[j])
    decreases |b|
  {
    var m := Merge(a, b);
    if b == [] {
      assert a + b == a;
      DistinctIndex(a, i);
      DistinctIndex(a, j);
    } else {
      var t := b[0];
      var a' := if t in a then a else a + [t];
      MergeKeepsOrder(a', b[1..], i, j);
      if t in a {
        SkipKnown(a, b, m[i]);
        SkipKnown(a, b, m[j]);
      } else {
        assert a' + b[1..] == a + b;
      }
    }
  }

  // ---------------------------------------------------------------------------------------------
  // Merging is associative
  // ---------------------------------------------------------------------------------------------

  lemma {:induction false} AppendConcat(acc: seq<TypeId>, s: seq<TypeId>, t: seq<TypeId>)
    ensures UniqueAppend(acc, s + t) == UniqueAppend(UniqueAppend(acc, s), t)
    decreases |s|
  {
    if s == [] {
      assert s + t == t;
    } else {
      assert (s + t)[1..] == s[1..] + t;
      AppendConcat(if s[0] in acc then acc else acc + [s[0]], s[1..], t);
    }
  }

  lemma {:induction false} AppendHolds(acc: seq<TypeId>, s: seq<TypeId>)
    ensures forall t: TypeId :: t in acc || t in s ==> t in UniqueAppend(acc, s)
    decreases |s|
  {
    if s != [] {
      AppendHolds(if s[0] in acc then acc else acc + [s[0]], s[1..]);
      assert s == [s[0]] + s[1..];
    }
  }

  /** Merging lists of types, in any grouping, gives the same list. */
  lemma {:induction false} MergeAssociative(a: seq<TypeId>, b: seq<TypeId>, c: seq<TypeId>)
    ensures Merge(Merge(a, b), c) == Merge(a, Merge(b, c))
    decreases |c|
  {
    if c != [] {
      var t, rest := c[0], c[1..];
      AppendHolds(a, b);
      if t in b {
        MergeAssociative(a, b, rest);
      } else {
        AppendConcat(a, b, [t]);
        assert UniqueAppend(a, b + [t]) == UniqueAppend(Merge(a, b), [t]);
        MergeAssociative(a, b + [t], rest);
      }
    }
  }

  // ---------------------------------------------------------------------------------------------
  // Outcomes
  // ---------------------------------------------------------------------------------------------

  /** std::monostate: what a void outcome holds on success, and a type like any other in an error list. */
  const MONOSTATE: TypeId := 0

  datatype Held<V, P> = Success(value: V) | Failure(index: nat, payload: P)

  /**
   * `success` is the type of the variant's first alternative: the value type, or MONOSTATE for void.
   * `initial` is what the default constructor holds.
   */
  datatype Outcome<V, P> = Outcome(success: TypeId, initial: V, errors: seq<TypeId>, held: Held<V, P>)

  /**
   * The static assertions of the class, for a void outcome the single monostate that its accessors
   * need, and what a variant's index is. A monostate has one value.
   */
  predicate Valid<V(==), P>(o: Outcome<V, P>) {
    && Distinct(o.errors) && o.success !in o.errors
    && (o.held.Failure? ==> o.held.index < |o.errors|)
    && (o.success == MONOSTATE && o.held.Success? ==> o.held.value == o.initial)
  }

  /** The error that is held, by its type. */
  function ErrorOf<V(==), P>(o: Outcome<V, P>): (TypeId, P)
    requires Valid(o) && o.held.Failure?
  {
    (o.errors[o.held.index], o.held.payload)
  }

  /** The type of the alternative that a visit is given. */
  function AlternativeType<V(==), P>(o: Outcome<V, P>): TypeId
    requires Valid(o)
  {
    if o.held.Success? then o.success else ErrorOf(o).0
  }

  /** Result{ErrorTag{e}}: the alternative of that type. */
  function Failing<V, P>(success: TypeId, initial: V, errors: seq<TypeId>, error: (TypeId, P)): Outcome<V, P> {
    Outcome(success, initial, errors, Failure(FirstAt(errors, error.0), error.1))
  }

  /** widen_outcome: a monostate, whatever it stands for, gives a default-constructed outcome. */
  function Widen<V(==), P>(o: Outcome<V, P>, wider: seq<TypeId>): Outcome<V, P>
    requires Valid(o)
  {
    if AlternativeType(o) == MONOSTATE then Outcome(o.success, o.initial, wider, Success(o.initial))
    else if o.held.Success? then Outcome(o.success, o.initial, wider, o.held)
    else Failing(o.success, o.initial, wider, ErrorOf(o))
  }

  /** The type of outcome that a callable returns. */
  datatype Signature<W> = Signature(success: TypeId, initial: W, errors: seq<TypeId>)

  ghost predicate Returns<V(!new), W, P>(f: V -> Outcome<W, P>, sig: Signature<W>) {
    && Distinct(sig.errors) && sig.success !in sig.errors
    && forall v: V ::
         f(v).success == sig.success && f(v).initial == sig.initial && f(v).errors == sig.errors && Valid(f(v))
  }

  /** The result of a callable, in the wider list: returned as it is when the types are the same. */
  function Converted<V(==), P>(o: Outcome<V, P>, wider: seq<TypeId>): Outcome<V, P>
    requires Valid(o)
  {
    if o.errors == wider then o else Widen(o, wider)
  }

  /** and_then; it compiles if the callable's value type is none of the errors that it adds to. */
  ghost function AndThen<V(!new), W, P>(o: Outcome<V, P>, f: V -> Outcome<W, P>, sig: Signature<W>): Outcome<W, P>
    requires Valid(o) && Returns(f, sig) && sig.success !in o.errors
  {
    var merged := Merge(o.errors, sig.errors);
    match o.held
    case Success(v) => Converted(f(v), merged)
    case Failure(_, _) => Failing(sig.success, sig.initial, merged, ErrorOf(o))
  }

  // ---------------------------------------------------------------------------------------------
  // What is kept
  // ---------------------------------------------------------------------------------------------

  ghost predicate HoldsMonostate<V, P>(o: Outcome<V, P>)
    requires Valid(o)
  {
    o.held.Failure? && ErrorOf(o).0 == MONOSTATE
  }

  /** The same value, or the same error. */
  ghost predicate Same<V, W, P>(o: Outcome<V, P>, w: Outcome<W, P>)
    requires Valid(o) && Valid(w) && o.held.Failure?
  {
    w.held.Failure? && ErrorOf(w) == ErrorOf(o)
  }

  ghost predicate Kept<V, P>(o: Outcome<V, P>, w: Outcome<V, P>)
    requires Valid(o) && Valid(w)
  {
    if o.held.Success? then w.held == o.held else Same(o, w)
  }

  ghost predicate Within(narrow: seq<TypeId>, wider: seq<TypeId>) {
    forall t: TypeId :: t in narrow ==> t in wider
  }

  lemma FailingHolds<V, P>(success: TypeId, initial: V, errors: seq<TypeId>, error: (TypeId, P))
    requires Distinct(errors) && success !in errors && error.0 in errors
    ensures var w := Failing(success, initial, errors, error);
            Valid(w) && w.held.Failure? && ErrorOf(w) == error
  {
    FirstAtFinds(errors, error.0);
  }

  /** Widening keeps the outcome if and only if it does not hold a monostate as an error. */
  lemma WidenKeeps<V, P>(o: Outcome<V, P>, wider: seq<TypeId>)
    requires Valid(o) && Distinct(wider) && o.success !in wider && Within(o.errors, wider)
    ensures Valid(Widen(o, wider)) && Widen(o, wider).errors == wider
    ensures Kept(o, Widen(o, wider)) <==> !HoldsMonostate(o)
    ensures HoldsMonostate(o) ==> Widen(o, wider).held == Success(o.initial)
  {
    if o.held.Failure? && !HoldsMonostate(o) { FailingHolds(o.success, o.initial, wider, ErrorOf(o)); }
  }

  lemma ConvertedKeeps<V, P>(o: Outcome<V, P>, wider: seq<TypeId>)
    requires Valid(o) && Distinct(wider) && o.success !in wider && Within(o.errors, wider)
    ensures Valid(Converted(o, wider)) && Converted(o, wider).errors == wider
    ensures Kept(o, Converted(o, wider)) <==> !HoldsMonostate(o) || o.errors == wider
  {
    WidenKeeps(o, wider);
  }

  /** The input at which it does not: a monostate in an outcome of numbers comes back as the number 0. */
  lemma MonostateIsLost()
    ensures var o: Outcome<int, int> := Outcome(1, 0, [MONOSTATE], Failure(0, 7));
            Valid(o) && Widen(o, [MONOSTATE, 2]) == Outcome(1, 0, [MONOSTATE, 2], Success(0))
  {
  }

  /**
   * and_then passes on an error, whatever it is; what the callable returned it keeps if and only if
   * that is no monostate error or needs no widening.
   */
  lemma AndThenKeeps<V(!new), W, P>(o: Outcome<V, P>, f: V -> Outcome<W, P>, sig: Signature<W>)
    requires Valid(o) && Returns(f, sig) && sig.success !in o.errors
    ensures var r := AndThen(o, f, sig);
            && Valid(r) && r.success == sig.success && r.initial == sig.initial
            && r.errors == Merge(o.errors, sig.errors)
            && (o.held.Failure? ==> Same(o, r))
            && (o.held.Success? ==>
                  (Kept(f(o.held.value), r) <==> !HoldsMonostate(f(o.held.value)) || sig.errors == r.errors))
  {
    var merged := Merge(o.errors, sig.errors);
    MergeIsUnion(o.errors, sig.errors);
    match o.held
    case Success(v) => ConvertedKeeps(f(v), merged);
    case Failure(_, _) => FailingHolds(sig.success, sig.initial, merged, ErrorOf(o));
  }

  // ---------------------------------------------------------------------------------------------
  // Nesting
  // ---------------------------------------------------------------------------------------------

  function Joint<W, X>(sigF: Signature<W>, sigG: Signature<X>): Signature<X> {
    Signature(sigG.success, sigG.initial, Merge(sigF.errors, sigG.errors))
  }

  /** The two steps `f` and `g` as one. */
  ghost function Both<V(!new), W(!new), X, P>(
      f: V -> Outcome<W, P>, sigF: Signature<W>, g: W -> Outcome<X, P>, sigG: Signature<X>): V -> Outcome<X, P>
    requires Returns(f, sigF) && Returns(g, sigG) && sigG.success !in sigF.errors
  {
    v => AndThen(f(v), g, sigG)
  }

  lemma BothReturns<V(!new), W(!new), X, P>(
      f: V -> Outcome<W, P>, sigF: Signature<W>, g: W -> Outcome<X, P>, sigG: Signature<X>)
    requires Returns(f, sigF) && Returns(g, sigG) && sigG.success !in sigF.errors
    ensures Returns(Both(f, sigF, g, sigG), Joint(sigF, sigG))
  {
    MergeIsUnion(sigF.errors, sigG.errors);
    forall v: V { AndThenKeeps(f(v), g, sigG); }
  }

  /** The nesting to the left compiles; the one to the right then does too. */
  ghost predicate Nests<V, W, X, P>(o: Outcome<V, P>, sigF: Signature<W>, sigG: Signature<X>) {
    sigF.success !in o.errors && sigG.success !in o.errors && sigG.success !in sigF.errors
  }

  ghost function ToTheLeft<V(!new), W(!new), X, P>(
      o: Outcome<V, P>, f: V -> Outcome<W, P>, sigF: Signature<W>, g: W -> Outcome<X, P>, sigG: Signature<X>)
    : Outcome<X, P>
    requires Valid(o) && Returns(f, sigF) && Returns(g, sigG) && Nests(o, sigF, sigG)
  {
    AndThenKeeps(o, f, sigF);
    MergeIsUnion(o.errors, sigF.errors);
    AndThen(AndThen(o, f, sigF), g, sigG)
  }

  ghost function ToTheRight<V(!new), W(!new), X, P>(
      o: Outcome<V, P>, f: V -> Outcome<W, P>, sigF: Signature<W>, g: W -> Outcome<X, P>, sigG: Signature<X>)
    : Outcome<X, P>
    requires Valid(o) && Returns(f, sigF) && Returns(g, sigG) && Nests(o, sigF, sigG)
  {
    BothReturns(f, sigF, g, sigG);
    AndThen(o, Both(f, sigF, g, sigG), Joint(sigF, sigG))
  }

  /**
   * When the two nestings agree. They can differ in two places, both of them monostate errors. One
   * of `f` is lost at once in the left nesting if its list has to be widened, so that `g` goes on from
   * a default value. One of `g` survives on the left if the whole list is that of `g`, and on the
   * right only if no list on the way differs from it.
   */
  ghost predicate Regroups<V(!new), W(!new), X, P>(
      o: Outcome<V, P>, f: V -> Outcome<W, P>, sigF: Signature<W>, g: W -> Outcome<X, P>, sigG: Signature<X>)
    requires Valid(o) && Returns(f, sigF) && Returns(g, sigG)
  {
    var left, right := Merge(o.errors, sigF.errors), Merge(sigF.errors, sigG.errors);
    var whole := Merge(left, sigG.errors);
    o.held.Success? ==>
      var fv := f(o.held.value);
      if fv.held.Success? then
        HoldsMonostate(g(fv.held.value)) && whole == sigG.errors ==> right == sigG.errors
      else
        HoldsMonostate(fv) && left != sigF.errors ==>
          var gi := g(sigF.initial);
          if whole == right then gi.held.Failure? && ErrorOf(gi) == ErrorOf(fv) && whole == sigG.errors
          else gi.held == Success(sigG.initial) || (HoldsMonostate(gi) && whole != sigG.errors)
  }

  lemma ConvertedIs<V, P>(o: Outcome<V, P>, wider: seq<TypeId>)
    requires Valid(o) && Distinct(wider) && o.success !in wider && Within(o.errors, wider)
    ensures Converted(o, wider) ==
            if o.held.Success? then Outcome(o.success, o.initial, wider, o.held)
            else if HoldsMonostate(o) && o.errors != wider then Outcome(o.success, o.initial, wider, Success(o.initial))
            else Failing(o.success, o.initial, wider, ErrorOf(o))
  {
    if o.held.Failure? { DistinctIndex(o.errors, o.held.index); }
  }

  /** In one go or by way of a list in between: the same, but for a monostate that only survives the one go. */
  lemma ConvertedTwice<V, P>(o: Outcome<V, P>, wider: seq<TypeId>, widest: seq<TypeId>)
    requires Valid(o) && Distinct(wider) && o.success !in wider && Within(o.errors, wider)
    requires Distinct(widest) && o.success !in widest && Within(wider, widest)
    ensures Valid(Converted(o, wider))
    ensures Converted(Converted(o, wider), widest) == Converted(o, widest) <==>
            !(HoldsMonostate(o) && widest == o.errors && wider != o.errors)
  {
    ConvertedKeeps(o, wider);
    ConvertedIs(o, wider);
    ConvertedIs(o, widest);
    ConvertedIs(Converted(o, wider), widest);
    if o.held.Failure? { FailingHolds(o.success, o.initial, wider, ErrorOf(o)); }
  }

  /** What the two nestings come to, with the lists on the way. */
  lemma NestedLists<V, W, X, P>(o: Outcome<V, P>, sigF: Signature<W>, sigG: Signature<X>)
    requires Valid(o) && Distinct(sigF.errors) && Distinct(sigG.errors) && Nests(o, sigF, sigG)
    requires sigG.success !in sigG.errors && sigF.success !in sigF.errors
    ensures var left, right := Merge(o.errors, sigF.errors), Merge(sigF.errors, sigG.errors);
            var whole := Merge(left, sigG.errors);
            && whole == Merge(o.errors, right)
            && Distinct(left) && Distinct(right) && Distinct(whole)
            && sigF.success !in left && sigG.success !in left && sigG.success !in right && sigG.success !in whole
            && Within(o.errors, left) && Within(sigF.errors, left) && Within(sigG.errors, right) && Within(sigF.errors, right)
            && Within(right, whole) && Within(sigG.errors, whole) && Within(o.errors, whole) && Within(left, whole)
  {
    MergeIsUnion(o.errors, sigF.errors);
    MergeIsUnion(sigF.errors, sigG.errors);
    MergeIsUnion(Merge(o.errors, sigF.errors), sigG.errors);
    MergeAssociative(o.errors, sigF.errors, sigG.errors);
  }

  /** `o` and `f` have succeeded. */
  lemma RegroupsLast<V(!new), W(!new), X, P>(
      o: Outcome<V, P>, f: V -> Outcome<W, P>, sigF: Signature<W>, g: W -> Outcome<X, P>, sigG: Signature<X>)
    requires Valid(o) && Returns(f, sigF) && Returns(g, sigG) && Nests(o, sigF, sigG)
    requires o.held.Success? && f(o.held.value).held.Success?
    ensures ToTheLeft(o, f, sigF, g, sigG) == ToTheRight(o, f, sigF, g, sigG) <==> Regroups(o, f, sigF, g, sigG)
  {
    NestedLists(o, sigF, sigG);
    var fv := f(o.held.value);
    var gw := g(fv.held.value);
    var left, right := Merge(o.errors, sigF.errors), Merge(sigF.errors, sigG.errors);
    var whole := Merge(left, sigG.errors);
    ConvertedIs(fv, left);
    assert ToTheLeft(o, f, sigF, g, sigG) == Converted(gw, whole);
    ConvertedTwice(gw, right, whole);
    assert ToTheRight(o, f, sigF, g, sigG) == Converted(Converted(gw, right), whole);
  }

  /** `f` has failed. */
  lemma RegroupsFirst<V(!new), W(!new), X, P>(
      o: Outcome<V, P>, f: V -> Outcome<W, P>, sigF: Signature<W>, g: W -> Outcome<X, P>, sigG: Signature<X>)
    requires Valid(o) && Returns(f, sigF) && Returns(g, sigG) && Nests(o, sigF, sigG)
    requires o.held.Success? && f(o.held.value).held.Failure?
    ensures ToTheLeft(o, f, sigF, g, sigG) == ToTheRight(o, f, sigF, g, sigG) <==> Regroups(o, f, sigF, g, sigG)
  {
    NestedLists(o, sigF, sigG);
    var fv := f(o.held.value);
    var left, right := Merge(o.errors, sigF.errors), Merge(sigF.errors, sigG.errors);
    var whole := Merge(left, sigG.errors);
    var both := Failing(sigG.success, sigG.initial, right, ErrorOf(fv));
    FailingHolds(sigG.success, sigG.initial, right, ErrorOf(fv));
    ConvertedIs(both, whole);
    assert ToTheRight(o, f, sigF, g, sigG) == Converted(both, whole);
    ConvertedIs(fv, left);
    if HoldsMonostate(fv) && left != sigF.errors {
      ConvertedIs(g(sigF.initial), whole);
      assert ToTheLeft(o, f, sigF, g, sigG) == Converted(g(sigF.initial), whole);
      RegroupsLost(g(sigF.initial), fv, both, whole);
    } else {
      FailingHolds(sigF.success, sigF.initial, left, ErrorOf(fv));
      assert ToTheLeft(o, f, sigF, g, sigG) == Failing(sigG.success, sigG.initial, whole, ErrorOf(fv));
    }
  }

  /** A monostate is lost on the left, and `g` goes on to `gi`; on the right it has become `both`. */
  lemma RegroupsLost<W, X, P>(gi: Outcome<X, P>, fv: Outcome<W, P>, both: Outcome<X, P>, whole: seq<TypeId>)
    requires Valid(gi) && Valid(fv) && HoldsMonostate(fv) && Valid(both) && both.held.Failure? && ErrorOf(both) == ErrorOf(fv)
    requires both.success == gi.success && both.initial == gi.initial
    requires Distinct(whole) && gi.success !in whole && Within(gi.errors, whole) && Within(both.errors, whole)
    ensures Converted(gi, whole) == Converted(both, whole) <==>
            if whole == both.errors then gi.held.Failure? && ErrorOf(gi) == ErrorOf(fv) && whole == gi.errors
            else gi.held == Success(gi.initial) || (HoldsMonostate(gi) && whole != gi.errors)
  {
    ConvertedIs(gi, whole);
    ConvertedIs(both, whole);
    FailingHolds(gi.success, gi.initial, whole, ErrorOf(fv));
    if gi.held.Failure? { FailingHolds(gi.success, gi.initial, whole, ErrorOf(gi)); }
  }

  /**
   * A chain of and_then nested to the left and the same chain nested to the right have the same list
   * of error types; they hold the same alternative, at the same index, exactly when they regroup.
   */
  lemma AndThenAssociative<V(!new), W(!new), X, P>(
      o: Outcome<V, P>, f: V -> Outcome<W, P>, sigF: Signature<W>, g: W -> Outcome<X, P>, sigG: Signature<X>)
    requires Valid(o) && Returns(f, sigF) && Returns(g, sigG) && Nests(o, sigF, sigG)
    ensures ToTheLeft(o, f, sigF, g, sigG).errors == ToTheRight(o, f, sigF, g, sigG).errors
    ensures ToTheLeft(o, f, sigF, g, sigG) == ToTheRight(o, f, sigF, g, sigG) <==> Regroups(o, f, sigF, g, sigG)
  {
    NestedLists(o, sigF, sigG);
    if o.held.Failure? {
      FailingHolds(sigF.success, sigF.initial, Merge(o.errors, sigF.errors), ErrorOf(o));
    } else if f(o.held.value).held.Success? {
      RegroupsLast(o, f, sigF, g, sigG);
    } else {
      RegroupsFirst(o, f, sigF, g, sigG);
    }
  }

  /** In particular when no callable lists a monostate as an error. */
  lemma WithoutMonostate<V(!new), W(!new), X, P>(
      o: Outcome<V, P>, f: V -> Outcome<W, P>, sigF: Signature<W>, g: W -> Outcome<X, P>, sigG: Signature<X>)
    requires Valid(o) && Returns(f, sigF) && Returns(g, sigG) && Nests(o, sigF, sigG)
    requires MONOSTATE !in sigF.errors && MONOSTATE !in sigG.errors
    ensures ToTheLeft(o, f, sigF, g, sigG) == ToTheRight(o, f, sigF, g, sigG)
  {
    AndThenAssociative(o, f, sigF, g, sigG);
  }

  /** And otherwise they can differ: on the left `g` is given a 0 that `f` never returned. */
  lemma NestingsDiffer()
    ensures var o: Outcome<int, int> := Outcome(1, 0, [2], Success(5));
            var f: int -> Outcome<int, int> := v => Outcome(1, 0, [MONOSTATE], Failure(0, 7));
            var g: int -> Outcome<int, int> := w => Outcome(1, 0, [], Success(w + 1));
            var sigF, sigG := Signature(1, 0, [MONOSTATE]), Signature(1, 0, []);
            && Valid(o) && Returns(f, sigF) && Returns(g, sigG) && Nests(o, sigF, sigG)
            && ToTheLeft(o, f, sigF, g, sigG).held == Success(1)
            && ToTheRight(o, f, sigF, g, sigG).held == Success(0)
  {
    var f: int -> Outcome<int, int> := v => Outcome(1, 0, [MONOSTATE], Failure(0, 7));
    var own, extra: seq<TypeId> := [2], [MONOSTATE];
    assert extra[1..] == [] && own + [extra[0]] == [2, MONOSTATE];
    assert Merge(own, extra) == UniqueAppend(own + [extra[0]], extra[1..]);
  }

  // ---------------------------------------------------------------------------------------------
  // chain_outcomes
  // ---------------------------------------------------------------------------------------------

  /** The value of an input: of a type, or of type void. */
  datatype Payload<V> = Void | Of(v: V)

  /** The value of the result: no value, the only one, or a tuple. */
  datatype Combined<V> = NoValue | Bare(v: V) | Tuple(vs: seq<V>)

  /** A call returns, or throws BadOutcomeAccess. */
  datatype Call<R> = Returned(result: R) | Thrown

  function NonVoid<V>(p: Payload<V>): seq<V> { if p.Void? then [] else [p.v] }

  function Simplify<V>(vs: seq<V>): Combined<V> {
    if vs == [] then NoValue else if |vs| == 1 then Bare(vs[0]) else Tuple(vs)
  }

  predicate AllValid<V(==), P>(os: seq<Outcome<V, P>>) { forall i :: 0 <= i < |os| ==> Valid(os[i]) }

  function ErrorLists<V, P>(os: seq<Outcome<V, P>>): seq<seq<TypeId>> {
    seq(|os|, i requires 0 <= i < |os| => os[i].errors)
  }

  predicate AnyError<V, P>(os: seq<Outcome<V, P>>) { exists i :: 0 <= i < |os| && os[i].held.Failure? }

  lemma AnyErrorTail<V, P>(os: seq<Outcome<V, P>>)
    requires os != [] && os[0].held.Success?
    ensures AnyError(os) <==> AnyError(os[1..])
  {
    assert forall i :: 1 <= i < |os| ==> os[i] == os[1..][i - 1];
  }

  /** extract_first_error: the visit of the first failure takes a monostate for a success, and throws. */
  function ExtractFirstError<V(==), W, P>(os: seq<Outcome<V, P>>, sig: Signature<W>): Call<Outcome<W, P>>
    requires AllValid(os) && AnyError(os)
    decreases |os|
  {
    if os[0].held.Failure? then
      if AlternativeType(os[0]) == MONOSTATE then Thrown
      else Returned(Failing(sig.success, sig.initial, sig.errors, ErrorOf(os[0])))
    else
      AnyErrorTail(os);
      ExtractFirstError(os[1..], sig)
  }

  function Values<V, P>(os: seq<Outcome<Payload<V>, P>>): seq<V> {
    if os == [] then []
    else (if os[0].held.Success? then NonVoid(os[0].held.value) else []) + Values(os[1..])
  }

  /** The result's type: the combined value, of some type, or any error of the inputs. */
  function ChainSignature<V, P>(os: seq<Outcome<Payload<V>, P>>, combined: TypeId): Signature<Combined<V>> {
    Signature(combined, NoValue, MergeAll(ErrorLists(os)))
  }

  function ChainOutcomes<V(==), P>(os: seq<Outcome<Payload<V>, P>>, combined: TypeId): Call<Outcome<Combined<V>, P>>
    requires os != [] && AllValid(os)
  {
    var sig := ChainSignature(os, combined);
    if AnyError(os) then ExtractFirstError(os, sig)
    else Returned(Outcome(sig.success, sig.initial, sig.errors, Success(Simplify(Values(os)))))
  }

  /** One input after the other: return at the first error, else keep the value unless it is void. */
  function EarlyReturn<V(==), P>(
      os: seq<Outcome<Payload<V>, P>>, kept: seq<V>, sig: Signature<Combined<V>>): Outcome<Combined<V>, P>
    requires AllValid(os)
    decreases |os|
  {
    if os == [] then Outcome(sig.success, sig.initial, sig.errors, Success(Simplify(kept)))
    else match os[0].held
      case Failure(_, _) => Failing(sig.success, sig.initial, sig.errors, ErrorOf(os[0]))
      case Success(v) => EarlyReturn(os[1..], kept + NonVoid(v), sig)
  }

  /** The first error among the inputs, if there is one, is a monostate. */
  predicate FirstIsMonostate<V(==), P>(os: seq<Outcome<V, P>>)
    requires AllValid(os)
    decreases |os|
  {
    os != [] && if os[0].held.Failure? then ErrorOf(os[0]).0 == MONOSTATE else FirstIsMonostate(os[1..])
  }

  lemma {:induction false} EarlyReturnIs<V, P>(
      os: seq<Outcome<Payload<V>, P>>, kept: seq<V>, sig: Signature<Combined<V>>)
    requires AllValid(os)
    ensures AnyError(os) ==>
              ExtractFirstError(os, sig) == if FirstIsMonostate(os) then Thrown else Returned(EarlyReturn(os, kept, sig))
    ensures !AnyError(os) ==>
              && !FirstIsMonostate(os)
              && EarlyReturn(os, kept, sig) ==
                 Outcome(sig.success, sig.initial, sig.errors, Success(Simplify(kept + Values(os))))
    decreases |os|
  {
    if os == [] {
      assert kept + Values(os) == kept;
    } else if os[0].held.Success? {
      AnyErrorTail(os);
      EarlyReturnIs(os[1..], kept + NonVoid(os[0].held.value), sig);
      assert kept + NonVoid(os[0].held.value) + Values(os[1..]) == kept + Values(os);
    }
  }

  /**
   * chain_outcomes is what a caller would write by hand, one early return after the other, unless
   * the first error is a monostate: then, and only then, it throws.
   */
  lemma ChainIsEarlyReturn<V, P>(os: seq<Outcome<Payload<V>, P>>, combined: TypeId)
    requires os != [] && AllValid(os)
    ensures ChainOutcomes(os, combined) ==
            if FirstIsMonostate(os) then Thrown else Returned(EarlyReturn(os, [], ChainSignature(os, combined)))
  {
    EarlyReturnIs(os, [], ChainSignature(os, combined));
    assert [] + Values(os) == Values(os);
  }

  lemma ChainThrows()
    ensures var o: Outcome<Payload<int>, int> := Outcome(1, Of(0), [MONOSTATE], Failure(0, 7));
            Valid(o) && ChainOutcomes([o], 1) == Thrown
  {
    var o: Outcome<Payload<int>, int> := Outcome(1, Of(0), [MONOSTATE], Failure(0, 7));
    ChainIsEarlyReturn([o], 1);
  }

  /** An input as one step of a chain of and_then, which adds its value to those so far. */
  function Adding<V, P>(o: Outcome<Payload<V>, P>, kept: seq<V>, tuple: TypeId): Outcome<seq<V>, P> {
    match o.held
    case Success(v) => Outcome(tuple, [], o.errors, Success(kept + NonVoid(v)))
    case Failure(i, p) => Outcome(tuple, [], o.errors, Failure(i, p))
  }

  /** The type of the values so far is a tuple: none of the errors, and no monostate. */
  predicate Tuples<V, P>(os: seq<Outcome<V, P>>, tuple: TypeId) {
    tuple != MONOSTATE && forall i :: 0 <= i < |os| ==> tuple !in os[i].errors
  }

  lemma AddingReturns<V(!new), P>(o: Outcome<Payload<V>, P>, tuple: TypeId)
    requires Valid(o) && tuple != MONOSTATE && tuple !in o.errors
    ensures Returns((kept: seq<V>) => Adding(o, kept, tuple), Signature(tuple, [], o.errors))
  {
  }

  ghost function Collected<V(!new), P>(
      acc: Outcome<seq<V>, P>, os: seq<Outcome<Payload<V>, P>>, tuple: TypeId): (r: Outcome<seq<V>, P>)
    requires Valid(acc) && acc.success == tuple && AllValid(os) && Tuples(os, tuple)
    decreases |os|
  {
    if os == [] then acc
    else
      var f := (kept: seq<V>) => Adding(os[0], kept, tuple);
      var sig := Signature(tuple, [], os[0].errors);
      AddingReturns(os[0], tuple);
      AndThenKeeps(acc, f, sig);
      Collected(AndThen(acc, f, sig), os[1..], tuple)
  }

  /** The tuple as it is handed out. */
  function Simplified<V(==), P>(o: Outcome<seq<V>, P>, combined: TypeId): Outcome<Combined<V>, P> {
    match o.held
    case Success(vs) => Outcome(combined, NoValue, o.errors, Success(Simplify(vs)))
    case Failure(i, p) => Outcome(combined, NoValue, o.errors, Failure(i, p))
  }

  lemma {:induction false} CollectedIs<V(!new), P>(
      acc: Outcome<seq<V>, P>, os: seq<Outcome<Payload<V>, P>>, tuple: TypeId, combined: TypeId)
    requires Valid(acc) && acc.success == tuple && AllValid(os) && Tuples(os, tuple)
    requires acc.held.Success? ==> !FirstIsMonostate(os)
    ensures var sig := Signature(combined, NoValue, MergeAll([acc.errors] + ErrorLists(os)));
            Simplified(Collected(acc, os, tuple), combined) ==
            if acc.held.Failure? then Failing(sig.success, sig.initial, sig.errors, ErrorOf(acc))
            else EarlyReturn(os, acc.held.value, sig)
    decreases |os|
  {
    var lists := [acc.errors] + ErrorLists(os);
    if os == [] {
      assert lists == [acc.errors];
      if acc.held.Failure? { DistinctIndex(acc.errors, acc.held.index); }
    } else {
      var f := (kept: seq<V>) => Adding(os[0], kept, tuple);
      var sig := Signature(tuple, [], os[0].errors);
      AddingReturns(os[0], tuple);
      AndThenKeeps(acc, f, sig);
      var acc' := AndThen(acc, f, sig);
      CollectedIs(acc', os[1..], tuple, combined);
      assert lists[2..] == ErrorLists(os[1..]);
      assert MergeAll(lists) == MergeAll([acc'.errors] + ErrorLists(os[1..]));
    }
  }

  /** chain_outcomes is a chain of and_then, with the same error list and alternative, exactly when it does not throw. */
  lemma ChainIsAndThen<V(!new), P>(os: seq<Outcome<Payload<V>, P>>, tuple: TypeId, combined: TypeId)
    requires os != [] && AllValid(os) && Tuples(os, tuple)
    ensures Valid(Adding(os[0], [], tuple))
    ensures ChainOutcomes(os, combined) == Returned(Simplified(Collected(Adding(os[0], [], tuple), os[1..], tuple), combined))
            <==> !FirstIsMonostate(os)
  {
    var acc := Adding(os[0], [], tuple);
    ChainIsEarlyReturn(os, combined);
    if !FirstIsMonostate(os) {
      CollectedIs(acc, os[1..], tuple, combined);
      assert [acc.errors] + ErrorLists(os[1..]) == ErrorLists(os);
    }
  }
}
