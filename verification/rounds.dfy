/**
 A refinement round: the driver calls `refine(i)` for indices of
 `[0, num_refinements())`, in an order of its choosing, against a domain
 snapshot that stays the same for the whole round. This module folds
 `Refine` over a sequence of indices and relates the result to a reference
 definition of "the first variable that is not yet fixed".
 */
module Rounds {
  import opened Optional
  import opened ZDecLattice
  import opened AbstractDomain
  import opened VariableOrder

  /** The state after refining `idx[0]`, `idx[1]`, ... in turn. */
  function RefineAll(o: InputOrder, d: Domain, idx: seq<int>, hasChanged: bool): (r: (InputOrder, bool))
    ensures r.0.vars == o.vars
    ensures Leq(o.smallest, r.0.smallest)
    ensures r.1 <==> hasChanged || r.0.smallest != o.smallest
    ensures Valid(o) ==> Valid(r.0)
    ensures r.0.smallest == o.smallest
            || (r.0.smallest.Val? && r.0.smallest.n in idx && Candidate(o, d, r.0.smallest.n))
    ensures forall k :: k in idx && Candidate(o, d, k) ==> Leq(Val(k), r.0.smallest)
    decreases |idx|
  {
    if |idx| == 0 then
      (o, hasChanged)
    else
      var s := Refine(o, d, idx[0], hasChanged);
      RefineAll(s.0, d, idx[1..], s.1)
  }

  /** The reference: the least index whose variable is unfixed, if any. */
  function FirstUnfixed(vars: seq<AVar>, d: Domain): (r: Option<nat>)
    ensures r.Some? ==> r.value < |vars| && Unfixed(d.project(vars[r.value]))
    ensures r.Some? ==> forall j :: 0 <= j < r.value ==> !Unfixed(d.project(vars[j]))
    ensures r.None? ==> forall j :: 0 <= j < |vars| ==> !Unfixed(d.project(vars[j]))
    decreases |vars|
  {
    if |vars| == 0 then
      None
    else if Unfixed(d.project(vars[0])) then
      Some(0)
    else
      match FirstUnfixed(vars[1..], d)
      case None => None
      case Some(k) => Some(k + 1)
  }

  /** What `project()` should return after a complete round on a non-top domain. */
  function ExpectedSelection(vars: seq<AVar>, d: Domain): Option<AVar> {
    match FirstUnfixed(vars, d)
    case None => None
    case Some(k) => Some(vars[k])
  }

  /** Refining a concatenation is refining one part, then the other. */
  lemma RefineAllAppend(o: InputOrder, d: Domain, a: seq<int>, b: seq<int>, hasChanged: bool)
    ensures var r := RefineAll(o, d, a, hasChanged);
            RefineAll(o, d, a + b, hasChanged) == RefineAll(r.0, d, b, r.1)
  {
  }

  /**
   The accumulator after a round depends only on the SET of indices refined:
   neither their order nor repetitions matter.
   */
  lemma RefineAllDependsOnlyOnIndexSet(o: InputOrder, d: Domain, a: seq<int>, b: seq<int>, h1: bool, h2: bool)
    requires forall k :: k in a <==> k in b
    ensures RefineAll(o, d, a, h1).0 == RefineAll(o, d, b, h2).0
  {
  }

  /** Refining a permutation of the same indices gives the same state and the same flag. */
  lemma RoundCommutes(o: InputOrder, d: Domain, a: seq<int>, b: seq<int>, hasChanged: bool)
    requires multiset(a) == multiset(b)
    ensures RefineAll(o, d, a, hasChanged) == RefineAll(o, d, b, hasChanged)
  {
    forall k
      ensures k in a <==> k in b
    {
      assert k in a <==> k in multiset(a);
      assert k in b <==> k in multiset(b);
    }
    RefineAllDependsOnlyOnIndexSet(o, d, a, b, hasChanged, hasChanged);
  }

  /** Once a round has converged, refining its indices again changes neither the state nor the flag. */
  lemma RoundIdempotent(o: InputOrder, d: Domain, idx: seq<int>, hasChanged: bool, hasChanged': bool)
    ensures var r := RefineAll(o, d, idx, hasChanged);
            RefineAll(r.0, d, idx, hasChanged') == (r.0, hasChanged')
  {
  }

  /** On a top domain a round is a no-op. */
  lemma TopRoundIsNoop(o: InputOrder, d: Domain, idx: seq<int>, hasChanged: bool)
    requires IsTop(d)
    ensures RefineAll(o, d, idx, hasChanged) == (o, hasChanged)
  {
  }

  /**
   Minimality: after `reset()` and a round that covers every index of
   `[0, num_refinements())` (in any order, with repetitions or stray
   out-of-range indices), `project()` returns the first unfixed variable, or
   none if every variable is fixed.
   */
  lemma FullRoundSelectsFirstUnfixed(o: InputOrder, d: Domain, idx: seq<int>, hasChanged: bool)
    requires !IsTop(d)
    requires forall k :: 0 <= k < NumRefinements(o) ==> k in idx
    ensures var r := RefineAll(Reset(o), d, idx, hasChanged).0;
            Valid(r) && Project(r) == ExpectedSelection(o.vars, d)
  {
    var z := Reset(o);
    var r := RefineAll(z, d, idx, hasChanged).0;
    match FirstUnfixed(o.vars, d)
    case None =>
      assert r.smallest == Bot;
    case Some(k) =>
      assert Candidate(z, d, k);
      assert Leq(Val(k), r.smallest);
      assert r.smallest == Val(k);
  }

  /**
   A partial round is sound: whatever it selects is a variable that was
   refined and observed unfixed, and never one before the first unfixed one.
   */
  lemma PartialRoundIsSound(o: InputOrder, d: Domain, idx: seq<int>, hasChanged: bool)
    ensures var r := RefineAll(Reset(o), d, idx, hasChanged).0;
            r.smallest.Val? ==>
              && r.smallest.n in idx
              && 0 <= r.smallest.n < |o.vars|
              && Unfixed(d.project(o.vars[r.smallest.n]))
              && FirstUnfixed(o.vars, d).Some?
              && FirstUnfixed(o.vars, d).value <= r.smallest.n
  {
  }

  /**
   The worked scenario: `x0` in [2, 2] and `x2` in [5, 5] are fixed,
   `x1` in [0, 3] is not; refining in the order 2, 0, 1 selects `x1`.
   */
  lemma ScenarioSelectsX1(x0: AVar, x1: AVar, x2: AVar, d: Domain)
    requires d.env == [x0, x1, x2] && !d.top
    requires d.project(x0) == Itv(2, 2) && d.project(x1) == Itv(0, 3) && d.project(x2) == Itv(5, 5)
    ensures var o := Interpret(Create(), d);
            var r := RefineAll(o, d, [2, 0, 1], false);
            Valid(r.0) && Project(r.0) == Some(x1) && r.1
  {
  }

  /**
   A copy behaves as the original: the same round on either gives the same
   state and flag, and refining the copy leaves the original value as it was.
   */
  lemma CloneBehavesAsOriginal(o: InputOrder, d: Domain, idx: seq<int>, hasChanged: bool)
    ensures RefineAll(Clone(o), d, idx, hasChanged) == RefineAll(o, d, idx, hasChanged)
  {
  }
}
