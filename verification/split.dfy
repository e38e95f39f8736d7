/**
 `Split`: the composition the search driver talks to. It holds a variable
 order (here `InputOrder`) and a value order, delegates the refinement round
 to the former, and in `split()` hands the selected variable to the latter.
 */
module Splitting {
  import opened Optional
  import opened AbstractDomain
  import VO = VariableOrder
  import opened Rounds

  /** A finite disjunction of sub-problems; the default, empty one means "nothing to split". */
  datatype Branch<C> = Branch(children: seq<C>)

  function DefaultBranch<C>(): Branch<C> {
    Branch([])
  }

  /** The value order is opaque: it turns one variable into a branch. */
  datatype Split<C> = Split(varOrder: VO.InputOrder, valOrder: AVar -> Branch<C>)

  function NumRefinements<C>(s: Split<C>): (r: nat)
    ensures r == |s.varOrder.vars|
  {
    VO.NumRefinements(s.varOrder)
  }

  /** `refine` on the split is `refine` on its variable order; the value order is untouched. */
  function Refine<C>(s: Split<C>, d: Domain, i: int, hasChanged: bool): (r: (Split<C>, bool))
    ensures r.0.valOrder == s.valOrder
    ensures (r.0.varOrder, r.1) == VO.Refine(s.varOrder, d, i, hasChanged)
  {
    var t := VO.Refine(s.varOrder, d, i, hasChanged);
    (s.(varOrder := t.0), t.1)
  }

  /** `reset` on the split is `reset` on its variable order, after which `split()` yields the default branch. */
  function Reset<C>(s: Split<C>): (r: Split<C>)
    ensures r.valOrder == s.valOrder
    ensures r.varOrder == VO.Reset(s.varOrder)
    ensures VO.Valid(r.varOrder) && SplitBranch(r) == DefaultBranch()
  {
    s.(varOrder := VO.Reset(s.varOrder))
  }

  /**
   `split()`: the value order's branch on the projected variable, or the
   default branch when the variable order selected nothing. As a pure
   function it leaves the accumulator as it was.
   */
  function SplitBranch<C>(s: Split<C>): (r: Branch<C>)
    requires VO.Valid(s.varOrder)
    ensures VO.Project(s.varOrder).Some? ==> r == s.valOrder(VO.Project(s.varOrder).value)
    ensures VO.Project(s.varOrder).None? ==> r == DefaultBranch()
  {
    match VO.Project(s.varOrder)
    case Some(x) => s.valOrder(x)
    case None => DefaultBranch()
  }

  /** Refining a split over a sequence of indices. */
  function RefineAllSplit<C>(s: Split<C>, d: Domain, idx: seq<int>, hasChanged: bool): (r: (Split<C>, bool))
    ensures r.0.valOrder == s.valOrder
    ensures (r.0.varOrder, r.1) == RefineAll(s.varOrder, d, idx, hasChanged)
    decreases |idx|
  {
    if |idx| == 0 then
      (s, hasChanged)
    else
      var t := Refine(s, d, idx[0], hasChanged);
      RefineAllSplit(t.0, d, idx[1..], t.1)
  }

  /**
   End to end: reset, a round covering every index, then `split()` branches on
   the first unfixed variable, or returns the default branch when every
   variable is fixed.
   */
  lemma FullRoundSplitsFirstUnfixed<C>(s: Split<C>, d: Domain, idx: seq<int>, hasChanged: bool)
    requires !IsTop(d)
    requires forall k :: 0 <= k < NumRefinements(s) ==> k in idx
    ensures var r := RefineAllSplit(Reset(s), d, idx, hasChanged).0;
            && VO.Valid(r.varOrder)
            && SplitBranch(r) == match ExpectedSelection(s.varOrder.vars, d)
                                 case Some(x) => s.valOrder(x)
                                 case None => DefaultBranch()
  {
    FullRoundSelectsFirstUnfixed(s.varOrder, d, idx, hasChanged);
  }
}
