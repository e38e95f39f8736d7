/**
 `VariableOrder` and its one concrete policy `InputOrder`: a first-unfixed
 variable selector. The state is the cached sequence of variable handles
 (built by `interpret`) and the accumulator `smallest`, a `ZDec` value whose
 bottom means "no candidate yet". The shared domain is passed to each
 operation as a read-only snapshot.
 */
module VariableOrder {
  import opened Optional
  import opened ZDecLattice
  import opened AbstractDomain

  datatype InputOrder = InputOrder(vars: seq<AVar>, smallest: ZDec)

  /** `project()` may only read `vars` at an accumulated index that exists. */
  predicate Valid(o: InputOrder) {
    o.smallest.Val? ==> 0 <= o.smallest.n < |o.vars|
  }

  /** Variable `k` would be told into the accumulator by `refine(k)` on `d`. */
  predicate Candidate(o: InputOrder, d: Domain, k: int) {
    0 <= k < |o.vars| && !IsTop(d) && Unfixed(d.project(o.vars[k]))
  }

  /** The constructor: no cached variables, accumulator at bottom. */
  function Create(): (o: InputOrder)
    ensures Valid(o)
    ensures Project(o) == None
    ensures NumRefinements(o) == 0
  {
    InputOrder([], Bot)
  }

  /**
   The copy constructor: the cached handles and the accumulator are copied by
   value, so the copy selects what the original selects.
   */
  function Clone(o: InputOrder): (r: InputOrder)
    ensures r.vars == o.vars && r.smallest == o.smallest
    ensures Valid(o) ==> Valid(r) && Project(r) == Project(o)
  {
    InputOrder(o.vars, o.smallest)
  }

  /**
   `interpret()`: rebuild the cached handles from the environment when, and
   only when, the cached length differs from the environment's size.
   */
  function Interpret(o: InputOrder, d: Domain): (r: InputOrder)
    ensures |r.vars| == |d.env|
    ensures r.smallest == o.smallest
    ensures |o.vars| == |d.env| ==> r == o
    ensures |o.vars| != |d.env| ==> forall j :: 0 <= j < |r.vars| ==> r.vars[j] == d.env[j]
  {
    if |o.vars| != |d.env| then o.(vars := d.env) else o
  }

  /** The rebuild loop of `interpret()`: clear, then push each environment handle in turn. */
  method InterpretByPushBack(o: InputOrder, d: Domain) returns (r: InputOrder)
    ensures r == Interpret(o, d)
  {
    if |o.vars| != |d.env| {
      var vars: seq<AVar> := [];
      var i := 0;
      while i < |d.env|
        invariant 0 <= i <= |d.env|
        invariant vars == d.env[..i]
      {
        vars := vars + [d.env[i]];
        i := i + 1;
      }
      r := o.(vars := vars);
    } else {
      r := o;
    }
  }

  /** `num_refinements()`: the index space of a round is `[0, |vars|)`. */
  function NumRefinements(o: InputOrder): nat {
    |o.vars|
  }

  /** `reset()`: the accumulator returns to bottom, so nothing is selected. */
  function Reset(o: InputOrder): (r: InputOrder)
    ensures r.vars == o.vars
    ensures r.smallest == Bot
    ensures Valid(r) && Project(r) == None
  {
    o.(smallest := Meet(o.smallest, Bot))
  }

  /**
   `refine(i, has_changed)`. `refine` compares the signed index with the
   unsigned `vars.size()`, so a negative index is out of range; an
   out-of-range index and a top domain leave everything as it is. Otherwise an unfixed variable `i` is told into
   the accumulator, which keeps the smaller index and raises the flag only
   if it moved.
   */
  function Refine(o: InputOrder, d: Domain, i: int, hasChanged: bool): (r: (InputOrder, bool))
    ensures r.0.vars == o.vars
    ensures Leq(o.smallest, r.0.smallest)
    ensures hasChanged ==> r.1
    ensures r.1 <==> hasChanged || r.0.smallest != o.smallest
    ensures !Candidate(o, d, i) ==> r == (o, hasChanged)
    ensures Candidate(o, d, i) ==> r.0.smallest == Join(o.smallest, Val(i))
    ensures r.0.smallest != o.smallest ==> Candidate(o, d, i) && r.0.smallest == Val(i)
    ensures Valid(o) ==> Valid(r.0)
  {
    if 0 <= i < |o.vars| && !IsTop(d) then
      var x := d.project(o.vars[i]);
      if x.lb < x.ub then
        var t := Tell(o.smallest, Val(i), hasChanged);
        (o.(smallest := t.0), t.1)
      else
        (o, hasChanged)
    else
      (o, hasChanged)
  }

  /** `project()`: the cached handle at the accumulated index, or none at bottom. */
  function Project(o: InputOrder): (r: Option<AVar>)
    requires Valid(o)
    ensures r.None? <==> o.smallest.Bot?
    ensures o.smallest.Val? ==> r == Some(o.vars[o.smallest.n])
  {
    match o.smallest
    case Bot => None
    case Val(k) => Some(o.vars[k])
  }

  /** Rebuilding from an environment that did not shrink keeps the accumulated index in range. */
  lemma InterpretKeepsValid(o: InputOrder, d: Domain)
    requires Valid(o)
    requires |o.vars| <= |d.env|
    ensures Valid(Interpret(o, d))
  {
  }

  /** `interpret()` is idempotent on an unchanged environment. */
  lemma InterpretIdempotent(o: InputOrder, d: Domain)
    ensures Interpret(Interpret(o, d), d) == Interpret(o, d)
  {
  }

  /** Repeating the same `refine(i)` on the same snapshot changes nothing more. */
  lemma RefineIdempotent(o: InputOrder, d: Domain, i: int, hasChanged: bool, hasChanged': bool)
    ensures var r := Refine(o, d, i, hasChanged);
            Refine(r.0, d, i, hasChanged') == (r.0, hasChanged')
  {
  }

  /** Two refinements on the same snapshot commute (the accumulator, and the flag). */
  lemma RefineCommutes(o: InputOrder, d: Domain, i: int, j: int, hasChanged: bool)
    ensures var a := Refine(o, d, i, hasChanged);
            var b := Refine(o, d, j, hasChanged);
            Refine(a.0, d, j, a.1) == Refine(b.0, d, i, b.1)
  {
  }
}
