/**
 The abstract domain as this layer sees it: a read-only snapshot. The
 branching layer only reads the environment (the variable handles, in
 environment order), the per-variable interval of a handle, and whether the
 domain is top (inconsistent).
 */
module AbstractDomain {

  /** A variable handle inside the abstract domain (abstract type and index). */
  datatype AVar = AVar(aty: nat, vid: nat)

  /** The per-variable lattice value, reduced to its two bounds. */
  datatype Itv = Itv(lb: int, ub: int)

  /** A variable is not yet fixed when its lower bound is strictly below its upper bound. */
  predicate Unfixed(x: Itv) {
    x.lb < x.ub
  }

  /**
   A snapshot of the shared domain: `env` holds the handle of each
   environment entry in order, `project` reads a handle's interval, and
   `top` is the global-inconsistency test.
   */
  datatype Domain = Domain(env: seq<AVar>, project: AVar -> Itv, top: bool)

  function IsTop(d: Domain): bool {
    d.top
  }
}
