/**
 The decreasing integer lattice `ZDec<int>` that `InputOrder` uses as its
 selection accumulator.

 The order is the reverse of the integer order: a smaller integer carries
 MORE information. `Bot` is the least element ("no candidate yet"). Joining
 (the lattice's `tell`) therefore keeps the smaller integer, and meeting with
 `Bot` (the lattice's `dtell(bot())`) returns to `Bot`.
 */
module ZDecLattice {

  datatype ZDec = Bot | Val(n: int)

  /** `a` is below `b` in the lattice: `b` is `a` or a smaller integer. */
  predicate Leq(a: ZDec, b: ZDec) {
    match a
    case Bot => true
    case Val(x) => b.Val? && b.n <= x
  }

  /** `a` is strictly below `b`. */
  predicate Lt(a: ZDec, b: ZDec) {
    Leq(a, b) && a != b
  }

  /** Least upper bound: the numerically smaller value, `Bot` being neutral. */
  function Join(a: ZDec, b: ZDec): (r: ZDec)
    ensures Leq(a, r) && Leq(b, r)
    ensures forall c :: Leq(a, c) && Leq(b, c) ==> Leq(r, c)
    ensures r == a || r == b
  {
    match (a, b)
    case (Bot, _) => b
    case (_, Bot) => a
    case (Val(x), Val(y)) => if y < x then b else a
  }

  /** Greatest lower bound: the numerically larger value, `Bot` being absorbing. */
  function Meet(a: ZDec, b: ZDec): (r: ZDec)
    ensures Leq(r, a) && Leq(r, b)
    ensures forall c :: Leq(c, a) && Leq(c, b) ==> Leq(c, r)
    ensures r == a || r == b
  {
    match (a, b)
    case (Bot, _) => Bot
    case (_, Bot) => Bot
    case (Val(x), Val(y)) => if y < x then a else b
  }

  /**
   `tell` of the lattice: joins `b` into `a`, and raises the change flag
   exactly when the accumulator moved. The flag is a monotone boolean: it
   is never lowered.
   */
  function Tell(a: ZDec, b: ZDec, changed: bool): (r: (ZDec, bool))
    ensures Leq(a, r.0) && Leq(b, r.0)
    ensures r.0 == a || r.0 == b
    ensures changed ==> r.1
    ensures r.1 <==> changed || Lt(a, r.0)
  {
    var j := Join(a, b);
    (j, changed || j != a)
  }

  /** `Leq` is a partial order, so the bounds stated by `Join` and `Meet` are the least and greatest ones. */
  lemma LeqPartialOrder(a: ZDec, b: ZDec, c: ZDec)
    ensures Leq(a, a)
    ensures Leq(a, b) && Leq(b, a) ==> a == b
    ensures Leq(a, b) && Leq(b, c) ==> Leq(a, c)
  {
  }

  /** The laws that make `tell` order-insensitive and repeatable. */
  lemma JoinLaws(a: ZDec, b: ZDec, c: ZDec)
    ensures Join(a, b) == Join(b, a)
    ensures Join(Join(a, b), c) == Join(a, Join(b, c))
    ensures Join(a, a) == a
    ensures Join(a, Bot) == a
  {
  }
}
