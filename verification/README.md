# Branching layer of lala-search: variable order and split

This project models, in Dafny, the branching-decision layer of the
lala-search constraint solver. That layer does three things:

- `VariableOrder` caches the domain's variable handles (`interpret`).
- `InputOrder` picks the first variable that is not yet fixed. It does this
  with a decreasing integer lattice accumulator, `smallest`, which the
  driver tightens over a refinement round and resets between rounds.
- `Split` joins a variable order to a value order: it turns the selected
  variable into a branch, or returns the default branch when nothing is
  left to split.

Everything is modelled as immutable values and pure functions:

- `optional.dfy`: the `Option` result of `project()`.
- `zdec.dfy`: the `ZDec<int>` lattice. `Bot` means "no candidate". `Join`
  is `tell` and keeps the smaller index. `Meet` with `Bot` is
  `dtell(bot())`. `Tell` also returns the monotone `has_changed` flag.
- `domain.dfy`: a read-only snapshot of the shared abstract domain. It holds
  the environment as a sequence of handles, a `project` function from
  handle to interval `(lb, ub)`, and the `top` flag. `IsTop` is
  `is_top()`.
- `variable_order.dfy`: the `InputOrder` state (`vars` and `smallest`) with
  the constructor, copy, `interpret`, `num_refinements`, `reset`, `refine`
  and `project`. `interpret` is modelled twice: `Interpret` is the
  specification, and `InterpretByPushBack` is its clear-and-push loop,
  proved equal to it.
- `rounds.dfy`: a refinement round, as a fold of `refine` over a sequence
  of indices. The round is compared with a reference `FirstUnfixed`.
- `split.dfy`: the `Split` composition. The value order is an opaque
  function from handle to `Branch`, and `Branch([])` is the
  default-constructed branch.

Each operation takes the domain snapshot as a parameter. Within a round,
every `refine` call gets the same snapshot. This matches the static-domain
assumption stated at include/variable_order.hpp:81.

## Model

| member | source | states |
|---|---|---|
| ZDecLattice.Join | include/variable_order.hpp:56 | the lattice join of `ZDec` is the least upper bound in the reversed integer order, and it is one of its arguments |
| ZDecLattice.Meet | include/variable_order.hpp:73-75 | the meet is the greatest lower bound, so meeting with bottom (`dtell(bot())`) yields bottom |
| ZDecLattice.Tell | include/variable_order.hpp:83 | `tell` only moves the accumulator up (toward smaller indices); the change flag is never lowered and is raised exactly when the accumulator strictly moved |
| ZDecLattice.LeqPartialOrder | include/variable_order.hpp:56 | the order of the decreasing integer lattice is reflexive, antisymmetric and transitive, so `Join` and `Meet` are genuine least upper and greatest lower bounds |
| ZDecLattice.JoinLaws | include/variable_order.hpp:83 | `tell` is commutative, associative, idempotent and has bottom as neutral element |
| VariableOrder.Create | include/variable_order.hpp:60-63 | a freshly constructed order has no cached variables and its accumulator at bottom, so `project()` is none |
| VariableOrder.Clone | include/variable_order.hpp:65-67 | the copy constructor carries the cached handles and the accumulator over by value, so the copy projects what the original projects |
| Rounds.CloneBehavesAsOriginal | include/variable_order.hpp:65-67 | a round on the copy gives the same state and flag as the same round on the original |
| VariableOrder.Interpret | include/variable_order.hpp:33-42 | after `interpret` the cache has the environment's size; if it already had that size nothing changes; on a rebuild `vars[j]` is the handle of `env[j]`; the accumulator is untouched |
| VariableOrder.InterpretByPushBack | include/variable_order.hpp:35-41 | clearing the cache and pushing every environment handle in order yields exactly the `interpret` result |
| VariableOrder.InterpretIdempotent | include/variable_order.hpp:33-42 | interpreting twice against the same environment equals interpreting once |
| VariableOrder.InterpretKeepsValid | include/variable_order.hpp:35-41 | when the environment has not shrunk, a rebuild keeps the accumulated index inside the cache |
| VariableOrder.Reset | include/variable_order.hpp:73-75 | `reset` puts the accumulator at bottom, keeps the cache, and afterwards `project()` is none |
| VariableOrder.Refine | include/variable_order.hpp:77-86 | out of range (including negative) or on a top domain `refine` changes nothing; otherwise an unfixed variable `i` (`lb < ub`) makes the accumulator `min(old, i)` and a fixed one changes nothing; the accumulator never decreases in the lattice; the flag is only raised, and only on a strict change; the cache and the in-range invariant are kept |
| VariableOrder.Project | include/variable_order.hpp:88-93 | `project()` is none exactly when the accumulator is at bottom, and otherwise the cached handle at the accumulated index |
| VariableOrder.RefineIdempotent | include/variable_order.hpp:77-86 | repeating the same `refine(i)` on the same snapshot changes neither the accumulator nor the flag |
| VariableOrder.RefineCommutes | include/variable_order.hpp:77-86 | two `refine` calls on the same snapshot give the same state and flag in either order |
| Rounds.RefineAll | include/variable_order.hpp:77-86 | after a sequence of `refine` calls, the accumulator is either unchanged or the index of a refined, unfixed variable; it is at or above every refined unfixed index; the flag records whether it moved; the cache and the in-range invariant are kept |
| Rounds.RefineAllAppend | include/variable_order.hpp:77-86 | refining `a ++ b` is refining `a`, then `b` from the resulting state |
| Rounds.RefineAllDependsOnlyOnIndexSet | include/variable_order.hpp:77-86 | the state after a round depends only on the set of indices refined, not on their order or repetitions |
| Rounds.RoundCommutes | include/variable_order.hpp:69-86 | refining any permutation of the same indices gives the same state and flag |
| Rounds.RoundIdempotent | include/variable_order.hpp:77-86 | refining the same indices again after a round changes neither the state nor the flag |
| Rounds.TopRoundIsNoop | include/variable_order.hpp:78 | on a top domain a whole round leaves state and flag unchanged |
| Rounds.FullRoundSelectsFirstUnfixed | include/variable_order.hpp:69-93 | after `reset` and a round covering every index of `[0, num_refinements())` in any order, `project()` returns the handle of the least unfixed variable, or none if all are fixed |
| Rounds.PartialRoundIsSound | include/variable_order.hpp:78-92 | after `reset` and any partial round, a selected index was refined, is in range and is unfixed, and is never before the first unfixed variable |
| Rounds.ScenarioSelectsX1 | include/variable_order.hpp:77-93 | with `x0` in [2,2], `x1` in [0,3] and `x2` in [5,5], refining in order 2, 0, 1 selects `x1` and raises the flag |
| Splitting.NumRefinements | include/split.hpp:26-28 | the split's index space is the variable order's cache size |
| Splitting.Refine | include/split.hpp:30-32 | `refine` on a split is exactly `refine` on its variable order, and the value order is untouched |
| Splitting.Reset | include/split.hpp:34-36 | `reset` on a split is exactly `reset` on its variable order, and right after it `split()` gives the default branch |
| Splitting.SplitBranch | include/split.hpp:38-44 | `split()` gives the value order's branch on the projected variable when there is one, and otherwise the default branch |
| Splitting.RefineAllSplit | include/split.hpp:30-32 | a round on a split is the same round on its variable order |
| Splitting.FullRoundSplitsFirstUnfixed | include/split.hpp:34-43 | after `reset` and a full round, `split()` branches on the first unfixed variable, or gives the default branch when all variables are fixed |

Two members have no contract of their own.
`VariableOrder.NumRefinements` (include/variable_order.hpp:69-71) is the
cache size. `Refine` states that any index at or above it is a no-op.
`AbstractDomain.IsTop` (include/variable_order.hpp:44-46) forwards the
domain's `top` flag. Its effect is stated by `Refine` and `TopRoundIsNoop`.

## Left out

- The `shared_ptr` domain handle, the allocator, and `AbstractDeps::clone`
  (include/variable_order.hpp:23,30-31,66-67). The domain is a value
  parameter. `Clone` copies only the cached handles and the accumulator,
  and the domain snapshot passed to later calls stands for the cloned
  domain.
- CUDA annotations and any parallel or interleaved execution of `refine`.
  Concurrent mutation of the domain during a round is not modelled: each
  round uses one snapshot.
- The abstract domain itself: the interval store, propagation, formula
  interpretation, and the `to_avar` lookup. The environment is given
  directly as a sequence of handles.
- The three-valued `BInc` results and their `.guard()`/`.value()`. They are
  plain booleans here.
- Infinite interval bounds. Bounds are plain integers and unfixed means
  `lb < ub`.
- ZDecLattice.Join: `ZDec<int>` in the source encodes bottom as the largest
  `int`, and the index is a 32-bit `int`. The model uses unbounded integers
  and a distinct `Bot`, so it ignores that an index equal to the largest
  `int` would read as bottom. Indices are bounded by the cache size, so this
  does not arise in practice.
- VariableOrder.Project: it requires the accumulated index to lie inside
  the cache. The source indexes `vars` unchecked, and that read is
  undefined otherwise. `Refine`, `Reset` and `Create` keep this invariant.
  `Interpret` keeps it when the environment does not shrink.
- The value order's splitting policy, which is not part of this model. It
  is an opaque, pure function from handle to branch. The value order is
  assumed stateless: `split()` (include/split.hpp:38-44) is non-const and
  calls the non-const `val_order.split`, so a value order that keeps state
  could change it, and the model does not represent that change.
- The move constructors, the unused `lvars` constructor argument
  (include/variable_order.hpp:62), and the unused template parameter `A`
  of `Split`.
- The genericity of `Split` over variable orders. It is instantiated with
  `InputOrder`, the only concrete variable order.
- tests/helper.hpp: it holds test scaffolding and store-population helpers
  with no logic of this layer.
