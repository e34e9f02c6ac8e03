# NSCompoundPredicate, modelled in Dafny

This project models `NSCompoundPredicate` from swift-corelibs-foundation: a
predicate that combines the results of its sub-predicates with AND, OR or NOT.
The model lives in one module, `CompoundPredicates`, in `compound_predicate.dfy`.

- `CompoundPredicateType` is the enumeration `NSCompoundPredicateType`, with its
  `UInt` raw values (`RawValue`, and the failable `FromRawValue`).
- `Predicate<O, B>` is a predicate. A `Leaf` is any non-compound `NSPredicate`,
  given as an opaque pure function of the object and the bindings. A
  `Compound` holds its type and its sub-predicate list. Compounds nest, because
  a compound predicate is itself an `NSPredicate`. `O` stands for the
  `AnyObject?` object and `B` for the `[String: AnyObject]?` bindings. Both are
  passed unchanged to every sub-predicate.
- `WellFormed` states the designated initialiser's check at every node: a NOT
  compound has at least one sub-predicate. Every predicate that can exist
  satisfies it, so `Eval` requires it.
- `Init` is the designated initialiser. Its trap on a NOT with an empty list is
  its precondition. `AndPredicate`, `OrPredicate` and `NotPredicate` are the
  convenience initialisers.
- `Eval` is `evaluateWithObject(_:substitutionVariables:)`. AND and OR are
  `Reduce`, a left fold in the way Swift's `reduce(_:combine:)` works, with
  `And` starting from `true` and `Or` starting from `false`. NOT negates
  sub-predicate 0 and never reads the others. `Eval` and `Reduce` only compute.
  What they mean is stated by the lemmas below: AND is a universal quantifier,
  OR is an existential one, and NOT is a negation.

A negation with more than one sub-predicate is accepted by the code, which
only checks for an empty list (`Foundation/NSCompoundPredicate.swift:23`). A
description of a negation as needing exactly one sub-predicate would be
stricter. The model follows the code: `Init` accepts any non-empty list for
NOT, and `NotReadsOnlyFirst` shows that entries after the first are ignored.

## Model

| member | source | states |
|---|---|---|
| CompoundPredicates.RawValue | Foundation/NSCompoundPredicate.swift:13-18 | every case's raw value is one of 0, 1, 2 |
| CompoundPredicates.FromRawValue | Foundation/NSCompoundPredicate.swift:13-18 | `init?(rawValue:)` succeeds exactly for 0, 1 and 2, and gives back the case with that raw value |
| CompoundPredicates.RawValueRoundTrip | Foundation/NSCompoundPredicate.swift:13-18 | converting a case to its raw value and back yields the same case |
| CompoundPredicates.Init | Foundation/NSCompoundPredicate.swift:22-29 | a NOT with no sub-predicates traps; otherwise the type and the list are stored unchanged, and the result is well formed exactly when every sub-predicate is |
| CompoundPredicates.InitPreconditionIsWellFormedness | Foundation/NSCompoundPredicate.swift:22-25 | over well-formed sub-predicates, the initialiser's check is exactly the well-formedness of the compound it builds: only NOT with an empty list is rejected, and AND and OR accept an empty list |
| CompoundPredicates.AndPredicate | Foundation/NSCompoundPredicate.swift:36-38 | the AND convenience initialiser is the designated one with the AND type; it never traps, and keeps well-formedness |
| CompoundPredicates.OrPredicate | Foundation/NSCompoundPredicate.swift:39-41 | the OR convenience initialiser is the designated one with the OR type; it never traps, and keeps well-formedness |
| CompoundPredicates.NotPredicate | Foundation/NSCompoundPredicate.swift:42-44 | the NOT convenience initialiser passes a one-element list, so it never traps; the result is well formed exactly when the wrapped predicate is |
| CompoundPredicates.ReduceAndIsConjunction | Foundation/NSCompoundPredicate.swift:49-51 | the AND fold from any start value is true exactly when the start value and every sub-predicate are true |
| CompoundPredicates.ReduceOrIsDisjunction | Foundation/NSCompoundPredicate.swift:53-55 | the OR fold from any start value is true exactly when the start value or some sub-predicate is true |
| CompoundPredicates.EvalAndIsForall | Foundation/NSCompoundPredicate.swift:46-51 | an AND compound evaluates to true exactly when every sub-predicate evaluates to true on the same object and bindings |
| CompoundPredicates.EvalOrIsExists | Foundation/NSCompoundPredicate.swift:46-55 | an OR compound evaluates to true exactly when at least one sub-predicate evaluates to true on the same object and bindings |
| CompoundPredicates.AndIdentity | Foundation/NSCompoundPredicate.swift:48-51 | an AND with no sub-predicates is true; with exactly one, it is that sub-predicate's result |
| CompoundPredicates.OrIdentity | Foundation/NSCompoundPredicate.swift:52-55 | an OR with no sub-predicates is false; with exactly one, it is that sub-predicate's result |
| CompoundPredicates.NotReadsOnlyFirst | Foundation/NSCompoundPredicate.swift:56-58 | a NOT compound evaluates to the negation of sub-predicate 0, whatever sub-predicates follow it; index 0 always exists for a well-formed NOT |
| CompoundPredicates.NotPredicateNegates | Foundation/NSCompoundPredicate.swift:42-43 | the NOT convenience initialiser yields a well-formed one-element compound whose result is the negation of the wrapped predicate's |

## Left out

- `init?(coder:)`: it has no implementation in the source, and archiving is I/O.
- The `NSPredicate` base class and the leaf predicates are not part of this model. A leaf is an opaque pure function of the object and the bindings.
- `super.init(value: false)`: the base class's stored value is never read when a compound is evaluated, so the model does not carry it.
- The text of the precondition-failure message (the count and the type) is not modelled. A trap is modelled as the precondition of `Init`.
- Short-circuiting of Swift's `&&` and `||` inside the fold closures is not modelled. Evaluation here is pure, so it cannot change the result.
- `NSDecimal` (fixed-width decimal arithmetic) is not part of this model. Every operation and initialiser it declares is an unimplemented stub, so there is no behaviour to model.
- `NSHost` (host-name resolution) is not part of this model. It is a wrapper over system name-resolution calls and raw memory, with no algorithm of its own.
