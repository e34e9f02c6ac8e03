/** A model of Foundation's NSCompoundPredicate: a predicate that combines the
    results of its sub-predicates with AND, OR or NOT.

    The object under evaluation and the substitution-variable bindings are
    opaque to the compound predicate: they are the type parameters O and B and
    are handed unchanged to every sub-predicate. A leaf predicate (any
    NSPredicate that is not compound) is a pure function of the two. */
module CompoundPredicates {

  datatype Option<T> = None | Some(value: T)

  /** NSCompoundPredicateType, a UInt-backed enumeration. */
  datatype CompoundPredicateType = NotPredicateType | AndPredicateType | OrPredicateType

  /** The raw value Swift assigns to each case: its position in the declaration. */
  function RawValue(t: CompoundPredicateType): (n: nat)
    ensures n < 3
  {
    match t
    case NotPredicateType => 0
    case AndPredicateType => 1
    case OrPredicateType => 2
  }

  /** The failable `init?(rawValue:)` Swift synthesises for the enumeration. */
  function FromRawValue(n: nat): (r: Option<CompoundPredicateType>)
    ensures r.Some? <==> n < 3
    ensures r.Some? ==> RawValue(r.value) == n
  {
    if n == 0 then Some(NotPredicateType)
    else if n == 1 then Some(AndPredicateType)
    else if n == 2 then Some(OrPredicateType)
    else None
  }

  lemma RawValueRoundTrip(t: CompoundPredicateType)
    ensures FromRawValue(RawValue(t)) == Some(t)
  {
  }

  /** A predicate: either a leaf, evaluated by an opaque function, or a
      compound holding its type and its list of sub-predicates. Compounds nest
      because a compound predicate is itself a predicate. */
  datatype Predicate<!O, !B> =
    | Leaf(evaluate: (O, B) -> bool)
    | Compound(compoundPredicateType: CompoundPredicateType, subpredicates: seq<Predicate<O, B>>)

  /** The condition the designated initialiser enforces, at every node: a NOT
      compound has at least one sub-predicate. Every compound predicate that
      can exist satisfies it. */
  predicate WellFormed<O, B>(p: Predicate<O, B>)
    decreases p
  {
    match p
    case Leaf(_) => true
    case Compound(t, subs) =>
      && !(t == NotPredicateType && |subs| == 0)
      && forall i | 0 <= i < |subs| :: WellFormed(subs[i])
  }

  predicate AllWellFormed<O, B>(subs: seq<Predicate<O, B>>) {
    forall i | 0 <= i < |subs| :: WellFormed(subs[i])
  }

  /** The designated initialiser `init(type:subpredicates:)`. Building a NOT
      with no sub-predicates is a precondition failure (a trap), so it is this
      function's precondition; AND and OR accept any list, the empty one
      included. The type and the list are stored unchanged. */
  function Init<O, B>(t: CompoundPredicateType, subs: seq<Predicate<O, B>>): (p: Predicate<O, B>)
    requires t != NotPredicateType || |subs| > 0
    ensures p.Compound? && p.compoundPredicateType == t && p.subpredicates == subs
    ensures WellFormed(p) <==> AllWellFormed(subs)
  {
    Compound(t, subs)
  }

  /** `init(andPredicateWithSubpredicates:)` */
  function AndPredicate<O, B>(subs: seq<Predicate<O, B>>): (p: Predicate<O, B>)
    ensures p == Init(AndPredicateType, subs)
    ensures WellFormed(p) <==> AllWellFormed(subs)
  {
    Init(AndPredicateType, subs)
  }

  /** `init(orPredicateWithSubpredicates:)` */
  function OrPredicate<O, B>(subs: seq<Predicate<O, B>>): (p: Predicate<O, B>)
    ensures p == Init(OrPredicateType, subs)
    ensures WellFormed(p) <==> AllWellFormed(subs)
  {
    Init(OrPredicateType, subs)
  }

  /** `init(notPredicateWithSubpredicate:)`: always a one-element list, so the
      designated initialiser's precondition always holds. */
  function NotPredicate<O, B>(q: Predicate<O, B>): (p: Predicate<O, B>)
    ensures p == Init(NotPredicateType, [q])
    ensures WellFormed(p) <==> WellFormed(q)
  {
    assert [q][0] == q;
    Init(NotPredicateType, [q])
  }

  function And(x: bool, y: bool): bool { x && y }

  function Or(x: bool, y: bool): bool { x || y }

  /** `evaluateWithObject(_:substitutionVariables:)`: AND folds from true,
      OR folds from false, NOT negates sub-predicate 0 and reads no other. */
  function Eval<O, B>(p: Predicate<O, B>, obj: O, bindings: B): bool
    requires WellFormed(p)
    decreases p
  {
    match p
    case Leaf(evaluate) => evaluate(obj, bindings)
    case Compound(t, subs) =>
      match t
      case AndPredicateType => Reduce(true, subs, And, obj, bindings)
      case OrPredicateType => Reduce(false, subs, Or, obj, bindings)
      case NotPredicateType => !Eval(subs[0], obj, bindings)
  }

  /** `reduce(initial, combine:)` over the sub-predicates, where the closure
      combines the running value with the sub-predicate's evaluation: a left
      fold. */
  function Reduce<O, B>(acc: bool, subs: seq<Predicate<O, B>>, combine: (bool, bool) -> bool, obj: O, bindings: B): bool
    requires AllWellFormed(subs)
    decreases subs
  {
    if |subs| == 0 then acc
    else Reduce(combine(acc, Eval(subs[0], obj, bindings)), subs[1..], combine, obj, bindings)
  }

  /** A NOT with an empty list is exactly what the designated initialiser
      traps on: over well-formed sub-predicates, its precondition and the
      well-formedness of the compound it builds coincide. */
  lemma InitPreconditionIsWellFormedness<O, B>(t: CompoundPredicateType, subs: seq<Predicate<O, B>>)
    requires AllWellFormed(subs)
    ensures WellFormed(Compound(t, subs)) <==> (t != NotPredicateType || |subs| > 0)
  {
  }

  /** Folding with And from `acc` is true exactly when `acc` is true and every
      sub-predicate evaluates to true. */
  lemma {:induction false} ReduceAndIsConjunction<O, B>(acc: bool, subs: seq<Predicate<O, B>>, obj: O, bindings: B)
    requires AllWellFormed(subs)
    ensures Reduce(acc, subs, And, obj, bindings) <==> acc && forall i | 0 <= i < |subs| :: Eval(subs[i], obj, bindings)
    decreases |subs|
  {
    if |subs| > 0 {
      var rest := subs[1..];
      ReduceAndIsConjunction(And(acc, Eval(subs[0], obj, bindings)), rest, obj, bindings);
      assert forall i | 1 <= i < |subs| :: subs[i] == rest[i - 1];
    }
  }

  /** Folding with Or from `acc` is true exactly when `acc` is true or some
      sub-predicate evaluates to true. */
  lemma {:induction false} ReduceOrIsDisjunction<O, B>(acc: bool, subs: seq<Predicate<O, B>>, obj: O, bindings: B)
    requires AllWellFormed(subs)
    ensures Reduce(acc, subs, Or, obj, bindings) <==> acc || exists i | 0 <= i < |subs| :: Eval(subs[i], obj, bindings)
    decreases |subs|
  {
    if |subs| > 0 {
      var rest := subs[1..];
      ReduceOrIsDisjunction(Or(acc, Eval(subs[0], obj, bindings)), rest, obj, bindings);
      assert forall i | 1 <= i < |subs| :: subs[i] == rest[i - 1];
    }
  }

  /** An AND compound is true exactly when every sub-predicate is true on the
      same object and bindings. */
  lemma {:induction false} EvalAndIsForall<O, B>(subs: seq<Predicate<O, B>>, obj: O, bindings: B)
    requires AllWellFormed(subs)
    ensures WellFormed(AndPredicate(subs))
    ensures Eval(AndPredicate(subs), obj, bindings) <==> forall i | 0 <= i < |subs| :: Eval(subs[i], obj, bindings)
  {
    ReduceAndIsConjunction(true, subs, obj, bindings);
  }

  /** An OR compound is true exactly when some sub-predicate is true on the
      same object and bindings. */
  lemma {:induction false} EvalOrIsExists<O, B>(subs: seq<Predicate<O, B>>, obj: O, bindings: B)
    requires AllWellFormed(subs)
    ensures WellFormed(OrPredicate(subs))
    ensures Eval(OrPredicate(subs), obj, bindings) <==> exists i | 0 <= i < |subs| :: Eval(subs[i], obj, bindings)
  {
    ReduceOrIsDisjunction(false, subs, obj, bindings);
  }

  /** The fold identities: an empty AND is true, and a one-element AND is its
      sub-predicate. */
  lemma {:induction false} AndIdentity<O, B>(q: Predicate<O, B>, obj: O, bindings: B)
    requires WellFormed(q)
    ensures Eval(AndPredicate([]), obj, bindings)
    ensures WellFormed(AndPredicate([q])) && Eval(AndPredicate([q]), obj, bindings) == Eval(q, obj, bindings)
  {
    EvalAndIsForall([q], obj, bindings);
  }

  /** The fold identities: an empty OR is false, and a one-element OR is its
      sub-predicate. */
  lemma {:induction false} OrIdentity<O, B>(q: Predicate<O, B>, obj: O, bindings: B)
    requires WellFormed(q)
    ensures !Eval(OrPredicate([]), obj, bindings)
    ensures WellFormed(OrPredicate([q])) && Eval(OrPredicate([q]), obj, bindings) == Eval(q, obj, bindings)
  {
    EvalOrIsExists([q], obj, bindings);
  }

  /** A NOT compound negates its first sub-predicate; whatever follows it in
      the list has no effect on the result. */
  lemma NotReadsOnlyFirst<O, B>(q: Predicate<O, B>, rest: seq<Predicate<O, B>>, obj: O, bindings: B)
    requires WellFormed(q) && AllWellFormed(rest)
    ensures WellFormed(Init(NotPredicateType, [q] + rest))
    ensures Eval(Init(NotPredicateType, [q] + rest), obj, bindings) == !Eval(q, obj, bindings)
  {
  }

  /** The NOT convenience initialiser never traps and yields the negation of
      the predicate it wraps. */
  lemma NotPredicateNegates<O, B>(q: Predicate<O, B>, obj: O, bindings: B)
    requires WellFormed(q)
    ensures WellFormed(NotPredicate(q))
    ensures |NotPredicate(q).subpredicates| == 1
    ensures Eval(NotPredicate(q), obj, bindings) == !Eval(q, obj, bindings)
  {
  }
}
