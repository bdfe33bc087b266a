/** `BinderSherpa::SetDesiredTypePair`: reconciling the types of two sibling
    operands by recording constraints that push the quirk-typed side (NULL as
    `Invalid`, dates as `Varchar`, small integers as `Integer`) toward the
    other side's type. */
module Reconciler {
  import opened Types
  import opened ConstraintStore

  /** Types the parser hands out provisionally and that may be promoted. */
  predicate Promotable(t: TypeId) {
    t == Invalid || t == Varchar || t == Integer
  }

  /** A side with working type `self` is constrained to `other`: the two
      differ, `other` is a concrete type and `self` is a provisional type. */
  predicate PromotesTo(self: TypeId, other: TypeId) {
    self != other && other != Invalid && Promotable(self)
  }

  /** The pair of working types the decision is taken on. Constraints are
      consulted as a pair: once either side is constrained, an unconstrained
      side keeps `Invalid` instead of its resolved type. */
  function WorkingTypes(store: Store, arena: Arena, left: NodeId, right: NodeId): (w: (TypeId, TypeId))
    requires left < |arena| && right < |arena|
    ensures left in store ==> w.0 == store[left]
    ensures right in store ==> w.1 == store[right]
    ensures left !in store && right in store ==> w.0 == Invalid
    ensures left in store && right !in store ==> w.1 == Invalid
    ensures left !in store && right !in store ==> w == (arena[left], arena[right])
    ensures left == right ==> w.0 == w.1
  {
    var leftType := if left in store then store[left] else Invalid;
    var rightType := if right in store then store[right] else Invalid;
    var hasConstraints := left in store || right in store;
    if hasConstraints then (leftType, rightType) else (arena[left], arena[right])
  }

  /** The reading in which every side falls back to its own resolved type
      when it is unconstrained, whatever the other side is. */
  function PerSideWorkingType(store: Store, arena: Arena, e: NodeId): TypeId
    requires e < |arena|
  {
    if e in store then store[e] else arena[e]
  }

  /** Line 53's rule: `left` is constrained to `right`'s working type. */
  predicate LeftPromoted(store: Store, arena: Arena, left: NodeId, right: NodeId)
    requires left < |arena| && right < |arena|
  {
    var (leftType, rightType) := WorkingTypes(store, arena, left, right);
    PromotesTo(leftType, rightType)
  }

  /** Line 61's rule: `right` is constrained to `left`'s working type. */
  predicate RightPromoted(store: Store, arena: Arena, left: NodeId, right: NodeId)
    requires left < |arena| && right < |arena|
  {
    var (leftType, rightType) := WorkingTypes(store, arena, left, right);
    PromotesTo(rightType, leftType)
  }

  /** `SetDesiredTypePair`: the store after reconciling `left` with `right`. */
  function SetDesiredTypePair(store: Store, arena: Arena, left: NodeId, right: NodeId): (s: Store)
    requires left < |arena| && right < |arena|
    // Equal working types, including both `Invalid`: nothing is recorded.
    ensures WorkingTypes(store, arena, left, right).0 == WorkingTypes(store, arena, left, right).1 ==> s == store
    // Exactly the keys of the promoted sides are added.
    ensures s.Keys == store.Keys
                      + (if LeftPromoted(store, arena, left, right) then {left} else {})
                      + (if RightPromoted(store, arena, left, right) then {right} else {})
    // A promoted side is constrained to the other side's original working type.
    ensures LeftPromoted(store, arena, left, right) ==> s[left] == WorkingTypes(store, arena, left, right).1
    ensures RightPromoted(store, arena, left, right) ==> s[right] == WorkingTypes(store, arena, left, right).0
    // A side that is not promoted keeps its entry.
    ensures left in store && !LeftPromoted(store, arena, left, right) ==> s[left] == store[left]
    ensures right in store && !RightPromoted(store, arena, left, right) ==> s[right] == store[right]
    // Only the keys of `left` and `right` can change.
    ensures forall k :: k in store && k != left && k != right ==> s[k] == store[k]
  {
    var (leftType, rightType) := WorkingTypes(store, arena, left, right);
    if leftType == rightType then store
    else
      var isLeftMaybeNull := leftType == Invalid;
      var isLeftVarchar := leftType == Varchar;
      var isLeftInteger := leftType == Integer;
      var s1 := if rightType != Invalid && (isLeftMaybeNull || isLeftVarchar || isLeftInteger)
                then SetDesiredType(store, left, rightType)
                else store;
      var isRightMaybeNull := rightType == Invalid;
      var isRightVarchar := rightType == Varchar;
      var isRightInteger := rightType == Integer;
      if leftType != Invalid && (isRightMaybeNull || isRightVarchar || isRightInteger)
      then SetDesiredType(s1, right, leftType)
      else s1
  }

  /** The pair reading and the per-side reading of the working types agree
      exactly when both sides, or neither, are constrained, or when every
      unconstrained side resolves to `Invalid` anyway. */
  lemma WorkingTypesVersusPerSide(store: Store, arena: Arena, left: NodeId, right: NodeId)
    requires left < |arena| && right < |arena|
    ensures WorkingTypes(store, arena, left, right)
              == (PerSideWorkingType(store, arena, left), PerSideWorkingType(store, arena, right))
            <==> (left in store <==> right in store)
                 || ((left in store || arena[left] == Invalid) && (right in store || arena[right] == Invalid))
  {
  }

  /** Reconciler symmetry: both checks use the original working types, so
      reconciling `(right, left)` records the mirrored writes and yields the
      same store as reconciling `(left, right)`. */
  lemma SetDesiredTypePairSymmetric(store: Store, arena: Arena, left: NodeId, right: NodeId)
    requires left < |arena| && right < |arena|
    ensures SetDesiredTypePair(store, arena, right, left) == SetDesiredTypePair(store, arena, left, right)
  {
  }

  /** With a constrained `Varchar` on one side and an `Integer` on the other,
      both checks fire and the two sides exchange types. */
  lemma VarcharIntegerExchange(store: Store, arena: Arena, left: NodeId, right: NodeId)
    requires left < |arena| && right < |arena|
    requires left in store && store[left] == Varchar
    requires right in store && store[right] == Integer
    ensures SetDesiredTypePair(store, arena, left, right) == store[left := Integer][right := Varchar]
  {
  }
}
