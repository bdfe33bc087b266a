/** How the three pieces compose over one binding pass: the reconciler
    records constraints, the coercion drives constants toward them, and the
    validator confirms the final types. A constant's resolved type is both
    its `Constant.typ` and its entry in the arena; the lemmas here take the
    arena to hold the types after coercion, so a successful coercion of node
    `e` is reflected by updating `arena[e]` to the new constant's type. */
module BindingPass {
  import opened Wrappers
  import opened Types
  import opened ConstraintStore
  import opened Reconciler
  import opened Validator
  import opened IntText
  import opened Coercion

  /** A constraint recorded for a constant is discharged by a successful
      coercion of that constant to the constrained type (for every source
      outside the numeric cast). */
  lemma CoercionDischargesConstraint(store: Store, arena: Arena, e: NodeId, c: Constant, env: Collaborators)
    requires e < |arena| && e in store
    requires c.typ == arena[e] && !IsIntegerType(c.typ)
    requires c.typ != store[e] ==> Readable(c)
    requires CheckAndTryPromoteType(c, store[e], env).Ok?
    ensures CheckDesiredType(store, arena[e := CheckAndTryPromoteType(c, store[e], env).value.typ], e) == Pass
  {
  }

  /** A promoted side passes validation exactly when its final type is the
      other side's working type. */
  lemma ReconciledSideValidation(store: Store, arena: Arena, left: NodeId, right: NodeId, final: Arena)
    requires left < |arena| && right < |arena| && |final| == |arena|
    requires LeftPromoted(store, arena, left, right)
    ensures CheckDesiredType(SetDesiredTypePair(store, arena, left, right), final, left) == Pass
            <==> final[left] == WorkingTypes(store, arena, left, right).1
  {
  }

  /** A NULL literal beside the integer literal 7: the NULL side is
      constrained to INTEGER, becomes a NULL of type INTEGER, and then meets
      its constraint; coercing that NULL to INTEGER once more changes nothing. */
  lemma NullBesideInteger(env: Collaborators)
    ensures SetDesiredTypePair(map[], [Invalid, Integer], 0, 1) == map[0 := Integer]
    ensures CheckAndTryPromoteType(Constant(Invalid, Null), Integer, env) == Ok(Constant(Integer, Null))
    ensures CheckDesiredType(map[0 := Integer], [Integer, Integer], 0) == Pass
    ensures CheckAndTryPromoteType(Constant(Integer, Null), Integer, env) == Ok(Constant(Integer, Null))
  {
  }

  /** The text "300" does not fit TINYINT; "123" becomes the INTEGER 123. */
  lemma TextLiterals(env: Collaborators)
    ensures CheckAndTryPromoteType(Constant(Varchar, Text("300")), TinyInt, env) == Err(OutOfRange)
    ensures CheckAndTryPromoteType(Constant(Varchar, Text("123")), Integer, env) == Ok(Constant(Integer, Int(123)))
  {
    assert Show(300) == "300";
    TextToIntegerRangeLaw(300, TinyInt, env);
    assert Show(123) == "123";
    TextToIntegerRangeLaw(123, Integer, env);
  }
}
