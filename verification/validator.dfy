/** `BinderSherpa::CheckDesiredType`: once a node's type is final, any
    constraint recorded for it must be met. */
module Validator {
  import opened Wrappers
  import opened Types
  import opened ConstraintStore

  function CheckDesiredType(store: Store, arena: Arena, e: NodeId): (o: Outcome<Failure>)
    requires e < |arena|
    ensures o.Fail? <==> e in store && store[e] != arena[e]
    ensures o.Fail? ==> o.error == ConstraintViolated
    ensures e !in store ==> o == Pass
  {
    match GetDesiredType(store, e)
    case Some(desired) => if desired != arena[e] then Fail(ConstraintViolated) else Pass
    case None => Pass
  }
}
