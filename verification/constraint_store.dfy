/** The constraint store: for each expression node that its syntactic context
    has constrained, the type that node must end up with. Nodes are named by
    their index in the binding pass's node arena instead of by address. */
module ConstraintStore {
  import opened Wrappers
  import opened Types

  /** Index of an expression node in the arena of one binding pass. */
  type NodeId = nat

  /** Required type per constrained node; at most one per node. */
  type Store = map<NodeId, TypeId>

  /** The resolved (return-value) type of every node of the pass, by index. */
  type Arena = seq<TypeId>

  /** `SetDesiredType`: record `t` for `e`, overwriting any earlier
      requirement (last write wins); every other entry is kept. */
  function SetDesiredType(store: Store, e: NodeId, t: TypeId): (s: Store)
    ensures e in s && s[e] == t
    ensures s.Keys == store.Keys + {e}
    ensures forall k :: k in store && k != e ==> s[k] == store[k]
  {
    store[e := t]
  }

  /** The recorded requirement for `e`, if there is one. */
  function GetDesiredType(store: Store, e: NodeId): (r: Option<TypeId>)
    ensures r.Some? <==> e in store
    ensures r.Some? ==> r.value == store[e]
  {
    if e in store then Some(store[e]) else None
  }

  /** A lookup after recording `t` for `e` finds `t` for `e` and whatever was
      found before for every other node. */
  lemma GetAfterSet(store: Store, e: NodeId, t: TypeId, k: NodeId)
    ensures GetDesiredType(SetDesiredType(store, e, t), k)
            == if k == e then Some(t) else GetDesiredType(store, k)
  {
  }
}
