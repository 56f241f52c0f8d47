/** The stand-alone one-deep `get`. */
module Get {
  import opened Values
  import ImmutableMgr

  /** The value under key `loc` when it is truthy, null when it is missing or falsy. */
  function Get(state: Value, loc: string): (r: Value)
    requires !IsNullish(state)
    ensures Truthy(r) <==> Truthy(Member(state, loc))
    ensures Truthy(r) ==> state.Obj? && loc in state.fields && r == state.fields[loc]
    ensures !state.Obj? || loc !in state.fields ==> r == Null
    ensures !Truthy(r) ==> r == Null
  {
    var found := Member(state, loc);
    if Truthy(found) then found else Null
  }

  /** It agrees with the facade's `get` on every input. */
  lemma AgreesWithFacade(state: Value, loc: string)
    requires !IsNullish(state)
    ensures Get(state, loc) == ImmutableMgr.Get(state, loc)
  {
  }
}
