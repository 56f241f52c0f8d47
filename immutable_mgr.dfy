/**
 * The stateless facade: each export except `clear`, `get` and `withMutations` opens
 * a session on its argument, makes one call and returns `getState`. `clear` returns
 * `{}` and `get` reads its argument, without a session; `withMutations` makes the
 * calls of a whole script on one session. A script of calls stands for the callback
 * that makes them.
 */
module ImmutableMgr {
  import opened Values
  import opened Helpers
  import opened Utils
  import Cmd = ImmutableCommands
  import Ops = Operations
  import M = Mutations

  function Clear(state: Value): (r: Value)
    ensures r.Obj? && r.fields == map[]
  {
    EmptyState
  }

  /** The value under key `loc` when it is truthy, null otherwise. */
  function Get(state: Value, loc: string): (r: Value)
    requires !IsNullish(state)
    ensures Truthy(Member(state, loc)) ==> state.Obj? && loc in state.fields && r == state.fields[loc]
    ensures !state.Obj? || loc !in state.fields ==> r == Null
    ensures !Truthy(Member(state, loc)) ==> r == Null
  {
    if Truthy(Member(state, loc)) then Member(state, loc) else Null
  }

  function GetIn(state: Value, locArray: Path): Value
    requires locArray != [] ==> !IsNullish(Ops.Init(state))
  {
    var s := Ops.Init(state);
    Ops.Finish(s, Ops.GetIn(s, locArray))
  }

  function Set(state: Value, loc: string, value: Value): Value
    requires loc == "" || Ops.Init(state).Obj?
  {
    var s := Ops.Init(state);
    Ops.Finish(s, Ops.Set(s, loc, value))
  }

  function SetIn(state: Value, locArray: Path, value: Value): Value
    requires locArray == [] || ParentExists(Ops.Init(state), locArray)
  {
    var s := Ops.Init(state);
    Ops.Finish(s, Ops.SetIn(s, locArray, value))
  }

  function Update(state: Value, loc: string, func: Value -> Value): Value
    requires IsEmpty(Ops.Init(state)) || Ops.Init(state).Obj?
  {
    var s := Ops.Init(state);
    Ops.Finish(s, Ops.Update(s, loc, func))
  }

  function UpdateIn(state: Value, locArray: Path, func: Value -> Value): Value
    requires locArray != [] ==> !IsNullish(Ops.Init(state))
  {
    var s := Ops.Init(state);
    Ops.Finish(s, Ops.UpdateIn(s, locArray, func))
  }

  function Remove(state: Value, loc: string): Value
    requires Ops.DeleteInDefined(Ops.Init(state), [loc])
  {
    var s := Ops.Init(state);
    Ops.Finish(s, Ops.DeleteIn(s, [loc]))
  }

  function RemoveIn(state: Value, locArray: Path): Value
    requires Ops.DeleteInDefined(Ops.Init(state), locArray)
  {
    var s := Ops.Init(state);
    Ops.Finish(s, Ops.DeleteIn(s, locArray))
  }

  function Merge(state: Value, value: Value): Value
    requires Ops.Init(state).Obj? && value.Obj?
  {
    var s := Ops.Init(state);
    Ops.Finish(s, Ops.Merge(s, value))
  }

  function MergeDeep(state: Value, value: Value): Value
    requires Ops.Init(state).Obj? && value.Obj?
  {
    var s := Ops.Init(state);
    Ops.Finish(s, Ops.MergeDeep(s, value))
  }

  function MergeIn(state: Value, locArray: Path, value: Value): Value
    requires Ops.MergeInDefined(Ops.Init(state), locArray, value)
  {
    var s := Ops.Init(state);
    Ops.Finish(s, Ops.MergeIn(s, locArray, value))
  }

  function PushIn(state: Value, locArray: Path, value: Value): Value
    requires Ops.AddToSequenceDefined(Ops.Init(state), locArray, value)
  {
    var s := Ops.Init(state);
    Ops.Finish(s, Ops.PushIn(s, locArray, value))
  }

  function Push(state: Value, loc: string, value: Value): Value
    requires Ops.AddToSequenceDefined(Ops.Init(state), [loc], value)
  {
    var s := Ops.Init(state);
    Ops.Finish(s, Ops.Push(s, loc, value))
  }

  function Unshift(state: Value, loc: string, value: Value): Value
    requires Ops.AddToSequenceDefined(Ops.Init(state), [loc], value)
  {
    var s := Ops.Init(state);
    Ops.Finish(s, Ops.Unshift(s, loc, value))
  }

  function UnshiftIn(state: Value, locArray: Path, value: Value): Value
    requires Ops.AddToSequenceDefined(Ops.Init(state), locArray, value)
  {
    var s := Ops.Init(state);
    Ops.Finish(s, Ops.UnshiftIn(s, locArray, value))
  }

  function PullAtIn(state: Value, locArray: Path, index: seq<int>): Value
    requires locArray != [] ==> !IsNullish(Ops.Init(state))
  {
    var s := Ops.Init(state);
    Ops.Finish(s, Ops.PullAtIn(s, locArray, index))
  }

  /** `withMutations`: the calls of the script made on one session, then `getState`. */
  function WithMutations(state: Value, script: seq<Ops.Op>): Value
    requires Ops.Runs(Ops.Init(state), script)
  {
    var s := Ops.Init(state);
    Ops.Finish(s, Ops.Run(s, script))
  }

  /** `withMutations` on a real session object: open it, make the calls, hand back its state. */
  method WithMutationsSession(state: Value, script: seq<Ops.Op>) returns (r: Value)
    requires Ops.Runs(Ops.Init(state), script)
    ensures r == WithMutations(state, script)
  {
    var session := new M.Mutations(state);
    var _ := session.PerformAll(script);
    r := session.GetState();
  }

  /** The export a single call stands for. */
  function Export(state: Value, op: Ops.Op): Value
    requires Ops.Pre(Ops.Init(state), op)
  {
    match op
    case GetInOp(p) => GetIn(state, p)
    case ClearOp => Clear(state)
    case SetInOp(p, v) => SetIn(state, p, v)
    case SetOp(loc, v) => Set(state, loc, v)
    case UpdateOp(loc, f) => Update(state, loc, f)
    case UpdateInOp(p, f) => UpdateIn(state, p, f)
    case MergeOp(v) => Merge(state, v)
    case MergeInOp(p, v) => MergeIn(state, p, v)
    case MergeDeepOp(v) => MergeDeep(state, v)
    case PushOp(loc, v) => Push(state, loc, v)
    case PushInOp(p, v) => PushIn(state, p, v)
    case UnshiftOp(loc, v) => Unshift(state, loc, v)
    case UnshiftInOp(p, v) => UnshiftIn(state, p, v)
    case PullAtInOp(p, idx) => PullAtIn(state, p, idx)
    case DeleteInOp(p) => RemoveIn(state, p)
  }

  // ---------------------------------------------------------------------------
  // Properties of the exports
  // ---------------------------------------------------------------------------

  /** A map as the working value is handed back as it is. */
  lemma FinishObj(original: Value, working: Value)
    requires working.Obj?
    ensures Ops.Finish(original, working) == working
  {
  }

  /** `clear` ignores its argument: any two calls give the same empty map. */
  lemma ClearIgnoresState(a: Value, b: Value)
    ensures Clear(a) == Clear(b) == EmptyState
  {
  }

  /** A script that leaves the working value equal to the input hands back the input itself. */
  lemma UnchangedReturnsInput(state: Value, script: seq<Ops.Op>)
    requires Ops.Runs(Ops.Init(state), script)
    requires Ops.Run(Ops.Init(state), script) == Ops.Init(state)
    ensures WithMutations(state, script) == Ops.Init(state)
    ensures !state.Undefined? ==> WithMutations(state, script) == state
  {
  }

  /** `withMutations` with a one-call script is the export of that call. */
  lemma WithMutationsSingle(state: Value, op: Ops.Op)
    requires Ops.Pre(Ops.Init(state), op)
    ensures Ops.Runs(Ops.Init(state), [op])
    ensures WithMutations(state, [op]) == Export(state, op)
  {
    var s := Ops.Init(state);
    assert [op][1..] == [];
    assert Ops.Run(s, [op]) == Ops.Step(s, op);
    if op.ClearOp? {
      FinishObj(s, EmptyState);
    }
  }

  /**
   * A batch equals its two halves made by two separate calls, provided the input and
   * the value between the halves are truthy (a falsy value in between would be
   * reported as undefined, and a falsy input could be handed back as itself).
   */
  lemma WithMutationsSequential(state: Value, a: seq<Ops.Op>, b: seq<Ops.Op>)
    requires Truthy(Ops.Init(state))
    requires Ops.Runs(Ops.Init(state), a) && Ops.Runs(Ops.Run(Ops.Init(state), a), b)
    requires Truthy(Ops.Run(Ops.Init(state), a))
    ensures Ops.Runs(Ops.Init(state), a + b)
    ensures Ops.Runs(Ops.Init(WithMutations(state, a)), b)
    ensures WithMutations(state, a + b) == WithMutations(WithMutations(state, a), b)
  {
    var s := Ops.Init(state);
    var mid := Ops.Run(s, a);
    Ops.RunAppend(s, a, b);
    assert WithMutations(state, a) == mid;
    assert Ops.Init(mid) == mid;
  }

  /**
   * `getIn` hands back the input for the empty path, and the found value when it is
   * truthy; a missing or falsy value at a non-empty path comes back as undefined (not null).
   */
  lemma GetInResult(state: Value, locArray: Path)
    requires locArray != [] ==> !IsNullish(Ops.Init(state))
    ensures locArray == [] ==> GetIn(state, locArray) == Ops.Init(state)
    ensures Truthy(At(Ops.Init(state), locArray)) ==> GetIn(state, locArray) == At(Ops.Init(state), locArray)
    ensures locArray != [] && !Truthy(At(Ops.Init(state), locArray)) ==> GetIn(state, locArray) == Undefined
  {
    var s := Ops.Init(state);
    if locArray != [] && !Truthy(At(s, locArray)) {
      var found := Lookup(s, locArray);
      if !Truthy(s) {
        assert At(s, locArray) == At(Undefined, locArray[1..]);
      }
      assert found != s;
    }
  }

  /** `remove` is `removeIn` on a one-key path, and drops that key. */
  lemma RemoveResult(state: Value, loc: string)
    requires Ops.Init(state).Obj?
    ensures Remove(state, loc) == RemoveIn(state, [loc])
    ensures Remove(state, loc) == Obj(Ops.Init(state).fields - {loc})
  {
  }

  /** `removeIn` on a longer path drops the second key from the map under the first, or hands back the input. */
  lemma RemoveInResult(state: Value, locArray: Path)
    requires Ops.DeleteInDefined(Ops.Init(state), locArray) && |locArray| >= 2
    ensures var s := Ops.Init(state);
      && (IsNullish(Member(s, locArray[0])) ==> RemoveIn(state, locArray) == s)
      && (!IsNullish(Member(s, locArray[0])) ==>
            RemoveIn(state, locArray) == Obj(s.fields[locArray[0] := Obj(Member(s, locArray[0]).fields - {locArray[1]})]))
  {
  }

  /** `set` hands back the value with the new value under the key. */
  lemma SetResult(state: Value, loc: string, value: Value)
    requires loc != "" && Ops.Init(state).Obj?
    ensures Set(state, loc, value) == Obj(Ops.Init(state).fields[loc := value])
  {
    Ops.SetWrites(Ops.Init(state), loc, value);
  }

  /** `setIn` hands back the value with the new value written at the path. */
  lemma SetInResult(state: Value, locArray: Path, value: Value)
    requires locArray != [] && ParentExists(Ops.Init(state), locArray)
    ensures SetIn(state, locArray, value) == WriteAt(Ops.Init(state), locArray, value)
  {
    Ops.SetInWrites(Ops.Init(state), locArray, value);
  }

  /** Reading back a path after `setIn` gives the value when it is truthy, and undefined when it is falsy. */
  lemma SetInGetInRoundTrip(state: Value, locArray: Path, value: Value)
    requires locArray != [] && ParentExists(Ops.Init(state), locArray)
    ensures !IsNullish(Ops.Init(SetIn(state, locArray, value)))
    ensures Truthy(value) ==> GetIn(SetIn(state, locArray, value), locArray) == value
    ensures !Truthy(value) ==> GetIn(SetIn(state, locArray, value), locArray) == Undefined
  {
    var s := Ops.Init(state);
    Ops.SetInWrites(s, locArray, value);
    var w := WriteAt(s, locArray, value);
    FinishObj(s, w);
    AtWriteAt(s, locArray, value);
    GetInResult(w, locArray);
  }

  /** `update` on an empty value hands back the input. */
  lemma UpdateNoOp(state: Value, loc: string, func: Value -> Value)
    requires IsEmpty(Ops.Init(state))
    ensures Update(state, loc, func) == Ops.Init(state)
  {
  }

  /** `updateIn` on a path holding nothing hands back the input, whatever else the value holds. */
  lemma UpdateInNoOp(state: Value, locArray: Path, func: Value -> Value)
    requires locArray != [] ==> !IsNullish(Ops.Init(state))
    requires !DoesLocExist(Ops.Init(state), locArray)
    ensures UpdateIn(state, locArray, func) == Ops.Init(state)
  {
  }

  /** `updateIn` on a path holding a value hands back the input with `func` of that value written there. */
  lemma UpdateInResult(state: Value, locArray: Path, func: Value -> Value)
    requires locArray != [] && !IsNullish(Ops.Init(state))
    requires DoesLocExist(Ops.Init(state), locArray)
    ensures UpdateIn(state, locArray, func) == WriteAt(Ops.Init(state), locArray, func(At(Ops.Init(state), locArray)))
  {
    Ops.UpdateInWrites(Ops.Init(state), locArray, func);
  }

  /** `mergeIn` on a non-empty path hands back the merged map the session computed, written at the path. */
  lemma MergeInExport(state: Value, locArray: Path, value: Value)
    requires Ops.MergeInDefined(Ops.Init(state), locArray, value) && locArray != []
    ensures MergeIn(state, locArray, value) == Ops.MergeIn(Ops.Init(state), locArray, value)
    ensures At(MergeIn(state, locArray, value), locArray).Obj?
  {
    Ops.MergeInWrites(Ops.Init(state), locArray, value);
    Ops.MergeInResult(Ops.Init(state), locArray, value);
  }

  /** `pushIn` and `unshiftIn` on a non-empty path hand back what the session computed. */
  lemma AddToSequenceExports(state: Value, locArray: Path, value: Value)
    requires Ops.AddToSequenceDefined(Ops.Init(state), locArray, value) && locArray != []
    ensures PushIn(state, locArray, value) == Ops.PushIn(Ops.Init(state), locArray, value)
    ensures UnshiftIn(state, locArray, value) == Ops.UnshiftIn(Ops.Init(state), locArray, value)
  {
  }

  /** `merge` and `mergeDeep` give the same result: the deep merge of the value into the input. */
  lemma MergeIsMergeDeep(state: Value, value: Value)
    requires Ops.Init(state).Obj? && value.Obj?
    ensures Merge(state, value) == MergeDeep(state, value) == DeepMerge(Ops.Init(state), value)
  {
  }

  /** `push` and `unshift` are `pushIn` and `unshiftIn` on the one-key path. */
  lemma OneKeyExports(state: Value, loc: string, value: Value)
    requires Ops.AddToSequenceDefined(Ops.Init(state), [loc], value)
    ensures Push(state, loc, value) == PushIn(state, [loc], value)
    ensures Unshift(state, loc, value) == UnshiftIn(state, [loc], value)
  {
  }

  /** `pullAtIn` whose indexes all fall outside the sequence hands back the input itself. */
  lemma PullAtInOutOfRangeReturnsInput(state: Value, locArray: Path, indexes: seq<int>)
    requires locArray != [] ==> !IsNullish(Ops.Init(state))
    requires At(Ops.Init(state), locArray).Arr? ==>
               forall i :: i in indexes ==> !(0 <= i < |At(Ops.Init(state), locArray).items|)
    ensures PullAtIn(state, locArray, indexes) == Ops.Init(state)
  {
    Ops.PullAtInOutOfRange(Ops.Init(state), locArray, indexes);
  }
}
