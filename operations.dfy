/**
 * What each operation of a mutation session does to the working value, as a
 * function of the value before it; what the session's constructor and `getState`
 * do; and a batch of operations run one after another. The session class and the
 * facade functions are both stated in terms of these.
 */
module Operations {
  import opened Values
  import Cmd = ImmutableCommands
  import Patch
  import opened Utils
  import opened Helpers

  /** The session's starting value: an undefined argument takes the default `{}`. */
  function Init(s: Value): (r: Value)
    ensures !r.Undefined?
    ensures !s.Undefined? ==> r == s
    ensures s.Undefined? ==> r == EmptyState
  {
    if s.Undefined? then EmptyState else s
  }

  /**
   * What `getState` returns: the original when the working value equals it;
   * otherwise the working value, a falsy one reported as undefined.
   */
  function Finish(original: Value, working: Value): Value {
    if working == original then original
    else if Truthy(working) then working
    else Undefined
  }

  function GetIn(s: Value, locArray: Path): Value
    requires locArray != [] ==> !IsNullish(s)
  {
    Lookup(s, locArray)
  }

  function Clear(s: Value): Value {
    EmptyState
  }

  function SetIn(s: Value, locArray: Path, value: Value): Value
    requires locArray == [] || ParentExists(s, locArray)
  {
    var command := Patch.CommandAt(locArray, Cmd.Set(Cmd.Data(value)));
    assert Patch.Updatable(s, command) by {
      if locArray != [] {
        Patch.UpdateAlong(s, locArray, Cmd.Set(Cmd.Data(value)));
      }
    }
    Patch.Update(s, command)
  }

  function Set(s: Value, loc: string, value: Value): Value
    requires loc == "" || s.Obj?
  {
    if loc == "" then s
    else Patch.Update(s, Patch.Node(map[loc := Patch.Leaf(Cmd.Set(Cmd.Data(value)))]))
  }

  function Update(s: Value, loc: string, func: Value -> Value): Value
    requires IsEmpty(s) || s.Obj?
  {
    if IsEmpty(s) || IsNullish(s) then s
    else Patch.Update(s, Patch.Node(map[loc := Patch.Leaf(Cmd.Apply(Cmd.Fn(func)))]))
  }

  function UpdateIn(s: Value, locArray: Path, func: Value -> Value): Value
    requires locArray != [] ==> !IsNullish(s)
  {
    if !DoesLocExist(s, locArray) then s
    else
      var command := Patch.CommandAt(locArray, Cmd.Apply(Cmd.Fn(func)));
      assert Patch.Updatable(s, command) by {
        if locArray != [] {
          FoundHasParent(s, locArray);
          Patch.UpdateAlong(s, locArray, Cmd.Apply(Cmd.Fn(func)));
        }
      }
      Patch.Update(s, command)
  }

  function Merge(s: Value, value: Value): Value
    requires s.Obj? && value.Obj?
  {
    Patch.Update(s, Patch.Leaf(Cmd.Set(Cmd.Data(DeepMerge(s, value)))))
  }

  function MergeDeep(s: Value, value: Value): Value
    requires s.Obj? && value.Obj?
  {
    var deepCopy := s;
    Patch.Update(s, Patch.Leaf(Cmd.Set(Cmd.Data(DeepMerge(deepCopy, value)))))
  }

  /**
   * `mergeIn` does not throw: on the empty path the command is empty and any value
   * passes; otherwise the path can be stubbed, the value is a map, and so is the stubbed target.
   */
  predicate MergeInDefined(s: Value, locArray: Path, value: Value) {
    locArray == [] || (Stubbable(s, locArray) && value.Obj? && FillStep(At(s, locArray)).Obj?)
  }

  function MergeIn(s: Value, locArray: Path, value: Value): Value
    requires MergeInDefined(s, locArray, value)
  {
    var placeholder := Stub(s, locArray, false);
    var command := Patch.CommandAt(locArray, Cmd.Merge(Cmd.Data(value)));
    assert Patch.Updatable(placeholder, command) by {
      if locArray != [] {
        StubResult(s, locArray, false);
        Patch.UpdateAlong(placeholder, locArray, Cmd.Merge(Cmd.Data(value)));
      }
    }
    Patch.Update(placeholder, command)
  }

  /**
   * `pushIn`/`unshiftIn` do not throw: the path can be stubbed, and the values are a
   * sequence whenever the directive is applied, that is when the stubbed slot at a
   * non-empty path is a sequence.
   */
  predicate AddToSequenceDefined(s: Value, locArray: Path, values: Value) {
    && Stubbable(s, locArray)
    && (locArray != [] && Lookup(Stub(s, locArray, true), locArray).Arr? ==> values.Arr?)
  }

  /** Shared by `pushIn` and `unshiftIn`: stub with a final `[]`, bail unless a sequence is there. */
  function AddToSequence(s: Value, locArray: Path, d: Cmd.Directive): Value
    requires d.tag in {Cmd.PushTag, Cmd.UnshiftTag} && d.payload.Data?
    requires AddToSequenceDefined(s, locArray, d.payload.value)
  {
    var placeholder := Stub(s, locArray, true);
    if !Lookup(placeholder, locArray).Arr? then s
    else
      var command := Patch.CommandAt(locArray, d);
      assert Patch.Updatable(placeholder, command) by {
        if locArray != [] {
          StubResult(s, locArray, true);
          Patch.UpdateAlong(placeholder, locArray, d);
        }
      }
      Patch.Update(placeholder, command)
  }

  function PushIn(s: Value, locArray: Path, values: Value): Value
    requires AddToSequenceDefined(s, locArray, values)
  {
    AddToSequence(s, locArray, Cmd.Push(Cmd.Data(values)))
  }

  function Push(s: Value, loc: string, values: Value): Value
    requires AddToSequenceDefined(s, [loc], values)
  {
    PushIn(s, [loc], values)
  }

  function UnshiftIn(s: Value, locArray: Path, values: Value): Value
    requires AddToSequenceDefined(s, locArray, values)
  {
    AddToSequence(s, locArray, Cmd.Unshift(Cmd.Data(values)))
  }

  function Unshift(s: Value, loc: string, values: Value): Value
    requires AddToSequenceDefined(s, [loc], values)
  {
    UnshiftIn(s, [loc], values)
  }

  function PullAtIn(s: Value, locArray: Path, indexes: seq<int>): Value
    requires locArray != [] ==> !IsNullish(s)
  {
    var placeholder := Lookup(s, locArray);
    if !placeholder.Arr? then s
    else
      assert locArray != [] ==> ParentExists(s, locArray) by {
        if locArray != [] {
          FoundHasParent(s, locArray);
        }
      }
      SetIn(s, locArray, Arr(PullAt(placeholder.items, indexes)))
  }

  /** `deleteIn` does not throw: one key is omitted from a map; a deeper path starts at a non-null value whose first key holds a map or nothing. */
  predicate DeleteInDefined(s: Value, locArray: Path) {
    && (|locArray| == 1 ==> s.Obj?)
    && (|locArray| >= 2 ==> !IsNullish(s) && (IsNullish(Member(s, locArray[0])) || Member(s, locArray[0]).Obj?))
  }

  function DeleteIn(s: Value, locArray: Path): Value
    requires DeleteInDefined(s, locArray)
  {
    if |locArray| == 1 then Omit(s, locArray[0])
    else if locArray == [] || IsNullish(Member(s, locArray[0])) then s
    else Obj(s.fields[locArray[0] := Omit(Member(s, locArray[0]), locArray[1])])
  }

  /** One chained call on a session, as `withMutations` callbacks make them. */
  datatype Op =
    | GetInOp(locArray: Path)
    | ClearOp
    | SetInOp(locArray: Path, value: Value)
    | SetOp(loc: string, value: Value)
    | UpdateOp(loc: string, func: Value -> Value)
    | UpdateInOp(locArray: Path, func: Value -> Value)
    | MergeOp(value: Value)
    | MergeInOp(locArray: Path, value: Value)
    | MergeDeepOp(value: Value)
    | PushOp(loc: string, value: Value)
    | PushInOp(locArray: Path, value: Value)
    | UnshiftOp(loc: string, value: Value)
    | UnshiftInOp(locArray: Path, value: Value)
    | PullAtInOp(locArray: Path, indexes: seq<int>)
    | DeleteInOp(locArray: Path)

  /** The call does not throw on this working value. */
  predicate Pre(s: Value, op: Op) {
    match op
    case GetInOp(p) => p != [] ==> !IsNullish(s)
    case ClearOp => true
    case SetInOp(p, _) => p == [] || ParentExists(s, p)
    case SetOp(loc, _) => loc == "" || s.Obj?
    case UpdateOp(_, _) => IsEmpty(s) || s.Obj?
    case UpdateInOp(p, _) => p != [] ==> !IsNullish(s)
    case MergeOp(v) => s.Obj? && v.Obj?
    case MergeInOp(p, v) => MergeInDefined(s, p, v)
    case MergeDeepOp(v) => s.Obj? && v.Obj?
    case PushOp(loc, v) => AddToSequenceDefined(s, [loc], v)
    case PushInOp(p, v) => AddToSequenceDefined(s, p, v)
    case UnshiftOp(loc, v) => AddToSequenceDefined(s, [loc], v)
    case UnshiftInOp(p, v) => AddToSequenceDefined(s, p, v)
    case PullAtInOp(p, _) => p != [] ==> !IsNullish(s)
    case DeleteInOp(p) => DeleteInDefined(s, p)
  }

  function Step(s: Value, op: Op): Value
    requires Pre(s, op)
  {
    match op
    case GetInOp(p) => GetIn(s, p)
    case ClearOp => Clear(s)
    case SetInOp(p, v) => SetIn(s, p, v)
    case SetOp(loc, v) => Set(s, loc, v)
    case UpdateOp(loc, f) => Update(s, loc, f)
    case UpdateInOp(p, f) => UpdateIn(s, p, f)
    case MergeOp(v) => Merge(s, v)
    case MergeInOp(p, v) => MergeIn(s, p, v)
    case MergeDeepOp(v) => MergeDeep(s, v)
    case PushOp(loc, v) => Push(s, loc, v)
    case PushInOp(p, v) => PushIn(s, p, v)
    case UnshiftOp(loc, v) => Unshift(s, loc, v)
    case UnshiftInOp(p, v) => UnshiftIn(s, p, v)
    case PullAtInOp(p, idx) => PullAtIn(s, p, idx)
    case DeleteInOp(p) => DeleteIn(s, p)
  }

  /** Every call of the script meets its precondition on the value the calls before it left. */
  predicate Runs(s: Value, script: seq<Op>)
    decreases |script|
  {
    script == [] || (Pre(s, script[0]) && Runs(Step(s, script[0]), script[1..]))
  }

  function Run(s: Value, script: seq<Op>): Value
    requires Runs(s, script)
    decreases |script|
  {
    if script == [] then s else Run(Step(s, script[0]), script[1..])
  }

  // ---------------------------------------------------------------------------
  // What each operation does, stated as a write at its path.
  // ---------------------------------------------------------------------------

  /** The returned value equals the working value unless a falsy working value is reported as undefined. */
  lemma FinishValue(original: Value, working: Value)
    ensures Finish(original, working) == if Truthy(working) || working == original then working else Undefined
    ensures working == original ==> Finish(original, working) == original
  {
  }

  /** `setIn` stores the value at the path and writes nothing else; the empty path changes nothing. */
  lemma SetInWrites(s: Value, locArray: Path, value: Value)
    requires locArray == [] || ParentExists(s, locArray)
    ensures locArray == [] ==> SetIn(s, locArray, value) == s
    ensures locArray != [] ==> SetIn(s, locArray, value) == WriteAt(s, locArray, value)
  {
    if locArray != [] {
      Patch.UpdateAlong(s, locArray, Cmd.Set(Cmd.Data(value)));
    }
  }

  /** Reading back the path after `setIn` gives the value, and every sibling along the path is kept. */
  lemma SetInOnlyPath(s: Value, locArray: Path, value: Value, i: nat, j: string)
    requires ParentExists(s, locArray)
    requires i < |locArray| && j != locArray[i] && Reaches(s, locArray[..i])
    ensures At(SetIn(s, locArray, value), locArray) == value
    ensures At(SetIn(s, locArray, value), locArray[..i] + [j]) == At(s, locArray[..i] + [j])
  {
    SetInWrites(s, locArray, value);
    AtWriteAt(s, locArray, value);
    WriteAtSibling(s, locArray, value, i, j);
  }

  /** `set` with the empty key changes nothing; otherwise only that top-level key changes, to the value. */
  lemma SetWrites(s: Value, loc: string, value: Value)
    requires loc == "" || s.Obj?
    ensures loc == "" ==> Set(s, loc, value) == s
    ensures loc != "" ==> Set(s, loc, value) == Obj(s.fields[loc := value])
  {
    if loc != "" {
      assert Patch.CommandAt([loc], Cmd.Set(Cmd.Data(value))) == Patch.Node(map[loc := Patch.Leaf(Cmd.Set(Cmd.Data(value)))]);
      Patch.UpdateAlong(s, [loc], Cmd.Set(Cmd.Data(value)));
    }
  }

  /** `update` leaves an empty or null value alone; otherwise only key `loc` changes, to `func` of its old value. */
  lemma UpdateWrites(s: Value, loc: string, func: Value -> Value)
    requires IsEmpty(s) || s.Obj?
    ensures IsEmpty(s) ==> Update(s, loc, func) == s
    ensures !IsEmpty(s) ==> Update(s, loc, func) == Obj(s.fields[loc := func(Member(s, loc))])
  {
    if !IsEmpty(s) {
      assert Patch.CommandAt([loc], Cmd.Apply(Cmd.Fn(func))) == Patch.Node(map[loc := Patch.Leaf(Cmd.Apply(Cmd.Fn(func)))]);
      Patch.UpdateAlong(s, [loc], Cmd.Apply(Cmd.Fn(func)));
    }
  }

  /** `updateIn` leaves a path that holds nothing alone; otherwise it replaces that value by `func` of it. */
  lemma UpdateInWrites(s: Value, locArray: Path, func: Value -> Value)
    requires locArray != [] ==> !IsNullish(s)
    ensures !DoesLocExist(s, locArray) || locArray == [] ==> UpdateIn(s, locArray, func) == s
    ensures DoesLocExist(s, locArray) && locArray != [] ==>
              UpdateIn(s, locArray, func) == WriteAt(s, locArray, func(At(s, locArray)))
  {
    if DoesLocExist(s, locArray) && locArray != [] {
      FoundHasParent(s, locArray);
      Patch.UpdateAlong(s, locArray, Cmd.Apply(Cmd.Fn(func)));
    }
  }

  /** `merge` and `mergeDeep` both give the deep merge of the value into the working value. */
  lemma MergeIsDeepMerge(s: Value, value: Value)
    requires s.Obj? && value.Obj?
    ensures Merge(s, value) == MergeDeep(s, value) == DeepMerge(s, value)
  {
  }

  /**
   * `mergeIn` writes, at the path, the target's keys (none when it was missing or falsy)
   * overridden by the value's keys; it writes nothing else.
   */
  lemma MergeInWrites(s: Value, locArray: Path, value: Value)
    requires MergeInDefined(s, locArray, value) && locArray != []
    ensures MergeIn(s, locArray, value) == WriteAt(s, locArray, Obj(FillStep(At(s, locArray)).fields + value.fields))
  {
    var placeholder := Stub(s, locArray, false);
    var target := FillStep(At(s, locArray));
    StubResult(s, locArray, false);
    StubIsWrite(s, locArray, false);
    Patch.UpdateAlong(placeholder, locArray, Cmd.Merge(Cmd.Data(value)));
    WriteAtTwice(s, locArray, target, Obj(target.fields + value.fields));
  }

  /** After `mergeIn` the path holds the target's keys and the value's keys, the value's winning. */
  lemma MergeInResult(s: Value, locArray: Path, value: Value)
    requires MergeInDefined(s, locArray, value) && locArray != []
    ensures var r := At(MergeIn(s, locArray, value), locArray);
      && r.Obj?
      && (!Truthy(At(s, locArray)) ==> r == value)
      && (Truthy(At(s, locArray)) ==> r.fields == At(s, locArray).fields + value.fields)
  {
    var target := FillStep(At(s, locArray));
    MergeInWrites(s, locArray, value);
    AtWriteAt(s, locArray, Obj(target.fields + value.fields));
    if !Truthy(At(s, locArray)) {
      assert target.fields + value.fields == value.fields;
    }
  }

  /**
   * `pushIn`/`unshiftIn`: when the stubbed slot is a sequence, the path receives the
   * combined sequence and nothing else changes; otherwise the value is returned as it was.
   */
  lemma AddToSequenceWrites(s: Value, locArray: Path, d: Cmd.Directive)
    requires d.tag in {Cmd.PushTag, Cmd.UnshiftTag} && d.payload.Data?
    requires AddToSequenceDefined(s, locArray, d.payload.value) && locArray != []
    ensures FillLast(At(s, locArray), true).Arr? ==> d.payload.value.Arr?
    ensures var slot := FillLast(At(s, locArray), true);
      && (!slot.Arr? ==> AddToSequence(s, locArray, d) == s)
      && (slot.Arr? ==> AddToSequence(s, locArray, d) == WriteAt(s, locArray, Patch.ApplyDirective(slot, d)))
  {
    var slot := FillLast(At(s, locArray), true);
    var placeholder := Stub(s, locArray, true);
    StubResult(s, locArray, true);
    if slot.Arr? {
      StubIsWrite(s, locArray, true);
      Patch.UpdateAlong(placeholder, locArray, d);
      WriteAtTwice(s, locArray, slot, Patch.ApplyDirective(slot, d));
    }
  }

  /**
   * `pushIn` on the slot's old value `c`: a sequence gets the values appended; a missing,
   * falsy or empty slot (`{}`, a number, `true`) becomes exactly the values; any other slot
   * (a non-empty map or string) leaves the whole value unchanged.
   */
  lemma PushInResult(s: Value, locArray: Path, values: Value)
    requires AddToSequenceDefined(s, locArray, values) && locArray != []
    ensures var c := At(s, locArray); c.Arr? || !Truthy(c) || IsEmpty(c) ==> values.Arr?
    ensures var c := At(s, locArray);
      && (c.Arr? ==> At(PushIn(s, locArray, values), locArray) == Arr(c.items + values.items))
      && (!c.Arr? && (!Truthy(c) || IsEmpty(c)) ==> At(PushIn(s, locArray, values), locArray) == values)
      && (!c.Arr? && Truthy(c) && !IsEmpty(c) ==> PushIn(s, locArray, values) == s)
  {
    var d := Cmd.Push(Cmd.Data(values));
    var slot := FillLast(At(s, locArray), true);
    AddToSequenceWrites(s, locArray, d);
    if slot.Arr? {
      AtWriteAt(s, locArray, Patch.ApplyDirective(slot, d));
      assert slot.items + values.items == Patch.ApplyDirective(slot, d).items;
      if !At(s, locArray).Arr? {
        assert slot.items == [];
        assert slot.items + values.items == values.items;
      }
    }
  }

  /** `unshiftIn`, as `pushIn` but with the values placed in front. */
  lemma UnshiftInResult(s: Value, locArray: Path, values: Value)
    requires AddToSequenceDefined(s, locArray, values) && locArray != []
    ensures var c := At(s, locArray); c.Arr? || !Truthy(c) || IsEmpty(c) ==> values.Arr?
    ensures var c := At(s, locArray);
      && (c.Arr? ==> At(UnshiftIn(s, locArray, values), locArray) == Arr(values.items + c.items))
      && (!c.Arr? && (!Truthy(c) || IsEmpty(c)) ==> At(UnshiftIn(s, locArray, values), locArray) == values)
      && (!c.Arr? && Truthy(c) && !IsEmpty(c) ==> UnshiftIn(s, locArray, values) == s)
  {
    var d := Cmd.Unshift(Cmd.Data(values));
    var slot := FillLast(At(s, locArray), true);
    AddToSequenceWrites(s, locArray, d);
    if slot.Arr? {
      AtWriteAt(s, locArray, Patch.ApplyDirective(slot, d));
      assert values.items + slot.items == Patch.ApplyDirective(slot, d).items;
      if !At(s, locArray).Arr? {
        assert slot.items == [];
        assert values.items + slot.items == values.items;
      }
    }
  }

  /** `pullAtIn` writes the pulled sequence back at its path when a sequence is there, and changes nothing otherwise. */
  lemma PullAtInWrites(s: Value, locArray: Path, indexes: seq<int>)
    requires locArray != [] ==> !IsNullish(s)
    ensures !At(s, locArray).Arr? || locArray == [] ==> PullAtIn(s, locArray, indexes) == s
    ensures At(s, locArray).Arr? && locArray != [] ==>
              PullAtIn(s, locArray, indexes) == WriteAt(s, locArray, Arr(PullAt(At(s, locArray).items, indexes)))
  {
    if At(s, locArray).Arr? {
      if locArray != [] {
        FoundHasParent(s, locArray);
      }
      SetInWrites(s, locArray, Arr(PullAt(At(s, locArray).items, indexes)));
    }
  }

  /** With every listed index out of range, `pullAtIn` gives back a value equal to its input. */
  lemma PullAtInOutOfRange(s: Value, locArray: Path, indexes: seq<int>)
    requires locArray != [] ==> !IsNullish(s)
    requires At(s, locArray).Arr? ==> forall i :: i in indexes ==> !(0 <= i < |At(s, locArray).items|)
    ensures PullAtIn(s, locArray, indexes) == s
  {
    PullAtInWrites(s, locArray, indexes);
    if At(s, locArray).Arr? && locArray != [] {
      PullAtOutOfRange(At(s, locArray).items, indexes);
      FoundHasParent(s, locArray);
      WriteAtSame(s, locArray);
    }
  }

  /**
   * `deleteIn`: one key is removed from the top level; for a longer path only the second key
   * is removed, from the map under the first, and later keys are ignored; nothing changes
   * when the first key holds null or undefined, or the path is empty.
   */
  lemma DeleteInResult(s: Value, locArray: Path)
    requires DeleteInDefined(s, locArray)
    ensures |locArray| == 1 ==> DeleteIn(s, locArray) == Obj(s.fields - {locArray[0]})
    ensures locArray == [] ==> DeleteIn(s, locArray) == s
    ensures |locArray| >= 2 && IsNullish(Member(s, locArray[0])) ==> DeleteIn(s, locArray) == s
    ensures |locArray| >= 2 && !IsNullish(Member(s, locArray[0])) ==>
              DeleteIn(s, locArray) == WriteAt(s, locArray[..1], Obj(Member(s, locArray[0]).fields - {locArray[1]}))
    ensures |locArray| >= 2 ==> DeleteIn(s, locArray) == DeleteIn(s, locArray[..2])
  {
  }

  /**
   * `deleteIn` of `['a','b','c']` on `{a:{b:{c:1,d:2}}}` gives `{a:{}}`: the walk omits
   * `b` from the map under `a` and returns, so `c` and its sibling `d` go with it.
   */
  lemma DeleteInThreeKeysExample()
    ensures var s := Obj(map["a" := Obj(map["b" := Obj(map["c" := Num(1), "d" := Num(2)])])]);
      DeleteIn(s, ["a", "b", "c"]) == Obj(map["a" := Obj(map[])])
  {
  }

  // ---------------------------------------------------------------------------
  // Batches
  // ---------------------------------------------------------------------------

  /** A script split in two runs as its first part followed by its second. */
  lemma {:induction false} RunAppend(s: Value, a: seq<Op>, b: seq<Op>)
    ensures Runs(s, a + b) <==> Runs(s, a) && Runs(Run(s, a), b)
    ensures Runs(s, a + b) ==> Run(s, a + b) == Run(Run(s, a), b)
    decreases |a|
  {
    if a == [] {
      assert a + b == b;
    } else {
      assert (a + b)[0] == a[0];
      assert (a + b)[1..] == a[1..] + b;
      if Pre(s, a[0]) {
        RunAppend(Step(s, a[0]), a[1..], b);
      }
    }
  }
}
