/**
 * A mutation session: it keeps the value it was opened on and a working value,
 * and each chainable call replaces the working value by a changed copy and
 * returns the session itself. Every call is proved to leave the working value
 * that the matching function of `Operations` describes.
 */
module Mutations {
  import opened Values
  import Cmd = ImmutableCommands
  import Patch
  import opened Utils
  import opened Helpers
  import Ops = Operations

  class Mutations {
    /** The value the session was opened on. */
    const originalState: Value
    /** The working value. */
    var state: Value

    /** Opens a session; an undefined argument takes the default `{}`, and the working value starts as a copy. */
    constructor(s: Value)
      ensures originalState == Ops.Init(s) && state == originalState
    {
      originalState := if s.Undefined? then EmptyState else s;
      state := originalState;
    }

    /** The value the session hands back. */
    function GetState(): (r: Value)
      reads this
      ensures state == originalState ==> r == originalState
      ensures state != originalState && Truthy(state) ==> r == state
      ensures state != originalState && !Truthy(state) ==> r == Undefined
    {
      Ops.Finish(originalState, state)
    }

    /** Narrows the working value to what lies at the path, null when nothing does. */
    method GetIn(locArray: Path) returns (self: Mutations)
      requires locArray != [] ==> !IsNullish(state)
      modifies this
      ensures self == this && state == Ops.GetIn(old(state), locArray)
    {
      var result := state;
      var i := 0;
      while i < |locArray| && !IsNullish(result)
        invariant 0 <= i <= |locArray|
        invariant At(state, locArray) == At(result, locArray[i..])
      {
        assert locArray[i..][1..] == locArray[i + 1..];
        result := Member(result, locArray[i]);
        i := i + 1;
      }
      if IsNullish(result) {
        state := Null;
      } else {
        state := result;
      }
      return this;
    }

    method Clear() returns (self: Mutations)
      modifies this
      ensures self == this && state == Ops.Clear(old(state))
    {
      state := EmptyState;
      return this;
    }

    method SetIn(locArray: Path, value: Value) returns (self: Mutations)
      requires locArray == [] || ParentExists(state, locArray)
      modifies this
      ensures self == this && state == Ops.SetIn(old(state), locArray, value)
    {
      var command := UseCommandIn(locArray, Cmd.Set(Cmd.Data(value)));
      if locArray != [] {
        Patch.UpdateAlong(state, locArray, Cmd.Set(Cmd.Data(value)));
      }
      state := Patch.Update(state, command);
      return this;
    }

    method Set(loc: string, value: Value) returns (self: Mutations)
      requires loc == "" || state.Obj?
      modifies this
      ensures self == this && state == Ops.Set(old(state), loc, value)
    {
      if loc == "" {
        return this;
      }
      state := Patch.Update(state, Patch.Node(map[loc := Patch.Leaf(Cmd.Set(Cmd.Data(value)))]));
      return this;
    }

    method Update(loc: string, func: Value -> Value) returns (self: Mutations)
      requires IsEmpty(state) || state.Obj?
      modifies this
      ensures self == this && state == Ops.Update(old(state), loc, func)
    {
      if IsEmpty(state) || IsNullish(state) {
        return this;
      }
      state := Patch.Update(state, Patch.Node(map[loc := Patch.Leaf(Cmd.Apply(Cmd.Fn(func)))]));
      return this;
    }

    method UpdateIn(locArray: Path, func: Value -> Value) returns (self: Mutations)
      requires locArray != [] ==> !IsNullish(state)
      modifies this
      ensures self == this && state == Ops.UpdateIn(old(state), locArray, func)
    {
      if !DoesLocExist(state, locArray) {
        return this;
      }
      var command := UseCommandIn(locArray, Cmd.Apply(Cmd.Fn(func)));
      if locArray != [] {
        FoundHasParent(state, locArray);
        Patch.UpdateAlong(state, locArray, Cmd.Apply(Cmd.Fn(func)));
      }
      state := Patch.Update(state, command);
      return this;
    }

    method Merge(value: Value) returns (self: Mutations)
      requires state.Obj? && value.Obj?
      modifies this
      ensures self == this && state == Ops.Merge(old(state), value)
    {
      state := Patch.Update(state, Patch.Leaf(Cmd.Set(Cmd.Data(DeepMerge(state, value)))));
      return this;
    }

    method MergeIn(locArray: Path, value: Value) returns (self: Mutations)
      requires Ops.MergeInDefined(state, locArray, value)
      modifies this
      ensures self == this && state == Ops.MergeIn(old(state), locArray, value)
    {
      var placeholder := AddObjPlaceholder(state, locArray, false);
      var merged := UseCommandIn(locArray, Cmd.Merge(Cmd.Data(value)));
      if locArray != [] {
        StubResult(state, locArray, false);
        Patch.UpdateAlong(placeholder, locArray, Cmd.Merge(Cmd.Data(value)));
      }
      state := Patch.Update(placeholder, merged);
      return this;
    }

    method MergeDeep(value: Value) returns (self: Mutations)
      requires state.Obj? && value.Obj?
      modifies this
      ensures self == this && state == Ops.MergeDeep(old(state), value)
    {
      var deepCopy := state;
      var merged := DeepMerge(deepCopy, value);
      state := Patch.Update(state, Patch.Leaf(Cmd.Set(Cmd.Data(merged))));
      return this;
    }

    method Push(loc: string, value: Value) returns (self: Mutations)
      requires Ops.AddToSequenceDefined(state, [loc], value)
      modifies this
      ensures self == this && state == Ops.Push(old(state), loc, value)
    {
      self := PushIn([loc], value);
    }

    method PushIn(locArray: Path, value: Value) returns (self: Mutations)
      requires Ops.AddToSequenceDefined(state, locArray, value)
      modifies this
      ensures self == this && state == Ops.PushIn(old(state), locArray, value)
    {
      self := AddToSequence(locArray, Cmd.Push(Cmd.Data(value)));
    }

    method Unshift(loc: string, value: Value) returns (self: Mutations)
      requires Ops.AddToSequenceDefined(state, [loc], value)
      modifies this
      ensures self == this && state == Ops.Unshift(old(state), loc, value)
    {
      self := UnshiftIn([loc], value);
    }

    method UnshiftIn(locArray: Path, value: Value) returns (self: Mutations)
      requires Ops.AddToSequenceDefined(state, locArray, value)
      modifies this
      ensures self == this && state == Ops.UnshiftIn(old(state), locArray, value)
    {
      self := AddToSequence(locArray, Cmd.Unshift(Cmd.Data(value)));
    }

    /** The body `pushIn` and `unshiftIn` share, with their directive as a parameter. */
    method AddToSequence(locArray: Path, d: Cmd.Directive) returns (self: Mutations)
      requires d.tag in {Cmd.PushTag, Cmd.UnshiftTag} && d.payload.Data?
      requires Ops.AddToSequenceDefined(state, locArray, d.payload.value)
      modifies this
      ensures self == this && state == Ops.AddToSequence(old(state), locArray, d)
    {
      var placeholder := AddObjPlaceholder(state, locArray, true);
      var found := GetInCopy(placeholder, locArray);
      if !found.Arr? {
        return this;
      }
      var pushed := UseCommandIn(locArray, d);
      if locArray != [] {
        StubResult(state, locArray, true);
        Patch.UpdateAlong(placeholder, locArray, d);
      }
      state := Patch.Update(placeholder, pushed);
      return this;
    }

    method PullAtIn(locArray: Path, indexes: seq<int>) returns (self: Mutations)
      requires locArray != [] ==> !IsNullish(state)
      modifies this
      ensures self == this && state == Ops.PullAtIn(old(state), locArray, indexes)
    {
      var placeholder := GetInCopy(state, locArray);
      if !placeholder.Arr? {
        return this;
      }
      var pulled := Arr(PullAt(placeholder.items, indexes));
      if locArray != [] {
        FoundHasParent(state, locArray);
      }
      self := SetIn(locArray, pulled);
    }

    method DeleteIn(locArray: Path) returns (self: Mutations)
      requires Ops.DeleteInDefined(state, locArray)
      modifies this
      ensures self == this && state == Ops.DeleteIn(old(state), locArray)
    {
      if |locArray| == 1 {
        state := Omit(state, locArray[0]);
        return this;
      }
      var objPointer := state;
      // the walk returns during its first step: either the first key holds nothing,
      // or the second key is omitted from what it holds
      if locArray == [] || IsNullish(Member(objPointer, locArray[0])) {
        return this;
      }
      state := Obj(objPointer.fields[locArray[0] := Omit(Member(objPointer, locArray[0]), locArray[1])]);
      return this;
    }

    /** Makes the call `op` describes. */
    method Perform(op: Ops.Op) returns (self: Mutations)
      requires Ops.Pre(state, op)
      modifies this
      ensures self == this && state == Ops.Step(old(state), op)
    {
      match op
      case GetInOp(p) => self := GetIn(p);
      case ClearOp => self := Clear();
      case SetInOp(p, v) => self := SetIn(p, v);
      case SetOp(loc, v) => self := Set(loc, v);
      case UpdateOp(loc, f) => self := Update(loc, f);
      case UpdateInOp(p, f) => self := UpdateIn(p, f);
      case MergeOp(v) => self := Merge(v);
      case MergeInOp(p, v) => self := MergeIn(p, v);
      case MergeDeepOp(v) => self := MergeDeep(v);
      case PushOp(loc, v) => self := Push(loc, v);
      case PushInOp(p, v) => self := PushIn(p, v);
      case UnshiftOp(loc, v) => self := Unshift(loc, v);
      case UnshiftInOp(p, v) => self := UnshiftIn(p, v);
      case PullAtInOp(p, idx) => self := PullAtIn(p, idx);
      case DeleteInOp(p) => self := DeleteIn(p);
    }

    /** Makes the calls of `script` one after another. */
    method PerformAll(script: seq<Ops.Op>) returns (self: Mutations)
      requires Ops.Runs(state, script)
      modifies this
      ensures self == this && state == Ops.Run(old(state), script)
    {
      var i := 0;
      while i < |script|
        invariant 0 <= i <= |script|
        invariant Ops.Runs(state, script[i..])
        invariant Ops.Run(old(state), script) == Ops.Run(state, script[i..])
      {
        assert script[i..][1..] == script[i + 1..];
        var _ := Perform(script[i]);
        i := i + 1;
      }
      return this;
    }
  }
}
