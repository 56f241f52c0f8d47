/**
 * The path helpers of the session: building a one-branch command tree, reading a
 * path from a copy, testing that a path holds something, and stubbing the maps
 * (and optionally a final empty sequence) along a path before a deep write.
 */
module Helpers {
  import opened Values
  import opened ImmutableCommands
  import opened Patch

  /** What `getInCopy` returns: the value at the path, or null when the walk met null or undefined. */
  function Lookup(v: Value, p: Path): (r: Value)
    ensures !r.Undefined?
    ensures r.Null? <==> IsNullish(At(v, p))
    ensures !IsNullish(At(v, p)) ==> r == At(v, p)
  {
    if IsNullish(At(v, p)) then Null else At(v, p)
  }

  /** The path holds a value that is neither null nor undefined. */
  function DoesLocExist(v: Value, p: Path): (b: bool)
    ensures b <==> !IsNullish(At(v, p))
  {
    Lookup(v, p) != Null
  }

  /** An intermediate step of the stubbing: a falsy value becomes `{}`. */
  function FillStep(c: Value): (r: Value)
    ensures Truthy(r)
    ensures Truthy(c) ==> r == c
    ensures !Truthy(c) ==> r == EmptyState
  {
    if Truthy(c) then c else EmptyState
  }

  /**
   * The last step of the stubbing: a falsy value becomes `{}`, and when a sequence
   * is asked for, an empty non-sequence becomes `[]`.
   */
  function FillLast(c: Value, makeArray: bool): (r: Value)
    ensures Truthy(r)
    ensures !makeArray ==> r == FillStep(c)
    ensures makeArray ==> (r.Arr? <==> c.Arr? || !Truthy(c) || IsEmpty(c))
    ensures r.Arr? && !c.Arr? ==> r == Arr([])
  {
    var c1 := FillStep(c);
    if makeArray && IsEmpty(c1) && !c1.Arr? then Arr([]) else c1
  }

  /**
   * Stubbing along `p` does not throw: the start is a map, and every intermediate
   * step, once a falsy value there is replaced by `{}`, is a map too.
   */
  predicate Stubbable(v: Value, p: Path)
    decreases |p|
  {
    p == [] || (v.Obj? && (|p| == 1 || Stubbable(FillStep(Member(v, p[0])), p[1..])))
  }

  /** What `addObjPlaceholder` returns. */
  function Stub(v: Value, p: Path, makeArray: bool): Value
    requires Stubbable(v, p)
    decreases |p|
  {
    if p == [] then v
    else
      var c := Member(v, p[0]);
      Obj(v.fields[p[0] := if |p| == 1 then FillLast(c, makeArray) else Stub(FillStep(c), p[1..], makeArray)])
  }

  /** Builds the command tree holding `command` at the end of `locArray`. */
  method UseCommandIn(locArray: Path, command: Directive) returns (tree: Command)
    ensures tree == CommandAt(locArray, command)
  {
    if locArray == [] {
      return Node(map[]);
    }
    // `useCommandIn` fills the chain top-down through a pointer; this version builds the same tree bottom-up
    tree := Leaf(command);
    var i := |locArray|;
    while i > 0
      invariant 0 <= i <= |locArray|
      invariant i == |locArray| ==> tree == Leaf(command)
      invariant i < |locArray| ==> tree == CommandAt(locArray[i..], command)
    {
      i := i - 1;
      assert locArray[i..][1..] == locArray[i + 1..];
      tree := Node(map[locArray[i] := tree]);
    }
  }

  /** Walks a copy of `state` along `locArray`, stopping at null or undefined. */
  method GetInCopy(state: Value, locArray: Path) returns (result: Value)
    requires locArray != [] ==> !IsNullish(state)
    ensures result == Lookup(state, locArray)
  {
    var pointer := state;
    var i := 0;
    while i < |locArray| && !IsNullish(pointer)
      invariant 0 <= i <= |locArray|
      invariant At(state, locArray) == At(pointer, locArray[i..])
    {
      assert locArray[i..][1..] == locArray[i + 1..];
      pointer := Member(pointer, locArray[i]);
      i := i + 1;
    }
    result := if IsNullish(pointer) then Null else pointer;
  }

  /** The maps `spine` (met top-down along `keys`) put back around a new bottom value `x`. */
  function Plug(spine: seq<map<string, Value>>, keys: Path, x: Value): Value
    requires |spine| == |keys|
    decreases |spine|
  {
    if spine == [] then x
    else Plug(spine[..|spine| - 1], keys[..|keys| - 1], Obj(spine[|spine| - 1][keys[|keys| - 1] := x]))
  }

  /** A value with the rest of the path still to stub below it. */
  function Below(c: Value, rest: Path, makeArray: bool): Value
    requires Stubbable(c, rest)
  {
    if rest == [] then c else Stub(c, rest, makeArray)
  }

  /**
   * Copies `state` and makes every step of `locArray` exist: a falsy step becomes `{}`,
   * and, when `makeLastItemArray` is set, an empty non-sequence last step becomes `[]`.
   */
  method AddObjPlaceholder(state: Value, locArray: Path, makeLastItemArray: bool) returns (full: Value)
    requires Stubbable(state, locArray)
    ensures full == Stub(state, locArray, makeLastItemArray)
  {
    var spine: seq<map<string, Value>> := [];
    var pointer := state;
    var i := 0;
    while i < |locArray|
      invariant 0 <= i <= |locArray| && |spine| == i
      invariant Stubbable(pointer, locArray[i..])
      invariant Plug(spine, locArray[..i], Below(pointer, locArray[i..], makeLastItemArray))
                == Stub(state, locArray, makeLastItemArray)
    {
      var key := locArray[i];
      var slot := Member(pointer, key);
      if !Truthy(slot) {
        slot := EmptyState;
      }
      if makeLastItemArray && i + 1 >= |locArray| && IsEmpty(slot) && !slot.Arr? {
        slot := Arr([]);
      }
      assert locArray[i..][1..] == locArray[i + 1..];
      assert Below(pointer, locArray[i..], makeLastItemArray)
             == Obj(pointer.fields[key := Below(slot, locArray[i + 1..], makeLastItemArray)]);
      assert locArray[..i + 1][..i] == locArray[..i];
      spine := spine + [pointer.fields];
      pointer := slot;
      i := i + 1;
    }
    full := pointer;
    var j := |locArray|;
    assert locArray[..j] == locArray[..i] && spine[..j] == spine && locArray[i..] == [];
    while j > 0
      invariant 0 <= j <= |locArray| == |spine|
      invariant Plug(spine[..j], locArray[..j], full) == Stub(state, locArray, makeLastItemArray)
    {
      assert spine[..j][..j - 1] == spine[..j - 1];
      assert locArray[..j][..j - 1] == locArray[..j - 1];
      full := Obj(spine[j - 1][locArray[j - 1] := full]);
      j := j - 1;
    }
  }

  /** A falsy start and a non-empty path lead to a falsy end. */
  lemma FalsyAt(c: Value, p: Path)
    requires !Truthy(c) && p != []
    ensures !Truthy(At(c, p))
  {
  }

  /** A value found at a path (neither null nor undefined) lies below existing maps. */
  lemma {:induction false} FoundHasParent(v: Value, p: Path)
    requires p != [] && !IsNullish(At(v, p))
    ensures ParentExists(v, p)
    decreases |p|
  {
    assert v.Obj?;
    if |p| > 1 {
      FoundHasParent(Member(v, p[0]), p[1..]);
      assert p[..|p| - 1][1..] == p[1..][..|p[1..]| - 1];
    }
  }

  /** Existing maps along a path can be stubbed. */
  lemma {:induction false} ParentStubbable(v: Value, p: Path)
    requires ParentExists(v, p)
    ensures Stubbable(v, p)
    decreases |p|
  {
    if |p| > 1 {
      assert p[..|p| - 1][1..] == p[1..][..|p[1..]| - 1];
      ParentStubbable(Member(v, p[0]), p[1..]);
    }
  }

  /**
   * Stubbing is one write: the slot at the path is replaced by its filled version,
   * and every missing or falsy map above it becomes a map holding just the path's next key.
   */
  lemma {:induction false} StubIsWrite(v: Value, p: Path, makeArray: bool)
    requires Stubbable(v, p) && p != []
    ensures Stub(v, p, makeArray) == WriteAt(v, p, FillLast(At(v, p), makeArray))
    decreases |p|
  {
    var c := Member(v, p[0]);
    var rest := p[1..];
    if |p| > 1 {
      var c1 := FillStep(c);
      StubIsWrite(c1, rest, makeArray);
      var x := FillLast(At(c1, rest), makeArray);
      if !Truthy(c) {
        FalsyAt(c, rest);
        assert At(c1, rest) == At(Undefined, rest[1..]);
        assert x == FillLast(At(c, rest), makeArray);
        assert WriteAt(c1, rest, x) == WriteAt(c, rest, x);
      }
    }
  }

  /** After stubbing, the maps above the last key exist and the slot holds its filled value. */
  lemma StubResult(v: Value, p: Path, makeArray: bool)
    requires Stubbable(v, p) && p != []
    ensures ParentExists(Stub(v, p, makeArray), p)
    ensures At(Stub(v, p, makeArray), p) == FillLast(At(v, p), makeArray)
  {
    StubIsWrite(v, p, makeArray);
    WriteAtParent(v, p, FillLast(At(v, p), makeArray));
    AtWriteAt(v, p, FillLast(At(v, p), makeArray));
  }

  /** Stubbing a second time changes nothing. */
  lemma StubTwice(v: Value, p: Path, makeArray: bool)
    requires Stubbable(v, p)
    ensures Stubbable(Stub(v, p, makeArray), p)
    ensures Stub(Stub(v, p, makeArray), p, makeArray) == Stub(v, p, makeArray)
  {
    if p != [] {
      var s := Stub(v, p, makeArray);
      var x := FillLast(At(v, p), makeArray);
      StubResult(v, p, makeArray);
      ParentStubbable(s, p);
      StubIsWrite(v, p, makeArray);
      StubIsWrite(s, p, makeArray);
      assert FillLast(x, makeArray) == x;
      WriteAtTwice(v, p, x, x);
    }
  }
}
