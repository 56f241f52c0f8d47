/**
 * The plain JSON-like trees the library works on, with the three JavaScript
 * tests on them that the core relies on: truthiness (`!x`, `x || y`),
 * the null-or-undefined test, and the `isEmpty` test of the utility library.
 */
module Values {

  datatype Value =
    | Undefined
    | Null
    | Bool(b: bool)
    | Num(n: int)
    | Str(s: string)
    | Obj(fields: map<string, Value>)
    | Arr(items: seq<Value>)

  type Path = seq<string>

  /** The shared empty state `{}`. */
  const EmptyState: Value := Obj(map[])

  /** JavaScript truthiness: undefined, null, false, 0 and "" are falsy; every object and array is truthy. */
  predicate Truthy(v: Value) {
    match v
    case Undefined => false
    case Null => false
    case Bool(b) => b
    case Num(n) => n != 0
    case Str(s) => s != ""
    case Obj(_) => true
    case Arr(_) => true
  }

  /** The `isType.null` / `isNull` test: undefined or null. */
  predicate IsNullish(v: Value) {
    v.Undefined? || v.Null?
  }

  /**
   * The `isEmpty` test: a collection or string without entries; null and undefined;
   * and, as in lodash, every number and boolean (they have no own entries).
   */
  predicate IsEmpty(v: Value) {
    match v
    case Undefined => true
    case Null => true
    case Bool(_) => true
    case Num(_) => true
    case Str(s) => s == ""
    case Obj(m) => m == map[]
    case Arr(xs) => xs == []
  }

  /** Property read `v[k]`: the stored value of a map's key, undefined otherwise. */
  function Member(v: Value, k: string): (r: Value)
    ensures v.Obj? && k in v.fields ==> r == v.fields[k]
    ensures !(v.Obj? && k in v.fields) ==> r.Undefined?
  {
    if v.Obj? && k in v.fields then v.fields[k] else Undefined
  }

  /** The entries of a map; a non-map has none. */
  function Fields(v: Value): map<string, Value> {
    if v.Obj? then v.fields else map[]
  }

  /**
   * The walk of `getIn`/`getInCopy`: descend one key per step and stop as soon as
   * the value reached is null or undefined.
   */
  function At(v: Value, p: Path): Value
    decreases |p|
  {
    if p == [] || IsNullish(v) then v else At(Member(v, p[0]), p[1..])
  }

  /**
   * A path whose every prefix, the whole path included, leads to a map:
   * the maps along the way exist.
   */
  predicate Reaches(v: Value, p: Path)
    decreases |p|
  {
    v.Obj? && (p == [] || Reaches(Member(v, p[0]), p[1..]))
  }

  /** Every proper prefix of a non-empty path leads to a map: only the last key may be missing. */
  predicate ParentExists(v: Value, p: Path) {
    p != [] && Reaches(v, p[..|p| - 1])
  }

  /**
   * The value `v` with `x` stored at path `p`: each map on the way is copied with
   * one key replaced; a missing step starts from an empty map.
   */
  function WriteAt(v: Value, p: Path, x: Value): Value
    decreases |p|
  {
    if p == [] then x else Obj(Fields(v)[p[0] := WriteAt(Member(v, p[0]), p[1..], x)])
  }

  /** A nullish value stops the walk: it is its own result for every path. */
  lemma AtNullish(v: Value, p: Path)
    requires IsNullish(v)
    ensures At(v, p) == v
  {
  }

  /** Walking `p + q` is walking `p` and then `q`. */
  lemma {:induction false} AtAppend(v: Value, p: Path, q: Path)
    ensures At(v, p + q) == At(At(v, p), q)
    decreases |p|
  {
    if p == [] {
      assert p + q == q;
    } else if IsNullish(v) {
      AtNullish(v, q);
    } else {
      assert (p + q)[0] == p[0];
      assert (p + q)[1..] == p[1..] + q;
      AtAppend(Member(v, p[0]), p[1..], q);
    }
  }

  /** Reading back a written path gives the written value. */
  lemma {:induction false} AtWriteAt(v: Value, p: Path, x: Value)
    ensures At(WriteAt(v, p, x), p) == x
    decreases |p|
  {
    if p != [] {
      AtWriteAt(Member(v, p[0]), p[1..], x);
    }
  }

  /**
   * A write changes nothing off its path: a sibling key of any map along the path,
   * and so everything below it, keeps its value.
   */
  lemma {:induction false} WriteAtSibling(v: Value, p: Path, x: Value, i: nat, j: string)
    requires i < |p| && j != p[i]
    requires Reaches(v, p[..i])
    ensures At(WriteAt(v, p, x), p[..i] + [j]) == At(v, p[..i] + [j])
    decreases |p|
  {
    var w := WriteAt(v, p, x);
    if i == 0 {
      assert p[..0] + [j] == [j];
      assert Member(w, j) == Member(v, j);
    } else {
      assert (p[..i] + [j])[0] == p[0];
      assert (p[..i] + [j])[1..] == p[1..][..i - 1] + [j];
      assert p[..i][1..] == p[1..][..i - 1];
      WriteAtSibling(Member(v, p[0]), p[1..], x, i - 1, j);
    }
  }

  /** Writing at a path what is already there gives back the same value. */
  lemma {:induction false} WriteAtSame(v: Value, p: Path)
    requires p == [] || (ParentExists(v, p) && !At(v, p).Undefined?)
    ensures WriteAt(v, p, At(v, p)) == v
    decreases |p|
  {
    if p != [] {
      var k := p[0];
      if |p| == 1 {
        assert Member(v, k) == At(v, p);
      } else {
        assert p[1..][..|p[1..]| - 1] == p[..|p| - 1][1..];
        WriteAtSame(Member(v, k), p[1..]);
      }
      assert Fields(v)[k := Member(v, k)] == v.fields;
    }
  }

  /** A second write to the same path overrides the first. */
  lemma {:induction false} WriteAtTwice(v: Value, p: Path, x: Value, y: Value)
    ensures WriteAt(WriteAt(v, p, x), p, y) == WriteAt(v, p, y)
    decreases |p|
  {
    if p != [] {
      WriteAtTwice(Member(v, p[0]), p[1..], x, y);
    }
  }

  /** A write keeps every map along its path: the path then reaches its parent. */
  lemma {:induction false} WriteAtParent(v: Value, p: Path, x: Value)
    requires p != []
    ensures ParentExists(WriteAt(v, p, x), p)
    decreases |p|
  {
    if |p| > 1 {
      WriteAtParent(Member(v, p[0]), p[1..], x);
      assert p[..|p| - 1][1..] == p[1..][..|p[1..]| - 1];
    }
  }
}
