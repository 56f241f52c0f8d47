/**
 * The structural patch applier the session hands its commands to (the
 * immutability-helper `update` function), modelled by contract on the five
 * directives the core uses: `$set`, `$merge`, `$push`, `$unshift` and `$apply`.
 * A command is a tree shaped like the target whose leaves are directives.
 * The applier copies only the maps on the way to a leaf and never creates a
 * missing map on the way.
 */
module Patch {
  import opened Values
  import opened ImmutableCommands

  datatype Command = Node(children: map<string, Command>) | Leaf(directive: Directive)

  /** The directive may be applied to this target without the applier throwing. */
  predicate Applicable(t: Value, d: Directive) {
    match d.tag
    case SetTag => d.payload.Data?
    case MergeTag => d.payload.Data? && d.payload.value.Obj? && t.Obj?
    case PushTag => d.payload.Data? && d.payload.value.Arr? && t.Arr?
    case UnshiftTag => d.payload.Data? && d.payload.value.Arr? && t.Arr?
    case ApplyTag => d.payload.Fn?
    case SpliceTag => false
  }

  /** One directive applied to its target. */
  function ApplyDirective(t: Value, d: Directive): (r: Value)
    requires Applicable(t, d)
    ensures d.tag == MergeTag ==>
      && r.Obj?
      && r.fields.Keys == t.fields.Keys + d.payload.value.fields.Keys
      && (forall k :: k in d.payload.value.fields ==> r.fields[k] == d.payload.value.fields[k])
      && (forall k :: k in t.fields && k !in d.payload.value.fields ==> r.fields[k] == t.fields[k])
    ensures d.tag == PushTag ==>
      r.Arr? && |r.items| == |t.items| + |d.payload.value.items|
      && r.items[..|t.items|] == t.items && r.items[|t.items|..] == d.payload.value.items
    ensures d.tag == UnshiftTag ==>
      var n := |d.payload.value.items|;
      r.Arr? && |r.items| == n + |t.items| && r.items[..n] == d.payload.value.items && r.items[n..] == t.items
  {
    match d.tag
    case SetTag => d.payload.value
    case MergeTag => Obj(t.fields + d.payload.value.fields)
    case PushTag => Arr(t.items + d.payload.value.items)
    case UnshiftTag => Arr(d.payload.value.items + t.items)
    case ApplyTag => d.payload.fn(t)
  }

  /** The command can be applied: every branch below a key meets a map, every leaf an applicable target. */
  predicate Updatable(t: Value, c: Command)
    decreases c
  {
    match c
    case Leaf(d) => Applicable(t, d)
    case Node(ch) => ch == map[] || (t.Obj? && forall k :: k in ch ==> Updatable(Member(t, k), ch[k]))
  }

  /** The applier: keys of a branch are updated recursively, every other key is kept. */
  function Update(t: Value, c: Command): Value
    requires Updatable(t, c)
    decreases c
  {
    match c
    case Leaf(d) => ApplyDirective(t, d)
    case Node(ch) =>
      if ch == map[] then t
      else Obj(map k | k in t.fields.Keys + ch.Keys ::
                 if k in ch then Update(Member(t, k), ch[k]) else t.fields[k])
  }

  /** The one-branch command tree holding `d` at the end of `p`; the empty path gives the empty tree. */
  function CommandAt(p: Path, d: Directive): Command
    decreases |p|
  {
    if p == [] then Node(map[])
    else if |p| == 1 then Node(map[p[0] := Leaf(d)])
    else Node(map[p[0] := CommandAt(p[1..], d)])
  }

  /** The empty command changes nothing. */
  lemma UpdateEmpty(t: Value, d: Directive)
    ensures Updatable(t, CommandAt([], d)) && Update(t, CommandAt([], d)) == t
  {
  }

  /** A command with one branch below key `k` of a map replaces the value under `k` and keeps the other keys. */
  lemma UpdateOneBranch(t: Value, k: string, sub: Command)
    requires t.Obj? && Updatable(Member(t, k), sub)
    ensures Updatable(t, Node(map[k := sub]))
    ensures Update(t, Node(map[k := sub])) == Obj(t.fields[k := Update(Member(t, k), sub)])
  {
    var ch := map[k := sub];
    assert forall j :: j in ch ==> Updatable(Member(t, j), ch[j]);
    var m := map j | j in t.fields.Keys + ch.Keys :: if j in ch then Update(Member(t, j), ch[j]) else t.fields[j];
    assert Update(t, Node(ch)) == Obj(m);
    assert m == t.fields[k := Update(Member(t, k), sub)];
  }

  /**
   * A one-branch command is a write of the directive's result at its path, provided
   * every map above the last key exists; all other keys are kept.
   */
  lemma {:induction false} UpdateAlong(t: Value, p: Path, d: Directive)
    requires ParentExists(t, p)
    requires Applicable(At(t, p), d)
    ensures Updatable(t, CommandAt(p, d))
    ensures Update(t, CommandAt(p, d)) == WriteAt(t, p, ApplyDirective(At(t, p), d))
    decreases |p|
  {
    var k := p[0];
    var c := Member(t, k);
    assert t.Obj? by { assert Reaches(t, p[..|p| - 1]); }
    assert At(t, p) == At(c, p[1..]);
    var x := ApplyDirective(At(t, p), d);
    var sub := if |p| == 1 then Leaf(d) else CommandAt(p[1..], d);
    assert CommandAt(p, d) == Node(map[k := sub]);
    if |p| > 1 {
      assert p[1..][..|p[1..]| - 1] == p[..|p| - 1][1..];
      UpdateAlong(c, p[1..], d);
    }
    assert Updatable(c, sub) && Update(c, sub) == WriteAt(c, p[1..], x);
    UpdateOneBranch(t, k, sub);
    assert WriteAt(t, p, x) == Obj(t.fields[k := WriteAt(c, p[1..], x)]);
  }
}
