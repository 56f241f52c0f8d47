/**
 * The utility-library helpers the session calls, modelled by their contracts on
 * values: the deep `merge`, `omit` of one key, and `pullAt` (removal by index).
 * `clone`, `cloneDeep` and `isEqual` need no model: on values a copy is the value
 * itself and deep equality is `==`.
 */
module Utils {
  import opened Values

  /**
   * Deep merge of `source` into `dest`: two maps merge key by key, recursively;
   * an undefined source value keeps what the destination has; any other source
   * value replaces the destination's.
   */
  function DeepMerge(dest: Value, source: Value): (r: Value)
    ensures dest.Obj? && source.Obj? ==> r.Obj? && r.fields.Keys == dest.fields.Keys + source.fields.Keys
    decreases source
  {
    if dest.Obj? && source.Obj? then
      Obj(map k | k in dest.fields.Keys + source.fields.Keys ::
            if k !in source.fields then dest.fields[k]
            else if k in dest.fields then DeepMerge(dest.fields[k], source.fields[k])
            else source.fields[k])
    else if source.Undefined? then dest
    else source
  }

  /** The map without key `k`. */
  function Omit(v: Value, k: string): (r: Value)
    requires v.Obj?
    ensures r.Obj? && r.fields.Keys == v.fields.Keys - {k}
    ensures forall j :: j in r.fields ==> r.fields[j] == v.fields[j]
  {
    Obj(v.fields - {k})
  }

  /**
   * The items whose positions are not listed, in their order; listed positions
   * outside the sequence (negative or too large) are ignored.
   */
  function PullAt(xs: seq<Value>, indexes: seq<int>): seq<Value> {
    KeepFrom(xs, indexes, 0)
  }

  /** `PullAt` on the part of a sequence that starts at position `from`. */
  function KeepFrom(xs: seq<Value>, indexes: seq<int>, from: int): (r: seq<Value>)
    ensures |r| <= |xs|
    decreases |xs|
  {
    if xs == [] then []
    else (if from in indexes then [] else [xs[0]]) + KeepFrom(xs[1..], indexes, from + 1)
  }

  /** Listed positions that fall inside `[from, from + n)`. */
  function Listed(indexes: seq<int>, from: int, n: nat): set<int> {
    set i | i in indexes && from <= i < from + n
  }

  /** Merging an empty map changes nothing. */
  lemma MergeEmptySource(dest: Value)
    requires dest.Obj?
    ensures DeepMerge(dest, EmptyState) == dest
  {
    assert DeepMerge(dest, EmptyState).fields == dest.fields;
  }

  /** Merging a map into an empty map gives that map. */
  lemma MergeIntoEmpty(source: Value)
    requires source.Obj?
    ensures DeepMerge(EmptyState, source) == source
  {
    assert DeepMerge(EmptyState, source).fields == source.fields;
  }

  /** Merging a value into itself gives it back. */
  lemma {:induction false} MergeSelf(v: Value)
    ensures DeepMerge(v, v) == v
    decreases v
  {
    if v.Obj? {
      var r := DeepMerge(v, v);
      forall k | k in v.fields
        ensures r.fields[k] == v.fields[k]
      {
        MergeSelf(v.fields[k]);
      }
      assert r.fields == v.fields;
    }
  }

  /** Merging the same source twice is merging it once. */
  lemma {:induction false} MergeTwice(dest: Value, source: Value)
    ensures DeepMerge(DeepMerge(dest, source), source) == DeepMerge(dest, source)
    decreases source
  {
    var once := DeepMerge(dest, source);
    if dest.Obj? && source.Obj? {
      var twice := DeepMerge(once, source);
      forall k | k in once.fields
        ensures twice.fields[k] == once.fields[k]
      {
        if k in source.fields {
          if k in dest.fields {
            MergeTwice(dest.fields[k], source.fields[k]);
          } else {
            MergeSelf(source.fields[k]);
          }
        }
      }
      assert twice.fields == once.fields;
    } else if !source.Undefined? && source.Obj? {
      MergeSelf(source);
    }
  }

  /** The merge keeps every destination key the source lacks, and takes every plain source value. */
  lemma MergeKeys(dest: Value, source: Value, k: string)
    requires dest.Obj? && source.Obj?
    ensures k !in source.fields && k in dest.fields ==> DeepMerge(dest, source).fields[k] == dest.fields[k]
    ensures k in source.fields && !source.fields[k].Undefined? && !source.fields[k].Obj? ==>
              DeepMerge(dest, source).fields[k] == source.fields[k]
    ensures k in source.fields && k !in dest.fields ==> DeepMerge(dest, source).fields[k] == source.fields[k]
  {
  }

  /** With no listed position inside the sequence, nothing is removed. */
  lemma {:induction false} KeepFromNoneListed(xs: seq<Value>, indexes: seq<int>, from: int)
    requires forall i :: i in indexes ==> !(from <= i < from + |xs|)
    ensures KeepFrom(xs, indexes, from) == xs
    decreases |xs|
  {
    if xs != [] {
      KeepFromNoneListed(xs[1..], indexes, from + 1);
    }
  }

  /** The listed positions of a window are its first position, when listed, and those of the rest. */
  lemma ListedSplit(indexes: seq<int>, from: int, n: nat)
    requires n > 0
    ensures from !in Listed(indexes, from + 1, n - 1)
    ensures Listed(indexes, from, n) ==
              (if from in indexes then Listed(indexes, from + 1, n - 1) + {from} else Listed(indexes, from + 1, n - 1))
  {
    var all := Listed(indexes, from, n);
    var rest := Listed(indexes, from + 1, n - 1);
    var split := if from in indexes then rest + {from} else rest;
    forall i | i in all
      ensures i in split
    {
    }
    forall i | i in split
      ensures i in all
    {
    }
  }

  /** The kept items number the items minus the listed positions inside the sequence. */
  lemma {:induction false} KeepFromLength(xs: seq<Value>, indexes: seq<int>, from: int)
    ensures |KeepFrom(xs, indexes, from)| == |xs| - |Listed(indexes, from, |xs|)|
    decreases |xs|
  {
    if xs == [] {
      assert Listed(indexes, from, 0) == {};
    } else {
      KeepFromLength(xs[1..], indexes, from + 1);
      ListedSplit(indexes, from, |xs|);
      var rest := Listed(indexes, from + 1, |xs| - 1);
      assert |KeepFrom(xs, indexes, from)| ==
             (if from in indexes then 0 else 1) + |KeepFrom(xs[1..], indexes, from + 1)|;
      if from in indexes {
        assert |rest + {from}| == |rest| + 1;
      }
    }
  }

  /** Removing one position inside the sequence splices out exactly that item. */
  lemma {:induction false} KeepFromOne(xs: seq<Value>, i: int, from: int)
    requires from <= i < from + |xs|
    ensures KeepFrom(xs, [i], from) == xs[..i - from] + xs[i - from + 1..]
    decreases |xs|
  {
    var n := i - from;
    if n == 0 {
      KeepFromNoneListed(xs[1..], [i], from + 1);
      assert KeepFrom(xs, [i], from) == KeepFrom(xs[1..], [i], from + 1);
      assert xs[..n] + xs[n + 1..] == xs[1..];
    } else {
      KeepFromOne(xs[1..], i, from + 1);
      assert KeepFrom(xs, [i], from) == [xs[0]] + KeepFrom(xs[1..], [i], from + 1);
      assert xs[..n] == [xs[0]] + xs[1..][..n - 1];
      assert xs[n + 1..] == xs[1..][n..];
    }
  }

  /** Pulling positions none of which is inside the sequence leaves it as it is. */
  lemma PullAtOutOfRange(xs: seq<Value>, indexes: seq<int>)
    requires forall i :: i in indexes ==> !(0 <= i < |xs|)
    ensures PullAt(xs, indexes) == xs
  {
    KeepFromNoneListed(xs, indexes, 0);
  }

  /** Pulling one position inside the sequence removes that item and keeps the rest in order. */
  lemma PullAtOne(xs: seq<Value>, i: int)
    requires 0 <= i < |xs|
    ensures PullAt(xs, [i]) == xs[..i] + xs[i + 1..]
  {
    KeepFromOne(xs, i, 0);
  }

  /** Pulling removes exactly as many items as distinct listed positions fall inside the sequence. */
  lemma PullAtLength(xs: seq<Value>, indexes: seq<int>)
    ensures |PullAt(xs, indexes)| == |xs| - |Listed(indexes, 0, |xs|)|
  {
    KeepFromLength(xs, indexes, 0);
  }
}
