/**
 * The directive builders: each wraps its argument, unchecked, in a one-key
 * literal tagged with the name of an operation of the patch applier.
 */
module ImmutableCommands {
  import opened Values

  /** What a builder was given: a plain value, or a function (for `$apply`). */
  datatype Payload = Data(value: Value) | Fn(fn: Value -> Value)

  datatype Tag = SetTag | MergeTag | PushTag | UnshiftTag | ApplyTag | SpliceTag

  /** The literal `{ <Key(tag)>: payload }`. */
  datatype Directive = Directive(tag: Tag, payload: Payload)

  /** The one key of each directive literal. */
  function Key(t: Tag): (k: string)
    ensures |k| > 1 && k[0] == '$'
  {
    match t
    case SetTag => "$set"
    case MergeTag => "$merge"
    case PushTag => "$push"
    case UnshiftTag => "$unshift"
    case ApplyTag => "$apply"
    case SpliceTag => "$splice"
  }

  /** Replace the target entirely. */
  function Set(value: Payload): (d: Directive)
    ensures Key(d.tag) == "$set" && d.payload == value
  {
    Directive(SetTag, value)
  }

  /** Merge the keys of the payload into the target. */
  function Merge(value: Payload): (d: Directive)
    ensures Key(d.tag) == "$merge" && d.payload == value
  {
    Directive(MergeTag, value)
  }

  /** Append the payload's items to the target sequence. */
  function Push(value: Payload): (d: Directive)
    ensures Key(d.tag) == "$push" && d.payload == value
  {
    Directive(PushTag, value)
  }

  /** Prepend the payload's items to the target sequence. */
  function Unshift(value: Payload): (d: Directive)
    ensures Key(d.tag) == "$unshift" && d.payload == value
  {
    Directive(UnshiftTag, value)
  }

  /** Replace the target by the payload function applied to it. */
  function Apply(value: Payload): (d: Directive)
    ensures Key(d.tag) == "$apply" && d.payload == value
  {
    Directive(ApplyTag, value)
  }

  /** Splice the target sequence with the payload's `[start, count, ...items]` lists. */
  function Splice(value: Payload): (d: Directive)
    ensures Key(d.tag) == "$splice" && d.payload == value
  {
    Directive(SpliceTag, value)
  }

  /** The builder that produces directives with the given tag. */
  function Builder(t: Tag): Payload -> Directive {
    match t
    case SetTag => Set
    case MergeTag => Merge
    case PushTag => Push
    case UnshiftTag => Unshift
    case ApplyTag => Apply
    case SpliceTag => Splice
  }

  /** The six keys are distinct, so the key of a literal names its operation. */
  lemma KeysDistinct(t: Tag, u: Tag)
    ensures Key(t) == Key(u) ==> t == u
  {
  }

  /**
   * A directive determines the builder that made it and what that builder was given:
   * two directives are equal exactly when they come from the same builder with the same argument.
   */
  lemma DirectiveDetermines(d: Directive, t: Tag, p: Payload)
    ensures d == Builder(t)(p) <==> (Key(d.tag) == Key(t) && d.payload == p)
  {
  }
}
