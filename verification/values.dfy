/** The document being edited and the navigation cursor over it. */
module Values {
  import opened Wrappers

  /** A document value (called `Option` in the source): a string, an array
      of values or an object keyed by strings. `Undefined` is what
      JavaScript yields when an object is read at a key it does not have. */
  datatype Value =
    | Str(text: string)
    | Arr(items: seq<Value>)
    | Obj(entries: map<string, Value>)
    | Undefined

  /** Neither a string nor an array: what the Record tag's shape test
      (`typeof v !== "string" && !Array.isArray(v)`) lets through. */
  predicate ObjectLike(v: Value) {
    !v.Str? && !v.Arr?
  }

  /** The `values` a record renderer receives: an object, or undefined when
      the document has no entry for the record. */
  type RecordValues = v: Value | ObjectLike(v) witness Undefined

  /** `values[key]` on an object: a key the object lacks reads as undefined. */
  function Get(entries: map<string, Value>, key: string): Value {
    if key in entries then entries[key] else Undefined
  }

  /** One step of a navigation path: an object key or an array index. */
  datatype Segment = Key(name: string) | Index(position: int)

  type Path = seq<Segment>

  /** The depth a delegate receives: always one past its caller's. */
  type Pos = n: nat | n >= 1 witness 1

  /** JavaScript truthiness of an optional string: both a missing string
      and the empty string are falsy. */
  predicate Truthy(s: Option<string>) {
    s.Some? && s.value != ""
  }
}
