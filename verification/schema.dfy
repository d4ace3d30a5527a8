/** The declarative form schema ("config") and the errors rendering raises. */
module Schema {
  import opened Wrappers
  import opened Values

  /** How a value is rendered, by its `type` tag. `Unknown` stands for any
      tag other than the four names the renderer knows. */
  datatype Input =
    | List(inputs: Input)
    | Record(fields: Fields)
    | PlainText
    | String
    | Unknown(tag: string)

  /** A record's `fields` property. The schema's types promise an array;
      `NonArray` is any other value found there at run time (for instance
      a missing property). */
  datatype Fields = Array(items: seq<Field>) | NonArray

  /** One named slot of a record: its `key`, its `label` (here `caption`,
      as `label` is a Dafny keyword) and its `input`. Each may be absent. */
  datatype Field = Field(key: Option<string>, caption: Option<string>, input: Option<Input>)

  /** The fatal errors a render can raise. Those whose message names the
      path carry it. `RuntimeTypeError` is the engine's own TypeError:
      reading a property of `undefined`, or calling `find` on a non-array. */
  datatype RenderError =
    | UnknownConfigType
    | FieldsNotArray(path: Path)
    | MissingKey(path: Path)
    | MissingLabel(path: Path)
    | RuntimeTypeError
}
