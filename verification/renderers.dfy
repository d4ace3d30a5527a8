/** One render step of each of the two components: given its props, what a
    component returns. A component never renders its children itself; it
    returns a description (`Node`) naming the child component and the props
    it passes, and the host framework renders that child later (see module
    Mount). */
module Renderers {
  import opened Wrappers
  import opened Values
  import opened Schema
  import Decimal

  /** The props of an `AbstractRenderer` element. `newPaths` is the path the
      element's navigation buttons would navigate to. */
  datatype Call = Call(newPaths: Path, config: Input, value: Value, path: Path, depth: nat)

  /** One row of a listed record: the field's key and label, and the
      `AbstractRenderer` element placed after the label. */
  datatype FieldEntry = FieldEntry(key: string, caption: string, call: Call)

  /** What one component returns, with the presentation markup left out. */
  datatype Node =
    | Nothing
    | LeafPlain(value: Value)
    | LeafString(value: Value)
    | ListDelegate(newPaths: Path, input: Input, items: seq<Value>, depth: Pos, path: Path)
    | RecordDelegate(newPaths: Path, fields: Fields, values: RecordValues, depth: Pos, path: Path)
    | Abstract(call: Call)
    | FieldList(entries: seq<FieldEntry>)
    | Button(count: nat, text: string, disabled: bool, newPaths: Path)
    | Failed(error: RenderError)

  /** The props `resolvePath` supplies to the element it is spread into. */
  datatype Resolved = Resolved(config: Input, value: Value, depth: nat)

  /** `resolvePath(rest, {config, value, depth})`, which this model does not
      define: every statement about it holds for any such function. */
  type Resolver = (Path, Option<Input>, Value, nat) -> Resolved

  /** A container tag whose value does not have the container's shape: a
      List wants an array, a Record wants neither a string nor an array. */
  predicate ShapeMismatch(config: Input, v: Value) {
    || (config.List? && !v.Arr?)
    || (config.Record? && !ObjectLike(v))
  }

  /** `AbstractRenderer`: dispatch on the config's tag, after checking that
      the value has the tag's shape. */
  function AbstractRenderer(c: Call): (r: Node)
    ensures r.Failed? <==> c.config.Unknown?
    ensures r.Failed? ==> r.error == UnknownConfigType
    ensures r.Nothing? <==> ShapeMismatch(c.config, c.value)
    ensures r.ListDelegate? <==> c.config.List? && c.value.Arr?
    ensures r.ListDelegate? ==>
              && r.input == c.config.inputs && r.items == c.value.items
              && r.depth == c.depth + 1 && r.path == c.path && r.newPaths == c.newPaths
    ensures r.RecordDelegate? <==> c.config.Record? && ObjectLike(c.value)
    ensures r.RecordDelegate? ==>
              && r.fields == c.config.fields && r.values == c.value
              && r.depth == c.depth + 1 && r.path == c.path && r.newPaths == c.newPaths
    ensures r.LeafPlain? <==> c.config.PlainText?
    ensures r.LeafString? <==> c.config.String?
    ensures r.LeafPlain? || r.LeafString? ==> r.value == c.value
    ensures !r.Abstract? && !r.FieldList? && !r.Button?
  {
    match c.config
    case List(inner) =>
      if c.value.Arr? then ListDelegate(c.newPaths, inner, c.value.items, c.depth + 1, c.path)
      else Nothing
    case Record(fields) =>
      if !c.value.Str? && !c.value.Arr? then RecordDelegate(c.newPaths, fields, c.value, c.depth + 1, c.path)
      else Nothing
    case PlainText => LeafPlain(c.value)
    case String => LeafString(c.value)
    case Unknown(_) => Failed(UnknownConfigType)
  }

  /** `field.key === seg`: a missing key equals no segment, and a string key
      never equals a numeric index. */
  predicate KeyMatches(f: Field, seg: Segment) {
    f.key.Some? && seg == Key(f.key.value)
  }

  predicate AnyMatch(fs: seq<Field>, seg: Segment) {
    exists i :: 0 <= i < |fs| && KeyMatches(fs[i], seg)
  }

  /** `i` is the position `fields.find` stops at. */
  predicate FirstMatch(fs: seq<Field>, seg: Segment, i: int) {
    && 0 <= i < |fs|
    && KeyMatches(fs[i], seg)
    && forall j :: 0 <= j < i ==> !KeyMatches(fs[j], seg)
  }

  /** `fields.find(field => field.key === seg)`, as a position. */
  function FindField(fs: seq<Field>, seg: Segment): (r: Option<nat>)
    ensures r.Some? ==> FirstMatch(fs, seg, r.value)
    ensures r.None? ==> forall j :: 0 <= j < |fs| ==> !KeyMatches(fs[j], seg)
  {
    if |fs| == 0 then None
    else if KeyMatches(fs[0], seg) then Some(0)
    else match FindField(fs[1..], seg)
      case None => None
      case Some(i) => Some(i + 1)
  }

  /** A field with a truthy key, a truthy label and an input. */
  predicate ValidField(f: Field) {
    Truthy(f.key) && Truthy(f.caption) && f.input.Some?
  }

  /** The error listing field `f` raises, if any: key, then label, then
      input (reported with the missing-key message), then the read of
      `values[f.key]`, which fails when `values` is undefined. */
  function FieldFault(f: Field, values: RecordValues, path: Path): (r: Option<RenderError>)
    ensures r.None? <==> ValidField(f) && values.Obj?
    ensures !Truthy(f.key) ==> r == Some(MissingKey(path))
    ensures Truthy(f.key) && !Truthy(f.caption) ==> r == Some(MissingLabel(path))
    ensures Truthy(f.key) && Truthy(f.caption) && f.input.None? ==> r == Some(MissingKey(path))
    ensures ValidField(f) && values.Undefined? ==> r == Some(RuntimeTypeError)
  {
    if !Truthy(f.key) then Some(MissingKey(path))
    else if !Truthy(f.caption) then Some(MissingLabel(path))
    else if f.input.None? then Some(MissingKey(path))
    else if values.Undefined? then Some(RuntimeTypeError)
    else None
  }

  /** Field `i` is the first one that raises. */
  predicate FirstFault(fs: seq<Field>, values: RecordValues, path: Path, i: int) {
    && 0 <= i < |fs|
    && FieldFault(fs[i], values, path).Some?
    && forall j :: 0 <= j < i ==> FieldFault(fs[j], values, path).None?
  }

  /** Entry `e` is how a listing shows field `f`: under the field's label, an
      `AbstractRenderer` for the field's own value, with the page's path and
      depth, whose buttons navigate to the one-segment path `[key]`. */
  predicate Displays(e: FieldEntry, f: Field, values: RecordValues, path: Path, depth: nat) {
    && f.key == Some(e.key)
    && f.caption == Some(e.caption)
    && f.input == Some(e.call.config)
    && values.Obj?
    && e.call == Call([Key(e.key)], e.call.config, Get(values.entries, e.key), path, depth)
  }

  /** `fields.map(...)` of the listing branch: the fields are checked and
      turned into entries one at a time, in order, so the first field that
      raises decides the error. */
  function ListFields(fs: seq<Field>, values: RecordValues, path: Path, depth: nat)
    : (r: Result<seq<FieldEntry>, RenderError>)
    ensures r.Ok? <==> forall i :: 0 <= i < |fs| ==> FieldFault(fs[i], values, path).None?
    ensures r.Ok? ==>
              && |r.value| == |fs|
              && forall i :: 0 <= i < |fs| ==> Displays(r.value[i], fs[i], values, path, depth)
    ensures r.Err? ==>
              exists i :: FirstFault(fs, values, path, i) && FieldFault(fs[i], values, path) == Some(r.error)
  {
    if |fs| == 0 then Ok([])
    else match FieldFault(fs[0], values, path)
      case Some(e) =>
        assert FirstFault(fs, values, path, 0);
        Err(e)
      case None =>
        var key := fs[0].key.value;
        var entry := FieldEntry(key, fs[0].caption.value,
                                Call([Key(key)], fs[0].input.value, Get(values.entries, key), path, depth));
        match ListFields(fs[1..], values, path, depth)
        case Err(e) =>
          ghost var i :| FirstFault(fs[1..], values, path, i) && FieldFault(fs[1..][i], values, path) == Some(e);
          assert FirstFault(fs, values, path, i + 1);
          Err(e)
        case Ok(rest) =>
          assert forall i :: 0 < i < |fs| ==> fs[i] == fs[1..][i - 1];
          Ok([entry] + rest)
  }

  /** The button text: the field count, then " record item", then an "s"
      unless the count is one. */
  function ButtonText(count: nat): (text: string)
    ensures Decimal.LeadingNumber(text) == count
    ensures |Decimal.FromNat(count)| <= |text| && text[..|Decimal.FromNat(count)|] == Decimal.FromNat(count)
    ensures text[|Decimal.FromNat(count)|..] == " record item" || text[|Decimal.FromNat(count)|..] == " record items"
    ensures text[|Decimal.FromNat(count)|..] == " record item" <==> count == 1
    ensures |text| > 0 && (text[|text| - 1] == 's' <==> count != 1)
  {
    var digits := Decimal.FromNat(count);
    var tail := " record item" + (if count == 1 then "" else "s");
    Decimal.LeadingNumberOf(count, tail);
    assert Decimal.FromNat(count) + " record item" + (if count == 1 then "" else "s")
        == digits + tail;
    assert (digits + tail)[..|digits|] == digits;
    assert (digits + tail)[|digits|..] == tail;
    Decimal.FromNat(count) + " record item" + (if count == 1 then "" else "s")
  }

  /** The depth-0 jump applies: the path's first segment names a field. */
  predicate Jumps(fields: Fields, path: Path, depth: nat) {
    depth == 0 && |path| > 0 && fields.Array? && AnyMatch(fields.items, path[0])
  }

  /** The part of `RecordRenderer` after the depth-0 jump: the array check,
      then nothing for no fields, the listing when the path ends at this
      depth, and otherwise the drill-in button. */
  function Listing(newPaths: Path, fields: Fields, values: RecordValues, path: Path, depth: nat): Node {
    match fields
    case NonArray => Failed(FieldsNotArray(path))
    case Array(fs) =>
      if |fs| == 0 then Nothing
      else if |path| == depth then
        match ListFields(fs, values, path, depth)
        case Ok(entries) => FieldList(entries)
        case Err(e) => Failed(e)
      else Button(|fs|, ButtonText(|fs|), |fs| == 0, newPaths)
  }

  /** `RecordRenderer`: the jump into one field at depth 0, nothing for an
      empty field list, the labelled list of all fields, or the "N record
      item(s)" button. */
  function RecordRenderer(newPaths: Path, fields: Fields, values: RecordValues, path: Path, depth: nat,
                          resolve: Resolver): (r: Node)
    // the jump: only at depth 0, into the first field the path names
    ensures r.Abstract? <==> Jumps(fields, path, depth) && values.Obj?
    ensures r.Abstract? ==>
              && fields.Array? && values.Obj? && |path| > 0
              && exists i :: FirstMatch(fields.items, path[0], i) &&
                   var res := resolve(path[1..], fields.items[i].input, Get(values.entries, path[0].name), 0);
                   r.call == Call([], res.config, res.value, path, res.depth)
    ensures depth == 0 && |path| > 0 && fields.NonArray? ==> r == Failed(RuntimeTypeError)
    ensures Jumps(fields, path, depth) && values.Undefined? ==> r == Failed(RuntimeTypeError)
    ensures fields.NonArray? && (depth != 0 || |path| == 0) ==> r == Failed(FieldsNotArray(path))
    // no fields: nothing, whatever the path
    ensures r.Nothing? <==> fields == Array([])
    // the listing
    ensures r.FieldList? <==>
              && !Jumps(fields, path, depth) && fields.Array? && |fields.items| > 0 && |path| == depth
              && forall i :: 0 <= i < |fields.items| ==> FieldFault(fields.items[i], values, path).None?
    ensures r.FieldList? ==>
              && fields.Array? && |r.entries| == |fields.items|
              && forall i :: 0 <= i < |r.entries| ==> Displays(r.entries[i], fields.items[i], values, path, depth)
    ensures && !Jumps(fields, path, depth) && fields.Array? && |fields.items| > 0 && |path| == depth
            && (exists i :: 0 <= i < |fields.items| && FieldFault(fields.items[i], values, path).Some?)
            ==> r.Failed?
    ensures !Jumps(fields, path, depth) && fields.Array? && |path| == depth && r.Failed? ==>
              exists i :: FirstFault(fields.items, values, path, i) &&
                          FieldFault(fields.items[i], values, path) == Some(r.error)
    // nothing else is ever returned
    ensures r.Abstract? || r.Nothing? || r.FieldList? || r.Button? || r.Failed?
    // the drill-in button
    ensures r.Button? <==> !Jumps(fields, path, depth) && fields.Array? && |fields.items| > 0 && |path| != depth
    ensures r.Button? ==>
              && fields.Array? && r.count == |fields.items| && r.text == ButtonText(r.count)
              && !r.disabled && r.newPaths == newPaths
  {
    if depth == 0 && |path| > 0 then
      match fields
      case NonArray => Failed(RuntimeTypeError)
      case Array(fs) =>
        match FindField(fs, path[0])
        case Some(i) =>
          if values.Undefined? then Failed(RuntimeTypeError)
          else
            var res := resolve(path[1..], fs[i].input, Get(values.entries, fs[i].key.value), depth);
            Abstract(Call([], res.config, res.value, path, res.depth))
        case None => Listing(newPaths, fields, values, path, depth)
    else Listing(newPaths, fields, values, path, depth)
  }
}
