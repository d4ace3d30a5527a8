/** What the host framework makes of the element tree the two components
    return: it renders each element, then its children in order, depth
    first, and the first error raised anywhere aborts the whole render.
    `ListRenderer`, `StringRenderer` and `PlainTextRenderer` are not part of
    this model and stay opaque leaves of the mounted view. */
module Mount {
  import opened Wrappers
  import opened Values
  import opened Schema
  import opened Renderers

  /** A fully rendered page, presentation markup left out. */
  datatype View =
    | Blank
    | PlainTextEditor(value: Value)
    | StringEditor(value: Value)
    | ListEditor(newPaths: Path, input: Input, items: seq<Value>, depth: Pos, path: Path)
    | Labelled(rows: seq<Row>)
    | NavButton(count: nat, text: string, disabled: bool, newPaths: Path)

  /** One `<div>` of a listing: the label and the rendered field. */
  datatype Row = Row(key: string, caption: string, view: View)

  // Sizes, used only to show that rendering terminates.

  function ConfigSize(i: Input): nat
    decreases i
  {
    match i
    case List(inner) => 1 + ConfigSize(inner)
    case Record(fields) => 2 + FieldsSize(fields)
    case _ => 1
  }

  function FieldsSize(fields: Fields): nat
    decreases fields
  {
    match fields
    case NonArray => 0
    case Array(items) => FieldSeqSize(items)
  }

  function FieldSeqSize(fs: seq<Field>): nat
    decreases fs
  {
    if |fs| == 0 then 0
    else
      assert fs[0] in fs;
      FieldSize(fs[0]) + FieldSeqSize(fs[1..])
  }

  function FieldSize(f: Field): nat
    decreases f
  {
    match f.input
    case Some(i) => 2 + ConfigSize(i)
    case None => 2
  }

  function EntriesRank(es: seq<FieldEntry>): nat {
    if |es| == 0 then 0 else 1 + ConfigSize(es[0].call.config) + EntriesRank(es[1..])
  }

  function NodeRank(n: Node): nat {
    match n
    case RecordDelegate(_, fields, _, _, _) => 1 + FieldsSize(fields)
    case Abstract(c) => ConfigSize(c.config)
    case FieldList(es) => 1 + EntriesRank(es)
    case _ => 0
  }

  /** A listing's entries are exactly as large as the fields they show,
      less one per field. */
  lemma {:induction false} EntriesRankOfListing(es: seq<FieldEntry>, fs: seq<Field>, values: RecordValues,
                                                path: Path, depth: nat)
    requires |es| == |fs|
    requires forall i :: 0 <= i < |es| ==> Displays(es[i], fs[i], values, path, depth)
    ensures EntriesRank(es) + |es| == FieldSeqSize(fs)
  {
    if |es| > 0 {
      EntriesRankOfListing(es[1..], fs[1..], values, path, depth);
    }
  }

  lemma AbstractRank(c: Call)
    ensures NodeRank(AbstractRenderer(c)) < ConfigSize(c.config)
  {
  }

  /** Below the top of a page a record renderer never jumps, so what it
      returns is smaller than the fields it was given. */
  lemma NestedRecordRank(newPaths: Path, fields: Fields, values: RecordValues, path: Path, depth: Pos,
                         resolve: Resolver)
    ensures NodeRank(RecordRenderer(newPaths, fields, values, path, depth, resolve)) < NodeRank(
              RecordDelegate(newPaths, fields, values, depth, path))
  {
    var r := RecordRenderer(newPaths, fields, values, path, depth, resolve);
    if r.FieldList? {
      EntriesRankOfListing(r.entries, fields.items, values, path, depth);
    }
  }

  /** Render a component's output, and then its children, depth first. */
  function MountNode(n: Node, resolve: Resolver): Result<View, RenderError>
    decreases NodeRank(n)
  {
    match n
    case Nothing => Ok(Blank)
    case LeafPlain(v) => Ok(PlainTextEditor(v))
    case LeafString(v) => Ok(StringEditor(v))
    case ListDelegate(np, input, items, d, p) => Ok(ListEditor(np, input, items, d, p))
    case RecordDelegate(np, fields, values, d, p) =>
      NestedRecordRank(np, fields, values, p, d, resolve);
      MountNode(RecordRenderer(np, fields, values, p, d, resolve), resolve)
    case Abstract(c) =>
      AbstractRank(c);
      MountNode(AbstractRenderer(c), resolve)
    case FieldList(es) =>
      (match MountEntries(es, resolve)
       case Ok(rows) => Ok(Labelled(rows))
       case Err(e) => Err(e))
    case Button(count, text, disabled, np) => Ok(NavButton(count, text, disabled, np))
    case Failed(e) => Err(e)
  }

  /** Render the rows of a listing in order; the first error aborts. */
  function MountEntries(es: seq<FieldEntry>, resolve: Resolver): Result<seq<Row>, RenderError>
    decreases EntriesRank(es)
  {
    if |es| == 0 then Ok([])
    else match MountNode(Abstract(es[0].call), resolve)
      case Err(e) => Err(e)
      case Ok(v) =>
        match MountEntries(es[1..], resolve)
        case Err(e) => Err(e)
        case Ok(rows) => Ok([Row(es[0].key, es[0].caption, v)] + rows)
  }

  /** The page a record renderer shows, with its children rendered. */
  function MountRecord(newPaths: Path, fields: Fields, values: RecordValues, path: Path, depth: nat,
                       resolve: Resolver): Result<View, RenderError>
  {
    MountNode(RecordRenderer(newPaths, fields, values, path, depth, resolve), resolve)
  }

  /** A listing renders row by row: it succeeds exactly when every row does,
      each row holds its field's label and rendered value, and otherwise the
      error is that of the first row that fails. */
  lemma {:induction false} MountEntriesInOrder(es: seq<FieldEntry>, resolve: Resolver)
    ensures MountEntries(es, resolve).Ok? <==> forall i :: 0 <= i < |es| ==> MountNode(Abstract(es[i].call), resolve).Ok?
    ensures MountEntries(es, resolve).Ok? ==>
              var rows := MountEntries(es, resolve).value;
              && |rows| == |es|
              && forall i :: 0 <= i < |es| ==>
                   rows[i] == Row(es[i].key, es[i].caption, MountNode(Abstract(es[i].call), resolve).value)
    ensures MountEntries(es, resolve).Err? ==>
              exists i :: && 0 <= i < |es|
                          && MountNode(Abstract(es[i].call), resolve) == Err(MountEntries(es, resolve).error)
                          && forall j :: 0 <= j < i ==> MountNode(Abstract(es[j].call), resolve).Ok?
  {
    if |es| > 0 {
      MountEntriesInOrder(es[1..], resolve);
      assert forall i :: 0 < i < |es| ==> es[i] == es[1..][i - 1];
      if MountNode(Abstract(es[0].call), resolve).Ok? && MountEntries(es[1..], resolve).Err? {
        var e := MountEntries(es[1..], resolve).error;
        var i :| && 0 <= i < |es| - 1
                 && MountNode(Abstract(es[1..][i].call), resolve) == Err(e)
                 && forall j :: 0 <= j < i ==> MountNode(Abstract(es[1..][j].call), resolve).Ok?;
        assert MountNode(Abstract(es[i + 1].call), resolve) == Err(e);
      }
    }
  }

  /** A record one level below the page (the path ends at the caller's
      depth) is not expanded: it shows as the drill-in button, enabled,
      counting its fields and navigating to the caller's `newPaths`. */
  lemma NestedRecordIsButton(c: Call, resolve: Resolver)
    requires c.config.Record? && c.config.fields.Array? && |c.config.fields.items| > 0
    requires ObjectLike(c.value)
    requires |c.path| == c.depth
    ensures var n := |c.config.fields.items|;
            MountNode(Abstract(c), resolve) == Ok(NavButton(n, ButtonText(n), false, c.newPaths))
  {
    var fields := c.config.fields;
    var d := RecordDelegate(c.newPaths, fields, c.value, c.depth + 1, c.path);
    assert AbstractRenderer(c) == d;
    assert MountNode(Abstract(c), resolve) == MountNode(d, resolve);
    var n := |fields.items|;
    assert RecordRenderer(c.newPaths, fields, c.value, c.path, c.depth + 1, resolve)
        == Button(n, ButtonText(n), false, c.newPaths);
  }

  /** In a listed page, a field holding a non-empty record is shown as a
      button that navigates to the one-segment path naming that field. */
  lemma ListedRecordFieldIsButton(fs: seq<Field>, values: RecordValues, path: Path, depth: nat,
                                  resolve: Resolver, k: nat)
    requires |path| == depth && !Jumps(Array(fs), path, depth)
    requires k < |fs| && fs[k].key.Some? && fs[k].input.Some?
    requires fs[k].input.value.Record? && fs[k].input.value.fields.Array?
    requires |fs[k].input.value.fields.items| > 0
    requires values.Obj? && ObjectLike(Get(values.entries, fs[k].key.value))
    ensures MountRecord([], Array(fs), values, path, depth, resolve).Ok? ==>
              var n := |fs[k].input.value.fields.items|;
              && MountRecord([], Array(fs), values, path, depth, resolve).value.Labelled?
              && |MountRecord([], Array(fs), values, path, depth, resolve).value.rows| == |fs|
              && MountRecord([], Array(fs), values, path, depth, resolve).value.rows[k].view
                 == NavButton(n, ButtonText(n), false, [Key(fs[k].key.value)])
  {
    var r := RecordRenderer([], Array(fs), values, path, depth, resolve);
    if MountNode(r, resolve).Ok? {
      assert !r.Failed?;
      assert r.FieldList?;
      MountEntriesInOrder(r.entries, resolve);
      assert Displays(r.entries[k], fs[k], values, path, depth);
      NestedRecordIsButton(r.entries[k].call, resolve);
    }
  }

  /** The schema node `config` over value `v` raises nothing at once: its
      tag is known, and a record over an object or undefined value has an
      array of fields (a string or an array renders nothing). A record's own
      fields are not looked at here: one level below the page it shows as
      the drill-in button, and list items are left to the list renderer. */
  predicate ShallowRenders(config: Input, v: Value) {
    && !config.Unknown?
    && (config.Record? && ObjectLike(v) ==> config.fields.Array?)
  }

  /** Listing field `f` raises nothing, and neither does the element shown
      for it, which sits one level below the page. */
  predicate RowRenders(f: Field, values: RecordValues, path: Path) {
    && FieldFault(f, values, path).None?
    && ShallowRenders(f.input.value, Get(values.entries, f.key.value))
  }

  /** A record page that does not jump raises nothing: its fields are an
      array and, when the path ends at its depth, every row renders. */
  predicate PageRenders(fields: Fields, values: RecordValues, path: Path, depth: nat) {
    && fields.Array?
    && (|path| == depth ==> forall i :: 0 <= i < |fields.items| ==> RowRenders(fields.items[i], values, path))
  }

  /** `AbstractRenderer` for call `c` raises nothing: the node itself is
      fine, and a record whose page is the next level lists its rows. */
  predicate CallRenders(c: Call) {
    && ShallowRenders(c.config, c.value)
    && (c.config.Record? && ObjectLike(c.value) && |c.path| == c.depth + 1 ==>
          PageRenders(c.config.fields, c.value, c.path, c.depth + 1))
  }

  lemma {:induction false} FieldInputSmaller(fs: seq<Field>, k: nat)
    requires k < |fs| && fs[k].input.Some?
    ensures ConfigSize(fs[k].input.value) < FieldSeqSize(fs)
  {
    if k > 0 {
      FieldInputSmaller(fs[1..], k - 1);
    }
  }

  /** Exactly the calls that `CallRenders` admits mount without error from
      the two components, at any depth and for any path. The three opaque
      collaborators count as raising nothing. */
  lemma {:induction false} CallRendersIff(c: Call, resolve: Resolver)
    ensures MountNode(Abstract(c), resolve).Ok? <==> CallRenders(c)
    decreases ConfigSize(c.config), 1
  {
    AbstractRank(c);
    match c.config
    case Record(fields) =>
      if ObjectLike(c.value) {
        NestedRecordRank(c.newPaths, fields, c.value, c.path, c.depth + 1, resolve);
        PageRendersIff(c.newPaths, fields, c.value, c.path, c.depth + 1, resolve);
      }
    case _ =>
  }

  /** A record page that does not jump mounts without error exactly when
      `PageRenders` holds: one level down only each field's own node
      matters, whatever the document holds deeper. */
  lemma {:induction false} PageRendersIff(newPaths: Path, fields: Fields, values: RecordValues,
                                          path: Path, depth: nat, resolve: Resolver)
    requires !Jumps(fields, path, depth)
    ensures MountRecord(newPaths, fields, values, path, depth, resolve).Ok? <==> PageRenders(fields, values, path, depth)
    decreases FieldsSize(fields), 0
  {
    var r := RecordRenderer(newPaths, fields, values, path, depth, resolve);
    if r.FieldList? {
      var fs := fields.items;
      forall i | 0 <= i < |r.entries|
        ensures MountNode(Abstract(r.entries[i].call), resolve).Ok? <==> RowRenders(fs[i], values, path)
      {
        assert Displays(r.entries[i], fs[i], values, path, depth);
        FieldInputSmaller(fs, i);
        CallRendersIff(r.entries[i].call, resolve);
      }
      MountEntriesInOrder(r.entries, resolve);
    } else if fields.Array? && |path| == depth && |fields.items| > 0 {
      var i :| 0 <= i < |fields.items| && FieldFault(fields.items[i], values, path).Some?;
      assert !RowRenders(fields.items[i], values, path);
    }
  }

  /** At depth 0, a path whose first segment names field `i` (the first
      such) renders only what the path resolves to: undefined values raise a
      TypeError, and otherwise the page mounts exactly when the resolved
      call does. */
  lemma JumpRendersIff(newPaths: Path, fs: seq<Field>, values: RecordValues, path: Path, resolve: Resolver,
                       i: int)
    requires |path| > 0 && FirstMatch(fs, path[0], i)
    ensures values.Undefined? ==> MountRecord(newPaths, Array(fs), values, path, 0, resolve) == Err(RuntimeTypeError)
    ensures values.Obj? ==>
              var res := resolve(path[1..], fs[i].input, Get(values.entries, path[0].name), 0);
              MountRecord(newPaths, Array(fs), values, path, 0, resolve).Ok?
              <==> CallRenders(Call([], res.config, res.value, path, res.depth))
  {
    var r := RecordRenderer(newPaths, Array(fs), values, path, 0, resolve);
    assert Jumps(Array(fs), path, 0);
    if values.Obj? {
      var j :| FirstMatch(fs, path[0], j) &&
               var res := resolve(path[1..], fs[j].input, Get(values.entries, path[0].name), 0);
               r.call == Call([], res.config, res.value, path, res.depth);
      assert i == j;
      CallRendersIff(r.call, resolve);
    }
  }

  /** A page that lists its fields fails with the error of the first field
      lacking a key, a label or an input: a missing key or input reports
      the missing-key error and a missing label the missing-label error,
      both naming the page's path. */
  lemma MissingAttributeFailsPage(fs: seq<Field>, values: RecordValues, path: Path, depth: nat,
                                  resolve: Resolver, k: nat)
    requires |path| == depth && !Jumps(Array(fs), path, depth)
    requires FirstFault(fs, values, path, k)
    ensures MountRecord([], Array(fs), values, path, depth, resolve) == Err(FieldFault(fs[k], values, path).value)
    ensures !Truthy(fs[k].key) || (Truthy(fs[k].caption) && fs[k].input.None?) ==>
              MountRecord([], Array(fs), values, path, depth, resolve) == Err(MissingKey(path))
    ensures Truthy(fs[k].key) && !Truthy(fs[k].caption) ==>
              MountRecord([], Array(fs), values, path, depth, resolve) == Err(MissingLabel(path))
  {
  }

  /** A field whose tag is unknown makes the whole page fail when the page
      lists its fields. */
  lemma UnknownTagFailsPage(fs: seq<Field>, values: RecordValues, path: Path, depth: nat,
                            resolve: Resolver, k: nat)
    requires |path| == depth && !Jumps(Array(fs), path, depth)
    requires k < |fs| && fs[k].input.Some? && fs[k].input.value.Unknown?
    ensures MountRecord([], Array(fs), values, path, depth, resolve).Err?
  {
    var r := RecordRenderer([], Array(fs), values, path, depth, resolve);
    if r.FieldList? {
      MountEntriesInOrder(r.entries, resolve);
      assert Displays(r.entries[k], fs[k], values, path, depth);
      assert MountNode(Abstract(r.entries[k].call), resolve).Err?;
    }
  }
}
