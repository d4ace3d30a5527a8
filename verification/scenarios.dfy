/** Concrete pages, worked through the model. */
module Scenarios {
  import opened Wrappers
  import opened Values
  import opened Schema
  import opened Renderers
  import opened Mount

  function StringField(key: string, caption: string): Field {
    Field(Some(key), Some(caption), Some(String))
  }

  /** One String field "a" with value "hello", at the top with an empty
      path: one labelled String editor showing "hello". */
  lemma OneStringField(resolve: Resolver)
    ensures var values := Obj(map["a" := Str("hello")]);
            && RecordRenderer([], Array([StringField("a", "A")]), values, [], 0, resolve)
               == FieldList([FieldEntry("a", "A", Call([Key("a")], String, Str("hello"), [], 0))])
            && MountRecord([], Array([StringField("a", "A")]), values, [], 0, resolve)
               == Ok(Labelled([Row("a", "A", StringEditor(Str("hello")))]))
  {
    var values := Obj(map["a" := Str("hello")]);
    var fs := [StringField("a", "A")];
    var r := RecordRenderer([], Array(fs), values, [], 0, resolve);
    assert r.FieldList?;
    assert Displays(r.entries[0], fs[0], values, [], 0);
    var call := Call([Key("a")], String, Str("hello"), [], 0);
    var row := Row("a", "A", StringEditor(Str("hello")));
    assert r.entries == [FieldEntry("a", "A", call)];
    assert AbstractRenderer(call) == LeafString(Str("hello"));
    assert MountEntries(r.entries[1..], resolve) == Ok([]) by {
      assert r.entries[1..] == [];
    }
    assert [row] + [] == [row];
    assert MountEntries(r.entries, resolve) == Ok([row]);
  }

  /** Two fields, an empty object, at depth 1 with an empty path (the
      page is one level up): the enabled button "2 record items". */
  lemma TwoFieldsOneLevelDown(resolve: Resolver, newPaths: Path)
    ensures RecordRenderer(newPaths, Array([StringField("a", "A"), StringField("b", "B")]), Obj(map[]),
                           [], 1, resolve)
            == Button(2, "2 record items", false, newPaths)
  {
  }

  /** The same two fields with the path ["x"] at depth 1: the path's length
      equals the depth, so the fields are listed, each with the undefined
      value an empty object holds for its key. */
  lemma TwoFieldsAtPathLength(resolve: Resolver, newPaths: Path)
    ensures RecordRenderer(newPaths, Array([StringField("a", "A"), StringField("b", "B")]), Obj(map[]),
                           [Key("x")], 1, resolve)
            == FieldList([FieldEntry("a", "A", Call([Key("a")], String, Undefined, [Key("x")], 1)),
                          FieldEntry("b", "B", Call([Key("b")], String, Undefined, [Key("x")], 1))])
  {
  }

  /** The page above, mounted: String editors accept a missing entry, so
      listing two String fields over an empty object raises nothing. */
  lemma MissingStringValuesMount(resolve: Resolver, newPaths: Path)
    ensures MountRecord(newPaths, Array([StringField("a", "A"), StringField("b", "B")]), Obj(map[]),
                        [Key("x")], 1, resolve).Ok?
  {
    var fs := [StringField("a", "A"), StringField("b", "B")];
    assert RowRenders(fs[0], Obj(map[]), [Key("x")]) && RowRenders(fs[1], Obj(map[]), [Key("x")]);
    PageRendersIff(newPaths, Array(fs), Obj(map[]), [Key("x")], 1, resolve);
  }

  /** A record field over an empty object, at the top: the field's document
      entry is missing and its own field has no label and an unknown tag,
      yet the page mounts, since the record one level down only shows its
      button. */
  lemma NestedRecordOverBlankDocument(resolve: Resolver)
    ensures var inner := Field(Some("x"), None, Some(Unknown("date")));
            MountRecord([], Array([Field(Some("r"), Some("R"), Some(Record(Array([inner]))))]), Obj(map[]),
                        [], 0, resolve).Ok?
  {
    var inner := Field(Some("x"), None, Some(Unknown("date")));
    var fs := [Field(Some("r"), Some("R"), Some(Record(Array([inner]))))];
    assert RowRenders(fs[0], Obj(map[]), []);
    PageRendersIff([], Array(fs), Obj(map[]), [], 0, resolve);
  }

  /** No fields at all: nothing is rendered. */
  lemma NoFields(resolve: Resolver)
    ensures RecordRenderer([], Array([]), Obj(map[]), [], 0, resolve) == Nothing
  {
  }

  /** At depth 0 the path ["b", 3] jumps straight into field "b", the first
      of the two fields keyed "b", and renders nothing else. */
  lemma JumpIntoNamedField(resolve: Resolver)
    ensures var fs := [StringField("a", "A"), Field(Some("b"), Some("B1"), Some(PlainText)),
                       Field(Some("b"), Some("B2"), Some(String))];
            var values := Obj(map["b" := Str("x")]);
            var res := resolve([Index(3)], Some(PlainText), Str("x"), 0);
            RecordRenderer([Key("q")], Array(fs), values, [Key("b"), Index(3)], 0, resolve)
            == Abstract(Call([], res.config, res.value, [Key("b"), Index(3)], res.depth))
  {
  }
}
