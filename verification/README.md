# Record renderer: a Dafny model

This project models the render decisions of the nested form editor in
`src/options/RecordRenderer.js`. A schema ("config") of `List`, `Record`,
`PlainText` and `String` inputs, a document value and a navigation cursor
(`path`, `depth`) decide what one page of a deeply nested document shows.
Two components do the work:

- `AbstractRenderer` dispatches on the config's tag. It checks that the value
  has the shape the tag needs, then delegates to a sub-renderer, renders
  nothing, or throws for an unknown tag.
- `RecordRenderer` picks one of four outcomes from the fields, the path and
  the depth:
  - a jump straight into the field named by the path's first segment, at depth 0;
  - nothing, for an empty field list;
  - the labelled list of every field, when the path ends at this depth;
  - a "N record item(s)" drill-in button otherwise.

Each component is a total function (`Renderers.AbstractRenderer`,
`Renderers.RecordRenderer`). It returns a `Node` that describes the element
the JSX would build, without any markup. A thrown error becomes
`Failed(kind)`, carrying the path when the message names it. Module `Mount`
plays the host framework. It renders each returned element and then its
children, depth first, and the first error aborts the page. Properties of
whole pages are stated there.

Modules:
- `Values` holds document values and paths.
  - `Undefined` is the value a missing object key reads as.
- `Schema` holds inputs, fields and render errors.
- `Decimal` holds the count printed on the button and its read-back.
- `Renderers` holds one render step of each component.
- `Mount` holds the depth-first rendering of a page.
- `Scenarios` holds worked examples.

Notes on the code's behaviour:
- Line 115 shows the button whenever `path.length !== depth`, including a
  path shorter than the depth, and not only a longer one.
  - With fields `a` and `b`, values `{}`, path `["x"]` and depth 1, the path's
    length equals the depth. So the fields are listed and no button is shown
    (`Scenarios.TwoFieldsAtPathLength`).
  - The button appears one level down instead (`Scenarios.TwoFieldsOneLevelDown`).
- The button is never disabled. `fields.length === 0` has already returned
  `null`.
- A field without an input reports the missing-key message (line 128).
- At depth 0 with a non-empty path, `fields.find` runs before the array check
  of line 109. So a non-array field list there fails with the engine's
  TypeError, not with the "not an array" error.
- A missing document entry (`undefined`) passes the Record shape test of
  line 49. The nested record renderer then receives `undefined` values. When
  it lists its fields, reading `values[field.key]` throws a TypeError
  (`RenderError.RuntimeTypeError`). So this case fails rather than rendering
  nothing.

## Model

| member | source | states |
|---|---|---|
| Renderers.AbstractRenderer | src/options/RecordRenderer.js:32-70 | An unknown tag, and only an unknown tag, throws "unknown config type". Nothing is rendered exactly when a List value is not an array or a Record value is a string or an array. A List delegate carries `config.inputs`, the same items, path and newPaths, and `depth + 1`. A Record delegate carries `config.fields` and the same value, path and newPaths, with `depth + 1`. PlainText and String always yield their leaf, with the value passed through unchanged. |
| Renderers.FindField | src/options/RecordRenderer.js:91 | `fields.find`: it returns the first field whose key strictly equals the segment, or none when no field's key does. |
| Renderers.FieldFault | src/options/RecordRenderer.js:117-139 | The checks of one listed field, in order. A falsy key raises the missing-key error naming the path. Otherwise a falsy label raises the missing-label error naming the path. Otherwise a missing input raises the missing-key error naming the path. Otherwise undefined values make the read of `values[key]` raise a TypeError. There is no fault exactly when key and label are truthy, the input is present and the values are an object. |
| Renderers.ListFields | src/options/RecordRenderer.js:116-145 | The listing succeeds exactly when no field faults. It then has one entry per field in schema order. Each entry has the field's key and label, `newPaths == [key]`, the unchanged path and depth, the field's input and `values[key]`. Otherwise the error is the fault of the first faulty field. |
| Renderers.ButtonText | src/options/RecordRenderer.js:148 | The button text is the count as JavaScript prints it, followed by exactly " record item" when the count is 1 and " record items" otherwise. Its leading number reads back as the count. |
| Renderers.RecordRenderer | src/options/RecordRenderer.js:90-150 | The jump happens exactly at depth 0 with a non-empty path whose first segment is some field's key, when the values are an object. It renders only the first such field, resolved through `resolvePath(path.slice(1), ...)`, with empty newPaths and the original path. Fields `[]` render nothing, whatever the path. A non-array field list throws "not an array" with the path, or a TypeError at depth 0 with a non-empty path. The listing appears exactly when the path's length equals the depth and no field faults. A listing entry shows its field as ListFields does. When some field faults, the result is a failure carrying the first field's fault. No other kind of result is ever returned. The button appears exactly when the path's length differs from the depth. It counts the fields, is labelled by ButtonText, is enabled and navigates to newPaths. |
| Decimal.FromNat | src/options/RecordRenderer.js:148 | The count as JavaScript prints it is non-empty, all digits, with no leading zero. |
| Decimal.ToNatFromNat | src/options/RecordRenderer.js:148 | Reading the printed count back gives the count. |
| Decimal.LeadingNumberOf | src/options/RecordRenderer.js:148 | A printed count followed by text that starts with a non-digit reads back as the count. |
| Mount.MountEntriesInOrder | src/options/RecordRenderer.js:116-145 | A listing renders row by row. It succeeds exactly when every row's element renders. Each row then holds the field's key, label and rendered element; otherwise the error is that of the first failing row. |
| Mount.NestedRecordIsButton | src/options/RecordRenderer.js:48-62 | A non-empty record one level below the page is not expanded. It renders as the enabled "N record item(s)" button, navigating to its caller's newPaths. |
| Mount.ListedRecordFieldIsButton | src/options/RecordRenderer.js:131-149 | On a listed page, a field holding a non-empty record shows as that button, navigating to the one-segment path `[key]`. |
| Mount.CallRendersIff | src/options/RecordRenderer.js:32-151 | An AbstractRenderer element mounts without error from AbstractRenderer or RecordRenderer exactly when its tag is known and a Record over an object or undefined value has an array of fields. When the path is one longer than the depth, the nested record lists its fields, and each of those rows must render as well. This holds at any depth and for any path. Nothing deeper is required: a record one level below a listed page shows only its button. |
| Mount.PageRendersIff | src/options/RecordRenderer.js:109-149 | A record page that does not take the depth-0 jump mounts without error from AbstractRenderer or RecordRenderer exactly when its fields are an array and, if the path ends at its depth, every field passes the key, label, input and `values[key]` checks and its own element raises nothing one level down. Missing document entries and the contents of nested records are otherwise irrelevant. |
| Mount.JumpRendersIff | src/options/RecordRenderer.js:90-106 | At depth 0, when the path's first segment names a field: undefined values fail with a TypeError, and otherwise the page mounts without error exactly when the element for the resolved config, value and depth does. |
| Mount.MissingAttributeFailsPage | src/options/RecordRenderer.js:116-129 | A page that lists its fields, whether its values are an object or undefined, fails with the first faulty field's error. A missing key, or a missing input after a present label, gives the missing-key error naming the path. A missing label after a present key gives the missing-label error naming the path. |
| Mount.UnknownTagFailsPage | src/options/RecordRenderer.js:67-68 | On a page that lists its fields, a field with an unknown tag makes the whole page fail. |
| Scenarios.OneStringField | src/options/RecordRenderer.js:115-145 | Field `a` (String), values `{a: "hello"}`, path `[]`, depth 0: one labelled String editor showing "hello". |
| Scenarios.TwoFieldsOneLevelDown | src/options/RecordRenderer.js:146-149 | Two fields, path `[]`, depth 1: the enabled button "2 record items". |
| Scenarios.TwoFieldsAtPathLength | src/options/RecordRenderer.js:115-145 | Two fields, values `{}`, path `["x"]`, depth 1: both fields listed, each with an undefined value. |
| Scenarios.MissingStringValuesMount | src/options/RecordRenderer.js:116-145 | The same page mounts without error: a String field over a missing entry is accepted. |
| Scenarios.NestedRecordOverBlankDocument | src/options/RecordRenderer.js:48-62 | A Record field over an empty object, at the top, mounts without error. Its nested field has no label and an unknown tag, but that page is never listed. |
| Scenarios.NoFields | src/options/RecordRenderer.js:115 | No fields: nothing is rendered. |
| Scenarios.JumpIntoNamedField | src/options/RecordRenderer.js:90-106 | At depth 0 the path `["b", 3]` renders only the first field keyed "b", resolved with the rest of the path. |

## Left out

- Markup: JSX element construction, the `key` props, the `<label>`/`<div>` markup and the Flow annotations. They are presentation only.
- Callbacks: `onNavigate`, `onChange` and the button's click closure. They are event plumbing; the model records only the `newPaths` the button would navigate to.
- Collaborators: `ListRenderer`, `StringRenderer` and `PlainTextRenderer` are not part of this model. They appear only as opaque delegate and leaf nodes.
- `resolvePath` is not part of this model. It is an arbitrary function parameter (`Resolver`) of the rest of the path, the field's input, its value and the depth. The model assumes it returns a config, a value and a depth. Any other props it might spread are not modelled, apart from `path` and `newPaths`, which the element overrides.
- Error messages: the `JSON.stringify` text is not modelled. An error is its kind plus the path, when the message names the path.
- Depth: depths are natural numbers. A negative or fractional `depth` is not modelled.
- Path segments: segments are strings or integers only.
- Field keys: keys are strings. Non-string keys are not modelled.
- Object properties: objects expose only their own keys. A prototype property such as `values["toString"]` is not modelled.
- `null`: `null` document values are not modelled. The document type has none.
- Non-array field lists: one that has a `find` method of its own is not modelled. The depth-0 lookup on a non-array is always the engine's TypeError.
- `Unknown(tag)` stands for tags other than the four known names. Nothing forces its tag to differ from them.
- Mount.CallRendersIff: the mounted view stops at `ListRenderer`, `StringRenderer` and `PlainTextRenderer` and treats them as raising nothing, because their code is not part of this model (`ListRenderer` renders the list's items, and nothing is known of how). So the lemma characterises only errors raised by AbstractRenderer and RecordRenderer.
- Mount.PageRendersIff: it rests on the same assumption about the three collaborators. The depth-0 jump is covered by `Mount.JumpRendersIff` instead, which characterises the page only in terms of what the unmodelled `resolvePath` returns.
