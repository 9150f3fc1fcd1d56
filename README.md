# StORM base class: field introspection and value encoding

This project models the core of the `StORM` base class (`Sources/StORM/StORM.swift`), the superclass that every
database-connector record of the StORM object-relational mapper inherits from. The class looks at a record's
children through Swift reflection. It offers three views of them:

- `cols(offset)`: each exposed field's name with the type of its value.
- `asData(offset)`: an ordered list of name/value pairs, with each value encoded for storage.
- `asDataDict(offset)`: the same pairs assigned one after another into a dictionary.

It also resolves the record's key (`firstAsKey`, `keyIsEmpty`), and it carries the `create` hook that every
driver class overrides.

Swift's run-time reflection is replaced by an explicit input. A record is a list of `Child` values, each with an
optional name and a tagged `Value`. The tags are `Int`, `String`, `[String]`, `[String: Any]`, and any other
value. The class `StormEntity.Storm` holds the per-record state (`results`, `error`, `errorMsg`), the
reflected children, and the optional `mirroredProperties` override. Its methods are the loops of the Swift code, each
proved equal to a specification function:

- `ColsOf`, `AsDataOf`, `AsDataDictOf` and `FirstKey` are those specification functions.
- They are built from `Fields.Labelled` (the labelled children, in order), `Fields.Positions` (the labelled
  positions a view emits for an offset) and `Fields.Exposed`.
- Lemmas state what `StORM.swift` promises about them.

Module layout: `Wrappers` (option and result types), `Fields` (children, the exposure policy, labelled
positions), `Encoding` (the encoder, the comma join, building the dictionary), `StormEntity` (the class, the
specification of each view, and the lemmas that relate the views).

Behaviour of the Swift code worth knowing:

- The offset counter advances over every *labelled* child, excluded or not. Unlabelled children are skipped
  without advancing it (`guard … continue` in `cols`, `for case let (label?, value)` in `asData` and
  `asDataDict`), so the offset counts labelled children, not all of the record's children.
- `firstAsKey` applies **no** prefix filter. A first child named `_id` is the key, even though every data view
  hides it (`FirstKeyIgnoresExposure`).
- A `mirroredProperties` override replaces reflection, but the prefix rule **is** still applied to it, because
  the views filter whatever the mirror yields (`OverrideStillFiltered`).
- The base `create` throws `notImplemented` and records nothing in `error` or `errorMsg`.
- The doc comment of `keyIsEmpty` (`StORM.swift`:115) says it is true "if the first property in the class
  contains a value". The code (:118-130) returns true when that value is `0` or `""`, that is, when the key is
  *empty*. The model follows the code (`KeyEmptiness`).

## Model

| member | source | states |
|---|---|---|
| StormEntity.MirrorChildren | Sources/StORM/StORM.swift:30-40 | with no declared property list the mirror's children are the reflected ones; with one, the labelled children are exactly the declared (name, value) pairs in their declared order |
| StormEntity.Storm.Mirror | Sources/StORM/StORM.swift:30-35 | the record's `mirror`: its reflected children, or, when `mirroredProperties` yields a list, exactly that list as labelled children in order |
| Fields.Excluded | Sources/StORM/StORM.swift:54-54 | a name is excluded exactly when its first character is `_` or its first nine characters are `internal_` |
| Fields.TypeOf | Sources/StORM/StORM.swift:55-55 | `type(of:)` tells the shapes apart: `Int`, `String`, `[String]` and `[String: Any]` each get their own type, and any other value the run-time type the input names for it |
| Encoding.Join | Sources/StORM/StORM.swift:74-74 | the comma join of no parts is `""`; otherwise it starts with the first part and its length is the parts' total length plus one separator between each two neighbours |
| StormEntity.Storm.constructor | Sources/StORM/StORM.swift:20-43 | a new record has an empty result set, no error and an empty error message, and keeps the children and the override it was given |
| StormEntity.Storm.Cols | Sources/StORM/StORM.swift:46-61 | the loop with its counter over labelled children returns exactly `ColsOf(mirror, offset)`: the exposed fields from labelled position `offset` on, each with the type of its raw value |
| StormEntity.Storm.AsData | Sources/StORM/StORM.swift:65-82 | the loop returns exactly `AsDataOf(mirror, offset, json)`: the exposed fields in mirror order, each value encoded |
| StormEntity.Storm.AsDataDict | Sources/StORM/StORM.swift:86-103 | the loop's successive dictionary assignments produce exactly `ToMap` of the ordered data view for the same offset |
| StormEntity.Storm.FirstAsKey | Sources/StORM/StORM.swift:107-113 | the early-return loop yields `FirstKey(mirror)`: the first labelled child, or `("id", "unknown")` |
| StormEntity.Storm.KeyIsEmpty | Sources/StORM/StORM.swift:116-131 | the result is the emptiness verdict of the key's value, and a failed cast when that value is neither `Int` nor `String` |
| StormEntity.Storm.Create | Sources/StORM/StORM.swift:135-137 | always fails with `NotImplemented`; it has no modifies clause, so `results`, `error` and `errorMsg` stay as they were |
| StormEntity.KeyEmptiness | Sources/StORM/StORM.swift:116-131 | it succeeds exactly for `Int` and `String` values; it answers true exactly for `0` and `""`; any other value fails the forced cast to `String` |
| StormEntity.ColsStep | Sources/StORM/StORM.swift:50-58 | one more child of the mirror adds its (name, type) to `cols` exactly when it is labelled and emitted at the current count, and advances the count exactly when it is labelled |
| StormEntity.AsDataStep | Sources/StORM/StORM.swift:69-80 | one more child adds its (name, encoded value) to `asData` exactly when it is labelled and emitted at the current count, and advances the count exactly when it is labelled |
| StormEntity.AsDataDictStep | Sources/StORM/StORM.swift:90-101 | one more child assigns its encoded value under its name in `asDataDict` exactly when it is labelled and emitted, and leaves the dictionary as it was otherwise |
| StormEntity.ViewsHideExcluded | Sources/StORM/StORM.swift:54-91 | for every offset, no entry of `cols`, `asData` or the keys of `asDataDict` has a name starting with `_` or `internal_` |
| StormEntity.ChildEmittedIff | Sources/StORM/StORM.swift:50-58 | the labelled child at index j sits at labelled position p, the number of labelled children before it; p holds exactly that child's name and value; p is emitted iff p >= offset and the name is not excluded |
| StormEntity.AsDataIsOrderedSubsequence | Sources/StORM/StORM.swift:65-82 | `asData` is the encoded labelled children at strictly increasing emitted positions, in that order |
| StormEntity.OffsetMonotone | Sources/StORM/StORM.swift:46-82 | raising the offset yields a suffix of the previous `asData` and `cols` results and never adds an entry |
| StormEntity.ColsMatchesAsData | Sources/StORM/StORM.swift:54-77 | `cols` and `asData` give the same name sequence for the same offset; `cols` pairs each name with the type of the raw value rather than the encoded one |
| StormEntity.DictMatchesAsData | Sources/StORM/StORM.swift:86-103 | the key set of `asDataDict` is the set of names in `asData`; each key maps to the encoded value of the last entry with that name |
| StormEntity.UnlabelledInvisible | Sources/StORM/StORM.swift:50-53 | inserting an unlabelled child changes neither `asData`, nor `cols`, nor the key: it neither appears nor advances the counter |
| StormEntity.FirstKeyIsFirstLabelled | Sources/StORM/StORM.swift:107-111 | the key is the name and value of the first labelled child, whatever its name |
| StormEntity.FirstKeyFallback | Sources/StORM/StORM.swift:112-131 | without labelled children the key is `("id", "unknown")`, and `keyIsEmpty` answers false for it |
| StormEntity.FirstKeyIgnoresExposure | Sources/StORM/StORM.swift:107-113 | for the children `_id = 7, name = "x"` the key is `_id` while `asData` holds only `name` |
| StormEntity.OverridePrecedence | Sources/StORM/StORM.swift:28-40 | with a declared property list, the views and the key depend only on that list, in its own order, and not on reflection |
| StormEntity.OverrideStillFiltered | Sources/StORM/StORM.swift:30-54 | a declared property named `_secret` is still hidden by `asData` |
| Fields.UnlabelledSkipped | Sources/StORM/StORM.swift:51-53 | an unlabelled child contributes nothing to the labelled children, wherever it stands |
| Fields.LabelledPosition | Sources/StORM/StORM.swift:48-58 | the labelled position of a labelled child is the number of labelled children before it, and that position holds its name and value |
| Fields.PositionsExactly | Sources/StORM/StORM.swift:54-58 | the emitted positions are strictly increasing, and a position is among them iff it is at least the offset and its name is not excluded |
| Fields.ExposedHidesExcluded | Sources/StORM/StORM.swift:54-54 | no exposed field has an excluded name |
| Fields.ExposedOffsetSuffix | Sources/StORM/StORM.swift:54-58 | raising the offset leaves a suffix of the exposed fields |
| Encoding.Encode | Sources/StORM/StORM.swift:71-77 | every encoded value is storable: neither a string list nor a map; values that are already storable pass through unchanged |
| Encoding.EncodeMapIsJson | Sources/StORM/StORM.swift:71-72 | a string-keyed map becomes the JSON encoder's text for it |
| Encoding.JoinSplitRoundTrip | Sources/StORM/StORM.swift:73-74 | splitting the comma join of a non-empty list with no comma in any element gives the list back |
| Encoding.EncodeListInjective | Sources/StORM/StORM.swift:73-74 | two non-empty, comma-free string lists that encode alike are equal |
| Encoding.EncodeListLossy | Sources/StORM/StORM.swift:73-74 | `["a,b","c"]` and `["a","b","c"]` both encode as `"a,b,c"`; `[]` and `[""]` both encode as `""` |
| Encoding.ToMapKeys | Sources/StORM/StORM.swift:91-97 | the dictionary's keys are exactly the names assigned into it |
| Encoding.ToMapLastWins | Sources/StORM/StORM.swift:91-97 | each key holds the value of the last field with that name |

## Left out

- Swift reflection (`Mirror(reflecting:)`, `Mirror.AncestorRepresentation.generated`). What reflection would
  report is the input `reflected: seq<Child>`. A `mirroredProperties` override is an optional list of
  (name, value) pairs, which all become labelled children.
- `jsonEncodedString()`: this foreign library call is the function-typed parameter `json`. A failing `try!`
  (a run-time trap in the Swift code) is not modelled, so encoding a map always succeeds.
- The global `StORMdebug` flag: no modelled operation reads it.
- The internals of `StORMResultSet` and `StORMError`: a result set is an opaque handle. Errors other than
  `notImplemented` are opaque codes.
- Overriding implementations of `create`, and all database or driver behaviour.
- ToMap: keys are compared character by character here, so `DictMatchesAsData` and `ToMapKeys` treat `"é"`
  (U+00E9) and `"e"` followed by U+0301 as two keys. Swift `String` equality and hashing use canonical
  equivalence, so `asDataDict` makes them one key, and the later assignment wins.
- `Excluded`: `hasPrefix` is modelled as a prefix test on characters. Swift compares grapheme clusters, so a name
  such as `_` followed by a combining accent is excluded here but not in Swift.
- Swift `Int` is 64 bits wide. Offsets, the counter and `Int` field values are unbounded integers here. The
  counter never exceeds the number of children, so no overflow is lost.
- TypeOf: `cols` reports the type of the input's tag, not Swift's run-time type. For most values the two agree,
  because the input names the run-time type (`Other`). They differ for values that only cast to a recognised
  shape: an empty `[Int]` passes `is [String]`, and a `[String: String]` passes `is [String:Any]`. Such a value
  must carry the `StrList` or `StrMap` tag for `asData` to encode it as Swift does. `cols` then reports
  `StringArrayType` or `DictionaryType`, where Swift reports `Array<Int>` or `Dictionary<String, String>`.
- Dynamic casts are exact tag tests here. Swift's bridging, such as a `[String: String]` or an `NSArray`
  matching `is [String:Any]` or `is [String]`, is covered only through the tag the input gives each value.
- Default argument values (`offset = 0`): callers pass the offset explicitly.
- Order stability of repeated calls: it holds by construction, because every view is a function of the
  record's children.
