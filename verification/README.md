# configurate-serialization: the node decoding engine in Dafny

`ConfigurationNodeParser` reads a configurate `ConfigurationNode` tree into a
Kotlin value described by a kotlinx-serialization descriptor. This project
models that engine. It has these parts:

- the three readers, each a forward-only cursor with its own kind of tag:
  - `NodeReader` for classes and objects, with dotted string tags;
  - `ListNodeReader` for lists, with integer positions;
  - `MapNodeReader` for maps, with integer positions where an even tag is a
    key and an odd tag is a value.
- the `getTaggedConfigurationNode` addressing rule of each reader.
- `beginStructure`, which picks the nested reader for a list, class, object
  or map. A root class reuses the reader itself.
- the primitive `decodeTagged*` rules of `NodeDecoder`:
  - a char must have length exactly 1;
  - a byte or short is range-checked after reading an int;
  - an enum is looked up by name;
  - the not-null mark.

Modules, one per file:

- `Results` (results.dfy): `Option`, `Result` and the decode errors. A thrown
  `SerializationException` becomes an `Err`.
- `Paths` (paths.dfy): `composeName` and Kotlin's `split('.')`.
- `ConfigTree` (config_tree.dfy): the configurate tree as a datatype.
  - Node kinds: virtual, leaf with an optional value, list, map.
  - Operations on it: `getNode` by one key and by a path, `childrenList`,
    `childrenMap`.
- `Shapes` (shapes.dfy): the schema, which stands in for the descriptor and
  its serializer. It covers primitives, enums, nullable, object, classes
  with fields and optional defaults, lists and maps. It also holds the
  decoded values.
- `Coercion` (coercion.dfy): the primitive rules. The configurate coercions
  (`Types::asInt` and the rest, and `node.string`) are a parameter.
- `Cursors` (cursors.dfy): the readers as records with an explicit `index`.
  - `decodeElementIndex` is a function to a `Step`.
  - It also holds tag addressing (`Fetch`) and `beginStructure` (`Begin`).
- `Decoding` (decoding.dfy): the decoder.
  - It drives the readers against a schema.
  - It stands in for kotlinx's `TaggedDecoder` and the generated
    serializers: a class's cursor loop followed by defaults, a list's loop,
    and a map's key/value loop.
- `Denotation` (denotation.dfy): a reference decoder that reads the tree
  directly, without cursors or tags. It is where the promised properties are
  proved: defaults kept, present fields overriding them, list order and
  count, every map entry reproduced.
- `Agreement` (agreement.dfy): the reader-driven decoder computes exactly
  the reference decoder's result, error or value. This holds for every
  schema whose field names contain no '.' and whose map keys are scalars.
  The reference properties then carry over to `Parse`.
- `TestCases` (examples_from_tests.dfy): several of the repository's
  decoding tests, replayed on the model.
  - Each tree is written by hand. It stands for what the HOCON loader builds
    from the test's configuration string.
  - The loader drops `null` values (ObjectsTest.kt lines 73-75 and 98-99),
    so `s = null` becomes an absent `s`. A second example keeps the null as
    a leaf and gets the same result.
  - The coercions read numbers, text and booleans as the loader stores them.

How the readers address nodes:

- The record reader probes a field's presence with the tag as one key
  (`node.getNode(name)`, line 121).
- It opens a nested structure the same way (lines 140, 143, 146).
- It fetches a primitive by splitting the tag on '.' (line 135).

All three agree when a field name contains no '.', and the agreement theorem
assumes exactly that. For a name with a '.', the model keeps the source's
behaviour: the probe and the fetch look at different nodes.

## Model

Paths in the source column are relative to the repository root. Line
numbers in the prose below refer to `ConfigurationNodeParser.kt` unless
another file is named.

| member | source | states |
|---|---|---|
| Paths.Split | src/main/kotlin/pw/dotdash/configurate/serialization/ConfigurationNodeParser.kt:134-135 | `tag.split('.')` always yields at least one segment. No segment contains '.'. Joining the segments with '.' gives back the tag. |
| Paths.SplitJoin | src/main/kotlin/pw/dotdash/configurate/serialization/ConfigurationNodeParser.kt:134-135 | Splitting a tag built by joining dot-free segments with '.' gives back exactly those segments. |
| Paths.ComposedTagSplits | src/main/kotlin/pw/dotdash/configurate/serialization/ConfigurationNodeParser.kt:128-135 | With an empty parent, a composed tag splits into the bare child name. Otherwise it splits into the parent's segments followed by the child name (for a dot-free child). |
| Cursors.RecordNext | src/main/kotlin/pw/dotdash/configurate/serialization/ConfigurationNodeParser.kt:118-126 | The record cursor returns a position after the old one, below the element count, whose probe is not virtual. Every position it passes over is virtual. It returns READ_DONE only once the positions are exhausted. |
| Cursors.NextRecordElement | src/main/kotlin/pw/dotdash/configurate/serialization/ConfigurationNodeParser.kt:118-126 | The `while (++index < count)` loop computes the same step as `RecordNext`: READ_DONE, or a present position past the old cursor. |
| Cursors.RecordRun | src/main/kotlin/pw/dotdash/configurate/serialization/ConfigurationNodeParser.kt:118-126 | Across one pass, the indices the record cursor returns strictly increase and are all below the element count. Each addresses a non-virtual node. |
| Cursors.RecordRunSkipsOnlyVirtual | src/main/kotlin/pw/dotdash/configurate/serialization/ConfigurationNodeParser.kt:118-126 | Every non-virtual position after the cursor is among the indices the cursor returns, so only virtual positions are skipped. |
| Cursors.KeysOf | src/main/kotlin/pw/dotdash/configurate/serialization/ConfigurationNodeParser.kt:185-189 | `keys` has one element per map entry, and element i is entry i's key. |
| Cursors.ValuesOf | src/main/kotlin/pw/dotdash/configurate/serialization/ConfigurationNodeParser.kt:185-189 | `values` has one element per map entry, and element i is entry i's child node. |
| Cursors.SeqNext | src/main/kotlin/pw/dotdash/configurate/serialization/ConfigurationNodeParser.kt:171-174 | A list or map step moves the cursor by one. It returns READ_DONE exactly when the new index reaches the bound (the child count, or `indexSize`). Otherwise it returns the new index, and that index is in bounds. |
| Cursors.SeqRunIsRange | src/main/kotlin/pw/dotdash/configurate/serialization/ConfigurationNodeParser.kt:171-174 | From any cursor, the list and map readers yield exactly the positions after it up to the bound, in order, each once. |
| Cursors.ListCursorYieldsEveryPosition | src/main/kotlin/pw/dotdash/configurate/serialization/ConfigurationNodeParser.kt:171-176 | A new `ListNodeReader` yields 0, 1, ..., n-1 and then READ_DONE. |
| Cursors.MapCursorStopsAtTwiceTheEntries | src/main/kotlin/pw/dotdash/configurate/serialization/ConfigurationNodeParser.kt:191-212 | A new `MapNodeReader` over n entries yields 0, 1, ..., 2n-1 and then READ_DONE. |
| Cursors.MapTagsAddressEntries | src/main/kotlin/pw/dotdash/configurate/serialization/ConfigurationNodeParser.kt:179-217 | A map reader opened over a map's entries has every tag below `indexSize` in bounds. Tag 2i reads the leaf holding entry i's key, and tag 2i+1 reads entry i's child. |
| Cursors.Begin | src/main/kotlin/pw/dotdash/configurate/serialization/ConfigurationNodeParser.kt:137-205 | For a class or object, a record reader returns itself exactly when its cursor is still at -1. With a current tag, every other case succeeds with a fresh reader at -1 of the kind the shape asks for. The record reader roots it at `node.getNode(tag)` (one key), the list reader at `children[tag]`, and the map reader at `values[tag / 2]`. It reads that node's `childrenList` for a list, its `childrenMap` for a map, or the node itself for a class. Without a current tag, only the self-reuse case succeeds. |
| Agreement.OpensAtFetchedNode | src/main/kotlin/pw/dotdash/configurate/serialization/ConfigurationNodeParser.kt:134-205 | A nested structure opens at the same node a primitive at that tag is read from. For a record reader this needs a dot-free tag. For a map reader it needs an odd (value) tag. Only a root class reuses the reader itself. |
| Coercion.DecodeString | src/main/kotlin/pw/dotdash/configurate/serialization/ConfigurationNodeParser.kt:36-39 | Fails exactly when the node has no string view. Otherwise it returns that string. |
| Coercion.DecodeChar | src/main/kotlin/pw/dotdash/configurate/serialization/ConfigurationNodeParser.kt:41-48 | Succeeds exactly when the string view exists and has length 1. It returns that single character. |
| Coercion.DecodeBoolean | src/main/kotlin/pw/dotdash/configurate/serialization/ConfigurationNodeParser.kt:50-54 | Fails exactly when there is no boolean view. Otherwise it returns that view. |
| Coercion.DecodeByte | src/main/kotlin/pw/dotdash/configurate/serialization/ConfigurationNodeParser.kt:56-63 | Succeeds exactly when the int view exists and lies in [-128, 127]. It returns that same number. |
| Coercion.DecodeShort | src/main/kotlin/pw/dotdash/configurate/serialization/ConfigurationNodeParser.kt:65-72 | Succeeds exactly when the int view exists and lies in [-32768, 32767]. It returns that same number. |
| Coercion.DecodeInt | src/main/kotlin/pw/dotdash/configurate/serialization/ConfigurationNodeParser.kt:74-77 | Fails exactly when the node is not integer-like (no int view). Otherwise it returns the view. |
| Coercion.DecodeLong | src/main/kotlin/pw/dotdash/configurate/serialization/ConfigurationNodeParser.kt:79-83 | Fails exactly when there is no long view. Otherwise it returns the view. |
| Coercion.NarrowIntegersAgree | src/main/kotlin/pw/dotdash/configurate/serialization/ConfigurationNodeParser.kt:56-77 | A node read as a byte reads as a short and as an int with the same number. A node read as a short reads as an int with the same number. |
| Coercion.IndexOf | src/main/kotlin/pw/dotdash/configurate/serialization/ConfigurationNodeParser.kt:97-101 | Gives the position of the first case with the given name. It gives none exactly when no case has that name. |
| Coercion.DecodeEnum | src/main/kotlin/pw/dotdash/configurate/serialization/ConfigurationNodeParser.kt:97-101 | Succeeds exactly when the string view names one of the cases. It returns the ordinal of the first such case. |
| Coercion.DecodeAny | src/main/kotlin/pw/dotdash/configurate/serialization/ConfigurationNodeParser.kt:108-112 | Fails exactly when the not-null mark is false. Otherwise it returns the node's raw value. |
| Coercion.DecodePrimitive | src/main/kotlin/pw/dotdash/configurate/serialization/ConfigurationNodeParser.kt:36-112 | No primitive kind can be read from a node whose not-null mark is false, that is, a virtual node or an explicit null. |
| Coercion.NotNullMark | src/main/kotlin/pw/dotdash/configurate/serialization/ConfigurationNodeParser.kt:103-106 | The mark is false exactly for an absent (virtual) node and for a node holding an explicit null. Every list, map or valued leaf is marked. |
| Denotation.NullReadsAsNoValue | src/test/kotlin/pw/dotdash/configurate/serialization/ValuesTest.kt:76-82 | An explicit null, or an absent node, under a nullable schema decodes to null. Under a primitive schema it fails. |
| Decoding.Settle | src/test/kotlin/pw/dotdash/configurate/serialization/ValuesTest.kt:60-74 | After the cursor loop, every read field keeps its value and every unread field takes its default. Settling succeeds exactly when every unread field has a default. Otherwise the error names the first field, in declaration order, that was not read and has no default. |
| Decoding.Parse | src/main/kotlin/pw/dotdash/configurate/serialization/ConfigurationNodeParser.kt:19-20 | At the root (empty tag stack) an object decodes. A list, map or primitive has no current tag and fails. |
| Denotation.RecordKeepsDefaults | src/test/kotlin/pw/dotdash/configurate/serialization/ValuesTest.kt:60-74 | A class decodes exactly when every present field decodes and every absent field has a default. An absent field then holds its default, and a present field holds what its node decodes to. |
| Denotation.ListKeepsOrderAndCount | src/test/kotlin/pw/dotdash/configurate/serialization/ObjectsTest.kt:117-123 | A list yields one element per child, in the children's order. It fails exactly when some child fails. |
| Denotation.MapReproducesEntries | src/test/kotlin/pw/dotdash/configurate/serialization/ObjectsTest.kt:132-137 | A map yields one pair per entry, in order: the key is decoded from a leaf holding the entry's key, the value from its child. It fails exactly when some key or value fails. |
| Agreement.FetchIsAddressed | src/main/kotlin/pw/dotdash/configurate/serialization/ConfigurationNodeParser.kt:134-176 | For a dot-free tag, fetching by the split path reaches the node the one-key probe reaches. A list reader's tag fetches the child at that position. Either way it is the node the reference decoder reads. |
| Agreement.FetchComposed | src/main/kotlin/pw/dotdash/configurate/serialization/ConfigurationNodeParser.kt:128-135 | A nested field's tag `parent.child` fetches the child named `child` of the node the parent's tag fetches. A root field's tag is the bare name. |
| Agreement.ProbeIsFieldNode | src/main/kotlin/pw/dotdash/configurate/serialization/ConfigurationNodeParser.kt:118-122 | The cursor's presence probe `node.getNode(name)` is non-virtual exactly when the reference decoder's field node is. |
| Agreement.ValueAgrees | src/main/kotlin/pw/dotdash/configurate/serialization/ConfigurationNodeParser.kt:115-217 | `Decoding.DecodeValue`: for dot-free field names and scalar map keys, decoding at any tag of any reader gives the reference decoding of the addressed node. This includes errors. |
| Agreement.FieldsAgree | src/main/kotlin/pw/dotdash/configurate/serialization/ConfigurationNodeParser.kt:118-126 | `Decoding.DecodeFields`: the record cursor loop plus defaults gives the same result as reading every present field in declaration order, then settling. |
| Agreement.ItemsAgree | src/main/kotlin/pw/dotdash/configurate/serialization/ConfigurationNodeParser.kt:171-176 | `Decoding.DecodeItems`: the list cursor loop decodes the remaining children in order, the same as the reference. |
| Agreement.EntriesAgree | src/main/kotlin/pw/dotdash/configurate/serialization/ConfigurationNodeParser.kt:209-217 | `Decoding.DecodeEntries`: the map cursor loop (key at 2i, value at 2i+1) decodes the remaining entries in order, the same as the reference. |
| Agreement.ParseAgrees | src/main/kotlin/pw/dotdash/configurate/serialization/ConfigurationNodeParser.kt:19-20 | Parsing a class from the root equals the reference decoding of the root. |
| Agreement.ParseKeepsDefaults | src/test/kotlin/pw/dotdash/configurate/serialization/ValuesTest.kt:60-74 | `parse` keeps every absent field's default and takes every present field from the tree. It fails exactly when a present field fails or an absent field has no default. |
| Agreement.DecodedListKeepsOrder | src/test/kotlin/pw/dotdash/configurate/serialization/ObjectsTest.kt:117-123 | A list read by the decoder has one element per child, in order. It fails exactly when a child fails. |
| Agreement.DecodedMapReproducesEntries | src/test/kotlin/pw/dotdash/configurate/serialization/ObjectsTest.kt:132-137 | A map read by the decoder reproduces every entry in order. It fails exactly when some key or value fails. |
| TestCases.DefaultsKept | src/test/kotlin/pw/dotdash/configurate/serialization/ValuesTest.kt:60-66 | An empty configuration parses `WithDefault` to its defaults, `5` and `"foo"`. |
| TestCases.DefaultsOverridden | src/test/kotlin/pw/dotdash/configurate/serialization/ValuesTest.kt:68-74 | `i = 42, s = bar` parses `WithDefault` to `42` and `"bar"`. The tree's values override the defaults. |
| TestCases.NullableRead | src/test/kotlin/pw/dotdash/configurate/serialization/ValuesTest.kt:76-82 | `i = 10, s = null` parses `WithNullable` to `10` and `null`. The loader drops the null, so `s` is absent and takes its default. |
| TestCases.ExplicitNullRead | src/test/kotlin/pw/dotdash/configurate/serialization/ValuesTest.kt:76-82 | A tree that keeps `s` as an explicit null leaf parses to the same `10` and `null`. Here `s` is present and its null mark is false. |
| TestCases.ListKept | src/test/kotlin/pw/dotdash/configurate/serialization/ObjectsTest.kt:117-123 | `a = 42, b = [1, 2, 3,]` parses `WithList` to `42` and the list `1, 2, 3`, in order. |
| TestCases.MapKept | src/test/kotlin/pw/dotdash/configurate/serialization/ObjectsTest.kt:132-137 | `x = { a = 42, b = 43, c = 44 }` parses `WithMap` to the three entries, in order. |

## Left out

- Float and double decoding (lines 85-95): the value is whatever the
  `asFloat`/`asDouble` coercion gives, as a `real`. IEEE rounding is not
  modelled.
- Coercions: configurate's `Types::asInt`, `asLong`, `asBoolean`, `asFloat`,
  `asDouble` and `node.string` are library code. They are the `Coercions`
  parameter, and every property holds for every choice of them.
- Configurate's tree: `getNode`, `childrenList` and `childrenMap` are plain
  functions on the `Node` datatype. A map's keys are modelled as strings,
  so `it.key.toString()` (line 187) is the identity here. HOCON parsing and
  the test loader (ObjectsTest.kt lines 11-17) and build.gradle.kts are
  outside the model.
- Polymorphic kinds (lines 139, 157, 195): not modelled. The discriminator
  handling lives in kotlinx-serialization, and `descriptor is PolymorphicKind`
  compares the descriptor object, not its kind.
- The `else -> this` branch of `beginStructure` (lines 148, 166, 204): in
  this model only lists, maps, classes and objects open a structure, so that
  branch is never reached.
- kotlinx-serialization's tag stack: the decoder is a recursive function.
  Whenever a record reader enumerates its elements, its tag stack is empty,
  so `composeName` always sees the empty parent there (`RecordTag(None, _)`).
  The decoder always passes the current tag explicitly.
- `SerialModule` context, the reflection-based `parse<T>()` (lines 15-17,
  221-223) and the companion's `parse` (lines 225-226): the last is `Parse`
  with a fresh parser, and the first two only look up a serializer.
- Exception messages: only the kind of failure is kept, as a `DecodeError`
  case.
- Building Kotlin collections: a decoded map is the sequence of its decoded
  pairs. Merging of equal decoded keys into a `LinkedHashMap` is not
  modelled.
- Agreement.ValueAgrees: proved only for schemas whose field names contain
  no '.' and whose map keys are scalars (`Plain`). For a dotted field name,
  the presence probe (one key) and the fetch (split path) look at different
  nodes. The decoder models that behaviour, but no agreement is claimed for
  it.
- Decoding.DecodeEntries: the map serializer's check that the value index is
  the key index plus one is modelled as a `MisalignedEntry` error.
  `EntriesAgree` shows it never fires.
- The other decoding tests are not replayed as concrete examples: numbers,
  string types, other types, complex nullable values, `complex config`,
  `very complex config`, `config with object` and `config with nested
  object`. Several of them read floats. The general properties above cover
  the rest.
- Coercion.DecodeChar: a string is a sequence of Unicode scalar values, not
  of Kotlin's UTF-16 code units. The source's length test (line 44) counts
  code units, so a single supplementary-plane character such as U+1F600 is
  rejected there and accepted here. Strings holding lone surrogates cannot
  be represented at all.
