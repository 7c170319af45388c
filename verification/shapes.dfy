/** The schema the decoder follows (a `SerialDescriptor` with its element
    serializers) and the typed values it produces. */
module Shapes {
  import opened Results
  import opened Paths
  import opened ConfigTree

  /** Kotlin's fixed-width integer types, written out. */
  type Int8 = i: int | -0x80 <= i <= 0x7f
  type Int16 = i: int | -0x8000 <= i <= 0x7fff
  type Int32 = i: int | -0x8000_0000 <= i <= 0x7fff_ffff
  type Int64 = i: int | -0x8000_0000_0000_0000 <= i <= 0x7fff_ffff_ffff_ffff

  /** The primitive kinds a `decodeTagged*` method reads; `PAny` is
      `decodeTaggedValue`. */
  datatype Primitive = PString | PChar | PBoolean | PByte | PShort | PInt | PLong | PFloat | PDouble | PAny

  /** A descriptor: primitive, enum (with its case names), nullable wrapper,
      `object` singleton, class with named fields, list, or map. */
  datatype Schema =
    | Prim(primitive: Primitive)
    | Enum(cases: seq<string>)
    | Nullable(inner: Schema)
    | Singleton
    | Record(fields: seq<Field>)
    | ListOf(element: Schema)
    | MapOf(key: Schema, value: Schema)

  /** A class property: its serial name, its schema and its declared default. */
  datatype Field = Field(name: string, schema: Schema, default: Option<Decoded>)

  /** A decoded value. Floating values are kept as reals: the rounding done
      by the float coercions is not part of this model. */
  datatype Decoded =
    | DString(str: string)
    | DChar(ch: char)
    | DBoolean(flag: bool)
    | DByte(byteValue: Int8)
    | DShort(shortValue: Int16)
    | DInt(intValue: Int32)
    | DLong(longValue: Int64)
    | DFloat(floatValue: real)
    | DDouble(doubleValue: real)
    | DEnum(ordinal: nat)
    | DAny(raw: Value)
    | DNull
    | DObject
    | DRecord(fieldValues: seq<Decoded>)
    | DList(elements: seq<Decoded>)
    | DMap(pairs: seq<Pair>)

  datatype Pair = Pair(first: Decoded, second: Decoded)

  /** The structure kinds `beginStructure` distinguishes. */
  datatype Structure = ListShape | ClassShape | ObjectShape | MapShape {
    predicate IsClassLike() {
      ClassShape? || ObjectShape?
    }
  }

  /** The element names of a class descriptor, in declaration order. */
  function Names(fields: seq<Field>): (names: seq<string>)
    ensures |names| == |fields|
    ensures forall i :: 0 <= i < |fields| ==> names[i] == fields[i].name
  {
    seq(|fields|, i requires 0 <= i < |fields| => fields[i].name)
  }

  /** Schemas read from a single node without opening a structure: what a
      map key may be. */
  predicate IsScalar(s: Schema) {
    match s
    case Prim(_) => true
    case Enum(_) => true
    case Nullable(inner) => IsScalar(inner)
    case _ => false
  }

  /** The schemas on which path addressing and key addressing agree: no field
      name contains the separator, and every map key is a scalar. */
  predicate Plain(s: Schema) {
    match s
    case Nullable(inner) => Plain(inner)
    case Record(fields) =>
      forall i :: 0 <= i < |fields| ==> Separator !in fields[i].name && Plain(fields[i].schema)
    case ListOf(e) => Plain(e)
    case MapOf(k, v) => IsScalar(k) && Plain(k) && Plain(v)
    case _ => true
  }
}
