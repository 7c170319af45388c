/** The primitive rules of `NodeDecoder` (ConfigurationNodeParser.kt lines
    29-112): how a single node becomes a string, char, boolean, integer,
    floating value, enum ordinal or raw value, and when that fails.

    The library coercions the parser calls through `node.getValue(Types::asX,
    null)` and `node.string` are not visible here, so they are a parameter:
    a `Coercions` record of total functions from a raw value to an optional
    result. Every rule below is stated for every choice of coercions.
 */
module Coercion {
  import opened Results
  import opened ConfigTree
  import opened Shapes

  /** `Types::asString`, `asBoolean`, `asInt`, `asLong`, `asFloat`, `asDouble`. */
  datatype Coercions = Coercions(
    asString: Value -> Option<string>,
    asBoolean: Value -> Option<bool>,
    asInt: Value -> Option<Int32>,
    asLong: Value -> Option<Int64>,
    asFloat: Value -> Option<real>,
    asDouble: Value -> Option<real>)

  /** `node.getValue(transform, null)`: a node without a value has no view. */
  function View<T>(n: Node, transform: Value -> Option<T>): Option<T> {
    match RawValue(n)
    case None => None
    case Some(v) => transform(v)
  }

  /** `getCheckedString`. */
  function CheckedString(c: Coercions, n: Node): Result<string> {
    match View(n, c.asString)
    case Some(s) => Ok(s)
    case None => Err(NotAString)
  }

  /** `getCheckedInt`. */
  function CheckedInt(c: Coercions, n: Node): Result<Int32> {
    match View(n, c.asInt)
    case Some(i) => Ok(i)
    case None => Err(NotAnInt)
  }

  /** `decodeTaggedString`: fails exactly when the node has no string view. */
  function DecodeString(c: Coercions, n: Node): (r: Result<string>)
    ensures r.Err? <==> View(n, c.asString).None?
    ensures r.Ok? ==> Some(r.value) == View(n, c.asString)
  {
    CheckedString(c, n)
  }

  /** `decodeTaggedChar`: succeeds exactly on a one-character string view and
      yields that character. */
  function DecodeChar(c: Coercions, n: Node): (r: Result<char>)
    ensures r.Ok? <==> View(n, c.asString).Some? && |View(n, c.asString).value| == 1
    ensures r.Ok? ==> View(n, c.asString) == Some([r.value])
  {
    var str :- CheckedString(c, n);
    if |str| != 1 then Err(NotAChar) else assert str == [str[0]]; Ok(str[0])
  }

  /** `decodeTaggedBoolean`. */
  function DecodeBoolean(c: Coercions, n: Node): (r: Result<bool>)
    ensures r.Err? <==> View(n, c.asBoolean).None?
    ensures r.Ok? ==> Some(r.value) == View(n, c.asBoolean)
  {
    match View(n, c.asBoolean)
    case Some(b) => Ok(b)
    case None => Err(NotABoolean)
  }

  /** `decodeTaggedByte`: succeeds exactly when the integer view lies in
      [-128, 127], and then yields that same integer. */
  function DecodeByte(c: Coercions, n: Node): (r: Result<Int8>)
    ensures r.Ok? <==> View(n, c.asInt).Some? && -0x80 <= View(n, c.asInt).value <= 0x7f
    ensures r.Ok? ==> View(n, c.asInt) == Some(r.value as Int32)
  {
    var i :- CheckedInt(c, n);
    if !(-0x80 <= i <= 0x7f) then Err(OutOfByteRange) else Ok(i as Int8)
  }

  /** `decodeTaggedShort`: succeeds exactly when the integer view lies in
      [-32768, 32767], and then yields that same integer. */
  function DecodeShort(c: Coercions, n: Node): (r: Result<Int16>)
    ensures r.Ok? <==> View(n, c.asInt).Some? && -0x8000 <= View(n, c.asInt).value <= 0x7fff
    ensures r.Ok? ==> View(n, c.asInt) == Some(r.value as Int32)
  {
    var i :- CheckedInt(c, n);
    if !(-0x8000 <= i <= 0x7fff) then Err(OutOfShortRange) else Ok(i as Int16)
  }

  /** `decodeTaggedInt`: fails exactly when the node is not integer-like. */
  function DecodeInt(c: Coercions, n: Node): (r: Result<Int32>)
    ensures r.Err? <==> View(n, c.asInt).None?
    ensures r.Ok? ==> Some(r.value) == View(n, c.asInt)
  {
    CheckedInt(c, n)
  }

  /** `decodeTaggedLong`. */
  function DecodeLong(c: Coercions, n: Node): (r: Result<Int64>)
    ensures r.Err? <==> View(n, c.asLong).None?
    ensures r.Ok? ==> Some(r.value) == View(n, c.asLong)
  {
    match View(n, c.asLong)
    case Some(l) => Ok(l)
    case None => Err(NotALong)
  }

  /** The position of the first case called `name`, if there is one. */
  function IndexOf(cases: seq<string>, name: string): (r: Option<nat>)
    ensures r.None? <==> name !in cases
    ensures r.Some? ==> r.value < |cases| && cases[r.value] == name
    ensures r.Some? ==> forall j :: 0 <= j < r.value ==> cases[j] != name
    decreases |cases|
  {
    if cases == [] then None
    else if cases[0] == name then Some(0)
    else
      match IndexOf(cases[1..], name)
      case None => None
      case Some(k) => Some(k + 1)
  }

  /** `decodeTaggedEnum`: the ordinal of the case whose name is the node's
      string view; fails when there is no string view or no such case. */
  function DecodeEnum(c: Coercions, n: Node, cases: seq<string>): (r: Result<nat>)
    ensures r.Ok? <==> View(n, c.asString).Some? && View(n, c.asString).value in cases
    ensures r.Ok? ==> r.value < |cases| && Some(cases[r.value]) == View(n, c.asString)
    ensures r.Ok? ==> forall j :: 0 <= j < r.value ==> Some(cases[j]) != View(n, c.asString)
  {
    var name :- CheckedString(c, n);
    match IndexOf(cases, name)
    case Some(i) => Ok(i)
    case None => Err(UnknownEnumCase)
  }

  /** `decodeTaggedNotNullMark`: is there a value to decode at all? Every
      node but an absent one and an explicit null is marked. */
  function NotNullMark(n: Node): (marked: bool)
    ensures marked <==> !n.Virtual? && n != Leaf(None)
  {
    !IsVirtual(n) && RawValue(n).Some?
  }

  /** `decodeTaggedValue`: the raw value itself; fails exactly when absent. */
  function DecodeAny(n: Node): (r: Result<Value>)
    ensures r.Err? <==> !NotNullMark(n)
    ensures r.Ok? ==> Some(r.value) == RawValue(n)
  {
    match RawValue(n)
    case Some(v) => Ok(v)
    case None => Err(NoValue)
  }

  /** The primitive dispatch of `TaggedDecoder`: one `decodeTagged*` per kind.
      No primitive can be read from a node that has no value. */
  function DecodePrimitive(c: Coercions, n: Node, p: Primitive): (r: Result<Decoded>)
    ensures !NotNullMark(n) ==> r.Err?
  {
    match p
    case PString => var s :- DecodeString(c, n); Ok(DString(s))
    case PChar => var ch :- DecodeChar(c, n); Ok(DChar(ch))
    case PBoolean => var b :- DecodeBoolean(c, n); Ok(DBoolean(b))
    case PByte => var b :- DecodeByte(c, n); Ok(DByte(b))
    case PShort => var s :- DecodeShort(c, n); Ok(DShort(s))
    case PInt => var i :- DecodeInt(c, n); Ok(DInt(i))
    case PLong => var l :- DecodeLong(c, n); Ok(DLong(l))
    case PFloat =>
      (match View(n, c.asFloat) case Some(x) => Ok(DFloat(x)) case None => Err(NotAFloat))
    case PDouble =>
      (match View(n, c.asDouble) case Some(x) => Ok(DDouble(x)) case None => Err(NotADouble))
    case PAny => var v :- DecodeAny(n); Ok(DAny(v))
  }

  /** The narrow integer kinds are views of the int kind: a node that decodes
      as a byte decodes as a short and as an int to the same number, and one
      that decodes as a short decodes as an int to the same number. */
  lemma NarrowIntegersAgree(c: Coercions, n: Node)
    ensures DecodeByte(c, n).Ok? ==>
      DecodeShort(c, n) == Ok(DecodeByte(c, n).value as Int16)
      && DecodeInt(c, n) == Ok(DecodeByte(c, n).value as Int32)
    ensures DecodeShort(c, n).Ok? ==> DecodeInt(c, n) == Ok(DecodeShort(c, n).value as Int32)
  {
  }
}
