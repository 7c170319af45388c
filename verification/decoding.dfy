/** The decoder: the readers of ConfigurationNodeParser.kt driven against a
    schema, as a small recursive function instead of kotlinx's `TaggedDecoder`
    tag stack and generated serializers.

    A nested value is read at a tag of the current reader. A primitive, enum
    or null mark fetches the node for the tag; a structure asks the reader to
    `Begin` a nested reader and drives it: a class's cursor over its present
    fields followed by the defaults for the absent ones, a list's cursor over
    its positions, a map's cursor over alternating key and value positions.
 */
module Decoding {
  import opened Results
  import opened ConfigTree
  import opened Shapes
  import opened Coercion
  import opened Cursors

  /** One slot per field, none of them read yet. */
  function Unread(n: nat): (got: seq<Option<Decoded>>)
    ensures |got| == n && forall i :: 0 <= i < n ==> got[i].None?
  {
    seq(n, _ => None)
  }

  /** What a class serializer does once its cursor is done: every field that
      was read keeps the value read, every other field takes its declared
      default, and an unread field without a default is a `MissingField`
      error (the first such field in declaration order). */
  function Settle(fields: seq<Field>, got: seq<Option<Decoded>>): (r: Result<seq<Decoded>>)
    requires |got| == |fields|
    ensures r.Ok? <==> forall i :: 0 <= i < |fields| ==> got[i].Some? || fields[i].default.Some?
    ensures r.Ok? ==> |r.value| == |fields|
    ensures r.Ok? ==> forall i :: 0 <= i < |fields| ==>
      r.value[i] == if got[i].Some? then got[i].value else fields[i].default.value
    ensures r.Err? ==>
      exists i :: 0 <= i < |fields| && FirstMissing(fields, got, i) && r.error == MissingField(fields[i].name)
    decreases |fields|
  {
    if fields == [] then Ok([])
    else
      var head :-
        if got[0].Some? then Ok(got[0].value)
        else if fields[0].default.Some? then Ok(fields[0].default.value)
        else assert FirstMissing(fields, got, 0); Err(MissingField(fields[0].name));
      var tail := Settle(fields[1..], got[1..]);
      assert forall i :: 1 <= i < |fields| ==> fields[i] == fields[1..][i - 1] && got[i] == got[1..][i - 1];
      if tail.Err? then
        assert exists i :: 0 <= i < |fields| && FirstMissing(fields, got, i)
          && tail.error == MissingField(fields[i].name) by {
          var k :| 0 <= k < |fields| - 1 && FirstMissing(fields[1..], got[1..], k)
            && tail.error == MissingField(fields[1..][k].name);
          FirstMissingShifts(fields, got, k);
        }
        Err(tail.error)
      else Ok([head] + tail.value)
  }

  /** A first missing field after a field that settles is the first missing
      field of the longer sequence too, one position later. */
  lemma FirstMissingShifts(fields: seq<Field>, got: seq<Option<Decoded>>, k: int)
    requires |got| == |fields| && 0 <= k < |fields| - 1
    requires got[0].Some? || fields[0].default.Some?
    requires FirstMissing(fields[1..], got[1..], k)
    ensures FirstMissing(fields, got, k + 1)
  {
    forall j | 0 < j <= k ensures got[j].Some? || fields[j].default.Some? {
      assert got[j] == got[1..][j - 1] && fields[j] == fields[1..][j - 1];
    }
  }

  /** Field `i` is unread, has no default, and is the first such field. */
  predicate FirstMissing(fields: seq<Field>, got: seq<Option<Decoded>>, i: int)
    requires |got| == |fields| && 0 <= i < |fields|
  {
    got[i].None? && fields[i].default.None?
    && forall j :: 0 <= j < i ==> got[j].Some? || fields[j].default.Some?
  }

  /** The class value once the fields are settled. */
  function Finish(fields: seq<Field>, got: seq<Option<Decoded>>): Result<Decoded>
    requires |got| == |fields|
  {
    var values :- Settle(fields, got); Ok(DRecord(values))
  }

  /** Decode a value of schema `s` at tag `current` of reader `r`. */
  function DecodeValue(c: Coercions, r: Reader, current: Option<Tag>, s: Schema): Result<Decoded>
    requires Valid(r) && (current.Some? ==> Fits(r, current.value))
    decreases s, 1, 0
  {
    match s
    case Prim(p) =>
      if current.None? then Err(NoCurrentTag) else DecodePrimitive(c, Fetch(r, current.value), p)
    case Enum(cases) =>
      if current.None? then Err(NoCurrentTag)
      else var i :- DecodeEnum(c, Fetch(r, current.value), cases); Ok(DEnum(i))
    case Nullable(inner) =>
      if current.None? then Err(NoCurrentTag)
      else if NotNullMark(Fetch(r, current.value)) then DecodeValue(c, r, current, inner)
      else Ok(DNull)
    case Singleton =>
      var _ :- Begin(r, current, ObjectShape); Ok(DObject)
    case Record(fields) =>
      var sub :- Begin(r, current, ClassShape);
      DecodeFields(c, sub, s, Unread(|fields|))
    case ListOf(_) =>
      var sub :- Begin(r, current, ListShape);
      DecodeItems(c, sub, s, [])
    case MapOf(_, _) =>
      var sub :- Begin(r, current, MapShape);
      DecodeEntries(c, sub, s, [])
  }

  /** The class serializer's loop: read the element the record cursor
      returns, at the element's tag, until `ReadDone`; then settle defaults. */
  function DecodeFields(c: Coercions, r: Reader, s: Schema, got: seq<Option<Decoded>>): Result<Decoded>
    requires s.Record? && r.RecordReader? && r.index >= -1 && |got| == |s.fields|
    decreases s, 0, |s.fields| - r.index
  {
    var st := RecordNext(r, Names(s.fields));
    if st.index == ReadDone then Finish(s.fields, got)
    else
      var i := st.index;
      var tag := Path(RecordTag(None, s.fields[i].name));
      var v :- DecodeValue(c, st.reader, Some(tag), s.fields[i].schema);
      DecodeFields(c, st.reader, s, got[i := Some(v)])
  }

  /** The list serializer's loop: read every position the list cursor returns. */
  function DecodeItems(c: Coercions, r: Reader, s: Schema, acc: seq<Decoded>): Result<Decoded>
    requires s.ListOf? && r.ListReader? && Valid(r)
    decreases s, 0, Size(r) - r.index
  {
    var st := SeqNext(r);
    if st.index == ReadDone then Ok(DList(acc))
    else
      var v :- DecodeValue(c, st.reader, Some(Pos(st.index)), s.element);
      DecodeItems(c, st.reader, s, acc + [v])
  }

  /** The map serializer's loop: a key at the index the cursor returns, then
      the value at the next index, which must be the key's index plus one. */
  function DecodeEntries(c: Coercions, r: Reader, s: Schema, acc: seq<Pair>): Result<Decoded>
    requires s.MapOf? && r.MapReader? && Valid(r)
    decreases s, 0, Size(r) - r.index
  {
    var st := SeqNext(r);
    if st.index == ReadDone then Ok(DMap(acc))
    else
      var k :- DecodeValue(c, st.reader, Some(Pos(st.index)), s.key);
      var st2 := SeqNext(st.reader);
      if st2.index != st.index + 1 then Err(MisalignedEntry)
      else
        var v :- DecodeValue(c, st2.reader, Some(Pos(st2.index)), s.value);
        DecodeEntries(c, st2.reader, s, acc + [Pair(k, v)])
  }

  /** `ConfigurationNodeParser.parse(node, deserializer)`: a record reader over
      the root with an empty tag stack. Only a class or object can be read
      there; anything else needs a current tag and fails. */
  function Parse(c: Coercions, root: Node, s: Schema): (r: Result<Decoded>)
    ensures !(s.Record? || s.Singleton?) ==> r == Err(NoCurrentTag)
    ensures s.Singleton? ==> r == Ok(DObject)
  {
    DecodeValue(c, RecordReader(root, -1), None, s)
  }
}
