/** A reference decoder that reads the tree directly, without readers,
    cursors or tags: a field is looked up by its name, a list element by its
    position, a map entry by its place in the child mapping. It is the
    meaning the reader-driven decoder is measured against, and the place
    where the promised properties (defaults kept, present fields override
    them, order and count preserved, every map entry reproduced) are proved.
 */
module Denotation {
  import opened Results
  import opened ConfigTree
  import opened Shapes
  import opened Coercion
  import opened Decoding

  function Denote(c: Coercions, n: Node, s: Schema): Result<Decoded>
    decreases s, 1
  {
    match s
    case Prim(p) => DecodePrimitive(c, n, p)
    case Enum(cases) => var i :- DecodeEnum(c, n, cases); Ok(DEnum(i))
    case Nullable(inner) => if NotNullMark(n) then Denote(c, n, inner) else Ok(DNull)
    case Singleton => Ok(DObject)
    case Record(fields) =>
      var got :- DenoteFields(c, n, s, 0, Unread(|fields|));
      Finish(fields, got)
    case ListOf(_) =>
      var items :- DenoteList(c, ChildrenList(n), s); Ok(DList(items))
    case MapOf(_, _) =>
      var pairs :- DenoteMap(c, ChildrenMap(n), s); Ok(DMap(pairs))
  }

  /** The child a field is stored under. */
  function FieldNode(n: Node, f: Field): Node {
    GetKey(n, f.name)
  }

  /** Read, in declaration order from field `i` on, every field that is
      present in the tree; absent fields stay unread. */
  function DenoteFields(c: Coercions, n: Node, s: Schema, i: nat, got: seq<Option<Decoded>>)
    : (r: Result<seq<Option<Decoded>>>)
    requires s.Record? && |got| == |s.fields|
    ensures r.Ok? ==> |r.value| == |got|
    decreases s, 0, |s.fields| - i
  {
    if i >= |s.fields| then Ok(got)
    else if IsVirtual(FieldNode(n, s.fields[i])) then DenoteFields(c, n, s, i + 1, got)
    else
      var v :- Denote(c, FieldNode(n, s.fields[i]), s.fields[i].schema);
      DenoteFields(c, n, s, i + 1, got[i := Some(v)])
  }

  /** Each item with the list's element schema, left to right. */
  function DenoteList(c: Coercions, items: seq<Node>, s: Schema): Result<seq<Decoded>>
    requires s.ListOf?
    decreases s, 0, |items|
  {
    if items == [] then Ok([])
    else
      var head :- Denote(c, items[0], s.element);
      var tail :- DenoteList(c, items[1..], s);
      Ok([head] + tail)
  }

  /** Each entry's key (as a leaf holding the key) and value, left to right. */
  function DenoteMap(c: Coercions, entries: seq<Entry>, s: Schema): Result<seq<Pair>>
    requires s.MapOf?
    decreases s, 0, |entries|
  {
    if entries == [] then Ok([])
    else
      var k :- Denote(c, KeyLeaf(entries[0].key), s.key);
      var v :- Denote(c, entries[0].child, s.value);
      var tail :- DenoteMap(c, entries[1..], s);
      Ok([Pair(k, v)] + tail)
  }

  // ---------------------------------------------------------------------------
  // Properties of the reference decoder

  /** The field loop from `i` on reads exactly the present fields, and fails
      exactly when one of them fails to decode. */
  lemma {:induction false} DenoteFieldsReadsPresentFields(
    c: Coercions, n: Node, s: Schema, i: nat, got: seq<Option<Decoded>>)
    requires s.Record? && |got| == |s.fields|
    requires forall j :: i <= j < |s.fields| ==> got[j].None?
    ensures DenoteFields(c, n, s, i, got).Ok? <==>
      forall j :: i <= j < |s.fields| && !IsVirtual(FieldNode(n, s.fields[j])) ==>
        Denote(c, FieldNode(n, s.fields[j]), s.fields[j].schema).Ok?
    ensures DenoteFields(c, n, s, i, got).Ok? ==> forall j :: 0 <= j < |s.fields| ==>
      DenoteFields(c, n, s, i, got).value[j] ==
        if j < i then got[j]
        else if IsVirtual(FieldNode(n, s.fields[j])) then None
        else Some(Denote(c, FieldNode(n, s.fields[j]), s.fields[j].schema).value)
    decreases |s.fields| - i
  {
    if i < |s.fields| {
      var f := s.fields[i];
      var d := Denote(c, FieldNode(n, f), f.schema);
      if IsVirtual(FieldNode(n, f)) {
        assert DenoteFields(c, n, s, i, got) == DenoteFields(c, n, s, i + 1, got);
        DenoteFieldsReadsPresentFields(c, n, s, i + 1, got);
      } else if d.Ok? {
        var next := got[i := Some(d.value)];
        assert DenoteFields(c, n, s, i, got) == DenoteFields(c, n, s, i + 1, next);
        assert forall j :: 0 <= j < |s.fields| ==> next[j] == if j == i then Some(d.value) else got[j];
        DenoteFieldsReadsPresentFields(c, n, s, i + 1, next);
      } else {
        assert DenoteFields(c, n, s, i, got) == Err(d.error);
      }
    }
  }

  /** Defaults and overrides. A class decodes exactly when every present
      field decodes and every absent field has a default; then an absent
      field holds its default and a present one holds what its node decodes
      to, whatever the default. */
  lemma RecordKeepsDefaults(c: Coercions, n: Node, fields: seq<Field>)
    ensures Denote(c, n, Record(fields)).Ok? <==>
      (forall j :: 0 <= j < |fields| && !IsVirtual(FieldNode(n, fields[j])) ==>
        Denote(c, FieldNode(n, fields[j]), fields[j].schema).Ok?)
      && (forall j :: 0 <= j < |fields| && IsVirtual(FieldNode(n, fields[j])) ==> fields[j].default.Some?)
    ensures Denote(c, n, Record(fields)).Ok? ==>
      var d := Denote(c, n, Record(fields)).value;
      d.DRecord? && |d.fieldValues| == |fields|
      && (forall j :: 0 <= j < |fields| && IsVirtual(FieldNode(n, fields[j])) ==>
            d.fieldValues[j] == fields[j].default.value)
      && (forall j :: 0 <= j < |fields| && !IsVirtual(FieldNode(n, fields[j])) ==>
            Denote(c, FieldNode(n, fields[j]), fields[j].schema) == Ok(d.fieldValues[j]))
  {
    var s := Record(fields);
    DenoteFieldsReadsPresentFields(c, n, s, 0, Unread(|fields|));
  }

  /** A list decodes to exactly one value per child, in the children's order,
      and fails exactly when some child fails. */
  lemma {:induction false} ListKeepsOrderAndCount(c: Coercions, items: seq<Node>, s: Schema)
    requires s.ListOf?
    ensures DenoteList(c, items, s).Ok? <==> forall i :: 0 <= i < |items| ==> Denote(c, items[i], s.element).Ok?
    ensures DenoteList(c, items, s).Ok? ==>
      |DenoteList(c, items, s).value| == |items|
      && forall i :: 0 <= i < |items| ==> Denote(c, items[i], s.element) == Ok(DenoteList(c, items, s).value[i])
    decreases |items|
  {
    if items != [] {
      ListKeepsOrderAndCount(c, items[1..], s);
      assert forall i :: 1 <= i < |items| ==> items[i] == items[1..][i - 1];
    }
  }

  /** A map decodes to one pair per entry, in the entries' order: the key
      decoded from a leaf holding the entry's key, the value from the
      entry's child. It fails exactly when some key or value fails. */
  lemma {:induction false} MapReproducesEntries(c: Coercions, entries: seq<Entry>, s: Schema)
    requires s.MapOf?
    ensures DenoteMap(c, entries, s).Ok? <==> forall i :: 0 <= i < |entries| ==>
      Denote(c, KeyLeaf(entries[i].key), s.key).Ok? && Denote(c, entries[i].child, s.value).Ok?
    ensures DenoteMap(c, entries, s).Ok? ==>
      |DenoteMap(c, entries, s).value| == |entries|
      && forall i :: 0 <= i < |entries| ==>
        Denote(c, KeyLeaf(entries[i].key), s.key) == Ok(DenoteMap(c, entries, s).value[i].first)
        && Denote(c, entries[i].child, s.value) == Ok(DenoteMap(c, entries, s).value[i].second)
    decreases |entries|
  {
    if entries != [] {
      MapReproducesEntries(c, entries[1..], s);
      assert forall i :: 1 <= i < |entries| ==> entries[i] == entries[1..][i - 1];
    }
  }

  /** The null mark: an explicit null and an absent node both read as "no
      value" under a nullable schema, while no primitive can be read from
      them without one. */
  lemma NullReadsAsNoValue(c: Coercions, n: Node, inner: Schema, p: Primitive)
    requires n.Virtual? || n == Leaf(None)
    ensures Denote(c, n, Nullable(inner)) == Ok(DNull)
    ensures Denote(c, n, Prim(p)).Err?
  {
  }
}
