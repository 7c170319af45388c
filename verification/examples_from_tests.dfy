/** The repository's decoding tests, replayed on the model with coercions
    that read numbers, text and booleans the way the HOCON loader stores
    them. Each lemma decodes the tree a test's configuration string loads
    into and states the value the test expects. */
module TestCases {
  import opened Results
  import opened ConfigTree
  import opened Shapes
  import opened Coercion
  import opened Cursors
  import opened Decoding
  import opened Denotation
  import opened Agreement

  /** A scalar integer as an `Int32`, when it fits. */
  function AsInt(v: Value): Option<Int32> {
    if v.Scalar? && v.scalar.Number? && -0x8000_0000 <= v.scalar.number <= 0x7fff_ffff
    then Some(v.scalar.number as Int32) else None
  }

  /** A scalar integer as an `Int64`, when it fits. */
  function AsLong(v: Value): Option<Int64> {
    if v.Scalar? && v.scalar.Number? && -0x8000_0000_0000_0000 <= v.scalar.number <= 0x7fff_ffff_ffff_ffff
    then Some(v.scalar.number as Int64) else None
  }

  function AsString(v: Value): Option<string> {
    if v.Scalar? && v.scalar.Text? then Some(v.scalar.text) else None
  }

  function AsBoolean(v: Value): Option<bool> {
    if v.Scalar? && v.scalar.Truth? then Some(v.scalar.truth) else None
  }

  function AsReal(v: Value): Option<real> {
    if v.Scalar? && v.scalar.Fraction? then Some(v.scalar.fraction)
    else if v.Scalar? && v.scalar.Number? then Some(v.scalar.number as real)
    else None
  }

  const Loader: Coercions := Coercions(AsString, AsBoolean, AsInt, AsLong, AsReal, AsReal)

  function Num(n: int): Node { Leaf(Some(Number(n))) }

  function Txt(t: string): Node { Leaf(Some(Text(t))) }

  /** `data class WithDefault(val i: Int = 5, val s: String = "foo")`. */
  const WithDefault: Schema :=
    Record([Field("i", Prim(PInt), Some(DInt(5))), Field("s", Prim(PString), Some(DString("foo")))])

  /** Settling with nothing read takes both defaults. */
  lemma SettleTakesDefaults()
    ensures Settle(WithDefault.fields, [None, None]) == Ok([DInt(5), DString("foo")])
  {
    var r := Settle(WithDefault.fields, [None, None]);
    assert r.Ok? && |r.value| == 2;
    assert r.value[0] == DInt(5) && r.value[1] == DString("foo");
    assert r.value == [DInt(5), DString("foo")];
  }

  /** Settling with both fields read keeps what was read. */
  lemma SettleKeepsReads(a: Decoded, b: Decoded)
    ensures Settle(WithDefault.fields, [Some(a), Some(b)]) == Ok([a, b])
  {
    var r := Settle(WithDefault.fields, [Some(a), Some(b)]);
    assert r.Ok? && |r.value| == 2;
    assert r.value[0] == a && r.value[1] == b;
    assert r.value == [a, b];
  }

  /** An empty configuration keeps both defaults. */
  lemma DefaultsKept()
    ensures Parse(Loader, MapNode([]), WithDefault) == Ok(DRecord([DInt(5), DString("foo")]))
  {
    var root := MapNode([]);
    ParseAgrees(Loader, root, WithDefault);
    assert Unread(2) == [None, None];
    assert DenoteFields(Loader, root, WithDefault, 0, [None, None]) == Ok([None, None]);
    SettleTakesDefaults();
  }

  /** The reference field loop over `i = 42, s = bar` reads both fields. */
  lemma BothFieldsRead()
    ensures DenoteFields(Loader, MapNode([Entry("i", Num(42)), Entry("s", Txt("bar"))]), WithDefault, 0, [None, None])
      == Ok([Some(DInt(42)), Some(DString("bar"))])
  {
    var root := MapNode([Entry("i", Num(42)), Entry("s", Txt("bar"))]);
    assert FieldNode(root, WithDefault.fields[0]) == Num(42);
    assert FieldNode(root, WithDefault.fields[1]) == Txt("bar");
    assert Denote(Loader, Num(42), Prim(PInt)) == Ok(DInt(42));
    assert Denote(Loader, Txt("bar"), Prim(PString)) == Ok(DString("bar"));
    assert [None, None][0 := Some(DInt(42))] == [Some(DInt(42)), None];
    assert [Some(DInt(42)), None][1 := Some(DString("bar"))] == [Some(DInt(42)), Some(DString("bar"))];
  }

  /** `i = 42, s = bar` overrides both defaults. */
  lemma DefaultsOverridden()
    ensures Parse(Loader, MapNode([Entry("i", Num(42)), Entry("s", Txt("bar"))]), WithDefault)
      == Ok(DRecord([DInt(42), DString("bar")]))
  {
    var root := MapNode([Entry("i", Num(42)), Entry("s", Txt("bar"))]);
    ParseAgrees(Loader, root, WithDefault);
    assert Unread(2) == [None, None];
    BothFieldsRead();
    SettleKeepsReads(DInt(42), DString("bar"));
  }

  /** `data class WithList(val a: Int, val b: List<Int>)`. */
  const WithList: Schema :=
    Record([Field("a", Prim(PInt), None), Field("b", ListOf(Prim(PInt)), None)])

  /** Each of `1`, `2`, `3` reads as the int it holds. */
  lemma ThreeIntsRead()
    ensures forall i :: 0 <= i < 3 ==> Denote(Loader, [Num(1), Num(2), Num(3)][i], Prim(PInt)) == Ok(DInt(i + 1))
  {
    assert Denote(Loader, Num(1), Prim(PInt)) == Ok(DInt(1));
    assert Denote(Loader, Num(2), Prim(PInt)) == Ok(DInt(2));
    assert Denote(Loader, Num(3), Prim(PInt)) == Ok(DInt(3));
  }

  /** The children `1`, `2`, `3` read as the ints 1, 2, 3, in order. */
  lemma ThreeIntItems()
    ensures DenoteList(Loader, [Num(1), Num(2), Num(3)], ListOf(Prim(PInt))) == Ok([DInt(1), DInt(2), DInt(3)])
  {
    var s := ListOf(Prim(PInt));
    var items := [Num(1), Num(2), Num(3)];
    ThreeIntsRead();
    ListKeepsOrderAndCount(Loader, items, s);
    var r := DenoteList(Loader, items, s);
    assert r.Ok? && |r.value| == 3;
    assert forall i :: 0 <= i < 3 ==> r.value[i] == DInt(i + 1);
    assert r.value == [DInt(1), DInt(2), DInt(3)];
  }

  /** `[1, 2, 3]` read with an int element schema. */
  lemma ListOfThreeInts()
    ensures Denote(Loader, ListNode([Num(1), Num(2), Num(3)]), ListOf(Prim(PInt)))
      == Ok(DList([DInt(1), DInt(2), DInt(3)]))
  {
    assert ChildrenList(ListNode([Num(1), Num(2), Num(3)])) == [Num(1), Num(2), Num(3)];
    ThreeIntItems();
  }

  /** The reference field loop over `a = 42, b = [1, 2, 3,]` reads both fields. */
  lemma IntAndListRead()
    ensures DenoteFields(Loader, MapNode([Entry("a", Num(42)), Entry("b", ListNode([Num(1), Num(2), Num(3)]))]), WithList, 0, [None, None])
      == Ok([Some(DInt(42)), Some(DList([DInt(1), DInt(2), DInt(3)]))])
  {
    var list := ListNode([Num(1), Num(2), Num(3)]);
    var root := MapNode([Entry("a", Num(42)), Entry("b", list)]);
    var read := DList([DInt(1), DInt(2), DInt(3)]);
    assert "a"[0] != "b"[0];
    assert root.entries[1..] == [Entry("b", list)];
    assert Lookup([Entry("b", list)], "b") == Some(list);
    assert Lookup(root.entries, "b") == Some(list);
    assert FieldNode(root, WithList.fields[0]) == Num(42);
    assert FieldNode(root, WithList.fields[1]) == list;
    assert Denote(Loader, Num(42), Prim(PInt)) == Ok(DInt(42));
    ListOfThreeInts();
    assert [None, None][0 := Some(DInt(42))] == [Some(DInt(42)), None];
    assert [Some(DInt(42)), None][1 := Some(read)] == [Some(DInt(42)), Some(read)];
  }

  /** `a = 42, b = [1, 2, 3,]` reads the int and the whole list, in order. */
  lemma ListKept()
    ensures Parse(Loader, MapNode([Entry("a", Num(42)), Entry("b", ListNode([Num(1), Num(2), Num(3)]))]), WithList)
      == Ok(DRecord([DInt(42), DList([DInt(1), DInt(2), DInt(3)])]))
  {
    var root := MapNode([Entry("a", Num(42)), Entry("b", ListNode([Num(1), Num(2), Num(3)]))]);
    ParseAgrees(Loader, root, WithList);
    assert Unread(2) == [None, None];
    IntAndListRead();
    SettleKeepsBoth(WithList.fields, DInt(42), DList([DInt(1), DInt(2), DInt(3)]));
  }

  /** Settling two read fields keeps what was read, whatever the defaults. */
  lemma SettleKeepsBoth(fields: seq<Field>, a: Decoded, b: Decoded)
    requires |fields| == 2
    ensures Settle(fields, [Some(a), Some(b)]) == Ok([a, b])
  {
    var r := Settle(fields, [Some(a), Some(b)]);
    assert r.Ok? && |r.value| == 2;
    assert r.value[0] == a && r.value[1] == b;
    assert r.value == [a, b];
  }

  /** `data class WithNullable(val i: Int? = null, val s: String? = null)`. */
  const WithNullable: Schema :=
    Record([Field("i", Nullable(Prim(PInt)), Some(DNull)), Field("s", Nullable(Prim(PString)), Some(DNull))])

  /** The reference field loop over `i = 10, s = null` as the HOCON loader
      stores it, without the null: `s` is absent and stays unread. */
  lemma NumberReadNullAbsent()
    ensures DenoteFields(Loader, MapNode([Entry("i", Num(10))]), WithNullable, 0, [None, None])
      == Ok([Some(DInt(10)), None])
  {
    var root := MapNode([Entry("i", Num(10))]);
    assert "i"[0] != "s"[0];
    assert FieldNode(root, WithNullable.fields[0]) == Num(10);
    assert FieldNode(root, WithNullable.fields[1]) == Virtual;
    assert Denote(Loader, Num(10), Nullable(Prim(PInt))) == Ok(DInt(10));
    assert [None, None][0 := Some(DInt(10))] == [Some(DInt(10)), None];
  }

  /** Settling `WithNullable` with only `i` read gives `s` its default, null. */
  lemma SettleNullDefault(a: Decoded)
    ensures Settle(WithNullable.fields, [Some(a), None]) == Ok([a, DNull])
  {
    var r := Settle(WithNullable.fields, [Some(a), None]);
    assert r.Ok? && |r.value| == 2;
    assert r.value[0] == a && r.value[1] == DNull;
    assert r.value == [a, DNull];
  }

  /** `i = 10, s = null` gives `10` and `null`: the loader drops the null, so
      `s` is absent and takes its default. */
  lemma NullableRead()
    ensures Parse(Loader, MapNode([Entry("i", Num(10))]), WithNullable) == Ok(DRecord([DInt(10), DNull]))
  {
    var root := MapNode([Entry("i", Num(10))]);
    ParseAgrees(Loader, root, WithNullable);
    assert Unread(2) == [None, None];
    NumberReadNullAbsent();
    SettleNullDefault(DInt(10));
  }

  /** The reference field loop over a tree that keeps `s` as an explicit null
      leaf: the leaf is present, and it reads as no value. */
  lemma NumberAndNullRead()
    ensures DenoteFields(Loader, MapNode([Entry("i", Num(10)), Entry("s", Leaf(None))]), WithNullable, 0, [None, None])
      == Ok([Some(DInt(10)), Some(DNull)])
  {
    var root := MapNode([Entry("i", Num(10)), Entry("s", Leaf(None))]);
    assert FieldNode(root, WithNullable.fields[0]) == Num(10);
    assert FieldNode(root, WithNullable.fields[1]) == Leaf(None);
    assert Denote(Loader, Num(10), Nullable(Prim(PInt))) == Ok(DInt(10));
    assert Denote(Loader, Leaf(None), Nullable(Prim(PString))) == Ok(DNull);
    assert [None, None][0 := Some(DInt(10))] == [Some(DInt(10)), None];
    assert [Some(DInt(10)), None][1 := Some(DNull)] == [Some(DInt(10)), Some(DNull)];
  }

  /** An explicit null leaf for `s` reads as null too, by the other path: the
      field is present and the null mark is false. */
  lemma ExplicitNullRead()
    ensures Parse(Loader, MapNode([Entry("i", Num(10)), Entry("s", Leaf(None))]), WithNullable)
      == Ok(DRecord([DInt(10), DNull]))
  {
    var root := MapNode([Entry("i", Num(10)), Entry("s", Leaf(None))]);
    ParseAgrees(Loader, root, WithNullable);
    assert Unread(2) == [None, None];
    NumberAndNullRead();
    SettleKeepsBoth(WithNullable.fields, DInt(10), DNull);
  }

  /** `data class WithMap(val x: Map<String, Int>)`. */
  const WithMap: Schema := Record([Field("x", MapOf(Prim(PString), Prim(PInt)), None)])

  const Abc: seq<Entry> := [Entry("a", Num(42)), Entry("b", Num(43)), Entry("c", Num(44))]

  const AbcPairs: seq<Pair> :=
    [Pair(DString("a"), DInt(42)), Pair(DString("b"), DInt(43)), Pair(DString("c"), DInt(44))]

  /** Each of the three entries decodes to its pair. */
  lemma AbcEntriesRead()
    ensures forall i :: 0 <= i < 3 ==>
      Denote(Loader, KeyLeaf(Abc[i].key), Prim(PString)) == Ok(AbcPairs[i].first)
      && Denote(Loader, Abc[i].child, Prim(PInt)) == Ok(AbcPairs[i].second)
  {
    assert Denote(Loader, KeyLeaf("a"), Prim(PString)) == Ok(DString("a"));
    assert Denote(Loader, KeyLeaf("b"), Prim(PString)) == Ok(DString("b"));
    assert Denote(Loader, KeyLeaf("c"), Prim(PString)) == Ok(DString("c"));
    assert Denote(Loader, Num(42), Prim(PInt)) == Ok(DInt(42));
    assert Denote(Loader, Num(43), Prim(PInt)) == Ok(DInt(43));
    assert Denote(Loader, Num(44), Prim(PInt)) == Ok(DInt(44));
  }

  /** `{ a = 42, b = 43, c = 44 }` read as a string-to-int map. */
  lemma MapOfThreeEntries()
    ensures Denote(Loader, MapNode(Abc), MapOf(Prim(PString), Prim(PInt))) == Ok(DMap(AbcPairs))
  {
    var s := MapOf(Prim(PString), Prim(PInt));
    assert ChildrenMap(MapNode(Abc)) == Abc;
    AbcEntriesRead();
    MapReproducesEntries(Loader, Abc, s);
    var r := DenoteMap(Loader, Abc, s);
    assert r.Ok? && |r.value| == 3;
    assert forall i :: 0 <= i < 3 ==> r.value[i] == AbcPairs[i];
    assert r.value == AbcPairs;
  }

  /** The reference field loop over `x = { a = 42, b = 43, c = 44 }` reads the map. */
  lemma MapFieldRead()
    ensures DenoteFields(Loader, MapNode([Entry("x", MapNode(Abc))]), WithMap, 0, [None])
      == Ok([Some(DMap(AbcPairs))])
  {
    var root := MapNode([Entry("x", MapNode(Abc))]);
    assert FieldNode(root, WithMap.fields[0]) == MapNode(Abc);
    MapOfThreeEntries();
    assert [None][0 := Some(DMap(AbcPairs))] == [Some(DMap(AbcPairs))];
  }

  /** `x = { a = 42, b = 43, c = 44 }` keeps every entry, in order. */
  lemma MapKept()
    ensures Parse(Loader, MapNode([Entry("x", MapNode(Abc))]), WithMap) == Ok(DRecord([DMap(AbcPairs)]))
  {
    var root := MapNode([Entry("x", MapNode(Abc))]);
    ParseAgrees(Loader, root, WithMap);
    assert Unread(1) == [None];
    MapFieldRead();
    var r := Settle(WithMap.fields, [Some(DMap(AbcPairs))]);
    assert r.Ok? && |r.value| == 1 && r.value[0] == DMap(AbcPairs);
    assert r.value == [DMap(AbcPairs)];
  }
}
