/** The reader-driven decoder computes the reference decoder's result.

    The readers differ from the reference in three ways: the record cursor
    skips absent fields instead of testing each index, a record reader
    fetches a primitive by splitting its tag on '.' while it probes and
    opens structures by the unsplit tag, and a map reader addresses keys and
    values through one doubled index. On schemas whose field names contain no
    '.' and whose map keys are scalars (`Plain`) none of these changes the
    outcome, error or value.
 */
module Agreement {
  import opened Results
  import opened Paths
  import opened ConfigTree
  import opened Shapes
  import opened Coercion
  import opened Cursors
  import opened Decoding
  import opened Denotation

  /** Regrouping an append of three sequences. */
  lemma AppendAssociates<T>(a: seq<T>, b: seq<T>, c: seq<T>)
    ensures (a + b) + c == a + (b + c)
  {
  }

  /** The node a tag stands for, in the reference decoder's terms. */
  function Addressed(r: Reader, t: Tag): Node
    requires Fits(r, t)
  {
    match r
    case RecordReader(node, _) => GetKey(node, t.path)
    case ListReader(children, _) => children[t.pos]
    case MapReader(keys, values, _) =>
      if t.pos % 2 == 0 then KeyLeaf(keys[t.pos / 2]) else values[t.pos / 2]
  }

  /** A dot-free record tag fetches the node its probe finds. */
  lemma FetchIsAddressed(r: Reader, t: Tag)
    requires Fits(r, t)
    requires r.RecordReader? ==> Separator !in t.path
    ensures Fetch(r, t) == Addressed(r, t)
  {
    if r.RecordReader? {
      SplitPlain(t.path);
      GetPathSingle(r.node, t.path);
    }
  }

  /** A nested structure is opened at the node a primitive at the same tag
      is read from: the dot-free field, the list position, or the map value.
      Only a root class reuses the reader itself. */
  lemma OpensAtFetchedNode(r: Reader, t: Tag, shape: Structure)
    requires Valid(r) && Fits(r, t)
    requires r.RecordReader? ==> Separator !in t.path
    requires r.MapReader? ==> t.pos % 2 == 1
    ensures Begin(r, Some(t), shape).Ok?
    ensures !(r.RecordReader? && shape.IsClassLike() && r.index == -1) ==>
      Begin(r, Some(t), shape) == Ok(match shape
        case ListShape => ListReader(ChildrenList(Fetch(r, t)), -1)
        case MapShape => OpenMap(ChildrenMap(Fetch(r, t)))
        case _ => RecordReader(Fetch(r, t), -1))
  {
    FetchIsAddressed(r, t);
    assert StructureNode(r, t) == Fetch(r, t);
  }

  /** A nested field's tag `parent.child` fetches the child of the node its
      parent's tag fetches; a root field's tag is its bare name. */
  lemma FetchComposed(r: Reader, parentName: string, childName: string)
    requires r.RecordReader? && Separator !in childName
    ensures parentName == [] ==> Fetch(r, Path(ComposeName(parentName, childName))) == GetKey(r.node, childName)
    ensures parentName != [] ==>
      Fetch(r, Path(ComposeName(parentName, childName))) == GetKey(Fetch(r, Path(parentName)), childName)
  {
    ComposedTagSplits(parentName, childName);
    GetPathSingle(r.node, childName);
    if parentName != [] {
      GetPathAppend(r.node, Split(parentName), [childName]);
      GetPathSingle(GetPath(r.node, Split(parentName)), childName);
    }
  }

  /** Decoding at a tag equals reference decoding of the addressed node. */
  lemma {:induction false} ValueAgrees(c: Coercions, r: Reader, t: Tag, s: Schema)
    requires Valid(r) && Fits(r, t) && Plain(s)
    requires r.RecordReader? ==> r.index >= 0 && Separator !in t.path
    requires r.MapReader? && t.pos % 2 == 0 ==> IsScalar(s)
    ensures DecodeValue(c, r, Some(t), s) == Denote(c, Addressed(r, t), s)
    decreases s, 1, 0
  {
    FetchIsAddressed(r, t);
    match s
    case Prim(_) =>
    case Enum(_) =>
    case Singleton =>
    case Nullable(inner) =>
      if NotNullMark(Fetch(r, t)) {
        ValueAgrees(c, r, t, inner);
      }
    case Record(fields) =>
      var sub := RecordReader(Addressed(r, t), -1);
      assert Begin(r, Some(t), ClassShape) == Ok(sub);
      FieldsAgree(c, sub, s, Unread(|fields|));
    case ListOf(_) =>
      var sub := ListReader(ChildrenList(Addressed(r, t)), -1);
      assert Begin(r, Some(t), ListShape) == Ok(sub);
      ItemsAgree(c, sub, s, []);
      assert sub.children[0..] == sub.children;
      match DenoteList(c, sub.children, s) {
        case Ok(rest) => assert [] + rest == rest;
        case Err(_) =>
      }
    case MapOf(_, _) =>
      var entries := ChildrenMap(Addressed(r, t));
      var sub := OpenMap(entries);
      assert Begin(r, Some(t), MapShape) == Ok(sub);
      EntriesAgree(c, sub, s, [], entries, 0);
      assert entries[0..] == entries;
      match DenoteMap(c, entries, s) {
        case Ok(rest) => assert [] + rest == rest;
        case Err(_) =>
      }
  }

  /** Reference field reading passes over fields that are absent. */
  lemma {:induction false} SkipAbsentFields(
    c: Coercions, n: Node, s: Schema, a: nat, b: nat, got: seq<Option<Decoded>>)
    requires s.Record? && |got| == |s.fields| && a <= b <= |s.fields|
    requires forall j :: a <= j < b ==> IsVirtual(FieldNode(n, s.fields[j]))
    ensures DenoteFields(c, n, s, a, got) == DenoteFields(c, n, s, b, got)
    decreases b - a
  {
    if a < b {
      SkipAbsentFields(c, n, s, a + 1, b, got);
    }
  }

  /** The record cursor's probe of position `j` is the reference's field node. */
  lemma ProbeIsFieldNode(n: Node, fields: seq<Field>, j: nat)
    requires j < |fields|
    ensures Present(n, Names(fields), j) <==> !IsVirtual(FieldNode(n, fields[j]))
  {
    assert RecordTag(None, fields[j].name) == fields[j].name;
  }

  /** One round of the class loop: read the field the cursor returns, or
      settle once it is done. */
  lemma FieldsStep(c: Coercions, r: Reader, s: Schema, got: seq<Option<Decoded>>)
    requires s.Record? && r.RecordReader? && r.index >= -1 && |got| == |s.fields|
    ensures var st := RecordNext(r, Names(s.fields));
      && (st.index == ReadDone ==>
            DecodeFields(c, r, s, got) == Finish(s.fields, got))
      && (st.index != ReadDone ==>
            var f := s.fields[st.index];
            var v := DecodeValue(c, st.reader, Some(Path(f.name)), f.schema);
            && (v.Err? ==> DecodeFields(c, r, s, got) == Err(v.error))
            && (v.Ok? ==> DecodeFields(c, r, s, got) == DecodeFields(c, st.reader, s, got[st.index := Some(v.value)])))
  {
    var st := RecordNext(r, Names(s.fields));
    if st.index != ReadDone {
      assert RecordTag(None, s.fields[st.index].name) == s.fields[st.index].name;
    }
  }

  /** One round of the reference field loop at a present field. */
  lemma DenoteFieldsStep(c: Coercions, n: Node, s: Schema, i: nat, got: seq<Option<Decoded>>)
    requires s.Record? && |got| == |s.fields| && i < |s.fields|
    requires !IsVirtual(FieldNode(n, s.fields[i]))
    ensures var v := Denote(c, FieldNode(n, s.fields[i]), s.fields[i].schema);
      && (v.Err? ==> DenoteFields(c, n, s, i, got) == Err(v.error))
      && (v.Ok? ==> DenoteFields(c, n, s, i, got) == DenoteFields(c, n, s, i + 1, got[i := Some(v.value)]))
  {
  }

  /** The reference field loop passes over what the record cursor skips:
      every field up to the next one the cursor returns, or all of them. */
  lemma SkipToCursor(c: Coercions, r: Reader, s: Schema, got: seq<Option<Decoded>>)
    requires s.Record? && r.RecordReader? && r.index >= -1 && |got| == |s.fields|
    ensures var st := RecordNext(r, Names(s.fields));
      var stop := if st.index == ReadDone then |s.fields| else st.index;
      DenoteFields(c, r.node, s, r.index + 1, got) == DenoteFields(c, r.node, s, stop, got)
  {
    var st := RecordNext(r, Names(s.fields));
    var from := r.index + 1;
    var stop := if st.index == ReadDone then |s.fields| else st.index;
    if from < stop {
      forall j | from <= j < stop ensures IsVirtual(FieldNode(r.node, s.fields[j])) {
        ProbeIsFieldNode(r.node, s.fields, j);
      }
      SkipAbsentFields(c, r.node, s, from, stop, got);
    }
  }

  /** The field the record cursor returns is read at its tag as the
      reference reads the field's node. */
  lemma {:induction false} FieldReadAgrees(c: Coercions, r: Reader, s: Schema)
    requires s.Record? && Plain(s) && r.RecordReader? && r.index >= -1
    requires RecordNext(r, Names(s.fields)).index != ReadDone
    ensures var i := RecordNext(r, Names(s.fields)).index;
      DecodeValue(c, RecordReader(r.node, i), Some(Path(s.fields[i].name)), s.fields[i].schema)
        == Denote(c, FieldNode(r.node, s.fields[i]), s.fields[i].schema)
    decreases s, 0, 0
  {
    var i := RecordNext(r, Names(s.fields)).index;
    ValueAgrees(c, RecordReader(r.node, i), Path(s.fields[i].name), s.fields[i].schema);
  }

  /** The record cursor loop reads the same fields, in the same order, as
      the reference's index loop, then settles defaults the same way. */
  lemma {:induction false} FieldsAgree(c: Coercions, r: Reader, s: Schema, got: seq<Option<Decoded>>)
    requires s.Record? && Plain(s) && r.RecordReader? && r.index >= -1 && |got| == |s.fields|
    ensures var g := DenoteFields(c, r.node, s, r.index + 1, got);
      && (g.Err? ==> DecodeFields(c, r, s, got) == Err(g.error))
      && (g.Ok? ==> DecodeFields(c, r, s, got) == Finish(s.fields, g.value))
    decreases s, 0, |s.fields| - r.index
  {
    var st := RecordNext(r, Names(s.fields));
    var g := DenoteFields(c, r.node, s, r.index + 1, got);
    SkipToCursor(c, r, s, got);
    FieldsStep(c, r, s, got);
    if st.index == ReadDone {
      assert g == Ok(got);
    } else {
      var i := st.index;
      ProbeIsFieldNode(r.node, s.fields, i);
      DenoteFieldsStep(c, r.node, s, i, got);
      FieldReadAgrees(c, r, s);
      var v := Denote(c, FieldNode(r.node, s.fields[i]), s.fields[i].schema);
      if v.Err? {
        assert g == Err(v.error) && DecodeFields(c, r, s, got) == Err(v.error);
      } else {
        var next := got[i := Some(v.value)];
        var sub := RecordReader(r.node, i);
        assert st.reader == sub;
        var g' := DenoteFields(c, r.node, s, i + 1, next);
        assert g == g';
        assert DecodeFields(c, r, s, got) == DecodeFields(c, sub, s, next);
        FieldsAgree(c, sub, s, next);
        assert sub.node == r.node && sub.index + 1 == i + 1;
        assert g'.Err? ==> DecodeFields(c, sub, s, next) == Err(g'.error);
        assert g'.Ok? ==> DecodeFields(c, sub, s, next) == Finish(s.fields, g'.value);
      }
    }
  }

  /** The list cursor loop reads the remaining children in order. */
  lemma {:induction false} ItemsAgree(c: Coercions, r: Reader, s: Schema, acc: seq<Decoded>)
    requires s.ListOf? && Plain(s) && r.ListReader? && Valid(r) && r.index < |r.children|
    ensures DecodeItems(c, r, s, acc) ==
      (var rest :- DenoteList(c, r.children[r.index + 1..], s); Ok(DList(acc + rest)))
    decreases s, 0, Size(r) - r.index
  {
    var st := SeqNext(r);
    var items := r.children[r.index + 1..];
    if st.index == ReadDone {
      assert items == [];
      assert acc + [] == acc;
    } else {
      var i := st.index;
      ValueAgrees(c, st.reader, Pos(i), s.element);
      assert items[0] == r.children[i] && items[1..] == r.children[i + 1..];
      match Denote(c, r.children[i], s.element) {
        case Ok(v) =>
          ItemsAgree(c, st.reader, s, acc + [v]);
          match DenoteList(c, items[1..], s) {
            case Ok(rest) => AppendAssociates(acc, [v], rest);
            case Err(_) =>
          }
        case Err(_) =>
      }
    }
  }

  /** One round of the map loop: a key at the even tag `k`, its value at
      `k + 1`, then the rest of the loop; the first failure ends it. */
  lemma EntriesStep(c: Coercions, r: Reader, s: Schema, acc: seq<Pair>)
    requires s.MapOf? && r.MapReader? && Valid(r)
    requires r.index % 2 == 1 && r.index + 1 < Size(r)
    ensures var k := r.index + 1;
      var key := DecodeValue(c, MapReader(r.keys, r.values, k), Some(Pos(k)), s.key);
      var value := DecodeValue(c, MapReader(r.keys, r.values, k + 1), Some(Pos(k + 1)), s.value);
      && (key.Err? ==> DecodeEntries(c, r, s, acc) == Err(key.error))
      && (key.Ok? && value.Err? ==> DecodeEntries(c, r, s, acc) == Err(value.error))
      && (key.Ok? && value.Ok? ==>
            DecodeEntries(c, r, s, acc) ==
            DecodeEntries(c, MapReader(r.keys, r.values, k + 1), s, acc + [Pair(key.value, value.value)]))
  {
    var st := SeqNext(r);
    var st2 := SeqNext(st.reader);
    assert st2.index == r.index + 2;
  }

  /** One round of the reference map loop. */
  lemma DenoteMapStep(c: Coercions, entries: seq<Entry>, s: Schema)
    requires s.MapOf? && entries != []
    ensures var key := Denote(c, KeyLeaf(entries[0].key), s.key);
      var value := Denote(c, entries[0].child, s.value);
      var tail := DenoteMap(c, entries[1..], s);
      && (key.Err? ==> DenoteMap(c, entries, s) == Err(key.error))
      && (key.Ok? && value.Err? ==> DenoteMap(c, entries, s) == Err(value.error))
      && (key.Ok? && value.Ok? && tail.Err? ==> DenoteMap(c, entries, s) == Err(tail.error))
      && (key.Ok? && value.Ok? && tail.Ok? ==>
            DenoteMap(c, entries, s) == Ok([Pair(key.value, value.value)] + tail.value))
  {
  }

  /** Halving an even or odd tag gives back the entry index. */
  lemma Halves(j: nat)
    ensures (2 * j) / 2 == j && (2 * j) % 2 == 0
    ensures (2 * j + 1) / 2 == j && (2 * j + 1) % 2 == 1
  {
  }

  /** Tag 2j is entry `j`'s key. */
  lemma {:induction false} KeyTag(keys: seq<string>, values: seq<Node>, entries: seq<Entry>, j: nat)
    requires keys == KeysOf(entries) && values == ValuesOf(entries) && j < |entries|
    ensures Fits(MapReader(keys, values, 2 * j), Pos(2 * j)) && (2 * j) % 2 == 0
    ensures Addressed(MapReader(keys, values, 2 * j), Pos(2 * j)) == KeyLeaf(entries[j].key)
  {
    Halves(j);
  }

  /** Tag 2j+1 is entry `j`'s value. */
  lemma {:induction false} ValueTag(keys: seq<string>, values: seq<Node>, entries: seq<Entry>, j: nat)
    requires keys == KeysOf(entries) && values == ValuesOf(entries) && j < |entries|
    ensures Fits(MapReader(keys, values, 2 * j + 1), Pos(2 * j + 1)) && (2 * j + 1) % 2 == 1
    ensures Addressed(MapReader(keys, values, 2 * j + 1), Pos(2 * j + 1)) == entries[j].child
  {
    Halves(j);
  }

  /** The key tag of entry `j` reads the key leaf the reference reads. */
  lemma {:induction false} KeyAgrees(c: Coercions, r: Reader, s: Schema, entries: seq<Entry>, j: nat)
    requires s.MapOf? && Plain(s) && r.MapReader? && Valid(r)
    requires r.keys == KeysOf(entries) && r.values == ValuesOf(entries) && j < |entries|
    ensures Fits(MapReader(r.keys, r.values, 2 * j), Pos(2 * j))
    ensures DecodeValue(c, MapReader(r.keys, r.values, 2 * j), Some(Pos(2 * j)), s.key) == Denote(c, KeyLeaf(entries[j].key), s.key)
    decreases s, 0, 0
  {
    KeyTag(r.keys, r.values, entries, j);
    ValueAgrees(c, MapReader(r.keys, r.values, 2 * j), Pos(2 * j), s.key);
  }

  /** The value tag of entry `j` reads the child the reference reads. */
  lemma {:induction false} ChildAgrees(c: Coercions, r: Reader, s: Schema, entries: seq<Entry>, j: nat)
    requires s.MapOf? && Plain(s) && r.MapReader? && Valid(r)
    requires r.keys == KeysOf(entries) && r.values == ValuesOf(entries) && j < |entries|
    ensures Fits(MapReader(r.keys, r.values, 2 * j + 1), Pos(2 * j + 1))
    ensures DecodeValue(c, MapReader(r.keys, r.values, 2 * j + 1), Some(Pos(2 * j + 1)), s.value) == Denote(c, entries[j].child, s.value)
    decreases s, 0, 0
  {
    ValueTag(r.keys, r.values, entries, j);
    ValueAgrees(c, MapReader(r.keys, r.values, 2 * j + 1), Pos(2 * j + 1), s.value);
  }

  /** The map cursor loop, standing just before entry `j`, reads the
      remaining entries in order, each key at an even tag and its value at
      the following odd tag. */
  lemma {:induction false} EntriesAgree(c: Coercions, r: Reader, s: Schema, acc: seq<Pair>, entries: seq<Entry>, j: nat)
    requires s.MapOf? && Plain(s) && r.MapReader? && Valid(r)
    requires r.keys == KeysOf(entries) && r.values == ValuesOf(entries)
    requires r.index == 2 * j - 1 && j <= |entries|
    ensures var tail := DenoteMap(c, entries[j..], s);
      && (tail.Err? ==> DecodeEntries(c, r, s, acc) == Err(tail.error))
      && (tail.Ok? ==> DecodeEntries(c, r, s, acc) == Ok(DMap(acc + tail.value)))
    decreases s, 0, |entries| - j
  {
    var rest := entries[j..];
    var tail := DenoteMap(c, rest, s);
    if j == |entries| {
      assert rest == [];
      assert tail == Ok([]) && acc + [] == acc;
    } else {
      EntriesStep(c, r, s, acc);
      KeyAgrees(c, r, s, entries, j);
      ChildAgrees(c, r, s, entries, j);
      assert rest[0] == entries[j] && rest[1..] == entries[j + 1..];
      DenoteMapStep(c, rest, s);
      var key := Denote(c, KeyLeaf(entries[j].key), s.key);
      var value := Denote(c, entries[j].child, s.value);
      if key.Err? {
        assert tail == Err(key.error) && DecodeEntries(c, r, s, acc) == Err(key.error);
      } else if value.Err? {
        assert tail == Err(value.error) && DecodeEntries(c, r, s, acc) == Err(value.error);
      } else {
        var pair := Pair(key.value, value.value);
        var next := MapReader(r.keys, r.values, 2 * j + 1);
        assert DecodeEntries(c, r, s, acc) == DecodeEntries(c, next, s, acc + [pair]);
        EntriesAgree(c, next, s, acc + [pair], entries, j + 1);
        var more := DenoteMap(c, entries[j + 1..], s);
        if more.Err? {
          assert tail == Err(more.error);
          assert DecodeEntries(c, r, s, acc) == Err(more.error);
        } else {
          assert tail == Ok([pair] + more.value);
          AppendAssociates(acc, [pair], more.value);
          assert DecodeEntries(c, r, s, acc) == Ok(DMap(acc + tail.value));
        }
      }
    }
  }

  /** `parse` on a class schema is the reference decoding of the root. */
  lemma ParseAgrees(c: Coercions, root: Node, s: Schema)
    requires s.Record? && Plain(s)
    ensures Parse(c, root, s) == Denote(c, root, s)
  {
    var r := RecordReader(root, -1);
    assert Begin(r, None, ClassShape) == Ok(r);
    FieldsAgree(c, r, s, Unread(|s.fields|));
  }

  // ---------------------------------------------------------------------------
  // The reference properties, carried over to the reader-driven decoder

  /** Parsing a class keeps the default of every field absent from the tree
      and takes every present field from its node; it fails exactly when a
      present field fails or an absent one has no default. */
  lemma ParseKeepsDefaults(c: Coercions, root: Node, fields: seq<Field>)
    requires Plain(Record(fields))
    ensures Parse(c, root, Record(fields)).Ok? <==>
      (forall j :: 0 <= j < |fields| && !IsVirtual(GetKey(root, fields[j].name)) ==>
        Denote(c, GetKey(root, fields[j].name), fields[j].schema).Ok?)
      && (forall j :: 0 <= j < |fields| && IsVirtual(GetKey(root, fields[j].name)) ==> fields[j].default.Some?)
    ensures Parse(c, root, Record(fields)).Ok? ==>
      var d := Parse(c, root, Record(fields)).value;
      d.DRecord? && |d.fieldValues| == |fields|
      && (forall j :: 0 <= j < |fields| && IsVirtual(GetKey(root, fields[j].name)) ==>
            d.fieldValues[j] == fields[j].default.value)
      && (forall j :: 0 <= j < |fields| && !IsVirtual(GetKey(root, fields[j].name)) ==>
            Denote(c, GetKey(root, fields[j].name), fields[j].schema) == Ok(d.fieldValues[j]))
  {
    ParseAgrees(c, root, Record(fields));
    RecordKeepsDefaults(c, root, fields);
  }

  /** A list read at a tag yields one element per child of the addressed
      node, in order, and fails exactly when some child fails. */
  lemma DecodedListKeepsOrder(c: Coercions, r: Reader, t: Tag, s: Schema)
    requires s.ListOf? && Plain(s) && Valid(r) && Fits(r, t)
    requires r.RecordReader? ==> r.index >= 0 && Separator !in t.path
    requires !(r.MapReader? && t.pos % 2 == 0)
    ensures var items := ChildrenList(Addressed(r, t));
      var d := DecodeValue(c, r, Some(t), s);
      && (d.Ok? <==> forall i :: 0 <= i < |items| ==> Denote(c, items[i], s.element).Ok?)
      && (d.Ok? ==>
            && d.value.DList? && |d.value.elements| == |items|
            && forall i :: 0 <= i < |items| ==> Denote(c, items[i], s.element) == Ok(d.value.elements[i]))
  {
    ValueAgrees(c, r, t, s);
    ListKeepsOrderAndCount(c, ChildrenList(Addressed(r, t)), s);
  }

  /** A map read at a tag yields one pair per entry of the addressed node,
      in order, each key decoded from a leaf holding the entry's key and
      each value from the entry's child; it fails exactly when some key or
      value fails. */
  lemma DecodedMapReproducesEntries(c: Coercions, r: Reader, t: Tag, s: Schema)
    requires s.MapOf? && Plain(s) && Valid(r) && Fits(r, t)
    requires r.RecordReader? ==> r.index >= 0 && Separator !in t.path
    requires !(r.MapReader? && t.pos % 2 == 0)
    ensures var entries := ChildrenMap(Addressed(r, t));
      var d := DecodeValue(c, r, Some(t), s);
      && (d.Ok? <==> forall i :: 0 <= i < |entries| ==>
            Denote(c, KeyLeaf(entries[i].key), s.key).Ok? && Denote(c, entries[i].child, s.value).Ok?)
      && (d.Ok? ==>
            && d.value.DMap? && |d.value.pairs| == |entries|
            && forall i :: 0 <= i < |entries| ==>
                 Denote(c, KeyLeaf(entries[i].key), s.key) == Ok(d.value.pairs[i].first)
                 && Denote(c, entries[i].child, s.value) == Ok(d.value.pairs[i].second))
  {
    ValueAgrees(c, r, t, s);
    MapReproducesEntries(c, ChildrenMap(Addressed(r, t)), s);
  }
}
