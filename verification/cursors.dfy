/** The three structural readers of ConfigurationNodeParser.kt as explicit
    cursor records: `NodeReader` (lines 115-150), `ListNodeReader` (152-177)
    and `MapNodeReader` (179-218).

    Each reader's mutable `index` becomes a field; a call of
    `decodeElementIndex` becomes a function from the reader to a `Step`
    holding the advanced reader and the returned element index (or
    `ReadDone`). Tags are dotted paths for the record reader and integer
    positions for the other two.
 */
module Cursors {
  import opened Results
  import opened Paths
  import opened ConfigTree
  import opened Shapes

  /** `CompositeDecoder.READ_DONE`. */
  const ReadDone: int := -1

  /** A reader-local address: a path for records, a position otherwise. */
  datatype Tag = Path(path: string) | Pos(pos: nat)

  datatype Reader =
    | RecordReader(node: Node, index: int)
    | ListReader(children: seq<Node>, index: int)
    | MapReader(keys: seq<string>, values: seq<Node>, index: int)

  /** The reader after one `decodeElementIndex` call, and what the call returned. */
  datatype Step = Step(reader: Reader, index: int)

  /** Every reader starts at -1 and only moves forward; a map reader's key
      and value lists are parallel. */
  predicate Valid(r: Reader) {
    r.index >= -1 && (r.MapReader? ==> |r.keys| == |r.values|)
  }

  /** A tag this reader can resolve: any path for a record reader, an
      in-bounds position for the others. */
  predicate Fits(r: Reader, t: Tag) {
    match r
    case RecordReader(_, _) => t.Path?
    case ListReader(children, _) => t.Pos? && t.pos < |children|
    case MapReader(keys, values, _) => t.Pos? && t.pos < 2 * |values| && |keys| == |values|
  }

  // ---------------------------------------------------------------------------
  // Record reader

  /** `getTag` of the record reader: the element name composed with the
      current tag. Whenever the reader enumerates its elements its tag stack
      is empty, so the decoder always passes `None` here. */
  function RecordTag(current: Option<string>, name: string): string {
    ComposeName(if current.Some? then current.value else [], name)
  }

  /** The presence probe of `decodeElementIndex`: `node.getNode(name)` with the
      tag as ONE key, not split on '.'. */
  function Probe(node: Node, names: seq<string>, i: int): Node
    requires 0 <= i < |names|
  {
    GetKey(node, RecordTag(None, names[i]))
  }

  predicate Present(node: Node, names: seq<string>, i: int)
    requires 0 <= i < |names|
  {
    !IsVirtual(Probe(node, names, i))
  }

  /** `NodeReader.decodeElementIndex`: advance past every element whose probe
      is virtual and return the first present one, or `ReadDone` once the
      positions are exhausted. */
  function RecordNext(r: Reader, names: seq<string>): (st: Step)
    requires r.RecordReader? && r.index >= -1
    ensures st.reader.RecordReader? && st.reader.node == r.node
    ensures st.index == ReadDone || st.index == st.reader.index
    ensures st.index != ReadDone ==> r.index < st.index < |names| && Present(r.node, names, st.index)
    ensures st.index == ReadDone ==> st.reader.index == if r.index + 1 < |names| then |names| else r.index + 1
    ensures forall j :: r.index < j < |names| && (st.index == ReadDone || j < st.index) ==> !Present(r.node, names, j)
    decreases |names| - r.index
  {
    var i := r.index + 1;
    if i >= |names| then Step(RecordReader(r.node, i), ReadDone)
    else if Present(r.node, names, i) then Step(RecordReader(r.node, i), i)
    else RecordNext(RecordReader(r.node, i), names)
  }

  /** The same step written as the source's `while (++index < count)` loop. */
  method NextRecordElement(r: Reader, names: seq<string>) returns (next: Reader, result: int)
    requires r.RecordReader? && r.index >= -1
    ensures Step(next, result) == RecordNext(r, names)
    ensures result == ReadDone || (r.index < result < |names| && Present(r.node, names, result))
  {
    var index := r.index + 1;
    while index < |names| && !Present(r.node, names, index)
      invariant r.index < index
      invariant RecordNext(r, names) == RecordNext(RecordReader(r.node, index - 1), names)
      decreases |names| - index
    {
      index := index + 1;
    }
    next := RecordReader(r.node, index);
    result := if index < |names| then index else ReadDone;
  }

  /** Every index the record cursor returns from here to `ReadDone`, in order.
      They strictly increase and each is a present position below the
      element count. */
  function RecordRun(r: Reader, names: seq<string>): (run: seq<int>)
    requires r.RecordReader? && r.index >= -1
    ensures forall a, b :: 0 <= a < b < |run| ==> run[a] < run[b]
    ensures forall a :: 0 <= a < |run| ==> r.index < run[a] < |names| && Present(r.node, names, run[a])
    decreases |names| - r.index
  {
    var st := RecordNext(r, names);
    if st.index == ReadDone then [] else [st.index] + RecordRun(st.reader, names)
  }

  /** The record cursor skips only virtual positions: every present position
      after the cursor is among the indices it returns. */
  lemma {:induction false} RecordRunSkipsOnlyVirtual(r: Reader, names: seq<string>, j: int)
    requires r.RecordReader? && r.index >= -1
    requires r.index < j < |names| && Present(r.node, names, j)
    ensures j in RecordRun(r, names)
    decreases |names| - r.index
  {
    var st := RecordNext(r, names);
    if st.index != j {
      RecordRunSkipsOnlyVirtual(st.reader, names, j);
    }
  }

  // ---------------------------------------------------------------------------
  // List and map readers

  /** `keys = entries.map { it.key.toString() }`. */
  function KeysOf(entries: seq<Entry>): (keys: seq<string>)
    ensures |keys| == |entries|
    ensures forall i :: 0 <= i < |entries| ==> keys[i] == entries[i].key
    decreases |entries|
  {
    if entries == [] then [] else [entries[0].key] + KeysOf(entries[1..])
  }

  /** `values = entries.map(Map.Entry::value)`. */
  function ValuesOf(entries: seq<Entry>): (values: seq<Node>)
    ensures |values| == |entries|
    ensures forall i :: 0 <= i < |entries| ==> values[i] == entries[i].child
    decreases |entries|
  {
    if entries == [] then [] else [entries[0].child] + ValuesOf(entries[1..])
  }

  /** A new `MapNodeReader` over a node's child mapping. */
  function OpenMap(entries: seq<Entry>): Reader {
    MapReader(KeysOf(entries), ValuesOf(entries), -1)
  }

  /** The cursor bound: `children.size` for a list, `indexSize = values.size * 2`
      for a map. */
  function Size(r: Reader): nat
    requires !r.RecordReader?
  {
    if r.ListReader? then |r.children| else 2 * |r.values|
  }

  /** The same reader with its cursor at `i`. */
  function MovedTo(r: Reader, i: int): Reader {
    match r
    case RecordReader(node, _) => RecordReader(node, i)
    case ListReader(children, _) => ListReader(children, i)
    case MapReader(keys, values, _) => MapReader(keys, values, i)
  }

  /** `decodeElementIndex` of the list and map readers: `index++`, then the
      index if it is below the bound, else `ReadDone`. */
  function SeqNext(r: Reader): (st: Step)
    requires !r.RecordReader? && Valid(r)
    ensures Valid(st.reader) && st.reader == MovedTo(r, r.index + 1)
    ensures st.index == ReadDone <==> r.index + 1 >= Size(r)
    ensures st.index != ReadDone ==>
      st.index == st.reader.index && 0 <= st.index < Size(r) && Fits(st.reader, Pos(st.index))
  {
    var i := r.index + 1;
    Step(MovedTo(r, i), if i < Size(r) then i else ReadDone)
  }

  /** Every index the list or map cursor returns from here to `ReadDone`. */
  function SeqRun(r: Reader): seq<int>
    requires !r.RecordReader? && Valid(r)
    decreases Size(r) - r.index
  {
    var st := SeqNext(r);
    if st.index == ReadDone then [] else [st.index] + SeqRun(st.reader)
  }

  /** The integers from `lo` up to but not including `hi`. */
  function Range(lo: int, hi: int): (s: seq<int>)
    ensures |s| == if lo <= hi then hi - lo else 0
    ensures forall k :: 0 <= k < |s| ==> s[k] == lo + k
  {
    seq(if lo <= hi then hi - lo else 0, k => lo + k)
  }

  /** The list and map cursors yield exactly the positions after the current
      one up to the bound, each once and in order. */
  lemma {:induction false} SeqRunIsRange(r: Reader)
    requires !r.RecordReader? && Valid(r)
    ensures SeqRun(r) == Range(r.index + 1, Size(r))
    decreases Size(r) - r.index
  {
    var st := SeqNext(r);
    if st.index != ReadDone {
      SeqRunIsRange(st.reader);
      assert Size(st.reader) == Size(r);
      assert [st.index] + Range(st.index + 1, Size(r)) == Range(r.index + 1, Size(r));
    }
  }

  /** `ListNodeReader` yields `0, 1, ..., n-1` and then `READ_DONE`. */
  lemma ListCursorYieldsEveryPosition(children: seq<Node>)
    ensures SeqRun(ListReader(children, -1)) == Range(0, |children|)
  {
    SeqRunIsRange(ListReader(children, -1));
  }

  /** `MapNodeReader` yields `0, 1, ..., 2n-1` for n entries and then `READ_DONE`. */
  lemma MapCursorStopsAtTwiceTheEntries(entries: seq<Entry>)
    ensures SeqRun(OpenMap(entries)) == Range(0, 2 * |entries|)
  {
    SeqRunIsRange(OpenMap(entries));
  }

  // ---------------------------------------------------------------------------
  // Addressing

  /** `getTaggedConfigurationNode`. The record reader splits the tag on '.'
      and walks the segments; the list reader indexes its children; the map
      reader answers an even tag with a leaf holding key `tag / 2` and an odd
      tag with value `tag / 2`. */
  function Fetch(r: Reader, t: Tag): Node
    requires Fits(r, t)
  {
    match r
    case RecordReader(node, _) => GetPath(node, Split(t.path))
    case ListReader(children, _) => children[t.pos]
    case MapReader(keys, values, _) =>
      if t.pos % 2 == 0 then KeyLeaf(keys[t.pos / 2]) else values[t.pos / 2]
  }

  /** The tags of a freshly opened map reader address its entries in pairs:
      tag 2i is entry i's key and tag 2i+1 its value, all in bounds. */
  lemma MapTagsAddressEntries(entries: seq<Entry>, t: nat)
    requires t < 2 * |entries|
    ensures Fits(OpenMap(entries), Pos(t))
    ensures t % 2 == 0 ==> Fetch(OpenMap(entries), Pos(t)) == KeyLeaf(entries[t / 2].key)
    ensures t % 2 == 1 ==> Fetch(OpenMap(entries), Pos(t)) == entries[t / 2].child
  {
  }

  /** The node `beginStructure` roots a nested reader at: `node.getNode(tag)`
      with the tag as one key, `children[tag]`, or `values[tag / 2]`. */
  function StructureNode(r: Reader, t: Tag): Node
    requires Fits(r, t)
  {
    match r
    case RecordReader(node, _) => GetKey(node, t.path)
    case ListReader(children, _) => children[t.pos]
    case MapReader(_, values, _) => values[t.pos / 2]
  }

  /** The reader a structure of this shape is read with. */
  predicate Opens(shape: Structure, r: Reader) {
    match shape
    case ListShape => r.ListReader?
    case MapShape => r.MapReader?
    case _ => r.RecordReader?
  }

  /** `beginStructure`, given the reader's current tag (`None` when its tag
      stack is empty, where `currentTag` throws). A record reader whose cursor
      is still at -1 reuses itself for a class or object; every other case
      opens a fresh reader at the tagged child. */
  function Begin(r: Reader, current: Option<Tag>, shape: Structure): (res: Result<Reader>)
    requires Valid(r) && (current.Some? ==> Fits(r, current.value))
    ensures res.Ok? ==> Valid(res.value) && Opens(shape, res.value)
    ensures r.RecordReader? && shape.IsClassLike() ==> (res == Ok(r) <==> r.index == -1)
    ensures res.Ok? && res.value != r ==> res.value.index == -1 && current.Some?
    ensures current.None? ==> (res.Ok? <==> r.RecordReader? && shape.IsClassLike() && r.index == -1)
    ensures current.Some? && !(r.RecordReader? && shape.IsClassLike() && r.index == -1) ==>
      res == Ok(match shape
        case ListShape => ListReader(ChildrenList(StructureNode(r, current.value)), -1)
        case MapShape => OpenMap(ChildrenMap(StructureNode(r, current.value)))
        case _ => RecordReader(StructureNode(r, current.value), -1))
  {
    if r.RecordReader? && shape.IsClassLike() && r.index == -1 then Ok(r)
    else if current.None? then Err(NoCurrentTag)
    else
      var child := StructureNode(r, current.value);
      match shape
      case ListShape => Ok(ListReader(ChildrenList(child), -1))
      case MapShape => Ok(OpenMap(ChildrenMap(child)))
      case _ => Ok(RecordReader(child, -1))
  }
}
