/** The configuration tree the decoder walks, read-only.

    This stands in for configurate's `ConfigurationNode`: only the handful of
    queries the parser uses are modelled (`value`, `isVirtual`, `getNode` by
    one key and by a path, `childrenList`, `childrenMap`), as plain functions on
    an immutable tree rather than the library's semantics.
 */
module ConfigTree {
  import opened Results

  /** A scalar as a loader stores it. */
  datatype Atom = Text(text: string) | Number(number: int) | Fraction(fraction: real) | Truth(truth: bool)

  /** One position of the tree. `Virtual` is what a lookup of a missing key
      returns: "probed, but nothing is there". `Leaf(None)` is a node that
      exists but holds null. */
  datatype Node =
    | Virtual
    | Leaf(atom: Option<Atom>)
    | ListNode(items: seq<Node>)
    | MapNode(entries: seq<Entry>)

  /** One key/child pair of a map node; keys are already strings, which is
      what `it.key.toString()` yields for the loaders' keys. */
  datatype Entry = Entry(key: string, child: Node)

  /** The raw value of a node, `node.value`: a scalar, or for a list or map
      node the aggregate itself. */
  datatype Value = Scalar(scalar: Atom) | Aggregate(node: Node)

  predicate IsVirtual(n: Node) {
    n.Virtual?
  }

  /** `node.value`: absent exactly for virtual nodes and explicit nulls. */
  function RawValue(n: Node): (v: Option<Value>)
    ensures v.None? <==> n.Virtual? || n == Leaf(None)
  {
    match n
    case Virtual => None
    case Leaf(a) => if a.Some? then Some(Scalar(a.value)) else None
    case ListNode(_) => Some(Aggregate(n))
    case MapNode(_) => Some(Aggregate(n))
  }

  /** The child stored under `key`, the first one if the key repeats. */
  function Lookup(entries: seq<Entry>, key: string): (r: Option<Node>)
    ensures r.None? <==> forall i :: 0 <= i < |entries| ==> entries[i].key != key
    ensures r.Some? ==> exists i :: 0 <= i < |entries| && entries[i] == Entry(key, r.value)
    decreases |entries|
  {
    if entries == [] then None
    else if entries[0].key == key then Some(entries[0].child)
    else
      var r := Lookup(entries[1..], key);
      assert forall i :: 1 <= i < |entries| ==> entries[i] == entries[1..][i - 1];
      r
  }

  /** `node.getNode(key)` with a single key: the named child of a map node,
      and a virtual node for every key that is not there. */
  function GetKey(n: Node, key: string): (c: Node)
    ensures !n.MapNode? ==> c.Virtual?
  {
    match n
    case MapNode(es) => (match Lookup(es, key) case Some(child) => child case None => Virtual)
    case _ => Virtual
  }

  /** `node.getNode(path)`: one `GetKey` per segment. */
  function GetPath(n: Node, path: seq<string>): Node
    decreases |path|
  {
    if path == [] then n else GetPath(GetKey(n, path[0]), path[1..])
  }

  /** `childrenList`: the items of a list node, empty for any other node. */
  function ChildrenList(n: Node): seq<Node> {
    if n.ListNode? then n.items else []
  }

  /** `childrenMap`: the entries of a map node in order, empty for any other node. */
  function ChildrenMap(n: Node): seq<Entry> {
    if n.MapNode? then n.entries else []
  }

  /** The throw-away root node holding only a map key as its value
      (`SimpleConfigurationNode.root().apply { value = key }`). */
  function KeyLeaf(key: string): Node {
    Leaf(Some(Text(key)))
  }

  /** Walking a path in two pieces reaches the same node as walking it at once. */
  lemma {:induction false} GetPathAppend(n: Node, p: seq<string>, q: seq<string>)
    ensures GetPath(n, p + q) == GetPath(GetPath(n, p), q)
    decreases |p|
  {
    if p != [] {
      assert (p + q)[0] == p[0] && (p + q)[1..] == p[1..] + q;
      GetPathAppend(GetKey(n, p[0]), p[1..], q);
    } else {
      assert p + q == q;
    }
  }

  /** A one-segment path is a single-key lookup. */
  lemma GetPathSingle(n: Node, key: string)
    ensures GetPath(n, [key]) == GetKey(n, key)
  {
    assert [key][1..] == [];
  }
}
