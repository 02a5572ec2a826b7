/**
 * The BFRES index group: a byte length, a node count, and `count + 1` nodes
 * of 16 bytes.  Node 0 is a reference node carrying no data; the data nodes
 * are 1 to `count`.  Each node names its entry and points at its data.
 */
module BfresIndexGroup {
  import opened Wrappers
  import opened Bytes
  import opened BinaryReader
  import opened BfresOffset

  datatype Node = Node(searchValue: u32, left: u16, right: u16, nameOffset: NameOffset, dataPointer: Offset)
  {
    /** The name is resolved when the node is read. */
    function Name(): seq<byte>
    {
      nameOffset.name
    }
  }

  datatype IndexGroup = IndexGroup(length: u32, nodeCount: u32, nodes: seq<Node>)

  const NodeSize: nat := 16

  /** A node: search value, left and right indices, name offset, data pointer. */
  function ReadNode(r: Reader): (res: Result<Parsed<Node>>)
    ensures res.Ok? ==> res.value.rest == r.(pos := r.pos + NodeSize)
    ensures res.Ok? ==> r.pos + NodeSize <= |r.data|
    ensures res.Err? ==> res.error == Truncated
  {
    var search :- ReadU32(r);
    var left :- ReadU16(search.rest);
    var right :- ReadU16(left.rest);
    var name :- ReadNameOffset(right.rest);
    var pointer :- ReadOffset(name.rest);
    Ok(Parsed(Node(search.value, left.value, right.value, name.value, pointer.value), pointer.rest))
  }

  /**
   * The layout of a node: the search value at 0, the indices at 4 and 6, the
   * name offset at 8 and the data pointer at 12.  Reading fails exactly when
   * the 16 bytes are not there or the name has no terminator.
   */
  lemma NodeLayout(r: Reader)
    ensures ReadNode(r).Ok? ==> var n := ReadNode(r).value.value;
      n.searchValue == U32At(r.data, r.pos, r.order) &&
      n.left == U16At(r.data, r.pos + 4, r.order) && n.right == U16At(r.data, r.pos + 6, r.order) &&
      ReadNameOffset(r.(pos := r.pos + 8)) == Ok(Parsed(n.nameOffset, r.(pos := r.pos + 12))) &&
      ReadOffset(r.(pos := r.pos + 12)) == Ok(Parsed(n.dataPointer, r.(pos := r.pos + 16)))
    ensures ReadNode(r).Err? <==> (r.pos + NodeSize > |r.data| || ReadNameOffset(r.(pos := r.pos + 8)).Err?)
  {
    var p := r.pos;
    var name := ReadNameOffset(r.(pos := p + 8));
    if p + 8 <= |r.data| {
      assert ReadU32(r) == Ok(Parsed(U32At(r.data, p, r.order), r.(pos := p + 4)));
      assert ReadU16(r.(pos := p + 4)) == Ok(Parsed(U16At(r.data, p + 4, r.order), r.(pos := p + 6)));
      assert ReadU16(r.(pos := p + 6)) == Ok(Parsed(U16At(r.data, p + 6, r.order), r.(pos := p + 8)));
    }
    if p + NodeSize <= |r.data| && name.Ok? {
      assert name.value.rest == r.(pos := p + 12);
      var pointer := ReadOffset(r.(pos := p + 12)).value;
      assert ReadNode(r) == Ok(Parsed(Node(U32At(r.data, p, r.order), U16At(r.data, p + 4, r.order), U16At(r.data, p + 6, r.order),
                                           name.value.value, pointer.value), r.(pos := p + 16)));
    }
  }

  /**
   * The length of the node array, `(int)NodeCount + 1` in 32-bit arithmetic:
   * the count wraps to a negative size from 0x7FFFFFFF on, and 0xFFFFFFFF
   * gives no nodes at all.
   */
  function ArrayLength(nodeCount: u32): (n: int)
    ensures nodeCount < 0x7FFF_FFFF ==> n == nodeCount + 1
    ensures nodeCount == 0xFFFF_FFFF ==> n == 0
    ensures n < 0 <==> 0x7FFF_FFFF <= nodeCount < 0xFFFF_FFFF
  {
    ToInt32(Wrap32(ToInt32(nodeCount) + 1))
  }

  /** The position of node `i` of an array of nodes starting at `p`. */
  function NodeStart(p: nat, i: nat): nat
  {
    p + 16 * i
  }

  /** Whether each of `count` nodes, 16 bytes apart from position `p` on, can be read. */
  predicate AllNodesRead(data: seq<byte>, order: ByteOrder, p: nat, count: nat)
  {
    forall i :: 0 <= i < count ==> ReadNode(Reader(data, NodeStart(p, i), order)).Ok?
  }

  /**
   * `count` nodes read one after another: node `i` is the one stored `16 * i`
   * bytes after the first, and the run fails if any of them cannot be read.
   */
  function ReadNodes(data: seq<byte>, order: ByteOrder, p: nat, count: nat): (res: Result<seq<Node>>)
    ensures res.Ok? <==> AllNodesRead(data, order, p, count)
    ensures res.Ok? ==> |res.value| == count
    ensures res.Ok? ==> forall i :: 0 <= i < count ==>
      ReadNode(Reader(data, NodeStart(p, i), order)).Ok? &&
      ReadNode(Reader(data, NodeStart(p, i), order)).value.value == res.value[i]
    ensures res.Err? ==> res.error == Truncated
  {
    if AllNodesRead(data, order, p, count) then
      Ok(seq(count, i requires 0 <= i < count && AllNodesRead(data, order, p, count) =>
        ReadNode(Reader(data, NodeStart(p, i), order)).value.value))
    else
      Err(Truncated)
  }

  /** A group: its byte length, its node count, then the nodes, the reference node first. */
  function ReadIndexGroup(r: Reader): (res: Result<IndexGroup>)
    ensures res.Ok? ==> (r.pos + 8 <= |r.data| &&
      res.value.length == U32At(r.data, r.pos, r.order) &&
      res.value.nodeCount == U32At(r.data, r.pos + 4, r.order))
    ensures res.Ok? ==> |res.value.nodes| == ArrayLength(res.value.nodeCount)
    ensures res.Ok? ==> forall i :: 0 <= i < |res.value.nodes| ==>
      ReadNode(Reader(r.data, NodeStart(r.pos + 8, i), r.order)).Ok? &&
      ReadNode(Reader(r.data, NodeStart(r.pos + 8, i), r.order)).value.value == res.value.nodes[i]
    ensures r.pos + 8 <= |r.data| && ArrayLength(U32At(r.data, r.pos + 4, r.order)) < 0 ==> res == Err(NegativeCount)
  {
    var length :- ReadU32(r);
    var count :- ReadU32(length.rest);
    var n := ArrayLength(count.value);
    if n < 0 then Err(NegativeCount)
    else
      var nodes :- ReadNodes(r.data, r.order, r.pos + 8, n);
      Ok(IndexGroup(length.value, count.value, nodes))
  }

  /** The indexer by name: the first node, the reference node included, with that name. */
  function NodeByName(nodes: seq<Node>, name: seq<byte>): (r: Option<Node>)
    ensures r.Some? ==> r.value in nodes && r.value.Name() == name
    ensures r.None? <==> forall i :: 0 <= i < |nodes| ==> nodes[i].Name() != name
    decreases |nodes|
  {
    if |nodes| == 0 then None
    else if nodes[0].Name() == name then Some(nodes[0])
    else NodeByName(nodes[1..], name)
  }

  /** The smallest index of a node with that name, counted from `from`. */
  function IndexOfName(nodes: seq<Node>, name: seq<byte>, from: nat): (r: Option<nat>)
    requires from <= |nodes|
    ensures r.Some? ==> (from <= r.value < |nodes| && nodes[r.value].Name() == name &&
      forall j :: from <= j < r.value ==> nodes[j].Name() != name)
    ensures r.None? <==> forall j :: from <= j < |nodes| ==> nodes[j].Name() != name
    decreases |nodes| - from
  {
    if from == |nodes| then None
    else if nodes[from].Name() == name then Some(from)
    else IndexOfName(nodes, name, from + 1)
  }

  /** `GetIndexByName`: a scan from index 0 that stops at the first match. */
  method GetIndexByName(g: IndexGroup, name: seq<byte>) returns (res: Option<nat>)
    ensures res == IndexOfName(g.nodes, name, 0)
    ensures res.Some? ==> (res.value < |g.nodes| && g.nodes[res.value].Name() == name &&
      forall j :: 0 <= j < res.value ==> g.nodes[j].Name() != name)
    ensures res.None? <==> forall j :: 0 <= j < |g.nodes| ==> g.nodes[j].Name() != name
  {
    var i := 0;
    while i < |g.nodes|
      invariant 0 <= i <= |g.nodes|
      invariant IndexOfName(g.nodes, name, 0) == IndexOfName(g.nodes, name, i)
    {
      if g.nodes[i].Name() == name {
        return Some(i);
      }
      i := i + 1;
    }
    return None;
  }

  /** The two lookups agree: the node the name indexer returns sits at the index `GetIndexByName` returns. */
  lemma {:induction false} LookupsAgree(nodes: seq<Node>, name: seq<byte>)
    ensures NodeByName(nodes, name) ==
      match IndexOfName(nodes, name, 0)
      case None => None
      case Some(i) => Some(nodes[i])
    decreases |nodes|
  {
    if |nodes| > 0 && nodes[0].Name() != name {
      LookupsAgree(nodes[1..], name);
      IndexOfNameShift(nodes, name, 1);
    }
  }

  /** Dropping the first `k` nodes shifts every index found from `k` on by `k`. */
  lemma {:induction false} IndexOfNameShift(nodes: seq<Node>, name: seq<byte>, k: nat)
    requires k <= |nodes|
    ensures IndexOfName(nodes, name, k) ==
      match IndexOfName(nodes[k..], name, 0)
      case None => None
      case Some(i) => Some(i + k)
  {
    var r := IndexOfName(nodes, name, k);
    var s := IndexOfName(nodes[k..], name, 0);
    if s.Some? {
      assert nodes[k + s.value] == nodes[k..][s.value];
      assert forall j :: k <= j < k + s.value ==> nodes[j] == nodes[k..][j - k];
    } else {
      assert forall j :: k <= j < |nodes| ==> nodes[j] == nodes[k..][j - k];
    }
  }

  /** The indexer by position returns the node as it was read, and fails outside the array. */
  function NodeAt(nodes: seq<Node>, index: int): (r: Result<Node>)
    ensures r.Ok? <==> 0 <= index < |nodes|
    ensures r.Ok? ==> r.value == nodes[index]
    ensures r.Err? ==> r.error == IndexOutOfRange
  {
    if 0 <= index < |nodes| then Ok(nodes[index]) else Err(IndexOutOfRange)
  }

  /** The value an entry decoder reads at the target of a node's data pointer. */
  function DecodeAt<T>(data: seq<byte>, order: ByteOrder, node: Node, decode: Reader -> Result<T>): Result<T>
  {
    decode(Reader(data, node.dataPointer.toFile, order))
  }

  /**
   * The entries of a group: one value per data node, in node order, each
   * decoded at the node's data pointer; the reference node is skipped.
   */
  function LoadEntries<T>(data: seq<byte>, order: ByteOrder, nodes: seq<Node>, from: nat,
                          decode: Reader -> Result<T>): (r: Result<seq<T>>)
    requires 1 <= from
    ensures r.Ok? ==> |r.value| == if from <= |nodes| then |nodes| - from else 0
    ensures r.Ok? ==> forall i :: 0 <= i < |r.value| ==> DecodeAt(data, order, nodes[from + i], decode) == Ok(r.value[i])
    ensures r.Err? <==> exists i :: from <= i < |nodes| && DecodeAt(data, order, nodes[i], decode).Err?
    decreases |nodes| - from
  {
    if from >= |nodes| then Ok([])
    else
      var first :- DecodeAt(data, order, nodes[from], decode);
      var others :- LoadEntries(data, order, nodes, from + 1, decode);
      Ok([first] + others)
  }

  /** A group together with the entries its data nodes point at, as the importer keeps it. */
  datatype Collection<T> = Collection(group: IndexGroup, entries: seq<T>)

  /**
   * `IndexGroup(reader, loader)` of the importer: the group at the cursor,
   * then one entry per data node, decoded at the node's data pointer.
   */
  function LoadCollection<T>(r: Reader, decode: Reader -> Result<T>): (res: Result<Collection<T>>)
    ensures res.Ok? ==> ReadIndexGroup(r) == Ok(res.value.group)
    ensures res.Ok? ==> |res.value.entries| == if |res.value.group.nodes| == 0 then 0 else |res.value.group.nodes| - 1
    ensures res.Ok? ==> forall i :: 0 <= i < |res.value.entries| ==>
      DecodeAt(r.data, r.order, res.value.group.nodes[i + 1], decode) == Ok(res.value.entries[i])
    ensures res.Err? <==> (ReadIndexGroup(r).Err? ||
      exists i :: 1 <= i < |ReadIndexGroup(r).value.nodes| && DecodeAt(r.data, r.order, ReadIndexGroup(r).value.nodes[i], decode).Err?)
  {
    var g :- ReadIndexGroup(r);
    var entries :- LoadEntries(r.data, r.order, g.nodes, 1, decode);
    Ok(Collection(g, entries))
  }
}
