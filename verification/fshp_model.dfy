/**
 * The FSHP shape of the C# loader: a 64-byte header naming the material,
 * bone and vertex buffer the shape uses, then, with the cursor restored
 * behind the header, the levels of detail, the visibility nodes with their
 * child links, group slices and ranges, the visibility indices and the
 * skeleton offsets.  Every array is read at its offset whether that offset is
 * set or not.
 */
module FshpModel {
  import opened Wrappers
  import opened Bytes
  import opened BinaryReader
  import opened BfresOffset
  import opened Records
  import opened Warnings
  import opened FshpIndexBuffer

  /** A slice of the index buffer: a byte offset and a number of indices. */
  datatype VisibilityGroup = VisibilityGroup(offset: u32, count: u32)

  function ReadVisibilityGroup(r: Reader): (res: Result<Parsed<VisibilityGroup>>)
    ensures res.Ok? <==> r.pos + 8 <= |r.data|
    ensures res.Ok? ==> res.value == Parsed(VisibilityGroup(U32At(r.data, r.pos, r.order),
      U32At(r.data, r.pos + 4, r.order)), r.(pos := r.pos + 8))
  {
    var offset :- ReadU32(r);
    var count :- ReadU32(offset.rest);
    Ok(Parsed(VisibilityGroup(offset.value, count.value), count.rest))
  }

  lemma VisibilityGroupFixedSize()
    ensures FixedSize(ReadVisibilityGroup, 8)
  {
  }

  datatype LodHeader = LodHeader(unknown0x00: u32, unknown0x04: u32, totalPointCount: u32, visibilityGroupCount: u16,
                                 unknown0x0E: u16, visibilityGroupOffset: Offset, indexBufferOffset: Offset,
                                 skipElements: u32, warnings: seq<Warning>)

  datatype LodModel = LodModel(header: LodHeader, visibilityGroups: seq<VisibilityGroup>, indexBuffer: IndexBuffer)

  const LodModelSize: nat := 28

  /** The 28-byte header of a level of detail: three fields that only warn, the group count and the two offsets. */
  function ReadLodHeader(r: Reader): (res: Result<Parsed<LodHeader>>)
    ensures res.Ok? <==> r.pos + LodModelSize <= |r.data|
    ensures res.Ok? ==> res.value.rest == r.(pos := r.pos + LodModelSize)
    ensures res.Err? ==> res.error == Truncated
  {
    var unknown0x00 :- ReadU32(r);
    var unknown0x04 :- ReadU32(unknown0x00.rest);
    var total :- ReadU32(unknown0x04.rest);
    var groupCount :- ReadU16(total.rest);
    var unknown0x0E :- ReadU16(groupCount.rest);
    var groupOffset :- ReadOffset(unknown0x0E.rest);
    var bufferOffset :- ReadOffset(groupOffset.rest);
    var skip :- ReadU32(bufferOffset.rest);
    var warnings := Expect("FshpLodModel.Unknown0x00", unknown0x00.value, {4}) +
      Expect("FshpLodModel.Unknown0x04", unknown0x04.value, {4}) +
      Expect("FshpLodModel.Unknown0x0E", unknown0x0E.value, {0});
    Ok(Parsed(LodHeader(unknown0x00.value, unknown0x04.value, total.value, groupCount.value, unknown0x0E.value,
                        groupOffset.value, bufferOffset.value, skip.value, warnings), skip.rest))
  }

  /** The header the reads give when its 28 bytes are there, field by field from its position. */
  function LodHeaderAt(r: Reader): (h: LodHeader)
    requires r.pos + LodModelSize <= |r.data|
  {
    var p := r.pos;
    var unknown0x00 := U32At(r.data, p, r.order);
    var unknown0x04 := U32At(r.data, p + 4, r.order);
    var unknown0x0E := U16At(r.data, p + 14, r.order);
    LodHeader(unknown0x00, unknown0x04, U32At(r.data, p + 8, r.order), U16At(r.data, p + 12, r.order), unknown0x0E,
              OffsetAt(r, p + 16), OffsetAt(r, p + 20),
              U32At(r.data, p + 24, r.order),
              Expect("FshpLodModel.Unknown0x00", unknown0x00, {4}) +
              Expect("FshpLodModel.Unknown0x04", unknown0x04, {4}) +
              Expect("FshpLodModel.Unknown0x0E", unknown0x0E, {0}))
  }

  /**
   * The layout of the header: the reads, one by one, land on the fields of
   * `LodHeaderAt` (the group count at 12, the offsets at 16 and 20, warnings
   * from the words at 0 and 4 and the 16-bit field at 14).
   */
  lemma LodHeaderReads(r: Reader)
    requires r.pos + LodModelSize <= |r.data|
    ensures ReadLodHeader(r) == Ok(Parsed(LodHeaderAt(r), r.(pos := r.pos + LodModelSize)))
  {
    var p := r.pos;
    assert ReadU32(r) == Ok(Parsed(U32At(r.data, p, r.order), r.(pos := p + 4)));
    assert ReadU32(r.(pos := p + 4)) == Ok(Parsed(U32At(r.data, p + 4, r.order), r.(pos := p + 8)));
    assert ReadU32(r.(pos := p + 8)) == Ok(Parsed(U32At(r.data, p + 8, r.order), r.(pos := p + 12)));
    assert ReadU16(r.(pos := p + 12)) == Ok(Parsed(U16At(r.data, p + 12, r.order), r.(pos := p + 14)));
    assert ReadU16(r.(pos := p + 14)) == Ok(Parsed(U16At(r.data, p + 14, r.order), r.(pos := p + 16)));
    assert ReadOffset(r.(pos := p + 16)) == Ok(Parsed(OffsetAt(r, p + 16), r.(pos := p + 20)));
    assert ReadOffset(r.(pos := p + 20)) == Ok(Parsed(OffsetAt(r, p + 20), r.(pos := p + 24)));
    assert ReadU32(r.(pos := p + 24)) == Ok(Parsed(U32At(r.data, p + 24, r.order), r.(pos := p + 28)));
  }

  /**
   * `FshpLodModel.Load`: the header, then, with the cursor restored, the
   * visibility groups at their offset and the index buffer at its offset.
   */
  function ReadLodModel(r: Reader): (res: Result<Parsed<LodModel>>)
    ensures res.Ok? ==> (ReadLodHeader(r).Ok? && res.value.value.header == ReadLodHeader(r).value.value &&
      res.value.rest == r.(pos := r.pos + LodModelSize))
    ensures res.Ok? ==> (var h := res.value.value.header;
      |res.value.value.visibilityGroups| == h.visibilityGroupCount &&
      ReadArray(r.(pos := h.visibilityGroupOffset.toFile), h.visibilityGroupCount, ReadVisibilityGroup).Ok? &&
      res.value.value.visibilityGroups ==
        ReadArray(r.(pos := h.visibilityGroupOffset.toFile), h.visibilityGroupCount, ReadVisibilityGroup).value.value)
    ensures res.Ok? ==> (ReadIndexBuffer(r.(pos := res.value.value.header.indexBufferOffset.toFile)).Ok? &&
      res.value.value.indexBuffer ==
        ReadIndexBuffer(r.(pos := res.value.value.header.indexBufferOffset.toFile)).value.value)
    ensures r.pos + LodModelSize > |r.data| ==> res == Err(Truncated)
  {
    var h :- ReadLodHeader(r);
    var groups :- ReadArray(r.(pos := h.value.visibilityGroupOffset.toFile), h.value.visibilityGroupCount,
      ReadVisibilityGroup);
    var buffer :- ReadIndexBuffer(r.(pos := h.value.indexBufferOffset.toFile));
    Ok(Parsed(LodModel(h.value, groups.value, buffer.value), h.rest))
  }

  lemma LodModelFixedSize()
    ensures FixedSize(ReadLodModel, LodModelSize)
  {
  }

  /** The six 16-bit fields of a visibility node as they are stored. */
  datatype NodeRecord = NodeRecord(leftNodeIndex: u16, rightNodeIndex: u16, unknown0x04: u16, siblingNodeIndex: u16,
                                   visibilityGroupIndex: u16, visibilityGroupCount: u16)

  const NodeRecordSize: nat := 12

  function ReadNodeRecord(r: Reader): (res: Result<Parsed<NodeRecord>>)
    ensures res.Ok? <==> r.pos + NodeRecordSize <= |r.data|
    ensures res.Ok? ==> res.value.rest == r.(pos := r.pos + NodeRecordSize)
    ensures res.Ok? ==> (res.value.value.leftNodeIndex == U16At(r.data, r.pos, r.order) &&
      res.value.value.rightNodeIndex == U16At(r.data, r.pos + 2, r.order) &&
      res.value.value.visibilityGroupIndex == U16At(r.data, r.pos + 8, r.order) &&
      res.value.value.visibilityGroupCount == U16At(r.data, r.pos + 10, r.order))
  {
    var left :- ReadU16(r);
    var right :- ReadU16(left.rest);
    var unknown0x04 :- ReadU16(right.rest);
    var sibling :- ReadU16(unknown0x04.rest);
    var groupIndex :- ReadU16(sibling.rest);
    var groupCount :- ReadU16(groupIndex.rest);
    Ok(Parsed(NodeRecord(left.value, right.value, unknown0x04.value, sibling.value, groupIndex.value,
                         groupCount.value), groupCount.rest))
  }

  lemma NodeRecordFixedSize()
    ensures FixedSize(ReadNodeRecord, NodeRecordSize)
  {
  }

  /**
   * A linked visibility node: its record, its children (none where the
   * record names the node itself), its slice of the first level of detail's
   * visibility groups and its two range positions, kept as float bit patterns.
   */
  datatype VisibilityNode = VisibilityNode(record: NodeRecord, left: Option<nat>, right: Option<nat>,
                                           visibilityGroups: seq<VisibilityGroup>, position1: seq<u32>,
                                           position2: seq<u32>)

  /** A child link of node `self`: an index naming the node itself leaves the child unset, any other must name a node. */
  function ChildLink(index: u16, self: nat, count: nat): (res: Result<Option<nat>>)
    ensures res.Ok? <==> index == self || index < count
    ensures res.Ok? ==> (res.value.None? <==> index == self)
    ensures res.Ok? && res.value.Some? ==> res.value.value == index
    ensures res.Err? ==> res.error == IndexOutOfRange
  {
    if index == self then Ok(None)
    else if index < count then Ok(Some(index as nat))
    else Err(IndexOutOfRange)
  }

  /**
   * The groups `index` to `index + count - 1` of the first level of detail
   * (`lod0`, absent when there are no levels of detail).  With a count of 0
   * nothing is dereferenced.
   */
  function GroupSlice(lod0: Option<seq<VisibilityGroup>>, index: nat, count: nat): (res: Result<seq<VisibilityGroup>>)
    ensures res.Ok? <==> count == 0 || (lod0.Some? && index + count <= |lod0.value|)
    ensures res.Ok? ==> |res.value| == count
    ensures res.Ok? ==> forall j :: 0 <= j < count ==> res.value[j] == lod0.value[index + j]
    ensures res.Err? ==> res.error == IndexOutOfRange
  {
    if count == 0 then Ok([])
    else if lod0.None? || index + count > |lod0.value| then Err(IndexOutOfRange)
    else Ok(lod0.value[index..index + count])
  }

  const RangeSize: nat := 24

  /** Whether node `i`'s links and group slice resolve. */
  predicate Resolves(records: seq<NodeRecord>, lod0: Option<seq<VisibilityGroup>>, i: nat)
    requires i < |records|
  {
    var rec := records[i];
    ChildLink(rec.leftNodeIndex, i, |records|).Ok? && ChildLink(rec.rightNodeIndex, i, |records|).Ok? &&
    GroupSlice(lod0, rec.visibilityGroupIndex, rec.visibilityGroupCount).Ok?
  }

  /**
   * Iteration `i` of the linking loop: the left link, the right link, the
   * group slice, then the two positions.  The positions are read one after
   * the other from the range cursor, which every earlier iteration advanced by
   * 24 bytes, so iteration `i` reads at `24 * i` past the range offset.
   */
  function LinkNode(records: seq<NodeRecord>, lod0: Option<seq<VisibilityGroup>>, ranges: Reader, i: nat)
    : (res: Result<VisibilityNode>)
    requires i < |records|
    ensures res.Ok? <==> Resolves(records, lod0, i) && RecordAt(ranges, RangeSize, i).pos + RangeSize <= |ranges.data|
    ensures res.Err? ==> (res.error == IndexOutOfRange <==> !Resolves(records, lod0, i))
    ensures res.Err? ==> res.error in {IndexOutOfRange, Truncated}
    ensures res.Ok? ==> res.value.record == records[i]
  {
    var rec := records[i];
    var left :- ChildLink(rec.leftNodeIndex, i, |records|);
    var right :- ChildLink(rec.rightNodeIndex, i, |records|);
    var groups :- GroupSlice(lod0, rec.visibilityGroupIndex, rec.visibilityGroupCount);
    var position1 :- ReadWords(RecordAt(ranges, RangeSize, i), 3);
    var position2 :- ReadWords(position1.rest, 3);
    Ok(VisibilityNode(rec, left, right, groups, position1.value, position2.value))
  }

  /**
   * What iteration `i` links: a child index naming the node itself leaves
   * that child unset and any other names a node; the groups are the slice of
   * the first level of detail's groups the record gives; the two positions
   * are the six words at `24 * i` past the range offset.
   */
  lemma LinkNodeFields(records: seq<NodeRecord>, lod0: Option<seq<VisibilityGroup>>, ranges: Reader, i: nat)
    requires i < |records| && LinkNode(records, lod0, ranges, i).Ok?
    ensures var n := LinkNode(records, lod0, ranges, i).value;
      (n.left.None? <==> records[i].leftNodeIndex == i) &&
      (n.left.Some? ==> n.left.value == records[i].leftNodeIndex < |records|) &&
      (n.right.None? <==> records[i].rightNodeIndex == i) &&
      (n.right.Some? ==> n.right.value == records[i].rightNodeIndex < |records|)
    ensures var n := LinkNode(records, lod0, ranges, i).value;
      |n.visibilityGroups| == records[i].visibilityGroupCount &&
      forall j :: 0 <= j < records[i].visibilityGroupCount ==>
        n.visibilityGroups[j] == lod0.value[records[i].visibilityGroupIndex + j]
    ensures var n := LinkNode(records, lod0, ranges, i).value;
      n.position1 == U32sAt(ranges.data, RecordAt(ranges, RangeSize, i).pos, 3, ranges.order) &&
      n.position2 == U32sAt(ranges.data, RecordAt(ranges, RangeSize, i).pos + 12, 3, ranges.order)
  {
  }

  /** The linking loop from iteration `i` on: it stops at the first iteration that fails. */
  function LinkNodesFrom(records: seq<NodeRecord>, lod0: Option<seq<VisibilityGroup>>, ranges: Reader, i: nat)
    : (res: Result<seq<VisibilityNode>>)
    requires i <= |records|
    ensures res.Ok? <==> forall k :: i <= k < |records| ==> LinkNode(records, lod0, ranges, k).Ok?
    ensures res.Ok? ==> |res.value| == |records| - i
    ensures res.Ok? ==> forall k :: i <= k < |records| ==> LinkNode(records, lod0, ranges, k) == Ok(res.value[k - i])
    ensures res.Err? ==> res.error in {IndexOutOfRange, Truncated}
    decreases |records| - i
  {
    if i == |records| then Ok([])
    else
      var first :- LinkNode(records, lod0, ranges, i);
      var others :- LinkNodesFrom(records, lod0, ranges, i + 1);
      Ok([first] + others)
  }

  /** Iteration `k` is the first from `i` on to fail, and it fails with `e`. */
  predicate FailsFirstAt(records: seq<NodeRecord>, lod0: Option<seq<VisibilityGroup>>, ranges: Reader, i: nat, k: nat,
                         e: Error)
  {
    i <= k < |records| && (forall j :: i <= j < k ==> LinkNode(records, lod0, ranges, j).Ok?) &&
    LinkNode(records, lod0, ranges, k) == Err(e)
  }

  /** A failing loop fails with the error of its first failing iteration. */
  lemma {:induction false} LinkNodesFirstFailure(records: seq<NodeRecord>, lod0: Option<seq<VisibilityGroup>>,
                                                 ranges: Reader, i: nat)
    requires i <= |records| && LinkNodesFrom(records, lod0, ranges, i).Err?
    ensures exists k :: FailsFirstAt(records, lod0, ranges, i, k, LinkNodesFrom(records, lod0, ranges, i).error)
    decreases |records| - i
  {
    var whole := LinkNodesFrom(records, lod0, ranges, i);
    if LinkNode(records, lod0, ranges, i).Ok? {
      var tail := LinkNodesFrom(records, lod0, ranges, i + 1);
      assert tail.Err? && tail.error == whole.error;
      LinkNodesFirstFailure(records, lod0, ranges, i + 1);
      var k :| FailsFirstAt(records, lod0, ranges, i + 1, k, tail.error);
      assert FailsFirstAt(records, lod0, ranges, i, k, whole.error);
    } else {
      assert FailsFirstAt(records, lod0, ranges, i, i, whole.error);
    }
  }

  /** The records of a list of linked nodes. */
  function RecordsOf(nodes: seq<VisibilityNode>): (records: seq<NodeRecord>)
    ensures |records| == |nodes|
    ensures forall i :: 0 <= i < |nodes| ==> records[i] == nodes[i].record
  {
    seq(|nodes|, i requires 0 <= i < |nodes| => nodes[i].record)
  }

  /** The visibility groups of the first level of detail, absent when there is none. */
  function FirstLodGroups(lodModels: seq<LodModel>): (groups: Option<seq<VisibilityGroup>>)
    ensures groups.Some? <==> |lodModels| > 0
    ensures groups.Some? ==> groups.value == lodModels[0].visibilityGroups
  {
    if |lodModels| > 0 then Some(lodModels[0].visibilityGroups) else None
  }

  datatype Header = Header(nameOffset: NameOffset, unknown0x08: u32, index: u16, materialIndex: u16, boneIndex: u16,
                           vertexBufferIndex: u16, skeletonIndexArrayCount: u16, unknown0x16: byte,
                           lodModelCount: byte, visibilityNodeCount: u32, unknown0x1C: u32,
                           vertexBufferOffset: Offset, lodModelOffset: Offset, skeletonIndexArrayOffset: Offset,
                           unknown0x2C: u32, visibilityNodesOffset: Offset, visibilityRangesOffset: Offset,
                           visibilityIndicesOffset: Offset, unknown0x3C: u32, warnings: seq<Warning>)

  const HeaderSize: nat := 0x40

  /**
   * `FshpModel.Load` up to the restore point: "FSHP", the name, the indices
   * of the material, bone and vertex buffer, the counts, the offsets and
   * three fields that only warn.
   */
  function ReadHeader(r: Reader): (res: Result<Parsed<Header>>)
    ensures res == Err(BadMagic) <==> !TagAt(r.data, r.pos, FshpTag)
    ensures res.Ok? <==> (TagAt(r.data, r.pos, FshpTag) && r.pos + HeaderSize <= |r.data| &&
      ReadNameOffset(r.(pos := r.pos + 4)).Ok?)
    ensures res.Ok? ==> (res.value.rest == r.(pos := r.pos + HeaderSize) &&
      res.value.value.nameOffset == ReadNameOffset(r.(pos := r.pos + 4)).value.value)
    ensures res.Ok? ==> (var h := res.value.value;
      h.materialIndex == U16At(r.data, r.pos + 0x0E, r.order) &&
      h.boneIndex == U16At(r.data, r.pos + 0x10, r.order) &&
      h.vertexBufferIndex == U16At(r.data, r.pos + 0x12, r.order) &&
      h.skeletonIndexArrayCount == U16At(r.data, r.pos + 0x14, r.order) &&
      h.lodModelCount == r.data[r.pos + 0x17] &&
      h.visibilityNodeCount == U32At(r.data, r.pos + 0x18, r.order))
    ensures res.Ok? ==> (res.value.value.warnings ==
      Expect("FshpModel.Unknown0x08", U32At(r.data, r.pos + 8, r.order), {2}) +
      Expect("FshpModel.Unknown0x2C", U32At(r.data, r.pos + 0x2C, r.order), {0}) +
      Expect("FshpModel.Unknown0x3C", U32At(r.data, r.pos + 0x3C, r.order), {0}))
  {
    if !TagAt(r.data, r.pos, FshpTag) then Err(BadMagic)
    else
      var name :- ReadNameOffset(r.(pos := r.pos + 4));
      var unknown0x08 :- ReadU32(name.rest);
      var index :- ReadU16(unknown0x08.rest);
      var material :- ReadU16(index.rest);
      var bone :- ReadU16(material.rest);
      var vertexBuffer :- ReadU16(bone.rest);
      var skeletonCount :- ReadU16(vertexBuffer.rest);
      var unknown0x16 :- ReadByte(skeletonCount.rest);
      var lodCount :- ReadByte(unknown0x16.rest);
      var nodeCount :- ReadU32(lodCount.rest);
      var unknown0x1C :- ReadU32(nodeCount.rest);
      var vertexBufferOffset :- ReadOffset(unknown0x1C.rest);
      var lodOffset :- ReadOffset(vertexBufferOffset.rest);
      var skeletonOffset :- ReadOffset(lodOffset.rest);
      var unknown0x2C :- ReadU32(skeletonOffset.rest);
      var nodesOffset :- ReadOffset(unknown0x2C.rest);
      var rangesOffset :- ReadOffset(nodesOffset.rest);
      var indicesOffset :- ReadOffset(rangesOffset.rest);
      var unknown0x3C :- ReadU32(indicesOffset.rest);
      var warnings := Expect("FshpModel.Unknown0x08", unknown0x08.value, {2}) +
        Expect("FshpModel.Unknown0x2C", unknown0x2C.value, {0}) +
        Expect("FshpModel.Unknown0x3C", unknown0x3C.value, {0});
      Ok(Parsed(Header(name.value, unknown0x08.value, index.value, material.value, bone.value, vertexBuffer.value,
                       skeletonCount.value, unknown0x16.value, lodCount.value, nodeCount.value, unknown0x1C.value,
                       vertexBufferOffset.value, lodOffset.value, skeletonOffset.value, unknown0x2C.value,
                       nodesOffset.value, rangesOffset.value, indicesOffset.value, unknown0x3C.value, warnings),
                unknown0x3C.rest))
  }

  /** `count` node records one after another from `start`: record `i` is the one stored `12 * i` bytes on. */
  function ReadNodeRecords(start: Reader, count: nat): (res: Result<seq<NodeRecord>>)
    ensures res.Ok? <==> forall i :: 0 <= i < count ==> ReadNodeRecord(RecordAt(start, NodeRecordSize, i)).Ok?
    ensures res.Ok? ==> |res.value| == count
    ensures res.Ok? ==> forall i :: 0 <= i < count ==>
      ReadNodeRecord(RecordAt(start, NodeRecordSize, i)) ==
        Ok(Parsed(res.value[i], RecordAt(start, NodeRecordSize, i + 1)))
    ensures res.Err? ==> res.error == Truncated
  {
    NodeRecordFixedSize();
    FixedSizeArray(start, count, ReadNodeRecord, NodeRecordSize);
    var records := ReadArray(start, count, ReadNodeRecord);
    if records.Ok? then Ok(records.value.value)
    else Err(Truncated)
  }

  /**
   * `LoadVisibilityNodes`: the list is created with capacity
   * `(int)VisibilityNodeCount`, which fails for counts from 2^31 on; then the
   * records are read one after another and the linking loop runs over them.
   */
  function LoadVisibilityNodes(r: Reader, h: Header, lodModels: seq<LodModel>): (res: Result<seq<VisibilityNode>>)
    ensures h.visibilityNodeCount >= 0x8000_0000 ==> res == Err(NegativeCount)
    ensures res.Ok? ==> |res.value| == h.visibilityNodeCount
    ensures res.Ok? ==> forall i :: 0 <= i < |res.value| ==>
      ReadNodeRecord(RecordAt(r.(pos := h.visibilityNodesOffset.toFile), NodeRecordSize, i)) ==
        Ok(Parsed(res.value[i].record, RecordAt(r.(pos := h.visibilityNodesOffset.toFile), NodeRecordSize, i + 1)))
    ensures res.Ok? ==> forall i :: 0 <= i < |res.value| ==>
      LinkNode(RecordsOf(res.value), FirstLodGroups(lodModels), r.(pos := h.visibilityRangesOffset.toFile), i) ==
        Ok(res.value[i])
  {
    if h.visibilityNodeCount >= 0x8000_0000 then Err(NegativeCount)
    else
      var records :- ReadNodeRecords(r.(pos := h.visibilityNodesOffset.toFile), h.visibilityNodeCount);
      var ranges := r.(pos := h.visibilityRangesOffset.toFile);
      var nodes :- LinkNodesFrom(records, FirstLodGroups(lodModels), ranges, 0);
      assert RecordsOf(nodes) == records by {
        forall i | 0 <= i < |nodes|
          ensures nodes[i].record == records[i]
        {
          assert LinkNode(records, FirstLodGroups(lodModels), ranges, i) == Ok(nodes[i - 0]);
        }
      }
      Ok(nodes)
  }

  datatype Model = Model(header: Header, lodModels: seq<LodModel>, visibilityNodes: seq<VisibilityNode>,
                         visibilityIndices: seq<u16>, skeletonOffsets: seq<u16>)

  /**
   * `FshpModel.Load`: the header, then the levels of detail, the visibility
   * nodes, the visibility indices (as many as there are nodes) and the
   * skeleton offsets, with the cursor restored behind the header.
   */
  function ReadModel(r: Reader): (res: Result<Parsed<Model>>)
    ensures !TagAt(r.data, r.pos, FshpTag) ==> res == Err(BadMagic)
    ensures res.Ok? ==> (ReadHeader(r).Ok? && res.value.value.header == ReadHeader(r).value.value &&
      res.value.rest == r.(pos := r.pos + HeaderSize))
    ensures res.Ok? ==> ReadArray(r.(pos := res.value.value.header.lodModelOffset.toFile),
      res.value.value.header.lodModelCount, ReadLodModel).Ok?
    ensures res.Ok? ==> res.value.value.lodModels == ReadArray(r.(pos := res.value.value.header.lodModelOffset.toFile),
      res.value.value.header.lodModelCount, ReadLodModel).value.value
    ensures res.Ok? ==> (LoadVisibilityNodes(res.value.rest, res.value.value.header, res.value.value.lodModels) ==
      Ok(res.value.value.visibilityNodes))
    ensures res.Ok? ==> (var h := res.value.value.header;
      U16sFit(r.data, h.visibilityIndicesOffset.toFile, h.visibilityNodeCount) &&
      res.value.value.visibilityIndices == U16sAt(r.data, h.visibilityIndicesOffset.toFile, h.visibilityNodeCount, r.order) &&
      U16sFit(r.data, h.skeletonIndexArrayOffset.toFile, h.skeletonIndexArrayCount) &&
      res.value.value.skeletonOffsets ==
        U16sAt(r.data, h.skeletonIndexArrayOffset.toFile, h.skeletonIndexArrayCount, r.order))
  {
    var h :- ReadHeader(r);
    var body := h.rest;
    var lods :- ReadArray(body.(pos := h.value.lodModelOffset.toFile), h.value.lodModelCount, ReadLodModel);
    var nodes :- LoadVisibilityNodes(body, h.value, lods.value);
    var indices :- ReadU16s(body.(pos := h.value.visibilityIndicesOffset.toFile), h.value.visibilityNodeCount);
    var skeleton :- ReadU16s(body.(pos := h.value.skeletonIndexArrayOffset.toFile), h.value.skeletonIndexArrayCount);
    Ok(Parsed(Model(h.value, lods.value, nodes, indices.value, skeleton.value), h.rest))
  }
}
