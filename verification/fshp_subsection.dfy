/**
 * A polygon section as the Blender importer reads it (`FshpSubsection`): a
 * 64-byte header, the levels of detail read as one array, and the
 * visibility group tree as three parallel arrays (nodes, ranges, indices).
 * A level of detail reads its visibility groups and its index buffer at
 * their offsets and puts the cursor back behind its own 28 bytes, so the
 * next one in the array is read where it is stored.
 */
module FshpSubsection {
  import opened Wrappers
  import opened Bytes
  import opened BinaryReader
  import opened BfresOffset
  import opened Records
  import FshpIndexBuffer
  import FshpModel

  datatype Header = Header(nameOffset: NameOffset, unknown0x08: u32, index: u16, materialIndex: u16, boneIndex: u16,
                           sectionIndex: u16, fsklIndexArrayCount: u16, unknown0x16: byte, lodCount: byte,
                           treeNodeCount: u32, unknown0x1C: u32, fvtxOffset: Offset, lodArrayOffset: Offset,
                           fsklIndexArrayOffset: Offset, unknown0x2C: Offset, treeNodesOffset: Offset,
                           treeRangesOffset: Offset, treeIndicesOffset: Offset, padding: u32)

  const HeaderSize: nat := 0x40

  /** The header fields after the name in place: a word, five 16-bit fields, two bytes, two words, seven offsets, the padding. */
  function HeaderAt(r: Reader, name: NameOffset): Header
    requires r.pos + HeaderSize <= |r.data|
  {
    var p := r.pos;
    Header(name, U32At(r.data, p + 8, r.order), U16At(r.data, p + 12, r.order), U16At(r.data, p + 14, r.order),
           U16At(r.data, p + 16, r.order), U16At(r.data, p + 18, r.order), U16At(r.data, p + 20, r.order),
           r.data[p + 22], r.data[p + 23], U32At(r.data, p + 24, r.order), U32At(r.data, p + 28, r.order),
           OffsetAt(r, p + 32), OffsetAt(r, p + 36), OffsetAt(r, p + 40), OffsetAt(r, p + 44), OffsetAt(r, p + 48),
           OffsetAt(r, p + 52), OffsetAt(r, p + 56), U32At(r.data, p + 60, r.order))
  }

  /**
   * `FshpSubsection.Header`: the "FSHP" tag, the name offset, then the
   * fields.  Every read after the tag fails alike on a short file or an
   * unterminated name, so the fields are taken in place.
   */
  function ReadHeader(r: Reader): (res: Result<Parsed<Header>>)
    ensures res.Ok? <==> (TagAt(r.data, r.pos, FshpTag) && r.pos + HeaderSize <= |r.data| &&
      ReadNameOffset(r.(pos := r.pos + 4)).Ok?)
    ensures res.Ok? ==> res.value.rest == r.(pos := r.pos + HeaderSize)
    ensures res.Ok? ==> res.value.value.nameOffset == ReadNameOffset(r.(pos := r.pos + 4)).value.value
    ensures !TagAt(r.data, r.pos, FshpTag) ==> res.Err? && res.error in {BadMagic, InvalidType}
    ensures TagAt(r.data, r.pos, FshpTag) && res.Err? ==> res.error == Truncated
  {
    var afterTag :- ReadTag(r, FshpTag);
    if r.pos + HeaderSize > |r.data| then Err(Truncated)
    else
      var name :- ReadNameOffset(afterTag);
      Ok(Parsed(HeaderAt(r, name.value), r.(pos := r.pos + HeaderSize)))
  }

  /**
   * `read_uint16s(size_in_bytes / 2)`: the count is a float, truncated to an
   * integer for the format, while `2 * count` bytes, that is `size` bytes,
   * are read.  The unpacking needs exactly two bytes per value, so an odd
   * size fails unless the data ends one byte short of it.
   */
  function ReadIndices(r: Reader, size: u32): (res: Result<seq<u16>>)
    ensures res.Ok? ==> |res.value| == size / 2
    ensures res.Ok? && size / 2 > 0 ==> (r.pos + 2 * (size / 2) <= |r.data| &&
      res.value == U16sAt(r.data, r.pos, size / 2, r.order))
    ensures size % 2 == 0 && size > 0 ==> (res.Ok? <==> r.pos + size <= |r.data|)
    ensures size % 2 == 1 ==> (res.Ok? <==> r.pos + size - 1 == |r.data| || (size == 1 && |r.data| < r.pos))
    ensures res.Err? ==> res.error == Truncated
  {
    var bytes := ReadBytes(r, size);
    if |bytes.value| != 2 * (size / 2) then Err(Truncated)
    else if size / 2 == 0 then Ok([])
    else Ok(U16sAt(r.data, r.pos, size / 2, r.order))
  }

  /** An index buffer: the same 24-byte record as the C# loader reads, then the indices. */
  datatype IndexBuffer = IndexBuffer(header: FshpIndexBuffer.BufferHeader, indices: seq<u16>)

  /** `LodModel.IndexBuffer`: the record, then the indices at the data offset; the cursor is left there. */
  function ReadIndexBuffer(r: Reader): (res: Result<IndexBuffer>)
    ensures res.Ok? ==> (FshpIndexBuffer.ReadBufferHeader(r).Ok? &&
      res.value.header == FshpIndexBuffer.ReadBufferHeader(r).value.value &&
      ReadIndices(r.(pos := res.value.header.dataOffset.toFile), res.value.header.size) == Ok(res.value.indices))
  {
    var h :- FshpIndexBuffer.ReadBufferHeader(r);
    var indices :- ReadIndices(r.(pos := h.value.dataOffset.toFile), h.value.size);
    Ok(IndexBuffer(h.value, indices))
  }

  /**
   * For an even size from 2 to below 2^31 the importer and the C# loader read the same
   * index buffer: both succeed on the same bytes, with the same indices.
   * Where they differ is an odd size, which the C# loader rounds down and
   * the importer rejects unless the data ends right there.
   */
  lemma IndexBufferAgrees(r: Reader)
    requires FshpIndexBuffer.ReadBufferHeader(r).Ok?
    requires var size := FshpIndexBuffer.ReadBufferHeader(r).value.value.size; size % 2 == 0 && 0 < size < 0x8000_0000
    ensures ReadIndexBuffer(r).Ok? <==> FshpIndexBuffer.ReadIndexBuffer(r).Ok?
    ensures ReadIndexBuffer(r).Ok? ==> ReadIndexBuffer(r).value.indices == FshpIndexBuffer.ReadIndexBuffer(r).value.value.indices
  {
    var h := FshpIndexBuffer.ReadBufferHeader(r).value.value;
    assert FshpIndexBuffer.IndexCount(h.size) == h.size / 2;
  }

  /** An odd size of 3 with the data running on past it: the importer fails where the C# loader reads one index. */
  lemma OddSizeRejected(r: Reader)
    requires r.pos + 3 < |r.data|
    ensures ReadIndices(r, 3).Err?
  {
  }

  /** A level of detail as the importer keeps it: its 28-byte record, its visibility groups and its index buffer. */
  datatype LodModel = LodModel(unknown0x00: u32, unknown0x04: u32, pointDrawCount: u32, visibilityGroupCount: u16,
                               unknown0x0E: u16, visibilityGroupOffset: Offset, indexBufferOffset: Offset,
                               skipVertices: u32, visibilityGroups: seq<FshpModel.VisibilityGroup>,
                               indexBuffer: IndexBuffer)

  const LodModelSize: nat := 0x1C

  /**
   * `FshpSubsection.LodModel`: the record, then the visibility groups read
   * one after another at their offset and the index buffer at its offset,
   * then the cursor back behind the record.
   */
  function ReadLodModel(r: Reader): (res: Result<Parsed<LodModel>>)
    ensures res.Ok? ==> r.pos + LodModelSize <= |r.data| && res.value.rest == r.(pos := r.pos + LodModelSize)
    ensures res.Ok? ==> (var m := res.value.value;
      m.visibilityGroupCount == U16At(r.data, r.pos + 12, r.order) &&
      m.visibilityGroupOffset == OffsetAt(r, r.pos + 16) && m.indexBufferOffset == OffsetAt(r, r.pos + 20) &&
      ReadArray(r.(pos := m.visibilityGroupOffset.toFile), m.visibilityGroupCount, FshpModel.ReadVisibilityGroup).Ok? &&
      ReadArray(r.(pos := m.visibilityGroupOffset.toFile), m.visibilityGroupCount,
                FshpModel.ReadVisibilityGroup).value.value == m.visibilityGroups &&
      ReadIndexBuffer(r.(pos := m.indexBufferOffset.toFile)) == Ok(m.indexBuffer))
  {
    if r.pos + LodModelSize > |r.data| then Err(Truncated)
    else
      var groupCount := U16At(r.data, r.pos + 12, r.order);
      var groupOffset := OffsetAt(r, r.pos + 16);
      var bufferOffset := OffsetAt(r, r.pos + 20);
      var groups :- ReadArray(r.(pos := groupOffset.toFile), groupCount, FshpModel.ReadVisibilityGroup);
      var buffer :- ReadIndexBuffer(r.(pos := bufferOffset.toFile));
      Ok(Parsed(LodModel(U32At(r.data, r.pos, r.order), U32At(r.data, r.pos + 4, r.order), U32At(r.data, r.pos + 8, r.order),
                         groupCount, U16At(r.data, r.pos + 14, r.order), groupOffset, bufferOffset,
                         U32At(r.data, r.pos + 24, r.order), groups.value, buffer),
                r.(pos := r.pos + LodModelSize)))
  }

  /** Whatever a level of detail points at, reading it moves the cursor by exactly its 28 bytes. */
  lemma LodModelFixedSize()
    ensures FixedSize(ReadLodModel, LodModelSize)
  {
  }

  /** The importer and the C# loader agree on the 28-byte record of a level of detail. */
  lemma LodRecordAgrees(r: Reader)
    requires ReadLodModel(r).Ok?
    ensures FshpModel.ReadLodHeader(r).Ok?
    ensures var m := ReadLodModel(r).value.value; var c := FshpModel.ReadLodHeader(r).value.value;
      m.pointDrawCount == c.totalPointCount && m.visibilityGroupCount == c.visibilityGroupCount &&
      m.visibilityGroupOffset == c.visibilityGroupOffset && m.indexBufferOffset == c.indexBufferOffset &&
      m.skipVertices == c.skipElements
  {
    FshpModel.LodHeaderReads(r);
    assert ReadOffset(r.(pos := r.pos + 16)) == Ok(Parsed(OffsetAt(r, r.pos + 16), r.(pos := r.pos + 20)));
    assert ReadOffset(r.(pos := r.pos + 20)) == Ok(Parsed(OffsetAt(r, r.pos + 20), r.(pos := r.pos + 24)));
  }

  /** The six floats of a visibility group tree range, kept as their bit patterns. */
  function ReadRange(r: Reader): (res: Result<Parsed<seq<u32>>>)
    ensures res.Ok? <==> r.pos + 24 <= |r.data|
    ensures res.Ok? ==> res.value.rest == r.(pos := r.pos + 24) && |res.value.value| == 6
  {
    ReadWords(r, 6)
  }

  /** The visibility group tree as three parallel arrays. */
  datatype Tree = Tree(nodes: seq<FshpModel.NodeRecord>, ranges: seq<seq<u32>>, indices: seq<u16>)

  /** `node_count` tree nodes, `node_count` ranges and `node_count` indices, each array at its offset. */
  function ReadTree(r: Reader, h: Header): (res: Result<Tree>)
    ensures res.Ok? ==> (|res.value.nodes| == h.treeNodeCount && |res.value.ranges| == h.treeNodeCount &&
      |res.value.indices| == h.treeNodeCount &&
      U16sFit(r.data, h.treeIndicesOffset.toFile, h.treeNodeCount) &&
      res.value.indices == U16sAt(r.data, h.treeIndicesOffset.toFile, h.treeNodeCount, r.order))
  {
    var count := h.treeNodeCount;
    var nodes :- ReadArray(r.(pos := h.treeNodesOffset.toFile), count, FshpModel.ReadNodeRecord);
    var ranges :- ReadArray(r.(pos := h.treeRangesOffset.toFile), count, ReadRange);
    var indices :- ReadU16s(r.(pos := h.treeIndicesOffset.toFile), count);
    Ok(Tree(nodes.value, ranges.value, indices.value))
  }

  datatype Subsection = Subsection(header: Header, lodModels: seq<LodModel>, tree: Tree)

  /**
   * `FshpSubsection.__init__`: the header, `lod_count` levels of detail read
   * one after another from their offset, then the visibility group tree.
   */
  function ReadSubsection(r: Reader): (res: Result<Subsection>)
    ensures res.Ok? ==> ReadHeader(r).Ok? && res.value.header == ReadHeader(r).value.value
    ensures res.Ok? ==> (var h := res.value.header;
      ReadArray(r.(pos := h.lodArrayOffset.toFile), h.lodCount, ReadLodModel).Ok? &&
      ReadArray(r.(pos := h.lodArrayOffset.toFile), h.lodCount, ReadLodModel).value.value == res.value.lodModels &&
      |res.value.lodModels| == h.lodCount && ReadTree(r, h) == Ok(res.value.tree))
    ensures !TagAt(r.data, r.pos, FshpTag) ==> res.Err? && res.error in {BadMagic, InvalidType}
  {
    var h :- ReadHeader(r);
    var lods :- ReadArray(r.(pos := h.value.lodArrayOffset.toFile), h.value.lodCount, ReadLodModel);
    var tree :- ReadTree(r, h.value);
    Ok(Subsection(h.value, lods.value, tree))
  }

  /**
   * Because each level of detail puts the cursor back behind its record,
   * level `i` is the record 28 * i bytes after the array offset, with the
   * groups and index buffer it points at.
   */
  lemma LodModelsAt(r: Reader)
    requires ReadSubsection(r).Ok?
    ensures var s := ReadSubsection(r).value; var start := r.(pos := s.header.lodArrayOffset.toFile);
      forall i :: 0 <= i < s.header.lodCount ==>
        ReadLodModel(RecordAt(start, LodModelSize, i)) == Ok(Parsed(s.lodModels[i], RecordAt(start, LodModelSize, i + 1)))
  {
    var s := ReadSubsection(r).value;
    LodModelFixedSize();
    FixedSizeArray(r.(pos := s.header.lodArrayOffset.toFile), s.header.lodCount, ReadLodModel, LodModelSize);
  }
}
