/**
 * A vertex data section as the Blender importer reads it (`FvtxSubsection`):
 * a 32-byte header, then the attribute index group and the vertex buffers,
 * after which the cursor is put back right behind the header, because the
 * sections are read as one array by the model section.
 */
module FvtxSubsection {
  import opened Wrappers
  import opened Bytes
  import opened BinaryReader
  import opened BfresOffset
  import opened BfresIndexGroup
  import opened Records
  import FvtxVertexAttribute

  datatype Header = Header(attributeCount: byte, bufferCount: byte, index: u16, vertexCount: u32, unknown0x0C: u32,
                           attributeArrayOffset: Offset, attributeIndexGroupOffset: Offset, bufferArrayOffset: Offset,
                           padding: u32)

  const HeaderSize: nat := 0x20

  /** The header fields in place: two counts, the index, two words, three offsets and the padding. */
  function HeaderAt(r: Reader): Header
    requires r.pos + HeaderSize <= |r.data|
  {
    var p := r.pos;
    Header(r.data[p + 4], r.data[p + 5], U16At(r.data, p + 6, r.order), U32At(r.data, p + 8, r.order),
           U32At(r.data, p + 12, r.order), OffsetAt(r, p + 16), OffsetAt(r, p + 20), OffsetAt(r, p + 24),
           U32At(r.data, p + 28, r.order))
  }

  /** `FvtxSubsection.Header`: the "FVTX" tag, then the fields, taken in place once the 32 bytes are there. */
  function ReadHeader(r: Reader): (res: Result<Parsed<Header>>)
    ensures res.Ok? <==> TagAt(r.data, r.pos, FvtxTag) && r.pos + HeaderSize <= |r.data|
    ensures res.Ok? ==> res.value.rest == r.(pos := r.pos + HeaderSize)
    ensures !TagAt(r.data, r.pos, FvtxTag) ==> res.Err? && res.error in {BadMagic, InvalidType}
    ensures TagAt(r.data, r.pos, FvtxTag) && res.Err? ==> res.error == Truncated
  {
    var afterTag :- ReadTag(r, FvtxTag);
    if r.pos + HeaderSize > |r.data| then Err(Truncated)
    else Ok(Parsed(HeaderAt(r), r.(pos := r.pos + HeaderSize)))
  }

  /**
   * An attribute as the importer keeps it: the name offset is kept as a
   * plain offset, the word is split into the buffer index and the element
   * offset, and the format tag is kept as read.
   */
  datatype Attribute = Attribute(nameOffset: Offset, bufferIndex: byte, elementOffset: nat, format: u32)

  const AttributeSize: nat := 12

  /**
   * `FvtxSubsection.Attribute`: the name offset, then the word whose high
   * byte is the buffer index (`v >> 24`) and whose low 24 bits are the
   * element offset (`v & 0xFFFFFF`), then the format.
   */
  function ReadAttribute(r: Reader): (res: Result<Parsed<Attribute>>)
    ensures res.Ok? <==> r.pos + AttributeSize <= |r.data|
    ensures res.Ok? ==> res.value.rest == r.(pos := r.pos + AttributeSize)
    ensures res.Err? ==> res.error == Truncated
  {
    if r.pos + AttributeSize > |r.data| then Err(Truncated)
    else
      var word := U32At(r.data, r.pos + 4, r.order);
      Ok(Parsed(Attribute(OffsetAt(r, r.pos), FvtxVertexAttribute.IndexOfWord(word),
                          FvtxVertexAttribute.OffsetOfWord(word), U32At(r.data, r.pos + 8, r.order)),
                r.(pos := r.pos + AttributeSize)))
  }

  /** The two parts of an attribute give back the stored word, so nothing of it is lost. */
  lemma AttributeWord(r: Reader)
    requires ReadAttribute(r).Ok?
    ensures var a := ReadAttribute(r).value.value;
      FvtxVertexAttribute.JoinWord(a.bufferIndex, a.elementOffset) == U32At(r.data, r.pos + 4, r.order)
  {
    FvtxVertexAttribute.SplitJoin(U32At(r.data, r.pos + 4, r.order), 0, 0);
  }

  /**
   * Where the C# loader also reads the attribute (it also needs the name to
   * be terminated), it finds the same name offset, element offset and
   * format, while the buffer index it reads is always 0.
   */
  lemma AttributeAgrees(r: Reader)
    requires FvtxVertexAttribute.ReadAttribute(r).Ok?
    ensures ReadAttribute(r).Ok?
    ensures var a := ReadAttribute(r).value.value; var c := FvtxVertexAttribute.ReadAttribute(r).value.value;
      a.elementOffset == c.ElementOffset() && a.format == c.format && a.nameOffset == c.nameOffset.offset &&
      FvtxVertexAttribute.BufferIndexAsWritten(c.indexAndOffset) == 0
  {
    FvtxVertexAttribute.AttributeLayout(r);
    var c := FvtxVertexAttribute.ReadAttribute(r).value.value;
    var word := U32At(r.data, r.pos + 4, r.order);
    assert c.indexAndOffset == word && c.format == U32At(r.data, r.pos + 8, r.order);
    assert c.nameOffset.offset == OffsetAt(r, r.pos) by {
      assert ReadOffset(r) == Ok(Parsed(OffsetAt(r, r.pos), r.(pos := r.pos + 4)));
    }
    assert ReadAttribute(r).value.value == Attribute(OffsetAt(r, r.pos), FvtxVertexAttribute.IndexOfWord(word),
      FvtxVertexAttribute.OffsetOfWord(word), U32At(r.data, r.pos + 8, r.order));
    FvtxVertexAttribute.BufferIndexAsWrittenIsZero(word);
  }

  /** An attribute of the group, the cursor after it being of no use. */
  function AttributeEntry(r: Reader): Result<Attribute>
  {
    ValueOf(ReadAttribute(r))
  }

  /** A vertex buffer: its 24-byte record and the raw bytes of its data. */
  datatype Buffer = Buffer(unknown0x00: u32, size: u32, unknown0x08: u32, stride: u16, unknown0x0E: u16,
                           unknown0x10: u32, dataOffset: Offset, data: seq<byte>)

  const BufferSize: nat := 24

  /**
   * `FvtxSubsection.Buffer`: the record, then `size` bytes read at the data
   * offset, with the cursor put back behind the record.  A raw read never
   * fails: at the end of the data it returns what is left.
   */
  function ReadBuffer(r: Reader): (res: Result<Parsed<Buffer>>)
    ensures res.Ok? <==> r.pos + BufferSize <= |r.data|
    ensures res.Ok? ==> res.value.rest == r.(pos := r.pos + BufferSize)
    ensures res.Ok? ==> (var b := res.value.value;
      b.size == U32At(r.data, r.pos + 4, r.order) && b.dataOffset == OffsetAt(r, r.pos + 20) &&
      b.data == ReadBytes(r.(pos := b.dataOffset.toFile), b.size).value)
    ensures res.Err? ==> res.error == Truncated
  {
    if r.pos + BufferSize > |r.data| then Err(Truncated)
    else
      var size := U32At(r.data, r.pos + 4, r.order);
      var dataOffset := OffsetAt(r, r.pos + 20);
      var data := ReadBytes(r.(pos := dataOffset.toFile), size);
      Ok(Parsed(Buffer(U32At(r.data, r.pos, r.order), size, U32At(r.data, r.pos + 8, r.order), U16At(r.data, r.pos + 12, r.order),
                       U16At(r.data, r.pos + 14, r.order), U32At(r.data, r.pos + 16, r.order), dataOffset, data.value),
                r.(pos := r.pos + BufferSize)))
  }

  datatype Subsection = Subsection(header: Header, attributeIndexGroup: Collection<Attribute>, buffers: seq<Buffer>)

  /**
   * `FvtxSubsection.__init__`: the header, the attribute index group at its
   * offset, `buffer_count` buffers read one after another from the buffer
   * array, then the cursor back behind the header.
   */
  function ReadSubsection(r: Reader): (res: Result<Parsed<Subsection>>)
    ensures res.Ok? ==> ReadHeader(r).Ok? && res.value.value.header == ReadHeader(r).value.value
    ensures res.Ok? ==> res.value.rest == r.(pos := r.pos + HeaderSize)
    ensures res.Ok? ==> (var h := res.value.value.header;
      LoadCollection(r.(pos := h.attributeIndexGroupOffset.toFile), AttributeEntry) ==
        Ok(res.value.value.attributeIndexGroup) &&
      ReadArray(r.(pos := h.bufferArrayOffset.toFile), h.bufferCount, ReadBuffer).Ok? &&
      ReadArray(r.(pos := h.bufferArrayOffset.toFile), h.bufferCount, ReadBuffer).value.value == res.value.value.buffers &&
      |res.value.value.buffers| == h.bufferCount)
    ensures !TagAt(r.data, r.pos, FvtxTag) ==> res.Err? && res.error in {BadMagic, InvalidType}
  {
    var h :- ReadHeader(r);
    var attributes :- LoadCollection(r.(pos := h.value.attributeIndexGroupOffset.toFile), AttributeEntry);
    var buffers :- ReadArray(r.(pos := h.value.bufferArrayOffset.toFile), h.value.bufferCount, ReadBuffer);
    Ok(Parsed(Subsection(h.value, attributes, buffers.value), h.rest))
  }

  /** Whatever a section points at, reading it moves the cursor by exactly the header. */
  lemma SubsectionFixedSize()
    ensures FixedSize(ReadSubsection, HeaderSize)
  {
  }
}
