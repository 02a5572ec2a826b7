/**
 * The index buffer of an FSHP level of detail: a 24-byte header whose size
 * field gives the byte length of the index data, then, with the cursor
 * restored behind the header, the 16-bit indices at the data offset.
 */
module FshpIndexBuffer {
  import opened Wrappers
  import opened Bytes
  import opened BinaryReader
  import opened BfresOffset

  datatype BufferHeader = BufferHeader(unknown0x00: u32, size: u32, unknown0x08: u32, unknown0x0C: u16, unknown0x0E: u16,
                           unknown0x10: u32, dataOffset: Offset)

  datatype IndexBuffer = IndexBuffer(header: BufferHeader, indices: seq<u16>)

  const BufferHeaderSize: nat := 24

  /**
   * The number of indices, `(int)Size / 2`: the size is cast to a signed
   * 32-bit integer first and the division truncates toward zero, so a size of
   * 0xFFFFFFFF (-1) gives no indices and the sizes between 0x80000000 and
   * 0xFFFFFFFE give a negative count.
   */
  function IndexCount(size: u32): (n: int)
    ensures size < 0x8000_0000 ==> n == size / 2 && 0 <= 2 * n <= size <= 2 * n + 1
    ensures size == 0xFFFF_FFFF ==> n == 0
    ensures n < 0 <==> 0x8000_0000 <= size < 0xFFFF_FFFF
  {
    var s := ToInt32(size);
    if s >= 0 then s / 2 else -((-s) / 2)
  }

  /** The 24-byte header: five fields kept as they are, the size of the index data and its offset. */
  function ReadBufferHeader(r: Reader): (res: Result<Parsed<BufferHeader>>)
    ensures res.Ok? <==> r.pos + BufferHeaderSize <= |r.data|
    ensures res.Ok? ==> (res.value.rest == r.(pos := r.pos + BufferHeaderSize) &&
      res.value.value.size == U32At(r.data, r.pos + 4, r.order) &&
      res.value.value.dataOffset == ReadOffset(r.(pos := r.pos + 20)).value.value)
    ensures res.Err? ==> res.error == Truncated
  {
    var unknown0x00 :- ReadU32(r);
    var size :- ReadU32(unknown0x00.rest);
    var unknown0x08 :- ReadU32(size.rest);
    var unknown0x0C :- ReadU16(unknown0x08.rest);
    var unknown0x0E :- ReadU16(unknown0x0C.rest);
    var unknown0x10 :- ReadU32(unknown0x0E.rest);
    var dataOffset :- ReadOffset(unknown0x10.rest);
    Ok(Parsed(BufferHeader(unknown0x00.value, size.value, unknown0x08.value, unknown0x0C.value, unknown0x0E.value,
                     unknown0x10.value, dataOffset.value), dataOffset.rest))
  }

  /**
   * `FshpIndexBuffer.Load`: the header, then `IndexCount(Size)` indices at
   * the data offset with the cursor restored behind the header.  A negative
   * count fails before anything is read there, and so does a run of indices
   * that ends past the data.
   */
  function ReadIndexBuffer(r: Reader): (res: Result<Parsed<IndexBuffer>>)
    ensures res.Ok? ==> (ReadBufferHeader(r).Ok? && res.value.value.header == ReadBufferHeader(r).value.value &&
      res.value.rest == r.(pos := r.pos + BufferHeaderSize))
    ensures res.Ok? ==> (var h := res.value.value.header;
      IndexCount(h.size) >= 0 && U16sFit(r.data, h.dataOffset.toFile, IndexCount(h.size)) &&
      res.value.value.indices == U16sAt(r.data, h.dataOffset.toFile, IndexCount(h.size), r.order))
    ensures res.Ok? <==> (ReadBufferHeader(r).Ok? && IndexCount(ReadBufferHeader(r).value.value.size) >= 0 &&
      U16sFit(r.data, ReadBufferHeader(r).value.value.dataOffset.toFile, IndexCount(ReadBufferHeader(r).value.value.size)))
    ensures r.pos + BufferHeaderSize > |r.data| ==> res == Err(Truncated)
    ensures ReadBufferHeader(r).Ok? && IndexCount(ReadBufferHeader(r).value.value.size) < 0 ==> res == Err(NegativeCount)
    ensures res.Err? ==> res.error in {Truncated, NegativeCount}
  {
    var h :- ReadBufferHeader(r);
    var count := IndexCount(h.value.size);
    if count < 0 then Err(NegativeCount)
    else
      var indices :- ReadU16s(r.(pos := h.value.dataOffset.toFile), count);
      Ok(Parsed(IndexBuffer(h.value, indices.value), h.rest))
  }
}
