/**
 * BFRES self-relative offsets.  An offset field holds a signed 32-bit value
 * relative to the position of the field itself; the value 0 means "not set".
 * A name offset resolves the same way and then reads the zero-terminated name
 * it designates, restoring the cursor afterwards.
 */
module BfresOffset {
  import opened Wrappers
  import opened Bytes
  import opened BinaryReader

  /** Where the field was read, its signed value, and the file position it designates. */
  datatype Offset = Offset(address: u32, toSelf: int, toFile: u32)

  /** A resolved name offset: the offset and the bytes of the name it points to. */
  datatype NameOffset = NameOffset(offset: Offset, name: seq<byte>)

  predicate IsEmpty(o: Offset)
  {
    o.toSelf == 0
  }

  /**
   * The offset stored at the cursor.  The address is the cursor before the
   * read, and the target is address plus value, cast to a 32-bit unsigned.
   */
  function ReadOffset(r: Reader): (res: Result<Parsed<Offset>>)
    ensures res.Ok? <==> r.pos + 4 <= |r.data|
    ensures res.Ok? ==> res.value.rest == r.(pos := r.pos + 4)
    ensures res.Ok? ==> r.pos < TwoTo32 ==> res.value.value.address == r.pos
    ensures res.Ok? ==> -0x8000_0000 <= res.value.value.toSelf < 0x8000_0000
    ensures res.Ok? ==> res.value.value.toFile == Wrap32(res.value.value.address + res.value.value.toSelf)
    ensures res.Err? ==> res.error == Truncated
  {
    var value :- ReadU32(r);
    var address := Wrap32(r.pos);
    var toSelf := ToInt32(value.value);
    Ok(Parsed(Offset(address, toSelf, Wrap32(address + toSelf)), value.rest))
  }

  /** The offset whose field is at `p`, taken in place: the same offset reading it there gives. */
  function OffsetAt(r: Reader, p: nat): (o: Offset)
    requires p + 4 <= |r.data|
    ensures ReadOffset(r.(pos := p)) == Ok(Parsed(o, r.(pos := p + 4)))
  {
    var address := Wrap32(p);
    var toSelf := ToInt32(U32At(r.data, p, r.order));
    Offset(address, toSelf, Wrap32(address + toSelf))
  }

  /** The value is the field read as a signed 32-bit integer in the reader's byte order. */
  lemma OffsetValue(r: Reader)
    requires ReadOffset(r).Ok?
    ensures ReadOffset(r).value.value.toSelf == I32At(r.data, r.pos, r.order)
    ensures ReadOffset(r).value.value.toSelf < 0 <==> U32At(r.data, r.pos, r.order) >= 0x8000_0000
  {
  }

  /** Without wrap-around the target is exactly the field position plus the value, negative values included. */
  lemma TargetWithoutWrap(r: Reader)
    requires r.pos < TwoTo32 && ReadOffset(r).Ok?
    requires 0 <= r.pos + ReadOffset(r).value.value.toSelf < TwoTo32
    ensures ReadOffset(r).value.value.toFile == r.pos + ReadOffset(r).value.value.toSelf
  {
  }

  /** An offset is empty exactly when its four bytes are zero, and exactly when it designates its own field. */
  lemma EmptyOffset(r: Reader)
    requires ReadOffset(r).Ok?
    ensures IsEmpty(ReadOffset(r).value.value) <==> r.data[r.pos..r.pos + 4] == [0, 0, 0, 0]
    ensures IsEmpty(ReadOffset(r).value.value) <==> ReadOffset(r).value.value.toFile == ReadOffset(r).value.value.address
  {
    OffsetValue(r);
    var o := ReadOffset(r).value.value;
    var b := r.data[r.pos..r.pos + 4];
    assert U32At(r.data, r.pos, r.order) == U32Of(b, r.order);
    if b == [0, 0, 0, 0] {
      assert U32Of(b, r.order) == 0;
    }
    if o.toSelf == 0 {
      Encode32OfU32(b, r.order);
      assert Encode32(0, r.order) == [0, 0, 0, 0];
    }
    if o.toFile == o.address {
      assert (o.toSelf) % TwoTo32 == 0;
    }
  }

  /**
   * A name offset: the offset as `ReadOffset` reads it, then the
   * zero-terminated name at its target.  The name is read with no check for
   * an empty offset, and the cursor ends 4 bytes on whatever was read.
   */
  function ReadNameOffset(r: Reader): (res: Result<Parsed<NameOffset>>)
    ensures res.Ok? ==> ReadOffset(r).Ok? && res.value.value.offset == ReadOffset(r).value.value
    ensures res.Ok? ==> res.value.rest == r.(pos := r.pos + 4)
    ensures res.Ok? ==> var t := res.value.value.offset.toFile; var n := res.value.value.name;
      t + |n| < |r.data| && r.data[t..t + |n|] == n && r.data[t + |n|] == 0 &&
      forall i :: 0 <= i < |n| ==> n[i] != 0
    ensures res.Err? <==> (ReadOffset(r).Err? ||
      forall i :: ReadOffset(r).value.value.toFile <= i < |r.data| ==> r.data[i] != 0)
    ensures res.Err? ==> res.error == Truncated
  {
    var o :- ReadOffset(r);
    var name :- ZeroTerminatedAt(r.data, o.value.toFile);
    Ok(Parsed(NameOffset(o.value, name), o.rest))
  }

  /** An empty name offset names its own field, whose first byte is 0: the name is empty. */
  lemma EmptyNameOffset(r: Reader)
    requires r.pos < TwoTo32 && ReadOffset(r).Ok? && IsEmpty(ReadOffset(r).value.value)
    ensures ReadNameOffset(r).Ok? && ReadNameOffset(r).value.value.name == []
  {
    EmptyOffset(r);
    assert r.data[r.pos] == r.data[r.pos..r.pos + 4][0];
  }
}
