/**
 * The raw data array of an FVTX subsection and the accessors that pick one
 * attribute out of every element of it.  The header gives the byte size of
 * the array, the element stride and the offset of the array; the data is read
 * with the cursor restored behind the header.  Floats are kept as their bit
 * patterns and normalized integers as their stored values.
 */
module FvtxVertexData {
  import opened Wrappers
  import opened Bytes
  import opened BinaryReader
  import opened BfresOffset
  import opened FvtxVertexAttribute

  datatype DataHeader = DataHeader(unknown0x00: u32, size: u32, unknown0x08: u32, stride: u16, unknown0x0E: u16,
                                   unknown0x10: u32, dataOffset: Offset)

  datatype VertexData = VertexData(header: DataHeader, data: seq<byte>)

  const DataHeaderSize: nat := 24

  /** The 24-byte header: three words, the stride, a half-word, a word and the data offset. */
  function ReadDataHeader(r: Reader): (res: Result<Parsed<DataHeader>>)
    ensures res.Ok? <==> r.pos + DataHeaderSize <= |r.data|
    ensures res.Ok? ==> (res.value.rest == r.(pos := r.pos + DataHeaderSize) &&
      res.value.value.size == U32At(r.data, r.pos + 4, r.order) &&
      res.value.value.stride == U16At(r.data, r.pos + 12, r.order) &&
      res.value.value.dataOffset == ReadOffset(r.(pos := r.pos + 20)).value.value)
    ensures res.Err? ==> res.error == Truncated
  {
    var unknown0x00 :- ReadU32(r);
    var size :- ReadU32(unknown0x00.rest);
    var unknown0x08 :- ReadU32(size.rest);
    var stride :- ReadU16(unknown0x08.rest);
    var unknown0x0E :- ReadU16(stride.rest);
    var unknown0x10 :- ReadU32(unknown0x0E.rest);
    var dataOffset :- ReadOffset(unknown0x10.rest);
    Ok(Parsed(DataHeader(unknown0x00.value, size.value, unknown0x08.value, stride.value, unknown0x0E.value,
                         unknown0x10.value, dataOffset.value), dataOffset.rest))
  }

  /**
   * `FvtxVertexData.Load`: the header, then `ReadBytes((int)Size)` at the
   * data offset with the cursor restored behind the header.  A size of 2^31
   * or more is a negative count; otherwise the read is lenient and stops at
   * the end of the data.
   */
  function ReadVertexData(r: Reader): (res: Result<Parsed<VertexData>>)
    ensures res.Ok? <==> ReadDataHeader(r).Ok? && ReadDataHeader(r).value.value.size < 0x8000_0000
    ensures ReadDataHeader(r).Ok? && ReadDataHeader(r).value.value.size >= 0x8000_0000 ==> res == Err(NegativeCount)
    ensures res.Ok? ==> (res.value.value.header == ReadDataHeader(r).value.value &&
      res.value.rest == r.(pos := r.pos + DataHeaderSize))
    ensures res.Err? ==> res.error in {Truncated, NegativeCount}
  {
    var h :- ReadDataHeader(r);
    var size := ToInt32(h.value.size);
    if size < 0 then Err(NegativeCount)
    else
      var bytes := ReadBytes(r.(pos := h.value.dataOffset.toFile), size);
      Ok(Parsed(VertexData(h.value, bytes.value), h.rest))
  }

  /**
   * The data is the `Size` bytes at the data offset, or what is left of the
   * input from there when it ends sooner.
   */
  lemma VertexDataBytes(r: Reader)
    requires ReadVertexData(r).Ok?
    ensures (var h := ReadVertexData(r).value.value.header;
      var d := ReadVertexData(r).value.value.data; var t := h.dataOffset.toFile;
      |d| == (if t + h.size <= |r.data| then h.size else if t <= |r.data| then |r.data| - t else 0) &&
      (t <= |r.data| ==> d == r.data[t..t + |d|]))
  {
    var h := ReadDataHeader(r).value.value;
    var bytes := ReadBytes(r.(pos := h.dataOffset.toFile), h.size);
    assert ReadVertexData(r).value.value.data == bytes.value;
  }

  /** A component triple of a packed 10-bit attribute. */
  datatype Triple = Triple(x: int, y: int, z: int)

  predicate InSigned10(t: Triple)
  {
    -512 <= t.x < 512 && -512 <= t.y < 512 && -512 <= t.z < 512
  }

  /**
   * The unpacking as written: `(p >> 20) & 0x3FF`, `(p >> 10) & 0x3FF` and
   * `p & 0x3FF`, each field taken as an unsigned value.
   */
  function UnpackAsWritten(word: u32): (t: Triple)
    ensures 0 <= t.x < 1024 && 0 <= t.y < 1024 && 0 <= t.z < 1024
  {
    Triple((word / 0x10_0000) % 0x400, (word / 0x400) % 0x400, word % 0x400)
  }

  /** A 10-bit two's complement field as a signed value. */
  function SignExtend10(v: nat): (s: int)
    requires v < 1024
    ensures -512 <= s < 512 && s % 1024 == v
  {
    if v < 512 then v else v - 1024
  }

  /** The three signed 10-bit fields, bit 29 down to bit 0, that the layout stores. */
  function Unpack10(word: u32): (t: Triple)
    ensures InSigned10(t)
  {
    var u := UnpackAsWritten(word);
    Triple(SignExtend10(u.x), SignExtend10(u.y), SignExtend10(u.z))
  }

  /** The word storing a signed triple below the two top bits `top`. */
  function Pack10(t: Triple, top: nat): (word: u32)
    requires InSigned10(t) && top < 4
  {
    top * 0x4000_0000 + (t.x % 1024) * 0x10_0000 + (t.y % 1024) * 0x400 + t.z % 1024
  }

  /** Division by 2^10 is determined by quotient and remainder. */
  lemma DivMod10(a: int, q: int, r: int)
    requires 0 <= r < 0x400 && a == q * 0x400 + r
    ensures a / 0x400 == q && a % 0x400 == r
  {
  }

  /** The three fields of a word and its two top bits put together again give the word. */
  lemma {:induction false} FieldsOfWord(word: u32)
    ensures (var u := UnpackAsWritten(word);
      word == (word / 0x4000_0000) * 0x4000_0000 + u.x * 0x10_0000 + u.y * 0x400 + u.z)
  {
    var u := UnpackAsWritten(word);
    var a := word / 0x400;
    var b := a / 0x400;
    var c := b / 0x400;
    assert word == a * 0x400 + u.z;
    assert b == word / 0x10_0000;
    assert a == b * 0x400 + u.y;
    assert b == c * 0x400 + u.x;
    assert c == word / 0x4000_0000;
  }

  /** Packing then unpacking gives the signed triple back, whatever the top bits. */
  lemma {:induction false} Unpack10OfPack(t: Triple, top: nat)
    requires InSigned10(t) && top < 4
    ensures Unpack10(Pack10(t, top)) == t
    ensures UnpackAsWritten(Pack10(t, top)) == Triple(t.x % 1024, t.y % 1024, t.z % 1024)
  {
    var w := Pack10(t, top);
    var x, y, z := t.x % 1024, t.y % 1024, t.z % 1024;
    var a := top * 0x10_0000 + x * 0x400 + y;
    var b := top * 0x400 + x;
    DivMod10(w, a, z);
    DivMod10(a, b, y);
    DivMod10(b, top, x);
    assert w / 0x10_0000 == b;
    assert UnpackAsWritten(w) == Triple(x, y, z);
  }

  /** Unpacking then packing with the word's own top bits gives the word back. */
  lemma PackOfUnpack10(word: u32)
    ensures Pack10(Unpack10(word), word / 0x4000_0000) == word
  {
    FieldsOfWord(word);
  }

  /**
   * The word 0x7FF00000 stores x = -1 (all ten bits set), y = 0 and z = 0;
   * unpacked as written it reads x as 1023.
   */
  lemma UnpackAsWrittenMisreadsNegative()
    ensures UnpackAsWritten(0x7FF0_0000) == Triple(1023, 0, 0)
    ensures Unpack10(0x7FF0_0000) == Triple(-1, 0, 0)
  {
  }

  /** One element of a two-component attribute. */
  datatype Vector2Value = Floats2(x: u32, y: u32) | Normalized2(u: u16, v: u16)

  /** One element of a three-component attribute. */
  datatype Vector3Value = Floats3(x: u32, y: u32, z: u32) | Packed3(components: Triple)

  /** Where the attribute of element `k` starts in the data array. */
  function ElementStart(k: nat, stride: nat, offset: nat): nat
  {
    offset + stride * k
  }

  /** The number of elements the accessors visit: one per `stride` bytes of data, a partial last element included. */
  function ElementCount(n: nat, stride: nat): nat
    requires stride > 0
  {
    (n + stride - 1) / stride
  }

  /**
   * The two-component value at `p` of the data, read big-endian: two floats
   * for format 0x80D, two 16-bit normalized values for 0x007.  The format is
   * checked before anything is read.
   */
  function Vector2At(data: seq<byte>, p: nat, format: u32): (res: Result<Vector2Value>)
    ensures format != 0x80D && format != 0x007 ==> res == Err(UnsupportedFormat)
    ensures format == 0x80D ==> ((res.Ok? <==> p + 8 <= |data|) &&
      (res.Ok? ==> res.value == Floats2(U32At(data, p, BigEndian), U32At(data, p + 4, BigEndian))))
    ensures format == 0x007 ==> ((res.Ok? <==> p + 4 <= |data|) &&
      (res.Ok? ==> res.value == Normalized2(U16At(data, p, BigEndian), U16At(data, p + 2, BigEndian))))
    ensures res.Err? ==> res.error in {UnsupportedFormat, Truncated}
  {
    var r := Reader(data, p, BigEndian);
    if format == FormatTag(Two32BitFloat) then
      var x :- ReadU32(r);
      var y :- ReadU32(x.rest);
      Ok(Floats2(x.value, y.value))
    else if format == FormatTag(Two16BitNormalized) then
      var x :- ReadU16(r);
      var y :- ReadU16(x.rest);
      Ok(Normalized2(x.value, y.value))
    else
      Err(UnsupportedFormat)
  }

  /**
   * The three-component value at `p` of the data, read big-endian: three
   * floats for format 0x811, a packed word for 0x20B whose three 10-bit
   * fields are taken without sign extension, as the accessor does (the
   * signed reading the layout intends is `Unpack10`).
   */
  function Vector3At(data: seq<byte>, p: nat, format: u32): (res: Result<Vector3Value>)
    ensures format != 0x811 && format != 0x20B ==> res == Err(UnsupportedFormat)
    ensures format == 0x811 ==> ((res.Ok? <==> p + 12 <= |data|) &&
      (res.Ok? ==> res.value == Floats3(U32At(data, p, BigEndian), U32At(data, p + 4, BigEndian), U32At(data, p + 8, BigEndian))))
    ensures format == 0x20B ==> ((res.Ok? <==> p + 4 <= |data|) &&
      (res.Ok? ==> res.value == Packed3(UnpackAsWritten(U32At(data, p, BigEndian)))))
    ensures res.Err? ==> res.error in {UnsupportedFormat, Truncated}
  {
    var r := Reader(data, p, BigEndian);
    if format == FormatTag(Three32BitFloat) then
      var x :- ReadU32(r);
      var y :- ReadU32(x.rest);
      var z :- ReadU32(y.rest);
      Ok(Floats3(x.value, y.value, z.value))
    else if format == FormatTag(Three10BitSigned) then
      var p :- ReadU32(r);
      Ok(Packed3(UnpackAsWritten(p.value)))
    else
      Err(UnsupportedFormat)
  }

  /**
   * A stored x of -1 (all ten bits set) comes back from the accessor as
   * 1023, where the signed reading gives -1.
   */
  lemma Vector3AtMisreadsNegative()
    ensures Vector3At([0x7F, 0xF0, 0x00, 0x00], 0, 0x20B) == Ok(Packed3(Triple(1023, 0, 0)))
    ensures Unpack10(U32At([0x7F, 0xF0, 0x00, 0x00], 0, BigEndian)) == Triple(-1, 0, 0)
  {
    assert U32At([0x7F, 0xF0, 0x00, 0x00], 0, BigEndian) == 0x7FF0_0000;
  }

  /** `a * s < b * s` with a positive `s` orders `a` and `b`. */
  lemma MulLessCancel(a: int, b: int, s: int)
    requires s > 0 && a * s < b * s
    ensures a < b
  {
    assert a * s - b * s == (a - b) * s;
  }

  /**
   * The element count is the one number `k` of elements whose strides cover
   * the data while the last of them still starts inside it.
   */
  lemma {:induction false} ElementCountUnique(n: nat, stride: nat, k: nat)
    requires stride > 0
    requires n <= stride * k
    requires k > 0 ==> stride * (k - 1) < n
    ensures k == ElementCount(n, stride)
  {
    var q := ElementCount(n, stride);
    var r := (n + stride - 1) % stride;
    assert n + stride - 1 == q * stride + r;
    assert q * stride < (k + 1) * stride;
    MulLessCancel(q, k + 1, stride);
    if k > 0 {
      assert k * stride < (q + 1) * stride;
      MulLessCancel(k, q + 1, stride);
    } else {
      assert q * stride <= stride - 1;
      MulLessCancel(q, 1, stride);
    }
  }

  /**
   * The loop both accessors share: `for (i = 0; i < n; i += stride)`, reading
   * the attribute of each element at `i + offset`.  No element is read when
   * `n` is 0; with a stride of 0 the first element is read again and again,
   * so the loop either fails on it or never ends.
   */
  method StridedRead<T>(n: nat, stride: nat, offset: nat, read: nat -> Result<T>) returns (res: Result<seq<T>>)
    ensures n == 0 ==> res == Ok([])
    ensures n > 0 && read(offset).Err? ==> res == Err(read(offset).error)
    ensures n > 0 && stride == 0 && read(offset).Ok? ==> res == Err(Diverges)
    ensures stride > 0 ==> (res.Ok? <==> forall k :: 0 <= k < ElementCount(n, stride) ==>
      read(ElementStart(k, stride, offset)).Ok?)
    ensures stride > 0 && res.Ok? ==> (|res.value| == ElementCount(n, stride) &&
      forall k :: 0 <= k < |res.value| ==> read(ElementStart(k, stride, offset)) == Ok(res.value[k]))
    ensures res.Err? ==> (res.error == Diverges || exists p :: read(p) == Err(res.error))
  {
    if n == 0 {
      return Ok([]);
    }
    if stride == 0 {
      var first := read(offset);
      if first.Err? {
        return Err(first.error);
      }
      return Err(Diverges);
    }
    res := StepThrough(n, stride, offset, read);
  }

  /** The loop of `StridedRead` for a positive stride over non-empty data. */
  method StepThrough<T>(n: nat, stride: nat, offset: nat, read: nat -> Result<T>) returns (res: Result<seq<T>>)
    requires n > 0 && stride > 0
    ensures read(offset).Err? ==> res == Err(read(offset).error)
    ensures res.Ok? <==> forall k :: 0 <= k < ElementCount(n, stride) ==> read(ElementStart(k, stride, offset)).Ok?
    ensures res.Ok? ==> (|res.value| == ElementCount(n, stride) &&
      forall k :: 0 <= k < |res.value| ==> read(ElementStart(k, stride, offset)) == Ok(res.value[k]))
    ensures res.Err? ==> exists k :: 0 <= k < ElementCount(n, stride) && read(ElementStart(k, stride, offset)) == Err(res.error)
  {
    var values: seq<T> := [];
    var i := 0;
    while i < n
      invariant i == stride * |values|
      invariant |values| > 0 ==> stride * (|values| - 1) < n
      invariant |values| > 0 ==> read(offset).Ok?
      invariant forall k :: 0 <= k < |values| ==> read(ElementStart(k, stride, offset)) == Ok(values[k])
      decreases n - i
    {
      assert i + offset == ElementStart(|values|, stride, offset);
      var value := read(i + offset);
      if value.Err? {
        ElementCountBound(n, stride, |values|);
        return Err(value.error);
      }
      values := values + [value.value];
      i := i + stride;
    }
    ElementCountUnique(n, stride, |values|);
    return Ok(values);
  }

  /**
   * `GetAttributeDataAsVector2F`: the attribute of every element as a
   * two-component value.  Empty data gives no values whatever the format; an
   * unsupported format fails on the first element.
   */
  method GetAttributeDataAsVector2F(v: VertexData, a: Attribute) returns (res: Result<seq<Vector2Value>>)
    ensures |v.data| == 0 ==> res == Ok([])
    ensures |v.data| > 0 && v.header.stride == 0 ==> (res.Err? &&
      (Vector2At(v.data, a.ElementOffset(), a.format).Err? ==> res.error == Vector2At(v.data, a.ElementOffset(), a.format).error) &&
      (Vector2At(v.data, a.ElementOffset(), a.format).Ok? ==> res.error == Diverges))
    ensures v.header.stride > 0 ==> (res.Ok? <==> forall k :: 0 <= k < ElementCount(|v.data|, v.header.stride) ==>
      Vector2At(v.data, ElementStart(k, v.header.stride, a.ElementOffset()), a.format).Ok?)
    ensures v.header.stride > 0 && res.Ok? ==> (|res.value| == ElementCount(|v.data|, v.header.stride) &&
      forall k :: 0 <= k < |res.value| ==> Vector2At(v.data, ElementStart(k, v.header.stride, a.ElementOffset()), a.format) == Ok(res.value[k]))
    ensures |v.data| > 0 && a.format != 0x80D && a.format != 0x007 ==> res == Err(UnsupportedFormat)
    ensures res.Err? ==> res.error in {UnsupportedFormat, Truncated, Diverges}
  {
    res := StridedRead(|v.data|, v.header.stride, a.ElementOffset(), p => Vector2At(v.data, p, a.format));
  }

  /**
   * `GetAttributeDataAsVector3F`: the same loop for the three-component
   * formats.
   */
  method GetAttributeDataAsVector3F(v: VertexData, a: Attribute) returns (res: Result<seq<Vector3Value>>)
    ensures |v.data| == 0 ==> res == Ok([])
    ensures |v.data| > 0 && v.header.stride == 0 ==> (res.Err? &&
      (Vector3At(v.data, a.ElementOffset(), a.format).Err? ==> res.error == Vector3At(v.data, a.ElementOffset(), a.format).error) &&
      (Vector3At(v.data, a.ElementOffset(), a.format).Ok? ==> res.error == Diverges))
    ensures v.header.stride > 0 ==> (res.Ok? <==> forall k :: 0 <= k < ElementCount(|v.data|, v.header.stride) ==>
      Vector3At(v.data, ElementStart(k, v.header.stride, a.ElementOffset()), a.format).Ok?)
    ensures v.header.stride > 0 && res.Ok? ==> (|res.value| == ElementCount(|v.data|, v.header.stride) &&
      forall k :: 0 <= k < |res.value| ==> Vector3At(v.data, ElementStart(k, v.header.stride, a.ElementOffset()), a.format) == Ok(res.value[k]))
    ensures |v.data| > 0 && a.format != 0x811 && a.format != 0x20B ==> res == Err(UnsupportedFormat)
    ensures res.Err? ==> res.error in {UnsupportedFormat, Truncated, Diverges}
  {
    res := StridedRead(|v.data|, v.header.stride, a.ElementOffset(), p => Vector3At(v.data, p, a.format));
  }

  /** An element that starts inside the data is one of the elements counted. */
  lemma {:induction false} ElementCountBound(n: nat, stride: nat, k: nat)
    requires stride > 0 && stride * k < n
    ensures k < ElementCount(n, stride)
  {
    var q := ElementCount(n, stride);
    var r := (n + stride - 1) % stride;
    assert n + stride - 1 == q * stride + r;
    assert k * stride < q * stride;
    MulLessCancel(k, q, stride);
  }
}
