/**
 * The sequential reader the Python importer decodes with: a byte sequence, a
 * position and a byte order.  Every read returns the value together with the
 * advanced reader.  Fixed-width reads fail on a short read, as `struct.unpack`
 * does; raw byte runs are lenient and return what is left.
 */
module BinaryReader {
  import opened Wrappers
  import opened Bytes

  datatype Reader = Reader(data: seq<byte>, pos: nat, order: ByteOrder)

  /** A decoded value and the reader positioned after it. */
  datatype Parsed<T> = Parsed(value: T, rest: Reader)

  /** A new reader starts at position 0 and reads little-endian. */
  function Open(data: seq<byte>): (r: Reader)
    ensures r.data == data && r.pos == 0 && r.order == LittleEndian
  {
    Reader(data, 0, LittleEndian)
  }

  /** The caller may replace the byte order at any time; nothing else changes. */
  function WithOrder(r: Reader, order: ByteOrder): (r': Reader)
    ensures r'.order == order && r'.data == r.data && r'.pos == r.pos
  {
    r.(order := order)
  }

  /** `seek` to an absolute position; positions past the end are allowed, as in a Python stream. */
  function Seek(r: Reader, offset: nat): (r': Reader)
    ensures Tell(r') == offset && r'.data == r.data && r'.order == r.order
  {
    r.(pos := offset)
  }

  function Tell(r: Reader): nat
  {
    r.pos
  }

  function ReadByte(r: Reader): (res: Result<Parsed<byte>>)
    ensures res.Ok? <==> r.pos < |r.data|
    ensures res.Ok? ==> res.value.value == r.data[r.pos] && res.value.rest == r.(pos := r.pos + 1)
  {
    if r.pos + 1 <= |r.data| then Ok(Parsed(r.data[r.pos], r.(pos := r.pos + 1))) else Err(Truncated)
  }

  function ReadU16(r: Reader): (res: Result<Parsed<u16>>)
    ensures res.Ok? <==> r.pos + 2 <= |r.data|
    ensures res.Ok? ==> res.value.value == U16At(r.data, r.pos, r.order) && res.value.rest == r.(pos := r.pos + 2)
  {
    if r.pos + 2 <= |r.data| then Ok(Parsed(U16At(r.data, r.pos, r.order), r.(pos := r.pos + 2))) else Err(Truncated)
  }

  function ReadU32(r: Reader): (res: Result<Parsed<u32>>)
    ensures res.Ok? <==> r.pos + 4 <= |r.data|
    ensures res.Ok? ==> res.value.value == U32At(r.data, r.pos, r.order) && res.value.rest == r.(pos := r.pos + 4)
  {
    if r.pos + 4 <= |r.data| then Ok(Parsed(U32At(r.data, r.pos, r.order), r.(pos := r.pos + 4))) else Err(Truncated)
  }

  /** `read_bytes(count)`: at most `count` bytes, fewer at the end of the data; the position moves past what was read. */
  function ReadBytes(r: Reader, count: nat): (res: Parsed<seq<byte>>)
    ensures |res.value| == if r.pos + count <= |r.data| then count else if r.pos <= |r.data| then |r.data| - r.pos else 0
    ensures r.pos <= |r.data| ==> res.value == r.data[r.pos..r.pos + |res.value|]
    ensures res.rest == r.(pos := r.pos + |res.value|)
  {
    var start := if r.pos <= |r.data| then r.pos else |r.data|;
    var end := if r.pos + count <= |r.data| then r.pos + count else |r.data|;
    Parsed(r.data[start..end], r.(pos := r.pos + (end - start)))
  }

  predicate IsAscii(b: seq<byte>)
  {
    forall i :: 0 <= i < |b| ==> b[i] < 0x80
  }

  /**
   * `read_raw_string(length)`: `length` bytes decoded as ASCII; a byte of 0x80
   * or above makes the decode fail.  The string is kept as its bytes.
   */
  function ReadRawString(r: Reader, length: nat): (res: Result<Parsed<seq<byte>>>)
    ensures r.pos + length <= |r.data| && IsAscii(r.data[r.pos..r.pos + length]) ==>
      res.Ok? && res.value.value == r.data[r.pos..r.pos + length] && res.value.rest.pos == r.pos + length
    ensures res.Ok? ==> IsAscii(res.value.value) && |res.value.value| <= length
    ensures res.Err? ==> res.error == InvalidType
  {
    var p := ReadBytes(r, length);
    if IsAscii(p.value) then Ok(p) else Err(InvalidType)
  }

  /**
   * A section tag check, `read_raw_string(4) != tag`: the four bytes must
   * decode as ASCII and equal the tag.  A short read at the end of the data
   * gives a shorter string, which differs from the tag.
   */
  function ReadTag(r: Reader, tag: seq<byte>): (res: Result<Reader>)
    requires |tag| == 4 && IsAscii(tag)
    ensures res.Ok? <==> TagAt(r.data, r.pos, tag)
    ensures res.Ok? ==> res.value == r.(pos := r.pos + 4)
    ensures res.Err? ==> res.error == BadMagic || res.error == InvalidType
  {
    var s :- ReadRawString(r, 4);
    if s.value == tag then Ok(s.rest) else Err(BadMagic)
  }

  /** A run of `count` 16-bit values from `p` on is there: no values at all always are. */
  predicate U16sFit(data: seq<byte>, p: nat, count: nat)
  {
    count == 0 || p + 2 * count <= |data|
  }

  /** The `count` 16-bit values stored from position `p` on. */
  function U16sAt(data: seq<byte>, p: nat, count: nat, order: ByteOrder): (r: seq<u16>)
    requires U16sFit(data, p, count)
    ensures |r| == count
    ensures forall i :: 0 <= i < count ==> r[i] == U16At(data, p + 2 * i, order)
  {
    seq(count, i requires 0 <= i < count => U16At(data, p + 2 * i, order))
  }

  function U32sAt(data: seq<byte>, p: nat, count: nat, order: ByteOrder): (r: seq<u32>)
    requires p + 4 * count <= |data|
    ensures |r| == count
    ensures forall i :: 0 <= i < count ==> r[i] == U32At(data, p + 4 * i, order)
  {
    seq(count, i requires 0 <= i < count => U32At(data, p + 4 * i, order))
  }

  /**
   * `read_uint16s(count)`: the whole run of `2 * count` bytes is read first,
   * and a short run fails.  A count of 0 reads nothing and succeeds wherever
   * the cursor stands, even past the end.
   */
  function ReadU16s(r: Reader, count: nat): (res: Result<Parsed<seq<u16>>>)
    ensures res.Ok? <==> U16sFit(r.data, r.pos, count)
    ensures res.Ok? ==> res.value.rest == r.(pos := r.pos + 2 * count) && |res.value.value| == count
    ensures res.Ok? ==> res.value.value == U16sAt(r.data, r.pos, count, r.order)
    ensures count == 0 ==> res == Ok(Parsed([], r))
    ensures res.Err? ==> res.error == Truncated
  {
    if U16sFit(r.data, r.pos, count) then
      Ok(Parsed(U16sAt(r.data, r.pos, count, r.order), r.(pos := r.pos + 2 * count)))
    else
      Err(Truncated)
  }

  /**
   * `count` 32-bit words in a row: a run of `read_single` calls, or the C#
   * `ReadSingles`.  Floats are kept as their bit patterns.
   */
  function ReadWords(r: Reader, count: nat): (res: Result<Parsed<seq<u32>>>)
    ensures res.Ok? <==> r.pos + 4 * count <= |r.data|
    ensures res.Ok? ==> res.value.rest == r.(pos := r.pos + 4 * count)
    ensures res.Ok? ==> res.value.value == U32sAt(r.data, r.pos, count, r.order)
  {
    if r.pos + 4 * count <= |r.data| then
      Ok(Parsed(U32sAt(r.data, r.pos, count, r.order), r.(pos := r.pos + 4 * count)))
    else
      Err(Truncated)
  }

  /**
   * The C# `ReadUInt16s`: `count` single reads one after another, the first
   * short one failing.  It gives what reading the run at once gives.
   */
  method ReadU16sOneByOne(r: Reader, count: nat) returns (res: Result<Parsed<seq<u16>>>)
    ensures res == ReadU16s(r, count)
  {
    var values: seq<u16> := [];
    var cur := r;
    while |values| < count
      invariant |values| <= count
      invariant cur == r.(pos := r.pos + 2 * |values|)
      invariant |values| > 0 ==> r.pos + 2 * |values| <= |r.data|
      invariant forall i :: 0 <= i < |values| ==> values[i] == U16At(r.data, r.pos + 2 * i, r.order)
      decreases count - |values|
    {
      var step := ReadU16(cur);
      if step.Err? {
        return Err(Truncated);
      }
      values := values + [step.value.value];
      cur := step.value.rest;
    }
    assert values == U16sAt(r.data, r.pos, count, r.order);
    return Ok(Parsed(values, cur));
  }

  /**
   * The zero-terminated byte string at position `p`: the bytes before the
   * first 0 from `p` on.  Running out of data before a 0 fails.
   */
  function ZeroTerminatedAt(data: seq<byte>, p: nat): (r: Result<seq<byte>>)
    ensures r.Ok? ==> p + |r.value| < |data| && data[p..p + |r.value|] == r.value && data[p + |r.value|] == 0
    ensures r.Ok? ==> forall i :: 0 <= i < |r.value| ==> r.value[i] != 0
    ensures r.Err? <==> forall i :: p <= i < |data| ==> data[i] != 0
    ensures r.Err? ==> r.error == Truncated
    decreases |data| - p
  {
    if p >= |data| then Err(Truncated)
    else if data[p] == 0 then Ok([])
    else
      match ZeroTerminatedAt(data, p + 1)
      case Err(e) => Err(e)
      case Ok(s) => Ok([data[p]] + s)
  }

  /** `read_0_string`: the bytes up to the first 0; the 0 itself is consumed too. */
  function Read0String(r: Reader): (res: Result<Parsed<seq<byte>>>)
    ensures res.Ok? ==> res.value.rest == r.(pos := r.pos + |res.value.value| + 1)
    ensures res.Ok? ==> r.pos + |res.value.value| < |r.data| && r.data[r.pos + |res.value.value|] == 0
    ensures res.Ok? ==> res.value.value == r.data[r.pos..r.pos + |res.value.value|]
    ensures res.Ok? ==> forall i :: 0 <= i < |res.value.value| ==> res.value.value[i] != 0
  {
    var s :- ZeroTerminatedAt(r.data, r.pos);
    Ok(Parsed(s, r.(pos := r.pos + |s| + 1)))
  }

  /** The `read_0_string` loop: read a byte, stop at 0, otherwise append it and read the next. */
  method Read0StringLoop(r: Reader) returns (res: Result<Parsed<seq<byte>>>)
    ensures res == Read0String(r)
  {
    var text: seq<byte> := [];
    var cur := r;
    while true
      invariant cur == r.(pos := r.pos + |text|)
      invariant text == [] || cur.pos <= |r.data|
      invariant forall i :: 0 <= i < |text| ==> text[i] == r.data[r.pos + i] && text[i] != 0
      decreases |r.data| - |text|
    {
      var next := ReadByte(cur);
      if next.Err? {
        Read0StringMissing(r, text);
        return Err(Truncated);
      }
      if next.value.value == 0 {
        Read0StringFound(r, text);
        return Ok(Parsed(text, next.value.rest));
      }
      text := text + [next.value.value];
      cur := next.value.rest;
    }
  }

  /** A zero-free run up to the end of the data: `read_0_string` fails. */
  lemma Read0StringMissing(r: Reader, text: seq<byte>)
    requires r.pos + |text| >= |r.data|
    requires forall i :: 0 <= i < |text| ==> r.pos + i < |r.data| && text[i] == r.data[r.pos + i] && text[i] != 0
    ensures Read0String(r) == Err(Truncated)
  {
    forall i | r.pos <= i < |r.data|
      ensures r.data[i] != 0
    {
      assert r.data[i] == text[i - r.pos];
    }
  }

  /** A zero-free run followed by a 0: `read_0_string` returns the run and consumes the 0. */
  lemma Read0StringFound(r: Reader, text: seq<byte>)
    requires r.pos + |text| < |r.data| && r.data[r.pos + |text|] == 0
    requires forall i :: 0 <= i < |text| ==> text[i] == r.data[r.pos + i] && text[i] != 0
    ensures Read0String(r) == Ok(Parsed(text, r.(pos := r.pos + |text| + 1)))
  {
    ZeroTerminatedFound(r.data, r.pos, text);
  }

  /** A zero-free run followed by a 0 is exactly the zero-terminated string. */
  lemma {:induction false} ZeroTerminatedFound(data: seq<byte>, p: nat, text: seq<byte>)
    requires p + |text| < |data| && data[p + |text|] == 0
    requires forall i :: 0 <= i < |text| ==> text[i] == data[p + i] && text[i] != 0
    ensures ZeroTerminatedAt(data, p) == Ok(text)
    decreases |text|
  {
    if |text| > 0 {
      assert data[p] == text[0];
      ZeroTerminatedFound(data, p + 1, text[1..]);
      assert text == [data[p]] + text[1..];
    }
  }
}
