/**
 * Fixed-width unsigned integers, the two byte orders, the 32-bit casts the
 * C# readers rely on, and positional access to integers stored in a byte
 * sequence.  Integers are unbounded `int`s restricted by subset types; every
 * wrap-around is written out.
 */
module Bytes {

  type byte = x: int | 0 <= x < 0x100
  type u16 = x: int | 0 <= x < 0x1_0000
  type u32 = x: int | 0 <= x < 0x1_0000_0000

  const TwoTo32: int := 0x1_0000_0000

  datatype ByteOrder = BigEndian | LittleEndian

  /** The 16-bit value stored in two consecutive bytes. */
  function U16Of(first: byte, second: byte, order: ByteOrder): (r: u16)
  {
    if order.BigEndian? then first * 0x100 + second else second * 0x100 + first
  }

  /** The two bytes are the high and the low byte of the value, in the order's arrangement. */
  lemma U16OfBytes(first: byte, second: byte, order: ByteOrder)
    ensures order.BigEndian? ==> (U16Of(first, second, order) / 0x100 == first && U16Of(first, second, order) % 0x100 == second)
    ensures order.LittleEndian? ==> (U16Of(first, second, order) / 0x100 == second && U16Of(first, second, order) % 0x100 == first)
  {
  }

  /** The 32-bit value stored in four consecutive bytes: two 16-bit halves, the high half first in big-endian order. */
  function U32Of(b: seq<byte>, order: ByteOrder): (r: u32)
    requires |b| == 4
  {
    U32OfBytes(b[0], b[1], b[2], b[3], order)
  }

  function U32OfBytes(b0: byte, b1: byte, b2: byte, b3: byte, order: ByteOrder): (r: u32)
  {
    var first := U16Of(b0, b1, order);
    var second := U16Of(b2, b3, order);
    if order.BigEndian? then first * 0x1_0000 + second else second * 0x1_0000 + first
  }

  function Encode16(v: u16, order: ByteOrder): (r: seq<byte>)
    ensures |r| == 2 && U16Of(r[0], r[1], order) == v
  {
    if order.BigEndian? then [v / 0x100, v % 0x100] else [v % 0x100, v / 0x100]
  }

  function Encode32(v: u32, order: ByteOrder): (r: seq<byte>)
    ensures |r| == 4 && U32Of(r, order) == v
  {
    var hi := Encode16(v / 0x1_0000, order);
    var lo := Encode16(v % 0x1_0000, order);
    if order.BigEndian? then hi + lo else lo + hi
  }

  /** Decoding two bytes loses nothing: encoding the value gives the same bytes back. */
  lemma Encode16OfU16(first: byte, second: byte, order: ByteOrder)
    ensures Encode16(U16Of(first, second, order), order) == [first, second]
  {
  }

  /** A 32-bit value made of a high and a low half encodes as the encodings of its halves. */
  lemma Encode32OfHalves(hi: u16, lo: u16, order: ByteOrder)
    ensures Encode32(hi * 0x1_0000 + lo, order) ==
            if order.BigEndian? then Encode16(hi, order) + Encode16(lo, order) else Encode16(lo, order) + Encode16(hi, order)
  {
    var v := hi * 0x1_0000 + lo;
    assert v / 0x1_0000 == hi && v % 0x1_0000 == lo;
  }

  lemma Encode32OfU32(b: seq<byte>, order: ByteOrder)
    requires |b| == 4
    ensures Encode32(U32Of(b, order), order) == b
  {
    var first := U16Of(b[0], b[1], order);
    var second := U16Of(b[2], b[3], order);
    Encode16OfU16(b[0], b[1], order);
    Encode16OfU16(b[2], b[3], order);
    if order.BigEndian? {
      Encode32OfHalves(first, second, order);
    } else {
      Encode32OfHalves(second, first, order);
    }
    assert b == [b[0], b[1]] + [b[2], b[3]];
  }

  /** The C# unchecked cast of an integer to `uint`: the value modulo 2^32. */
  function Wrap32(x: int): (r: u32)
    ensures 0 <= x < TwoTo32 ==> r == x
    ensures -TwoTo32 <= x < 0 ==> r == x + TwoTo32
    ensures TwoTo32 <= x < 2 * TwoTo32 ==> r == x - TwoTo32
  {
    x % TwoTo32
  }

  /** The C# reinterpretation of a `uint` as an `int` (two's complement). */
  function ToInt32(v: u32): (r: int)
    ensures -0x8000_0000 <= r < 0x8000_0000
    ensures Wrap32(r) == v
    ensures r < 0 <==> v >= 0x8000_0000
  {
    if v < 0x8000_0000 then v else v - TwoTo32
  }

  /** Positional access: the integer stored at byte position `p` of `data`. */
  function U16At(data: seq<byte>, p: nat, order: ByteOrder): u16
    requires p + 2 <= |data|
  {
    U16Of(data[p], data[p + 1], order)
  }

  function U32At(data: seq<byte>, p: nat, order: ByteOrder): u32
    requires p + 4 <= |data|
  {
    U32OfBytes(data[p], data[p + 1], data[p + 2], data[p + 3], order)
  }

  function I32At(data: seq<byte>, p: nat, order: ByteOrder): int
    requires p + 4 <= |data|
  {
    ToInt32(U32At(data, p, order))
  }

  /** The 4-byte tags of the formats, as ASCII bytes. */
  const Yaz0Tag: seq<byte> := [0x59, 0x61, 0x7A, 0x30]   // "Yaz0"
  const FresTag: seq<byte> := [0x46, 0x52, 0x45, 0x53]   // "FRES"
  const FmdlTag: seq<byte> := [0x46, 0x4D, 0x44, 0x4C]   // "FMDL"
  const FsklTag: seq<byte> := [0x46, 0x53, 0x4B, 0x4C]   // "FSKL"
  const FvtxTag: seq<byte> := [0x46, 0x56, 0x54, 0x58]   // "FVTX"
  const FshpTag: seq<byte> := [0x46, 0x53, 0x48, 0x50]   // "FSHP"
  const FmatTag: seq<byte> := [0x46, 0x4D, 0x41, 0x54]   // "FMAT"
  const ByamlTag: seq<byte> := [0x42, 0x59]              // "BY"

  /** Whether the bytes at position `p` spell `tag`; a tag that runs past the end does not match. */
  predicate TagAt(data: seq<byte>, p: nat, tag: seq<byte>)
  {
    p + |tag| <= |data| && data[p..p + |tag|] == tag
  }

  /** The data holds `bytes` from position `p`: the first byte there, the rest after it. */
  predicate Follows(data: seq<byte>, p: nat, bytes: seq<byte>)
    decreases |bytes|
  {
    p + |bytes| <= |data| && (|bytes| == 0 || (data[p] == bytes[0] && Follows(data, p + 1, bytes[1..])))
  }

  /** Where the data holds `bytes`, each of them stands at its place. */
  lemma {:induction false} FollowsAt(data: seq<byte>, p: nat, bytes: seq<byte>, i: nat)
    requires Follows(data, p, bytes) && i < |bytes|
    ensures data[p + i] == bytes[i]
    decreases i
  {
    if i > 0 {
      FollowsAt(data, p + 1, bytes[1..], i - 1);
    }
  }

  /** The data holds `bytes` where each of them stands at its place. */
  lemma {:induction false} FollowsOf(data: seq<byte>, p: nat, bytes: seq<byte>)
    requires p + |bytes| <= |data| && forall i :: 0 <= i < |bytes| ==> data[p + i] == bytes[i]
    ensures Follows(data, p, bytes)
    decreases |bytes|
  {
    if |bytes| > 0 {
      forall i | 0 <= i < |bytes[1..]|
        ensures data[p + 1 + i] == bytes[1..][i]
      {
        assert data[p + (1 + i)] == bytes[1 + i];
      }
      assert data[p + 0] == bytes[0];
      FollowsOf(data, p + 1, bytes[1..]);
    }
  }

  /** Where the data holds `a + b`, it holds `a` and then `b`. */
  lemma {:induction false} FollowsSplit(data: seq<byte>, p: nat, a: seq<byte>, b: seq<byte>)
    requires Follows(data, p, a + b)
    ensures Follows(data, p, a) && Follows(data, p + |a|, b)
    decreases |a|
  {
    if |a| > 0 {
      assert (a + b)[1..] == a[1..] + b;
      FollowsSplit(data, p + 1, a[1..], b);
    } else {
      assert a + b == b;
    }
  }

  /** A sequence holds what was appended to it right after its old end. */
  lemma FollowsAfter(a: seq<byte>, b: seq<byte>)
    ensures Follows(a + b, |a|, b)
  {
    forall i | 0 <= i < |b|
      ensures (a + b)[|a| + i] == b[i]
    {
    }
    FollowsOf(a + b, |a|, b);
  }

  /** Where the data holds the encoding of a word, reading the word there gives it back. */
  lemma WordFollows(data: seq<byte>, p: nat, v: u32, order: ByteOrder)
    requires Follows(data, p, Encode32(v, order))
    ensures p + 4 <= |data| && U32At(data, p, order) == v
  {
    var r := Encode32(v, order);
    FollowsAt(data, p, r, 1);
    FollowsAt(data, p, r, 2);
    FollowsAt(data, p, r, 3);
  }
}
