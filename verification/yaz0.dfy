/**
 * Yaz0 decompression.  A 16-byte header ("Yaz0", the big-endian decompressed
 * size, 8 padding bytes) is followed by groups: one control byte whose bits,
 * from the most significant down, say whether the next token is a literal
 * byte (bit set) or a back-reference (bit clear).  Decoding continues group
 * by group while fewer than the declared number of bytes have been written.
 */
module Yaz0 {
  import opened Wrappers
  import opened Bytes

  const HeaderSize: nat := 16

  /** The decoder's progress: the input position and everything written so far. */
  datatype State = State(pos: nat, out: seq<byte>)

  /** Bit `i` (0 is the least significant) of a control byte. */
  predicate Bit(ctrl: byte, i: nat)
    requires i < 8
  {
    BitOf(ctrl, i)
  }

  predicate BitOf(v: nat, i: nat)
    decreases i
  {
    if i == 0 then v % 2 == 1 else BitOf(v / 2, i - 1)
  }

  /**
   * Appends `length` bytes, each copied from `distance + 1` bytes before the
   * end as it stands when that byte is written, so a copy may read bytes it
   * has itself produced.
   */
  function CopyBack(out: seq<byte>, distance: nat, length: nat): (r: seq<byte>)
    requires distance < |out|
    ensures |r| == |out| + length && r[..|out|] == out
    decreases length, out
  {
    if length == 0 then out
    else CopyBack(out + [out[|out| - distance - 1]], distance, length - 1)
  }

  /** A back-reference token: the run length, the distance and the input position after the token. */
  datatype Reference = Reference(length: nat, distance: nat, next: nat)

  /**
   * The 2- or 3-byte back-reference token at `p`.  A non-zero top nibble of
   * the big-endian 16-bit word is the length minus 2; a zero nibble means the
   * length minus 0x12 follows in a third byte.
   */
  function ReadReference(data: seq<byte>, p: nat): (r: Result<Reference>)
    ensures r.Ok? ==> 3 <= r.value.length <= 0x111 && r.value.distance < 0x1000
    ensures r.Ok? ==> p + 2 <= r.value.next <= |data| && (r.value.length <= 17 <==> r.value.next == p + 2)
    ensures r.Ok? ==> (r.value.length <= 17 <==> data[p] >= 0x10)
    ensures r.Ok? ==> r.value.distance == U16At(data, p, BigEndian) % 0x1000
    ensures r.Err? <==> p + 2 > |data| || (data[p] < 0x10 && p + 3 > |data|)
    ensures r.Err? ==> r.error == Truncated
  {
    if p + 2 > |data| then Err(Truncated)
    else
      var v := U16At(data, p, BigEndian);
      var nibble := v / 0x1000;
      if nibble != 0 then Ok(Reference(nibble + 2, v % 0x1000, p + 2))
      else if p + 3 > |data| then Err(Truncated)
      else Ok(Reference(data[p + 2] as int + 0x12, v, p + 3))
  }

  /** The shortest token for a run: 2 bytes for lengths up to 17, 3 bytes beyond. */
  function EncodeReference(length: nat, distance: nat): (r: seq<byte>)
    requires 3 <= length <= 0x111 && distance < 0x1000
    ensures |r| == if length <= 17 then 2 else 3
  {
    if length <= 17 then Encode16((length - 2) * 0x1000 + distance, BigEndian)
    else Encode16(distance, BigEndian) + [length - 0x12]
  }

  /** Every length and distance a token can carry decodes back from its encoding. */
  lemma ReferenceRoundTrip(length: nat, distance: nat, rest: seq<byte>)
    requires 3 <= length <= 0x111 && distance < 0x1000
    ensures ReadReference(EncodeReference(length, distance) + rest, 0)
         == Ok(Reference(length, distance, |EncodeReference(length, distance)|))
  {
    var enc := EncodeReference(length, distance);
    var data := enc + rest;
    if length <= 17 {
      var v := (length - 2) * 0x1000 + distance;
      assert U16At(data, 0, BigEndian) == U16Of(enc[0], enc[1], BigEndian) == v;
    } else {
      assert U16At(data, 0, BigEndian) == U16Of(enc[0], enc[1], BigEndian) == distance;
      assert data[2] == length - 0x12;
    }
  }

  /** One token, for control bit `i`.  A clear bit is skipped once the declared size is reached. */
  function Token(data: seq<byte>, size: nat, ctrl: byte, i: nat, s: State): (r: Result<State>)
    requires i < 8
    ensures r.Ok? ==> s.pos <= r.value.pos && |s.out| <= |r.value.out|
    ensures r.Err? ==> r.error == Truncated || r.error == BadBackReference
    ensures Bit(ctrl, i) && s.pos < |data| ==> r == Ok(State(s.pos + 1, s.out + [data[s.pos]]))
    ensures Bit(ctrl, i) && s.pos >= |data| ==> r == Err(Truncated)
    ensures !Bit(ctrl, i) && |s.out| >= size ==> r == Ok(s)
  {
    if Bit(ctrl, i) then
      if s.pos < |data| then Ok(State(s.pos + 1, s.out + [data[s.pos]])) else Err(Truncated)
    else if |s.out| < size then
      var ref :- ReadReference(data, s.pos);
      if ref.distance + 1 > |s.out| then Err(BadBackReference)
      else Ok(State(ref.next, CopyBack(s.out, ref.distance, ref.length)))
    else
      Ok(s)
  }

  /** The tokens for control bits `k - 1` down to 0. */
  function Bits(data: seq<byte>, size: nat, ctrl: byte, k: nat, s: State): (r: Result<State>)
    requires k <= 8
    ensures r.Ok? ==> s.pos <= r.value.pos && |s.out| <= |r.value.out|
    ensures r.Err? ==> r.error == Truncated || r.error == BadBackReference
    decreases k, s
  {
    if k == 0 then Ok(s)
    else
      var s' :- Token(data, size, ctrl, k - 1, s);
      Bits(data, size, ctrl, k - 1, s')
  }

  /** Whole groups, until at least `size` bytes have been written. */
  function Groups(data: seq<byte>, size: nat, s: State): (r: Result<State>)
    ensures r.Ok? ==> |r.value.out| >= size && |s.out| <= |r.value.out|
    ensures r.Err? ==> r.error == Truncated || r.error == BadBackReference
    decreases |data| - s.pos, 1
  {
    if |s.out| >= size then Ok(s)
    else if s.pos >= |data| then Err(Truncated)
    else GroupsAfter(data, size, s, Bits(data, size, data[s.pos], 8, State(s.pos + 1, s.out)))
  }

  /** The groups after the one at `s.pos`, which decoded to `g`. */
  function GroupsAfter(data: seq<byte>, size: nat, s: State, g: Result<State>): (r: Result<State>)
    requires s.pos < |data|
    requires g.Ok? ==> s.pos < g.value.pos && |s.out| <= |g.value.out|
    requires g.Err? ==> g.error == Truncated || g.error == BadBackReference
    ensures r.Ok? ==> |r.value.out| >= size && |s.out| <= |r.value.out|
    ensures r.Err? ==> r.error == Truncated || r.error == BadBackReference
    decreases |data| - s.pos, 0
  {
    match g
    case Err(e) => Err(e)
    case Ok(t) => Groups(data, size, t)
  }

  /** The declared size: the big-endian 32-bit value at offset 4. */
  function DeclaredSize(data: seq<byte>): u32
    requires 8 <= |data|
  {
    U32At(data, 4, BigEndian)
  }

  /**
   * The decompressed bytes.  A file that does not start with "Yaz0" is
   * rejected; otherwise decoding starts at offset 16 and writes at least the
   * declared number of bytes (more when the last group overshoots).
   */
  function Decompress(data: seq<byte>): (r: Result<seq<byte>>)
    ensures !TagAt(data, 0, Yaz0Tag) <==> r == Err(BadMagic)
    ensures r.Ok? ==> 8 <= |data| && |r.value| >= DeclaredSize(data)
  {
    if !TagAt(data, 0, Yaz0Tag) then Err(BadMagic)
    else if |data| < 8 then Err(Truncated)
    else
      var s :- Groups(data, DeclaredSize(data), State(HeaderSize, []));
      Ok(s.out)
  }

  /** The byte-by-byte copy: the source position advances with the output. */
  method CopyLoop(out: seq<byte>, distance: nat, length: nat) returns (r: seq<byte>)
    requires distance < |out|
    ensures r == CopyBack(out, distance, length)
  {
    r := out;
    var source := |out| - distance - 1;
    var j := 0;
    while j < length
      invariant j <= length && distance < |r|
      invariant source == |r| - distance - 1
      invariant CopyBack(r, distance, length - j) == CopyBack(out, distance, length)
      decreases length - j
    {
      r := r + [r[source]];
      source := source + 1;
      j := j + 1;
    }
  }

  /** One group: the control byte's bits from 7 down to 0. */
  method GroupLoop(data: seq<byte>, size: nat, ctrl: byte, s: State) returns (r: Result<State>)
    ensures r == Bits(data, size, ctrl, 8, s)
  {
    var pos: nat := s.pos;
    var out := s.out;
    var i := 8;
    while i > 0
      invariant i <= 8
      invariant Bits(data, size, ctrl, i, State(pos, out)) == Bits(data, size, ctrl, 8, s)
      decreases i
    {
      i := i - 1;
      if Bit(ctrl, i) {
        if pos >= |data| {
          return Err(Truncated);
        }
        out := out + [data[pos]];
        pos := pos + 1;
      } else if |out| < size {
        var ref := ReadReference(data, pos);
        if ref.Err? {
          return Err(ref.error);
        }
        if ref.value.distance + 1 > |out| {
          return Err(BadBackReference);
        }
        out := CopyLoop(out, ref.value.distance, ref.value.length);
        pos := ref.value.next;
      }
    }
    return Ok(State(pos, out));
  }

  /** The decompression loop: one control byte per group while fewer than the declared bytes are written. */
  method DecompressLoop(data: seq<byte>) returns (res: Result<seq<byte>>)
    ensures res == Decompress(data)
  {
    if !TagAt(data, 0, Yaz0Tag) {
      return Err(BadMagic);
    }
    if |data| < 8 {
      return Err(Truncated);
    }
    var size: nat := DeclaredSize(data);
    var s := State(HeaderSize, []);
    while |s.out| < size
      invariant Groups(data, size, s) == Groups(data, size, State(HeaderSize, []))
      decreases |data| - s.pos
    {
      if s.pos >= |data| {
        return Err(Truncated);
      }
      var g := GroupLoop(data, size, data[s.pos], State(s.pos + 1, s.out));
      if g.Err? {
        return Err(g.error);
      }
      s := g.value;
    }
    return Ok(s.out);
  }

  /** Every byte a back-reference appends repeats the byte `distance + 1` before it. */
  lemma {:induction false} CopyBackRepeats(out: seq<byte>, distance: nat, length: nat)
    requires distance < |out|
    ensures forall k :: |out| <= k < |out| + length ==>
      CopyBack(out, distance, length)[k] == CopyBack(out, distance, length)[k - distance - 1]
    decreases length
  {
    if length > 0 {
      var out' := out + [out[|out| - distance - 1]];
      CopyBackRepeats(out', distance, length - 1);
      var r := CopyBack(out, distance, length);
      assert r == CopyBack(out', distance, length - 1);
      assert r[..|out'|] == out';
      assert r[|out|] == out'[|out|] == out'[|out| - distance - 1] == r[|out| - distance - 1];
    }
  }

  /** Those repeats and the unchanged prefix determine the copy completely. */
  lemma {:induction false} CopyBackUnique(out: seq<byte>, distance: nat, length: nat, r: seq<byte>)
    requires distance < |out|
    requires |r| == |out| + length && r[..|out|] == out
    requires forall k :: |out| <= k < |r| ==> r[k] == r[k - distance - 1]
    ensures r == CopyBack(out, distance, length)
    decreases length
  {
    if length > 0 {
      var out' := out + [out[|out| - distance - 1]];
      assert r[..|out'|] == out' by {
        assert r[|out|] == r[|out| - distance - 1] == out[|out| - distance - 1];
        assert r[..|out|] + [r[|out|]] == r[..|out| + 1];
      }
      CopyBackUnique(out', distance, length - 1, r);
    }
  }

  /** With distance 0 a back-reference repeats the last byte: run-length expansion. */
  lemma {:induction false} RunLength(out: seq<byte>, length: nat)
    requires |out| > 0
    ensures forall k :: |out| <= k < |out| + length ==> CopyBack(out, 0, length)[k] == out[|out| - 1]
    decreases length
  {
    if length > 0 {
      var out' := out + [out[|out| - 1]];
      RunLength(out', length - 1);
      assert CopyBack(out, 0, length) == CopyBack(out', 0, length - 1);
      forall k | |out| <= k < |out| + length
        ensures CopyBack(out, 0, length)[k] == out[|out| - 1]
      {
        if k == |out| {
          assert CopyBack(out', 0, length - 1)[..|out'|] == out';
        }
      }
    }
  }

  /** Decoding never reads the header's padding: only bytes 0-7 and the payload from offset 16 matter. */
  lemma PaddingIgnored(data: seq<byte>, padding: seq<byte>)
    requires |data| >= HeaderSize && |padding| == 8
    ensures Decompress(data[..8] + padding + data[HeaderSize..]) == Decompress(data)
  {
    var data' := data[..8] + padding + data[HeaderSize..];
    assert data'[..8] == data[..8];
    assert TagAt(data', 0, Yaz0Tag) == TagAt(data, 0, Yaz0Tag) by {
      assert data'[0..4] == data[0..4];
    }
    if TagAt(data, 0, Yaz0Tag) {
      assert data'[4..8] == data[4..8];
      assert DeclaredSize(data') == DeclaredSize(data);
      GroupsAgree(data, data', DeclaredSize(data), State(HeaderSize, []));
    }
  }

  /** Two inputs that agree from the current position on decode alike. */
  lemma {:induction false} GroupsAgree(data: seq<byte>, data': seq<byte>, size: nat, s: State)
    requires |data| == |data'| && s.pos <= |data|
    requires forall k :: s.pos <= k < |data| ==> data[k] == data'[k]
    ensures Groups(data, size, s) == Groups(data', size, s)
    decreases |data| - s.pos
  {
    if |s.out| < size && s.pos < |data| {
      var g := State(s.pos + 1, s.out);
      BitsAgree(data, data', size, data[s.pos], 8, g);
      var b := Bits(data, size, data[s.pos], 8, g);
      if b.Ok? {
        BitsStayInBounds(data, size, data[s.pos], 8, g);
        GroupsAgree(data, data', size, b.value);
      }
    }
  }

  lemma {:induction false} BitsAgree(data: seq<byte>, data': seq<byte>, size: nat, ctrl: byte, k: nat, s: State)
    requires k <= 8 && |data| == |data'|
    requires forall i :: s.pos <= i < |data| ==> data[i] == data'[i]
    ensures Bits(data, size, ctrl, k, s) == Bits(data', size, ctrl, k, s)
    decreases k
  {
    if k > 0 {
      var t := Token(data, size, ctrl, k - 1, s);
      assert t == Token(data', size, ctrl, k - 1, s) by {
        if !Bit(ctrl, k - 1) && |s.out| < size && s.pos + 2 <= |data| {
          assert U16At(data, s.pos, BigEndian) == U16At(data', s.pos, BigEndian);
        }
      }
      if t.Ok? {
        BitsAgree(data, data', size, ctrl, k - 1, t.value);
      }
    }
  }

  /** A group that decodes never leaves the input. */
  lemma {:induction false} BitsStayInBounds(data: seq<byte>, size: nat, ctrl: byte, k: nat, s: State)
    requires k <= 8 && s.pos <= |data|
    requires Bits(data, size, ctrl, k, s).Ok?
    ensures Bits(data, size, ctrl, k, s).value.pos <= |data|
    decreases k
  {
    if k > 0 {
      var t := Token(data, size, ctrl, k - 1, s);
      BitsStayInBounds(data, size, ctrl, k - 1, t.value);
    }
  }

  // ---- A literal-only encoder, the inverse of the decoder on every input ----

  /** The control byte whose top `m` bits are set and whose other bits are clear. */
  function LiteralControl(m: nat): byte
    requires m <= 8
  {
    if m == 0 then 0x00 else if m == 1 then 0x80 else if m == 2 then 0xC0
    else if m == 3 then 0xE0 else if m == 4 then 0xF0 else if m == 5 then 0xF8
    else if m == 6 then 0xFC else if m == 7 then 0xFE else 0xFF
  }

  /** Bit `i` of `LiteralControl(m)` is set exactly for the top `m` bits. */
  lemma LiteralControlBits(m: nat)
    requires m <= 8
    ensures forall i :: 0 <= i < 8 ==> (Bit(LiteralControl(m), i) <==> i >= 8 - m)
  {
    if m == 0 {
      forall i | 0 <= i < 8 ensures BitOf(0x00, i) <==> i >= 8 {
        if i == 0 {} else if i == 1 {} else if i == 2 {} else if i == 3 {}
        else if i == 4 {} else if i == 5 {} else if i == 6 {} else {}
      }
    } else if m == 1 {
      forall i | 0 <= i < 8 ensures BitOf(0x80, i) <==> i >= 7 {
        if i == 0 {} else if i == 1 {} else if i == 2 {} else if i == 3 {}
        else if i == 4 {} else if i == 5 {} else if i == 6 {} else {}
      }
    } else if m == 2 {
      forall i | 0 <= i < 8 ensures BitOf(0xC0, i) <==> i >= 6 {
        if i == 0 {} else if i == 1 {} else if i == 2 {} else if i == 3 {}
        else if i == 4 {} else if i == 5 {} else if i == 6 {} else {}
      }
    } else if m == 3 {
      forall i | 0 <= i < 8 ensures BitOf(0xE0, i) <==> i >= 5 {
        if i == 0 {} else if i == 1 {} else if i == 2 {} else if i == 3 {}
        else if i == 4 {} else if i == 5 {} else if i == 6 {} else {}
      }
    } else if m == 4 {
      forall i | 0 <= i < 8 ensures BitOf(0xF0, i) <==> i >= 4 {
        if i == 0 {} else if i == 1 {} else if i == 2 {} else if i == 3 {}
        else if i == 4 {} else if i == 5 {} else if i == 6 {} else {}
      }
    } else if m == 5 {
      forall i | 0 <= i < 8 ensures BitOf(0xF8, i) <==> i >= 3 {
        if i == 0 {} else if i == 1 {} else if i == 2 {} else if i == 3 {}
        else if i == 4 {} else if i == 5 {} else if i == 6 {} else {}
      }
    } else if m == 6 {
      forall i | 0 <= i < 8 ensures BitOf(0xFC, i) <==> i >= 2 {
        if i == 0 {} else if i == 1 {} else if i == 2 {} else if i == 3 {}
        else if i == 4 {} else if i == 5 {} else if i == 6 {} else {}
      }
    } else if m == 7 {
      forall i | 0 <= i < 8 ensures BitOf(0xFE, i) <==> i >= 1 {
        if i == 0 {} else if i == 1 {} else if i == 2 {} else if i == 3 {}
        else if i == 4 {} else if i == 5 {} else if i == 6 {} else {}
      }
    } else {
      forall i | 0 <= i < 8 ensures BitOf(0xFF, i) <==> i >= 0 {
        if i == 0 {} else if i == 1 {} else if i == 2 {} else if i == 3 {}
        else if i == 4 {} else if i == 5 {} else if i == 6 {} else {}
      }
    }
  }

  /** Groups of eight literals; a last short group has its unused bits clear. */
  function EncodeLiterals(payload: seq<byte>): (r: seq<byte>)
    ensures |r| == |payload| + (|payload| + 7) / 8
    decreases |payload|
  {
    if |payload| == 0 then []
    else if |payload| <= 8 then [LiteralControl(|payload|)] + payload
    else [LiteralControl(8)] + payload[..8] + EncodeLiterals(payload[8..])
  }

  /** A Yaz0 file holding `payload` uncompressed. */
  function CompressLiterals(payload: seq<byte>): (r: seq<byte>)
    requires |payload| < TwoTo32
    ensures |r| == HeaderSize + |EncodeLiterals(payload)|
  {
    Yaz0Tag + Encode32(|payload|, BigEndian) + [0, 0, 0, 0, 0, 0, 0, 0] + EncodeLiterals(payload)
  }

  /** A set bit copies one input byte. */
  lemma BitsLiteralStep(data: seq<byte>, size: nat, ctrl: byte, k: nat, s: State, t: State)
    requires 0 < k <= 8 && Bit(ctrl, k - 1) && s.pos < |data|
    requires Bits(data, size, ctrl, k - 1, State(s.pos + 1, s.out + [data[s.pos]])) == Ok(t)
    ensures Bits(data, size, ctrl, k, s) == Ok(t)
  {
    assert Token(data, size, ctrl, k - 1, s) == Ok(State(s.pos + 1, s.out + [data[s.pos]]));
  }

  /** The run of `m` bytes at `p` is its first byte followed by the run of `m - 1` bytes after it. */
  lemma LiteralRunStep(out: seq<byte>, data: seq<byte>, p: nat, m: nat)
    requires 0 < m && p + m <= |data|
    ensures (out + [data[p]]) + data[p + 1..p + m] == out + data[p..p + m]
  {
    assert data[p..p + m] == [data[p]] + data[p + 1..p + m];
  }

  /** `m` set bits over clear ones copy `m` input bytes and then stop at the declared size. */
  lemma {:induction false} LiteralBits(data: seq<byte>, size: nat, ctrl: byte, k: nat, m: nat, s: State)
    requires m <= k <= 8
    requires forall i :: 0 <= i < k ==> (Bit(ctrl, i) <==> i >= k - m)
    requires s.pos + m <= |data|
    requires m < k ==> |s.out| + m >= size
    ensures Bits(data, size, ctrl, k, s) == Ok(State(s.pos + m, s.out + data[s.pos..s.pos + m]))
    decreases k
  {
    var final := State(s.pos + m, s.out + data[s.pos..s.pos + m]);
    if m == 0 {
      assert final == s;
      if k > 0 {
        SkipClearBits(data, size, ctrl, k, s);
      }
    } else {
      var s' := State(s.pos + 1, s.out + [data[s.pos]]);
      LiteralRunStep(s.out, data, s.pos, m);
      assert State(s'.pos + (m - 1), s'.out + data[s'.pos..s'.pos + (m - 1)]) == final;
      LiteralBits(data, size, ctrl, k - 1, m - 1, s');
      BitsLiteralStep(data, size, ctrl, k, s, final);
    }
  }

  /** A group that decodes to `t` hands the rest of the decoding over to `t`. */
  lemma GroupsStep(data: seq<byte>, size: nat, s: State, t: State)
    requires |s.out| < size && s.pos < |data|
    requires Bits(data, size, data[s.pos], 8, State(s.pos + 1, s.out)) == Ok(t)
    ensures Groups(data, size, s) == Groups(data, size, t)
  {
  }

  /** A group whose control byte has its top `m` bits set copies the `m` bytes after it. */
  lemma OneLiteralGroup(data: seq<byte>, size: nat, s: State, m: nat)
    requires 1 <= m <= 8 && |s.out| < size
    requires s.pos + 1 + m <= |data| && data[s.pos] == LiteralControl(m)
    requires m < 8 ==> |s.out| + m >= size
    ensures Groups(data, size, s) == Groups(data, size, State(s.pos + 1 + m, s.out + data[s.pos + 1..s.pos + 1 + m]))
  {
    LiteralControlBits(m);
    LiteralBits(data, size, LiteralControl(m), 8, m, State(s.pos + 1, s.out));
    GroupsStep(data, size, s, State(s.pos + 1 + m, s.out + data[s.pos + 1..s.pos + 1 + m]));
  }

  /** The first group of the encoding: its control byte, its literals and the groups after it. */
  lemma EncodeLiteralsHead(rest: seq<byte>, m: nat)
    requires |rest| > 0 && m == if |rest| <= 8 then |rest| else 8
    ensures |EncodeLiterals(rest)| == 1 + m + |EncodeLiterals(rest[m..])|
    ensures EncodeLiterals(rest)[0] == LiteralControl(m)
    ensures EncodeLiterals(rest)[1..1 + m] == rest[..m]
    ensures EncodeLiterals(rest)[1 + m..] == EncodeLiterals(rest[m..])
  {
    if |rest| <= 8 {
      assert rest[m..] == [];
    }
  }

  /** A run that matches `enc` matches it byte by byte, and so does each of its suffixes. */
  lemma MatchAt(data: seq<byte>, p: nat, enc: seq<byte>)
    requires p + |enc| <= |data| && data[p..p + |enc|] == enc
    ensures forall i :: 0 <= i < |enc| ==> data[p + i] == enc[i]
    ensures forall k :: 0 <= k <= |enc| ==> data[p + k..p + |enc|] == enc[k..]
  {
    forall i | 0 <= i < |enc|
      ensures data[p + i] == enc[i]
    {
      assert data[p + i] == data[p..p + |enc|][i];
    }
  }

  /** The literals of the first group and the encoding of the groups after it, as runs of the input. */
  lemma LiteralGroupParts(data: seq<byte>, rest: seq<byte>, p: nat, m: nat)
    requires |rest| > 0 && m == if |rest| <= 8 then |rest| else 8
    requires p + |EncodeLiterals(rest)| <= |data|
    requires data[p..p + |EncodeLiterals(rest)|] == EncodeLiterals(rest)
    ensures |EncodeLiterals(rest)| == 1 + m + |EncodeLiterals(rest[m..])|
    ensures data[p] == LiteralControl(m)
    ensures data[p + 1..p + 1 + m] == rest[..m]
    ensures data[p + 1 + m..p + 1 + m + |EncodeLiterals(rest[m..])|] == EncodeLiterals(rest[m..])
  {
    var enc := EncodeLiterals(rest);
    EncodeLiteralsHead(rest, m);
    MatchAt(data, p, enc);
    assert p + 1 + m + |EncodeLiterals(rest[m..])| == p + |enc|;
    forall j | 0 <= j < m
      ensures data[p + 1 + j] == rest[j]
    {
      assert enc[1 + j] == enc[1..1 + m][j];
    }
  }

  /** Decoding the first group of the encoding copies its literals. */
  lemma LiteralGroupHead(data: seq<byte>, size: nat, rest: seq<byte>, s: State, m: nat)
    requires |rest| > 0 && m == if |rest| <= 8 then |rest| else 8
    requires size == |s.out| + |rest|
    requires s.pos + 1 + m <= |data| && data[s.pos] == LiteralControl(m)
    requires data[s.pos + 1..s.pos + 1 + m] == rest[..m]
    ensures Groups(data, size, s) == Groups(data, size, State(s.pos + 1 + m, s.out + rest[..m]))
  {
    OneLiteralGroup(data, size, s, m);
  }

  /** One group of the encoding decodes to its literals and leaves the encoding of the rest to decode. */
  lemma LiteralGroupStep(data: seq<byte>, size: nat, rest: seq<byte>, s: State) returns (s': State, rest': seq<byte>)
    requires |rest| > 0 && size == |s.out| + |rest|
    requires s.pos + |EncodeLiterals(rest)| <= |data|
    requires data[s.pos..s.pos + |EncodeLiterals(rest)|] == EncodeLiterals(rest)
    ensures |rest'| < |rest| && size == |s'.out| + |rest'|
    ensures s'.pos + |EncodeLiterals(rest')| <= |data|
    ensures data[s'.pos..s'.pos + |EncodeLiterals(rest')|] == EncodeLiterals(rest')
    ensures State(s'.pos + |EncodeLiterals(rest')|, s'.out + rest') == State(s.pos + |EncodeLiterals(rest)|, s.out + rest)
    ensures Groups(data, size, s) == Groups(data, size, s')
  {
    var m := if |rest| <= 8 then |rest| else 8;
    LiteralGroupParts(data, rest, s.pos, m);
    SplitAppend(s.out, rest, m);
    s', rest' := State(s.pos + 1 + m, s.out + rest[..m]), rest[m..];
    assert data[s'.pos..s'.pos + |EncodeLiterals(rest')|] == EncodeLiterals(rest');
    assert State(s'.pos + |EncodeLiterals(rest')|, s'.out + rest') == State(s.pos + |EncodeLiterals(rest)|, s.out + rest);
    LiteralGroupHead(data, size, rest, s, m);
  }

  /** Decoding the encoding of `rest` appends `rest` and stops right after the encoding. */
  lemma LiteralGroups(data: seq<byte>, size: nat, rest: seq<byte>, s: State)
    requires size == |s.out| + |rest|
    requires s.pos + |EncodeLiterals(rest)| <= |data|
    requires data[s.pos..s.pos + |EncodeLiterals(rest)|] == EncodeLiterals(rest)
    ensures Groups(data, size, s) == Ok(State(s.pos + |EncodeLiterals(rest)|, s.out + rest))
  {
    var final := State(s.pos + |EncodeLiterals(rest)|, s.out + rest);
    var t := s;
    var r := rest;
    while |r| > 0
      invariant size == |t.out| + |r|
      invariant t.pos + |EncodeLiterals(r)| <= |data| && data[t.pos..t.pos + |EncodeLiterals(r)|] == EncodeLiterals(r)
      invariant final == State(t.pos + |EncodeLiterals(r)|, t.out + r)
      invariant Groups(data, size, s) == Groups(data, size, t)
      decreases |r|
    {
      t, r := LiteralGroupStep(data, size, r, t);
    }
    assert EncodeLiterals(r) == [] && t.out + r == t.out;
    assert Groups(data, size, t) == Ok(t);
  }

  lemma SplitAppend(out: seq<byte>, rest: seq<byte>, m: nat)
    requires m <= |rest|
    ensures (out + rest[..m]) + rest[m..] == out + rest
  {
    assert rest[..m] + rest[m..] == rest;
  }

  /** Decompressing a literal-only file returns exactly the payload. */
  lemma CompressLiteralsRoundTrip(payload: seq<byte>)
    requires |payload| < TwoTo32
    ensures Decompress(CompressLiterals(payload)) == Ok(payload)
  {
    var file := CompressLiterals(payload);
    var enc := EncodeLiterals(payload);
    var header := Yaz0Tag + Encode32(|payload|, BigEndian) + [0, 0, 0, 0, 0, 0, 0, 0];
    assert file == header + enc && |header| == HeaderSize;
    assert file[0..4] == Yaz0Tag;
    assert file[4..8] == Encode32(|payload|, BigEndian);
    assert DeclaredSize(file) == |payload|;
    assert file[HeaderSize..HeaderSize + |enc|] == enc;
    LiteralGroups(file, |payload|, payload, State(HeaderSize, []));
    assert [] + payload == payload;
  }

  /**
   * A file of one group, 0x80 b 00 00 00: the literal b, then a 3-byte
   * reference at distance 0 and length 0x12, for a declared size of 19.
   */
  function RunLengthFile(b: byte): seq<byte>
  {
    Yaz0Tag + [0, 0, 0, 19] + [0, 0, 0, 0, 0, 0, 0, 0] + [0x80, b, 0, 0, 0]
  }

  lemma RunLengthGroup(b: byte)
    ensures Bits(RunLengthFile(b), 19, 0x80, 8, State(17, [])) == Ok(State(21, CopyBack([b], 0, 0x12)))
  {
    var data := RunLengthFile(b);
    var s1 := State(18, [b]);
    assert Bit(0x80, 7);
    assert data[17] == b;
    assert [] + [data[17]] == [b];
    assert Token(data, 19, 0x80, 7, State(17, [])) == Ok(s1);
    assert !Bit(0x80, 6);
    assert data[18] == 0 && data[19] == 0 && data[20] == 0 && |data| == 21;
    assert ReadReference(data, 18) == Ok(Reference(0x12, 0, 21));
    var s2 := State(21, CopyBack([b], 0, 0x12));
    assert Token(data, 19, 0x80, 6, s1) == Ok(s2);
    LiteralControlBits(1);
    SkipClearBits(data, 19, 0x80, 6, s2);
    assert Bits(data, 19, 0x80, 7, s1) == Bits(data, 19, 0x80, 6, s2);
    assert Bits(data, 19, 0x80, 8, State(17, [])) == Bits(data, 19, 0x80, 7, s1);
  }

  /** The file decompresses to 19 copies of b: the back-reference re-reads the bytes it writes. */
  lemma RunLengthExample(b: byte)
    ensures Decompress(RunLengthFile(b)) == Ok(seq(19, _ => b))
  {
    var data := RunLengthFile(b);
    assert data[0..4] == Yaz0Tag;
    assert data[4..8] == [0, 0, 0, 19];
    assert DeclaredSize(data) == 19;
    RunLengthGroup(b);
    var out := CopyBack([b], 0, 0x12);
    RunLength([b], 0x12);
    assert out[..1] == [b];
    assert out == seq(19, _ => b);
    assert data[16] == 0x80;
    assert Groups(data, 19, State(21, out)) == Ok(State(21, out));
    assert Groups(data, 19, State(16, [])) == Ok(State(21, out));
  }

  /** Clear bits once the declared size is reached consume nothing. */
  lemma {:induction false} SkipClearBits(data: seq<byte>, size: nat, ctrl: byte, k: nat, s: State)
    requires k <= 8 && |s.out| >= size
    requires forall i :: 0 <= i < k ==> !Bit(ctrl, i)
    ensures Bits(data, size, ctrl, k, s) == Ok(s)
    decreases k
  {
    if k > 0 {
      SkipClearBits(data, size, ctrl, k - 1, s);
    }
  }
}
