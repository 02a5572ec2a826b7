/**
 * A reference meaning for Yaz0 data, independent of the decoder: a stream of
 * tokens, each a literal byte or a back-reference, expanded one after the
 * other.  The encoder packs the tokens into groups of eight behind a control
 * byte whose bits, most significant first, mark the literals.  Decompressing
 * the encoding of any token stream gives exactly what the tokens expand to,
 * and fails exactly when a back-reference reaches before the start.
 */
module Yaz0Tokens {
  import opened Wrappers
  import opened Bytes
  import opened Yaz0

  datatype Tok = Literal(b: byte) | Copy(length: nat, distance: nat)

  /** The lengths and distances a 2- or 3-byte back-reference token can carry. */
  predicate Encodable(t: Tok)
  {
    t.Literal? || (3 <= t.length <= 0x111 && t.distance < 0x1000)
  }

  predicate AllEncodable(toks: seq<Tok>)
  {
    forall i :: 0 <= i < |toks| ==> Encodable(toks[i])
  }

  /** The number of bytes a token writes. */
  function Width(t: Tok): nat
  {
    if t.Literal? then 1 else t.length
  }

  /** The number of bytes the tokens write. */
  function Length(toks: seq<Tok>): nat
    decreases |toks|
  {
    if |toks| == 0 then 0 else Width(toks[0]) + Length(toks[1..])
  }

  /** One token applied to the output so far: a literal appends its byte, a back-reference its `CopyBack` run. */
  function Apply(out: seq<byte>, t: Tok): (r: Result<seq<byte>>)
    ensures r.Ok? ==> |r.value| == |out| + Width(t)
    ensures r.Err? <==> t.Copy? && t.distance >= |out|
  {
    match t
    case Literal(b) => Ok(out + [b])
    case Copy(length, distance) =>
      if distance < |out| then Ok(CopyBack(out, distance, length)) else Err(BadBackReference)
  }

  /**
   * What the tokens append to `out`, each in turn.  A back-reference whose
   * distance reaches before the start of the output fails.
   */
  function Expand(out: seq<byte>, toks: seq<Tok>): (r: Result<seq<byte>>)
    ensures r.Ok? ==> |r.value| == |out| + Length(toks)
    ensures r.Err? ==> r.error == BadBackReference
    decreases |toks|
  {
    if |toks| == 0 then Ok(out)
    else match Apply(out, toks[0])
      case Err(e) => Err(e)
      case Ok(next) => Expand(next, toks[1..])
  }

  /** The bytes of one token: the literal itself, or the shortest back-reference encoding. */
  function TokenBytes(t: Tok): (r: seq<byte>)
    requires Encodable(t)
  {
    match t
    case Literal(b) => [b]
    case Copy(length, distance) => EncodeReference(length, distance)
  }

  /** The tokens' bytes back to back, without control bytes. */
  function Payload(toks: seq<Tok>): seq<byte>
    requires AllEncodable(toks)
    decreases |toks|
  {
    if |toks| == 0 then [] else TokenBytes(toks[0]) + Payload(toks[1..])
  }

  function Pow2(n: nat): (r: nat)
    ensures r >= 1
  {
    if n == 0 then 1 else 2 * Pow2(n - 1)
  }

  /** The number whose bits, most significant first, are `flags`. */
  function Control(flags: seq<bool>): (r: nat)
    ensures r < Pow2(|flags|)
    decreases |flags|
  {
    if |flags| == 0 then 0
    else 2 * Control(flags[..|flags| - 1]) + (if flags[|flags| - 1] then 1 else 0)
  }

  /** Bit `i` of `Control(flags)` counts from the end of `flags`. */
  lemma {:induction false} ControlBits(flags: seq<bool>, i: nat)
    requires i < |flags|
    ensures BitOf(Control(flags), i) <==> flags[|flags| - 1 - i]
    decreases i
  {
    if i > 0 {
      var front := flags[..|flags| - 1];
      assert Control(flags) / 2 == Control(front);
      ControlBits(front, i - 1);
      assert front[|front| - 1 - (i - 1)] == flags[|flags| - 1 - i];
    }
  }

  /** Eight flags for a group of up to eight tokens: set for a literal, clear for a back-reference or an unused bit. */
  function Flags(group: seq<Tok>): (r: seq<bool>)
    requires |group| <= 8
    ensures |r| == 8
    ensures forall j :: 0 <= j < 8 ==> (r[j] <==> j < |group| && group[j].Literal?)
  {
    seq(8, j requires 0 <= j < 8 => j < |group| && group[j].Literal?)
  }

  function GroupControl(group: seq<Tok>): byte
    requires |group| <= 8
  {
    assert Pow2(8) == 256 by {
      assert Pow2(1) == 2 && Pow2(2) == 4 && Pow2(3) == 8 && Pow2(4) == 16;
      assert Pow2(5) == 32 && Pow2(6) == 64 && Pow2(7) == 128;
    }
    Control(Flags(group))
  }

  /** Bit `i` of a group's control byte is set exactly when token `7 - i` is a literal. */
  lemma GroupControlBits(group: seq<Tok>)
    requires |group| <= 8
    ensures MarksLiterals(GroupControl(group), 8, group)
  {
    forall i | 0 <= i < 8
      ensures Bit(GroupControl(group), i) <==> 7 - i < |group| && group[7 - i].Literal?
    {
      ControlBits(Flags(group), i);
    }
  }

  /** Groups of up to eight tokens, each behind its control byte. */
  function EncodeTokens(toks: seq<Tok>): seq<byte>
    requires AllEncodable(toks)
    decreases |toks|
  {
    if |toks| == 0 then []
    else
      var m := GroupSize(|toks|);
      [GroupControl(toks[..m])] + Payload(toks[..m]) + EncodeTokens(toks[m..])
  }

  /** A Yaz0 file for a token stream: the header declares the number of bytes the tokens write. */
  function Compress(toks: seq<Tok>): (r: seq<byte>)
    requires AllEncodable(toks) && Length(toks) < TwoTo32
    ensures |r| == HeaderSize + |EncodeTokens(toks)|
  {
    Yaz0Tag + Encode32(Length(toks), BigEndian) + [0, 0, 0, 0, 0, 0, 0, 0] + EncodeTokens(toks)
  }

  /** The number of input bytes a token takes. */
  function TokenWidth(t: Tok): nat
  {
    if t.Literal? then 1 else if t.length <= 17 then 2 else 3
  }

  /** The number of input bytes the tokens take, without control bytes. */
  function PayloadWidth(toks: seq<Tok>): nat
    decreases |toks|
  {
    if |toks| == 0 then 0 else TokenWidth(toks[0]) + PayloadWidth(toks[1..])
  }

  /** The number of tokens in the first group of a stream of `n`. */
  function GroupSize(n: nat): nat
  {
    if n <= 8 then n else 8
  }

  /** The output of a decoder state, or its failure. */
  function Output(r: Result<State>): Result<seq<byte>>
  {
    match r
    case Ok(t) => Ok(t.out)
    case Err(e) => Err(e)
  }

  /** A decoder state from an expansion result and the input position after the tokens. */
  function StateAt(r: Result<seq<byte>>, pos: nat): Result<State>
  {
    match r
    case Ok(out) => Ok(State(pos, out))
    case Err(e) => Err(e)
  }

  // ---- The decoder reads the encoding back ----

  /** Decompressing the encoding of a token stream gives what the tokens expand to, or the same failure. */
  lemma DecompressTokens(toks: seq<Tok>)
    requires AllEncodable(toks) && Length(toks) < TwoTo32
    ensures Decompress(Compress(toks)) == Expand([], toks)
  {
    var file := Compress(toks);
    CompressedHeader(toks);
    EncodingAt(file, HeaderSize, toks);
    TokenGroups(file, Length(toks), toks, State(HeaderSize, []));
    assert Decompress(file) == Output(Groups(file, Length(toks), State(HeaderSize, [])));
  }

  /** The file starts with the tag and declares the tokens' length, and the encoding follows the header. */
  lemma CompressedHeader(toks: seq<Tok>)
    requires AllEncodable(toks) && Length(toks) < TwoTo32
    ensures TagAt(Compress(toks), 0, Yaz0Tag) && 8 <= |Compress(toks)|
    ensures DeclaredSize(Compress(toks)) == Length(toks)
    ensures Follows(Compress(toks), HeaderSize, EncodeTokens(toks))
  {
    var size := Encode32(Length(toks), BigEndian);
    var header := Yaz0Tag + size + [0, 0, 0, 0, 0, 0, 0, 0];
    HeaderFields(size, EncodeTokens(toks));
    FollowsAfter(header, EncodeTokens(toks));
  }

  /** A header with a given size field, whatever follows it. */
  lemma HeaderFields(size: seq<byte>, rest: seq<byte>)
    requires |size| == 4
    ensures var file := Yaz0Tag + size + [0, 0, 0, 0, 0, 0, 0, 0] + rest;
      TagAt(file, 0, Yaz0Tag) && 8 <= |file| && DeclaredSize(file) == U32Of(size, BigEndian)
  {
    var file := Yaz0Tag + size + [0, 0, 0, 0, 0, 0, 0, 0] + rest;
    assert file[0..4] == Yaz0Tag;
    assert file[4] == size[0] && file[5] == size[1] && file[6] == size[2] && file[7] == size[3];
  }
  /** The token the decoder finds at `p`: the literal byte, or a reference token that reads back as `t`. */
  predicate TokenAt(data: seq<byte>, p: nat, t: Tok)
  {
    match t
    case Literal(b) => p < |data| && data[p] == b
    case Copy(length, distance) => ReadReference(data, p) == Ok(Reference(length, distance, p + TokenWidth(t)))
  }

  /** The tokens lie back to back from position `p`. */
  predicate EncodedAt(data: seq<byte>, p: nat, toks: seq<Tok>)
    decreases |toks|
  {
    |toks| == 0 || (TokenAt(data, p, toks[0]) && EncodedAt(data, p + TokenWidth(toks[0]), toks[1..]))
  }

  /** The groups of the encoding lie back to back from position `p`. */
  predicate GroupsAt(data: seq<byte>, p: nat, toks: seq<Tok>)
    decreases |toks|
  {
    |toks| == 0 ||
    (var group := toks[..GroupSize(|toks|)];
     && |group| <= 8 && p < |data| && data[p] == GroupControl(group)
     && EncodedAt(data, p + 1, group)
     && GroupsAt(data, p + 1 + PayloadWidth(group), toks[GroupSize(|toks|)..]))
  }

  /** Where the input holds a token's bytes, the decoder finds that token. */
  lemma TokenEncoded(data: seq<byte>, p: nat, t: Tok)
    requires Encodable(t) && Follows(data, p, TokenBytes(t))
    ensures TokenAt(data, p, t) && |TokenBytes(t)| == TokenWidth(t)
  {
    if t.Literal? {
      assert data[p + 0] == TokenBytes(t)[0];
    } else {
      ReadReferenceAt(data, p, t.length, t.distance);
    }
  }

  /** Where the input holds the tokens' bytes, the decoder finds them back to back. */
  lemma {:induction false} PayloadEncoded(data: seq<byte>, p: nat, toks: seq<Tok>)
    requires AllEncodable(toks) && Follows(data, p, Payload(toks))
    ensures EncodedAt(data, p, toks) && |Payload(toks)| == PayloadWidth(toks)
    decreases |toks|
  {
    if |toks| > 0 {
      var bytes := TokenBytes(toks[0]);
      assert Payload(toks) == bytes + Payload(toks[1..]);
      FollowsSplit(data, p, bytes, Payload(toks[1..]));
      TokenEncoded(data, p, toks[0]);
      PayloadEncoded(data, p + |bytes|, toks[1..]);
    }
  }

  /** Where the input holds the encoding, the decoder finds its groups back to back. */
  lemma {:induction false} EncodingAt(data: seq<byte>, p: nat, toks: seq<Tok>)
    requires AllEncodable(toks) && Follows(data, p, EncodeTokens(toks))
    ensures GroupsAt(data, p, toks)
    decreases |toks|
  {
    if |toks| > 0 {
      var m := GroupSize(|toks|);
      FirstGroupAt(data, p, toks);
      EncodingAt(data, p + 1 + PayloadWidth(toks[..m]), toks[m..]);
    }
  }

  /** The first group of an encoding the input holds at `p`, and where the rest of the encoding lies. */
  lemma FirstGroupAt(data: seq<byte>, p: nat, toks: seq<Tok>)
    requires AllEncodable(toks) && |toks| > 0 && Follows(data, p, EncodeTokens(toks))
    ensures p < |data| && data[p] == GroupControl(toks[..GroupSize(|toks|)])
    ensures EncodedAt(data, p + 1, toks[..GroupSize(|toks|)])
    ensures Follows(data, p + 1 + PayloadWidth(toks[..GroupSize(|toks|)]), EncodeTokens(toks[GroupSize(|toks|)..]))
  {
    var m := GroupSize(|toks|);
    var head := [GroupControl(toks[..m])];
    var body := Payload(toks[..m]);
    assert EncodeTokens(toks) == head + body + EncodeTokens(toks[m..]);
    FollowsSplit(data, p, head + body, EncodeTokens(toks[m..]));
    FollowsSplit(data, p, head, body);
    assert data[p + 0] == head[0];
    PayloadEncoded(data, p + 1, toks[..m]);
  }

  /** The groups from `s` decode to the expansion of the tokens left. */
  ghost predicate StreamDecodes(data: seq<byte>, size: nat, toks: seq<Tok>, s: State)
  {
    Output(Groups(data, size, s)) == Expand(s.out, toks)
  }

  /** From a state that has the encoding of `toks` ahead of it, the groups decode to the expansion of `toks`. */
  lemma {:induction false} TokenGroups(data: seq<byte>, size: nat, toks: seq<Tok>, s: State)
    requires AllEncodable(toks) && |s.out| + Length(toks) == size && GroupsAt(data, s.pos, toks)
    ensures StreamDecodes(data, size, toks, s)
    decreases |toks|
  {
    var s', more := StreamStep(data, size, toks, s);
    if more {
      TokenGroups(data, size, toks[GroupSize(|toks|)..], s');
    }
  }

  /**
   * The first group of the stream decodes to the expansion of its tokens.
   * When that succeeds (`more`), the rest of the stream is ready at `s'` and
   * decoding it decodes the stream; otherwise the stream is decoded already.
   */
  lemma StreamStep(data: seq<byte>, size: nat, toks: seq<Tok>, s: State) returns (s': State, more: bool)
    requires AllEncodable(toks) && |s.out| + Length(toks) == size && GroupsAt(data, s.pos, toks)
    ensures more ==> |toks| > 0
    ensures more ==> AllEncodable(toks[GroupSize(|toks|)..]) && |s'.out| + Length(toks[GroupSize(|toks|)..]) == size
    ensures more ==> GroupsAt(data, s'.pos, toks[GroupSize(|toks|)..])
    ensures more ==> (StreamDecodes(data, size, toks[GroupSize(|toks|)..], s') ==> StreamDecodes(data, size, toks, s))
    ensures !more ==> StreamDecodes(data, size, toks, s)
  {
    if |toks| == 0 {
      assert Expand(s.out, toks) == Ok(s.out);
      return s, false;
    }
    var m := GroupSize(|toks|);
    var group, rest := toks[..m], toks[m..];
    SplitGroup(toks);
    GroupControlBits(group);
    GroupBits(data, size, GroupControl(group), 8, group, State(s.pos + 1, s.out));
    ExpandGroup(s.out, toks);
    s', more := GroupDecodesStream(data, size, toks, group, rest, s);
    if more {
      RestGroupsAt(data, s.pos, toks, s'.pos);
    }
  }

  /** The groups after the first lie back to back after its tokens. */
  lemma RestGroupsAt(data: seq<byte>, p: nat, toks: seq<Tok>, q: nat)
    requires GroupsAt(data, p, toks) && |toks| > 0 && q == p + 1 + PayloadWidth(toks[..GroupSize(|toks|)])
    ensures GroupsAt(data, q, toks[GroupSize(|toks|)..])
  {
  }

  /**
   * Decoding the stream is decoding its first group and then the rest: when
   * the group expands (`more`), the rest starts at `s'`.
   */
  lemma GroupDecodesStream(data: seq<byte>, size: nat, toks: seq<Tok>, group: seq<Tok>, rest: seq<Tok>, s: State)
    returns (s': State, more: bool)
    requires |s.out| < size && s.pos < |data|
    requires Expand(s.out, toks) == (if Expand(s.out, group).Ok? then Expand(Expand(s.out, group).value, rest) else Expand(s.out, group))
    requires GroupDecodes(data, size, data[s.pos], 8, group, State(s.pos + 1, s.out))
    ensures more <==> Expand(s.out, group).Ok?
    ensures more ==> s' == State(s.pos + 1 + PayloadWidth(group), Expand(s.out, group).value)
    ensures more ==> (StreamDecodes(data, size, rest, s') ==> StreamDecodes(data, size, toks, s))
    ensures !more ==> StreamDecodes(data, size, toks, s)
  {
    var first := Bits(data, size, data[s.pos], 8, State(s.pos + 1, s.out));
    assert Groups(data, size, s) == GroupsAfter(data, size, s, first);
    var e := Expand(s.out, group);
    if e.Ok? {
      more := true;
      s' := State(s.pos + 1 + PayloadWidth(group), e.value);
      assert first == Ok(s');
    } else {
      more := false;
      s' := s;
      assert first == Err(e.error);
    }
  }

  /** The first group and the rest of a stream share out its tokens and the bytes they write. */
  lemma SplitGroup(toks: seq<Tok>)
    requires AllEncodable(toks) && |toks| > 0
    ensures AllEncodable(toks[..GroupSize(|toks|)]) && AllEncodable(toks[GroupSize(|toks|)..])
    ensures Length(toks) == Length(toks[..GroupSize(|toks|)]) + Length(toks[GroupSize(|toks|)..])
    ensures Length(toks) >= 1
  {
    var m := GroupSize(|toks|);
    assert toks == toks[..m] + toks[m..];
    LengthAppend(toks[..m], toks[m..]);
    assert Width(toks[0]) >= 1;
  }

  /** Expanding the stream is expanding its first group and then the rest. */
  lemma ExpandGroup(out: seq<byte>, toks: seq<Tok>)
    requires |toks| > 0
    ensures Expand(out, toks) ==
            (var first := Expand(out, toks[..GroupSize(|toks|)]);
             if first.Ok? then Expand(first.value, toks[GroupSize(|toks|)..]) else first)
  {
    var m := GroupSize(|toks|);
    assert toks == toks[..m] + toks[m..];
    ExpandAppend(out, toks[..m], toks[m..]);
  }

  /** Bit `i` of the `k` low bits of `ctrl` is set exactly when token `k - 1 - i` of `rest` is a literal. */
  predicate MarksLiterals(ctrl: byte, k: nat, rest: seq<Tok>)
    requires k <= 8
  {
    forall i :: 0 <= i < k ==> (Bit(ctrl, i) <==> k - 1 - i < |rest| && rest[k - 1 - i].Literal?)
  }

  /** After the top bit, the remaining bits mark the remaining tokens. */
  lemma MarksStep(ctrl: byte, k: nat, rest: seq<Tok>)
    requires 0 < k <= 8 && |rest| > 0 && MarksLiterals(ctrl, k, rest)
    ensures Bit(ctrl, k - 1) <==> rest[0].Literal?
    ensures MarksLiterals(ctrl, k - 1, rest[1..])
  {
    forall i | 0 <= i < k - 1
      ensures Bit(ctrl, i) <==> k - 2 - i < |rest[1..]| && rest[1..][k - 2 - i].Literal?
    {
      assert k - 1 - i < |rest| ==> rest[1..][k - 2 - i] == rest[k - 1 - i];
    }
  }

  /** The decoder's step for one control bit agrees with `Apply` on the token found there. */
  lemma TokenStep(data: seq<byte>, size: nat, ctrl: byte, i: nat, t: Tok, s: State)
    requires i < 8 && (Bit(ctrl, i) <==> t.Literal?) && TokenAt(data, s.pos, t)
    requires |s.out| < size
    ensures Token(data, size, ctrl, i, s) == StateAt(Apply(s.out, t), s.pos + TokenWidth(t))
  {
  }

  /** What `GroupBits` needs of the state before the tokens `rest` of a group with `k` control bits left. */
  predicate GroupReady(data: seq<byte>, size: nat, ctrl: byte, k: nat, rest: seq<Tok>, s: State)
  {
    && |rest| <= k <= 8 && AllEncodable(rest) && MarksLiterals(ctrl, k, rest)
    && EncodedAt(data, s.pos, rest)
    && |s.out| + Length(rest) <= size
    && (|rest| < k ==> |s.out| + Length(rest) >= size)
  }

  /** The bits left in the group decode to the expansion of the tokens left, ending after them. */
  ghost predicate GroupDecodes(data: seq<byte>, size: nat, ctrl: byte, k: nat, rest: seq<Tok>, s: State)
    requires k <= 8
  {
    Bits(data, size, ctrl, k, s) == StateAt(Expand(s.out, rest), s.pos + PayloadWidth(rest))
  }

  /**
   * One group: with `k` control bits left and the tokens `rest` of the group
   * not yet decoded, the bits decode those tokens; unused bits are clear and
   * meet a full output.
   */
  lemma {:induction false} GroupBits(data: seq<byte>, size: nat, ctrl: byte, k: nat, rest: seq<Tok>, s: State)
    requires GroupReady(data, size, ctrl, k, rest, s)
    ensures GroupDecodes(data, size, ctrl, k, rest, s)
    decreases k
  {
    var s', more := GroupStep(data, size, ctrl, k, rest, s);
    if more {
      GroupBits(data, size, ctrl, k - 1, rest[1..], s');
    }
  }

  /**
   * The first token of the group: the bits decode it as `Apply` says.  When
   * it applies (`more`), the rest of the group is ready at `s'` and decoding
   * it decodes the group; otherwise the group is decoded already.
   */
  lemma GroupStep(data: seq<byte>, size: nat, ctrl: byte, k: nat, rest: seq<Tok>, s: State) returns (s': State, more: bool)
    requires GroupReady(data, size, ctrl, k, rest, s)
    ensures more ==> |rest| > 0 && GroupReady(data, size, ctrl, k - 1, rest[1..], s')
    ensures more ==> (GroupDecodes(data, size, ctrl, k - 1, rest[1..], s') ==> GroupDecodes(data, size, ctrl, k, rest, s))
    ensures !more ==> GroupDecodes(data, size, ctrl, k, rest, s)
  {
    if |rest| == 0 {
      GroupDone(data, size, ctrl, k, rest, s);
      return s, false;
    }
    var t := rest[0];
    MarksStep(ctrl, k, rest);
    assert Length(rest) == Width(t) + Length(rest[1..]);
    TokenStep(data, size, ctrl, k - 1, t, s);
    StepDecodes(data, size, ctrl, k, rest, s);
    more := Apply(s.out, t).Ok?;
    if more {
      s' := State(s.pos + TokenWidth(t), Apply(s.out, t).value);
    } else {
      s' := s;
    }
  }

  /** No tokens left: the remaining control bits are clear and the output is full. */
  lemma GroupDone(data: seq<byte>, size: nat, ctrl: byte, k: nat, rest: seq<Tok>, s: State)
    requires GroupReady(data, size, ctrl, k, rest, s) && |rest| == 0
    ensures GroupDecodes(data, size, ctrl, k, rest, s)
  {
    assert Expand(s.out, rest) == Ok(s.out);
    if k > 0 {
      SkipClearBits(data, size, ctrl, k, s);
    }
  }

  /** Decoding the group is decoding its first token and then the rest. */
  lemma StepDecodes(data: seq<byte>, size: nat, ctrl: byte, k: nat, rest: seq<Tok>, s: State)
    requires 0 < k <= 8 && |rest| > 0
    requires Token(data, size, ctrl, k - 1, s) == StateAt(Apply(s.out, rest[0]), s.pos + TokenWidth(rest[0]))
    ensures Apply(s.out, rest[0]).Ok? ==>
      (GroupDecodes(data, size, ctrl, k - 1, rest[1..], State(s.pos + TokenWidth(rest[0]), Apply(s.out, rest[0]).value))
       ==> GroupDecodes(data, size, ctrl, k, rest, s))
    ensures Apply(s.out, rest[0]).Err? ==> GroupDecodes(data, size, ctrl, k, rest, s)
  {
    BitsStep(data, size, ctrl, k, s);
    ExpandStep(s.out, rest);
  }

  /** The first control bit's token, then the rest of the group. */
  lemma BitsStep(data: seq<byte>, size: nat, ctrl: byte, k: nat, s: State)
    requires 0 < k <= 8
    ensures Bits(data, size, ctrl, k, s) ==
            (if Token(data, size, ctrl, k - 1, s).Ok? then Bits(data, size, ctrl, k - 1, Token(data, size, ctrl, k - 1, s).value)
             else Token(data, size, ctrl, k - 1, s))
  {
  }

  /** The first token, then the rest of the stream. */
  lemma ExpandStep(out: seq<byte>, toks: seq<Tok>)
    requires |toks| > 0
    ensures Expand(out, toks) == (if Apply(out, toks[0]).Ok? then Expand(Apply(out, toks[0]).value, toks[1..]) else Apply(out, toks[0]))
  {
  }

  /** The back-reference token encoded at `p` reads back as its length and distance. */
  lemma ReadReferenceAt(data: seq<byte>, p: nat, length: nat, distance: nat)
    requires 3 <= length <= 0x111 && distance < 0x1000
    requires Follows(data, p, EncodeReference(length, distance))
    ensures ReadReference(data, p) == Ok(Reference(length, distance, p + |EncodeReference(length, distance)|))
  {
    var enc := EncodeReference(length, distance);
    FollowsAt(data, p, enc, 0);
    FollowsAt(data, p, enc, 1);
    if length <= 17 {
      assert U16At(data, p, BigEndian) == U16Of(enc[0], enc[1], BigEndian) == (length - 2) * 0x1000 + distance;
    } else {
      assert U16At(data, p, BigEndian) == U16Of(enc[0], enc[1], BigEndian) == distance;
      FollowsAt(data, p, enc, 2);
      assert data[p + 2] == enc[2] == length - 0x12;
    }
  }

  /** The bytes two streams write in a row add up. */
  lemma {:induction false} LengthAppend(a: seq<Tok>, b: seq<Tok>)
    ensures Length(a + b) == Length(a) + Length(b)
    decreases |a|
  {
    if |a| > 0 {
      assert (a + b)[0] == a[0] && (a + b)[1..] == a[1..] + b;
      LengthAppend(a[1..], b);
    } else {
      assert a + b == b;
    }
  }

  /** Expanding two streams in a row is expanding their concatenation. */
  lemma {:induction false} ExpandAppend(out: seq<byte>, a: seq<Tok>, b: seq<Tok>)
    ensures Expand(out, a + b) == (if Expand(out, a).Ok? then Expand(Expand(out, a).value, b) else Expand(out, a))
    decreases |a|
  {
    if |a| > 0 {
      assert (a + b)[0] == a[0] && (a + b)[1..] == a[1..] + b;
      var first := Apply(out, a[0]);
      if first.Ok? {
        ExpandAppend(first.value, a[1..], b);
      }
    } else {
      assert a + b == b;
    }
  }

  // ---- Examples of the reference meaning ----

  /** A stream of literals expands to its bytes. */
  lemma {:induction false} ExpandLiterals(out: seq<byte>, payload: seq<byte>)
    ensures Expand(out, seq(|payload|, i requires 0 <= i < |payload| => Literal(payload[i]))) == Ok(out + payload)
    decreases |payload|
  {
    var toks := seq(|payload|, i requires 0 <= i < |payload| => Literal(payload[i]));
    if |payload| > 0 {
      assert toks[1..] == seq(|payload[1..]|, i requires 0 <= i < |payload[1..]| => Literal(payload[1..][i]));
      ExpandLiterals(out + [payload[0]], payload[1..]);
      assert out + [payload[0]] + payload[1..] == out + payload;
    } else {
      assert out + payload == out;
    }
  }

  /** A stream that starts with a back-reference has nothing to copy from. */
  lemma CopyFirstFails(length: nat, distance: nat, rest: seq<Tok>)
    requires 3 <= length <= 0x111 && distance < 0x1000
    requires AllEncodable(rest) && length + Length(rest) < TwoTo32
    ensures Decompress(Compress([Copy(length, distance)] + rest)) == Err(BadBackReference)
  {
    var toks := [Copy(length, distance)] + rest;
    assert toks[0] == Copy(length, distance) && toks[1..] == rest;
    DecompressTokens(toks);
  }
}
