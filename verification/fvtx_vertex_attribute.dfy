/**
 * An FVTX vertex attribute: a name offset, a word packing the index of the
 * vertex buffer holding the attribute (high byte) with the offset of the
 * attribute inside each element (low 24 bits), and the format tag.
 */
module FvtxVertexAttribute {
  import opened Wrappers
  import opened Bytes
  import opened BinaryReader
  import opened BfresOffset
  import opened Records

  /** The known layouts of a part of a vertex buffer element. */
  datatype Format =
    | Two8BitNormalized     // two 8-bit values between 0 and 1
    | Two16BitNormalized    // two 16-bit values between 0 and 1
    | Four8BitSigned        // four signed 8-bit values
    | Three10BitSigned      // three signed 10-bit values packed in a word
    | Two32BitFloat         // two single-precision floats
    | Four16BitFloat        // four half-precision floats
    | Three32BitFloat       // three single-precision floats

  /** The tag stored in the file for each layout. */
  function FormatTag(f: Format): (t: u32)
  {
    match f
    case Two8BitNormalized => 0x004
    case Two16BitNormalized => 0x007
    case Four8BitSigned => 0x20A
    case Three10BitSigned => 0x20B
    case Two32BitFloat => 0x80D
    case Four16BitFloat => 0x80F
    case Three32BitFloat => 0x811
  }

  /** The layout a tag names; the tag is stored as it is read, so other values are kept but name no layout. */
  function FormatOfTag(t: u32): (f: Option<Format>)
    ensures f.Some? ==> FormatTag(f.value) == t
    ensures f.None? <==> t !in {0x004, 0x007, 0x20A, 0x20B, 0x80D, 0x80F, 0x811}
  {
    if t == 0x004 then Some(Two8BitNormalized)
    else if t == 0x007 then Some(Two16BitNormalized)
    else if t == 0x20A then Some(Four8BitSigned)
    else if t == 0x20B then Some(Three10BitSigned)
    else if t == 0x80D then Some(Two32BitFloat)
    else if t == 0x80F then Some(Four16BitFloat)
    else if t == 0x811 then Some(Three32BitFloat)
    else None
  }

  /** The seven tags are distinct: each one names back the layout it was written for. */
  lemma FormatTagRoundTrip(f: Format)
    ensures FormatOfTag(FormatTag(f)) == Some(f)
  {
  }

  /** The attribute as stored: the name offset, the word packing buffer index and element offset, the format tag. */
  datatype Attribute = Attribute(nameOffset: NameOffset, indexAndOffset: u32, format: u32)
  {
    /**
     * The buffer index as the loader stores it, `(byte)(v & 0xFF000000)`:
     * 0 whatever the word, where the index the word holds is `IndexOfWord`.
     */
    function BufferIndex(): (b: byte)
      ensures b == 0
    {
      BufferIndexAsWrittenIsZero(indexAndOffset);
      BufferIndexAsWritten(indexAndOffset)
    }

    /** The offset of the attribute inside each element. */
    function ElementOffset(): nat
    {
      OffsetOfWord(indexAndOffset)
    }
  }

  const AttributeSize: nat := 12

  /** The buffer index as written, `(byte)(v & 0xFF000000)`: the low byte of a value whose low 24 bits are clear. */
  function BufferIndexAsWritten(word: u32): (b: byte)
  {
    ((word / 0x100_0000) * 0x100_0000) % 0x100
  }

  /** The cast keeps only bits the mask has cleared, so the index read is 0 for every word. */
  lemma BufferIndexAsWrittenIsZero(word: u32)
    ensures BufferIndexAsWritten(word) == 0
  {
    var hi := word / 0x100_0000;
    assert hi * 0x100_0000 == (hi * 0x1_0000) * 0x100;
  }

  /** The word 0x01000004 stores buffer 1, yet the index read for it is 0. */
  lemma BufferIndexAsWrittenLosesBuffer()
    ensures BufferIndexAsWritten(0x0100_0004) == 0 && IndexOfWord(0x0100_0004) == 1
  {
  }

  /** The buffer index, the high byte of the word (`v >> 24`). */
  function IndexOfWord(word: u32): (b: byte)
  {
    word / 0x100_0000
  }

  /** The offset inside an element, the low 24 bits of the word (`v & 0x00FFFFFF`). */
  function OffsetOfWord(word: u32): (o: nat)
    ensures o < 0x100_0000
  {
    word % 0x100_0000
  }

  /** The word holding buffer index `index` and element offset `offset`. */
  function JoinWord(index: byte, offset: nat): (word: u32)
    requires offset < 0x100_0000
  {
    index * 0x100_0000 + offset
  }

  /** Splitting a word and joining the parts gives the word back, and joining then splitting gives the parts back. */
  lemma SplitJoin(word: u32, index: byte, offset: nat)
    requires offset < 0x100_0000
    ensures JoinWord(IndexOfWord(word), OffsetOfWord(word)) == word
    ensures IndexOfWord(JoinWord(index, offset)) == index && OffsetOfWord(JoinWord(index, offset)) == offset
  {
  }

  /**
   * `FvtxVertexAttribute.Load`: the name offset, the index and offset word,
   * then the format tag, 12 bytes in all.  The buffer index is the high byte
   * of the word and the element offset its low 24 bits.
   */
  function ReadAttribute(r: Reader): (res: Result<Parsed<Attribute>>)
    ensures res.Ok? ==> r.pos + AttributeSize <= |r.data| && res.value.rest == r.(pos := r.pos + AttributeSize)
    ensures res.Err? ==> res.error == Truncated
  {
    var name :- ReadNameOffset(r);
    var word :- ReadU32(name.rest);
    var format :- ReadU32(word.rest);
    Ok(Parsed(Attribute(name.value, word.value, format.value), format.rest))
  }

  /**
   * The layout of an attribute: the name offset at 0, the index and offset
   * word at 4, the format tag at 8.  Reading fails exactly when the 12 bytes
   * are not there or the name has no terminator.
   */
  lemma AttributeLayout(r: Reader)
    ensures ReadAttribute(r).Ok? <==> r.pos + AttributeSize <= |r.data| && ReadNameOffset(r).Ok?
    ensures ReadAttribute(r).Ok? ==> (var a := ReadAttribute(r).value.value;
      ReadNameOffset(r) == Ok(Parsed(a.nameOffset, r.(pos := r.pos + 4))) &&
      a.indexAndOffset == U32At(r.data, r.pos + 4, r.order) &&
      a.format == U32At(r.data, r.pos + 8, r.order))
  {
    var p := r.pos;
    var name := ReadNameOffset(r);
    if name.Err? {
      assert ReadAttribute(r) == Err(name.error);
    } else if p + AttributeSize <= |r.data| {
      assert name.value.rest == r.(pos := p + 4);
      assert ReadU32(r.(pos := p + 4)) == Ok(Parsed(U32At(r.data, p + 4, r.order), r.(pos := p + 8)));
      assert ReadU32(r.(pos := p + 8)) == Ok(Parsed(U32At(r.data, p + 8, r.order), r.(pos := p + 12)));
      assert ReadAttribute(r) == Ok(Parsed(Attribute(name.value.value, U32At(r.data, p + 4, r.order), U32At(r.data, p + 8, r.order)),
                                           r.(pos := p + 12)));
    }
  }

  lemma AttributeFixedSize()
    ensures FixedSize(ReadAttribute, AttributeSize)
  {
  }
}
