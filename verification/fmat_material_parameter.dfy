/**
 * An FMAT material parameter: how a value of the material's data block is
 * passed to a uniform variable of the shader.  The 20-byte record holds the
 * value type, its size, its offset inside the data block, two unknown words,
 * the parameter's index twice and a name offset; the value itself is read
 * from the data block at that offset.  Float components are kept as the raw
 * 32-bit words they are stored as.
 */
module FmatMaterialParameter {
  import opened Wrappers
  import opened Bytes
  import opened Warnings
  import opened BinaryReader
  import opened BfresOffset

  /** The value types a parameter can have. */
  datatype ParameterType =
    | Int32       // a signed 32-bit integer
    | Single      // a float
    | Vector2F    // two floats
    | Vector3F    // three floats
    | Vector4F    // four floats
    | Matrix2x3   // a 2x3 texture matrix, six floats

  /** The byte stored in the file for each type. */
  function TypeTag(t: ParameterType): (b: byte)
  {
    match t
    case Int32 => 0x04
    case Single => 0x0C
    case Vector2F => 0x0D
    case Vector3F => 0x0E
    case Vector4F => 0x0F
    case Matrix2x3 => 0x1E
  }

  /** The type a stored byte names, if it names one. */
  function TypeOfTag(b: byte): (t: Option<ParameterType>)
    ensures t.Some? ==> TypeTag(t.value) == b
    ensures t.None? <==> b !in {0x04, 0x0C, 0x0D, 0x0E, 0x0F, 0x1E}
  {
    if b == 0x04 then Some(Int32)
    else if b == 0x0C then Some(Single)
    else if b == 0x0D then Some(Vector2F)
    else if b == 0x0E then Some(Vector3F)
    else if b == 0x0F then Some(Vector4F)
    else if b == 0x1E then Some(Matrix2x3)
    else None
  }

  /** The six tags are distinct: each names back the type it was written for. */
  lemma TypeTagRoundTrip(t: ParameterType)
    ensures TypeOfTag(TypeTag(t)) == Some(t)
  {
  }

  /** The number of 32-bit words a value of each type occupies in the data block. */
  function WordCount(t: ParameterType): (n: nat)
    ensures 1 <= n <= 6
  {
    match t
    case Int32 => 1
    case Single => 1
    case Vector2F => 2
    case Vector3F => 3
    case Vector4F => 4
    case Matrix2x3 => 6
  }

  /** The size in bytes of a value of each type. */
  function ValueSize(t: ParameterType): (n: nat)
  {
    4 * WordCount(t)
  }

  /**
   * A parameter's value.  A 2x3 matrix is held row by row,
   * `[m11, m12, m13, m21, m22, m23]`.
   */
  datatype Value =
    | IntValue(i: int)
    | Floats(words: seq<u32>)
    | Matrix(rows: seq<u32>)

  /**
   * The row-major matrix of six words stored column by column, in the order
   * m11, m21, m12, m22, m13, m23.
   */
  function RowsOfColumns(columns: seq<u32>): (rows: seq<u32>)
    requires |columns| == 6
    ensures |rows| == 6
    ensures forall i, j :: 0 <= i < 2 && 0 <= j < 3 ==> rows[3 * i + j] == columns[2 * j + i]
  {
    [columns[0], columns[2], columns[4], columns[1], columns[3], columns[5]]
  }

  /** The column-major order a row-major matrix is stored in. */
  function ColumnsOfRows(rows: seq<u32>): (columns: seq<u32>)
    requires |rows| == 6
    ensures |columns| == 6
    ensures forall i, j :: 0 <= i < 2 && 0 <= j < 3 ==> columns[2 * j + i] == rows[3 * i + j]
  {
    [rows[0], rows[3], rows[1], rows[4], rows[2], rows[5]]
  }

  /** Reordering one way and then the other gives the same six words back, in both directions. */
  lemma ReorderRoundTrip(m: seq<u32>)
    requires |m| == 6
    ensures ColumnsOfRows(RowsOfColumns(m)) == m
    ensures RowsOfColumns(ColumnsOfRows(m)) == m
  {
  }

  /** The value of type `t` read from the data block at its offset. */
  function ReadValue(data: Reader, t: ParameterType): (res: Result<Value>)
    ensures res.Ok? <==> data.pos + ValueSize(t) <= |data.data|
    ensures res.Ok? ==> (var words := U32sAt(data.data, data.pos, WordCount(t), data.order);
      match t
      case Int32 => res.value == IntValue(ToInt32(words[0]))
      case Matrix2x3 => res.value == Matrix(RowsOfColumns(words))
      case _ => res.value == Floats(words))
    ensures res.Err? ==> res.error == Truncated
  {
    var words :- ReadWords(data, WordCount(t));
    match t
    case Int32 => Ok(IntValue(ToInt32(words.value[0])))
    case Matrix2x3 => Ok(Matrix(RowsOfColumns(words.value)))
    case _ => Ok(Floats(words.value))
  }

  /** A material parameter with the fields of its record and the value read from the data block. */
  datatype Parameter = Parameter(paramType: ParameterType, size: byte, offset: u16, unknown0x04: u32, unknown0x08: u32,
                                 index: u16, indexRepeated: u16, nameOffset: NameOffset, value: Value,
                                 warnings: seq<Warning>)

  const ParameterSize: nat := 20

  /**
   * `FmatMaterialParameter.Load`: the type byte, which must name a type, then
   * the size, the offset, two unknown words, the index twice (a warning when
   * they differ) and the name offset; then the value of that type at the
   * offset inside the data block.
   */
  function ReadParameter(r: Reader, data: Reader): (res: Result<Parsed<Parameter>>)
    ensures res.Ok? ==> r.pos + ParameterSize <= |r.data| && res.value.rest == r.(pos := r.pos + ParameterSize)
    ensures res.Ok? ==> (var p := res.value.value;
      p.warnings == (if p.index == p.indexRepeated then [] else [IndexNotRepeated("FmatMaterial.Index")]))
  {
    var tag :- ReadByte(r);
    if TypeOfTag(tag.value).None? then Err(InvalidType)
    else
      var paramType := TypeOfTag(tag.value).value;
      var size :- ReadByte(tag.rest);
      var offset :- ReadU16(size.rest);
      var unknown0x04 :- ReadU32(offset.rest);
      var unknown0x08 :- ReadU32(unknown0x04.rest);
      var index :- ReadU16(unknown0x08.rest);
      var indexRepeated :- ReadU16(index.rest);
      var warnings := if index.value != indexRepeated.value then [IndexNotRepeated("FmatMaterial.Index")] else [];
      var name :- ReadNameOffset(indexRepeated.rest);
      var value :- ReadValue(data.(pos := offset.value), paramType);
      Ok(Parsed(Parameter(paramType, size.value, offset.value, unknown0x04.value, unknown0x08.value, index.value,
                          indexRepeated.value, name.value, value, warnings), name.rest))
  }

  /** The offset of the value inside the data block, the 16-bit field at 2. */
  function ValueOffsetAt(r: Reader): u16
    requires r.pos + ParameterSize <= |r.data|
  {
    U16At(r.data, r.pos + 2, r.order)
  }

  /** The parameter the reads give when the record is there and names a type, field by field from its position. */
  function ParameterAt(r: Reader, paramType: ParameterType, name: NameOffset, value: Value): (p: Parameter)
    requires r.pos + ParameterSize <= |r.data|
  {
    var q := r.pos;
    var index := U16At(r.data, q + 12, r.order);
    var indexRepeated := U16At(r.data, q + 14, r.order);
    Parameter(paramType, r.data[q + 1], ValueOffsetAt(r), U32At(r.data, q + 4, r.order), U32At(r.data, q + 8, r.order),
              index, indexRepeated, name, value,
              if index != indexRepeated then [IndexNotRepeated("FmatMaterial.Index")] else [])
  }

  /** The reads after the type byte, one by one, land on the fields of `ParameterAt`. */
  lemma ParameterReads(r: Reader, data: Reader)
    requires r.pos + ParameterSize <= |r.data| && TypeOfTag(r.data[r.pos]).Some?
    ensures var t := TypeOfTag(r.data[r.pos]).value;
      var name := ReadNameOffset(r.(pos := r.pos + 16));
      var value := ReadValue(data.(pos := ValueOffsetAt(r)), t);
      ReadParameter(r, data) ==
        if name.Err? then Err(name.error)
        else if value.Err? then Err(value.error)
        else Ok(Parsed(ParameterAt(r, t, name.value.value, value.value), r.(pos := r.pos + ParameterSize)))
  {
    var q := r.pos;
    assert ReadByte(r) == Ok(Parsed(r.data[q], r.(pos := q + 1)));
    assert ReadByte(r.(pos := q + 1)) == Ok(Parsed(r.data[q + 1], r.(pos := q + 2)));
    assert ReadU16(r.(pos := q + 2)) == Ok(Parsed(U16At(r.data, q + 2, r.order), r.(pos := q + 4)));
    assert ReadU32(r.(pos := q + 4)) == Ok(Parsed(U32At(r.data, q + 4, r.order), r.(pos := q + 8)));
    assert ReadU32(r.(pos := q + 8)) == Ok(Parsed(U32At(r.data, q + 8, r.order), r.(pos := q + 12)));
    assert ReadU16(r.(pos := q + 12)) == Ok(Parsed(U16At(r.data, q + 12, r.order), r.(pos := q + 14)));
    assert ReadU16(r.(pos := q + 14)) == Ok(Parsed(U16At(r.data, q + 14, r.order), r.(pos := q + 16)));
  }

  /**
   * When a parameter fails to load: a type byte that names no type fails
   * with `InvalidType` before anything else is read; otherwise the record
   * must be there, its name terminated, and the whole value inside the data
   * block at the stored offset, which is then the value loaded.
   */
  lemma ParameterLayout(r: Reader, data: Reader)
    ensures r.pos < |r.data| && TypeOfTag(r.data[r.pos]).None? ==> ReadParameter(r, data) == Err(InvalidType)
    ensures ReadParameter(r, data).Ok? <==> (r.pos + ParameterSize <= |r.data| && TypeOfTag(r.data[r.pos]).Some? &&
      ReadNameOffset(r.(pos := r.pos + 16)).Ok? &&
      ValueOffsetAt(r) + ValueSize(TypeOfTag(r.data[r.pos]).value) <= |data.data|)
    ensures ReadParameter(r, data).Ok? ==> (var p := ReadParameter(r, data).value.value;
      TypeTag(p.paramType) == r.data[r.pos] && p.offset == ValueOffsetAt(r) &&
      Ok(p.value) == ReadValue(data.(pos := p.offset), p.paramType))
  {
    if r.pos < |r.data| && TypeOfTag(r.data[r.pos]).None? {
      assert ReadByte(r) == Ok(Parsed(r.data[r.pos], r.(pos := r.pos + 1)));
    } else if r.pos + ParameterSize <= |r.data| && TypeOfTag(r.data[r.pos]).Some? {
      ParameterReads(r, data);
    } else if r.pos < |r.data| {
      assert ReadByte(r) == Ok(Parsed(r.data[r.pos], r.(pos := r.pos + 1)));
    }
  }

  /** A parameter that loads is the record in place, with the type its tag names and the name behind its offset. */
  lemma ParameterLoaded(r: Reader, data: Reader)
    requires ReadParameter(r, data).Ok?
    ensures r.pos + ParameterSize <= |r.data| && TypeOfTag(r.data[r.pos]).Some? && ReadNameOffset(r.(pos := r.pos + 16)).Ok?
    ensures var p := ReadParameter(r, data).value.value;
      p == ParameterAt(r, TypeOfTag(r.data[r.pos]).value, ReadNameOffset(r.(pos := r.pos + 16)).value.value, p.value)
  {
    ParameterLayout(r, data);
    ParameterReads(r, data);
  }
}
