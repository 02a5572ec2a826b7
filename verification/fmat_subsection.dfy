/**
 * A material section as the Blender importer reads it (`FmatSubsection`): a
 * 72-byte header of counts and offsets, then the render parameter index
 * group, the material structure, the shader control structure with its
 * three groups of strings, the texture selectors, the texture attribute
 * selector group, the material parameter group, the raw material parameter
 * data and, when its offset is set, the shadow parameter group.
 *
 * Three of the importer's record readers do not do what their code evidently
 * means to do.  Each is modelled twice, as written and as intended; the
 * section reader is written once over the three readers, and the rest of the
 * model uses the intended ones.
 */
module FmatSubsection {
  import opened Wrappers
  import opened Bytes
  import opened BinaryReader
  import opened BfresOffset
  import opened BfresIndexGroup
  import opened Records
  import FmatMaterialParameter

  datatype Header = Header(nameOffset: NameOffset, unknown0x08: u32, index: u16, renderParamCount: u16,
                           textureSelectorCount: byte, textureAttributeSelectorCount: byte, materialParamCount: u16,
                           materialParamDataSize: u32, unknown0x18: u32, renderParamIndexGroupOffset: Offset,
                           materialStructureOffset: Offset, shaderControlOffset: Offset,
                           textureSelectorArrayOffset: Offset, textureAttributeSelectorArrayOffset: Offset,
                           textureAttributeSelectorIndexGroupOffset: Offset, materialParamArrayOffset: Offset,
                           materialParamIndexGroupOffset: Offset, materialParamDataOffset: Offset,
                           shadowParamIndexGroupOffset: Offset, unknown0x44: Offset)

  const HeaderSize: nat := 0x48

  /** The header fields after the name in place: two words and four counts, then eleven offsets from 28 on. */
  function HeaderAt(r: Reader, name: NameOffset): Header
    requires r.pos + HeaderSize <= |r.data|
  {
    var p := r.pos;
    Header(name, U32At(r.data, p + 8, r.order), U16At(r.data, p + 12, r.order), U16At(r.data, p + 14, r.order),
           r.data[p + 16], r.data[p + 17], U16At(r.data, p + 18, r.order), U32At(r.data, p + 20, r.order),
           U32At(r.data, p + 24, r.order), OffsetAt(r, p + 28), OffsetAt(r, p + 32), OffsetAt(r, p + 36),
           OffsetAt(r, p + 40), OffsetAt(r, p + 44), OffsetAt(r, p + 48), OffsetAt(r, p + 52), OffsetAt(r, p + 56),
           OffsetAt(r, p + 60), OffsetAt(r, p + 64), OffsetAt(r, p + 68))
  }

  /** `FmatSubsection.Header`: the "FMAT" tag, the name offset, then the fields, taken in place. */
  function ReadHeader(r: Reader): (res: Result<Parsed<Header>>)
    ensures res.Ok? <==> (TagAt(r.data, r.pos, FmatTag) && r.pos + HeaderSize <= |r.data| &&
      ReadNameOffset(r.(pos := r.pos + 4)).Ok?)
    ensures res.Ok? ==> res.value.rest == r.(pos := r.pos + HeaderSize)
    ensures res.Ok? ==> res.value.value.nameOffset == ReadNameOffset(r.(pos := r.pos + 4)).value.value
    ensures !TagAt(r.data, r.pos, FmatTag) ==> res.Err? && res.error in {BadMagic, InvalidType}
    ensures TagAt(r.data, r.pos, FmatTag) && res.Err? ==> res.error == Truncated
  {
    var afterTag :- ReadTag(r, FmatTag);
    if r.pos + HeaderSize > |r.data| then Err(Truncated)
    else
      var name :- ReadNameOffset(afterTag);
      Ok(Parsed(HeaderAt(r, name.value), r.(pos := r.pos + HeaderSize)))
  }

  // ---- Render parameters ----

  /** The value of a render parameter, by its type byte: 8 raw bytes, two floats, or a string. */
  datatype RenderValue =
    | NoValue
    | RawBytes(bytes: seq<byte>)
    | TwoFloats(words: seq<u32>)
    | StringValue(name: NameOffset)

  datatype RenderParameter = RenderParameter(unknown0x00: u16, paramType: byte, unknown0x03: byte,
                                             nameOffset: NameOffset, value: RenderValue)

  const RenderParameterSize: nat := 8

  /**
   * `RenderParameter` as written: the 8-byte record, then a dispatch that
   * compares Python's built-in `type` rather than the type byte just read,
   * so that no branch is ever taken and no value is read.
   */
  function ReadRenderParameterAsWritten(r: Reader): (res: Result<RenderParameter>)
    ensures res.Ok? <==> r.pos + RenderParameterSize <= |r.data| && ReadNameOffset(r.(pos := r.pos + 4)).Ok?
    ensures res.Ok? ==> res.value.value == NoValue
    ensures res.Err? ==> res.error == Truncated
  {
    if r.pos + RenderParameterSize > |r.data| then Err(Truncated)
    else
      var name :- ReadNameOffset(r.(pos := r.pos + 4));
      Ok(RenderParameter(U16At(r.data, r.pos, r.order), r.data[r.pos + 2], r.data[r.pos + 3], name.value, NoValue))
  }

  /**
   * The value a render parameter's type byte names, read right behind its
   * record: 0 is eight raw bytes, read leniently; 1 is two floats; 2 is a
   * name offset; any other type has no value.
   */
  function ReadRenderValue(at: Reader, t: byte): (res: Result<RenderValue>)
    ensures t == 0 ==> res == Ok(RawBytes(ReadBytes(at, 8).value))
    ensures t == 1 ==> ((res.Ok? <==> at.pos + 8 <= |at.data|) &&
      (res.Ok? ==> res.value == TwoFloats(U32sAt(at.data, at.pos, 2, at.order))))
    ensures t == 2 ==> ((res.Ok? <==> ReadNameOffset(at).Ok?) &&
      (res.Ok? ==> res.value == StringValue(ReadNameOffset(at).value.value)))
    ensures t > 2 ==> res == Ok(NoValue)
    ensures res.Err? ==> res.error == Truncated
  {
    if t == 0 then Ok(RawBytes(ReadBytes(at, 8).value))
    else if t == 1 then (var w :- ReadWords(at, 2); Ok(TwoFloats(w.value)))
    else if t == 2 then (var n :- ReadNameOffset(at); Ok(StringValue(n.value)))
    else Ok(NoValue)
  }

  /**
   * `RenderParameter` as intended: the same record, then the value its type
   * byte names.
   */
  function ReadRenderParameter(r: Reader): (res: Result<RenderParameter>)
    ensures res.Ok? <==> (ReadRenderParameterAsWritten(r).Ok? &&
      ReadRenderValue(r.(pos := r.pos + RenderParameterSize), r.data[r.pos + 2]).Ok?)
    ensures res.Ok? ==> res.value == ReadRenderParameterAsWritten(r).value.(value :=
      ReadRenderValue(r.(pos := r.pos + RenderParameterSize), r.data[r.pos + 2]).value)
    ensures res.Err? ==> res.error == Truncated
  {
    var record :- ReadRenderParameterAsWritten(r);
    var value :- ReadRenderValue(r.(pos := r.pos + RenderParameterSize), record.paramType);
    Ok(record.(value := value))
  }

  /**
   * A render parameter of type 2 whose value names the string "A": read as
   * written it has no value, read as intended its value is that string.
   */
  lemma RenderValueLost()
    ensures var r := Reader([0, 0, 2, 0, 0, 0, 0, 0, 0, 0, 0, 4, 0x41, 0], 0, BigEndian);
      ReadRenderParameterAsWritten(r).Ok? && ReadRenderParameterAsWritten(r).value.value == NoValue &&
      ReadRenderParameter(r).Ok? && ReadRenderParameter(r).value.value.StringValue? &&
      ReadRenderParameter(r).value.value.name.name == [0x41]
  {
    var r := Reader([0, 0, 2, 0, 0, 0, 0, 0, 0, 0, 0, 4, 0x41, 0], 0, BigEndian);
    assert U32At(r.data, 4, BigEndian) == 0;
    assert U32At(r.data, 8, BigEndian) == 4;
    assert ZeroTerminatedAt(r.data, 4) == Ok([]) by {
      ZeroTerminatedFound(r.data, 4, []);
    }
    assert ZeroTerminatedAt(r.data, 12) == Ok([0x41]) by {
      ZeroTerminatedFound(r.data, 12, [0x41]);
    }
  }

  // ---- Material structure ----

  datatype MaterialStructure = MaterialStructure(unknown0x00: u32, unknown0x04: u16, unknown0x06: u16, unknown0x08: u32,
                                                 unknown0x0C: u32, unknown0x10: u32, unknown0x14: u16, unknown0x16: u16,
                                                 unknown0x18: u32, unknown0x1C: u16, unknown0x1E: byte,
                                                 unknown0x1F: byte, unknown0x20: seq<u32>)

  const MaterialStructureSize: nat := 48

  /**
   * `MaterialStructure` as written: the fields up to 0x1F, then a call to
   * `read_uint32s`, which the importer's reader does not define.  The load
   * fails on a short file at one of the first reads, and otherwise at that
   * call.
   */
  function ReadMaterialStructureAsWritten(r: Reader): (res: Result<MaterialStructure>)
    ensures res.Err?
    ensures res.error == (if r.pos + 32 <= |r.data| then MissingMethod else Truncated)
  {
    if r.pos + 32 > |r.data| then Err(Truncated) else Err(MissingMethod)
  }

  /** `MaterialStructure` as intended: the fields up to 0x1F, then four 32-bit words, 48 bytes in all. */
  function ReadMaterialStructure(r: Reader): (res: Result<MaterialStructure>)
    ensures res.Ok? <==> r.pos + MaterialStructureSize <= |r.data|
    ensures res.Ok? ==> res.value.unknown0x20 == U32sAt(r.data, r.pos + 32, 4, r.order)
    ensures ReadMaterialStructureAsWritten(r).error == MissingMethod <==> r.pos + 32 <= |r.data|
    ensures res.Err? ==> res.error == Truncated
  {
    if r.pos + MaterialStructureSize > |r.data| then Err(Truncated)
    else
      Ok(MaterialStructure(U32At(r.data, r.pos, r.order), U16At(r.data, r.pos + 4, r.order), U16At(r.data, r.pos + 6, r.order),
                           U32At(r.data, r.pos + 8, r.order), U32At(r.data, r.pos + 12, r.order), U32At(r.data, r.pos + 16, r.order),
                           U16At(r.data, r.pos + 20, r.order), U16At(r.data, r.pos + 22, r.order), U32At(r.data, r.pos + 24, r.order),
                           U16At(r.data, r.pos + 28, r.order), r.data[r.pos + 30], r.data[r.pos + 31],
                           U32sAt(r.data, r.pos + 32, 4, r.order)))
  }

  // ---- Shader control ----

  /** A string of a shader control group, the cursor after it being of no use. */
  function StringEntry(r: Reader): Result<seq<byte>>
  {
    ValueOf(Read0String(r))
  }

  datatype ShaderControl = ShaderControl(shader1NameOffset: NameOffset, shader2NameOffset: NameOffset,
                                         unknown0x08: u32, vertexShaderInputCount: byte,
                                         pixelShaderInputCount: byte, paramCount: u16,
                                         vertexShaderInputIndexGroupOffset: Offset,
                                         pixelShaderInputIndexGroupOffset: Offset, paramIndexGroupOffset: Offset,
                                         vertexShaderInputs: Collection<seq<byte>>,
                                         pixelShaderInputs: Collection<seq<byte>>, params: Collection<seq<byte>>)

  const ShaderControlSize: nat := 28

  /** The group of zero-terminated strings at an offset of the shader control structure. */
  function LoadStrings(r: Reader, o: Offset): Result<Collection<seq<byte>>>
  {
    LoadCollection(r.(pos := o.toFile), StringEntry)
  }

  /** Each string of a loaded group is the zero-terminated string its node points to. */
  lemma StringsLoaded(r: Reader, o: Offset)
    requires LoadStrings(r, o).Ok?
    ensures var c := LoadStrings(r, o).value;
      ReadIndexGroup(r.(pos := o.toFile)) == Ok(c.group) &&
      |c.entries| == (if |c.group.nodes| == 0 then 0 else |c.group.nodes| - 1) &&
      forall i :: 0 <= i < |c.entries| ==> ZeroTerminatedAt(r.data, c.group.nodes[i + 1].dataPointer.toFile) == Ok(c.entries[i])
  {
    var strings := LoadStrings(r, o).value;
    forall i | 0 <= i < |strings.entries|
      ensures ZeroTerminatedAt(r.data, strings.group.nodes[i + 1].dataPointer.toFile) == Ok(strings.entries[i])
    {
      assert DecodeAt(r.data, r.order, strings.group.nodes[i + 1], StringEntry) == Ok(strings.entries[i]);
    }
  }

  /**
   * `ShaderControl`: two name offsets, a word, two counts, a 16-bit count and
   * three offsets, then the three groups of zero-terminated strings at those
   * offsets, in order.
   */
  function ReadShaderControl(r: Reader): (res: Result<ShaderControl>)
    ensures res.Ok? <==> (r.pos + ShaderControlSize <= |r.data| && ReadNameOffset(r).Ok? &&
      ReadNameOffset(r.(pos := r.pos + 4)).Ok? &&
      ShaderControlAt(r, ReadNameOffset(r).value.value, ReadNameOffset(r.(pos := r.pos + 4)).value.value).Ok?)
    ensures res.Ok? ==>
      res == ShaderControlAt(r, ReadNameOffset(r).value.value, ReadNameOffset(r.(pos := r.pos + 4)).value.value)
  {
    if r.pos + ShaderControlSize > |r.data| then Err(Truncated)
    else
      var shader1 :- ReadNameOffset(r);
      var shader2 :- ReadNameOffset(r.(pos := r.pos + 4));
      ShaderControlAt(r, shader1.value, shader2.value)
  }

  /** The shader control structure at the reader's position once its two names are read. */
  function ShaderControlAt(r: Reader, shader1: NameOffset, shader2: NameOffset): (res: Result<ShaderControl>)
    requires r.pos + ShaderControlSize <= |r.data|
    ensures res.Ok? <==> (LoadStrings(r, OffsetAt(r, r.pos + 16)).Ok? && LoadStrings(r, OffsetAt(r, r.pos + 20)).Ok? &&
      LoadStrings(r, OffsetAt(r, r.pos + 24)).Ok?)
    ensures res.Ok? ==> res.value.shader1NameOffset == shader1 && res.value.shader2NameOffset == shader2
    ensures res.Ok? ==> (res.value.vertexShaderInputIndexGroupOffset == OffsetAt(r, r.pos + 16) &&
      res.value.pixelShaderInputIndexGroupOffset == OffsetAt(r, r.pos + 20) &&
      res.value.paramIndexGroupOffset == OffsetAt(r, r.pos + 24))
    ensures res.Ok? ==> (LoadStrings(r, res.value.vertexShaderInputIndexGroupOffset) == Ok(res.value.vertexShaderInputs) &&
      LoadStrings(r, res.value.pixelShaderInputIndexGroupOffset) == Ok(res.value.pixelShaderInputs) &&
      LoadStrings(r, res.value.paramIndexGroupOffset) == Ok(res.value.params))
  {
    var vertexOffset := OffsetAt(r, r.pos + 16);
    var pixelOffset := OffsetAt(r, r.pos + 20);
    var paramOffset := OffsetAt(r, r.pos + 24);
    var strings :- LoadStringGroups(r, vertexOffset, pixelOffset, paramOffset);
    Ok(ShaderControl(shader1, shader2, U32At(r.data, r.pos + 8, r.order), r.data[r.pos + 12], r.data[r.pos + 13],
                     U16At(r.data, r.pos + 14, r.order), vertexOffset, pixelOffset, paramOffset,
                     strings.0, strings.1, strings.2))
  }

  /** The three string groups of a shader control structure, loaded in order; the first failure is the result. */
  function LoadStringGroups(r: Reader, vertex: Offset, pixel: Offset, param: Offset):
    (res: Result<(Collection<seq<byte>>, Collection<seq<byte>>, Collection<seq<byte>>)>)
    ensures res.Ok? <==> LoadStrings(r, vertex).Ok? && LoadStrings(r, pixel).Ok? && LoadStrings(r, param).Ok?
    ensures res.Ok? ==>
      LoadStrings(r, vertex) == Ok(res.value.0) && LoadStrings(r, pixel) == Ok(res.value.1) &&
      LoadStrings(r, param) == Ok(res.value.2)
  {
    var vertexInputs :- LoadStrings(r, vertex);
    var pixelInputs :- LoadStrings(r, pixel);
    var params :- LoadStrings(r, param);
    Ok((vertexInputs, pixelInputs, params))
  }

  // ---- Texture selectors ----

  datatype TextureSelector = TextureSelector(nameOffset: NameOffset, ftexOffset: Offset)

  const TextureSelectorSize: nat := 8

  /** `TextureSelector`: the name offset, the same name as the texture's, and the texture's offset. */
  function ReadTextureSelector(r: Reader): (res: Result<Parsed<TextureSelector>>)
    ensures res.Ok? <==> r.pos + TextureSelectorSize <= |r.data| && ReadNameOffset(r).Ok?
    ensures res.Ok? ==> res.value.rest == r.(pos := r.pos + TextureSelectorSize)
    ensures res.Err? ==> res.error == Truncated
  {
    if r.pos + TextureSelectorSize > |r.data| then Err(Truncated)
    else
      var name :- ReadNameOffset(r);
      Ok(Parsed(TextureSelector(name.value, OffsetAt(r, r.pos + 4)), r.(pos := r.pos + TextureSelectorSize)))
  }

  /** The texture selectors are 8 bytes apart: selector `i` is the one 8 * i bytes after the array offset. */
  lemma TextureSelectorsAt(at: Reader, count: nat)
    requires ReadArray(at, count, ReadTextureSelector).Ok?
    ensures forall i :: 0 <= i < count ==>
      ReadTextureSelector(RecordAt(at, TextureSelectorSize, i)) ==
        Ok(Parsed(ReadArray(at, count, ReadTextureSelector).value.value[i], RecordAt(at, TextureSelectorSize, i + 1)))
  {
    FixedSizeArray(at, count, ReadTextureSelector, TextureSelectorSize);
  }

  /** A signed byte, as `read_sbyte` would give it. */
  function ToInt8(b: byte): (v: int)
    ensures -0x80 <= v < 0x80
    ensures v < 0 <==> b >= 0x80
    ensures v % 0x100 == b
  {
    if b < 0x80 then b else b - 0x100
  }

  datatype TextureAttributeSelector = TextureAttributeSelector(unknown0x00: byte, unknown0x01: byte, unknown0x02: byte,
                                                               unknown0x03: byte, unknown0x04: int, unknown0x05: byte,
                                                               unknown0x06: u16, unknown0x08: u32, unknown0x0C: u32,
                                                               attributeNameOffset: NameOffset, index: byte,
                                                               unknown: nat)

  const TextureAttributeSelectorSize: nat := 24

  /**
   * `TextureAttributeSelector` as written: four bytes, then a call to
   * `read_sbyte`, which the importer's reader does not define.
   */
  function ReadTextureAttributeSelectorAsWritten(r: Reader): (res: Result<TextureAttributeSelector>)
    ensures res.Err?
    ensures res.error == (if r.pos + 4 <= |r.data| then MissingMethod else Truncated)
  {
    if r.pos + 4 > |r.data| then Err(Truncated) else Err(MissingMethod)
  }

  /**
   * `TextureAttributeSelector` as intended: four bytes, a signed byte, a
   * byte, a 16-bit field, two words, the attribute name offset, then a word
   * whose high byte is the selector index (`v >> 24`) and whose low 24 bits
   * are unknown (`v & 0xFFFFFF`).
   */
  function ReadTextureAttributeSelector(r: Reader): (res: Result<TextureAttributeSelector>)
    ensures res.Ok? <==> r.pos + TextureAttributeSelectorSize <= |r.data| && ReadNameOffset(r.(pos := r.pos + 16)).Ok?
    ensures res.Ok? ==> (var word := U32At(r.data, r.pos + 20, r.order);
      res.value.index * 0x100_0000 + res.value.unknown == word && res.value.unknown < 0x100_0000 &&
      res.value.unknown0x04 % 0x100 == r.data[r.pos + 4])
    ensures res.Err? ==> res.error == Truncated
  {
    if r.pos + TextureAttributeSelectorSize > |r.data| then Err(Truncated)
    else
      var name :- ReadNameOffset(r.(pos := r.pos + 16));
      var word := U32At(r.data, r.pos + 20, r.order);
      Ok(TextureAttributeSelector(r.data[r.pos], r.data[r.pos + 1], r.data[r.pos + 2], r.data[r.pos + 3], ToInt8(r.data[r.pos + 4]),
                                  r.data[r.pos + 5], U16At(r.data, r.pos + 6, r.order), U32At(r.data, r.pos + 8, r.order),
                                  U32At(r.data, r.pos + 12, r.order), name.value, word / 0x100_0000, word % 0x100_0000))
  }

  // ---- Material and shadow parameters ----

  /** A material parameter record as the importer keeps it: the value itself is not read. */
  datatype MaterialParameter = MaterialParameter(paramType: byte, size: byte, valueOffset: u16, unknown0x04: u32,
                                                 unknown0x08: u32, index: u16, indexAgain: u16,
                                                 nameOffset: NameOffset)

  const MaterialParameterSize: nat := 20

  /** The record's fields in place, with the name read behind its offset. */
  function MaterialParameterAt(r: Reader, name: NameOffset): MaterialParameter
    requires r.pos + MaterialParameterSize <= |r.data|
  {
    var p := r.pos;
    MaterialParameter(r.data[p], r.data[p + 1], U16At(r.data, p + 2, r.order), U32At(r.data, p + 4, r.order),
                      U32At(r.data, p + 8, r.order), U16At(r.data, p + 12, r.order), U16At(r.data, p + 14, r.order), name)
  }

  /** `MaterialParameter`: the 20-byte record, with no check of the type byte. */
  function ReadMaterialParameter(r: Reader): (res: Result<MaterialParameter>)
    ensures res.Ok? <==> r.pos + MaterialParameterSize <= |r.data| && ReadNameOffset(r.(pos := r.pos + 16)).Ok?
    ensures res.Ok? ==> res.value == MaterialParameterAt(r, ReadNameOffset(r.(pos := r.pos + 16)).value.value)
    ensures res.Err? ==> res.error == Truncated
  {
    if r.pos + MaterialParameterSize > |r.data| then Err(Truncated)
    else
      var name :- ReadNameOffset(r.(pos := r.pos + 16));
      Ok(MaterialParameterAt(r, name.value))
  }

  /**
   * Wherever the C# loader reads a material parameter, the importer reads
   * the same record: the type byte is the tag of the C# type, and the value
   * offset, both indices and the name agree.  The importer also reads records
   * the C# loader rejects, since it checks no type.
   */
  lemma MaterialParameterAgrees(r: Reader, data: Reader)
    requires FmatMaterialParameter.ReadParameter(r, data).Ok?
    ensures ReadMaterialParameter(r).Ok?
    ensures var p := ReadMaterialParameter(r).value; var c := FmatMaterialParameter.ReadParameter(r, data).value.value;
      p.paramType == FmatMaterialParameter.TypeTag(c.paramType) && p.valueOffset == c.offset &&
      p.index == c.index && p.indexAgain == c.indexRepeated && p.nameOffset == c.nameOffset
  {
    FmatMaterialParameter.ParameterLoaded(r, data);
    var c := FmatMaterialParameter.ReadParameter(r, data).value.value;
    var name := ReadNameOffset(r.(pos := r.pos + 16)).value.value;
    MaterialParameterRead(r, name);
    FieldsMatch(r, FmatMaterialParameter.TypeOfTag(r.data[r.pos]).value, name, c.value);
  }

  /** With the 20 bytes there and the name read, the record is the one taken in place. */
  lemma MaterialParameterRead(r: Reader, name: NameOffset)
    requires r.pos + MaterialParameterSize <= |r.data|
    requires ReadNameOffset(r.(pos := r.pos + 16)) == Ok(Parsed(name, r.(pos := r.pos + 20)))
    ensures ReadMaterialParameter(r) == Ok(MaterialParameterAt(r, name))
  {
  }

  /** The two records taken in place from the same bytes agree field by field. */
  lemma FieldsMatch(r: Reader, t: FmatMaterialParameter.ParameterType, name: NameOffset,
                    v: FmatMaterialParameter.Value)
    requires r.pos + MaterialParameterSize <= |r.data| && FmatMaterialParameter.TypeTag(t) == r.data[r.pos]
    ensures var p := MaterialParameterAt(r, name); var c := FmatMaterialParameter.ParameterAt(r, t, name, v);
      p.paramType == FmatMaterialParameter.TypeTag(c.paramType) && p.valueOffset == c.offset &&
      p.index == c.index && p.indexAgain == c.indexRepeated && p.nameOffset == c.nameOffset
  {
  }

  datatype ShadowParameter = ShadowParameter(nameOffset: NameOffset, unknown0x04: u16, unknown0x06: byte,
                                             unknown0x07: byte, value: u32)

  const ShadowParameterSize: nat := 12

  /** `ShadowParameter`: the name offset, a 16-bit field, two bytes and the value word. */
  function ReadShadowParameter(r: Reader): (res: Result<ShadowParameter>)
    ensures res.Ok? <==> r.pos + ShadowParameterSize <= |r.data| && ReadNameOffset(r).Ok?
    ensures res.Ok? ==> res.value.value == U32At(r.data, r.pos + 8, r.order)
    ensures res.Err? ==> res.error == Truncated
  {
    if r.pos + ShadowParameterSize > |r.data| then Err(Truncated)
    else
      var name :- ReadNameOffset(r);
      Ok(ShadowParameter(name.value, U16At(r.data, r.pos + 4, r.order), r.data[r.pos + 6], r.data[r.pos + 7],
                         U32At(r.data, r.pos + 8, r.order)))
  }

  // ---- The section ----

  /** The parts of the section that say how it is shaded: render parameters, material structure, shader control. */
  datatype Shading = Shading(renderParams: Collection<RenderParameter>, materialStructure: MaterialStructure,
                             shaderControl: ShaderControl)

  /** The parts that bind textures and values: the selectors, the parameters and their data, the shadow parameters. */
  datatype Bindings = Bindings(textureSelectors: seq<TextureSelector>,
                               textureAttributeSelectors: Collection<TextureAttributeSelector>,
                               materialParams: Collection<MaterialParameter>, materialParamData: seq<byte>,
                               shadowParams: Option<Collection<ShadowParameter>>)

  datatype Subsection = Subsection(header: Header, shading: Shading, bindings: Bindings)

  /** The shadow parameter group, loaded only when its offset is set. */
  function LoadShadowParams(r: Reader, o: Offset): (res: Result<Option<Collection<ShadowParameter>>>)
    ensures res.Ok? ==> (res.value.Some? <==> !IsEmpty(o))
    ensures IsEmpty(o) ==> res == Ok(None)
    ensures res.Ok? && res.value.Some? ==> LoadCollection(r.(pos := o.toFile), ReadShadowParameter) == Ok(res.value.value)
  {
    if IsEmpty(o) then Ok(None)
    else
      var g :- LoadCollection(r.(pos := o.toFile), ReadShadowParameter);
      Ok(Some(g))
  }

  /** The render parameter group, the material structure and the shader control structure, each at its offset. */
  function ReadShading(r: Reader, h: Header, renderParameter: Reader -> Result<RenderParameter>,
                       materialStructure: Reader -> Result<MaterialStructure>): (res: Result<Shading>)
    ensures res.Ok? ==>
      LoadCollection(r.(pos := h.renderParamIndexGroupOffset.toFile), renderParameter) == Ok(res.value.renderParams) &&
      materialStructure(r.(pos := h.materialStructureOffset.toFile)) == Ok(res.value.materialStructure) &&
      ReadShaderControl(r.(pos := h.shaderControlOffset.toFile)) == Ok(res.value.shaderControl)
    ensures (LoadCollection(r.(pos := h.renderParamIndexGroupOffset.toFile), renderParameter).Ok? &&
      materialStructure(r.(pos := h.materialStructureOffset.toFile)).Err?) ==>
      res == Err(materialStructure(r.(pos := h.materialStructureOffset.toFile)).error)
  {
    var renderParams :- LoadCollection(r.(pos := h.renderParamIndexGroupOffset.toFile), renderParameter);
    var structure :- materialStructure(r.(pos := h.materialStructureOffset.toFile));
    var shaderControl :- ReadShaderControl(r.(pos := h.shaderControlOffset.toFile));
    Ok(Shading(renderParams, structure, shaderControl))
  }

  /**
   * The texture selectors, `texture_selector_count` records read one after
   * another from their array; the texture attribute selector group; the
   * material parameter group; `material_param_data_size` raw bytes of
   * parameter data; and the shadow parameter group when its offset is set.
   */
  function ReadBindings(r: Reader, h: Header, attributeSelector: Reader -> Result<TextureAttributeSelector>)
    : (res: Result<Bindings>)
    ensures res.Ok? ==> (var b := res.value;
      |b.textureSelectors| == h.textureSelectorCount &&
      ReadArray(r.(pos := h.textureSelectorArrayOffset.toFile), h.textureSelectorCount, ReadTextureSelector).Ok? &&
      ReadArray(r.(pos := h.textureSelectorArrayOffset.toFile), h.textureSelectorCount,
                ReadTextureSelector).value.value == b.textureSelectors)
    ensures res.Ok? ==>
      LoadCollection(r.(pos := h.textureAttributeSelectorIndexGroupOffset.toFile), attributeSelector) ==
        Ok(res.value.textureAttributeSelectors) &&
      LoadCollection(r.(pos := h.materialParamIndexGroupOffset.toFile), ReadMaterialParameter) ==
        Ok(res.value.materialParams)
    ensures res.Ok? ==>
      res.value.materialParamData == ReadBytes(r.(pos := h.materialParamDataOffset.toFile), h.materialParamDataSize).value
    ensures res.Ok? ==> LoadShadowParams(r, h.shadowParamIndexGroupOffset) == Ok(res.value.shadowParams)
  {
    var selectors :- ReadArray(r.(pos := h.textureSelectorArrayOffset.toFile), h.textureSelectorCount,
                               ReadTextureSelector);
    var attributeSelectors :- LoadCollection(r.(pos := h.textureAttributeSelectorIndexGroupOffset.toFile),
                                             attributeSelector);
    var materialParams :- LoadCollection(r.(pos := h.materialParamIndexGroupOffset.toFile), ReadMaterialParameter);
    var data := ReadBytes(r.(pos := h.materialParamDataOffset.toFile), h.materialParamDataSize);
    var shadowParams :- LoadShadowParams(r, h.shadowParamIndexGroupOffset);
    Ok(Bindings(selectors.value, attributeSelectors, materialParams, data.value, shadowParams))
  }

  /**
   * `FmatSubsection.__init__` over the three record readers that differ
   * between the code as written and as intended: the header, then each part
   * at its offset in the order the importer loads them.
   */
  function ReadSubsectionWith(r: Reader, renderParameter: Reader -> Result<RenderParameter>,
                              materialStructure: Reader -> Result<MaterialStructure>,
                              attributeSelector: Reader -> Result<TextureAttributeSelector>): (res: Result<Subsection>)
    ensures res.Ok? ==> ReadHeader(r).Ok? && res.value.header == ReadHeader(r).value.value
    ensures res.Ok? ==> ReadShading(r, res.value.header, renderParameter, materialStructure) == Ok(res.value.shading)
    ensures res.Ok? ==> ReadBindings(r, res.value.header, attributeSelector) == Ok(res.value.bindings)
    ensures ReadHeader(r).Ok? && ReadShading(r, ReadHeader(r).value.value, renderParameter, materialStructure).Err? ==>
      res == Err(ReadShading(r, ReadHeader(r).value.value, renderParameter, materialStructure).error)
    ensures !TagAt(r.data, r.pos, FmatTag) ==> res.Err? && res.error in {BadMagic, InvalidType}
  {
    var h :- ReadHeader(r);
    SubsectionAt(r, h.value, renderParameter, materialStructure, attributeSelector)
  }

  /** The parts of the section once its header is read: shading first, then the bindings. */
  function SubsectionAt(r: Reader, h: Header, renderParameter: Reader -> Result<RenderParameter>,
                        materialStructure: Reader -> Result<MaterialStructure>,
                        attributeSelector: Reader -> Result<TextureAttributeSelector>): (res: Result<Subsection>)
    ensures res.Ok? ==> res.value.header == h
    ensures res.Ok? ==> ReadShading(r, h, renderParameter, materialStructure) == Ok(res.value.shading)
    ensures res.Ok? ==> ReadBindings(r, h, attributeSelector) == Ok(res.value.bindings)
    ensures ReadShading(r, h, renderParameter, materialStructure).Err? ==>
      res == Err(ReadShading(r, h, renderParameter, materialStructure).error)
  {
    var shading :- ReadShading(r, h, renderParameter, materialStructure);
    var bindings :- ReadBindings(r, h, attributeSelector);
    Ok(Subsection(h, shading, bindings))
  }

  /** The section as the importer's code is written. */
  function ReadSubsectionAsWritten(r: Reader): (res: Result<Subsection>)
    ensures res.Err?
  {
    ReadSubsectionWith(r, ReadRenderParameterAsWritten, ReadMaterialStructureAsWritten,
                       ReadTextureAttributeSelectorAsWritten)
  }

  /**
   * As written, no material section ever loads: whenever the header and the
   * render parameters load, the material structure fails, on a short file
   * as truncated and otherwise at the missing `read_uint32s`.
   */
  lemma NoMaterialLoads(r: Reader)
    ensures ReadSubsectionAsWritten(r).Err?
    ensures (ReadHeader(r).Ok? && ReadHeader(r).value.value.materialStructureOffset.toFile + 32 <= |r.data| &&
             LoadCollection(r.(pos := ReadHeader(r).value.value.renderParamIndexGroupOffset.toFile),
                            ReadRenderParameterAsWritten).Ok?) ==> ReadSubsectionAsWritten(r) == Err(MissingMethod)
  {
  }

  /** The section as its code evidently means it, the one the model section loads. */
  function ReadSubsection(r: Reader): (res: Result<Subsection>)
    ensures res.Ok? ==> ReadHeader(r).Ok? && res.value.header == ReadHeader(r).value.value
    ensures res.Ok? ==>
      ReadShading(r, res.value.header, ReadRenderParameter, ReadMaterialStructure) == Ok(res.value.shading)
    ensures res.Ok? ==> ReadBindings(r, res.value.header, ReadTextureAttributeSelector) == Ok(res.value.bindings)
    ensures res.Ok? ==>
      ReadMaterialStructure(r.(pos := res.value.header.materialStructureOffset.toFile)) ==
        Ok(res.value.shading.materialStructure)
  {
    ReadSubsectionWith(r, ReadRenderParameter, ReadMaterialStructure, ReadTextureAttributeSelector)
  }
}
