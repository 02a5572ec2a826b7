/**
 * A model section as the Blender importer reads it (`FmdlSection`): a 44-byte
 * header of offsets and counts, then the skeleton at its offset, the vertex
 * sections read one after another from the vertex array, the shape and the
 * material index groups, and, when its offset is set, the user parameter
 * index group.
 */
module FmdlSection {
  import opened Wrappers
  import opened Bytes
  import opened BinaryReader
  import opened BfresOffset
  import opened BfresIndexGroup
  import opened Records
  import FsklSubsection
  import FvtxSubsection
  import FshpSubsection
  import FmatSubsection

  datatype Header = Header(fileNameOffset: NameOffset, dataOffset: Offset, fsklOffset: Offset,
                           fvtxArrayOffset: Offset, fshpIndexGroupOffset: Offset, fmatIndexGroupOffset: Offset,
                           paramIndexGroupOffset: Offset, fvtxCount: u16, fshpCount: u16, fmatCount: u16,
                           paramCount: u16, unknown0x28: u32)

  const HeaderSize: nat := 0x2C

  /** The header fields after the name in place: six offsets from 8 on, four counts from 32 on, a word at 40. */
  function HeaderAt(r: Reader, name: NameOffset): Header
    requires r.pos + HeaderSize <= |r.data|
  {
    var p := r.pos;
    Header(name, OffsetAt(r, p + 8), OffsetAt(r, p + 12), OffsetAt(r, p + 16), OffsetAt(r, p + 20),
           OffsetAt(r, p + 24), OffsetAt(r, p + 28), U16At(r.data, p + 32, r.order), U16At(r.data, p + 34, r.order),
           U16At(r.data, p + 36, r.order), U16At(r.data, p + 38, r.order), U32At(r.data, p + 40, r.order))
  }

  /** `FmdlSection.Header`: the "FMDL" tag, the file name offset, then the fields, taken in place. */
  function ReadHeader(r: Reader): (res: Result<Parsed<Header>>)
    ensures res.Ok? <==> (TagAt(r.data, r.pos, FmdlTag) && r.pos + HeaderSize <= |r.data| &&
      ReadNameOffset(r.(pos := r.pos + 4)).Ok?)
    ensures res.Ok? ==> res.value.rest == r.(pos := r.pos + HeaderSize)
    ensures res.Ok? ==> res.value.value == HeaderAt(r, ReadNameOffset(r.(pos := r.pos + 4)).value.value)
    ensures !TagAt(r.data, r.pos, FmdlTag) ==> res.Err? && res.error in {BadMagic, InvalidType}
    ensures TagAt(r.data, r.pos, FmdlTag) && res.Err? ==> res.error == Truncated
  {
    var afterTag :- ReadTag(r, FmdlTag);
    if r.pos + HeaderSize > |r.data| then Err(Truncated)
    else
      var name :- ReadNameOffset(afterTag);
      Ok(Parsed(HeaderAt(r, name.value), r.(pos := r.pos + HeaderSize)))
  }

  /** A user parameter: a name, two 16-bit fields and one float, kept as its bits. */
  datatype Parameter = Parameter(variableNameOffset: NameOffset, unknown0x04: u16, unknown0x06: u16, unknown0x08: u32)

  const ParameterSize: nat := 12

  /** `FmdlSection.Parameter`: the name offset, the two 16-bit fields and the float. */
  function ReadParameter(r: Reader): (res: Result<Parameter>)
    ensures res.Ok? <==> r.pos + ParameterSize <= |r.data| && ReadNameOffset(r).Ok?
    ensures res.Ok? ==> res.value.variableNameOffset == ReadNameOffset(r).value.value
    ensures res.Ok? ==> (res.value.unknown0x04 == U16At(r.data, r.pos + 4, r.order) &&
      res.value.unknown0x06 == U16At(r.data, r.pos + 6, r.order) && res.value.unknown0x08 == U32At(r.data, r.pos + 8, r.order))
    ensures res.Err? ==> res.error == Truncated
  {
    if r.pos + ParameterSize > |r.data| then Err(Truncated)
    else
      var name :- ReadNameOffset(r);
      Ok(Parameter(name.value, U16At(r.data, r.pos + 4, r.order), U16At(r.data, r.pos + 6, r.order),
                   U32At(r.data, r.pos + 8, r.order)))
  }

  datatype Section = Section(header: Header, fskl: FsklSubsection.Subsection, fvtxArray: seq<FvtxSubsection.Subsection>,
                             fshpIndexGroup: Collection<FshpSubsection.Subsection>,
                             fmatIndexGroup: Collection<FmatSubsection.Subsection>,
                             paramIndexGroup: Option<Collection<Parameter>>)

  /** The user parameter group, loaded only when its offset is set. */
  function LoadParams(r: Reader, o: Offset): (res: Result<Option<Collection<Parameter>>>)
    ensures res.Ok? ==> (res.value.Some? <==> !IsEmpty(o))
    ensures IsEmpty(o) ==> res == Ok(None)
    ensures !IsEmpty(o) ==> (res.Ok? <==> LoadCollection(r.(pos := o.toFile), ReadParameter).Ok?)
    ensures res.Ok? && res.value.Some? ==> LoadCollection(r.(pos := o.toFile), ReadParameter) == Ok(res.value.value)
  {
    if IsEmpty(o) then Ok(None)
    else
      var g :- LoadCollection(r.(pos := o.toFile), ReadParameter);
      Ok(Some(g))
  }

  /** The vertex sections, read one after another from the vertex array offset. */
  function ReadFvtxArray(r: Reader, h: Header): (res: Result<seq<FvtxSubsection.Subsection>>)
    ensures res.Ok? <==> ReadArray(r.(pos := h.fvtxArrayOffset.toFile), h.fvtxCount, FvtxSubsection.ReadSubsection).Ok?
    ensures res.Ok? ==> (|res.value| == h.fvtxCount &&
      res.value == ReadArray(r.(pos := h.fvtxArrayOffset.toFile), h.fvtxCount, FvtxSubsection.ReadSubsection).value.value)
  {
    var a :- ReadArray(r.(pos := h.fvtxArrayOffset.toFile), h.fvtxCount, FvtxSubsection.ReadSubsection);
    Ok(a.value)
  }

  /**
   * The parts of the section once its header is read, in the importer's
   * order: skeleton, vertex sections, shapes, materials, user parameters.
   */
  function SectionAt(r: Reader, h: Header): (res: Result<Section>)
    ensures res.Ok? ==> res.value.header == h
    ensures res.Ok? ==> FsklSubsection.ReadSubsection(r.(pos := h.fsklOffset.toFile)) == Ok(res.value.fskl)
    ensures res.Ok? ==> ReadFvtxArray(r, h) == Ok(res.value.fvtxArray)
    ensures res.Ok? ==>
      LoadCollection(r.(pos := h.fshpIndexGroupOffset.toFile), FshpSubsection.ReadSubsection) == Ok(res.value.fshpIndexGroup)
    ensures res.Ok? ==>
      LoadCollection(r.(pos := h.fmatIndexGroupOffset.toFile), FmatSubsection.ReadSubsection) == Ok(res.value.fmatIndexGroup)
    ensures res.Ok? ==> LoadParams(r, h.paramIndexGroupOffset) == Ok(res.value.paramIndexGroup)
    ensures FsklSubsection.ReadSubsection(r.(pos := h.fsklOffset.toFile)).Err? ==>
      res == Err(FsklSubsection.ReadSubsection(r.(pos := h.fsklOffset.toFile)).error)
  {
    var fskl :- FsklSubsection.ReadSubsection(r.(pos := h.fsklOffset.toFile));
    var fvtx :- ReadFvtxArray(r, h);
    var fshp :- LoadCollection(r.(pos := h.fshpIndexGroupOffset.toFile), FshpSubsection.ReadSubsection);
    var fmat :- LoadCollection(r.(pos := h.fmatIndexGroupOffset.toFile), FmatSubsection.ReadSubsection);
    var params :- LoadParams(r, h.paramIndexGroupOffset);
    Ok(Section(h, fskl, fvtx, fshp, fmat, params))
  }

  /** `FmdlSection.__init__`: the header, then each part at the offset the header gives. */
  function ReadSection(r: Reader): (res: Result<Section>)
    ensures res.Ok? ==> ReadHeader(r).Ok? && res.value.header == ReadHeader(r).value.value
    ensures res.Ok? ==> SectionAt(r, res.value.header) == res
    ensures ReadHeader(r).Err? ==> res == Err(ReadHeader(r).error)
    ensures !TagAt(r.data, r.pos, FmdlTag) ==> res.Err? && res.error in {BadMagic, InvalidType}
  {
    var h :- ReadHeader(r);
    SectionAt(r, h.value)
  }

  /**
   * Each vertex section puts the cursor back behind its 32-byte header, so
   * the vertex sections form an array: section `i` is the one 32 * i bytes
   * after the vertex array offset.
   */
  lemma FvtxArrayAt(r: Reader)
    requires ReadSection(r).Ok?
    ensures var s := ReadSection(r).value; var start := r.(pos := s.header.fvtxArrayOffset.toFile);
      |s.fvtxArray| == s.header.fvtxCount &&
      forall i :: 0 <= i < s.header.fvtxCount ==>
        FvtxSubsection.ReadSubsection(RecordAt(start, FvtxSubsection.HeaderSize, i)) ==
          Ok(Parsed(s.fvtxArray[i], RecordAt(start, FvtxSubsection.HeaderSize, i + 1)))
  {
    var s := ReadSection(r).value;
    FvtxSubsection.SubsectionFixedSize();
    FixedSizeArray(r.(pos := s.header.fvtxArrayOffset.toFile), s.header.fvtxCount, FvtxSubsection.ReadSubsection,
                   FvtxSubsection.HeaderSize);
  }

  /** A section whose user parameter offset is not set has no parameter group, whatever the file holds there. */
  lemma NoParamsWhenUnset(r: Reader)
    requires ReadSection(r).Ok?
    ensures ReadSection(r).value.paramIndexGroup.None? <==> IsEmpty(ReadSection(r).value.header.paramIndexGroupOffset)
  {
    var s := ReadSection(r).value;
    assert LoadParams(r, s.header.paramIndexGroupOffset) == Ok(s.paramIndexGroup);
  }
}
