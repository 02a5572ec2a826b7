/**
 * The skeleton as the Blender importer reads it (`FsklSubsection`): a
 * 32-byte header of counts and four offsets, then the bone index group, the
 * inverse index array (the inverse indices followed by the extra indices)
 * and the inverse matrices.  Unlike the C# loader, the importer loads every
 * part without looking at whether its offset is set and keeps no warnings.
 */
module FsklSubsection {
  import opened Wrappers
  import opened Bytes
  import opened BinaryReader
  import opened BfresOffset
  import opened BfresIndexGroup
  import opened Records
  import FsklSkeleton

  datatype Header = Header(unknown0x04: u16, unknown0x06: u16, boneCount: u16, invCount: u16, extraIndexCount: u16,
                           unknown0x0E: u16, boneIndexGroupOffset: Offset, boneArrayOffset: Offset,
                           invIndexArrayOffset: Offset, invMatrixArrayOffset: Offset)

  const HeaderSize: nat := 0x20

  /** The header fields in place: six 16-bit fields from 4 on, four offsets from 16 on. */
  function HeaderAt(r: Reader): Header
    requires r.pos + HeaderSize <= |r.data|
  {
    var p := r.pos;
    Header(U16At(r.data, p + 4, r.order), U16At(r.data, p + 6, r.order), U16At(r.data, p + 8, r.order),
           U16At(r.data, p + 10, r.order), U16At(r.data, p + 12, r.order), U16At(r.data, p + 14, r.order),
           OffsetAt(r, p + 16), OffsetAt(r, p + 20), OffsetAt(r, p + 24), OffsetAt(r, p + 28))
  }

  /**
   * `FsklSubsection.Header`: the "FSKL" tag, then the fields.  Every field
   * read fails alike on a short file, so the fields are taken in place once
   * the 32 bytes are known to be there.
   */
  function ReadHeader(r: Reader): (res: Result<Parsed<Header>>)
    ensures res.Ok? <==> TagAt(r.data, r.pos, FsklTag) && r.pos + HeaderSize <= |r.data|
    ensures res.Ok? ==> res.value.rest == r.(pos := r.pos + HeaderSize)
    ensures !TagAt(r.data, r.pos, FsklTag) ==> res.Err? && res.error in {BadMagic, InvalidType}
    ensures TagAt(r.data, r.pos, FsklTag) && res.Err? ==> res.error == Truncated
  {
    var afterTag :- ReadTag(r, FsklTag);
    if r.pos + HeaderSize > |r.data| then Err(Truncated)
    else Ok(Parsed(HeaderAt(r), r.(pos := r.pos + HeaderSize)))
  }

  /** A bone as the importer keeps it: the four 16-bit indices are taken as child indices, the padding as read. */
  datatype Bone = Bone(nameOffset: NameOffset, index: u16, childIndices: seq<u16>, unknown0x0E: u16, flags: u16,
                       unknown0x12: u16, scale: seq<u32>, rotation: seq<u32>, translation: seq<u32>, padding: u32)

  const BoneSize: nat := 64

  /** `FsklSubsection.Bone`: the name, the index, four indices, three 16-bit fields, scale, rotation, translation, padding. */
  function ReadBone(r: Reader): (res: Result<Parsed<Bone>>)
    ensures res.Ok? <==> r.pos + BoneSize <= |r.data| && ReadNameOffset(r).Ok?
    ensures res.Ok? ==> res.value.rest == r.(pos := r.pos + BoneSize)
    ensures res.Err? ==> res.error == Truncated
  {
    if r.pos + BoneSize > |r.data| then Err(Truncated)
    else
      var name :- ReadNameOffset(r);
      Ok(Parsed(Bone(name.value, U16At(r.data, r.pos + 4, r.order), U16sAt(r.data, r.pos + 6, 4, r.order),
                     U16At(r.data, r.pos + 14, r.order), U16At(r.data, r.pos + 16, r.order), U16At(r.data, r.pos + 18, r.order),
                     U32sAt(r.data, r.pos + 20, 3, r.order), U32sAt(r.data, r.pos + 32, 4, r.order),
                     U32sAt(r.data, r.pos + 48, 3, r.order), U32At(r.data, r.pos + 60, r.order)),
                r.(pos := r.pos + BoneSize)))
  }

  /**
   * The importer and the C# loader read the same 64-byte bone: both succeed
   * on the same bytes, and agree on the name, the index, the four indices
   * (children here, parents there), the transform, and whether the padding is
   * zero, which the C# loader reports as a warning.
   */
  lemma BoneAgrees(r: Reader)
    ensures ReadBone(r).Ok? <==> FsklSkeleton.ReadBone(r).Ok?
    ensures ReadBone(r).Ok? ==> (var b := ReadBone(r).value.value; var c := FsklSkeleton.ReadBone(r).value.value;
      b.nameOffset == c.nameOffset && b.index == c.index && b.childIndices == c.parentIndices &&
      b.scale == c.scale && b.rotation == c.rotation && b.translation == c.translation &&
      (b.padding == 0 <==> c.warnings == []))
  {
    FsklSkeleton.BoneLayout(r);
    if ReadBone(r).Ok? {
      FsklSkeleton.BoneReads(r);
    }
  }

  /** A bone of the group, the cursor after it being of no use. */
  function BoneEntry(r: Reader): Result<Bone>
  {
    ValueOf(ReadBone(r))
  }

  datatype Subsection = Subsection(header: Header, boneIndexGroup: Collection<Bone>, invIndices: seq<u16>,
                                   invMatrices: seq<FsklSkeleton.Matrix4x3>)

  /**
   * The parts of `s` stand where its header says: the bone index group at its
   * offset, `inv_count + extra_index_count` 16-bit indices at theirs (no
   * bytes needed when there are none), and `inv_count` matrices at theirs.
   */
  predicate PartsAt(r: Reader, s: Subsection)
  {
    var h := s.header;
    LoadCollection(r.(pos := h.boneIndexGroupOffset.toFile), BoneEntry) == Ok(s.boneIndexGroup) &&
    |s.invIndices| == h.invCount + h.extraIndexCount &&
    U16sFit(r.data, h.invIndexArrayOffset.toFile, h.invCount + h.extraIndexCount) &&
    s.invIndices == U16sAt(r.data, h.invIndexArrayOffset.toFile, h.invCount + h.extraIndexCount, r.order) &&
    |s.invMatrices| == h.invCount &&
    ReadArray(r.(pos := h.invMatrixArrayOffset.toFile), h.invCount, FsklSkeleton.ReadMatrix).Ok? &&
    ReadArray(r.(pos := h.invMatrixArrayOffset.toFile), h.invCount, FsklSkeleton.ReadMatrix).value.value ==
      s.invMatrices
  }

  /**
   * `FsklSubsection.__init__`: the header, then the bone index group, then
   * `inv_count + extra_index_count` 16-bit indices read one by one (the same
   * as reading them as one run, see `ReadU16sOneByOne`), then `inv_count`
   * matrices of twelve floats, each part at its offset.
   */
  function ReadSubsection(r: Reader): (res: Result<Subsection>)
    ensures res.Ok? ==> ReadHeader(r).Ok? && res.value.header == ReadHeader(r).value.value
    ensures res.Ok? ==> PartsAt(r, res.value)
    ensures !TagAt(r.data, r.pos, FsklTag) ==> res.Err? && res.error in {BadMagic, InvalidType}
  {
    var h :- ReadHeader(r);
    ReadParts(r, h.value)
  }

  /** The parts the header `h` points at: the bone index group, the indices and the matrices. */
  function ReadParts(r: Reader, h: Header): (res: Result<Subsection>)
    ensures res.Ok? ==> res.value.header == h && PartsAt(r, res.value)
  {
    var bones :- LoadCollection(r.(pos := h.boneIndexGroupOffset.toFile), BoneEntry);
    var inv :- InverseIndices(r, h);
    var mats :- ReadArray(r.(pos := h.invMatrixArrayOffset.toFile), h.invCount, FsklSkeleton.ReadMatrix);
    Ok(Subsection(h, bones, inv, mats.value))
  }

  /** The `inv_count + extra_index_count` indices at the header's offset; none need no bytes. */
  function InverseIndices(r: Reader, h: Header): (res: Result<seq<u16>>)
    ensures res.Ok? <==> U16sFit(r.data, h.invIndexArrayOffset.toFile, h.invCount + h.extraIndexCount)
    ensures res.Ok? ==> |res.value| == h.invCount + h.extraIndexCount
    ensures res.Ok? ==> res.value == U16sAt(r.data, h.invIndexArrayOffset.toFile, h.invCount + h.extraIndexCount, r.order)
  {
    var inv :- ReadU16s(r.(pos := h.invIndexArrayOffset.toFile), h.invCount + h.extraIndexCount);
    Ok(inv.value)
  }

  /** A run of matrices read one after another: matrix `i` is the twelve words 48 * i bytes after the start. */
  lemma {:induction false} MatrixArrayAt(at: Reader, count: nat)
    requires ReadArray(at, count, FsklSkeleton.ReadMatrix).Ok?
    ensures count > 0 ==> at.pos + 48 * count <= |at.data|
    ensures forall i :: 0 <= i < count ==>
      ReadArray(at, count, FsklSkeleton.ReadMatrix).value.value[i] == U32sAt(at.data, at.pos + 48 * i, 12, at.order)
    decreases count
  {
    if count > 0 {
      var next := at.(pos := at.pos + 48);
      assert FsklSkeleton.ReadMatrix(at) == Ok(Parsed(U32sAt(at.data, at.pos, 12, at.order), next));
      MatrixArrayAt(next, count - 1);
      var all := ReadArray(at, count, FsklSkeleton.ReadMatrix).value.value;
      var others := ReadArray(next, count - 1, FsklSkeleton.ReadMatrix).value.value;
      assert all == [U32sAt(at.data, at.pos, 12, at.order)] + others;
      forall i | 0 < i < count
        ensures all[i] == U32sAt(at.data, at.pos + 48 * i, 12, at.order)
      {
        assert all[i] == others[i - 1];
        assert next.pos + 48 * (i - 1) == at.pos + 48 * i;
      }
    }
  }

  /**
   * The inverse matrices are stored back to back: matrix `i` is the twelve
   * words 48 * i bytes after the array offset.
   */
  lemma InverseMatricesAt(r: Reader)
    requires ReadSubsection(r).Ok?
    ensures var s := ReadSubsection(r).value; var start := s.header.invMatrixArrayOffset.toFile;
      (s.header.invCount > 0 ==> start + 48 * s.header.invCount <= |r.data|) &&
      forall i :: 0 <= i < s.header.invCount ==> s.invMatrices[i] == U32sAt(r.data, start + 48 * i, 12, r.order)
  {
    var s := ReadSubsection(r).value;
    MatrixArrayAt(r.(pos := s.header.invMatrixArrayOffset.toFile), s.header.invCount);
  }
}
