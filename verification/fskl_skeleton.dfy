/**
 * The FSKL skeleton of the C# loader: a header of counts and four offsets,
 * then, with the cursor restored afterwards, the bone index group, the bone
 * array, the inverse index arrays and the inverse matrices, each loaded only
 * when its offset is set.  Inverse matrices are then attached to the bones
 * they name and parent indices are resolved to bones.
 */
module FsklSkeleton {
  import opened Wrappers
  import opened Bytes
  import opened BinaryReader
  import opened BfresOffset
  import opened BfresIndexGroup
  import opened Records
  import opened Warnings

  /** Twelve floats, kept as their bit patterns. */
  type Matrix4x3 = seq<u32>

  const NoParent: u16 := 0xFFFF

  datatype Bone = Bone(nameOffset: NameOffset, index: u16, parentIndices: seq<u16>, unknown0x0E: u16, flags: u16,
                       unknown0x12: u16, scale: seq<u32>, rotation: seq<u32>, translation: seq<u32>,
                       warnings: seq<Warning>)

  const BoneSize: nat := 64

  /** A bone: name, index, four parent indices, three 16-bit fields, scale, rotation, translation and padding. */
  function ReadBone(r: Reader): (res: Result<Parsed<Bone>>)
    ensures res.Ok? ==> r.pos + BoneSize <= |r.data| && res.value.rest == r.(pos := r.pos + BoneSize)
  {
    var name :- ReadNameOffset(r);
    ReadBoneFields(name.rest, name.value)
  }

  /** The fields of a bone that follow its name. */
  function ReadBoneFields(r: Reader, name: NameOffset): (res: Result<Parsed<Bone>>)
    ensures res.Ok? ==> r.pos + BoneSize - 4 <= |r.data| && res.value.rest == r.(pos := r.pos + BoneSize - 4)
  {
    var index :- ReadU16(r);
    var parents :- ReadU16s(index.rest, 4);
    var unknown0x0E :- ReadU16(parents.rest);
    var flags :- ReadU16(unknown0x0E.rest);
    var unknown0x12 :- ReadU16(flags.rest);
    var scale :- ReadWords(unknown0x12.rest, 3);
    var rotation :- ReadWords(scale.rest, 4);
    var translation :- ReadWords(rotation.rest, 3);
    var padding :- ReadU32(translation.rest);
    var warnings := if padding.value != 0 then [PaddingNotEmpty("FsklBone")] else [];
    Ok(Parsed(Bone(name, index.value, parents.value, unknown0x0E.value, flags.value, unknown0x12.value,
                   scale.value, rotation.value, translation.value, warnings), padding.rest))
  }

  /** The bone the reads give once the name is read and the 64 bytes are there, field by field from its position. */
  function BoneAt(r: Reader, name: NameOffset): (b: Bone)
    requires r.pos + BoneSize <= |r.data|
  {
    var p := r.pos;
    var padding := U32At(r.data, p + 60, r.order);
    Bone(name, U16At(r.data, p + 4, r.order), U16sAt(r.data, p + 6, 4, r.order), U16At(r.data, p + 14, r.order),
         U16At(r.data, p + 16, r.order), U16At(r.data, p + 18, r.order), U32sAt(r.data, p + 20, 3, r.order),
         U32sAt(r.data, p + 32, 4, r.order), U32sAt(r.data, p + 48, 3, r.order),
         if padding != 0 then [PaddingNotEmpty("FsklBone")] else [])
  }

  /** The reads after the name, one by one, land on the fields of `BoneAt`. */
  lemma BoneReads(r: Reader)
    requires r.pos + BoneSize <= |r.data| && ReadNameOffset(r).Ok?
    ensures ReadBone(r) == Ok(Parsed(BoneAt(r, ReadNameOffset(r).value.value), r.(pos := r.pos + BoneSize)))
  {
    assert ReadNameOffset(r).value.rest == r.(pos := r.pos + 4);
    BoneFieldsRead(r, ReadNameOffset(r).value.value);
  }

  /** With the 64 bytes there, the reads after the name land on the fields of `BoneAt`. */
  lemma BoneFieldsRead(r: Reader, name: NameOffset)
    requires r.pos + BoneSize <= |r.data|
    ensures ReadBoneFields(r.(pos := r.pos + 4), name) == Ok(Parsed(BoneAt(r, name), r.(pos := r.pos + BoneSize)))
  {
    var p := r.pos;
    assert ReadU16(r.(pos := p + 4)) == Ok(Parsed(U16At(r.data, p + 4, r.order), r.(pos := p + 6)));
    assert ReadU16s(r.(pos := p + 6), 4) == Ok(Parsed(U16sAt(r.data, p + 6, 4, r.order), r.(pos := p + 14)));
    assert ReadU16(r.(pos := p + 14)) == Ok(Parsed(U16At(r.data, p + 14, r.order), r.(pos := p + 16)));
    assert ReadU16(r.(pos := p + 16)) == Ok(Parsed(U16At(r.data, p + 16, r.order), r.(pos := p + 18)));
    assert ReadU16(r.(pos := p + 18)) == Ok(Parsed(U16At(r.data, p + 18, r.order), r.(pos := p + 20)));
    assert ReadWords(r.(pos := p + 20), 3) == Ok(Parsed(U32sAt(r.data, p + 20, 3, r.order), r.(pos := p + 32)));
    assert ReadWords(r.(pos := p + 32), 4) == Ok(Parsed(U32sAt(r.data, p + 32, 4, r.order), r.(pos := p + 48)));
    assert ReadWords(r.(pos := p + 48), 3) == Ok(Parsed(U32sAt(r.data, p + 48, 3, r.order), r.(pos := p + 60)));
    assert ReadU32(r.(pos := p + 60)) == Ok(Parsed(U32At(r.data, p + 60, r.order), r.(pos := p + 64)));
  }

  /**
   * The layout of a bone: the index at 4, the parent indices at 6, the
   * padding at 60; reading fails exactly when the 64 bytes are not there or
   * the name has no terminator, and the padding warns when it is not zero.
   */
  lemma BoneLayout(r: Reader)
    ensures ReadBone(r).Ok? <==> (r.pos + BoneSize <= |r.data| && ReadNameOffset(r).Ok?)
    ensures ReadBone(r).Ok? ==> (ReadBone(r).value.value.index == U16At(r.data, r.pos + 4, r.order) &&
      ReadBone(r).value.value.parentIndices == U16sAt(r.data, r.pos + 6, 4, r.order) &&
      (ReadBone(r).value.value.warnings == [] <==> U32At(r.data, r.pos + 60, r.order) == 0))
  {
    if ReadNameOffset(r).Err? {
      assert ReadBone(r) == Err(ReadNameOffset(r).error);
    } else if r.pos + BoneSize <= |r.data| {
      BoneReads(r);
      var b := BoneAt(r, ReadNameOffset(r).value.value);
      assert ReadBone(r).value.value == b;
      assert b.warnings == [] <==> U32At(r.data, r.pos + 60, r.order) == 0;
    }
  }

  lemma BoneFixedSize()
    ensures FixedSize(ReadBone, BoneSize)
  {
  }

  function ReadMatrix(r: Reader): (res: Result<Parsed<Matrix4x3>>)
    ensures res.Ok? ==> res.value.rest == r.(pos := r.pos + 48) && |res.value.value| == 12
  {
    ReadWords(r, 12)
  }

  datatype Header = Header(unknown0x04: u16, unknown0x06: u16, boneCount: u16, inverseIndexCount: u16,
                           extraIndexCount: u16, unknown0x0E: u16, boneIndexGroupOffset: Offset,
                           boneArrayOffset: Offset, inverseIndexArrayOffset: Offset,
                           inverseMatrixArrayOffset: Offset, warnings: seq<Warning>)

  const HeaderSize: nat := 0x24

  /**
   * The header: "FSKL", two 16-bit fields that only warn, the three counts, a
   * field that only warns, the four offsets and a padding word that only warns.
   */
  function ReadHeader(r: Reader): (res: Result<Parsed<Header>>)
    ensures res == Err(BadMagic) <==> !TagAt(r.data, r.pos, FsklTag)
    ensures res.Ok? <==> TagAt(r.data, r.pos, FsklTag) && r.pos + HeaderSize <= |r.data|
    ensures res.Ok? ==> (res.value.rest == r.(pos := r.pos + HeaderSize) &&
      res.value.value.boneCount == U16At(r.data, r.pos + 8, r.order) &&
      res.value.value.inverseIndexCount == U16At(r.data, r.pos + 10, r.order) &&
      res.value.value.extraIndexCount == U16At(r.data, r.pos + 12, r.order))
    ensures res.Ok? ==> (res.value.value.warnings ==
      Expect("FsklSkeleton.Unknown0x04", U16At(r.data, r.pos + 4, r.order), {0}) +
      Expect("FsklSkeleton.Unknown0x06", U16At(r.data, r.pos + 6, r.order), {0x1100, 0x1200}) +
      Expect("FsklSkeleton.Unknown0x0E", U16At(r.data, r.pos + 14, r.order), {0}) +
      (if U32At(r.data, r.pos + 32, r.order) != 0 then [PaddingNotEmpty("FsklSkeleton")] else []))
  {
    if !TagAt(r.data, r.pos, FsklTag) then Err(BadMagic)
    else
      var r4 := r.(pos := r.pos + 4);
      var unknown0x04 :- ReadU16(r4);
      var unknown0x06 :- ReadU16(unknown0x04.rest);
      var boneCount :- ReadU16(unknown0x06.rest);
      var inverseCount :- ReadU16(boneCount.rest);
      var extraCount :- ReadU16(inverseCount.rest);
      var unknown0x0E :- ReadU16(extraCount.rest);
      var boneIndexGroup :- ReadOffset(unknown0x0E.rest);
      var boneArray :- ReadOffset(boneIndexGroup.rest);
      var inverseIndices :- ReadOffset(boneArray.rest);
      var inverseMatrices :- ReadOffset(inverseIndices.rest);
      var padding :- ReadU32(inverseMatrices.rest);
      var warnings := Expect("FsklSkeleton.Unknown0x04", unknown0x04.value, {0}) +
        Expect("FsklSkeleton.Unknown0x06", unknown0x06.value, {0x1100, 0x1200}) +
        Expect("FsklSkeleton.Unknown0x0E", unknown0x0E.value, {0}) +
        (if padding.value != 0 then [PaddingNotEmpty("FsklSkeleton")] else []);
      Ok(Parsed(Header(unknown0x04.value, unknown0x06.value, boneCount.value, inverseCount.value, extraCount.value,
                       unknown0x0E.value, boneIndexGroup.value, boneArray.value, inverseIndices.value,
                       inverseMatrices.value, warnings), padding.rest))
  }

  /** The last position `i` below `end` with `inv[i] == bone`: the write that survives. */
  function LastWrite(inv: seq<u16>, bone: nat, end: nat): (r: Option<nat>)
    requires end <= |inv|
    ensures r.Some? ==> (r.value < end && inv[r.value] == bone &&
      forall j :: r.value < j < end ==> inv[j] != bone)
    ensures r.None? <==> forall j :: 0 <= j < end ==> inv[j] != bone
  {
    if end == 0 then None
    else if inv[end - 1] == bone then Some(end - 1)
    else LastWrite(inv, bone, end - 1)
  }

  /**
   * The loop `Bones[inv[i]].InverseMatrix = mats[i]` from `i` on, `table`
   * holding each bone's matrix so far.  A bone array that was never loaded is
   * dereferenced first, then the index is checked, then the matrix array.
   */
  function MapInverseFrom(boneCount: Option<nat>, inv: seq<u16>, mats: Option<seq<Matrix4x3>>, i: nat,
                          table: seq<Option<Matrix4x3>>): (res: Result<seq<Option<Matrix4x3>>>)
    requires i <= |inv|
    requires boneCount.Some? ==> |table| == boneCount.value
    ensures res.Ok? <==> (i == |inv| || (boneCount.Some? && mats.Some? && |inv| <= |mats.value| &&
      forall j :: i <= j < |inv| ==> inv[j] < boneCount.value))
    ensures res.Ok? ==> |res.value| == |table|
    ensures res.Ok? ==> forall b :: 0 <= b < |table| ==>
      (res.value[b] == match LastWrite(inv, b, |inv|)
        case Some(j) => if j >= i then Some(mats.value[j]) else table[b]
        case None => table[b])
    ensures res.Err? ==> res.error in {NullReference, IndexOutOfRange}
    decreases |inv| - i
  {
    if i == |inv| then Ok(table)
    else if boneCount.None? then Err(NullReference)
    else if inv[i] >= boneCount.value then Err(IndexOutOfRange)
    else if mats.None? then Err(NullReference)
    else if i >= |mats.value| then Err(IndexOutOfRange)
    else
      var res := MapInverseFrom(boneCount, inv, mats, i + 1, table[inv[i] := Some(mats.value[i])]);
      assert res.Ok? ==> forall b :: 0 <= b < |table| ==>
        (res.value[b] == match LastWrite(inv, b, |inv|)
          case Some(j) => if j >= i then Some(mats.value[j]) else table[b]
          case None => table[b]) by {
        if res.Ok? {
          forall b | 0 <= b < |table|
            ensures res.value[b] == match LastWrite(inv, b, |inv|)
              case Some(j) => if j >= i then Some(mats.value[j]) else table[b]
              case None => table[b]
          {
            var last := LastWrite(inv, b, |inv|);
            if last.None? {
              assert inv[i] != b;
            }
          }
        }
      }
      res
  }

  /**
   * Each bone receives the matrix of the last inverse index naming it, and
   * bones no index names receive none; the loop fails when an index is out of
   * range or an array it needs was never loaded.
   */
  function MapInverse(boneCount: Option<nat>, inv: seq<u16>, mats: Option<seq<Matrix4x3>>): (res: Result<seq<Option<Matrix4x3>>>)
    ensures res.Ok? <==> (|inv| == 0 || (boneCount.Some? && mats.Some? && |inv| <= |mats.value| &&
      forall j :: 0 <= j < |inv| ==> inv[j] < boneCount.value))
    ensures res.Ok? && boneCount.Some? ==> |res.value| == boneCount.value
    ensures res.Ok? && boneCount.Some? ==> forall b :: 0 <= b < boneCount.value ==>
      (res.value[b] == match LastWrite(inv, b, |inv|)
        case Some(j) => Some(mats.value[j])
        case None => None)
    ensures res.Err? ==> res.error in {NullReference, IndexOutOfRange}
  {
    var table := if boneCount.Some? then seq(boneCount.value, _ => None) else [];
    MapInverseFrom(boneCount, inv, mats, 0, table)
  }

  /** The parent slots of one bone: 0xFFFF is no parent, any other index must name a bone. */
  function ParentLinks(parentIndices: seq<u16>, boneCount: nat): (res: Result<seq<Option<nat>>>)
    ensures res.Ok? <==> forall k :: 0 <= k < |parentIndices| ==> parentIndices[k] == NoParent || parentIndices[k] < boneCount
    ensures res.Ok? ==> |res.value| == |parentIndices|
    ensures res.Ok? ==> forall k :: 0 <= k < |parentIndices| ==>
      (res.value[k] == if parentIndices[k] == NoParent then None else Some(parentIndices[k] as nat))
    ensures res.Err? ==> res.error == IndexOutOfRange
  {
    if |parentIndices| == 0 then Ok([])
    else
      var first :- if parentIndices[0] == NoParent then Ok(None)
        else if parentIndices[0] < boneCount then Ok(Some(parentIndices[0] as nat))
        else Err(IndexOutOfRange);
      var others :- ParentLinks(parentIndices[1..], boneCount);
      Ok([first] + others)
  }

  /** The parents of every bone, in bone order; the loop dereferences the bone array even when it is empty. */
  function MapParents(bones: Option<seq<Bone>>): (res: Result<seq<seq<Option<nat>>>>)
    ensures res.Ok? <==> (bones.Some? && forall b :: 0 <= b < |bones.value| ==>
      ParentLinks(bones.value[b].parentIndices, |bones.value|).Ok?)
    ensures res.Ok? ==> |res.value| == |bones.value|
    ensures res.Ok? ==> forall b :: 0 <= b < |bones.value| ==>
      res.value[b] == ParentLinks(bones.value[b].parentIndices, |bones.value|).value
    ensures res.Err? ==> res.error in {NullReference, IndexOutOfRange}
  {
    if bones.None? then Err(NullReference)
    else MapParentsFrom(bones.value, 0)
  }

  function MapParentsFrom(bones: seq<Bone>, b: nat): (res: Result<seq<seq<Option<nat>>>>)
    requires b <= |bones|
    ensures res.Ok? <==> forall k :: b <= k < |bones| ==> ParentLinks(bones[k].parentIndices, |bones|).Ok?
    ensures res.Ok? ==> |res.value| == |bones| - b
    ensures res.Ok? ==> forall k :: b <= k < |bones| ==>
      res.value[k - b] == ParentLinks(bones[k].parentIndices, |bones|).value
    ensures res.Err? ==> res.error == IndexOutOfRange
    decreases |bones| - b
  {
    if b == |bones| then Ok([])
    else
      var first :- ParentLinks(bones[b].parentIndices, |bones|);
      var others :- MapParentsFrom(bones, b + 1);
      Ok([first] + others)
  }

  datatype Skeleton = Skeleton(header: Header, boneIndexGroup: Option<IndexGroup>, bones: seq<Bone>,
                               inverseIndices: seq<u16>, extraIndices: seq<u16>,
                               inverseMatrices: Option<seq<Matrix4x3>>,
                               inverseMatrixOfBone: seq<Option<Matrix4x3>>, parents: seq<seq<Option<nat>>>,
                               warnings: seq<Warning>)

  /** The index group at `o`, when `o` is set. */
  function LoadGroup(r: Reader, o: Offset): (res: Result<Option<IndexGroup>>)
    ensures res.Ok? && res.value.Some? ==> !IsEmpty(o) && ReadIndexGroup(r.(pos := o.toFile)) == Ok(res.value.value)
    ensures IsEmpty(o) ==> res == Ok(None)
    ensures !IsEmpty(o) && res.Ok? ==> res.value.Some?
  {
    if IsEmpty(o) then Ok(None)
    else
      var g :- ReadIndexGroup(r.(pos := o.toFile));
      Ok(Some(g))
  }

  /** The bone array at its offset, when the offset is set: exactly `BoneCount` bones. */
  function LoadBoneArray(r: Reader, h: Header): (res: Result<Option<seq<Bone>>>)
    ensures IsEmpty(h.boneArrayOffset) ==> res == Ok(None)
    ensures res.Ok? && res.value.Some? ==> (|res.value.value| == h.boneCount &&
      ReadArray(r.(pos := h.boneArrayOffset.toFile), h.boneCount, ReadBone).Ok? &&
      res.value.value == ReadArray(r.(pos := h.boneArrayOffset.toFile), h.boneCount, ReadBone).value.value)
  {
    if IsEmpty(h.boneArrayOffset) then Ok(None)
    else
      var bones :- ReadArray(r.(pos := h.boneArrayOffset.toFile), h.boneCount, ReadBone);
      Ok(Some(bones.value))
  }

  /** The inverse index array and, right behind it, the extra indices. */
  function LoadInverseIndices(r: Reader, h: Header): (res: Result<Option<(seq<u16>, seq<u16>)>>)
    ensures IsEmpty(h.inverseIndexArrayOffset) ==> res == Ok(None)
    ensures res.Ok? && res.value.Some? ==> (|res.value.value.0| == h.inverseIndexCount &&
      |res.value.value.1| == h.extraIndexCount &&
      U16sFit(r.data, h.inverseIndexArrayOffset.toFile, h.inverseIndexCount) &&
      U16sFit(r.data, h.inverseIndexArrayOffset.toFile + 2 * h.inverseIndexCount, h.extraIndexCount) &&
      res.value.value.0 == U16sAt(r.data, h.inverseIndexArrayOffset.toFile, h.inverseIndexCount, r.order) &&
      res.value.value.1 ==
        U16sAt(r.data, h.inverseIndexArrayOffset.toFile + 2 * h.inverseIndexCount, h.extraIndexCount, r.order))
  {
    if IsEmpty(h.inverseIndexArrayOffset) then Ok(None)
    else
      var inv :- ReadU16s(r.(pos := h.inverseIndexArrayOffset.toFile), h.inverseIndexCount);
      var extra :- ReadU16s(inv.rest, h.extraIndexCount);
      Ok(Some((inv.value, extra.value)))
  }

  function LoadInverseMatrices(r: Reader, h: Header): (res: Result<Option<seq<Matrix4x3>>>)
    ensures IsEmpty(h.inverseMatrixArrayOffset) ==> res == Ok(None)
    ensures res.Ok? && res.value.Some? ==> |res.value.value| == h.inverseIndexCount
  {
    if IsEmpty(h.inverseMatrixArrayOffset) then Ok(None)
    else
      var mats :- ReadArray(r.(pos := h.inverseMatrixArrayOffset.toFile), h.inverseIndexCount, ReadMatrix);
      Ok(Some(mats.value))
  }

  /**
   * `LoadBones`: group, bones, indices and matrices, then the two mappings.
   * An inverse index array that was never loaded is dereferenced by the
   * mapping loop, so it fails the load.
   */
  function LoadBones(r: Reader, h: Header): (res: Result<Skeleton>)
    ensures res.Ok? ==> res.value.header == h
    ensures res.Ok? ==> (!IsEmpty(h.boneArrayOffset) && !IsEmpty(h.inverseIndexArrayOffset))
    ensures res.Ok? ==> (|res.value.bones| == h.boneCount && |res.value.inverseIndices| == h.inverseIndexCount &&
      |res.value.extraIndices| == h.extraIndexCount)
    ensures res.Ok? ==> (MapInverse(Some(h.boneCount), res.value.inverseIndices, res.value.inverseMatrices) ==
      Ok(res.value.inverseMatrixOfBone))
    ensures res.Ok? ==> MapParents(Some(res.value.bones)) == Ok(res.value.parents)
    ensures res.Ok? ==> (res.value.boneIndexGroup.Some? <==> !IsEmpty(h.boneIndexGroupOffset))
    ensures res.Ok? ==> (CountMismatch("FsklSkeleton.BoneCount", h.boneCount) in res.value.warnings <==>
      res.value.boneIndexGroup.Some? && h.boneCount != |res.value.boneIndexGroup.value.nodes| - 1)
  {
    var group :- LoadGroup(r, h.boneIndexGroupOffset);
    var warnings := if group.Some? && h.boneCount != |group.value.nodes| - 1
      then [CountMismatch("FsklSkeleton.BoneCount", h.boneCount)] else [];
    var bones :- LoadBoneArray(r, h);
    var indices :- LoadInverseIndices(r, h);
    var mats :- LoadInverseMatrices(r, h);
    if indices.None? then Err(NullReference)
    else
      var boneCount := if bones.Some? then Some(|bones.value|) else None;
      var inverse :- MapInverse(boneCount, indices.value.0, mats);
      var parents :- MapParents(bones);
      Ok(Skeleton(h, group, bones.value, indices.value.0, indices.value.1, mats, inverse, parents, warnings))
  }

  /** `FsklSkeleton.Load`: the header, then the bones with the cursor restored right behind the header. */
  function ReadSkeleton(r: Reader): (res: Result<Parsed<Skeleton>>)
    ensures !TagAt(r.data, r.pos, FsklTag) ==> res == Err(BadMagic)
    ensures res.Ok? ==> res.value.rest == r.(pos := r.pos + HeaderSize)
    ensures res.Ok? ==> ReadHeader(r).Ok? && res.value.value.header == ReadHeader(r).value.value
    ensures res.Ok? ==> LoadBones(res.value.rest, res.value.value.header) == Ok(res.value.value)
  {
    var h :- ReadHeader(r);
    var skeleton :- LoadBones(h.rest, h.value);
    Ok(Parsed(skeleton, h.rest))
  }
}
