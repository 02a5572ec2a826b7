/**
 * The BFRES file (`BfresFile`): a 0x68-byte big-endian header with the
 * "FRES" tag, the byte-order mark of the embedded data, the file name and
 * twelve index group slots, one per kind of subsection.  Loading reads the
 * header, the index group of every slot whose offset is set, and the model
 * sections of slot 0; texture selectors are then linked by name to the
 * textures of slot 1.  The model section decoder is a parameter `decode`;
 * the importer's `FmdlSection.ReadSection` is the one whose texture
 * selectors are linked.
 */
module BfresFile {
  import opened Wrappers
  import opened Bytes
  import opened BinaryReader
  import opened BfresOffset
  import opened BfresIndexGroup
  import opened Warnings
  import FmdlSection
  import FmatSubsection

  const HeaderSize: nat := 0x68
  const SlotCount: nat := 12

  /** The slots the loader treats specially: models, textures, and the visibility slot normally left empty. */
  const FmdlSlot: nat := 0
  const FtexSlot: nat := 1
  const UnusedFvisSlot: nat := 7

  datatype Header = Header(unknown0x04: byte, unknown0x05: byte, unknown0x06: byte, unknown0x07: byte,
                           byteOrder: ByteOrder, unknown0x0A: u16, fileLength: u32, fileAlignment: u32,
                           fileNameOffset: NameOffset, stringTableLength: u32, stringTableOffset: Offset,
                           groupOffsets: seq<Offset>, groupCounts: seq<u16>)

  /**
   * The file as loaded: the header, one group per slot (none where the offset
   * is empty), the model sections of type `M`, the warnings.
   */
  datatype File<M> = File(header: Header, groups: seq<Option<IndexGroup>>, fmdlSections: Option<seq<M>>,
                          warnings: seq<Warning>)

  /** The BFRES file itself is always read big-endian, whatever its byte-order mark says. */
  function FileReader(data: seq<byte>, pos: nat): Reader
  {
    Reader(data, pos, BigEndian)
  }

  /** The byte-order mark as the `ByteOrder` enumeration defines it: 0xFEFF and 0xFFFE, nothing else. */
  function ByteOrderOf(mark: u16): (res: Option<ByteOrder>)
    ensures res == Some(BigEndian) <==> mark == 0xFEFF
    ensures res == Some(LittleEndian) <==> mark == 0xFFFE
    ensures res.None? <==> mark != 0xFEFF && mark != 0xFFFE
  {
    if mark == 0xFEFF then Some(BigEndian)
    else if mark == 0xFFFE then Some(LittleEndian)
    else None
  }

  /** The header fields in place: the file properties, the string table, then twelve offsets and twelve counts. */
  function HeaderAt(data: seq<byte>, order: ByteOrder, name: NameOffset): (h: Header)
    requires HeaderSize <= |data|
    ensures h.byteOrder == order && h.fileNameOffset == name
    ensures |h.groupOffsets| == SlotCount && |h.groupCounts| == SlotCount
    ensures forall i :: 0 <= i < SlotCount ==> h.groupOffsets[i] == OffsetAt(FileReader(data, 0), 0x20 + 4 * i)
    ensures forall i :: 0 <= i < SlotCount ==> h.groupCounts[i] == U16At(data, 0x50 + 2 * i, BigEndian)
  {
    var r := FileReader(data, 0);
    Header(data[4], data[5], data[6], data[7], order, U16At(data, 0x0A, BigEndian),
           U32At(data, 0x0C, BigEndian), U32At(data, 0x10, BigEndian), name, U32At(data, 0x18, BigEndian),
           OffsetAt(r, 0x1C), seq(SlotCount, i requires 0 <= i < SlotCount => OffsetAt(r, 0x20 + 4 * i)),
           seq(SlotCount, i requires 0 <= i < SlotCount => U16At(data, 0x50 + 2 * i, BigEndian)))
  }

  /**
   * `BfresFile.Load`, up to the index groups: the "FRES" tag, the byte-order
   * mark at 8, which must be defined, then the rest of the header.  Reads past
   * the end of the data and a file name without terminator fail.
   */
  function ReadHeader(data: seq<byte>): (res: Result<Header>)
    ensures res.Ok? <==> (TagAt(data, 0, FresTag) && HeaderSize <= |data| &&
      ByteOrderOf(U16At(data, 8, BigEndian)).Some? && ReadNameOffset(FileReader(data, 0x14)).Ok?)
    ensures !TagAt(data, 0, FresTag) ==> res == Err(BadMagic)
    ensures TagAt(data, 0, FresTag) && 10 <= |data| && ByteOrderOf(U16At(data, 8, BigEndian)).None? ==>
      res == Err(InvalidByteOrder)
    ensures TagAt(data, 0, FresTag) && |data| < 10 ==> res == Err(Truncated)
    ensures res.Ok? ==> (res.value ==
      HeaderAt(data, ByteOrderOf(U16At(data, 8, BigEndian)).value, ReadNameOffset(FileReader(data, 0x14)).value.value))
  {
    if !TagAt(data, 0, FresTag) then Err(BadMagic)
    else if |data| < 10 then Err(Truncated)
    else
      match ByteOrderOf(U16At(data, 8, BigEndian))
      case None => Err(InvalidByteOrder)
      case Some(order) =>
        if |data| < HeaderSize then Err(Truncated)
        else
          var name :- ReadNameOffset(FileReader(data, 0x14));
          Ok(HeaderAt(data, order, name.value))
  }

  /** The warnings of the header: bytes 4 to 7 and the half-word at 0x0A each have their expected values. */
  function HeaderWarnings(h: Header): (w: seq<Warning>)
    ensures w == [] <==> (h.unknown0x04 == 0x03 && h.unknown0x05 in {0x00, 0x03, 0x04} && h.unknown0x06 == 0x00 &&
      h.unknown0x07 in {0x01, 0x02, 0x04} && h.unknown0x0A == 0x0010)
    ensures |w| <= 5
    ensures forall i :: 0 <= i < |w| ==> w[i].UnexpectedValue?
  {
    Expect("BfresFile.Unknown0x04", h.unknown0x04, {0x03}) +
    Expect("BfresFile.Unknown0x05", h.unknown0x05, {0x00, 0x03, 0x04}) +
    Expect("BfresFile.Unknown0x06", h.unknown0x06, {0x00}) +
    Expect("BfresFile.Unknown0x07", h.unknown0x07, {0x01, 0x02, 0x04}) +
    Expect("BfresFile.Unknown0x0A", h.unknown0x0A, {0x0010})
  }

  /** The group of one slot: none when its offset is empty, else the index group at its target. */
  function LoadGroup(data: seq<byte>, o: Offset): Result<Option<IndexGroup>>
  {
    if IsEmpty(o) then Ok(None)
    else
      var g :- ReadIndexGroup(FileReader(data, o.toFile));
      Ok(Some(g))
  }

  /** Whether a slot's header count disagrees with its group, which holds `count + 1` nodes when they agree. */
  predicate Mismatched(count: u16, g: Option<IndexGroup>)
  {
    g.Some? && count as int != |g.value.nodes| - 1
  }

  /** The count warnings of the slots loaded so far, in slot order: one for each slot whose count disagrees. */
  function CountWarnings(counts: seq<u16>, groups: seq<Option<IndexGroup>>): seq<Warning>
    requires |groups| <= |counts|
  {
    if |groups| == 0 then []
    else
      var n := |groups| - 1;
      CountWarnings(counts, groups[..n]) +
      (if Mismatched(counts[n], groups[n]) then [CountMismatch("BfresFile.SubsectionIndexGroupCounts", counts[n])] else [])
  }

  /** Loading one more slot adds its count warning, if any, at the end. */
  lemma CountWarningsAppend(counts: seq<u16>, groups: seq<Option<IndexGroup>>, g: Option<IndexGroup>)
    requires |groups| < |counts|
    ensures CountWarnings(counts, groups + [g]) == CountWarnings(counts, groups) +
      (if Mismatched(counts[|groups|], g) then [CountMismatch("BfresFile.SubsectionIndexGroupCounts", counts[|groups|])] else [])
  {
    assert (groups + [g])[..|groups|] == groups;
  }

  /** A slot's count warning is raised exactly when its count disagrees with its group. */
  lemma {:induction false} CountWarningsExact(counts: seq<u16>, groups: seq<Option<IndexGroup>>)
    requires |groups| <= |counts|
    ensures CountWarnings(counts, groups) == [] <==> forall i :: 0 <= i < |groups| ==> !Mismatched(counts[i], groups[i])
    ensures |CountWarnings(counts, groups)| <= |groups|
    ensures forall i :: 0 <= i < |groups| && Mismatched(counts[i], groups[i]) ==>
      CountMismatch("BfresFile.SubsectionIndexGroupCounts", counts[i]) in CountWarnings(counts, groups)
  {
    if |groups| > 0 {
      var n := |groups| - 1;
      var before := CountWarnings(counts, groups[..n]);
      CountWarningsExact(counts, groups[..n]);
      var last := if Mismatched(counts[n], groups[n])
                  then [CountMismatch("BfresFile.SubsectionIndexGroupCounts", counts[n])] else [];
      assert CountWarnings(counts, groups) == before + last;
      forall i | 0 <= i < |groups| && Mismatched(counts[i], groups[i])
        ensures CountMismatch("BfresFile.SubsectionIndexGroupCounts", counts[i]) in before + last
      {
        if i < n {
          assert groups[..n][i] == groups[i];
          assert CountMismatch("BfresFile.SubsectionIndexGroupCounts", counts[i]) in before;
        } else {
          assert last[0] == CountMismatch("BfresFile.SubsectionIndexGroupCounts", counts[i]);
        }
      }
      if before + last == [] {
        forall i | 0 <= i < |groups| ensures !Mismatched(counts[i], groups[i]) {
          if i < n {
            assert groups[..n][i] == groups[i];
          }
        }
      }
    }
  }

  datatype Groups = Groups(slots: seq<Option<IndexGroup>>, warnings: seq<Warning>)

  /**
   * The slot loop of `BfresFile.Load`: each slot in order, its group loaded
   * when its offset is set and its count compared with the group's nodes.
   * The first slot whose group cannot be read ends the load.
   */
  method LoadGroups(data: seq<byte>, offsets: seq<Offset>, counts: seq<u16>) returns (res: Result<Groups>)
    requires |counts| == |offsets|
    ensures res.Ok? <==> forall i :: 0 <= i < |offsets| ==> LoadGroup(data, offsets[i]).Ok?
    ensures res.Ok? ==> (|res.value.slots| == |offsets| &&
      forall i :: 0 <= i < |offsets| ==> LoadGroup(data, offsets[i]) == Ok(res.value.slots[i]))
    ensures res.Ok? ==> res.value.warnings == CountWarnings(counts, res.value.slots)
    ensures res.Err? ==> exists i :: (0 <= i < |offsets| && LoadGroup(data, offsets[i]) == Err(res.error) &&
      forall j :: 0 <= j < i ==> LoadGroup(data, offsets[j]).Ok?)
  {
    var slots: seq<Option<IndexGroup>> := [];
    var warnings: seq<Warning> := [];
    for i := 0 to |offsets|
      invariant |slots| == i
      invariant forall k :: 0 <= k < i ==> LoadGroup(data, offsets[k]) == Ok(slots[k])
      invariant warnings == CountWarnings(counts, slots)
    {
      var g := LoadGroup(data, offsets[i]);
      if g.Err? {
        return Err(g.error);
      }
      CountWarningsAppend(counts, slots, g.value);
      if Mismatched(counts[i], g.value) {
        warnings := warnings + [CountMismatch("BfresFile.SubsectionIndexGroupCounts", counts[i])];
      }
      slots := slots + [g.value];
    }
    return Ok(Groups(slots, warnings));
  }

  /**
   * `LoadFmdlSubsections`: one model section per data node of the group, in
   * node order, each read by `decode` at the node's data pointer.  The list is created
   * with capacity `Nodes.Length - 1`, which is negative for a group without
   * nodes.
   */
  method LoadFmdlSubsections<M>(data: seq<byte>, g: IndexGroup, decode: Reader -> Result<M>) returns (res: Result<seq<M>>)
    ensures |g.nodes| == 0 ==> res == Err(NegativeCount)
    ensures res.Ok? <==> (|g.nodes| > 0 &&
      forall i :: 1 <= i < |g.nodes| ==> DecodeAt(data, BigEndian, g.nodes[i], decode).Ok?)
    ensures res.Ok? ==> (|res.value| == |g.nodes| - 1 &&
      forall i :: 0 <= i < |res.value| ==> DecodeAt(data, BigEndian, g.nodes[i + 1], decode) == Ok(res.value[i]))
    ensures res.Err? && |g.nodes| > 0 ==> exists i :: (1 <= i < |g.nodes| &&
      DecodeAt(data, BigEndian, g.nodes[i], decode) == Err(res.error))
  {
    if |g.nodes| == 0 {
      return Err(NegativeCount);
    }
    var sections: seq<M> := [];
    for i := 1 to |g.nodes|
      invariant |sections| == i - 1
      invariant forall k :: 1 <= k < i ==> DecodeAt(data, BigEndian, g.nodes[k], decode) == Ok(sections[k - 1])
    {
      var s := DecodeAt(data, BigEndian, g.nodes[i], decode);
      if s.Err? {
        return Err(s.error);
      }
      sections := sections + [s.value];
    }
    return Ok(sections);
  }

  /** The model sections of slot 0 and the warnings raised while the subsections are loaded. */
  datatype Subsections<M> = Subsections(fmdlSections: Option<seq<M>>, warnings: seq<Warning>)

  /**
   * `LoadSubsections`: the slots in order, each with a group handing its
   * subsections to the loader of its kind.  Only the model loader of slot 0
   * reads anything here; the texture list of slot 1 is created with
   * capacity `Nodes.Length - 1` as the models' is, and a group in slot 7 is
   * warned about.  The loaders of the other kinds do nothing.
   */
  method LoadSubsections<M>(data: seq<byte>, slots: seq<Option<IndexGroup>>, decode: Reader -> Result<M>)
    returns (res: Result<Subsections<M>>)
    requires |slots| == SlotCount
    ensures res.Ok? ==> (res.value.fmdlSections.Some? <==> slots[FmdlSlot].Some?)
    ensures res.Ok? && res.value.fmdlSections.Some? ==> (
      var nodes := slots[FmdlSlot].value.nodes;
      |res.value.fmdlSections.value| == |nodes| - 1 &&
      forall i :: 0 <= i < |nodes| - 1 ==>
        DecodeAt(data, BigEndian, nodes[i + 1], decode) == Ok(res.value.fmdlSections.value[i]))
    ensures slots[FmdlSlot].Some? && |slots[FmdlSlot].value.nodes| == 0 ==> res == Err(NegativeCount)
    ensures res.Ok? && slots[FtexSlot].Some? ==> |slots[FtexSlot].value.nodes| > 0
    ensures slots[FmdlSlot].None? && slots[FtexSlot].Some? && |slots[FtexSlot].value.nodes| == 0 ==> res == Err(NegativeCount)
    ensures res.Ok? ==> (res.value.warnings == if slots[UnusedFvisSlot].Some? then [GroupNormallyUnused(UnusedFvisSlot)] else [])
  {
    var fmdl: Option<seq<M>> := None;
    if slots[FmdlSlot].Some? {
      var sections := LoadFmdlSubsections(data, slots[FmdlSlot].value, decode);
      if sections.Err? {
        return Err(sections.error);
      }
      fmdl := Some(sections.value);
    }
    if slots[FtexSlot].Some? && |slots[FtexSlot].value.nodes| == 0 {
      return Err(NegativeCount);
    }
    var warnings := if slots[UnusedFvisSlot].Some? then [GroupNormallyUnused(UnusedFvisSlot)] else [];
    return Ok(Subsections(fmdl, warnings));
  }

  /**
   * `BfresFile.Load` up to the loading of the subsections: the header, the
   * twelve groups, the subsections.  The warnings come in the loader's
   * order: header, counts, subsections.
   */
  method Load<M>(data: seq<byte>, decode: Reader -> Result<M>) returns (res: Result<File<M>>)
    ensures ReadHeader(data).Err? ==> res == Err(ReadHeader(data).error)
    ensures res.Ok? ==> ReadHeader(data) == Ok(res.value.header)
    ensures res.Ok? ==> (|res.value.groups| == SlotCount &&
      forall i :: 0 <= i < SlotCount ==> LoadGroup(data, res.value.header.groupOffsets[i]) == Ok(res.value.groups[i]))
    ensures res.Ok? ==> (res.value.fmdlSections.Some? <==> res.value.groups[FmdlSlot].Some?)
    ensures res.Ok? && res.value.fmdlSections.Some? ==> (
      var nodes := res.value.groups[FmdlSlot].value.nodes;
      |res.value.fmdlSections.value| == |nodes| - 1 &&
      forall i :: 0 <= i < |nodes| - 1 ==>
        DecodeAt(data, BigEndian, nodes[i + 1], decode) == Ok(res.value.fmdlSections.value[i]))
    ensures res.Ok? ==> (res.value.warnings == HeaderWarnings(res.value.header) +
      CountWarnings(res.value.header.groupCounts, res.value.groups) +
      (if res.value.groups[UnusedFvisSlot].Some? then [GroupNormallyUnused(UnusedFvisSlot)] else []))
  {
    var header := ReadHeader(data);
    if header.Err? {
      return Err(header.error);
    }
    var h := header.value;
    var groups := LoadGroups(data, h.groupOffsets, h.groupCounts);
    if groups.Err? {
      return Err(groups.error);
    }
    var sub := LoadSubsections(data, groups.value.slots, decode);
    if sub.Err? {
      return Err(sub.error);
    }
    return Ok(File(h, groups.value.slots, sub.value.fmdlSections,
                   HeaderWarnings(h) + groups.value.warnings + sub.value.warnings));
  }

  /** The names of the texture selectors of some materials, material by material, in selector order. */
  function MaterialSelectorNames(materials: seq<FmatSubsection.Subsection>): seq<seq<byte>>
  {
    if |materials| == 0 then []
    else
      var selectors := materials[0].bindings.textureSelectors;
      seq(|selectors|, i requires 0 <= i < |selectors| => selectors[i].nameOffset.name) +
      MaterialSelectorNames(materials[1..])
  }

  /** The names of the texture selectors of all materials of some model sections, in the order they are visited. */
  function SelectorNames(sections: seq<FmdlSection.Section>): seq<seq<byte>>
  {
    if |sections| == 0 then []
    else MaterialSelectorNames(sections[0].fmatIndexGroup.entries) + SelectorNames(sections[1..])
  }

  /**
   * One texture selector: `GetIndexByName` on the texture group, then
   * `FtexSections[index - 1]`.  An unknown name links nothing; a name that
   * only the reference node carries gives index -1; without a texture group
   * the lookup dereferences null.
   */
  function LinkSelector(ftex: Option<IndexGroup>, name: seq<byte>): Result<Option<nat>>
  {
    if ftex.None? then Err(NullReference)
    else
      match IndexOfName(ftex.value.nodes, name, 0)
      case None => Ok(None)
      case Some(i) => if i == 0 then Err(IndexOutOfRange) else Ok(Some(i - 1))
  }

  /**
   * What a link means: a texture index `k` names the first node with the
   * selector's name, node `k + 1` (the reference node is 0); no link means
   * no node has the name.
   */
  lemma LinkSelectorMeaning(ftex: Option<IndexGroup>, name: seq<byte>)
    ensures ftex.None? ==> LinkSelector(ftex, name) == Err(NullReference)
    ensures ftex.Some? ==> (LinkSelector(ftex, name) == Err(IndexOutOfRange) <==>
      |ftex.value.nodes| > 0 && ftex.value.nodes[0].Name() == name)
    ensures LinkSelector(ftex, name) == Ok(None) <==>
      ftex.Some? && forall j :: 0 <= j < |ftex.value.nodes| ==> ftex.value.nodes[j].Name() != name
    ensures forall k :: LinkSelector(ftex, name) == Ok(Some(k)) ==>
      ftex.Some? && k + 1 < |ftex.value.nodes| && ftex.value.nodes[k + 1].Name() == name &&
      forall j :: 0 <= j <= k ==> ftex.value.nodes[j].Name() != name
  {
  }

  /** The warnings of some links: one for each selector left unlinked, in selector order. */
  function UnknownWarnings(links: seq<Option<nat>>): seq<Warning>
  {
    if |links| == 0 then []
    else UnknownWarnings(links[..|links| - 1]) + (if links[|links| - 1].None? then [UnknownTexture] else [])
  }

  /** Linking one more selector adds its warning, if any, at the end. */
  lemma UnknownWarningsAppend(links: seq<Option<nat>>, link: Option<nat>)
    ensures UnknownWarnings(links + [link]) == UnknownWarnings(links) + (if link.None? then [UnknownTexture] else [])
  {
    assert (links + [link])[..|links|] == links;
  }

  /** There are as many warnings as links left unlinked, all with the same message. */
  lemma {:induction false} UnknownWarningsCount(links: seq<Option<nat>>)
    ensures |UnknownWarnings(links)| == multiset(links)[None]
    ensures forall w :: w in UnknownWarnings(links) ==> w == UnknownTexture
  {
    if |links| > 0 {
      var before := links[..|links| - 1];
      UnknownWarningsCount(before);
      assert links == before + [links[|links| - 1]];
      assert multiset(links) == multiset(before) + multiset{links[|links| - 1]};
    }
  }

  /** One selector linked with the group's own lookup, `GetIndexByName`. */
  method LinkOne(ftex: Option<IndexGroup>, name: seq<byte>) returns (res: Result<Option<nat>>)
    ensures res == LinkSelector(ftex, name)
  {
    if ftex.None? {
      return Err(NullReference);
    }
    var index := GetIndexByName(ftex.value, name);
    if index.None? {
      return Ok(None);
    } else if index.value == 0 {
      return Err(IndexOutOfRange);
    }
    return Ok(Some(index.value - 1));
  }

  /** Whether every selector name can be linked, to a texture or to nothing. */
  predicate AllLink(ftex: Option<IndexGroup>, names: seq<seq<byte>>)
  {
    forall i :: 0 <= i < |names| ==> LinkSelector(ftex, names[i]).Ok?
  }

  datatype Links = Links(textures: seq<Option<nat>>, warnings: seq<Warning>)

  /**
   * The selector loop: each name in turn looked up in the texture group.  The
   * first name that cannot be linked ends the loop; the warnings of unknown
   * names come in selector order.
   */
  method LinkSelectors(ftex: Option<IndexGroup>, names: seq<seq<byte>>) returns (res: Result<Links>)
    ensures res.Ok? <==> AllLink(ftex, names)
    ensures res.Err? ==> exists i :: 0 <= i < |names| && LinkSelector(ftex, names[i]) == Err(res.error)
    ensures res.Ok? ==> (|res.value.textures| == |names| &&
      forall i :: 0 <= i < |names| ==> LinkSelector(ftex, names[i]) == Ok(res.value.textures[i]))
    ensures res.Ok? ==> res.value.warnings == UnknownWarnings(res.value.textures)
  {
    var textures: seq<Option<nat>> := [];
    var warnings: seq<Warning> := [];
    for i := 0 to |names|
      invariant |textures| == i
      invariant forall k :: 0 <= k < i ==> LinkSelector(ftex, names[k]) == Ok(textures[k])
      invariant warnings == UnknownWarnings(textures)
    {
      var link := LinkOne(ftex, names[i]);
      if link.Err? {
        return Err(link.error);
      }
      if link.value.None? {
        warnings := warnings + [UnknownTexture];
      }
      UnknownWarningsAppend(textures, link.value);
      textures := textures + [link.value];
    }
    return Ok(Links(textures, warnings));
  }

  /**
   * `SatisfyTextureSelectors`: every selector of every material of every
   * model section, linked to the texture of the first node of slot 1 with
   * its name.  A name no node carries only warns.  The links come in the
   * order the selectors are visited; `Some(k)` is the texture section `k`.
   */
  method SatisfyTextureSelectors(f: File<FmdlSection.Section>) returns (res: Result<Links>)
    requires |f.groups| == SlotCount
    ensures f.fmdlSections.None? ==> res == Err(NullReference)
    ensures f.fmdlSections.Some? ==> (res.Ok? <==> AllLink(f.groups[FtexSlot], SelectorNames(f.fmdlSections.value)))
    ensures res.Ok? ==> (f.fmdlSections.Some? && |res.value.textures| == |SelectorNames(f.fmdlSections.value)| &&
      forall i :: 0 <= i < |res.value.textures| ==>
        LinkSelector(f.groups[FtexSlot], SelectorNames(f.fmdlSections.value)[i]) == Ok(res.value.textures[i]))
    ensures res.Ok? ==> res.value.warnings == UnknownWarnings(res.value.textures)
  {
    if f.fmdlSections.None? {
      return Err(NullReference);
    }
    res := LinkSelectors(f.groups[FtexSlot], SelectorNames(f.fmdlSections.value));
  }
}
