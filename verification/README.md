# NintenTools core, modelled in Dafny

This project models the file-format core of NintenTools, a toolkit for the
data files of Nintendo Wii U games:

- **Yaz0** (`Yaz0File.cs` and the importer's `yaz0.py`): the 16-byte header
  (`"Yaz0"`, the big-endian decompressed size, eight padding bytes), then
  groups of one control byte and eight tokens. A set bit is a literal byte;
  a clear bit is a two- or three-byte back-reference that copies from the
  output, possibly re-reading bytes the same copy has just written.
- **BFRES** (`BfresFile`, `BfresOffset`, `BfresNameOffset`,
  `BfresIndexGroup`): the header, the twelve index-group offsets and
  counts, self-relative offsets, names stored as zero-terminated strings
  behind a pointer, and the binary-search trees of the index groups.
- **The model section FMDL** and its subsections: the skeleton FSKL and its
  bones, the vertex buffers FVTX with their attributes and packed vertex
  formats, the shapes FSHP with their LOD models, index buffers and
  visibility trees, and the materials FMAT with render parameters, shader
  parameters and texture selectors. These follow both the C# library and
  the Blender importer (`bfres_fmdl.py`), where they read the same bytes.
- **BYAML** (`ByamlFile.cs` and `ByamlNode.cs`): the node tree (arrays,
  dictionaries, string and path arrays, scalars), its list and dictionary
  operations, the reader (header, name, string and path tables, nodes read
  in place or at an offset), and the writer (collection of the tables,
  ordinal sorting, the type-and-length word, the table sections).

Every file is a `seq<byte>`; every reader is a pure function from the bytes
and a position to a `Result`, whose error cases are the exceptions and
short reads of the program. Integers are unbounded and the 16- and 32-bit
words of the formats are written out as explicit byte arithmetic. Floats
are kept as their 32-bit patterns. Warnings the loaders print become a
returned list (`Warnings`).

Each module has partners for its operations: round trips (`Yaz0Tokens.DecompressTokens`,
`Yaz0.CompressLiteralsRoundTrip`, `Bytes.Encode32OfU32`,
`FvtxVertexData.Unpack10OfPack`, `ByamlRoundTrip.WriteReadsTables`), the
writer's bytes against the reader's layout (`ByamlContents.ContentsLaidOut`,
`ByamlFileRoot.WrittenRootLaidOut`),
layout lemmas that place each field at its offset, loop methods proved
equal to the functional readers, and the BYAML node operations checked
against one another (`ByamlNode.GetAfterRemoveKey` and the like).

## Model

| member | source | states |
|---|---|---|
| Bytes.U16OfBytes | Blender/io_scene_bfres/binary_io.py:37-38 | a 16-bit read splits back into its two bytes: high byte first in big-endian order, low byte first in little-endian order |
| Bytes.Encode16OfU16 | Blender/io_scene_bfres/binary_io.py:37-38 | decoding two bytes as `H` loses nothing: encoding the value in the same order gives the same bytes |
| Bytes.Encode32OfU32 | Blender/io_scene_bfres/binary_io.py:43-44 | decoding four bytes as `I` loses nothing, in either byte order |
| Bytes.ToInt32 | Blender/io_scene_bfres/binary_io.py:31-32 | the two's-complement reading of a 32-bit word lies in [-2^31, 2^31), is negative exactly when the top bit is set, and wraps back to the word |
| Bytes.Wrap32 | src/Syroot.NintenTools/Bfres/BfresOffset.cs:36-41 | the unchecked `(uint)` cast: unchanged in range, shifted by 2^32 one wrap below or above |
| BinaryReader.Open | Blender/io_scene_bfres/binary_io.py:6-8 | a new reader is at position 0 and reads little-endian |
| BinaryReader.WithOrder | Blender/io_scene_bfres/binary_io.py:8 | setting `endianness` changes the byte order and nothing else |
| BinaryReader.Seek | Blender/io_scene_bfres/binary_io.py:10-14 | after `seek`, `tell` returns the target; the data and byte order are unchanged |
| BinaryReader.ReadByte | Blender/io_scene_bfres/binary_io.py:22-23 | succeeds exactly when a byte remains, returns the byte at the position and moves past it |
| BinaryReader.ReadU16 | Blender/io_scene_bfres/binary_io.py:37-38 | succeeds exactly when two bytes remain, returns their value in the reader's order and moves two on |
| BinaryReader.ReadU32 | Blender/io_scene_bfres/binary_io.py:43-44 | succeeds exactly when four bytes remain, returns their value and moves four on |
| BinaryReader.ReadBytes | Blender/io_scene_bfres/binary_io.py:25-26 | returns `count` bytes, or only the bytes that are left at the end of the data, and moves past what it returned |
| BinaryReader.ReadRawString | Blender/io_scene_bfres/binary_io.py:75-76 | the bytes as read when they all decode as ASCII; a byte of 0x80 or more makes the decode fail |
| BinaryReader.ReadTag | Blender/io_scene_bfres/bfres_fmdl.py:7-8 | the section tag check passes exactly when the four bytes at the position are the tag, and then moves four on |
| BinaryReader.ReadU16s | Blender/io_scene_bfres/binary_io.py:40-41 | `count` values in the reader's order, element `i` taken `2 * i` bytes on; a short run fails as a whole, while a count of 0 reads nothing and succeeds wherever the cursor stands |
| BinaryReader.ReadWords | Blender/io_scene_bfres/binary_io.py:34-35 | `count` 32-bit words one after another (floats kept as bits); a short run fails |
| BinaryReader.ReadU16sOneByOne | Blender/io_scene_bfres/bfres_fmdl.py:91-92 | reading the indices one at a time in a loop gives the same values and end position as one `read_uint16s` run, including for a count of 0 past the end of the data |
| BinaryReader.ZeroTerminatedAt | Blender/io_scene_bfres/binary_io.py:78-84 | the bytes before the first 0 from the position on: they are zero-free and a 0 follows them; it fails exactly when no 0 remains |
| BinaryReader.Read0String | Blender/io_scene_bfres/binary_io.py:78-84 | `read_0_string` returns the zero-free bytes up to the first 0 and consumes that 0 too |
| BinaryReader.Read0StringLoop | Blender/io_scene_bfres/binary_io.py:78-84 | the byte-by-byte loop returns what `Read0String` returns, including the failure at the end of the data |
| BinaryReader.ZeroTerminatedFound | Blender/io_scene_bfres/binary_io.py:78-84 | any zero-free run that is followed by a 0 is exactly the zero-terminated string there |
| Records.ReadArray | Blender/io_scene_bfres/bfres_fmdl.py:36-38 | `for i in range(count)` records, one after another: `count` values when it succeeds |
| Records.FixedSizeArray | Blender/io_scene_bfres/bfres_fmdl.py:36-38 | for records of a fixed size the loop is positional: record `i` is the one `size * i` bytes on, and the run succeeds exactly when each of them does |
| Records.FixedSizeArrayError | Blender/io_scene_bfres/bfres_fmdl.py:36-38 | a failed run fails with the error of the first record that cannot be read, all the records before it reading |
| Warnings.Expect | src/Syroot.NintenTools/Bfres/BfresFile.cs:185-189 | no warning exactly when the value is one of the expected ones, otherwise one "unexpected value" warning naming the field and the value |
| FmdlSection.ReadHeader | Blender/io_scene_bfres/bfres_fmdl.py:5-20 | the "FMDL" tag, the name offset and the fields in place; fails with the tag error when the tag is wrong, with a short read otherwise, and moves 0x2C on |
| FmdlSection.ReadParameter | Blender/io_scene_bfres/bfres_fmdl.py:22-27 | the name offset, the two 16-bit fields at 4 and 6 and the float at 8 (as bits) |
| FmdlSection.LoadParams | Blender/io_scene_bfres/bfres_fmdl.py:45-48 | the user parameter group is present exactly when its offset is set, and is then the index group at that offset |
| FmdlSection.ReadFvtxArray | Blender/io_scene_bfres/bfres_fmdl.py:34-38 | `fvtx_count` vertex sections read one after another from the vertex array offset |
| FmdlSection.SectionAt | Blender/io_scene_bfres/bfres_fmdl.py:31-48 | each part is what its own reader finds at the offset the header gives; a failing skeleton read fails the section with its error |
| FmdlSection.ReadSection | Blender/io_scene_bfres/bfres_fmdl.py:29-48 | the header, then the parts at the header's offsets; a header error is the section's error |
| FmdlSection.FvtxArrayAt | Blender/io_scene_bfres/bfres_fmdl.py:35-38 | the vertex sections form an array: section `i` is read 32 * i bytes after the array offset, and the cursor is behind it afterwards |
| FmdlSection.NoParamsWhenUnset | Blender/io_scene_bfres/bfres_fmdl.py:45-48 | a loaded section has no parameter group exactly when the parameter offset is not set |
| FsklSubsection.ReadHeader | Blender/io_scene_bfres/bfres_fmdl.py:51-64 | the "FSKL" tag and 32 bytes of fields; fails with the tag error or a short read, and moves 32 on |
| FsklSubsection.ReadBone | Blender/io_scene_bfres/bfres_fmdl.py:66-81 | a 64-byte bone: succeeds exactly when the 64 bytes and the name are there, and moves 64 on |
| FsklSubsection.BoneAgrees | Blender/io_scene_bfres/bfres_fmdl.py:66-81 | the importer and the C# loader read the same bone from the same bytes: name, index, the four indices, transform, and a zero padding exactly when the loader warns nothing |
| FsklSubsection.ReadSubsection | Blender/io_scene_bfres/bfres_fmdl.py:83-97 | the bone group at its offset, `inv_count + extra_index_count` indices and `inv_count` matrices read at their offsets; an empty index run succeeds at any offset |
| FsklSubsection.MatrixArrayAt | Blender/io_scene_bfres/bfres_fmdl.py:94-97 | matrix `i` of a run is the twelve words 48 * i bytes after the start |
| FsklSubsection.InverseMatricesAt | Blender/io_scene_bfres/bfres_fmdl.py:94-97 | the loaded inverse matrices are the twelve words 48 * i bytes after the matrix array offset |
| FvtxSubsection.ReadHeader | Blender/io_scene_bfres/bfres_fmdl.py:100-112 | the "FVTX" tag and 32 bytes of fields; fails with the tag error or a short read, and moves 32 on |
| FvtxSubsection.ReadAttribute | Blender/io_scene_bfres/bfres_fmdl.py:124-129 | a 12-byte attribute record, failing only on a short read |
| FvtxSubsection.AttributeWord | Blender/io_scene_bfres/bfres_fmdl.py:126-128 | `v >> 24` and `v & 0xFFFFFF` together give back the stored word, so the split loses nothing |
| FvtxSubsection.AttributeAgrees | Blender/io_scene_bfres/bfres_fmdl.py:124-129 | where the C# loader also reads the attribute, both find the same name offset, element offset and format, while the loader's buffer index is always 0 |
| FvtxSubsection.ReadBuffer | Blender/io_scene_bfres/bfres_fmdl.py:131-144 | the 24-byte record, its size and data offset, and `size` bytes (or what is left) read at the data offset, the cursor put back behind the record |
| FvtxSubsection.ReadSubsection | Blender/io_scene_bfres/bfres_fmdl.py:146-158 | the attribute group at its offset and `buffer_count` buffers from the buffer array, the cursor put back behind the 32-byte header |
| FvtxSubsection.SubsectionFixedSize | Blender/io_scene_bfres/bfres_fmdl.py:157-158 | whatever a vertex section points at, reading it moves the cursor by exactly its 32-byte header |
| BfresOffset.ReadOffset | src/Syroot.NintenTools/Bfres/BfresOffset.cs:36-41 | an offset field needs four bytes and then moves four on; its address is the field's own position, its value a signed 32-bit integer, and its target the address plus the value wrapped to 32 bits |
| BfresOffset.OffsetAt | src/Syroot.NintenTools/Bfres/BfresOffset.cs:36-41 | the offset taken in place at a position is exactly what reading at that position yields |
| BfresOffset.OffsetValue | src/Syroot.NintenTools/Bfres/BfresOffset.cs:39 | the value is the field read as two's complement: negative exactly when its top bit is set |
| BfresOffset.TargetWithoutWrap | src/Syroot.NintenTools/Bfres/BfresOffset.cs:40 | when the sum fits in 32 bits the target is exactly the field position plus the value, backwards offsets included |
| BfresOffset.EmptyOffset | src/Syroot.NintenTools/Bfres/BfresOffset.cs:48-54 | `IsEmpty` holds exactly when the four stored bytes are zero, and exactly when the offset points at its own field |
| BfresOffset.ReadNameOffset | src/Syroot.NintenTools/Bfres/BfresNameOffset.cs:46-58 | the name is the zero-free run at the offset's target, followed by a 0; reading fails exactly when the field is short or no 0 follows the target; the cursor ends behind the four-byte field |
| BfresOffset.EmptyNameOffset | src/Syroot.NintenTools/Bfres/BfresNameOffset.cs:65-71 | an empty name offset points at its own zero field, so its name is empty and reading it cannot fail |
| BfresIndexGroup.ReadNode | Vibeware.NintenTools/Bfres/BfresIndexGroupNode.cs:120-130 | a node needs its 16 bytes and moves 16 on; failures are short reads |
| BfresIndexGroup.NodeLayout | Vibeware.NintenTools/Bfres/BfresIndexGroupNode.cs:120-130 | the search value at 0, the child indices at 4 and 6, the name offset at 8 and the data pointer at 12; reading fails exactly when the 16 bytes are missing or the name has no terminator |
| BfresIndexGroup.ArrayLength | src/Syroot.NintenTools/Bfres/BfresIndexGroup.cs:137 | `(int)NodeCount + 1`: one more than the count below 0x7FFFFFFF, negative from there up to 0xFFFFFFFE, and zero for 0xFFFFFFFF |
| BfresIndexGroup.ReadNodes | src/Syroot.NintenTools/Bfres/BfresIndexGroup.cs:138-141 | the loop reads `count` nodes; node `i` is the one 16 * i bytes on, and the run succeeds exactly when each node can be read |
| BfresIndexGroup.ReadIndexGroup | src/Syroot.NintenTools/Bfres/BfresIndexGroup.cs:129-142 | the length and node count words, then `(int)NodeCount + 1` nodes, the reference node first; a negative array size fails as `NegativeCount` |
| BfresIndexGroup.NodeByName | src/Syroot.NintenTools/Bfres/BfresIndexGroup.cs:76-90 | the string indexer returns a node with that name from the array, and returns nothing exactly when no node has the name |
| BfresIndexGroup.IndexOfName | src/Syroot.NintenTools/Bfres/BfresIndexGroup.cs:112-125 | the smallest index holding the name: every node before it has another name, and there is none exactly when no node has it |
| BfresIndexGroup.GetIndexByName | src/Syroot.NintenTools/Bfres/BfresIndexGroup.cs:112-125 | the loop returns the first index whose node has the name, or null exactly when no node has it |
| BfresIndexGroup.LookupsAgree | src/Syroot.NintenTools/Bfres/BfresIndexGroup.cs:76-125 | the string indexer and `GetIndexByName` agree: the node found is the node at the index found, and both find nothing together |
| BfresIndexGroup.IndexOfNameShift | src/Syroot.NintenTools/Bfres/BfresIndexGroup.cs:115-122 | scanning from index `k` is scanning the array with its first `k` nodes dropped, every index shifted by `k` |
| BfresIndexGroup.NodeAt | src/Syroot.NintenTools/Bfres/BfresIndexGroup.cs:97-103 | the integer indexer returns the node as read, and fails with an out-of-range error exactly outside the array |
| BfresIndexGroup.LoadEntries | src/Syroot.NintenTools/Bfres/BfresFile.cs:318-324 | one entry per data node from index 1 on, in node order, each decoded at its node's data pointer; the run fails exactly when one of those decodes fails |
| BfresIndexGroup.LoadCollection | Blender/io_scene_bfres/bfres_fmdl.py:39-44 | `IndexGroup(reader, loader)`: the group at the cursor, then one entry per data node (the reference node skipped), entry `i` decoded at node `i + 1`'s pointer; it fails exactly when the group or one of the entries fails |
| BfresFile.ByteOrderOf | src/Syroot.NintenTools/Bfres/BfresFile.cs:209-213 | the byte-order mark is defined exactly for 0xFEFF (big-endian) and 0xFFFE (little-endian); every other value is rejected |
| BfresFile.HeaderAt | src/Syroot.NintenTools/Bfres/BfresFile.cs:222-233 | the twelve group offsets are the offsets at 0x20 + 4 * i and the twelve counts the half-words at 0x50 + 2 * i, read big-endian |
| BfresFile.ReadHeader | src/Syroot.NintenTools/Bfres/BfresFile.cs:176-233 | the header reads exactly when the "FRES" tag, all 0x68 bytes, a defined byte-order mark and a terminated file name are there; a wrong tag fails first as `BadMagic`, then an undefined mark as `InvalidByteOrder` |
| BfresFile.HeaderWarnings | src/Syroot.NintenTools/Bfres/BfresFile.cs:185-219 | no header warning exactly when bytes 4 to 7 and the half-word at 0x0A all hold accepted values; at most one warning per field |
| BfresFile.CountWarningsAppend | src/Syroot.NintenTools/Bfres/BfresFile.cs:250-254 | loading one more slot appends its count warning, carrying the header's count, exactly when that count differs from the group's node count minus one |
| BfresFile.CountWarningsExact | src/Syroot.NintenTools/Bfres/BfresFile.cs:236-258 | no count warnings exactly when every slot's count agrees with its group; every mismatching slot is warned about, at most one warning per slot |
| BfresFile.LoadGroups | src/Syroot.NintenTools/Bfres/BfresFile.cs:235-258 | every slot holds the group at its offset, or none when the offset is empty, with the count warnings in slot order; the first slot whose group cannot be read ends the load with that group's error |
| BfresFile.LoadFmdlSubsections | src/Syroot.NintenTools/Bfres/BfresFile.cs:314-325 | one model section per data node, node `i + 1` giving section `i`; a group without nodes fails with a negative list capacity; otherwise the load fails exactly when one section fails, with that section's error |
| BfresFile.LoadSubsections | src/Syroot.NintenTools/Bfres/BfresFile.cs:266-338 | model sections exist exactly when slot 0 has a group; an empty group in slot 0 or 1 fails with a negative capacity; the only warning is the one for a group in slot 7 |
| BfresFile.Load | src/Syroot.NintenTools/Bfres/BfresFile.cs:172-260 | a header error is the load's error; a loaded file holds the header as read, each slot's group, the model sections of slot 0, and the warnings in the loader's order: header fields, slot counts, then slot 7 |
| BfresFile.LinkSelectorMeaning | src/Syroot.NintenTools/Bfres/BfresFile.cs:408-417 | a link to texture `k` means node `k + 1` is the first node with the selector's name; no link means no node has the name; a name first held by the reference node indexes `-1` and fails; without a texture group the lookup fails on null |
| BfresFile.UnknownWarningsAppend | src/Syroot.NintenTools/Bfres/BfresFile.cs:409-412 | linking one more selector appends the unknown-texture warning exactly when it found nothing |
| BfresFile.UnknownWarningsCount | src/Syroot.NintenTools/Bfres/BfresFile.cs:406-418 | there are exactly as many warnings as selectors left unlinked, and each is the unknown-texture warning |
| BfresFile.LinkOne | src/Syroot.NintenTools/Bfres/BfresFile.cs:408-417 | linking one selector by `GetIndexByName` and `[index - 1]` gives the link whose meaning `LinkSelectorMeaning` states |
| BfresFile.LinkSelectors | src/Syroot.NintenTools/Bfres/BfresFile.cs:406-418 | every name is linked in turn, link `i` belonging to name `i`, with one warning per unlinked name in order; the loop fails exactly when some name cannot be linked, with that name's error |
| BfresFile.SatisfyTextureSelectors | src/Syroot.NintenTools/Bfres/BfresFile.cs:394-421 | every selector of every material of every model section, in visiting order, is linked through slot 1's group; without model sections the loop fails on null |
| FmatMaterialParameter.TypeOfTag | Syroot.NintenTools/Bfres/Fmdl/FmatMaterialParameter.cs:87-91 | `Enum.IsDefined`: a stored byte names a type exactly when it is one of 0x04, 0x0C, 0x0D, 0x0E, 0x0F, 0x1E, and then the type whose tag it is |
| FmatMaterialParameter.TypeTagRoundTrip | Syroot.NintenTools/Bfres/Fmdl/FmatMaterialParameter.cs:218-248 | the six enumeration values are distinct: each type's tag names that type back |
| FmatMaterialParameter.RowsOfColumns | Syroot.NintenTools/Bfres/Fmdl/FmatMaterialParameter.cs:128-136 | the six floats stored as m11, m21, m12, m22, m13, m23 become the matrix whose row `i`, column `j` is stored word `2 * j + i` |
| FmatMaterialParameter.ColumnsOfRows | Syroot.NintenTools/Bfres/Fmdl/FmatMaterialParameter.cs:128-136 | the storage order of a row-major matrix: word `2 * j + i` is row `i`, column `j` |
| FmatMaterialParameter.ReorderRoundTrip | Syroot.NintenTools/Bfres/Fmdl/FmatMaterialParameter.cs:128-136 | the matrix reordering loses nothing: storing and reading the six words give them back, both ways round |
| FmatMaterialParameter.ReadValue | Syroot.NintenTools/Bfres/Fmdl/FmatMaterialParameter.cs:110-137 | the value at the stored offset succeeds exactly when the type's whole value is inside the data block: a signed integer, one to four floats, or the reordered matrix |
| FmatMaterialParameter.ReadParameter | Syroot.NintenTools/Bfres/Fmdl/FmatMaterialParameter.cs:83-137 | a loaded parameter covers its 20-byte record and moves past it, and warns exactly when its two index fields differ |
| FmatMaterialParameter.ParameterReads | Syroot.NintenTools/Bfres/Fmdl/FmatMaterialParameter.cs:93-110 | once the type byte names a type, the load is the record in place, failing first on the name and then on the value |
| FmatMaterialParameter.ParameterLayout | Syroot.NintenTools/Bfres/Fmdl/FmatMaterialParameter.cs:83-137 | a type byte naming no type fails with `InvalidType` before anything else; the load succeeds exactly when the record, a terminated name and the whole value are there; the value is the one at the stored offset |
| FmatMaterialParameter.ParameterLoaded | Syroot.NintenTools/Bfres/Fmdl/FmatMaterialParameter.cs:83-107 | a loaded parameter is the record in place, with the type its tag names and the name behind its offset |
| FmatSubsection.ReadHeader | Blender/io_scene_bfres/bfres_fmdl.py:262-285 | the header reads exactly when the "FMAT" tag, 0x48 bytes and a terminated name are there, and moves 0x48 on; a wrong tag is a tag error, anything else a short read |
| FmatSubsection.ReadRenderParameterAsWritten | Blender/io_scene_bfres/bfres_fmdl.py:293-304 | the record reads exactly when its 8 bytes and name are there, and its value is then always absent, since line 299 compares the built-in `type` |
| FmatSubsection.ReadRenderValue | Blender/io_scene_bfres/bfres_fmdl.py:299-304 | type 0 is eight bytes, read leniently; type 1 is two floats, needing 8 bytes; type 2 a name offset; any other type has no value |
| FmatSubsection.ReadRenderParameter | Blender/io_scene_bfres/bfres_fmdl.py:293-304 | the intended record: the same fields as read as written, with the value its stored type byte names; it fails exactly when either part fails |
| FmatSubsection.RenderValueLost | Blender/io_scene_bfres/bfres_fmdl.py:299 | a type-2 parameter naming "A" has no value read as written, and has the name "A" as intended |
| FmatSubsection.ReadMaterialStructureAsWritten | Blender/io_scene_bfres/bfres_fmdl.py:306-320 | the structure never loads: a short file fails within the first 32 bytes, and otherwise the call to the undefined `read_uint32s` fails |
| FmatSubsection.ReadMaterialStructure | Blender/io_scene_bfres/bfres_fmdl.py:306-320 | the intended structure reads exactly when its 48 bytes are there, its last field the four words at 0x20; where it would get that far, the as-written one fails at the missing method |
| FmatSubsection.StringsLoaded | Blender/io_scene_bfres/bfres_fmdl.py:334-341 | each string of a shader group is the zero-terminated string its data node points at, one per data node |
| FmatSubsection.ReadShaderControl | Blender/io_scene_bfres/bfres_fmdl.py:323-341 | the structure reads exactly when its 28 bytes, both names and its three string groups are there, and is then the structure in place |
| FmatSubsection.ShaderControlAt | Blender/io_scene_bfres/bfres_fmdl.py:324-341 | the three group offsets are the offsets at 16, 20 and 24, and each group is the string group at its offset; it fails exactly when one of them fails |
| FmatSubsection.LoadStringGroups | Blender/io_scene_bfres/bfres_fmdl.py:334-341 | the three string groups are loaded in turn; the result fails exactly when one fails, and otherwise holds each group |
| FmatSubsection.ReadTextureSelector | Blender/io_scene_bfres/bfres_fmdl.py:344-346 | an 8-byte record, needing a terminated name, moving 8 on |
| FmatSubsection.TextureSelectorsAt | Blender/io_scene_bfres/bfres_fmdl.py:403-406 | selector `i` of the array is the record 8 * i bytes after the array offset |
| FmatSubsection.ToInt8 | Blender/io_scene_bfres/bfres_fmdl.py:354 | the signed reading of a byte lies in [-128, 128), is negative exactly from 0x80 on, and wraps back to the byte |
| FmatSubsection.ReadTextureAttributeSelectorAsWritten | Blender/io_scene_bfres/bfres_fmdl.py:349-354 | the selector never loads: four bytes, then the call to the undefined `read_sbyte` fails |
| FmatSubsection.ReadTextureAttributeSelector | Blender/io_scene_bfres/bfres_fmdl.py:349-362 | the intended 24-byte selector: the byte at 4 read signed, and the last word split into the index (its top byte) and a 24-bit rest that together give the word back |
| FmatSubsection.ReadMaterialParameter | Blender/io_scene_bfres/bfres_fmdl.py:373-381 | the 20-byte record in place with the name behind its offset, with no check of the type byte |
| FmatSubsection.MaterialParameterAgrees | Blender/io_scene_bfres/bfres_fmdl.py:373-381 | wherever the C# loader reads a material parameter, the importer reads the same type tag, value offset, indices and name |
| FmatSubsection.MaterialParameterRead | Blender/io_scene_bfres/bfres_fmdl.py:373-381 | with the 20 bytes there and the name read, the importer's record is the one taken in place |
| FmatSubsection.FieldsMatch | Blender/io_scene_bfres/bfres_fmdl.py:374-381 | the importer's and the C# loader's records taken from the same bytes agree on every shared field |
| FmatSubsection.ReadShadowParameter | Blender/io_scene_bfres/bfres_fmdl.py:384-389 | a 12-byte record with a terminated name; its value is the word at 8 |
| FmatSubsection.LoadShadowParams | Blender/io_scene_bfres/bfres_fmdl.py:417-419 | the shadow group is present exactly when its offset is set, and is then the group of shadow parameters at that offset |
| FmatSubsection.ReadShading | Blender/io_scene_bfres/bfres_fmdl.py:393-401 | the render parameters, the material structure and the shader control are each read at their header offsets; the first failure is the error |
| FmatSubsection.ReadBindings | Blender/io_scene_bfres/bfres_fmdl.py:402-419 | `texture_selector_count` selectors from their array, the two groups at their offsets, `material_param_data_size` bytes of data, and the shadow group when set |
| FmatSubsection.ReadSubsectionWith | Blender/io_scene_bfres/bfres_fmdl.py:391-419 | the header, then shading and bindings read at the header's offsets; a wrong tag and a shading failure are the section's error |
| FmatSubsection.SubsectionAt | Blender/io_scene_bfres/bfres_fmdl.py:393-419 | once the header is read, the section keeps it, and its parts are the shading and bindings at its offsets |
| FmatSubsection.ReadSubsectionAsWritten | Blender/io_scene_bfres/bfres_fmdl.py:391-419 | the section as written never loads |
| FmatSubsection.NoMaterialLoads | Blender/io_scene_bfres/bfres_fmdl.py:396-398 | as written, whenever the header and render parameters load and 32 bytes of structure are there, the section fails at the missing `read_uint32s` |
| FmatSubsection.ReadSubsection | Blender/io_scene_bfres/bfres_fmdl.py:391-419 | the intended section: the header read, the shading with the intended render parameter and structure readers, the bindings with the intended selector reader |
| FshpIndexBuffer.IndexCount | Vibeware.NintenTools/Bfres/Fmdl/FshpIndexBuffer.cs:69 | `(int)Size / 2`: half the size, rounded down, below 2^31; zero for 0xFFFFFFFF; negative exactly for the sizes 0x80000000 to 0xFFFFFFFE |
| FshpIndexBuffer.ReadBufferHeader | Vibeware.NintenTools/Bfres/Fmdl/FshpIndexBuffer.cs:47-57 | the 24-byte header reads exactly when its bytes are there; the size is the word at 4 and the data offset the offset at 20 |
| FshpIndexBuffer.ReadIndexBuffer | Vibeware.NintenTools/Bfres/Fmdl/FshpIndexBuffer.cs:47-70 | the buffer reads exactly when the header and a non-negative count are there and the count is 0 or all its indices are there; the indices are the 16-bit values at the data offset, and the cursor stays behind the header; a negative count fails as `NegativeCount` |
| FshpModel.ReadVisibilityGroup | Vibeware.NintenTools/Bfres/Fmdl/FshpVisibilityGroup.cs:44-48 | a group is the two words in place, needing 8 bytes |
| FshpModel.VisibilityGroupFixedSize | Vibeware.NintenTools/Bfres/Fmdl/FshpVisibilityGroup.cs:44-48 | reading a group always moves the cursor by exactly 8 bytes |
| FshpModel.ReadLodHeader | src/Syroot.NintenTools/Bfres/Fmdl/FshpLodModel.cs:75-102 | the 28-byte header reads exactly when its bytes are there, and moves 28 on |
| FshpModel.LodHeaderReads | src/Syroot.NintenTools/Bfres/Fmdl/FshpLodModel.cs:75-102 | the reads, one by one, give the header in place: the group count at 12, the offsets at 16 and 20, warnings from the fields at 0, 4 and 14 |
| FshpModel.ReadLodModel | src/Syroot.NintenTools/Bfres/Fmdl/FshpLodModel.cs:75-126 | the header, then `VisibilityGroupCount` groups from their offset and the index buffer at its offset, with the cursor put back behind the header |
| FshpModel.LodModelFixedSize | src/Syroot.NintenTools/Bfres/Fmdl/FshpLodModel.cs:104-109 | whatever a level of detail points at, reading it moves the cursor by exactly 28 bytes |
| FshpModel.ReadNodeRecord | src/Syroot.NintenTools/Bfres/Fmdl/FshpVisibilityNode.cs:83-92 | a 12-byte node record: the child indices at 0 and 2, the group index and count at 8 and 10 |
| FshpModel.NodeRecordFixedSize | src/Syroot.NintenTools/Bfres/Fmdl/FshpVisibilityNode.cs:83-92 | reading a node record always moves the cursor by exactly 12 bytes |
| FshpModel.ChildLink | Vibeware.NintenTools/Bfres/Fmdl/FshpModel.cs:199-206 | an index naming the node itself leaves the child unset; any other index links that node, and fails out of range exactly when there is no such node |
| FshpModel.GroupSlice | Vibeware.NintenTools/Bfres/Fmdl/FshpModel.cs:211-215 | the `count` groups from `index` on of the first level of detail; with a count of 0 nothing is read, otherwise it fails out of range exactly when there is no first level or the slice runs past it |
| FshpModel.LinkNode | Vibeware.NintenTools/Bfres/Fmdl/FshpModel.cs:195-220 | iteration `i` succeeds exactly when its links and slice resolve and its 24 range bytes are there; unresolved links fail out of range and missing ranges as a short read |
| FshpModel.LinkNodeFields | Vibeware.NintenTools/Bfres/Fmdl/FshpModel.cs:199-219 | a linked node's children are unset exactly where the record names the node itself; its groups are the record's slice; its positions are the six words `24 * i` past the range offset |
| FshpModel.LinkNodesFrom | Vibeware.NintenTools/Bfres/Fmdl/FshpModel.cs:194-220 | the linking loop gives one node per record, node `k` being iteration `k`, and succeeds exactly when every iteration does |
| FshpModel.LinkNodesFirstFailure | Vibeware.NintenTools/Bfres/Fmdl/FshpModel.cs:194-220 | a failing loop fails with the error of its first failing iteration |
| FshpModel.RecordsOf | Vibeware.NintenTools/Bfres/Fmdl/FshpModel.cs:186-191 | the records of the nodes, one each, in order |
| FshpModel.FirstLodGroups | Vibeware.NintenTools/Bfres/Fmdl/FshpModel.cs:214 | `LodModels[0].VisibilityGroups`, present exactly when there is a level of detail |
| FshpModel.ReadHeader | Vibeware.NintenTools/Bfres/Fmdl/FshpModel.cs:116-161 | a wrong tag is exactly the `BadMagic` case; the header reads exactly when the tag, 0x40 bytes and a terminated name are there; the indices and counts are at their offsets; the three checked fields warn in order |
| FshpModel.ReadNodeRecords | Vibeware.NintenTools/Bfres/Fmdl/FshpModel.cs:186-191 | `count` records, record `i` stored 12 * i bytes on, succeeding exactly when each of them can be read |
| FshpModel.LoadVisibilityNodes | Vibeware.NintenTools/Bfres/Fmdl/FshpModel.cs:183-221 | a count from 2^31 on fails the list capacity; a loaded node `i` has the record stored 12 * i bytes after the node offset and is what linking iteration `i` gives |
| FshpModel.ReadModel | Vibeware.NintenTools/Bfres/Fmdl/FshpModel.cs:116-233 | the header, then the levels of detail, the linked nodes, `VisibilityNodeCount` visibility indices and `SkeletonIndexArrayCount` skeleton offsets, each at its offset (an empty run at any offset), with the cursor behind the header |
| FshpSubsection.ReadHeader | Blender/io_scene_bfres/bfres_fmdl.py:161-183 | the header reads exactly when the "FSHP" tag, 0x40 bytes and a terminated name are there, and moves 0x40 on |
| FshpSubsection.ReadIndices | Blender/io_scene_bfres/binary_io.py:40-41 | `read_uint16s(size / 2)`: `size / 2` values when it succeeds; an even size succeeds exactly when its bytes are there; an odd size only when the data ends one byte short of it |
| FshpSubsection.ReadIndexBuffer | Blender/io_scene_bfres/bfres_fmdl.py:192-202 | the C# loader's 24-byte record, then the indices read at its data offset |
| FshpSubsection.IndexBufferAgrees | Blender/io_scene_bfres/bfres_fmdl.py:192-202 | for an even size below 2^31 the importer and the C# loader succeed on the same bytes and find the same indices |
| FshpSubsection.OddSizeRejected | Blender/io_scene_bfres/bfres_fmdl.py:202 | a size of 3 with data running past it fails in the importer, where the C# loader reads one index |
| FshpSubsection.ReadLodModel | Blender/io_scene_bfres/bfres_fmdl.py:204-223 | the 28-byte record, its groups read from their offset and its index buffer at its offset, with the cursor back behind the record |
| FshpSubsection.LodModelFixedSize | Blender/io_scene_bfres/bfres_fmdl.py:214-223 | whatever a level of detail points at, reading it moves the cursor by exactly 28 bytes |
| FshpSubsection.LodRecordAgrees | Blender/io_scene_bfres/bfres_fmdl.py:204-212 | the importer and the C# loader read the same point count, group count, offsets and skip count from a level of detail |
| FshpSubsection.ReadRange | Blender/io_scene_bfres/bfres_fmdl.py:234-237 | a range is six words, needing 24 bytes, moving 24 on |
| FshpSubsection.ReadTree | Blender/io_scene_bfres/bfres_fmdl.py:246-259 | `node_count` nodes, ranges and indices, the indices being the 16-bit values at their offset, which need not lie in the data when there are none |
| FshpSubsection.ReadSubsection | Blender/io_scene_bfres/bfres_fmdl.py:239-259 | the header, then `lod_count` levels of detail from their offset and the tree; a wrong tag fails the section |
| FshpSubsection.LodModelsAt | Blender/io_scene_bfres/bfres_fmdl.py:242-245 | since each level puts the cursor back, level `i` is the record 28 * i bytes after the array offset |
| FsklSkeleton.ReadBone | src/Syroot.NintenTools/Bfres/Fmdl/FsklBone.cs:156-173 | a bone covers its 64 bytes and moves past them |
| FsklSkeleton.ReadBoneFields | src/Syroot.NintenTools/Bfres/Fmdl/FsklBone.cs:161-173 | the fields behind the name cover 60 bytes and move past them |
| FsklSkeleton.BoneReads | src/Syroot.NintenTools/Bfres/Fmdl/FsklBone.cs:156-173 | with the 64 bytes and a terminated name there, the bone is the one taken in place |
| FsklSkeleton.BoneFieldsRead | src/Syroot.NintenTools/Bfres/Fmdl/FsklBone.cs:161-173 | with the 64 bytes there, the reads after the name give the bone in place |
| FsklSkeleton.BoneLayout | src/Syroot.NintenTools/Bfres/Fmdl/FsklBone.cs:156-173 | a bone reads exactly when its 64 bytes and a terminated name are there; the index is at 4, the four parent indices at 6, and the padding at 60 warns exactly when it is not zero |
| FsklSkeleton.BoneFixedSize | src/Syroot.NintenTools/Bfres/Fmdl/FsklBone.cs:156-173 | reading a bone always moves the cursor by exactly 64 bytes |
| FsklSkeleton.ReadMatrix | Vibeware.NintenTools/Bfres/Fmdl/FsklSkeleton.cs:133 | a 4x3 matrix is twelve words, moving 48 on |
| FsklSkeleton.ReadHeader | Vibeware.NintenTools/Bfres/Fmdl/FsklSkeleton.cs:46-85 | a wrong tag is exactly the `BadMagic` case; the header reads exactly when the tag and 0x24 bytes are there; the three counts are at 8, 10 and 12; the checked fields and the padding warn in order |
| FsklSkeleton.LastWrite | Vibeware.NintenTools/Bfres/Fmdl/FsklSkeleton.cs:138-141 | the last loop position naming a bone: it names the bone and no later position does; there is none exactly when no position names it |
| FsklSkeleton.MapInverseFrom | Vibeware.NintenTools/Bfres/Fmdl/FsklSkeleton.cs:138-141 | the mapping loop from `i` on succeeds exactly when the arrays exist, are long enough and every index names a bone; each bone then holds the matrix of its last write from `i` on, or what it held before |
| FsklSkeleton.MapInverse | Vibeware.NintenTools/Bfres/Fmdl/FsklSkeleton.cs:138-141 | each bone receives the matrix of the last inverse index naming it, and bones no index names receive none; a missing array or an index out of range fails the loop |
| FsklSkeleton.ParentLinks | Vibeware.NintenTools/Bfres/Fmdl/FsklSkeleton.cs:146-154 | 0xFFFF is no parent and any other index is that bone; the links fail exactly when an index names no bone |
| FsklSkeleton.MapParents | Vibeware.NintenTools/Bfres/Fmdl/FsklSkeleton.cs:143-155 | every bone's parents in bone order; the loop fails on a bone array that was never loaded, or on an index naming no bone |
| FsklSkeleton.MapParentsFrom | Vibeware.NintenTools/Bfres/Fmdl/FsklSkeleton.cs:144-155 | the parent loop from bone `b` on gives each bone's links and fails exactly when one of them fails |
| FsklSkeleton.LoadGroup | Vibeware.NintenTools/Bfres/Fmdl/FsklSkeleton.cs:97-100 | the bone index group exists exactly when its offset is set, and is the group at that offset |
| FsklSkeleton.LoadBoneArray | Vibeware.NintenTools/Bfres/Fmdl/FsklSkeleton.cs:108-116 | with the offset set, `BoneCount` bones read one after another from it; with the offset empty, no array |
| FsklSkeleton.LoadInverseIndices | Vibeware.NintenTools/Bfres/Fmdl/FsklSkeleton.cs:119-124 | with the offset set, `InverseIndexCount` indices and, right behind them, `ExtraIndexCount` more, either run being empty at any offset; with the offset empty, none |
| FsklSkeleton.LoadInverseMatrices | Vibeware.NintenTools/Bfres/Fmdl/FsklSkeleton.cs:127-135 | with the offset set, `InverseIndexCount` matrices; with the offset empty, none |
| FsklSkeleton.LoadBones | Vibeware.NintenTools/Bfres/Fmdl/FsklSkeleton.cs:94-156 | a loaded skeleton needs the bone and inverse index arrays, holds `BoneCount` bones and the counted indices, maps the inverse matrices and parents, and warns about the bone count exactly when the group disagrees with it |
| FsklSkeleton.ReadSkeleton | Vibeware.NintenTools/Bfres/Fmdl/FsklSkeleton.cs:46-92 | a wrong tag fails as `BadMagic`; a loaded skeleton is the header then the bones, with the cursor behind the header |
| FvtxVertexAttribute.FormatOfTag | Vibeware.NintenTools/Bfres/Fmdl/FvtxVertexAttribute.cs:125-161 | a format word names a layout exactly when it is one of the seven tags, and then the layout with that tag |
| FvtxVertexAttribute.FormatTagRoundTrip | Vibeware.NintenTools/Bfres/Fmdl/FvtxVertexAttribute.cs:125-161 | the seven tags are distinct: each layout's tag names that layout back |
| FvtxVertexAttribute.Attribute.BufferIndex | Vibeware.NintenTools/Bfres/Fmdl/FvtxVertexAttribute.cs:115 | the buffer index the loader stores is 0 for every attribute |
| FvtxVertexAttribute.BufferIndexAsWrittenIsZero | Vibeware.NintenTools/Bfres/Fmdl/FvtxVertexAttribute.cs:115 | `(byte)(v & 0xFF000000)` is 0 for every word |
| FvtxVertexAttribute.BufferIndexAsWrittenLosesBuffer | Vibeware.NintenTools/Bfres/Fmdl/FvtxVertexAttribute.cs:115 | the word 0x01000004 names buffer 1, yet the stored index is 0 |
| FvtxVertexAttribute.OffsetOfWord | Vibeware.NintenTools/Bfres/Fmdl/FvtxVertexAttribute.cs:116 | `v & 0x00FFFFFF` lies below 2^24 |
| FvtxVertexAttribute.SplitJoin | Vibeware.NintenTools/Bfres/Fmdl/FvtxVertexAttribute.cs:114-116 | the high byte and the low 24 bits together give back the word, and a joined word splits back into its parts |
| FvtxVertexAttribute.ReadAttribute | Vibeware.NintenTools/Bfres/Fmdl/FvtxVertexAttribute.cs:107-119 | an attribute covers its 12 bytes and moves past them; failures are short reads |
| FvtxVertexAttribute.AttributeLayout | Vibeware.NintenTools/Bfres/Fmdl/FvtxVertexAttribute.cs:107-119 | an attribute reads exactly when its 12 bytes and a terminated name are there: the name offset at 0, the index and offset word at 4, the format at 8 |
| FvtxVertexAttribute.AttributeFixedSize | Vibeware.NintenTools/Bfres/Fmdl/FvtxVertexAttribute.cs:107-119 | reading an attribute always moves the cursor by exactly 12 bytes |
| FvtxVertexData.ReadDataHeader | src/Syroot.NintenTools/Bfres/Fmdl/FvtxVertexData.cs:145-155 | the 24-byte header reads exactly when its bytes are there: the size at 4, the stride at 12 and the data offset at 20 |
| FvtxVertexData.ReadVertexData | src/Syroot.NintenTools/Bfres/Fmdl/FvtxVertexData.cs:145-168 | the data reads exactly when the header does and `(int)Size` is not negative; a size from 2^31 on fails as `NegativeCount`; the cursor stays behind the header |
| FvtxVertexData.VertexDataBytes | src/Syroot.NintenTools/Bfres/Fmdl/FvtxVertexData.cs:164-168 | the data is the `Size` bytes at the data offset, or what is left of the input when it ends sooner |
| FvtxVertexData.UnpackAsWritten | src/Syroot.NintenTools/Bfres/Fmdl/FvtxVertexData.cs:127-130 | the three fields as the accessor takes them, each unsigned in [0, 1024) |
| FvtxVertexData.SignExtend10 | src/Syroot.NintenTools/Bfres/Fmdl/FvtxVertexData.cs:126 | a 10-bit field read as two's complement lies in [-512, 512) and is the field modulo 1024 |
| FvtxVertexData.Unpack10 | src/Syroot.NintenTools/Bfres/Fmdl/FvtxVertexData.cs:126 | the signed reading of the format's three 10-bit fields, each in [-512, 512) |
| FvtxVertexData.FieldsOfWord | src/Syroot.NintenTools/Bfres/Fmdl/FvtxVertexData.cs:126-130 | the top two bits and the three fields taken as written put together give the word back |
| FvtxVertexData.Unpack10OfPack | src/Syroot.NintenTools/Bfres/Fmdl/FvtxVertexData.cs:126-130 | packing a signed triple and unpacking it gives it back; unpacked as written, each field comes back modulo 1024 |
| FvtxVertexData.PackOfUnpack10 | src/Syroot.NintenTools/Bfres/Fmdl/FvtxVertexData.cs:126 | unpacking a word and packing it with its own top bits gives the word back |
| FvtxVertexData.UnpackAsWrittenMisreadsNegative | src/Syroot.NintenTools/Bfres/Fmdl/FvtxVertexData.cs:128-130 | the word 0x7FF00000 stores x = -1, but is unpacked as written as x = 1023 |
| FvtxVertexData.Vector2At | src/Syroot.NintenTools/Bfres/Fmdl/FvtxVertexData.cs:85-97 | format 0x80D gives two floats and 0x007 two 16-bit values, big-endian, each needing its bytes; any other format is rejected before anything is read |
| FvtxVertexData.Vector3At | src/Syroot.NintenTools/Bfres/Fmdl/FvtxVertexData.cs:120-136 | format 0x811 gives three floats, 0x20B the packed word's three fields unpacked as written; any other format is rejected before anything is read |
| FvtxVertexData.Vector3AtMisreadsNegative | src/Syroot.NintenTools/Bfres/Fmdl/FvtxVertexData.cs:128-130 | the element bytes 7F F0 00 00 come back from the accessor with x = 1023 where the signed reading is -1 |
| FvtxVertexData.ElementCountUnique | src/Syroot.NintenTools/Bfres/Fmdl/FvtxVertexData.cs:82 | the number of loop iterations is the one count of strides that covers the data while its last element still starts inside it |
| FvtxVertexData.ElementCountBound | src/Syroot.NintenTools/Bfres/Fmdl/FvtxVertexData.cs:82 | every element that starts inside the data is visited by the loop |
| FvtxVertexData.StridedRead | src/Syroot.NintenTools/Bfres/Fmdl/FvtxVertexData.cs:82-84 | no element for empty data; with a zero stride the first element is read forever, so it fails on it or never ends; with a positive stride one value per element in order, succeeding exactly when every element reads |
| FvtxVertexData.StepThrough | src/Syroot.NintenTools/Bfres/Fmdl/FvtxVertexData.cs:82-84 | with a positive stride, element `k` is read at `k * stride + offset`, and the loop fails with the error of a failing element |
| FvtxVertexData.GetAttributeDataAsVector2F | src/Syroot.NintenTools/Bfres/Fmdl/FvtxVertexData.cs:74-102 | empty data gives no values whatever the format; otherwise one value per element, each the value at its position; a wrong format fails with `UnsupportedFormat` |
| FvtxVertexData.GetAttributeDataAsVector3F | src/Syroot.NintenTools/Bfres/Fmdl/FvtxVertexData.cs:109-141 | the same loop for the three-component formats |
| Yaz0.CopyBack | Blender/io_scene_bfres/yaz0.py:42-49 | a back-reference appends exactly `length` bytes and leaves what was written before unchanged |
| Yaz0.ReadReference | Vibeware.NintenTools/Yaz0/Yaz0File.cs:98-113 | a reference token is 2 bytes with a non-zero top nibble (length nibble + 2, at most 17) and 3 bytes otherwise (third byte + 0x12); the distance is the low 12 bits of the 16-bit word; it fails exactly when the token's bytes are missing |
| Yaz0.EncodeReference | Blender/io_scene_bfres/yaz0.py:30-40 | the shortest token for a run: 2 bytes up to length 17, 3 bytes beyond |
| Yaz0.ReferenceRoundTrip | Blender/io_scene_bfres/yaz0.py:30-40 | every length from 3 to 0x111 and distance below 0x1000 is read back from its encoding, whatever follows it |
| Yaz0.Token | Vibeware.NintenTools/Yaz0/Yaz0File.cs:90-120 | a set bit copies the next input byte, and fails as truncated when none is left; a clear bit once the declared size is reached does nothing; the output only grows |
| Yaz0.Bits | Blender/io_scene_bfres/yaz0.py:22-49 | the bits of a control byte from 7 down to 0, never moving backwards and failing only as truncated or on a bad back-reference |
| Yaz0.Groups | Blender/io_scene_bfres/yaz0.py:19-49 | groups are decoded until at least the declared size is written |
| Yaz0.GroupsAfter | Blender/io_scene_bfres/yaz0.py:19-21 | the loop continues from the state the previous group left, writing at least the declared size |
| Yaz0.Decompress | Blender/io_scene_bfres/yaz0.py:7-52 | a file without the "Yaz0" tag is exactly the `BadMagic` case; a decoded file writes at least its declared size |
| Yaz0.CopyLoop | Vibeware.NintenTools/Yaz0/Yaz0File.cs:115-119 | the byte-by-byte copy, its source advancing with the output, is the back-reference `CopyBack` describes |
| Yaz0.GroupLoop | Vibeware.NintenTools/Yaz0/Yaz0File.cs:86-121 | the loop over the control byte's bits 7 down to 0 is the group decoding `Bits` describes |
| Yaz0.DecompressLoop | Vibeware.NintenTools/Yaz0/Yaz0File.cs:65-123 | the decompression loop from offset 16 computes what `Decompress` describes |
| Yaz0.CopyBackRepeats | Blender/io_scene_bfres/yaz0.py:42-49 | every byte a back-reference appends repeats the byte `distance + 1` before it, even one the same copy wrote |
| Yaz0.CopyBackUnique | Blender/io_scene_bfres/yaz0.py:42-49 | those repeats and the unchanged prefix determine the copy: any output with them is the copy |
| Yaz0.RunLength | Blender/io_scene_bfres/yaz0.py:42-49 | a back-reference at distance 0 repeats the last byte, whatever its length |
| Yaz0.PaddingIgnored | Blender/io_scene_bfres/yaz0.py:14 | the eight padding bytes of the header are skipped: changing them does not change the result |
| Yaz0.GroupsAgree | Blender/io_scene_bfres/yaz0.py:19-49 | two inputs that agree from the current position on decode alike: the loop never looks back at the input |
| Yaz0.BitsAgree | Blender/io_scene_bfres/yaz0.py:22-49 | the same for the bits of one group |
| Yaz0.BitsStayInBounds | Blender/io_scene_bfres/yaz0.py:22-49 | a group that decodes never leaves the input |
| Yaz0.LiteralControlBits | Blender/io_scene_bfres/yaz0.py:24 | `group_config & (1 << i)` tests bit `i`: the control byte for `m` literals has exactly its top `m` bits set |
| Yaz0.EncodeLiterals | Blender/io_scene_bfres/yaz0.py:19-27 | an uncompressed payload takes one control byte per eight bytes, rounded up |
| Yaz0.CompressLiterals | Vibeware.NintenTools/Yaz0/Yaz0File.cs:29-33 | a literal-only file is a 16-byte header followed by the encoded payload |
| Yaz0.LiteralBits | Blender/io_scene_bfres/yaz0.py:22-28 | `m` set bits above clear ones copy `m` input bytes, then stop at the declared size |
| Yaz0.GroupsStep | Blender/io_scene_bfres/yaz0.py:19-21 | below the declared size a group is read and the loop goes on from where it ended |
| Yaz0.OneLiteralGroup | Blender/io_scene_bfres/yaz0.py:19-28 | a group whose control byte has its top `m` bits set copies the `m` bytes after it |
| Yaz0.LiteralGroups | Blender/io_scene_bfres/yaz0.py:19-28 | decoding the literal encoding of a payload appends the payload and stops right after the encoding |
| Yaz0.CompressLiteralsRoundTrip | Blender/io_scene_bfres/yaz0.py:7-52 | decompressing a literal-only file gives back exactly its payload |
| Yaz0.RunLengthGroup | Blender/io_scene_bfres/yaz0.py:22-49 | the group 0x80, b, 00 00 00 writes b and then a run of 0x12 copies of it |
| Yaz0.RunLengthExample | Blender/io_scene_bfres/yaz0.py:41-49 | that file decompresses to 19 copies of b, because the back-reference re-reads bytes it has just written |
| Yaz0.SkipClearBits | Blender/io_scene_bfres/yaz0.py:28 | once the declared size is reached, clear bits read nothing and write nothing |
| Yaz0Tokens.Apply | Blender/io_scene_bfres/yaz0.py:24-49 | a token adds its width to the output, and fails exactly when it is a back-reference reaching before the start |
| Yaz0Tokens.Expand | Blender/io_scene_bfres/yaz0.py:19-49 | a token stream adds the widths of its tokens, failing only on a bad back-reference |
| Yaz0Tokens.ControlBits | Blender/io_scene_bfres/yaz0.py:22-24 | bit `i` of a control number is flag `7 - i` of its group, the first token going to the top bit |
| Yaz0Tokens.GroupControlBits | Blender/io_scene_bfres/yaz0.py:22-24 | bit `i` of a group's control byte is set exactly when token `7 - i` is a literal |
| Yaz0Tokens.Compress | Vibeware.NintenTools/Yaz0/Yaz0File.cs:29-33 | a token stream's file is the 16-byte header followed by its groups |
| Yaz0Tokens.DecompressTokens | Blender/io_scene_bfres/yaz0.py:7-52 | decompressing the encoding of any token stream gives what the tokens expand to, including the same failure for a bad back-reference |
| Yaz0Tokens.CompressedHeader | Vibeware.NintenTools/Yaz0/Yaz0File.cs:29-33 | the file starts with "Yaz0", declares the number of bytes the tokens write, and holds the encoding from offset 16 |
| Yaz0Tokens.LengthAppend | Blender/io_scene_bfres/yaz0.py:27-49 | the bytes two streams write in a row add up |
| Yaz0Tokens.ExpandAppend | Blender/io_scene_bfres/yaz0.py:19-49 | expanding two streams in a row is expanding their concatenation, a failure of the first ending it |
| Yaz0Tokens.ExpandLiterals | Blender/io_scene_bfres/yaz0.py:24-27 | a stream of literals expands to its bytes |
| Yaz0Tokens.CopyFirstFails | Vibeware.NintenTools/Yaz0/Yaz0File.cs:115-118 | a stream starting with a back-reference has nothing to copy from and fails with `BadBackReference` |
| ByamlNode.TypeCodes | src/Syroot.NintenTools/Byaml/ByamlNodeType.cs:6-52 | the collections are exactly the nodes typed 0xC0 to 0xC3, and no two kinds of node share a type code |
| ByamlNode.EqualsIsEquality | src/Syroot.NintenTools/Byaml/ByamlNode.cs:791-820 | without NaNs and negative zeros, `Equals` (same type, then the payloads, children and keys in order) holds exactly between equal nodes |
| ByamlNode.NaNNotEqualToItself | src/Syroot.NintenTools/Byaml/ByamlNode.cs:813-814 | a single compared with `==` makes a NaN node, and any collection holding one, unequal to itself |
| ByamlNode.DictionaryEqualityIsOrdered | src/Syroot.NintenTools/Byaml/ByamlNode.cs:807-808 | dictionaries are compared key list to key list and value list to value list in order, so the same entries in another order are not equal |
| ByamlNode.Count | src/Syroot.NintenTools/Byaml/ByamlNode.cs:234-249 | the number of children of a collection, a dictionary counting its entries; a scalar throws the node-type exception |
| ByamlNode.GetAt | src/Syroot.NintenTools/Byaml/ByamlNode.cs:153-165 | an array, string array or path array gives its child at an index in range, fails as out of range otherwise; any other node throws the node-type exception |
| ByamlNode.SetAt | src/Syroot.NintenTools/Byaml/ByamlNode.cs:166-177 | replaces exactly that child of a list, under the same conditions |
| ByamlNode.GetAfterSetAt | src/Syroot.NintenTools/Byaml/ByamlNode.cs:151-178 | after setting a position it reads back the new child, and every other position reads as before |
| ByamlNode.Get | src/Syroot.NintenTools/Byaml/ByamlNode.cs:187-202 | a dictionary gives the value at the first matching key and throws `KeyNotFoundException` exactly when the key is absent; any other node throws the node-type exception |
| ByamlNode.Set | src/Syroot.NintenTools/Byaml/ByamlNode.cs:203-221 | replaces the value of an existing key, keeping the keys and every other value; an absent key throws, it never adds one |
| ByamlNode.GetAfterSet | src/Syroot.NintenTools/Byaml/ByamlNode.cs:185-222 | after setting a key, getting it gives the new value, every other key gives what it gave, and the dictionary stays valid |
| ByamlNode.TryGetValue | src/Syroot.NintenTools/Byaml/ByamlNode.cs:1072-1090 | a dictionary reports the key's value, or nothing (false and a null value) when the key is absent |
| ByamlNode.TryGetValueAgreesWithGet | src/Syroot.NintenTools/Byaml/ByamlNode.cs:1072-1090 | it finds nothing exactly where the indexer throws `KeyNotFoundException`, and the indexer's value everywhere else |
| ByamlNode.Entries | src/Syroot.NintenTools/Byaml/ByamlNode.cs:262-291 | `Keys` and `Values` of a dictionary are two parallel lists, each key's value standing at its position; other nodes throw |
| ByamlNode.AddItem | src/Syroot.NintenTools/Byaml/ByamlNode.cs:576-586 | appends the child to an array; any other node throws |
| ByamlNode.Add | src/Syroot.NintenTools/Byaml/ByamlNode.cs:593-631 | appends the entry to a dictionary, and throws `ArgumentException` exactly when the key is already present |
| ByamlNode.GetAfterAdd | src/Syroot.NintenTools/Byaml/ByamlNode.cs:593-609 | after adding, the dictionary is valid and one longer, the new key gives the new value and the other keys what they gave |
| ByamlNode.AddString | src/Syroot.NintenTools/Byaml/ByamlNode.cs:637-647 | appends a string node to a string array; any other node throws |
| ByamlNode.AddPath | src/Syroot.NintenTools/Byaml/ByamlNode.cs:653-663 | appends a path node to a path array; any other node throws |
| ByamlNode.Clear | src/Syroot.NintenTools/Byaml/ByamlNode.cs:668-684 | any collection becomes empty, a dictionary losing its keys with its values; a scalar throws |
| ByamlNode.IndexWhere | src/Syroot.NintenTools/Byaml/ByamlNode.cs:845-854 | `List.IndexOf`: the first child that `Equals` the item, or -1 exactly when none does |
| ByamlNode.IndexOf | src/Syroot.NintenTools/Byaml/ByamlNode.cs:845-886 | the three overloads: the first equal child of an array, string array or path array, or -1; any other node throws |
| ByamlNode.Contains | src/Syroot.NintenTools/Byaml/ByamlNode.cs:691-748 | the overloads for nodes, strings and paths hold exactly when some child `Equals` the item, which is exactly when `IndexOf` finds one |
| ByamlNode.ContainsKey | src/Syroot.NintenTools/Byaml/ByamlNode.cs:755-764 | holds exactly when the key indexer would find the key; a node that is not a dictionary throws |
| ByamlNode.ContainsEntryAsWritten | src/Syroot.NintenTools/Byaml/ByamlNode.cs:707-716 | the key is somewhere among the keys and the value somewhere among the values, not necessarily together |
| ByamlNode.ContainsEntryAsWrittenMismatch | src/Syroot.NintenTools/Byaml/ByamlNode.cs:712 | {"a": 1, "b": 2} is reported to contain the pair ("a", 2), though "a" maps to 1 |
| ByamlNode.ContainsEntry | src/Syroot.NintenTools/Byaml/ByamlNode.cs:707-716 | the key is present and its own value `Equals` the given one |
| ByamlNode.ContainsEntryImpliesAsWritten | src/Syroot.NintenTools/Byaml/ByamlNode.cs:712 | every entry the corrected check finds the check as written finds too, and the pair ("a", 2) above is one it does not |
| ByamlNode.Insert | src/Syroot.NintenTools/Byaml/ByamlNode.cs:893-937 | puts the item before a position from 0 to the count, the other children keeping their order; a position outside throws, and a node of the wrong kind throws the node-type exception |
| ByamlNode.RemoveAt | src/Syroot.NintenTools/Byaml/ByamlNode.cs:1040-1052 | drops exactly the child at a position in range of a list |
| ByamlNode.RemoveAtUndoesInsert | src/Syroot.NintenTools/Byaml/ByamlNode.cs:893-937 | removing at the position just inserted at gives the node back |
| ByamlNode.Remove | src/Syroot.NintenTools/Byaml/ByamlNode.cs:946-955 | drops the first equal child and reports true exactly when `Contains` holds; otherwise the node is unchanged |
| ByamlNode.RemoveKey | src/Syroot.NintenTools/Byaml/ByamlNode.cs:996-1016 | drops a present key and the value at the same position, keeping the two lists parallel; reports whether it did |
| ByamlNode.GetAfterRemoveKey | src/Syroot.NintenTools/Byaml/ByamlNode.cs:1001-1009 | after removing a key the dictionary is valid, the key is absent and every other key gives its value |
| ByamlNode.RemoveEntry | src/Syroot.NintenTools/Byaml/ByamlNode.cs:964-987 | removes an entry exactly when the first entry with the key has the given value, and then as removing the key does |
| ByamlNode.AsString | src/Syroot.NintenTools/Byaml/ByamlNode.cs:380-387 | a string node gives its string and converting back gives the node; any other node throws |
| ByamlNode.AsPath | src/Syroot.NintenTools/Byaml/ByamlNode.cs:393-400 | the same for a path node |
| ByamlNode.AsList | src/Syroot.NintenTools/Byaml/ByamlNode.cs:406-413 | the same for an array's children |
| ByamlNode.AsBool | src/Syroot.NintenTools/Byaml/ByamlNode.cs:466-473 | the same for a boolean node |
| ByamlNode.AsInt | src/Syroot.NintenTools/Byaml/ByamlNode.cs:479-486 | the same for an integer node |
| ByamlNode.AsFloat | src/Syroot.NintenTools/Byaml/ByamlNode.cs:492-499 | the same for a float node |
| ByamlNode.FromDictionary | src/Syroot.NintenTools/Byaml/ByamlNode.cs:65-76 | the entries' keys and values in enumeration order, as two parallel lists |
| ByamlNode.AsDictionary | src/Syroot.NintenTools/Byaml/ByamlNode.cs:419-432 | the entries in order, produced exactly when there are enough keys and none repeats among those used; otherwise a key repeated before the keys run out throws `ArgumentException`, and only without such a repeat does running out of keys throw the index error |
| ByamlNode.AsDictionaryLoop | src/Syroot.NintenTools/Byaml/ByamlNode.cs:427-430 | the loop that reads `_keys[i]` and calls `Add` for each value index computes the same result and the same first error as `AsDictionary` |
| ByamlNode.DictionaryRoundTrip | src/Syroot.NintenTools/Byaml/ByamlNode.cs:65-76 | a dictionary with distinct keys converts to a valid node and back to the same entries |
| ByamlNode.FromStringList | src/Syroot.NintenTools/Byaml/ByamlNode.cs:82-91 | one string node per string, in order |
| ByamlNode.AsStringList | src/Syroot.NintenTools/Byaml/ByamlNode.cs:438-446 | a string array whose children are all string nodes converts to their strings; anything else throws |
| ByamlNode.StringListRoundTrip | src/Syroot.NintenTools/Byaml/ByamlNode.cs:82-91 | every string list survives the round trip through a string-array node |
| ByamlNode.FromPathList | src/Syroot.NintenTools/Byaml/ByamlNode.cs:97-106 | one path node per path, in order |
| ByamlNode.AsPathList | src/Syroot.NintenTools/Byaml/ByamlNode.cs:452-460 | a path array whose children are all path nodes converts to their paths; anything else throws |
| ByamlNode.PathListRoundTrip | src/Syroot.NintenTools/Byaml/ByamlNode.cs:97-106 | every path list survives the round trip through a path-array node |
| ByamlReader.Word | src/Syroot.NintenTools/Byaml/ByamlFile.cs:93-96 | a big-endian word where four bytes remain, a short read otherwise |
| ByamlReader.Align4 | src/Syroot.NintenTools/Byaml/ByamlFile.cs:199 | the first multiple of four at or after the position |
| ByamlReader.AsciiString | src/Syroot.NintenTools/Byaml/ByamlFile.cs:86 | the ASCII decoder: a byte below 0x80 is its character, any other byte is '?' |
| ByamlReader.StringAt | src/Syroot.NintenTools/Byaml/ByamlFile.cs:238 | a zero-terminated string is the ASCII decoding of the bytes before the first zero, and fails exactly when there is no zero |
| ByamlReader.PathAt | src/Syroot.NintenTools/Byaml/ByamlFile.cs:266-283 | `count` points of 28 bytes one after another, failing exactly when they do not fit |
| ByamlReader.ScalarNode | src/Syroot.NintenTools/Byaml/ByamlFile.cs:174-188 | a string or path index looked up in its table, null when the table was never read and out of range outside it; a boolean is any non-zero word; an integer its signed 32 bits; a single its bits |
| ByamlReader.ReadNode | src/Syroot.NintenTools/Byaml/ByamlFile.cs:122-190 | a node read from a slot leaves the reader at the slot's end and has the type it was given; a node read in place has the type byte it starts with; every node read is well formed |
| ByamlReader.ReadReference | src/Syroot.NintenTools/Byaml/ByamlFile.cs:130-170 | a collection of the given type, read at its offset with the reader returning to the slot's end |
| ByamlReader.ReadScalar | src/Syroot.NintenTools/Byaml/ByamlFile.cs:171-189 | a scalar takes exactly its 4-byte slot; any type outside the five scalar codes is refused |
| ByamlReader.ReadCollection | src/Syroot.NintenTools/Byaml/ByamlFile.cs:145-163 | the collection has the type it was read as and as many children as its length word says |
| ByamlReader.ReadElements | src/Syroot.NintenTools/Byaml/ByamlFile.cs:200-203 | the array loop keeps the elements read so far and yields exactly `length` well-formed elements |
| ByamlReader.ReadEntries | src/Syroot.NintenTools/Byaml/ByamlFile.cs:213-220 | the dictionary loop yields exactly `length` entries with distinct keys, the first ones those already read |
| ByamlReader.ReadStringArray | src/Syroot.NintenTools/Byaml/ByamlFile.cs:225-243 | `length` strings, string `i` standing at the node's start plus offset `i`; a short offset run fails |
| ByamlReader.PointCount | src/Syroot.NintenTools/Byaml/ByamlFile.cs:258 | the unsigned 32-bit difference of two offsets over 28, wrapping when the second is smaller |
| ByamlReader.ReadPathArray | src/Syroot.NintenTools/Byaml/ByamlFile.cs:245-264 | `length` paths from `length + 1` offsets, path `i` at offset `i` holding the points up to offset `i + 1` |
| ByamlReader.TableAt | src/Syroot.NintenTools/Byaml/ByamlFile.cs:99-100 | a table is the node read in place at its offset |
| ByamlReader.ReadTables | src/Syroot.NintenTools/Byaml/ByamlFile.cs:98-114 | the name table is always read; the string and path tables are read exactly when their offsets are not zero |
| ByamlReader.Read | src/Syroot.NintenTools/Byaml/ByamlFile.cs:83-120 | a file without "BY" is refused as bad magic, one of another version as unsupported; otherwise the tables are read and the root is the node read in place at the root offset |
| ByamlReader.ArrayLayout | src/Syroot.NintenTools/Byaml/ByamlFile.cs:192-206 | an array's types are the `length` bytes after its word, its elements are read from the next four-byte boundary, and with no zero type it ends `4 * length` bytes after it |
| ByamlReader.ElementsAreSlots | src/Syroot.NintenTools/Byaml/ByamlFile.cs:200-203 | element `k` is the node in the 4-byte slot `4 * k` bytes after the first |
| ByamlReader.ElementsEnd | src/Syroot.NintenTools/Byaml/ByamlFile.cs:200-203 | the array loop ends `4 * length` bytes after its first slot |
| ByamlReader.EntriesAreSlots | src/Syroot.NintenTools/Byaml/ByamlFile.cs:213-220 | entry `k` is the 8-byte record `8 * k` bytes on: its key is the name the upper 24 bits index, its value the node in the slot after the word |
| ByamlReader.EntriesEnd | src/Syroot.NintenTools/Byaml/ByamlFile.cs:213-220 | the dictionary loop ends `8 * length` bytes after its first record |
| ByamlReader.EntriesDone | src/Syroot.NintenTools/Byaml/ByamlFile.cs:213 | after `length` entries the loop stops where it stands |
| ByamlReader.NodeFuel | src/Syroot.NintenTools/Byaml/ByamlFile.cs:122-190 | more fuel never changes a successful read: the bound stands only for nesting the program would follow without end |
| ByamlReader.ReferenceFuel | src/Syroot.NintenTools/Byaml/ByamlFile.cs:133-169 | the same for a collection read at an offset |
| ByamlReader.CollectionFuel | src/Syroot.NintenTools/Byaml/ByamlFile.cs:145-163 | the same for a collection's body |
| ByamlReader.ElementsFuel | src/Syroot.NintenTools/Byaml/ByamlFile.cs:200-203 | the same for the array loop |
| ByamlReader.EntriesFuel | src/Syroot.NintenTools/Byaml/ByamlFile.cs:213-220 | the same for the dictionary loop |
| ByamlWriter.Collect | src/Syroot.NintenTools/Byaml/ByamlFile.cs:330-361 | collecting only adds to the tables, and keys and strings already listed once stay listed once |
| ByamlWriter.CollectCovers | src/Syroot.NintenTools/Byaml/ByamlFile.cs:330-361 | after collecting a tree, its tables hold every key, string and path in it |
| ByamlWriter.TablesOf | src/Syroot.NintenTools/Byaml/ByamlFile.cs:288-293 | the name and string tables are sorted ordinally and list each entry once, and the tables hold everything the tree refers to |
| ByamlWriter.InWriteOrder | src/Syroot.NintenTools/Byaml/ByamlFile.cs:484-486 | each dictionary's keys come out sorted and permuted from its own, each key keeping its value; every other node keeps its shape |
| ByamlWriter.TypeAndLength | src/Syroot.NintenTools/Byaml/ByamlFile.cs:434-439 | the type in the top byte and the count in the low 24 bits, and a count of 2^24 or more is refused |
| ByamlWriter.TypeAndLengthAsWritten | src/Syroot.NintenTools/Byaml/ByamlFile.cs:436-437 | `type << 24` or-ed with `count`: the low 24 bits are the count's |
| ByamlWriter.TypeAndLengthAgrees | src/Syroot.NintenTools/Byaml/ByamlFile.cs:436-437 | below 2^24 entries the word as written is the refusing writer's word |
| ByamlWriter.TypeAndLengthAsWrittenRetypes | src/Syroot.NintenTools/Byaml/ByamlFile.cs:436-437 | an array of 2^24 elements is written as the word of an empty dictionary |
| ByamlWriter.IndexOf | src/Syroot.NintenTools/Byaml/ByamlFile.cs:443 | `List.IndexOf`: the first position holding the item, or -1 exactly when it is absent |
| ByamlWriter.AsciiBytes | src/Syroot.NintenTools/Byaml/ByamlFile.cs:296 | the ASCII encoder: a character below 0x80 is its byte, any other is '?' |
| ByamlWriter.AsciiRoundTrip | src/Syroot.NintenTools/Byaml/ByamlFile.cs:86 | the decoder undoes the encoder exactly on strings whose characters are all below 0x80 |
| ByamlWriter.StringArrayBytes | src/Syroot.NintenTools/Byaml/ByamlFile.cs:511-530 | a string array is written exactly when its count fits in 24 bits |
| ByamlWriter.PathBytes | src/Syroot.NintenTools/Byaml/ByamlFile.cs:553-566 | a path takes 28 bytes per point |
| ByamlWriter.PathArrayBytes | src/Syroot.NintenTools/Byaml/ByamlFile.cs:532-551 | a path array is written exactly when its count fits in 24 bits |
| ByamlWriter.TypeBytes | src/Syroot.NintenTools/Byaml/ByamlFile.cs:456-459 | one type byte per element, its node type |
| ByamlWriter.ContentsBytes | src/Syroot.NintenTools/Byaml/ByamlFile.cs:405-432 | only collections have contents, at least their 4-byte word; a scalar is refused |
| ByamlWriter.Children | src/Syroot.NintenTools/Byaml/ByamlFile.cs:469-477 | one offset for each child from `i` on |
| ByamlWriter.TableSection | src/Syroot.NintenTools/Byaml/ByamlFile.cs:310-325 | an empty string or path table is a zero word; any other is written at the next four-byte boundary |
| ByamlTables.WordsFollow | src/Syroot.NintenTools/Byaml/ByamlFile.cs:520-523 | words written one after another read back at their places |
| ByamlTables.ZeroTerminatedFollows | src/Syroot.NintenTools/Byaml/ByamlFile.cs:528 | zero-free bytes written with a zero read back as a zero-terminated string |
| ByamlTables.StringFollows | src/Syroot.NintenTools/Byaml/ByamlFile.cs:528 | a string of characters below 0x80 without a zero, written zero-terminated, reads back as itself |
| ByamlTables.PointFollows | src/Syroot.NintenTools/Byaml/ByamlFile.cs:561-566 | a written point reads back as that point |
| ByamlTables.PathFollows | src/Syroot.NintenTools/Byaml/ByamlFile.cs:553-559 | a written path reads back as that path |
| ByamlTables.StringArrayFollows | src/Syroot.NintenTools/Byaml/ByamlFile.cs:511-530 | a written string array of plain strings is where the reader finds its word, offsets and strings |
| ByamlTables.PathArrayFollows | src/Syroot.NintenTools/Byaml/ByamlFile.cs:532-551 | a written path array is where the reader finds its word, offsets and paths |
| ByamlRoundTrip.TypeAndCount | src/Syroot.NintenTools/Byaml/ByamlFile.cs:128-145 | the type-and-length word puts the type in the byte the reader reads first and the count in the 24 bits it masks |
| ByamlRoundTrip.ReadStringTable | src/Syroot.NintenTools/Byaml/ByamlFile.cs:225-243 | a string table in place reads back as its strings |
| ByamlRoundTrip.ReadPathTable | src/Syroot.NintenTools/Byaml/ByamlFile.cs:245-264 | a path table in place reads back as its paths |
| ByamlRoundTrip.ReadStringTableNode | src/Syroot.NintenTools/Byaml/ByamlFile.cs:98-107 | a string table read as the name or string table is the string-array node of its strings, and converts back to them |
| ByamlRoundTrip.ReadPathTableNode | src/Syroot.NintenTools/Byaml/ByamlFile.cs:109-114 | a path table read as the path table is the path-array node of its paths, and converts back to them |
| ByamlRoundTrip.HeadLayout | src/Syroot.NintenTools/Byaml/ByamlFile.cs:300-306 | the bytes the writer emits start with "BY", version 1 and the name table's offset 20; the string and path offset words hold where those sections begin, and the name table and the two sections follow the header one after another |
| ByamlRoundTrip.StringTableFound | src/Syroot.NintenTools/Byaml/ByamlFile.cs:309-316 | the header's string offset is 0 exactly when there are no strings, and otherwise leads the reader to the table of those strings |
| ByamlRoundTrip.PathTableFound | src/Syroot.NintenTools/Byaml/ByamlFile.cs:317-324 | the header's path offset is 0 exactly when there are no paths, and otherwise leads the reader to the table of those paths |
| ByamlRoundTrip.WriteReadsTables | src/Syroot.NintenTools/Byaml/ByamlFile.cs:285-328 | a written file has the "BY" magic and version 1, and reading it back finds the writer's own sorted name table, its sorted string table when there are strings and its path table when there are paths, each left out exactly when empty |
| ByamlContents.ContentsLaidOut | src/Syroot.NintenTools/Byaml/ByamlFile.cs:405-432 | the contents the writer produces for a collection, standing anywhere in the data, are that node as the reader expects it: its type-and-length word, its element types or records, its slots, and each child collection at the offset its slot names |
| ByamlContents.ArrayLaidOut | src/Syroot.NintenTools/Byaml/ByamlFile.cs:451-478 | a written array is in place: its word, one type byte per element, the slots from the next four-byte boundary, and each collection child where its slot points |
| ByamlContents.DictionaryLaidOut | src/Syroot.NintenTools/Byaml/ByamlFile.cs:480-509 | a written dictionary is in place: its word, a key word and a slot per entry in write order, and each collection value where its slot points |
| ByamlContents.ArrayParts | src/Syroot.NintenTools/Byaml/ByamlFile.cs:451-467 | where an array's bytes stand, the reader finds the word holding type 0xC0 in its top byte and the count below, type byte `i` at 4 + `i`, and slot `i` at the first four-byte boundary after the types plus 4 * `i` |
| ByamlContents.DictionaryParts | src/Syroot.NintenTools/Byaml/ByamlFile.cs:482-498 | where a dictionary's bytes stand, the reader finds its word, entry `i`'s key index above its type byte at 4 + 8 * `i` and its slot right after |
| ByamlContents.ChildStep | src/Syroot.NintenTools/Byaml/ByamlFile.cs:469-477 | a collection child's contents start at the next four-byte boundary, and the next child's contents right after them |
| ByamlContents.ChildrenLaidOut | src/Syroot.NintenTools/Byaml/ByamlFile.cs:469-477 | the children's contents, written one after another, put each collection child at the offset its slot records |
| ByamlFileRoot.RootWord | src/Syroot.NintenTools/Byaml/ByamlFile.cs:303-326 | the reserved root offset holds the first four-byte boundary after the header and the tables |
| ByamlFileRoot.FileRootLaidOut | src/Syroot.NintenTools/Byaml/ByamlFile.cs:300-326 | the header's root offset at byte 16 names where the root's contents stand, and the node there is the root |
| ByamlFileRoot.WrittenRootLaidOut | src/Syroot.NintenTools/Byaml/ByamlFile.cs:285-328 | in a written file the header's root offset names where the root stands, with its dictionaries in write order; keys and strings must survive the ASCII encoder and the file must stay below 4 GiB |
| ByamlFileRoot.WriteOrderPlain | src/Syroot.NintenTools/Byaml/ByamlFile.cs:484-486 | sorting each dictionary's entries keeps every key and string, so a tree that survives the ASCII encoder still does |
| ByamlNode.FloatEqualsIsIeee | src/Syroot.NintenTools/Byaml/ByamlNode.cs:813-814 | a single compared with `==`: symmetric, a NaN unequal to everything including itself, +0 equal to -0, any other single equal only to itself |
| ByamlWriter.HeaderBytes | src/Syroot.NintenTools/Byaml/ByamlFile.cs:300-306 | the header is 20 bytes: the magic, the version and the four table offsets |
| ByamlWriter.HeadOf | src/Syroot.NintenTools/Byaml/ByamlFile.cs:308-325 | the sections follow one another: the name table as its string-array bytes right after the header, then the string section and the path section, each right after the one before and left out (offset 0) when its table is empty |
| ByamlWriter.HeadImage | src/Syroot.NintenTools/Byaml/ByamlFile.cs:300-325 | the header and the tables are exactly as long as the 20-byte header plus the three sections |
| ByamlLayout.ScalarWordReads | src/Syroot.NintenTools/Byaml/ByamlFile.cs:363-403 | a scalar's slot word, read back with the scalar's type against the writer's tables, is the scalar again: a string or path by its table position, a boolean, an integer through the signed reinterpretation, a single by its bits |
| ByamlLayout.KeyWordSplits | src/Syroot.NintenTools/Byaml/ByamlFile.cs:493-494 | a dictionary record's first word splits, as the reader splits it, into the key's position in the name table and the value's type |
| OrdinalOrder.BelowTotal | src/Syroot.NintenTools/Byaml/ByamlFile.cs:292-293 | the ordinal order is total, and antisymmetric |
| OrdinalOrder.BelowReflexive | src/Syroot.NintenTools/Byaml/ByamlFile.cs:292-293 | every string is ordered with itself |
| OrdinalOrder.BelowTransitive | src/Syroot.NintenTools/Byaml/ByamlFile.cs:292-293 | the ordinal order is transitive |
| OrdinalOrder.Insert | src/Syroot.NintenTools/Byaml/ByamlFile.cs:292-293 | inserting into a sorted list keeps it sorted and adds exactly the string |
| OrdinalOrder.Sort | src/Syroot.NintenTools/Byaml/ByamlFile.cs:292-293 | `Sort(StringComparer.Ordinal)`: the result is sorted and a permutation of the input |
| OrdinalOrder.SortDistinct | src/Syroot.NintenTools/Byaml/ByamlFile.cs:334-356 | a list without repeats sorts to a list without repeats |
| OrdinalOrder.SortedUnique | src/Syroot.NintenTools/Byaml/ByamlFile.cs:292-293 | two sorted lists holding the same strings are equal, so the tables do not depend on the order the strings were met in |

## Left out

- Yaz0.Token: follows `Yaz0File.cs` on malformed input. A literal with no input byte left is `Truncated`, while `yaz0.py:26-27` writes nothing and still counts the byte. A back-reference before the start is `BadBackReference`, while `yaz0.py:44` clamps the seek to 0 and goes on.
- Yaz0.Decompress: follows `yaz0.py` on the last group, whose output may run past the declared size by the rest of that group. The C# output is a memory-mapped file created with exactly the declared size (`Yaz0File.cs:71-72`), which the writes at lines 93 and 118 do not extend.
- ByamlReader.ReadNode: the program recurses without a bound, so cyclic offsets never end. The model takes a `fuel` parameter and returns `NestingTooDeep` when it runs out. `ByamlReader.NodeFuel` proves that more fuel never changes a successful read.
- ByamlReader.Read: takes the same `fuel` parameter and so inherits `NestingTooDeep`.
- ByamlNode.RemoveEntry: compares values with `Equals`. `ByamlNode.cs:973` uses `==` on two `ByamlNode` references, and the class declares no `operator ==`, so the program removes an entry only when given the very node object stored. Model nodes are values without identity.
- ByamlNode.Node: has no `Null` case. The parameterless constructor (`ByamlNode.cs:141-144`) and the `Null` branch of `Equals` (line 815) are not modelled, since no reader or writer produces such a node.
- ByamlNode.NodeEquals: compares two path nodes by their points. `ByamlNode.cs:802` compares `_path == other._path`, and `ByamlPath` (`ByamlPath.cs:9`) is a `List<ByamlPathPoint>` with no `==` of its own, so the program compares references. There, two path nodes are equal only when they hold the same path object. Model paths are values without identity, so two separately built paths with the same points are equal here and unequal in the program. Nodes that the reader builds from the same path index share one object, and there the two agree.
- ByamlNode.EqualsIsEquality: inherits the path comparison of `ByamlNode.NodeEquals`. It holds for the program only where equal paths are the same object.
- ByamlNode.IndexOf: finds a path by its points, through `ByamlNode.NodeEquals`; the program finds it by reference. The model also merges the C# overloads and picks one by the item's kind. The program picks one by the argument's static type, and the `ByamlNode` overload (`ByamlNode.cs:845-854`) throws `ByamlNodeTypeException` on a string or path array. The model instead answers for a string item on a string array and a path item on a path array.
- ByamlNode.Contains: the same path comparison as `ByamlNode.IndexOf`. The model also merges the C# overloads and picks one by the item's kind. The program picks one by the argument's static type, and the `ByamlNode` overload (`ByamlNode.cs:691-700`) throws `ByamlNodeTypeException` on a string or path array. The model instead answers for a string item on a string array and a path item on a path array.
- ByamlNode.Remove: the same path comparison as `ByamlNode.IndexOf`. The model also merges the C# overloads and picks one by the item's kind. The program picks one by the argument's static type, and the `ByamlNode` overload (`ByamlNode.cs:946-955`) throws `ByamlNodeTypeException` on a string or path array. The model instead answers for a string item on a string array and a path item on a path array.
- ByamlNode.Insert: merges `Insert(int, ByamlNode)`, `Insert(int, string)` and `Insert(int, ByamlPath)` (`ByamlNode.cs:893-937`) and picks one by the item's kind. In the program, `Insert(int, ByamlNode)` on a string or path array throws `ByamlNodeTypeException` (`ByamlNode.cs:893-903`), while the model inserts a string node into a string array and a path node into a path array.
- ByamlWriter.ScalarWord: a path node's word is the first position in the path table holding a path with the same points. `ByamlFile.cs:448` calls `List.IndexOf`, which compares `ByamlPath` objects by reference, so the program writes the first position of that very object. The two differ only for a tree holding two distinct path objects with the same points. Either position holds the same points, so the file reads back the same.
- ByamlWriter.Write: is built on the refusing `ByamlWriter.TypeAndLength`, so a collection of 2^24 or more entries fails with `LengthOverflow`. `ByamlFile.cs:434-439` writes `type << 24 | count` instead, whose count carries into the type byte (`ByamlWriter.TypeAndLengthAsWritten`, under Findings). Below 2^24 entries the two agree (`ByamlWriter.TypeAndLengthAgrees`).
- ByamlWriter.TextWidth: counts a character above U+FFFF as one. `str.Length + 1` at `ByamlFile.cs:521` counts UTF-16 code units, two for such a character, so string offsets differ for strings holding one. Such strings are not plain text, which every round-trip lemma requires.
- ByamlWriter.AsciiBytes: encodes a character above U+FFFF as one '?'. The program's ASCII encoder sees it as a surrogate pair, and how its replacement fallback treats the pair is not modelled.
- OrdinalOrder.Below: compares Unicode scalar values. `StringComparer.Ordinal` compares UTF-16 code units, where a character above U+FFFF starts with a surrogate from 0xD800. So U+1F600 sorts below U+FF01 in the program and above it here. Keys and strings below U+D800 are ordered the same way by both.
- BfresIndexGroup.LoadCollection: this reader and the offset readers follow the C# `BfresOffset`, `BfresNameOffset` and `BfresIndexGroup`: offsets count from their own position and wrap to 32 bits, the reference node is skipped, and each entry is decoded at its data pointer. The importer's readers (`bfres_fmdl.py`) call the same helpers from `bfres_common.py`, which is not part of this model. Where the model follows the importer, it assumes those helpers behave as the C# ones.
- Node sorting and conveniences: `Sort(StringComparison)` (`ByamlNode.cs:1054-1064`), `Clone`, `ToString`, `CopyTo`, the enumerators, `Load`/`Save` and the implicit conversion operators are not modelled. They are conveniences around the modelled operations.
- ByamlWriter.InWriteOrder: sorts dictionary keys in ordinal order. `OrderBy` at `ByamlFile.cs:485-486` uses the default, culture-sensitive string comparer. Culture collation is not modelled, and it can order keys differently, for instance upper against lower case.
- ByamlRoundTrip.WriteReadsTables: proves that the header and the three tables read back from a written file. `ByamlFileRoot.WrittenRootLaidOut` adds that the header's root offset names where the root stands, laid out as `ByamlLayout.NodeAt` describes. That `ByamlReader.Read` then returns the root node is not proved: the step from `NodeAt` to the reader's result is not part of this model.
- BfresOffset.ReadNameOffset: names are the raw bytes up to the zero, not decoded text. The C# reader is created with UTF-8 encoding (`BinaryDataReader.cs:25` and `:39-41`, through `BfresFile.cs:157`), so `BfresNameOffset.cs:56` decodes the name as UTF-8 and turns an invalid sequence into U+FFFD, and `GetIndexByName` compares the decoded strings. Comparing bytes agrees with comparing decoded names for valid UTF-8, where decoding is one-to-one. Two different invalid byte sequences that decode to the same string match in the program and not here.
- BfresFile.Load: decodes the model sections of slot 0 with the `decode` parameter (the model's FMDL decoder, `FmdlSection.ReadSection`). The texture sections of slot 1 are not decoded: the C# loader builds an `FtexSection` for each of their nodes (`BfresFile.cs:327-337`), and the FTEX decoder is not part of this model. Only slot 1's index group is read, for linking. `SatisfyFshpModels` (`BfresFile.cs:374-392`) is not modelled. After loading, it links each shape to three things: its bone `Skeleton.Bones[BoneIndex]`, its material `Materials[MaterialIndex]` and its vertex buffer `VertexBuffers[VertexBufferIndex]`. Each of these lookups throws on an index out of range, so the program fails on files with such a shape, which the model loads.
- BfresFile.SatisfyTextureSelectors: a link is the index `k` of the texture section in slot 1, not the decoded FTEX object, whose decoder is not part of this model.
- FmatSubsection.LoadShadowParams: reads the shadow group only when its offset is non-zero. `bfres_fmdl.py:417` tests the offset object's truth value, and the class defining it (`bfres_common.py`) is not part of this model, so treating a zero offset as false is an assumption.
- FmdlSection.LoadParams: the same assumption for the user parameter group at `bfres_fmdl.py:45`.
- Offsets: self-relative offsets are added as unbounded integers, wrapped to 32 bits only where `Bytes.Wrap32` is applied. A file of 4 GiB or more, where the program's `uint` positions would wrap, is not modelled.
- Yaz0 compression (`Yaz0Compression.cs`): the search for back-references is not modelled. The model encodes any given token stream instead (`Yaz0Tokens.Compress`) and proves that decompression gives back what the tokens describe.
- The texture (FTEX), animation and other BFRES sections, floating-point arithmetic, the vector and matrix types, the converters and the Blender scene construction are outside the modelled core.

## Findings

| source | as written | input that shows it | evidently intended | confidence | as-written member | corrected member |
|---|---|---|---|---|---|---|
| Vibeware.NintenTools/Bfres/Fmdl/FvtxVertexAttribute.cs:115 | `(byte)(indexAndOffset & 0xFF000000)` keeps only the low byte of a value whose low 24 bits are cleared, so the buffer index is always 0 | the word 0x01000004: buffer 1, offset 4 | the top byte, `indexAndOffset >> 24` | not executed | FvtxVertexAttribute.BufferIndexAsWrittenLosesBuffer | FvtxVertexAttribute.SplitJoin |
| src/Syroot.NintenTools/Bfres/Fmdl/FvtxVertexData.cs:128-130 | the three 10-bit fields of the signed format 0x20B are taken unsigned, in [0, 1024) | the word 0x7FF00000, whose x field is -1 | each field read as 10-bit two's complement, in [-512, 512) | not executed | FvtxVertexData.Vector3AtMisreadsNegative | FvtxVertexData.Unpack10OfPack |
| Blender/io_scene_bfres/bfres_fmdl.py:299 | the value branch tests the built-in `type` instead of the record's stored type, so no render parameter ever gets a value | a type-2 render parameter naming "A" | the branch taken on the stored type byte | not executed | FmatSubsection.RenderValueLost | FmatSubsection.ReadRenderParameter |
| Blender/io_scene_bfres/bfres_fmdl.py:320 | the last field calls `read_uint32s`, which the reader does not define, so every material structure fails to load | any FMAT section whose header, render parameters and first 32 bytes of structure read | the four 32-bit words at offset 0x20 | not executed | FmatSubsection.NoMaterialLoads | FmatSubsection.ReadMaterialStructure |
| Blender/io_scene_bfres/bfres_fmdl.py:354 | the byte at offset 4 is read with `read_sbyte`, which the reader does not define, so every texture selector fails to load | any 24-byte texture attribute selector | that byte read as a signed 8-bit value | not executed | FmatSubsection.ReadTextureAttributeSelectorAsWritten | FmatSubsection.ReadTextureAttributeSelector |
| src/Syroot.NintenTools/Byaml/ByamlNode.cs:712 | `Contains(KeyValuePair)` checks that the key is among the keys and the value among the values, separately | the dictionary {"a": 1, "b": 2} and the pair ("a", 2) | the value stored under that key equals the given one | not executed | ByamlNode.ContainsEntryAsWrittenMismatch | ByamlNode.ContainsEntryImpliesAsWritten |
| src/Syroot.NintenTools/Byaml/ByamlFile.cs:436-437 | `type << 24` or-ed with `count` lets a count of 2^24 or more carry into the type byte | an array of 2^24 elements, written as the word of an empty dictionary | a count of 2^24 or more refused | not executed | ByamlWriter.TypeAndLengthAsWrittenRetypes | ByamlWriter.TypeAndLengthAgrees |
