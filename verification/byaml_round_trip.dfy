/**
 * The BYAML reader reads back what the writer wrote: a string or path
 * table laid out as the layout predicates describe reads as those strings
 * or paths, and a written file carries the "BY" header and reads back its
 * own name, string and path tables. Where the root node stands is the
 * subject of `ByamlFileRoot`.
 */
module ByamlRoundTrip {
  import opened Wrappers
  import opened Bytes
  import opened BinaryReader
  import opened ByamlNode
  import opened ByamlReader
  import opened ByamlWriter
  import opened ByamlLayout
  import opened ByamlTables

  /** The top byte of a big-endian word is the byte at its position; the rest is its low 24 bits. */
  lemma TopByte(data: seq<byte>, p: nat)
    requires p + 4 <= |data|
    ensures U32At(data, p, BigEndian) / LengthLimit == data[p]
    ensures U32At(data, p, BigEndian) == data[p] * LengthLimit + U32At(data, p, BigEndian) % LengthLimit
  {
    var low := data[p + 1] as int * 0x1_0000 + data[p + 2] as int * 0x100 + data[p + 3] as int;
    assert U32At(data, p, BigEndian) == data[p] * LengthLimit + low;
    assert 0 <= low < LengthLimit;
  }

  /** A type-and-length word names its type in its first byte and its count in the rest. */
  lemma TypeAndCount(data: seq<byte>, p: nat, nodeType: byte, count: nat)
    requires p + 4 <= |data| && count < LengthLimit
    requires U32At(data, p, BigEndian) == nodeType * LengthLimit + count
    ensures data[p] == nodeType && U32At(data, p, BigEndian) % LengthLimit == count
  {
    TopByte(data, p);
  }

  /** Strings each found at their offset are read in a row from offset `i` on. */
  lemma {:induction false} StringsFromAll(data: seq<byte>, at: nat, offsets: seq<u32>, strs: seq<string>, i: nat)
    requires |offsets| == |strs| && i <= |strs|
    requires forall k :: i <= k < |strs| ==> StringAt(data, at + offsets[k]) == Ok(strs[k])
    ensures StringsFrom(data, at, offsets, i) == Ok(strs[i..])
    decreases |strs| - i
  {
    if i < |strs| {
      StringsFromAll(data, at, offsets, strs, i + 1);
      var first := StringAt(data, at + offsets[i]);
      assert first == Ok(strs[i]);
      assert StringsFrom(data, at, offsets, i) == Ok([strs[i]] + strs[i + 1..]);
      assert strs[i..] == [strs[i]] + strs[i + 1..];
    } else {
      assert strs[i..] == [];
    }
  }

  /** A string table in place reads back as its strings. */
  lemma ReadStringTable(data: seq<byte>, at: nat, strs: seq<string>)
    requires StringTableAt(data, at, strs)
    ensures ReadStringArray(data, at, |strs|) == Ok(strs)
  {
    var offsets := U32sAt(data, at + 4, |strs|, BigEndian);
    forall k | 0 <= k < |strs|
      ensures StringAt(data, at + offsets[k]) == Ok(strs[k])
    {
      assert offsets[k] == U32At(data, at + 4 + 4 * k, BigEndian);
    }
    StringsFromAll(data, at, offsets, strs, 0);
    assert strs[0..] == strs;
  }

  /** Paths each found between their pair of offsets are read in a row from offset `i` on. */
  lemma {:induction false} PathsFromAll(data: seq<byte>, at: nat, offsets: seq<u32>, paths: seq<Path>, i: nat)
    requires |offsets| == |paths| + 1 && i <= |paths|
    requires forall k :: i <= k < |paths| ==> PathBetween(data, at, offsets, k, paths[k])
    ensures PathsFrom(data, at, offsets, i) == Ok(paths[i..])
    decreases |paths| - i
  {
    if i < |paths| {
      PathsFromAll(data, at, offsets, paths, i + 1);
      PathsFromStep(data, at, offsets, i, paths[i], paths[i + 1..]);
      assert paths[i..] == [paths[i]] + paths[i + 1..];
    } else {
      assert paths[i..] == [];
    }
  }

  /** Path `k` is read between offsets `k` and `k + 1`. */
  ghost predicate PathBetween(data: seq<byte>, at: nat, offsets: seq<u32>, k: nat, path: Path)
    requires k + 1 < |offsets|
  {
    PathAt(data, at + offsets[k], PointCount(offsets[k], offsets[k + 1])) == Ok(path)
  }

  /** One path read, then the rest. */
  lemma PathsFromStep(data: seq<byte>, at: nat, offsets: seq<u32>, i: nat, first: Path, rest: seq<Path>)
    requires 0 < |offsets| && i < |offsets| - 1
    requires PathAt(data, at + offsets[i], PointCount(offsets[i], offsets[i + 1])) == Ok(first)
    requires PathsFrom(data, at, offsets, i + 1) == Ok(rest)
    ensures PathsFrom(data, at, offsets, i) == Ok([first] + rest)
  {
  }

  /** A path table in place reads back as its paths. */
  lemma ReadPathTable(data: seq<byte>, at: nat, paths: seq<Path>)
    requires PathTableAt(data, at, paths)
    ensures ReadPathArray(data, at, |paths|) == Ok(paths)
  {
    var offsets := U32sAt(data, at + 4, |paths| + 1, BigEndian);
    forall k | 0 <= k < |paths|
      ensures PathBetween(data, at, offsets, k, paths[k])
    {
      assert offsets[k] == U32At(data, at + 4 + 4 * k, BigEndian);
      assert offsets[k + 1] == U32At(data, at + 8 + 4 * k, BigEndian);
    }
    PathsFromAll(data, at, offsets, paths, 0);
    assert paths[0..] == paths;
  }

  /** A string table read in place as a node is the string-array node of its strings, whatever tables are known. */
  lemma ReadStringTableNode(t: Tables, data: seq<byte>, at: nat, strs: seq<string>, fuel: nat)
    requires StringTableAt(data, at, strs) && fuel > 0
    ensures TableAt(t, data, at, fuel) == Ok(FromStringList(strs))
    ensures AsStringList(TableAt(t, data, at, fuel).value) == Ok(strs)
  {
    TypeAndCount(data, at, StringArrayType, |strs|);
    ReadStringTable(data, at, strs);
    assert ReadCollection(t, data, StringArrayType, at, |strs|, fuel - 1) == Ok(Decoded(FromStringList(strs), at + 4 + 4 * |strs|));
    assert ReadNode(t, data, at, 0, fuel) == Ok(Decoded(FromStringList(strs), at + 4 + 4 * |strs|));
    StringListRoundTrip(strs);
  }

  /** A path table read in place as a node is the path-array node of its paths. */
  lemma ReadPathTableNode(t: Tables, data: seq<byte>, at: nat, paths: seq<Path>, fuel: nat)
    requires PathTableAt(data, at, paths) && fuel > 0
    ensures TableAt(t, data, at, fuel) == Ok(FromPathList(paths))
    ensures AsPathList(TableAt(t, data, at, fuel).value) == Ok(paths)
  {
    TypeAndCount(data, at, PathArrayType, |paths|);
    ReadPathTable(data, at, paths);
    assert ReadCollection(t, data, PathArrayType, at, |paths|, fuel - 1) == Ok(Decoded(FromPathList(paths), at + 4 + 4 * (|paths| + 1)));
    assert ReadNode(t, data, at, 0, fuel) == Ok(Decoded(FromPathList(paths), at + 4 + 4 * (|paths| + 1)));
    PathListRoundTrip(paths);
  }

  /** What was written between `a` and `c` is where the data holds it. */
  lemma FollowsBetween(a: seq<byte>, b: seq<byte>, c: seq<byte>)
    ensures Follows(a + b + c, |a|, b)
  {
    assert a + b + c == a + (b + c);
    FollowsAfter(a, b + c);
    FollowsSplit(a + b + c, |a|, b, c);
  }

  /** A string table the writer placed from `q` on reads, as a table, as its strings. */
  lemma StringSectionReads(t: Tables, data: seq<byte>, q: nat, strs: seq<string>, sec: Section, fuel: nat)
    requires AllPlain(strs) && fuel > 0 && |data| < TwoTo32
    requires TableSection(false, StringArrayBytes(strs), q) == Ok(sec) && Follows(data, q, sec.bytes)
    ensures sec.at == Align4(q)
    ensures TableAt(t, data, sec.at, fuel) == Ok(FromStringList(strs))
    ensures AsStringList(FromStringList(strs)) == Ok(strs)
  {
    var b := StringArrayBytes(strs).value;
    assert sec == Section(Align4(q), Padding(q) + b);
    FollowsSplit(data, q, Padding(q), b);
    var at := Align4(q);
    assert Follows(data, at, b);
    StringArrayFollows(data, at, strs);
    ReadStringTableNode(t, data, at, strs, fuel);
  }

  /** A path table the writer placed from `q` on reads, as a table, as its paths. */
  lemma PathSectionReads(t: Tables, data: seq<byte>, q: nat, paths: seq<Path>, sec: Section, fuel: nat)
    requires fuel > 0 && |data| < TwoTo32
    requires TableSection(false, PathArrayBytes(paths), q) == Ok(sec) && Follows(data, q, sec.bytes)
    ensures sec.at == Align4(q)
    ensures TableAt(t, data, sec.at, fuel) == Ok(FromPathList(paths))
    ensures AsPathList(FromPathList(paths)) == Ok(paths)
  {
    var b := PathArrayBytes(paths).value;
    assert sec == Section(Align4(q), Padding(q) + b);
    FollowsSplit(data, q, Padding(q), b);
    var at := Align4(q);
    assert Follows(data, at, b);
    PathArrayFollows(data, at, paths);
    ReadPathTableNode(t, data, at, paths, fuel);
  }

  /** The header the writer emits: the magic, version 1, and the offsets of the four tables, the name table's 20. */
  lemma HeaderReads(data: seq<byte>, strings: nat, paths: nat, root: nat, after: seq<byte>)
    requires data == HeaderBytes(strings, paths, root) + after
    ensures HeaderSize <= |data| && TagAt(data, 0, ByamlTag) && U16At(data, 2, BigEndian) == 1
    ensures U32At(data, 4, BigEndian) == 20 && U32At(data, 8, BigEndian) == Wrap32(strings) &&
      U32At(data, 12, BigEndian) == Wrap32(paths) && U32At(data, 16, BigEndian) == Wrap32(root)
    ensures Follows(data, HeaderSize, after)
  {
    var pre := ByamlTag + Encode16(1, BigEndian);
    var offsets := HeaderOffsets(Wrap32(strings), Wrap32(paths), Wrap32(root));
    assert data == pre + Words(offsets) + after;
    assert data[0..2] == ByamlTag;
    assert data[2] == Encode16(1, BigEndian)[0] && data[3] == Encode16(1, BigEndian)[1];
    FollowsBetween(pre, Words(offsets), after);
    WordsFollow(data, 4, offsets);
    assert U32At(data, 4 + 4 * 1, BigEndian) == offsets[1];
    assert U32At(data, 4 + 4 * 2, BigEndian) == offsets[2];
    assert U32At(data, 4 + 4 * 3, BigEndian) == offsets[3];
    assert data == (pre + Words(offsets)) + after;
    FollowsAfter(pre + Words(offsets), after);
  }

  /** The reader's tables, given what it finds at each table offset. */
  lemma ReadTablesOf(data: seq<byte>, names: seq<string>, strs: Option<seq<string>>, paths: Option<seq<Path>>, fuel: nat)
    requires HeaderSize <= |data|
    requires TableAt(Tables(None, None, None), data, U32At(data, 4, BigEndian), fuel) == Ok(FromStringList(names))
    requires U32At(data, 8, BigEndian) == 0 <==> strs.None?
    requires strs.Some? ==>
      TableAt(Tables(Some(names), None, None), data, U32At(data, 8, BigEndian), fuel) == Ok(FromStringList(strs.value))
    requires U32At(data, 12, BigEndian) == 0 <==> paths.None?
    requires paths.Some? ==>
      TableAt(Tables(Some(names), strs, None), data, U32At(data, 12, BigEndian), fuel) == Ok(FromPathList(paths.value))
    ensures ReadTables(data, fuel) == Ok(Tables(Some(names), strs, paths))
  {
    StringListRoundTrip(names);
    if strs.Some? {
      StringListRoundTrip(strs.value);
    }
    if paths.Some? {
      PathListRoundTrip(paths.value);
    }
  }

  /** A string section as the header's offset word gives it: zero exactly when the table is empty, else the table. */
  lemma StringsFound(t: Tables, data: seq<byte>, q: nat, strs: seq<string>, sec: Section, fuel: nat)
    requires AllPlain(strs) && fuel > 0 && HeaderSize <= q && |data| < TwoTo32
    requires TableSection(|strs| == 0, StringArrayBytes(strs), q) == Ok(sec) && Follows(data, q, sec.bytes)
    ensures Wrap32(sec.at) == 0 <==> |strs| == 0
    ensures |strs| > 0 ==> TableAt(t, data, Wrap32(sec.at), fuel) == Ok(FromStringList(strs))
  {
    if |strs| > 0 {
      StringSectionReads(t, data, q, strs, sec, fuel);
      assert sec.at < |data|;
    }
  }

  /** A path section as the header's offset word gives it. */
  lemma PathsFound(t: Tables, data: seq<byte>, q: nat, paths: seq<Path>, sec: Section, fuel: nat)
    requires fuel > 0 && HeaderSize <= q && |data| < TwoTo32
    requires TableSection(|paths| == 0, PathArrayBytes(paths), q) == Ok(sec) && Follows(data, q, sec.bytes)
    ensures Wrap32(sec.at) == 0 <==> |paths| == 0
    ensures |paths| > 0 ==> TableAt(t, data, Wrap32(sec.at), fuel) == Ok(FromPathList(paths))
  {
    if |paths| > 0 {
      PathSectionReads(t, data, q, paths, sec, fuel);
      assert sec.at < |data|;
    }
  }

  /** The table the header names, or none when the writer left it out for being empty. */
  function NonEmpty<T>(s: seq<T>): Option<seq<T>>
  {
    if |s| == 0 then None else Some(s)
  }

  /*
   * The three lemmas below take the head `h` whole and state their
   * requirements in the same terms as `TablesRead`, so that each of its
   * calls matches what it already knows.
   */

  /** The name table the writer puts at offset 20 reads back as the names. */
  lemma NameTableFound(data: seq<byte>, tb: Collected, h: Head, fuel: nat)
    requires AllPlain(tb.names) && fuel > 0 && HeaderSize <= |data| < TwoTo32
    requires StringArrayBytes(tb.names) == Ok(h.names)
    requires Follows(data, HeaderSize, h.names)
    requires U32At(data, 4, BigEndian) == 20
    ensures TableAt(Tables(None, None, None), data, U32At(data, 4, BigEndian), fuel) == Ok(FromStringList(tb.names))
  {
    StringArrayFollows(data, 20, tb.names);
    ReadStringTableNode(Tables(None, None, None), data, 20, tb.names, fuel);
  }

  /** The string section after the name table: no offset when there are no strings, else their table. */
  lemma StringTableFound(data: seq<byte>, tb: Collected, h: Head, fuel: nat)
    requires AllPlain(tb.strings) && fuel > 0 && HeaderSize <= |data| < TwoTo32
    requires TableSection(|tb.strings| == 0, StringArrayBytes(tb.strings), StringsStart(h)) == Ok(h.strings)
    requires Follows(data, StringsStart(h), h.strings.bytes)
    requires U32At(data, 8, BigEndian) == Wrap32(h.strings.at)
    ensures U32At(data, 8, BigEndian) == 0 <==> NonEmpty(tb.strings).None?
    ensures NonEmpty(tb.strings).Some? ==>
      TableAt(Tables(Some(tb.names), None, None), data, U32At(data, 8, BigEndian), fuel) ==
        Ok(FromStringList(NonEmpty(tb.strings).value))
  {
    StringsFound(Tables(Some(tb.names), None, None), data, StringsStart(h), tb.strings, h.strings, fuel);
  }

  /** The path section after the string section: no offset when there are no paths, else their table. */
  lemma PathTableFound(data: seq<byte>, tb: Collected, h: Head, fuel: nat)
    requires fuel > 0 && HeaderSize <= |data| < TwoTo32
    requires TableSection(|tb.paths| == 0, PathArrayBytes(tb.paths), PathsStart(h)) == Ok(h.paths)
    requires Follows(data, PathsStart(h), h.paths.bytes)
    requires U32At(data, 12, BigEndian) == Wrap32(h.paths.at)
    ensures U32At(data, 12, BigEndian) == 0 <==> NonEmpty(tb.paths).None?
    ensures NonEmpty(tb.paths).Some? ==>
      TableAt(Tables(Some(tb.names), NonEmpty(tb.strings), None), data, U32At(data, 12, BigEndian), fuel) ==
        Ok(FromPathList(NonEmpty(tb.paths).value))
  {
    PathsFound(Tables(Some(tb.names), NonEmpty(tb.strings), None), data, PathsStart(h),
               tb.paths, h.paths, fuel);
  }

  /**
   * Where the data holds, after the header, the name table and the string
   * and path sections as the writer lays them out, the reader finds those
   * tables.
   */
  lemma TablesRead(data: seq<byte>, tb: Collected, h: Head, fuel: nat)
    requires AllPlain(tb.names) && AllPlain(tb.strings) && fuel > 0 && HeaderSize <= |data| < TwoTo32
    requires StringArrayBytes(tb.names) == Ok(h.names)
    requires TableSection(|tb.strings| == 0, StringArrayBytes(tb.strings), StringsStart(h)) == Ok(h.strings)
    requires TableSection(|tb.paths| == 0, PathArrayBytes(tb.paths), PathsStart(h)) == Ok(h.paths)
    requires Follows(data, HeaderSize, h.names)
    requires Follows(data, StringsStart(h), h.strings.bytes)
    requires Follows(data, PathsStart(h), h.paths.bytes)
    requires U32At(data, 4, BigEndian) == 20
    requires U32At(data, 8, BigEndian) == Wrap32(h.strings.at) && U32At(data, 12, BigEndian) == Wrap32(h.paths.at)
    ensures ReadTables(data, fuel) == Ok(Tables(Some(tb.names), NonEmpty(tb.strings), NonEmpty(tb.paths)))
  {
    NameTableFound(data, tb, h, fuel);
    StringTableFound(data, tb, h, fuel);
    PathTableFound(data, tb, h, fuel);
    ReadTablesOf(data, tb.names, NonEmpty(tb.strings), NonEmpty(tb.paths), fuel);
  }

  /** Where the data holds four runs one after another, it holds each of the first three at its place. */
  lemma FollowsEach(data: seq<byte>, p: nat, a: seq<byte>, b: seq<byte>, c: seq<byte>, d: seq<byte>)
    requires Follows(data, p, a + b + c + d)
    ensures Follows(data, p, a) && Follows(data, p + |a|, b) && Follows(data, p + |a| + |b|, c)
  {
    FollowsSplit(data, p, a + b + c, d);
    FollowsSplit(data, p, a + b, c);
    FollowsSplit(data, p, a, b);
  }

  /** The header and the tables as they stand in the bytes the writer emits. */
  lemma HeadLayout(h: Head, tail: seq<byte>)
    ensures var data := HeadImage(h) + tail;
      HeaderSize <= |data| && TagAt(data, 0, ByamlTag) && U16At(data, 2, BigEndian) == 1 &&
      U32At(data, 4, BigEndian) == 20 &&
      U32At(data, 8, BigEndian) == Wrap32(h.strings.at) && U32At(data, 12, BigEndian) == Wrap32(h.paths.at)
    ensures var data := HeadImage(h) + tail;
      Follows(data, HeaderSize, h.names) &&
      Follows(data, StringsStart(h), h.strings.bytes) &&
      Follows(data, PathsStart(h), h.paths.bytes)
  {
    var data := HeadImage(h) + tail;
    var rest := h.names + h.strings.bytes + h.paths.bytes + tail;
    assert data == HeaderBytes(h.strings.at, h.paths.at, Align4(PathsStart(h) + |h.paths.bytes|)) + rest;
    HeaderReads(data, h.strings.at, h.paths.at, Align4(PathsStart(h) + |h.paths.bytes|), rest);
    FollowsEach(data, HeaderSize, h.names, h.strings.bytes, h.paths.bytes, tail);
  }

  /** The file around a root starts with the header and tables. */
  lemma FileStartsWithHead(tb: Collected, root: Node)
    requires WellFormed(root) && FileBytes(tb, root).Ok?
    ensures HeadOf(tb).Ok?
    ensures var head := HeadImage(HeadOf(tb).value);
      |head| <= |FileBytes(tb, root).value| && FileBytes(tb, root).value == head + FileBytes(tb, root).value[|head|..]
  {
    var head := HeadImage(HeadOf(tb).value);
    var body := ContentsBytes(tb, root, Align4(|head|)).value;
    assert FileBytes(tb, root).value == head + (Padding(|head|) + body);
  }

  /** The reader finds the tables `tb` in the file the writer builds around them. */
  lemma FileReadsTables(tb: Collected, root: Node, fuel: nat)
    requires WellFormed(root) && AllPlain(tb.names) && AllPlain(tb.strings) && fuel > 0
    requires FileBytes(tb, root).Ok? && |FileBytes(tb, root).value| < TwoTo32
    ensures var data := FileBytes(tb, root).value;
      HeaderSize <= |data| && TagAt(data, 0, ByamlTag) && U16At(data, 2, BigEndian) == 1
    ensures ReadTables(FileBytes(tb, root).value, fuel) == Ok(Tables(Some(tb.names), NonEmpty(tb.strings), NonEmpty(tb.paths)))
  {
    FileStartsWithHead(tb, root);
    var h := HeadOf(tb).value;
    var tail := FileBytes(tb, root).value[|HeadImage(h)|..];
    HeadLayout(h, tail);
    TablesRead(HeadImage(h) + tail, tb, h, fuel);
  }

  /**
   * A written file has the "BY" magic and version 1, and the reader finds
   * in it the writer's own tables: the sorted names, the sorted strings
   * when there are any, the paths when there are any.  Keys and strings
   * must survive the ASCII encoder, and the file must stay below 4 GiB so
   * that no offset wraps.
   */
  lemma WriteReadsTables(root: Node, fuel: nat)
    requires WellFormed(root) && PlainText(root) && fuel > 0
    requires Write(root).Ok? && |Write(root).value| < TwoTo32
    ensures var data := Write(root).value;
      HeaderSize <= |data| && TagAt(data, 0, ByamlTag) && U16At(data, 2, BigEndian) == 1
    ensures var tb := TablesOf(root);
      ReadTables(Write(root).value, fuel) == Ok(Tables(Some(tb.names), NonEmpty(tb.strings), NonEmpty(tb.paths)))
  {
    FileReadsTables(TablesOf(root), InWriteOrder(root), fuel);
  }
}
