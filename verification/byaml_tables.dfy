/**
 * The writer's string and path tables, wherever they stand in the data,
 * are where the reader finds their strings and paths.
 */
module ByamlTables {
  import opened Wrappers
  import opened Bytes
  import opened BinaryReader
  import opened ByamlNode
  import opened ByamlReader
  import opened ByamlWriter
  import opened ByamlLayout

  /** Where the data holds a run of words, each reads back at its place. */
  lemma {:induction false} WordsFollow(data: seq<byte>, p: nat, ws: seq<u32>)
    requires Follows(data, p, Words(ws))
    ensures p + 4 * |ws| <= |data|
    ensures forall i :: 0 <= i < |ws| ==> U32At(data, p + 4 * i, BigEndian) == ws[i]
    decreases |ws|
  {
    if |ws| > 0 {
      FollowsSplit(data, p, Encode32(ws[0], BigEndian), Words(ws[1..]));
      WordFollows(data, p, ws[0], BigEndian);
      WordsFollow(data, p + 4, ws[1..]);
      forall i | 0 < i < |ws|
        ensures U32At(data, p + 4 * i, BigEndian) == ws[i]
      {
        assert ws[i] == ws[1..][i - 1];
        assert p + 4 + 4 * (i - 1) == p + 4 * i;
      }
    }
  }

  /** Where the data holds zero-free bytes and a zero, the zero-terminated read finds those bytes. */
  lemma {:induction false} ZeroTerminatedFollows(data: seq<byte>, p: nat, b: seq<byte>)
    requires Follows(data, p, b + [0]) && forall i :: 0 <= i < |b| ==> b[i] != 0
    ensures ZeroTerminatedAt(data, p) == Ok(b)
    decreases |b|
  {
    FollowsAt(data, p, b + [0], |b|);
    if |b| > 0 {
      assert (b + [0])[1..] == b[1..] + [0];
      ZeroTerminatedFollows(data, p + 1, b[1..]);
      assert b == [b[0]] + b[1..];
    }
  }

  /** A plain string written zero-terminated reads back as itself. */
  lemma StringFollows(data: seq<byte>, p: nat, s: string)
    requires Plain(s) && Follows(data, p, AsciiBytes(s) + [0])
    ensures StringAt(data, p) == Ok(s)
  {
    ZeroTerminatedFollows(data, p, AsciiBytes(s));
    AsciiRoundTrip(s);
  }

  /** String `i` of the zero-terminated run stands after the strings before it. */
  lemma {:induction false} TextFollows(data: seq<byte>, p: nat, strs: seq<string>, i: nat)
    requires Follows(data, p, ZeroTerminated(strs)) && i < |strs|
    ensures Follows(data, p + TextWidth(strs[..i]), AsciiBytes(strs[i]) + [0])
    decreases |strs|
  {
    var init := strs[..|strs| - 1];
    var last := strs[|strs| - 1];
    assert ZeroTerminated(strs) == ZeroTerminated(init) + (AsciiBytes(last) + [0]);
    FollowsSplit(data, p, ZeroTerminated(init), AsciiBytes(last) + [0]);
    if i < |strs| - 1 {
      TextFollows(data, p, init, i);
      assert init[..i] == strs[..i];
    } else {
      assert strs[..i] == init;
    }
  }

  /**
   * A node written as its type-and-length word, a run of offset words and
   * a body: the word and each offset read back, and the body follows.
   */
  lemma HeadedFollows(data: seq<byte>, at: nat, word: u32, ws: seq<u32>, body: seq<byte>)
    requires Follows(data, at, Encode32(word, BigEndian) + Words(ws) + body)
    ensures U32At(data, at, BigEndian) == word
    ensures forall k :: 0 <= k < |ws| ==> U32At(data, at + 4 + 4 * k, BigEndian) == ws[k]
    ensures Follows(data, at + 4 + 4 * |ws|, body)
  {
    FollowsSplit(data, at, Encode32(word, BigEndian) + Words(ws), body);
    FollowsSplit(data, at, Encode32(word, BigEndian), Words(ws));
    WordFollows(data, at, word, BigEndian);
    WordsFollow(data, at + 4, ws);
  }

  /** The text before string `i` and string `i` itself fit in the text of all strings. */
  lemma {:induction false} TextWidthPrefix(strs: seq<string>, i: nat)
    requires i < |strs|
    ensures TextWidth(strs[..i + 1]) == TextWidth(strs[..i]) + |strs[i]| + 1
    ensures TextWidth(strs[..i + 1]) <= TextWidth(strs)
    decreases |strs|
  {
    assert strs[..i + 1][..i] == strs[..i];
    if i + 1 < |strs| {
      TextWidthPrefix(strs[..|strs| - 1], i);
      assert strs[..|strs| - 1][..i + 1] == strs[..i + 1];
      assert strs[..|strs| - 1][..i] == strs[..i];
    } else {
      assert strs[..i + 1] == strs;
    }
  }

  /** The string array the writer emits for plain strings is where the reader finds them. */
  lemma StringArrayFollows(data: seq<byte>, at: nat, strs: seq<string>)
    requires AllPlain(strs) && StringArrayBytes(strs).Ok? && Follows(data, at, StringArrayBytes(strs).value)
    requires |data| < TwoTo32
    ensures StringTableAt(data, at, strs)
  {
    var word := TypeAndLength(StringArrayType, |strs|).value;
    var text := at + 4 + 4 * (|strs| + 1);
    HeadedFollows(data, at, word, StringOffsets(strs), ZeroTerminated(strs));
    forall i | 0 <= i < |strs|
      ensures StringAt(data, at + U32At(data, at + 4 + 4 * i, BigEndian)) == Ok(strs[i])
    {
      StringEntryFollows(data, at, strs, i);
    }
  }

  /** Entry `i` of a written string array: its offset leads to its string. */
  lemma StringEntryFollows(data: seq<byte>, at: nat, strs: seq<string>, i: nat)
    requires i < |strs| && AllPlain(strs) && |data| < TwoTo32 && at + 4 + 4 * (|strs| + 1) <= |data|
    requires U32At(data, at + 4 + 4 * i, BigEndian) == StringOffsets(strs)[i]
    requires Follows(data, at + 4 + 4 * (|strs| + 1), ZeroTerminated(strs))
    ensures StringAt(data, at + U32At(data, at + 4 + 4 * i, BigEndian)) == Ok(strs[i])
  {
    var text := at + 4 + 4 * (|strs| + 1);
    var before := TextWidth(strs[..i]);
    TextWidthPrefix(strs, i);
    assert text + TextWidth(strs) <= |data|;
    assert StringOffsets(strs)[i] == Wrap32(4 + 4 * (|strs| + 1) + before);
    assert at + U32At(data, at + 4 + 4 * i, BigEndian) == text + before;
    TextFollows(data, text, strs, i);
    StringFollows(data, text + before, strs[i]);
  }

  /** Where the data holds a point's words, the reader's point is that point. */
  lemma PointFollows(data: seq<byte>, p: nat, pt: PathPoint)
    requires Follows(data, p, Words(PointWords(pt)))
    ensures p + 0x1C <= |data| && PointAt(data, p) == pt
  {
    WordsFollow(data, p, PointWords(pt));
    var ws := PointWords(pt);
    assert U32At(data, p + 4 * 0, BigEndian) == ws[0] && U32At(data, p + 4 * 1, BigEndian) == ws[1];
    assert U32At(data, p + 4 * 2, BigEndian) == ws[2] && U32At(data, p + 4 * 3, BigEndian) == ws[3];
    assert U32At(data, p + 4 * 4, BigEndian) == ws[4] && U32At(data, p + 4 * 5, BigEndian) == ws[5];
    assert U32At(data, p + 4 * 6, BigEndian) == ws[6];
  }

  /** Where the data holds a path's points, reading that many points gives the path. */
  lemma {:induction false} PathFollows(data: seq<byte>, p: nat, path: Path)
    requires Follows(data, p, PathBytes(path))
    ensures PathAt(data, p, |path|) == Ok(path)
    decreases |path|
  {
    if |path| > 0 {
      var init := path[..|path| - 1];
      var last := path[|path| - 1];
      FollowsSplit(data, p, PathBytes(init), Words(PointWords(last)));
      PathFollows(data, p, init);
      PointFollows(data, p + 0x1C * |init|, last);
      PathExtends(data, p, path);
    } else {
      assert PathAt(data, p, 0).value == [];
    }
  }

  /** A path read one point longer is the shorter read and the point after it. */
  lemma PathExtends(data: seq<byte>, p: nat, path: Path)
    requires |path| > 0 && p + 0x1C * |path| <= |data|
    requires PathAt(data, p, |path| - 1) == Ok(path[..|path| - 1])
    requires PointAt(data, p + 0x1C * (|path| - 1)) == path[|path| - 1]
    ensures PathAt(data, p, |path|) == Ok(path)
  {
    var read := PathAt(data, p, |path|).value;
    var shorter := PathAt(data, p, |path| - 1).value;
    forall k | 0 <= k < |path|
      ensures read[k] == path[k]
    {
      if k < |path| - 1 {
        assert read[k] == shorter[k];
      }
    }
    assert read == path;
  }

  /** Path `i` of the run stands after the points of the paths before it. */
  lemma {:induction false} PathsFollow(data: seq<byte>, p: nat, paths: seq<Path>, i: nat)
    requires Follows(data, p, PathsBytes(paths)) && i < |paths|
    ensures Follows(data, p + 0x1C * PointTotal(paths[..i]), PathBytes(paths[i]))
    decreases |paths|
  {
    var init := paths[..|paths| - 1];
    FollowsSplit(data, p, PathsBytes(init), PathBytes(paths[|paths| - 1]));
    if i < |paths| - 1 {
      PathsFollow(data, p, init, i);
      assert init[..i] == paths[..i];
    } else {
      assert paths[..i] == init;
    }
  }

  lemma {:induction false} PointTotalPrefix(paths: seq<Path>, i: nat)
    requires i < |paths|
    ensures PointTotal(paths[..i + 1]) == PointTotal(paths[..i]) + |paths[i]|
    ensures PointTotal(paths[..i + 1]) <= PointTotal(paths)
    decreases |paths|
  {
    assert paths[..i + 1][..i] == paths[..i];
    if i + 1 < |paths| {
      PointTotalPrefix(paths[..|paths| - 1], i);
      assert paths[..|paths| - 1][..i + 1] == paths[..i + 1];
      assert paths[..|paths| - 1][..i] == paths[..i];
    } else {
      assert paths[..i + 1] == paths;
    }
  }

  /** The path array the writer emits is where the reader finds its paths. */
  lemma PathArrayFollows(data: seq<byte>, at: nat, paths: seq<Path>)
    requires PathArrayBytes(paths).Ok? && Follows(data, at, PathArrayBytes(paths).value)
    requires |data| < TwoTo32
    ensures PathTableAt(data, at, paths)
  {
    var word := TypeAndLength(PathArrayType, |paths|).value;
    var offsets := PathOffsets(paths);
    HeadedFollows(data, at, word, offsets, PathsBytes(paths));
    assert word == PathArrayType * LengthLimit + |paths|;
    PathTableFollows(data, at, paths);
  }

  /** A path array's word, offsets and points, read in place, make its table. */
  lemma PathTableFollows(data: seq<byte>, at: nat, paths: seq<Path>)
    requires |paths| < LengthLimit && at + 4 + 4 * (|paths| + 1) <= |data| < TwoTo32
    requires U32At(data, at, BigEndian) == PathArrayType * LengthLimit + |paths|
    requires forall k :: 0 <= k < |PathOffsets(paths)| ==> U32At(data, at + 4 + 4 * k, BigEndian) == PathOffsets(paths)[k]
    requires Follows(data, at + 4 + 4 * |PathOffsets(paths)|, PathsBytes(paths))
    ensures PathTableAt(data, at, paths)
  {
    forall i | 0 <= i < |paths|
      ensures PathAt(data, at + U32At(data, at + 4 + 4 * i, BigEndian),
                     PointCount(U32At(data, at + 4 + 4 * i, BigEndian), U32At(data, at + 8 + 4 * i, BigEndian))) == Ok(paths[i])
    {
      assert at + 8 + 4 * i == at + 4 + 4 * (i + 1);
      PathOffsetsAt(paths, i);
      PathEntryFollows(data, at, paths, i);
    }
  }

  /** Path `i` of a written run of points reads back. */
  lemma PathEntryRead(data: seq<byte>, points: nat, paths: seq<Path>, i: nat)
    requires Follows(data, points, PathsBytes(paths)) && i < |paths|
    ensures PathAt(data, points + 0x1C * PointTotal(paths[..i]), |paths[i]|) == Ok(paths[i])
  {
    var q := points + 0x1C * PointTotal(paths[..i]);
    var path := paths[i];
    PathsFollow(data, points, paths, i);
    PathFollows(data, q, path);
    assert PathAt(data, q, |path|) == Ok(path);
  }

  /** Entry `i` of a written path array: its offset pair bounds exactly its points. */
  lemma PathEntryFollows(data: seq<byte>, at: nat, paths: seq<Path>, i: nat)
    requires i < |paths| && at + 4 + 4 * (|paths| + 1) <= |data| < TwoTo32
    requires U32At(data, at + 4 + 4 * i, BigEndian) == PathOffset(paths, i)
    requires U32At(data, at + 4 + 4 * (i + 1), BigEndian) == PathOffset(paths, i + 1)
    requires Follows(data, at + 4 + 4 * |PathOffsets(paths)|, PathsBytes(paths))
    ensures PathAt(data, at + U32At(data, at + 4 + 4 * i, BigEndian),
                   PointCount(U32At(data, at + 4 + 4 * i, BigEndian), U32At(data, at + 4 + 4 * (i + 1), BigEndian))) == Ok(paths[i])
  {
    var points := at + 4 + 4 * (|paths| + 1);
    PathsFit(data, points, paths);
    PathEntryRead(data, points, paths, i);
    PathOffsetPair(paths, i, points + 0x1C * PointTotal(paths));
  }

  lemma PathOffsetsAt(paths: seq<Path>, i: nat)
    requires i < |paths|
    ensures PathOffsets(paths)[i] == PathOffset(paths, i) && PathOffsets(paths)[i + 1] == PathOffset(paths, i + 1)
  {
  }

  /** Path `i`'s pair of offsets: where its points start, and how many they are. */
  lemma PathOffsetPair(paths: seq<Path>, i: nat, end: nat)
    requires i < |paths| && 4 + 4 * (|paths| + 1) + 0x1C * PointTotal(paths) <= end < TwoTo32
    ensures PathOffset(paths, i) == 4 + 4 * (|paths| + 1) + 0x1C * PointTotal(paths[..i])
    ensures PointCount(PathOffset(paths, i), PathOffset(paths, i + 1)) == |paths[i]|
  {
    PointTotalPrefix(paths, i);
    PathOffsetAt(paths, i, end);
    PathOffsetAt(paths, i + 1, end);
    assert (0x1C * |paths[i]|) / 0x1C == |paths[i]|;
  }

  lemma PathsFit(data: seq<byte>, p: nat, paths: seq<Path>)
    requires Follows(data, p, PathsBytes(paths))
    ensures p + 0x1C * PointTotal(paths) <= |data|
  {
  }

  /** Where the run of points ends below 4 GiB, path `i`'s offset takes no wrap. */
  lemma PathOffsetAt(paths: seq<Path>, i: nat, end: nat)
    requires i <= |paths| && 4 + 4 * (|paths| + 1) + 0x1C * PointTotal(paths) <= end < TwoTo32
    ensures PathOffset(paths, i) == 4 + 4 * (|paths| + 1) + 0x1C * PointTotal(paths[..i])
  {
    PointTotalWithin(paths, i);
    var x := 4 + 4 * (|paths| + 1) + 0x1C * PointTotal(paths[..i]);
    assert PathOffset(paths, i) == Wrap32(x);
  }

  lemma PointTotalWithin(paths: seq<Path>, i: nat)
    requires i <= |paths|
    ensures PointTotal(paths[..i]) <= PointTotal(paths)
  {
    if i < |paths| {
      PointTotalPrefix(paths, i);
    } else {
      assert paths[..i] == paths;
    }
  }
}
