/**
 * Where the BYAML reader finds what the writer wrote: a written node
 * described in the reader's own terms (the words at fixed positions, the
 * strings and paths its offsets lead to).
 */
module ByamlLayout {
  import opened Wrappers
  import opened Bytes
  import opened BinaryReader
  import opened ByamlNode
  import opened ByamlReader
  import opened ByamlWriter

  /**
   * A string-array node at `at` holding `strs`: its type-and-length word,
   * then one offset per string, relative to the node, at which the string
   * stands zero-terminated.
   */
  ghost predicate StringTableAt(data: seq<byte>, at: nat, strs: seq<string>)
  {
    at + 4 + 4 * |strs| <= |data| && |strs| < LengthLimit &&
    U32At(data, at, BigEndian) == StringArrayType * LengthLimit + |strs| &&
    forall i :: 0 <= i < |strs| ==> StringAt(data, at + U32At(data, at + 4 + 4 * i, BigEndian)) == Ok(strs[i])
  }

  /**
   * A path-array node at `at` holding `paths`: its word, then `count + 1`
   * offsets relative to the node; path `i` runs from offset `i` to offset
   * `i + 1`.
   */
  ghost predicate PathTableAt(data: seq<byte>, at: nat, paths: seq<Path>)
  {
    at + 4 + 4 * (|paths| + 1) <= |data| && |paths| < LengthLimit &&
    U32At(data, at, BigEndian) == PathArrayType * LengthLimit + |paths| &&
    forall i :: 0 <= i < |paths| ==>
      PathAt(data, at + U32At(data, at + 4 + 4 * i, BigEndian),
             PointCount(U32At(data, at + 4 + 4 * i, BigEndian), U32At(data, at + 8 + 4 * i, BigEndian))) == Ok(paths[i])
  }

  /**
   * The collection `n` at `at`: an array's word, element types and slots
   * from the next four-byte boundary; a dictionary's word and records, each
   * a key word naming the key's index in the name table and the value's
   * type, then the value's slot; a string or path array's table.
   */
  ghost predicate NodeAt(tb: Collected, data: seq<byte>, at: nat, n: Node)
    decreases n, 0
  {
    match n
    case Array(vs) =>
      at + 4 + |vs| <= |data| && |vs| < LengthLimit &&
      U32At(data, at, BigEndian) == ArrayType * LengthLimit + |vs| &&
      (forall i :: 0 <= i < |vs| ==> data[at + 4 + i] == TypeOf(vs[i])) &&
      forall i :: 0 <= i < |vs| ==> SlotHolds(tb, data, Align4(at + 4 + |vs|) + 4 * i, vs[i])
    case Dictionary(keys, vs) =>
      at + 4 + 8 * |vs| <= |data| && |vs| < LengthLimit && |keys| == |vs| &&
      U32At(data, at, BigEndian) == DictionaryType * LengthLimit + |vs| &&
      (forall i :: 0 <= i < |vs| ==> U32At(data, at + 4 + 8 * i, BigEndian) == KeyWord(tb, keys[i], vs[i])) &&
      forall i :: 0 <= i < |vs| ==> SlotHolds(tb, data, at + 8 + 8 * i, vs[i])
    case StringArray(vs) => AllStrings(vs) && StringTableAt(data, at, StringsOf(vs))
    case PathArray(vs) => AllPaths(vs) && PathTableAt(data, at, PathsOf(vs))
    case _ => false
  }

  /** The slot at `p` holds `v`: a scalar's word, or the offset of a collection standing there. */
  ghost predicate SlotHolds(tb: Collected, data: seq<byte>, p: nat, v: Node)
    decreases v, 1
  {
    p + 4 <= |data| &&
    if IsCollection(v) then NodeAt(tb, data, U32At(data, p, BigEndian), v)
    else U32At(data, p, BigEndian) == ScalarWord(tb, v)
  }

  /**
   * A scalar's slot word, read back with the scalar's type against the
   * tables the writer indexed, is the scalar: a string or path by its
   * position in its table, a boolean, an integer through the signed
   * reinterpretation, a single by its bits.
   */
  lemma ScalarWordReads(t: Tables, tb: Collected, v: Node)
    requires !IsCollection(v)
    requires t.strings == Some(tb.strings) && t.paths == Some(tb.paths)
    requires |tb.strings| <= 0x8000_0000 && |tb.paths| <= 0x8000_0000
    requires v.StringIndex? ==> v.str in tb.strings
    requires v.PathIndex? ==> v.path in tb.paths
    ensures ScalarNode(t, TypeOf(v), ScalarWord(tb, v)) == Ok(v)
  {
    if v.Integer? {
      assert ToInt32(Wrap32(v.i)) == v.i;
    }
  }

  /**
   * A dictionary record's first word splits back into the key's position in
   * the name table (the word over 0x100) and the value's type (the low byte),
   * as the reader splits it, while the name table has fewer than 2^24 keys.
   */
  lemma KeyWordSplits(tb: Collected, key: string, v: Node)
    requires key in tb.names && |tb.names| <= LengthLimit
    ensures KeyWord(tb, key, v) / 0x100 < |tb.names| && tb.names[KeyWord(tb, key, v) / 0x100] == key
    ensures KeyWord(tb, key, v) % 0x100 == TypeOf(v)
  {
    var k := ByamlWriter.IndexOf(tb.names, key);
    assert KeyWord(tb, key, v) == k * 0x100 + TypeOf(v);
  }
}
