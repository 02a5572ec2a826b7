/**
 * The writer's node contents, wherever they stand in the data, are laid out
 * as the reader expects a node: the type-and-length word, the element types
 * or dictionary records, the slots, and each child collection at the offset
 * its slot names.
 */
module ByamlContents {
  import opened Wrappers
  import opened Bytes
  import opened ByamlNode
  import opened ByamlReader
  import opened ByamlWriter
  import opened ByamlLayout
  import opened ByamlTables

  /**
   * Contents the writer produced for `n` at `at`, standing there in the
   * data, are the node `n` at `at`.  Strings and keys must survive the
   * ASCII encoder, and the data must stay below 4 GiB so that no offset
   * wraps.
   */
  lemma {:induction false} ContentsLaidOut(tb: Collected, data: seq<byte>, n: Node, at: nat, b: seq<byte>)
    requires WellFormed(n) && PlainText(n) && |data| < TwoTo32
    requires ContentsBytes(tb, n, at) == Ok(b) && Follows(data, at, b)
    ensures NodeAt(tb, data, at, n)
    decreases n, 3, 0, 0
  {
    match n
    case Array(vs) =>
      var kids := ArrayStep(tb, n, at, b);
      ArrayLaidOut(tb, data, n, at, kids, b);
    case Dictionary(keys, vs) =>
      var kids := DictionaryStep(tb, n, at, b);
      DictionaryParts(tb, data, n, at, kids, b);
      DictionaryLaidOut(tb, data, n, at, kids);
    case StringArray(vs) => StringArrayFollows(data, at, StringsOf(vs));
    case PathArray(vs) => PathArrayFollows(data, at, PathsOf(vs));
  }

  /** The array case of `ContentsLaidOut`, its bytes taken apart by `ArrayStep`. */
  lemma {:induction false} ArrayLaidOut(tb: Collected, data: seq<byte>, n: Node, at: nat, kids: Placed, b: seq<byte>)
    requires WellFormed(n) && PlainText(n) && n.Array? && |data| < TwoTo32
    requires |n.values| < LengthLimit && Children(tb, n, 0, Align4(at + 4 + |n.values|) + 4 * |n.values|) == Ok(kids)
    requires |kids.offsets| == |n.values| && b == ArrayBytes(tb, n, at, kids) && Follows(data, at, b)
    ensures NodeAt(tb, data, at, n)
    decreases n, 2, 0, 0
  {
    ArrayChildrenFollow(tb, data, n, at, kids, b);
    CollectionLaidOut(tb, data, n, Align4(at + 4 + |n.values|) + 4 * |n.values|, kids);
    ArrayFromParts(tb, data, n, at, kids, b);
  }

  /** The dictionary case of `ContentsLaidOut`, its bytes taken apart by `DictionaryStep` and `DictionaryParts`. */
  lemma {:induction false} DictionaryLaidOut(tb: Collected, data: seq<byte>, n: Node, at: nat, kids: Placed)
    requires WellFormed(n) && PlainText(n) && n.Dictionary? && |data| < TwoTo32
    requires |n.values| < LengthLimit && |n.keys| == |n.values| && Children(tb, n, 0, at + 4 + 8 * |n.values|) == Ok(kids)
    requires |kids.offsets| == |n.values| && at + 4 + 8 * |n.values| <= |data|
    requires Follows(data, at + 4 + 8 * |n.values|, kids.bytes)
    requires U32At(data, at, BigEndian) == DictionaryType * LengthLimit + |n.values|
    requires forall i :: 0 <= i < |n.values| ==> U32At(data, at + 4 + 8 * i, BigEndian) == KeyWord(tb, n.keys[i], n.values[i])
    requires forall i :: 0 <= i < |n.values| ==>
      U32At(data, at + 8 + 8 * i, BigEndian) == SlotWord(tb, n.values[i], kids.offsets[i])
    ensures NodeAt(tb, data, at, n)
    decreases n, 2, 0, 0
  {
    CollectionLaidOut(tb, data, n, at + 4 + 8 * |n.values|, kids);
    DictionaryAt(tb, data, n, at, kids.offsets);
  }

  /** The children's contents of an array or dictionary, standing from `q` on, put each collection child at its recorded offset. */
  lemma {:induction false} CollectionLaidOut(tb: Collected, data: seq<byte>, n: Node, q: nat, kids: Placed)
    requires WellFormed(n) && PlainText(n) && (n.Array? || n.Dictionary?) && |data| < TwoTo32
    requires Children(tb, n, 0, q) == Ok(kids) && Follows(data, q, kids.bytes)
    ensures ChildrenAt(tb, data, n, 0, kids.offsets)
    decreases n, 1, 0, 0
  {
    ChildrenLaidOut(tb, data, n, 0, q, kids);
  }

  /** The bytes of an array: its word, the element types, padding, the slots, then the children's contents. */
  function ArrayBytes(tb: Collected, n: Node, at: nat, kids: Placed): seq<byte>
    requires n.Array? && |n.values| < LengthLimit && |kids.offsets| == |n.values|
  {
    ArrayHead(n.values, at) + Words(SlotWords(tb, n.values, kids.offsets)) + kids.bytes
  }

  /** An array the writer accepted has fewer than 2^24 elements, and its bytes are the array layout. */
  lemma ArrayStep(tb: Collected, n: Node, at: nat, b: seq<byte>) returns (kids: Placed)
    requires WellFormed(n) && n.Array? && ContentsBytes(tb, n, at) == Ok(b)
    ensures |n.values| < LengthLimit && Children(tb, n, 0, Align4(at + 4 + |n.values|) + 4 * |n.values|) == Ok(kids)
    ensures |kids.offsets| == |n.values| && b == ArrayBytes(tb, n, at, kids)
  {
    var vs := n.values;
    var word := TypeAndLength(ArrayType, |vs|);
    var placed := Children(tb, n, 0, Align4(at + 4 + |vs|) + 4 * |vs|);
    assert word.Ok? && placed.Ok? && b == Encode32(word.value, BigEndian) + TypeBytes(vs) + Padding(at + 4 + |vs|) +
      Words(SlotWords(tb, vs, placed.value.offsets)) + placed.value.bytes;
    kids := placed.value;
  }

  /** Where an array's bytes stand, the reader finds its word, its element types and its slots. */
  lemma ArrayParts(tb: Collected, data: seq<byte>, n: Node, at: nat, kids: Placed, b: seq<byte>)
    requires n.Array? && |n.values| < LengthLimit && |kids.offsets| == |n.values| && b == ArrayBytes(tb, n, at, kids) && Follows(data, at, b)
    ensures var start := Align4(at + 4 + |n.values|);
      start + 4 * |n.values| <= |data| && Follows(data, start + 4 * |n.values|, kids.bytes)
    ensures U32At(data, at, BigEndian) == ArrayType * LengthLimit + |n.values|
    ensures forall i :: 0 <= i < |n.values| ==> data[at + 4 + i] == TypeOf(n.values[i])
    ensures forall i :: 0 <= i < |n.values| ==>
      U32At(data, Align4(at + 4 + |n.values|) + 4 * i, BigEndian) == SlotWord(tb, n.values[i], kids.offsets[i])
  {
    var vs := n.values;
    var slots := SlotWords(tb, vs, kids.offsets);
    var head := ArrayHead(vs, at);
    assert b == head + Words(slots) + kids.bytes;
    FollowsThree(data, at, head, Words(slots), kids.bytes);
    ArrayHeadParts(data, at, vs);
    WordsFollow(data, at + |head|, slots);
  }

  /** An array's word, its element types and the padding to the next four-byte boundary. */
  function ArrayHead(vs: seq<Node>, at: nat): (b: seq<byte>)
    requires |vs| < LengthLimit
    ensures at + |b| == Align4(at + 4 + |vs|)
  {
    Encode32(ArrayType * LengthLimit + |vs|, BigEndian) + TypeBytes(vs) + Padding(at + 4 + |vs|)
  }

  /** Where an array's head stands, the reader finds its word and its element types. */
  lemma ArrayHeadParts(data: seq<byte>, at: nat, vs: seq<Node>)
    requires |vs| < LengthLimit && Follows(data, at, ArrayHead(vs, at))
    ensures at + 4 + |vs| <= |data| && U32At(data, at, BigEndian) == ArrayType * LengthLimit + |vs|
    ensures forall i :: 0 <= i < |vs| ==> data[at + 4 + i] == TypeOf(vs[i])
  {
    FollowsThree(data, at, Encode32(ArrayType * LengthLimit + |vs|, BigEndian), TypeBytes(vs), Padding(at + 4 + |vs|));
    WordFollows(data, at, ArrayType * LengthLimit + |vs|, BigEndian);
    forall i | 0 <= i < |vs|
      ensures data[at + 4 + i] == TypeOf(vs[i])
    {
      FollowsAt(data, at + 4, TypeBytes(vs), i);
    }
  }

  /** Padding to the next four-byte boundary, then `c`, then `r`: `c` stands at the boundary and `r` right after it. */
  lemma PaddedFollows(data: seq<byte>, q: nat, bytes: seq<byte>, c: seq<byte>, r: seq<byte>)
    requires bytes == Padding(q) + c + r && Follows(data, q, bytes)
    ensures Follows(data, Align4(q), c) && Follows(data, Align4(q) + |c|, r)
  {
    FollowsThree(data, q, Padding(q), c, r);
  }

  /** Three runs written one after another each stand at their place. */
  lemma FollowsThree(data: seq<byte>, p: nat, a: seq<byte>, b: seq<byte>, c: seq<byte>)
    requires Follows(data, p, a + b + c)
    ensures Follows(data, p, a) && Follows(data, p + |a|, b) && Follows(data, p + |a| + |b|, c)
  {
    FollowsSplit(data, p, a + b, c);
    FollowsSplit(data, p, a, b);
  }

  /** The children's contents of an array stand right after its slots. */
  lemma ArrayChildrenFollow(tb: Collected, data: seq<byte>, n: Node, at: nat, kids: Placed, b: seq<byte>)
    requires n.Array? && |n.values| < LengthLimit && |kids.offsets| == |n.values| && b == ArrayBytes(tb, n, at, kids) && Follows(data, at, b)
    ensures Follows(data, Align4(at + 4 + |n.values|) + 4 * |n.values|, kids.bytes)
  {
    ArrayParts(tb, data, n, at, kids, b);
  }

  /** An array's bytes in place, with its collection children in place, are the array. */
  lemma ArrayFromParts(tb: Collected, data: seq<byte>, n: Node, at: nat, kids: Placed, b: seq<byte>)
    requires n.Array? && |n.values| < LengthLimit && |data| < TwoTo32
    requires |kids.offsets| == |n.values| && b == ArrayBytes(tb, n, at, kids) && Follows(data, at, b)
    requires ChildrenAt(tb, data, n, 0, kids.offsets)
    ensures NodeAt(tb, data, at, n)
  {
    ArrayParts(tb, data, n, at, kids, b);
    ArrayAt(tb, data, n, at, kids.offsets);
  }

  /** An array whose word, types and slots stand at `at`, and whose collection children stand at their offsets, is there. */
  lemma ArrayAt(tb: Collected, data: seq<byte>, n: Node, at: nat, offsets: seq<nat>)
    requires n.Array? && |offsets| == |n.values| && |n.values| < LengthLimit && |data| < TwoTo32
    requires at + 4 + |n.values| <= |data| && Align4(at + 4 + |n.values|) + 4 * |n.values| <= |data|
    requires U32At(data, at, BigEndian) == ArrayType * LengthLimit + |n.values|
    requires forall i :: 0 <= i < |n.values| ==> data[at + 4 + i] == TypeOf(n.values[i])
    requires forall i :: 0 <= i < |n.values| ==>
      U32At(data, Align4(at + 4 + |n.values|) + 4 * i, BigEndian) == SlotWord(tb, n.values[i], offsets[i])
    requires ChildrenAt(tb, data, n, 0, offsets)
    ensures NodeAt(tb, data, at, n)
  {
    ArraySlots(tb, data, n, Align4(at + 4 + |n.values|), offsets);
  }

  /** Each slot from `base` on holds its element: the scalar's word, or the offset of the collection standing there. */
  lemma ArraySlots(tb: Collected, data: seq<byte>, n: Node, base: nat, offsets: seq<nat>)
    requires n.Array? && |n.values| == |offsets| && |data| < TwoTo32 && base + 4 * |n.values| <= |data|
    requires forall i :: 0 <= i < |n.values| ==>
      U32At(data, base + 4 * i, BigEndian) == SlotWord(tb, n.values[i], offsets[i])
    requires ChildrenAt(tb, data, n, 0, offsets)
    ensures forall i :: 0 <= i < |n.values| ==> SlotHolds(tb, data, base + 4 * i, n.values[i])
  {
    var vs := n.values;
    forall i | 0 <= i < |vs|
      ensures SlotHolds(tb, data, base + 4 * i, vs[i])
    {
      if IsCollection(vs[i]) {
        ChildrenAtEach(tb, data, n, 0, offsets);
        assert offsets[i - 0] == offsets[i];
        CollectionSlot(tb, data, base + 4 * i, vs[i], offsets[i]);
      }
    }
  }

  /** A slot holding the offset `o` of a collection that stands at `o` holds that collection. */
  lemma CollectionSlot(tb: Collected, data: seq<byte>, p: nat, v: Node, o: nat)
    requires IsCollection(v) && p + 4 <= |data| && o < TwoTo32
    requires U32At(data, p, BigEndian) == SlotWord(tb, v, o) && NodeAt(tb, data, o, v)
    ensures SlotHolds(tb, data, p, v)
  {
  }

  /** The bytes of a dictionary: its word, the records, then the children's contents. */
  function DictionaryBytes(tb: Collected, n: Node, kids: Placed): seq<byte>
    requires n.Dictionary? && |n.values| < LengthLimit && |n.keys| == |n.values| == |kids.offsets|
  {
    Encode32(DictionaryType * LengthLimit + |n.values|, BigEndian) +
    Words(EntryWords(tb, n.keys, n.values, kids.offsets)) + kids.bytes
  }

  /** A dictionary the writer accepted has fewer than 2^24 entries, and its bytes are the dictionary layout. */
  lemma DictionaryStep(tb: Collected, n: Node, at: nat, b: seq<byte>) returns (kids: Placed)
    requires WellFormed(n) && n.Dictionary? && ContentsBytes(tb, n, at) == Ok(b)
    ensures |n.values| < LengthLimit && |n.keys| == |n.values|
    ensures Children(tb, n, 0, at + 4 + 8 * |n.values|) == Ok(kids)
    ensures |kids.offsets| == |n.values| && b == DictionaryBytes(tb, n, kids)
  {
    kids := Children(tb, n, 0, at + 4 + 8 * |n.values|).value;
  }

  /** Where a dictionary's bytes stand, the reader finds its word, its key words and its slots. */
  lemma DictionaryParts(tb: Collected, data: seq<byte>, n: Node, at: nat, kids: Placed, b: seq<byte>)
    requires n.Dictionary? && |n.values| < LengthLimit && |n.keys| == |n.values| == |kids.offsets| &&
      b == DictionaryBytes(tb, n, kids) && Follows(data, at, b)
    ensures at + 4 + 8 * |n.values| <= |data| && Follows(data, at + 4 + 8 * |n.values|, kids.bytes)
    ensures U32At(data, at, BigEndian) == DictionaryType * LengthLimit + |n.values|
    ensures forall i :: 0 <= i < |n.values| ==> U32At(data, at + 4 + 8 * i, BigEndian) == KeyWord(tb, n.keys[i], n.values[i])
    ensures forall i :: 0 <= i < |n.values| ==>
      U32At(data, at + 8 + 8 * i, BigEndian) == SlotWord(tb, n.values[i], kids.offsets[i])
  {
    var entries := EntryWords(tb, n.keys, n.values, kids.offsets);
    HeadedFollows(data, at, DictionaryType * LengthLimit + |n.values|, entries, kids.bytes);
    RecordsAt(tb, data, n, at, kids.offsets);
  }

  /** The records read back word by word: record `i`'s key word and slot stand `8 * i` bytes apart. */
  lemma RecordsAt(tb: Collected, data: seq<byte>, n: Node, at: nat, offsets: seq<nat>)
    requires n.Dictionary? && |n.keys| == |n.values| == |offsets|
    requires at + 4 + 8 * |n.values| <= |data|
    requires forall k :: 0 <= k < 2 * |n.values| ==>
      U32At(data, at + 4 + 4 * k, BigEndian) == EntryWords(tb, n.keys, n.values, offsets)[k]
    ensures forall i :: 0 <= i < |n.values| ==> U32At(data, at + 4 + 8 * i, BigEndian) == KeyWord(tb, n.keys[i], n.values[i])
    ensures forall i :: 0 <= i < |n.values| ==>
      U32At(data, at + 8 + 8 * i, BigEndian) == SlotWord(tb, n.values[i], offsets[i])
  {
    var entries := EntryWords(tb, n.keys, n.values, offsets);
    forall i | 0 <= i < |n.values|
      ensures U32At(data, at + 4 + 8 * i, BigEndian) == KeyWord(tb, n.keys[i], n.values[i])
      ensures U32At(data, at + 8 + 8 * i, BigEndian) == SlotWord(tb, n.values[i], offsets[i])
    {
      assert U32At(data, at + 4 + 4 * (2 * i), BigEndian) == entries[2 * i];
      assert U32At(data, at + 4 + 4 * (2 * i + 1), BigEndian) == entries[2 * i + 1];
    }
  }

  /** A dictionary whose word and records stand at `at`, and whose collection children stand at their offsets, is there. */
  lemma DictionaryAt(tb: Collected, data: seq<byte>, n: Node, at: nat, offsets: seq<nat>)
    requires n.Dictionary? && |n.keys| == |n.values| == |offsets| && |n.values| < LengthLimit && |data| < TwoTo32
    requires at + 4 + 8 * |n.values| <= |data|
    requires U32At(data, at, BigEndian) == DictionaryType * LengthLimit + |n.values|
    requires forall i :: 0 <= i < |n.values| ==> U32At(data, at + 4 + 8 * i, BigEndian) == KeyWord(tb, n.keys[i], n.values[i])
    requires forall i :: 0 <= i < |n.values| ==>
      U32At(data, at + 8 + 8 * i, BigEndian) == SlotWord(tb, n.values[i], offsets[i])
    requires ChildrenAt(tb, data, n, 0, offsets)
    ensures NodeAt(tb, data, at, n)
  {
    DictionarySlots(tb, data, n, at, offsets);
  }

  /** Each record's second word holds its value: the scalar's word, or the offset of the collection standing there. */
  lemma DictionarySlots(tb: Collected, data: seq<byte>, n: Node, at: nat, offsets: seq<nat>)
    requires n.Dictionary? && |n.values| == |offsets| && |data| < TwoTo32 && at + 4 + 8 * |n.values| <= |data|
    requires forall i :: 0 <= i < |n.values| ==>
      U32At(data, at + 8 + 8 * i, BigEndian) == SlotWord(tb, n.values[i], offsets[i])
    requires ChildrenAt(tb, data, n, 0, offsets)
    ensures forall i :: 0 <= i < |n.values| ==> SlotHolds(tb, data, at + 8 + 8 * i, n.values[i])
  {
    var vs := n.values;
    forall i | 0 <= i < |vs|
      ensures SlotHolds(tb, data, at + 8 + 8 * i, vs[i])
    {
      if IsCollection(vs[i]) {
        ChildrenAtEach(tb, data, n, 0, offsets);
        assert offsets[i - 0] == offsets[i];
        CollectionSlot(tb, data, at + 8 + 8 * i, vs[i], offsets[i]);
      }
    }
  }

  /**
   * A collection child: its contents at the next four-byte boundary, then
   * the remaining children right after them, each standing where it was
   * written.
   */
  lemma ChildStep(tb: Collected, data: seq<byte>, n: Node, i: nat, q: nat, placed: Placed) returns (c: seq<byte>, rest: Placed)
    requires WellFormed(n) && (n.Array? || n.Dictionary?) && i < |n.values| && IsCollection(n.values[i])
    requires Children(tb, n, i, q) == Ok(placed) && Follows(data, q, placed.bytes)
    ensures ContentsBytes(tb, n.values[i], Align4(q)) == Ok(c)
    ensures Children(tb, n, i + 1, Align4(q) + |c|) == Ok(rest)
    ensures placed.offsets == [Align4(q)] + rest.offsets
    ensures Follows(data, Align4(q), c) && Follows(data, Align4(q) + |c|, rest.bytes)
  {
    c := ContentsBytes(tb, n.values[i], Align4(q)).value;
    rest := Children(tb, n, i + 1, Align4(q) + |c|).value;
    PaddedFollows(data, q, placed.bytes, c, rest.bytes);
  }

  /** A scalar child: a zero offset, and the remaining children from the same place. */
  lemma ScalarStep(tb: Collected, n: Node, i: nat, q: nat, placed: Placed) returns (rest: Placed)
    requires WellFormed(n) && (n.Array? || n.Dictionary?) && i < |n.values| && !IsCollection(n.values[i])
    requires Children(tb, n, i, q) == Ok(placed)
    ensures Children(tb, n, i + 1, q) == Ok(rest)
    ensures placed.offsets == [0] + rest.offsets && placed.bytes == rest.bytes
  {
    rest := Children(tb, n, i + 1, q).value;
  }

  /** Each collection child from `i` on is the node at the offset recorded for it. */
  ghost predicate ChildrenAt(tb: Collected, data: seq<byte>, n: Node, i: nat, offsets: seq<nat>)
    requires (n.Array? || n.Dictionary?) && i <= |n.values| && |offsets| == |n.values| - i
    decreases |n.values| - i
  {
    i == |n.values| ||
    ((IsCollection(n.values[i]) ==> offsets[0] + 4 <= |data| && NodeAt(tb, data, offsets[0], n.values[i])) &&
     ChildrenAt(tb, data, n, i + 1, offsets[1..]))
  }

  /** Children in place one by one: each collection child from `i` on is the node at the offset recorded for it. */
  lemma {:induction false} ChildrenAtEach(tb: Collected, data: seq<byte>, n: Node, i: nat, offsets: seq<nat>)
    requires (n.Array? || n.Dictionary?) && i <= |n.values| && |offsets| == |n.values| - i
    requires ChildrenAt(tb, data, n, i, offsets)
    ensures forall k :: i <= k < |n.values| && IsCollection(n.values[k]) ==>
      offsets[k - i] + 4 <= |data| && NodeAt(tb, data, offsets[k - i], n.values[k])
    decreases |n.values| - i
  {
    if i < |n.values| {
      ChildrenAtEach(tb, data, n, i + 1, offsets[1..]);
      forall k | i < k < |n.values| && IsCollection(n.values[k])
        ensures offsets[k - i] + 4 <= |data| && NodeAt(tb, data, offsets[k - i], n.values[k])
      {
        assert offsets[1..][k - (i + 1)] == offsets[k - i];
      }
    }
  }

  /**
   * The contents `Children` wrote for the children of `n` from `i` on,
   * standing from `q` on: each collection child is the node at the offset
   * recorded for it.
   */
  lemma {:induction false} ChildrenLaidOut(tb: Collected, data: seq<byte>, n: Node, i: nat, q: nat, placed: Placed)
    requires WellFormed(n) && PlainText(n) && (n.Array? || n.Dictionary?) && i <= |n.values| && |data| < TwoTo32
    requires Children(tb, n, i, q) == Ok(placed) && Follows(data, q, placed.bytes)
    ensures ChildrenAt(tb, data, n, i, placed.offsets)
    decreases n, 0, |n.values| - i, 2
  {
    if i < |n.values| {
      if IsCollection(n.values[i]) {
        var c, rest := ChildStep(tb, data, n, i, q, placed);
        CollectionChildLaidOut(tb, data, n, i, Align4(q), placed.offsets, c, rest);
      } else {
        var rest := ScalarStep(tb, n, i, q, placed);
        ScalarChildLaidOut(tb, data, n, i, q, placed.offsets, rest);
      }
    }
  }

  /** `ChildrenLaidOut` when child `i` is a scalar, the rest taken apart by `ScalarStep`. */
  lemma {:induction false} ScalarChildLaidOut(tb: Collected, data: seq<byte>, n: Node, i: nat, q: nat,
                                              offsets: seq<nat>, rest: Placed)
    requires WellFormed(n) && PlainText(n) && (n.Array? || n.Dictionary?) && i < |n.values| && |data| < TwoTo32
    requires !IsCollection(n.values[i]) && Children(tb, n, i + 1, q) == Ok(rest) && offsets == [0] + rest.offsets
    requires Follows(data, q, rest.bytes)
    ensures |offsets| == |n.values| - i && ChildrenAt(tb, data, n, i, offsets)
    decreases n, 0, |n.values| - i, 1
  {
    ChildrenLaidOut(tb, data, n, i + 1, q, rest);
    ChildrenAtCons(tb, data, n, i, 0, rest.offsets);
  }

  /** `ChildrenLaidOut` when child `i` is a collection, its contents `c` at `p` and the rest taken apart by `ChildStep`. */
  lemma {:induction false} CollectionChildLaidOut(tb: Collected, data: seq<byte>, n: Node, i: nat, p: nat,
                                                  offsets: seq<nat>, c: seq<byte>, rest: Placed)
    requires WellFormed(n) && PlainText(n) && (n.Array? || n.Dictionary?) && i < |n.values| && |data| < TwoTo32
    requires IsCollection(n.values[i]) && ContentsBytes(tb, n.values[i], p) == Ok(c)
    requires Children(tb, n, i + 1, p + |c|) == Ok(rest) && offsets == [p] + rest.offsets
    requires Follows(data, p, c) && Follows(data, p + |c|, rest.bytes)
    ensures |offsets| == |n.values| - i && ChildrenAt(tb, data, n, i, offsets)
    decreases n, 0, |n.values| - i, 1
  {
    ChildrenLaidOut(tb, data, n, i + 1, p + |c|, rest);
    ChildLaidOut(tb, data, n, i, p, c);
    ChildrenAtCons(tb, data, n, i, p, rest.offsets);
  }

  /** The contents written for collection child `i` at `p`, standing there, are that child. */
  lemma {:induction false} ChildLaidOut(tb: Collected, data: seq<byte>, n: Node, i: nat, p: nat, c: seq<byte>)
    requires WellFormed(n) && PlainText(n) && (n.Array? || n.Dictionary?) && i < |n.values| && |data| < TwoTo32
    requires IsCollection(n.values[i]) && ContentsBytes(tb, n.values[i], p) == Ok(c) && Follows(data, p, c)
    ensures p + 4 <= |data| && NodeAt(tb, data, p, n.values[i])
    decreases n, 0, |n.values| - i, 0
  {
    ChildPlain(n, i);
    ContentsLaidOut(tb, data, n.values[i], p, c);
  }

  /** A child of a well-formed, plain collection is well-formed and plain. */
  lemma ChildPlain(n: Node, i: nat)
    requires WellFormed(n) && PlainText(n) && (n.Array? || n.Dictionary?) && i < |n.values|
    ensures WellFormed(n.values[i]) && PlainText(n.values[i])
  {
  }

  /** The children from `i` on are in place when child `i` is and those from `i + 1` on are. */
  lemma ChildrenAtCons(tb: Collected, data: seq<byte>, n: Node, i: nat, p: nat, offsets: seq<nat>)
    requires (n.Array? || n.Dictionary?) && i < |n.values| && |offsets| == |n.values| - i - 1
    requires IsCollection(n.values[i]) ==> p + 4 <= |data| && NodeAt(tb, data, p, n.values[i])
    requires ChildrenAt(tb, data, n, i + 1, offsets)
    ensures ChildrenAt(tb, data, n, i, [p] + offsets)
  {
    assert ([p] + offsets)[1..] == offsets;
  }
}
