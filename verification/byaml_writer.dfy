/**
 * The BYAML writer (`ByamlFile.Write`).  A first pass collects the
 * dictionary keys and the strings of the tree, each once, and the paths, each
 * time one occurs; keys and strings are then sorted ordinally.  The file is
 * the header, the name table, the string and path tables (or a zero word for
 * an empty one), then the root.  Every collection is written at a four-byte
 * boundary: its type-and-length word, its slots, then the contents of its
 * collection children in order, each slot of a child collection holding the
 * child's absolute offset.  Dictionaries are written with their entries
 * sorted by key.
 */
module ByamlWriter {
  import opened Wrappers
  import opened Bytes
  import opened ByamlNode
  import opened ByamlReader
  import opened OrdinalOrder

  /** The name, string and path tables. */
  datatype Collected = Collected(names: seq<string>, strings: seq<string>, paths: seq<Path>)

  /** A run of written bytes and the offsets of the child collections it holds (0 for a scalar child). */
  datatype Placed = Placed(offsets: seq<nat>, bytes: seq<byte>)

  /** Where a table landed (0 when it was left out) and the bytes written for it. */
  datatype Section = Section(at: nat, bytes: seq<byte>)

  /** Every string of `s` is in `t` too. */
  predicate Within<T(==)>(s: seq<T>, t: seq<T>)
  {
    forall x :: x in s ==> x in t
  }

  /** The tables only gain entries, each table keeping the entries it had. */
  predicate Grows(c: Collected, r: Collected)
  {
    Within(c.names, r.names) && Within(c.strings, r.strings) && Within(c.paths, r.paths)
  }

  /** A character the ASCII encoder keeps, and not the zero that ends a string. */
  predicate Plain(s: string)
  {
    forall i :: 0 <= i < |s| ==> 0 < s[i] as int < 0x80
  }

  predicate AllPlain(s: seq<string>)
  {
    forall i :: 0 <= i < |s| ==> Plain(s[i])
  }

  /** The keys, the strings and the strings of string arrays in the tree survive the ASCII encoder and zero termination. */
  ghost predicate PlainText(n: Node)
    decreases n
  {
    match n
    case StringIndex(s) => Plain(s)
    case Array(vs) => forall i :: 0 <= i < |vs| ==> PlainText(vs[i])
    case Dictionary(keys, vs) => AllPlain(keys) && forall i :: 0 <= i < |vs| ==> PlainText(vs[i])
    case StringArray(vs) => forall i :: 0 <= i < |vs| ==> vs[i].StringIndex? ==> Plain(vs[i].str)
    case _ => true
  }

  /** The tables hold every key, string and path of the tree. */
  ghost predicate Covered(tb: Collected, n: Node)
    decreases n
  {
    match n
    case StringIndex(s) => s in tb.strings
    case PathIndex(p) => p in tb.paths
    case Array(vs) => forall i :: 0 <= i < |vs| ==> Covered(tb, vs[i])
    case Dictionary(keys, vs) => Within(keys, tb.names) && forall i :: 0 <= i < |vs| ==> Covered(tb, vs[i])
    case _ => true
  }

  /**
   * `CollectNodeArrayContents`: a string is added when not yet present, a
   * path always; an array's children and a dictionary's entries are visited
   * in order, a dictionary adding each key not yet present before visiting
   * its value.  String and path arrays are not visited.
   */
  function Collect(n: Node, c: Collected): (r: Collected)
    ensures Grows(c, r)
    ensures Distinct(c.names) && Distinct(c.strings) ==> Distinct(r.names) && Distinct(r.strings)
    ensures AllPlain(c.names) && AllPlain(c.strings) && PlainText(n) ==> AllPlain(r.names) && AllPlain(r.strings)
    decreases n, 1
  {
    match n
    case StringIndex(s) => if s in c.strings then c else c.(strings := c.strings + [s])
    case PathIndex(p) => c.(paths := c.paths + [p])
    case Array(_) => CollectFrom(n, 0, c)
    case Dictionary(_, _) => CollectFrom(n, 0, c)
    case _ => c
  }

  /** The entries of an array or a dictionary from entry `i` on. */
  function CollectFrom(n: Node, i: nat, c: Collected): (r: Collected)
    requires n.Array? || n.Dictionary?
    ensures Grows(c, r)
    ensures Distinct(c.names) && Distinct(c.strings) ==> Distinct(r.names) && Distinct(r.strings)
    ensures AllPlain(c.names) && AllPlain(c.strings) && PlainText(n) ==> AllPlain(r.names) && AllPlain(r.strings)
    decreases n, 0, |n.values| - i
  {
    if i >= |n.values| then c
    else
      var named := if n.Dictionary? && i < |n.keys| && n.keys[i] !in c.names then c.(names := c.names + [n.keys[i]]) else c;
      CollectFrom(n, i + 1, Collect(n.values[i], named))
  }

  /** A tree covered by some tables is covered by any tables that grew from them. */
  lemma {:induction false} CoveredGrows(c: Collected, r: Collected, n: Node)
    requires Grows(c, r) && Covered(c, n)
    ensures Covered(r, n)
    decreases n
  {
    if n.Array? || n.Dictionary? {
      forall i | 0 <= i < |n.values|
        ensures Covered(r, n.values[i])
      {
        CoveredGrows(c, r, n.values[i]);
      }
    }
  }

  /** After collecting a tree, the tables cover it. */
  lemma {:induction false} CollectCovers(n: Node, c: Collected)
    requires WellFormed(n)
    ensures Covered(Collect(n, c), n)
    decreases n, 1
  {
    if n.Array? || n.Dictionary? {
      CollectFromCovers(n, 0, c);
    }
  }

  lemma {:induction false} CollectFromCovers(n: Node, i: nat, c: Collected)
    requires WellFormed(n) && (n.Array? || n.Dictionary?)
    ensures var r := CollectFrom(n, i, c);
      (forall k :: i <= k < |n.values| ==> Covered(r, n.values[k])) &&
      (n.Dictionary? ==> forall k :: i <= k < |n.values| && k < |n.keys| ==> n.keys[k] in r.names)
    decreases n, 0, |n.values| - i
  {
    if i < |n.values| {
      var named := if n.Dictionary? && i < |n.keys| && n.keys[i] !in c.names then c.(names := c.names + [n.keys[i]]) else c;
      var visited := Collect(n.values[i], named);
      var r := CollectFrom(n, i + 1, visited);
      CollectCovers(n.values[i], named);
      CoveredGrows(visited, r, n.values[i]);
      CollectFromCovers(n, i + 1, visited);
    }
  }

  /**
   * The writer's tables: the collected keys and strings, sorted ordinally,
   * and the paths in the order met.  Keys and strings are listed once each,
   * and the tables hold every key, string and path of the tree.
   */
  function TablesOf(root: Node): (tb: Collected)
    requires WellFormed(root)
    ensures Sorted(tb.names) && Sorted(tb.strings)
    ensures Distinct(tb.names) && Distinct(tb.strings)
    ensures Covered(tb, root)
    ensures PlainText(root) ==> AllPlain(tb.names) && AllPlain(tb.strings)
  {
    var c := Collect(root, Collected([], [], []));
    var tb := Collected(Sort(c.names), Sort(c.strings), c.paths);
    SortDistinct(c.names);
    SortDistinct(c.strings);
    assert Grows(c, tb) by {
      forall x | x in c.names
        ensures x in tb.names
      {
        SameElements(c.names, tb.names, x);
      }
      forall x | x in c.strings
        ensures x in tb.strings
      {
        SameElements(c.strings, tb.strings, x);
      }
    }
    CollectCovers(root, Collected([], [], []));
    CoveredGrows(c, tb, root);
    SortKeepsPlain(c.names);
    SortKeepsPlain(c.strings);
    tb
  }

  lemma SortKeepsPlain(s: seq<string>)
    ensures AllPlain(s) ==> AllPlain(Sort(s))
  {
    if AllPlain(s) {
      forall i | 0 <= i < |Sort(s)|
        ensures Plain(Sort(s)[i])
      {
        SameElements(Sort(s), s, Sort(s)[i]);
      }
    }
  }

  /** The position of a key among a dictionary's keys. */
  function KeyPosition(keys: seq<string>, key: string): (j: nat)
    requires key in keys
    ensures j < |keys| && keys[j] == key
  {
    FirstIndex(keys, key).value
  }

  /**
   * The tree as the writer lays it out: every dictionary's entries sorted by
   * key (`OrderBy(x => x.Key)`), each key keeping its value.
   */
  function InWriteOrder(n: Node): (m: Node)
    requires WellFormed(n)
    ensures WellFormed(m) && TypeOf(m) == TypeOf(n)
    ensures IsCollection(n) ==> |m.values| == |n.values|
    ensures !n.Array? && !n.Dictionary? ==> m == n
    ensures n.Array? ==> forall i :: 0 <= i < |n.values| ==> m.values[i] == InWriteOrder(n.values[i])
    ensures n.Dictionary? ==> Sorted(m.keys) && multiset(m.keys) == multiset(n.keys)
    ensures n.Dictionary? ==> forall i, j :: 0 <= i < |m.keys| && 0 <= j < |n.keys| && m.keys[i] == n.keys[j] ==>
      m.values[i] == InWriteOrder(n.values[j])
    decreases n
  {
    match n
    case Array(vs) => Array(seq(|vs|, i requires 0 <= i < |vs| => InWriteOrder(vs[i])))
    case Dictionary(keys, vs) =>
      var sorted := Sort(keys);
      SortDistinct(keys);
      assert forall i :: 0 <= i < |sorted| ==> sorted[i] in keys by {
        forall i | 0 <= i < |sorted|
          ensures sorted[i] in keys
        {
          SameElements(sorted, keys, sorted[i]);
        }
      }
      var m := Dictionary(sorted, seq(|sorted|, i requires 0 <= i < |sorted| => InWriteOrder(vs[KeyPosition(keys, sorted[i])])));
      assert forall i, j :: 0 <= i < |sorted| && 0 <= j < |keys| && sorted[i] == keys[j] ==> KeyPosition(keys, sorted[i]) == j;
      m
    case _ => n
  }

  /** `WriteTypeAndLength`: the type in the top byte, the count below; a count that needs more than 24 bits is refused. */
  function TypeAndLength(nodeType: byte, count: nat): (res: Result<u32>)
    ensures res.Ok? <==> count < LengthLimit
    ensures res.Err? ==> res.error == LengthOverflow
    ensures res.Ok? ==> res.value / LengthLimit == nodeType && res.value % LengthLimit == count
  {
    if count < LengthLimit then Ok(nodeType * LengthLimit + count) else Err(LengthOverflow)
  }

  /** The bitwise or of two naturals, bit by bit from the lowest. */
  function BitOr(a: nat, b: nat): nat
  {
    if a == 0 then b
    else if b == 0 then a
    else 2 * BitOr(a / 2, b / 2) + (if a % 2 == 1 || b % 2 == 1 then 1 else 0)
  }

  /**
   * `WriteTypeAndLength` as written: `(uint)type << 24 | (uint)node.Count`,
   * so a count of 2^24 or more runs into the type byte.
   */
  function TypeAndLengthAsWritten(nodeType: byte, count: nat): (w: u32)
    requires count < 0x8000_0000
    ensures w % LengthLimit == count % LengthLimit
  {
    Wrap32(BitOr(nodeType, count / LengthLimit) * LengthLimit + count % LengthLimit)
  }

  /** Below 2^24 entries the word as written is the refusing writer's word. */
  lemma TypeAndLengthAgrees(nodeType: byte, count: nat)
    requires count < LengthLimit
    ensures TypeAndLength(nodeType, count) == Ok(TypeAndLengthAsWritten(nodeType, count))
  {
    assert count / LengthLimit == 0;
  }

  /**
   * An array of 2^24 elements is written as the word of an empty
   * dictionary: the count's top bit lands on the array type's low bit.
   */
  lemma TypeAndLengthAsWrittenRetypes()
    ensures TypeAndLengthAsWritten(ArrayType, LengthLimit) / LengthLimit == DictionaryType
    ensures TypeAndLengthAsWritten(ArrayType, LengthLimit) % LengthLimit == 0
    ensures TypeAndLength(ArrayType, LengthLimit) == Err(LengthOverflow)
  {
    assert BitOr(ArrayType, 1) == DictionaryType;
  }

  /** `List.IndexOf`: the first position holding `x`, or -1. */
  function IndexOf<T(==)>(s: seq<T>, x: T): (i: int)
    ensures x in s ==> 0 <= i < |s| && s[i] == x && forall k :: 0 <= k < i ==> s[k] != x
    ensures x !in s ==> i == -1
  {
    match FirstIndex(s, x)
    case Some(i) => i
    case None => -1
  }

  /**
   * `WriteValue` for a scalar: a string or a path is its index in its table,
   * a boolean 1 or 0, an integer its 32 bits, a single its bits.
   */
  function ScalarWord(tb: Collected, v: Node): u32
  {
    match v
    case StringIndex(s) => Wrap32(IndexOf(tb.strings, s))
    case PathIndex(p) => Wrap32(IndexOf(tb.paths, p))
    case Boolean(b) => if b then 1 else 0
    case Integer(i) => Wrap32(i)
    case Float(bits) => bits
    case _ => 0
  }

  /** The slot of a child: a scalar's word, or the offset where a collection's contents were written. */
  function SlotWord(tb: Collected, v: Node, offset: nat): u32
  {
    if IsCollection(v) then Wrap32(offset) else ScalarWord(tb, v)
  }

  /** A dictionary record's first word: `keyIndex << 8 | type`, the index taken as a `uint`. */
  function KeyWord(tb: Collected, key: string, v: Node): u32
  {
    Wrap32(Wrap32(IndexOf(tb.names, key)) * 0x100 + TypeOf(v))
  }

  /** Big-endian words, one after another. */
  function Words(ws: seq<u32>): (b: seq<byte>)
    ensures |b| == 4 * |ws|
  {
    if |ws| == 0 then [] else Encode32(ws[0], BigEndian) + Words(ws[1..])
  }

  function Zeros(count: nat): (b: seq<byte>)
    ensures |b| == count && forall i :: 0 <= i < count ==> b[i] == 0
  {
    seq(count, i => 0)
  }

  /** `Align(4)` from position `q`: zeros up to the next four-byte boundary. */
  function Padding(q: nat): (b: seq<byte>)
    ensures q + |b| == Align4(q)
  {
    Zeros(Align4(q) - q)
  }

  /** `Encoding.ASCII`: a character below 0x80 is its byte, any other is '?'. */
  function AsciiBytes(s: string): (b: seq<byte>)
    ensures |b| == |s|
    ensures forall i :: 0 <= i < |s| ==> b[i] == if s[i] as int < 0x80 then s[i] as int else 0x3F
  {
    seq(|s|, i requires 0 <= i < |s| => if s[i] as int < 0x80 then s[i] as int else 0x3F)
  }

  /** The ASCII decoder undoes the encoder exactly on the strings whose characters are all below 0x80. */
  lemma AsciiRoundTrip(s: string)
    ensures AsciiString(AsciiBytes(s)) == s <==> forall i :: 0 <= i < |s| ==> s[i] as int < 0x80
  {
    var back := AsciiString(AsciiBytes(s));
    if forall i :: 0 <= i < |s| ==> s[i] as int < 0x80 {
      assert back == s;
    } else {
      var i :| 0 <= i < |s| && s[i] as int >= 0x80;
      assert back[i] == '?';
    }
  }

  /** The bytes the zero-terminated strings take. */
  function TextWidth(strs: seq<string>): nat
  {
    if |strs| == 0 then 0 else TextWidth(strs[..|strs| - 1]) + |strs[|strs| - 1]| + 1
  }

  /** The strings, each ASCII-encoded and followed by a zero. */
  function ZeroTerminated(strs: seq<string>): (b: seq<byte>)
    ensures |b| == TextWidth(strs)
  {
    if |strs| == 0 then [] else ZeroTerminated(strs[..|strs| - 1]) + AsciiBytes(strs[|strs| - 1]) + [0]
  }

  /** The offsets of a string array, relative to the node: past the length word and the `count + 1` offsets, each string after the last. */
  function StringOffsets(strs: seq<string>): (ws: seq<u32>)
    ensures |ws| == |strs| + 1
  {
    seq(|strs| + 1, i requires 0 <= i <= |strs| => Wrap32(4 + 4 * (|strs| + 1) + TextWidth(strs[..i])))
  }

  /** `WriteStringArrayNode`. */
  function StringArrayBytes(strs: seq<string>): (res: Result<seq<byte>>)
    ensures res.Ok? <==> |strs| < LengthLimit
  {
    var word :- TypeAndLength(StringArrayType, |strs|);
    Ok(Encode32(word, BigEndian) + Words(StringOffsets(strs)) + ZeroTerminated(strs))
  }

  /** `WritePathPoint`: the position, the normal, the unknown word. */
  function PointWords(pt: PathPoint): seq<u32>
  {
    [pt.position.x, pt.position.y, pt.position.z, pt.normal.x, pt.normal.y, pt.normal.z, pt.unknown]
  }

  /** `WritePathNode`: the points one after another. */
  function PathBytes(path: Path): (b: seq<byte>)
    ensures |b| == 0x1C * |path|
  {
    if |path| == 0 then [] else PathBytes(path[..|path| - 1]) + Words(PointWords(path[|path| - 1]))
  }

  /** The points the paths hold in all. */
  function PointTotal(paths: seq<Path>): nat
  {
    if |paths| == 0 then 0 else PointTotal(paths[..|paths| - 1]) + |paths[|paths| - 1]|
  }

  function PathsBytes(paths: seq<Path>): (b: seq<byte>)
    ensures |b| == 0x1C * PointTotal(paths)
  {
    if |paths| == 0 then [] else PathsBytes(paths[..|paths| - 1]) + PathBytes(paths[|paths| - 1])
  }

  function PathOffsets(paths: seq<Path>): (ws: seq<u32>)
    ensures |ws| == |paths| + 1
  {
    seq(|paths| + 1, i requires 0 <= i <= |paths| => PathOffset(paths, i))
  }

  /** Where path `i` starts, counted from the array node: past the word, the offsets and the earlier points. */
  function PathOffset(paths: seq<Path>, i: nat): u32
    requires i <= |paths|
  {
    Wrap32(4 + 4 * (|paths| + 1) + 0x1C * PointTotal(paths[..i]))
  }

  /** `WritePathArrayNode`. */
  function PathArrayBytes(paths: seq<Path>): (res: Result<seq<byte>>)
    ensures res.Ok? <==> |paths| < LengthLimit
  {
    var word :- TypeAndLength(PathArrayType, |paths|);
    Ok(Encode32(word, BigEndian) + Words(PathOffsets(paths)) + PathsBytes(paths))
  }

  /** `GetNodeType` of each element. */
  function TypeBytes(vs: seq<Node>): (b: seq<byte>)
    ensures |b| == |vs| && forall i :: 0 <= i < |vs| ==> b[i] == TypeOf(vs[i])
  {
    seq(|vs|, i requires 0 <= i < |vs| => TypeOf(vs[i]))
  }

  /** The children of an `IList<string>`: string nodes only. */
  predicate AllStrings(vs: seq<Node>)
  {
    forall i :: 0 <= i < |vs| ==> vs[i].StringIndex?
  }

  function StringsOf(vs: seq<Node>): (strs: seq<string>)
    requires AllStrings(vs)
    ensures |strs| == |vs| && forall i :: 0 <= i < |vs| ==> vs[i] == StringIndex(strs[i])
  {
    seq(|vs|, i requires 0 <= i < |vs| => vs[i].str)
  }

  predicate AllPaths(vs: seq<Node>)
  {
    forall i :: 0 <= i < |vs| ==> vs[i].PathIndex?
  }

  function PathsOf(vs: seq<Node>): (paths: seq<Path>)
    requires AllPaths(vs)
    ensures |paths| == |vs| && forall i :: 0 <= i < |vs| ==> vs[i] == PathIndex(paths[i])
  {
    seq(|vs|, i requires 0 <= i < |vs| => vs[i].path)
  }

  /** `WriteValue` accepts every child but a string or path array, which it cannot reference. */
  predicate Nestable(vs: seq<Node>)
  {
    forall i :: 0 <= i < |vs| ==> !vs[i].StringArray? && !vs[i].PathArray?
  }

  function SlotWords(tb: Collected, vs: seq<Node>, offsets: seq<nat>): (ws: seq<u32>)
    requires |offsets| == |vs|
    ensures |ws| == |vs| && forall i :: 0 <= i < |vs| ==> ws[i] == SlotWord(tb, vs[i], offsets[i])
  {
    seq(|vs|, i requires 0 <= i < |vs| => SlotWord(tb, vs[i], offsets[i]))
  }

  /** The dictionary records: per entry its key word, then its slot. */
  function EntryWords(tb: Collected, keys: seq<string>, vs: seq<Node>, offsets: seq<nat>): (ws: seq<u32>)
    requires |keys| == |vs| == |offsets|
    ensures |ws| == 2 * |vs|
    ensures forall i :: 0 <= i < |vs| ==>
      ws[2 * i] == KeyWord(tb, keys[i], vs[i]) && ws[2 * i + 1] == SlotWord(tb, vs[i], offsets[i])
  {
    if |vs| == 0 then []
    else
      var last := |vs| - 1;
      EntryWords(tb, keys[..last], vs[..last], offsets[..last]) +
      [KeyWord(tb, keys[last], vs[last]), SlotWord(tb, vs[last], offsets[last])]
  }

  /**
   * `WriteValueContents` for a collection written at `at`: an array's
   * type-and-length word, its element types, padding, its slots; a
   * dictionary's word and its records; then the children's contents.  A
   * string or path array is written inline; a scalar has no contents.
   */
  function ContentsBytes(tb: Collected, n: Node, at: nat): (res: Result<seq<byte>>)
    requires WellFormed(n)
    ensures res.Ok? ==> IsCollection(n) && |res.value| >= 4
    ensures !IsCollection(n) ==> res == Err(InvalidType)
    decreases n, 1
  {
    match n
    case Array(vs) =>
      var word :- TypeAndLength(ArrayType, |vs|);
      if !Nestable(vs) then Err(InvalidType)
      else
        var start := Align4(at + 4 + |vs|);
        var kids :- Children(tb, n, 0, start + 4 * |vs|);
        Ok(Encode32(word, BigEndian) + TypeBytes(vs) + Padding(at + 4 + |vs|) + Words(SlotWords(tb, vs, kids.offsets)) +
           kids.bytes)
    case Dictionary(keys, vs) =>
      var word :- TypeAndLength(DictionaryType, |vs|);
      if !Nestable(vs) then Err(InvalidType)
      else
        var kids :- Children(tb, n, 0, at + 4 + 8 * |vs|);
        Ok(Encode32(word, BigEndian) + Words(EntryWords(tb, keys, vs, kids.offsets)) + kids.bytes)
    case StringArray(vs) => if AllStrings(vs) then StringArrayBytes(StringsOf(vs)) else Err(InvalidType)
    case PathArray(vs) => if AllPaths(vs) then PathArrayBytes(PathsOf(vs)) else Err(InvalidType)
    case _ => Err(InvalidType)
  }

  /**
   * The contents of the children from `i` on, the first written from `q`:
   * each collection child at the next four-byte boundary, right after the
   * one before.
   */
  function Children(tb: Collected, n: Node, i: nat, q: nat): (res: Result<Placed>)
    requires WellFormed(n) && (n.Array? || n.Dictionary?) && i <= |n.values|
    ensures res.Ok? ==> |res.value.offsets| == |n.values| - i
    decreases n, 0, |n.values| - i
  {
    if i == |n.values| then Ok(Placed([], []))
    else if IsCollection(n.values[i]) then
      var p := Align4(q);
      var c :- ContentsBytes(tb, n.values[i], p);
      var rest :- Children(tb, n, i + 1, p + |c|);
      Ok(Placed([p] + rest.offsets, Padding(q) + c + rest.bytes))
    else
      var rest :- Children(tb, n, i + 1, q);
      Ok(Placed([0] + rest.offsets, rest.bytes))
  }

  /** A string or path table: left out with a zero word when empty, else written at the next four-byte boundary. */
  function TableSection(empty: bool, table: Result<seq<byte>>, q: nat): (res: Result<Section>)
    ensures empty ==> res == Ok(Section(0, Zeros(4)))
    ensures !empty && table.Ok? ==> res == Ok(Section(Align4(q), Padding(q) + table.value))
    ensures !empty && table.Err? ==> res == Err(table.error)
  {
    if empty then Ok(Section(0, Zeros(4)))
    else
      var b :- table;
      Ok(Section(Align4(q), Padding(q) + b))
  }

  /** The header's four offsets: the name table right after the header, the string table, the path table, the root. */
  function HeaderOffsets(strings: u32, paths: u32, root: u32): (ws: seq<u32>)
    ensures |ws| == 4
  {
    [20, strings, paths, root]
  }

  /**
   * `Write`: the "BY" magic, version 1 and the four offsets, the name table
   * right after the header, the string and path tables, then the root at
   * the next four-byte boundary.
   */
  function Write(root: Node): (res: Result<seq<byte>>)
    requires WellFormed(root)
  {
    FileBytes(TablesOf(root), InWriteOrder(root))
  }

  /** The three tables after the header: the name table from offset 20, then the string and path sections. */
  datatype Head = Head(names: seq<byte>, strings: Section, paths: Section)

  /** Where the string section starts: right after the name table. */
  function StringsStart(h: Head): nat
  {
    HeaderSize + |h.names|
  }

  /** Where the path section starts: right after the string section. */
  function PathsStart(h: Head): nat
  {
    StringsStart(h) + |h.strings.bytes|
  }

  /** The tables' bytes, each section placed after the one before it. */
  function HeadOf(tb: Collected): (res: Result<Head>)
    ensures res.Ok? ==> StringArrayBytes(tb.names) == Ok(res.value.names)
    ensures res.Ok? ==>
      TableSection(|tb.strings| == 0, StringArrayBytes(tb.strings), StringsStart(res.value)) == Ok(res.value.strings)
    ensures res.Ok? ==>
      TableSection(|tb.paths| == 0, PathArrayBytes(tb.paths), PathsStart(res.value)) == Ok(res.value.paths)
  {
    var names := StringArrayBytes(tb.names);
    if names.Err? then Err(names.error) else
    var strings := TableSection(|tb.strings| == 0, StringArrayBytes(tb.strings), HeaderSize + |names.value|);
    if strings.Err? then Err(strings.error) else
    var before := Head(names.value, strings.value, Section(0, []));
    var paths := TableSection(|tb.paths| == 0, PathArrayBytes(tb.paths), PathsStart(before));
    if paths.Err? then Err(paths.error) else
    Ok(before.(paths := paths.value))
  }

  /**
   * The header and the three tables: the magic, version 1 and the four
   * offsets, then the tables; the root's offset is the next four-byte
   * boundary after them.
   */
  function HeadImage(h: Head): (b: seq<byte>)
    ensures |b| == HeaderSize + |h.names| + |h.strings.bytes| + |h.paths.bytes|
  {
    HeaderBytes(h.strings.at, h.paths.at, Align4(PathsStart(h) + |h.paths.bytes|)) + h.names + h.strings.bytes + h.paths.bytes
  }

  /** The 20-byte header: "BY", version 1, then the offsets of the four tables, each taken as a `uint`. */
  function HeaderBytes(strings: nat, paths: nat, root: nat): (b: seq<byte>)
    ensures |b| == HeaderSize
  {
    ByamlTag + Encode16(1, BigEndian) + Words(HeaderOffsets(Wrap32(strings), Wrap32(paths), Wrap32(root)))
  }

  /** The file holding the tables `tb` and the root `root`, its dictionaries already in write order. */
  function FileBytes(tb: Collected, root: Node): (res: Result<seq<byte>>)
    requires WellFormed(root)
  {
    var h :- HeadOf(tb);
    var head := HeadImage(h);
    var body :- ContentsBytes(tb, root, Align4(|head|));
    Ok(head + Padding(|head|) + body)
  }
}
