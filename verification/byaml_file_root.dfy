/**
 * The file the BYAML writer emits holds its root where the header says: the
 * root offset at byte 16 names a position at which the root node, its
 * dictionaries in write order, stands as the reader expects it.
 */
module ByamlFileRoot {
  import opened Wrappers
  import opened Bytes
  import opened ByamlNode
  import opened ByamlReader
  import opened ByamlWriter
  import opened ByamlLayout
  import opened ByamlRoundTrip
  import opened ByamlContents
  import opened OrdinalOrder

  /**
   * The file the writer builds around `tb` and `root`: the header's root
   * offset names where the root's contents stand, and they are the root.
   */
  lemma FileRootLaidOut(tb: Collected, root: Node)
    requires WellFormed(root) && PlainText(root)
    requires FileBytes(tb, root).Ok? && |FileBytes(tb, root).value| < TwoTo32
    ensures var data := FileBytes(tb, root).value;
      HeaderSize <= |data| && U32At(data, 16, BigEndian) + 4 <= |data| &&
      NodeAt(tb, data, U32At(data, 16, BigEndian), root)
  {
    var data := FileBytes(tb, root).value;
    var at, body := FileParts(tb, root, data);
    ContentsLaidOut(tb, data, root, at, body);
  }

  /** The file taken apart: the header, whose root offset is `at`, and the root's contents `body` standing at `at`. */
  lemma FileParts(tb: Collected, root: Node, data: seq<byte>) returns (at: nat, body: seq<byte>)
    requires WellFormed(root) && FileBytes(tb, root) == Ok(data)
    ensures ContentsBytes(tb, root, at) == Ok(body) && Follows(data, at, body)
    ensures HeaderSize <= |data| && U32At(data, 16, BigEndian) == Wrap32(at)
  {
    var h;
    h, body := FileStep(tb, root, data);
    at := Align4(|HeadImage(h)|);
    RootAfterHead(h, body, data);
  }

  /** `FileBytes` is the header and tables `h`, padding, then the root's contents `body`. */
  lemma FileStep(tb: Collected, root: Node, data: seq<byte>) returns (h: Head, body: seq<byte>)
    requires WellFormed(root) && FileBytes(tb, root) == Ok(data)
    ensures ContentsBytes(tb, root, Align4(|HeadImage(h)|)) == Ok(body)
    ensures data == HeadImage(h) + Padding(|HeadImage(h)|) + body
  {
    h := HeadOf(tb).value;
    body := ContentsBytes(tb, root, Align4(|HeadImage(h)|)).value;
  }

  /** After the header and tables and the padding, `body` stands at the root offset the header records. */
  lemma RootAfterHead(h: Head, body: seq<byte>, data: seq<byte>)
    requires data == HeadImage(h) + Padding(|HeadImage(h)|) + body
    ensures HeaderSize <= |data| && U32At(data, 16, BigEndian) == Wrap32(Align4(|HeadImage(h)|))
    ensures Follows(data, Align4(|HeadImage(h)|), body)
  {
    var head := HeadImage(h);
    Regroup3(head, Padding(|head|), body);
    RootWord(h, Padding(|head|) + body);
    FollowsAfter(head + Padding(|head|), body);
  }

  /**
   * `Write`: the header's root offset names where the root stands, and the
   * node there is the root with its dictionaries in write order.  Keys and
   * strings must survive the ASCII encoder, and the file must stay below
   * 4 GiB so that no offset wraps.
   */
  lemma WrittenRootLaidOut(root: Node)
    requires WellFormed(root) && PlainText(root)
    requires Write(root).Ok? && |Write(root).value| < TwoTo32
    ensures var data := Write(root).value;
      HeaderSize <= |data| && U32At(data, 16, BigEndian) + 4 <= |data| &&
      NodeAt(TablesOf(root), data, U32At(data, 16, BigEndian), InWriteOrder(root))
  {
    WriteOrderPlain(root);
    FileRootLaidOut(TablesOf(root), InWriteOrder(root));
  }

  /** Sorting every dictionary's entries keeps the keys and strings the tree holds. */
  lemma {:induction false} WriteOrderPlain(n: Node)
    requires WellFormed(n) && PlainText(n)
    ensures PlainText(InWriteOrder(n))
    decreases n
  {
    var m := InWriteOrder(n);
    match n
    case Array(vs) =>
      forall i | 0 <= i < |m.values|
        ensures PlainText(m.values[i])
      {
        WriteOrderPlain(vs[i]);
      }
    case Dictionary(keys, vs) =>
      forall i | 0 <= i < |m.values|
        ensures Plain(m.keys[i]) && PlainText(m.values[i])
      {
        SameElements(m.keys, keys, m.keys[i]);
        var j :| 0 <= j < |keys| && keys[j] == m.keys[i];
        WriteOrderPlain(vs[j]);
      }
    case _ =>
  }

  /** The header's fourth offset is the first four-byte boundary after the header and tables. */
  lemma RootWord(h: Head, tail: seq<byte>)
    ensures HeaderSize <= |HeadImage(h) + tail|
    ensures U32At(HeadImage(h) + tail, 16, BigEndian) == Wrap32(Align4(|HeadImage(h)|))
  {
    var header := HeaderBytes(h.strings.at, h.paths.at, Align4(PathsStart(h) + |h.paths.bytes|));
    var rest := h.names + h.strings.bytes + h.paths.bytes + tail;
    Regroup(header, h.names, h.strings.bytes, h.paths.bytes, tail);
    HeaderReads(HeadImage(h) + tail, h.strings.at, h.paths.at, Align4(PathsStart(h) + |h.paths.bytes|), rest);
  }

  /** Five pieces of bytes regrouped after the first. */
  lemma Regroup(a: seq<byte>, b: seq<byte>, c: seq<byte>, d: seq<byte>, e: seq<byte>)
    ensures a + b + c + d + e == a + (b + c + d + e)
  {
  }

  /** Three pieces of bytes regrouped after the first. */
  lemma Regroup3(a: seq<byte>, b: seq<byte>, c: seq<byte>)
    ensures a + b + c == a + (b + c)
  {
  }
}
