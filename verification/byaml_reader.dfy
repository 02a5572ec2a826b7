/**
 * The BYAML reader (`ByamlFile.Read`): a big-endian header of "BY", version
 * 1 and four absolute offsets (name table, string table, path table, root),
 * then nodes.  A node read from the stream starts with its type byte; a node
 * whose type its parent already gave is a 4-byte slot, holding the value of
 * a scalar or the offset of a collection, after which the reader returns to
 * the slot's end.  A collection starts with a word whose low 24 bits are its
 * length.
 */
module ByamlReader {
  import opened Wrappers
  import opened Bytes
  import opened BinaryReader
  import opened ByamlNode

  /** The tables nodes refer to by index; a table not (yet) read is null. */
  datatype Tables = Tables(names: Option<seq<string>>, strings: Option<seq<string>>, paths: Option<seq<Path>>)

  /** A decoded value and the position the reader is left at. */
  datatype Decoded<T> = Decoded(value: T, next: nat)

  const HeaderSize: nat := 20
  const LengthLimit: nat := 0x100_0000

  /** `ReadUInt32` at a position: four big-endian bytes, or a short read. */
  function Word(data: seq<byte>, p: nat): (res: Result<u32>)
    ensures res.Ok? <==> p + 4 <= |data|
    ensures res.Ok? ==> res.value == U32At(data, p, BigEndian)
    ensures res.Err? ==> res.error == Truncated
  {
    if p + 4 <= |data| then Ok(U32At(data, p, BigEndian)) else Err(Truncated)
  }

  /** `Align(4)`: the next multiple of four from `p` on. */
  function Align4(p: nat): (q: nat)
    ensures q % 4 == 0 && p <= q < p + 4
  {
    (p + 3) / 4 * 4
  }

  /** The ASCII decoder: bytes below 0x80 are their characters, any other byte is '?'. */
  function AsciiString(b: seq<byte>): (s: string)
    ensures |s| == |b|
    ensures forall i :: 0 <= i < |b| ==> s[i] == if b[i] < 0x80 then b[i] as char else '?'
  {
    seq(|b|, i requires 0 <= i < |b| => if b[i] < 0x80 then b[i] as char else '?')
  }

  /** A zero-terminated ASCII string at a position. */
  function StringAt(data: seq<byte>, p: nat): (res: Result<string>)
    ensures res.Ok? <==> ZeroTerminatedAt(data, p).Ok?
    ensures res.Ok? ==> res.value == AsciiString(ZeroTerminatedAt(data, p).value)
    ensures res.Err? ==> res.error == Truncated
  {
    var b :- ZeroTerminatedAt(data, p);
    Ok(AsciiString(b))
  }

  /** A path point: two vectors of three singles and a word, 28 bytes. */
  function PointAt(data: seq<byte>, p: nat): PathPoint
    requires p + 0x1C <= |data|
  {
    PathPoint(Vector3(U32At(data, p, BigEndian), U32At(data, p + 4, BigEndian), U32At(data, p + 8, BigEndian)),
              Vector3(U32At(data, p + 12, BigEndian), U32At(data, p + 16, BigEndian), U32At(data, p + 20, BigEndian)),
              U32At(data, p + 24, BigEndian))
  }

  /** `ReadPath`: `count` points one after another. */
  function PathAt(data: seq<byte>, p: nat, count: nat): (res: Result<Path>)
    ensures res.Ok? <==> p + 0x1C * count <= |data|
    ensures res.Ok? ==> |res.value| == count && forall k :: 0 <= k < count ==> res.value[k] == PointAt(data, p + 0x1C * k)
    ensures res.Err? ==> res.error == Truncated
  {
    if p + 0x1C * count <= |data| then Ok(seq(count, k requires 0 <= k < count => PointAt(data, p + 0x1C * k)))
    else Err(Truncated)
  }

  /**
   * A scalar node's value from its 4-byte slot: an index into the string or
   * path table (a table never read is null), a boolean that is any non-zero
   * word, a 32-bit integer, or a single kept as its bits.
   */
  function ScalarNode(t: Tables, nodeType: byte, word: u32): (res: Result<Node>)
    requires nodeType in {StringIndexType, PathIndexType, BooleanType, IntegerType, FloatType}
    ensures res.Ok? ==> TypeOf(res.value) == nodeType && WellFormed(res.value)
    ensures nodeType == StringIndexType ==>
      res == (if t.strings.None? then Err(NullReference)
              else if 0 <= ToInt32(word) < |t.strings.value| then Ok(StringIndex(t.strings.value[ToInt32(word)]))
              else Err(IndexOutOfRange))
    ensures nodeType == PathIndexType ==>
      res == (if t.paths.None? then Err(NullReference)
              else if 0 <= ToInt32(word) < |t.paths.value| then Ok(PathIndex(t.paths.value[ToInt32(word)]))
              else Err(IndexOutOfRange))
    ensures nodeType == BooleanType ==> res == Ok(Boolean(word != 0))
    ensures nodeType == IntegerType ==> res.Ok? && ToInt32(word) == res.value.i && Wrap32(res.value.i) == word
    ensures nodeType == FloatType ==> res == Ok(Float(word))
  {
    var index := ToInt32(word);
    if nodeType == StringIndexType then
      if t.strings.None? then Err(NullReference)
      else if 0 <= index < |t.strings.value| then Ok(StringIndex(t.strings.value[index]))
      else Err(IndexOutOfRange)
    else if nodeType == PathIndexType then
      if t.paths.None? then Err(NullReference)
      else if 0 <= index < |t.paths.value| then Ok(PathIndex(t.paths.value[index]))
      else Err(IndexOutOfRange)
    else if nodeType == BooleanType then Ok(Boolean(word != 0))
    else if nodeType == IntegerType then Ok(Integer(index))
    else Ok(Float(word))
  }

  /**
   * `ReadNode`.  A zero `given` means no type was given: the type byte is
   * read, and a collection is read in place, the reader stepping back over
   * the type byte to read the length word.  Otherwise the node is a slot: a
   * collection's slot holds its offset, and the reader returns to the slot's
   * end afterwards.  Reading a collection takes one unit of `fuel`.
   */
  function ReadNode(t: Tables, data: seq<byte>, pos: nat, given: byte, fuel: nat): (res: Result<Decoded<Node>>)
    ensures res.Ok? && given != 0 ==> res.value.next == pos + 4
    ensures res.Ok? ==> WellFormed(res.value.value)
    ensures res.Ok? && given != 0 ==> TypeOf(res.value.value) == given
    ensures res.Ok? && given == 0 ==> pos < |data| && TypeOf(res.value.value) == data[pos]
    decreases fuel, 1, 0
  {
    if given == 0 && pos >= |data| then Err(Truncated)
    else
      var nodeType := if given != 0 then given else data[pos];
      if ArrayType <= nodeType <= PathArrayType then ReadReference(t, data, pos, given, nodeType, fuel)
      else ReadScalar(t, data, if given != 0 then pos else pos + 1, nodeType)
  }

  /**
   * A collection node: at `pos` itself when its type byte was read there,
   * else at the offset its slot holds, the reader then returning to the
   * slot's end.
   */
  function ReadReference(t: Tables, data: seq<byte>, pos: nat, given: byte, nodeType: byte, fuel: nat)
    : (res: Result<Decoded<Node>>)
    requires ArrayType <= nodeType <= PathArrayType
    ensures res.Ok? && given != 0 ==> res.value.next == pos + 4
    ensures res.Ok? ==> WellFormed(res.value.value) && TypeOf(res.value.value) == nodeType
    ensures fuel == 0 ==> res == Err(NestingTooDeep)
    decreases fuel, 0, 0
  {
    if fuel == 0 then Err(NestingTooDeep)
    else
      var at :- if given != 0 then Word(data, pos) else Ok(pos);
      var word :- Word(data, at);
      var c :- ReadCollection(t, data, nodeType, at, word % LengthLimit, fuel - 1);
      Ok(Decoded(c.value, if given != 0 then pos + 4 else c.next))
  }

  /** A scalar node: its type must be known before its 4-byte value is read at `cur`. */
  function ReadScalar(t: Tables, data: seq<byte>, cur: nat, nodeType: byte): (res: Result<Decoded<Node>>)
    ensures res.Ok? ==> res.value.next == cur + 4 && WellFormed(res.value.value) && TypeOf(res.value.value) == nodeType
    ensures nodeType !in {StringIndexType, PathIndexType, BooleanType, IntegerType, FloatType} ==> res == Err(InvalidType)
  {
    if nodeType in {StringIndexType, PathIndexType, BooleanType, IntegerType, FloatType} then
      var word :- Word(data, cur);
      var v :- ScalarNode(t, nodeType, word);
      Ok(Decoded(v, cur + 4))
    else Err(InvalidType)
  }

  /** The body of the collection whose length word is at `at`. */
  function ReadCollection(t: Tables, data: seq<byte>, nodeType: byte, at: nat, length: nat, fuel: nat)
    : (res: Result<Decoded<Node>>)
    requires ArrayType <= nodeType <= PathArrayType
    ensures res.Ok? ==> TypeOf(res.value.value) == nodeType && |res.value.value.values| == length
    ensures res.Ok? ==> WellFormed(res.value.value)
    decreases fuel, 3, 0
  {
    var body := at + 4;
    if nodeType == ArrayType then
      var types := ReadBytes(Reader(data, body, BigEndian), length).value;
      var elements :- ReadElements(t, data, types, length, 0, Align4(body + |types|), [], fuel);
      Ok(Decoded(Array(elements.value), elements.next))
    else if nodeType == DictionaryType then
      ReadEntries(t, data, length, 0, body, [], [], fuel)
    else if nodeType == StringArrayType then
      var strings :- ReadStringArray(data, at, length);
      Ok(Decoded(FromStringList(strings), body + 4 * length))
    else
      var paths :- ReadPathArray(data, at, length);
      Ok(Decoded(FromPathList(paths), body + 4 * (length + 1)))
  }

  /**
   * `ReadArrayNode`'s loop: element `i` is read with type `types[i]`; the
   * type bytes came from a lenient read, and a missing one is an index out
   * of range.
   */
  function ReadElements(t: Tables, data: seq<byte>, types: seq<byte>, length: nat, i: nat, pos: nat, elements: seq<Node>,
                        fuel: nat): (res: Result<Decoded<seq<Node>>>)
    requires i <= length && |elements| == i
    requires forall k :: 0 <= k < i ==> WellFormed(elements[k])
    ensures res.Ok? ==> |res.value.value| == length && res.value.value[..i] == elements
    ensures res.Ok? ==> forall k :: 0 <= k < length ==> WellFormed(res.value.value[k])
    decreases fuel, 2, length - i
  {
    if i == length then
      assert elements[..i] == elements;
      Ok(Decoded(elements, pos))
    else if i >= |types| then Err(IndexOutOfRange)
    else
      var first :- ReadNode(t, data, pos, types[i], fuel);
      var res := ReadElements(t, data, types, length, i + 1, first.next, elements + [first.value], fuel);
      if res.Ok? then
        assert res.value.value[..i] == (elements + [first.value])[..i];
        res
      else res
  }

  /**
   * `ReadDictionaryNode`'s loop: each entry is a word whose upper 24 bits
   * index the name table and whose low byte is the value's type, then the
   * value; a name already added throws.
   */
  function ReadEntries(t: Tables, data: seq<byte>, length: nat, i: nat, pos: nat, keys: seq<string>, values: seq<Node>,
                       fuel: nat): (res: Result<Decoded<Node>>)
    requires i <= length && |keys| == |values| == i && Distinct(keys)
    requires forall k :: 0 <= k < |values| ==> WellFormed(values[k])
    ensures res.Ok? ==> res.value.value.Dictionary? && |res.value.value.values| == length
    ensures res.Ok? ==> WellFormed(res.value.value)
    ensures res.Ok? ==> res.value.value.keys[..i] == keys && res.value.value.values[..i] == values
    decreases fuel, 2, length - i
  {
    if i == length then
      assert keys[..i] == keys && values[..i] == values;
      Ok(Decoded(Dictionary(keys, values), pos))
    else
      var word :- Word(data, pos);
      if t.names.None? then Err(NullReference)
      else if word / 0x100 >= |t.names.value| then Err(IndexOutOfRange)
      else
        var name := t.names.value[word / 0x100];
        var value :- ReadNode(t, data, pos + 4, word % 0x100, fuel);
        if name in keys then Err(DuplicateKey)
        else
          var res := ReadEntries(t, data, length, i + 1, value.next, keys + [name], values + [value.value], fuel);
          if res.Ok? then
            assert res.value.value.keys[..i] == (keys + [name])[..i];
            assert res.value.value.values[..i] == (values + [value.value])[..i];
            res
          else res
  }

  /**
   * `ReadStringArrayNode`: `length` offsets after the length word, each
   * relative to the node's start, each naming a zero-terminated string.
   */
  function ReadStringArray(data: seq<byte>, at: nat, length: nat): (res: Result<seq<string>>)
    ensures at + 4 + 4 * length > |data| ==> res == Err(Truncated)
    ensures res.Ok? ==> |res.value| == length && at + 4 + 4 * length <= |data|
    ensures res.Ok? ==> var offsets := U32sAt(data, at + 4, length, BigEndian);
      forall i :: 0 <= i < length ==> StringAt(data, at + offsets[i]) == Ok(res.value[i])
  {
    if at + 4 + 4 * length > |data| then Err(Truncated)
    else StringsFrom(data, at, U32sAt(data, at + 4, length, BigEndian), 0)
  }

  function StringsFrom(data: seq<byte>, at: nat, offsets: seq<u32>, i: nat): (res: Result<seq<string>>)
    requires i <= |offsets|
    ensures res.Ok? ==> |res.value| == |offsets| - i
    ensures res.Ok? ==> forall k :: i <= k < |offsets| ==> StringAt(data, at + offsets[k]) == Ok(res.value[k - i])
    decreases |offsets| - i
  {
    if i == |offsets| then Ok([])
    else
      var s :- StringAt(data, at + offsets[i]);
      var rest :- StringsFrom(data, at, offsets, i + 1);
      var r := [s] + rest;
      assert forall j :: 0 < j < |r| ==> r[j] == rest[j - 1];
      Ok(r)
  }

  /** The number of points between two path offsets: the 32-bit unsigned difference over 28. */
  function PointCount(from: u32, to: u32): (n: nat)
    ensures from <= to ==> n == (to - from) / 0x1C
    ensures to < from ==> n == (to - from + TwoTo32) / 0x1C
  {
    Wrap32(to - from) / 0x1C
  }

  /**
   * `ReadPathArrayNode`: `length + 1` offsets relative to the node's start;
   * path `i` runs from offset `i` to offset `i + 1`.
   */
  function ReadPathArray(data: seq<byte>, at: nat, length: nat): (res: Result<seq<Path>>)
    ensures at + 4 + 4 * (length + 1) > |data| ==> res == Err(Truncated)
    ensures res.Ok? ==> |res.value| == length && at + 4 + 4 * (length + 1) <= |data|
    ensures res.Ok? ==> var offsets := U32sAt(data, at + 4, length + 1, BigEndian);
      forall i :: 0 <= i < length ==> PathAt(data, at + offsets[i], PointCount(offsets[i], offsets[i + 1])) == Ok(res.value[i])
  {
    if at + 4 + 4 * (length + 1) > |data| then Err(Truncated)
    else PathsFrom(data, at, U32sAt(data, at + 4, length + 1, BigEndian), 0)
  }

  function PathsFrom(data: seq<byte>, at: nat, offsets: seq<u32>, i: nat): (res: Result<seq<Path>>)
    requires 0 < |offsets| && i < |offsets|
    ensures res.Ok? ==> |res.value| == |offsets| - 1 - i
    ensures res.Ok? ==> forall k :: i <= k < |offsets| - 1 ==>
      PathAt(data, at + offsets[k], PointCount(offsets[k], offsets[k + 1])) == Ok(res.value[k - i])
    decreases |offsets| - i
  {
    if i == |offsets| - 1 then Ok([])
    else
      var p :- PathAt(data, at + offsets[i], PointCount(offsets[i], offsets[i + 1]));
      var rest :- PathsFrom(data, at, offsets, i + 1);
      var r := [p] + rest;
      assert forall j :: 0 < j < |r| ==> r[j] == rest[j - 1];
      Ok(r)
  }

  /** A table node must be a string array (name and string tables) or a path array. */
  function TableAt(t: Tables, data: seq<byte>, offset: nat, fuel: nat): (res: Result<Node>)
    ensures res.Ok? ==> ReadNode(t, data, offset, 0, fuel).Ok? && res.value == ReadNode(t, data, offset, 0, fuel).value.value
  {
    var n :- ReadNode(t, data, offset, 0, fuel);
    Ok(n.value)
  }

  /**
   * The header and the three tables: the name table always, the string and
   * path tables only when their offsets are not zero.  Each table is read
   * with the tables read before it.
   */
  function ReadTables(data: seq<byte>, fuel: nat): (res: Result<Tables>)
    requires HeaderSize <= |data|
    ensures res.Ok? ==> res.value.names.Some?
    ensures res.Ok? ==> (res.value.strings.None? <==> U32At(data, 8, BigEndian) == 0)
    ensures res.Ok? ==> (res.value.paths.None? <==> U32At(data, 12, BigEndian) == 0)
    ensures res.Ok? ==> (TableAt(Tables(None, None, None), data, U32At(data, 4, BigEndian), fuel).Ok? &&
      AsStringList(TableAt(Tables(None, None, None), data, U32At(data, 4, BigEndian), fuel).value) == Ok(res.value.names.value))
  {
    var nameNode :- TableAt(Tables(None, None, None), data, U32At(data, 4, BigEndian), fuel);
    var names :- AsStringList(nameNode);
    var strings :- if U32At(data, 8, BigEndian) == 0 then Ok(None)
                   else
                     var n :- TableAt(Tables(Some(names), None, None), data, U32At(data, 8, BigEndian), fuel);
                     var l :- AsStringList(n);
                     Ok(Some(l));
    var paths :- if U32At(data, 12, BigEndian) == 0 then Ok(None)
                 else
                   var n :- TableAt(Tables(Some(names), strings, None), data, U32At(data, 12, BigEndian), fuel);
                   var l :- AsPathList(n);
                   Ok(Some(l));
    Ok(Tables(Some(names), strings, paths))
  }

  /** `Read`: the "BY" magic, version 1, the tables, then the root node read in place. */
  function Read(data: seq<byte>, fuel: nat): (res: Result<Node>)
    ensures res.Ok? ==> TagAt(data, 0, ByamlTag) && HeaderSize <= |data| && U16At(data, 2, BigEndian) == 1
    ensures !TagAt(data, 0, ByamlTag) ==> res == Err(BadMagic)
    ensures TagAt(data, 0, ByamlTag) && 4 <= |data| && U16At(data, 2, BigEndian) != 1 ==> res == Err(UnsupportedVersion)
    ensures res.Ok? ==> ReadTables(data, fuel).Ok? && WellFormed(res.value)
    ensures res.Ok? ==> TableAt(ReadTables(data, fuel).value, data, U32At(data, 16, BigEndian), fuel) == res
  {
    if !TagAt(data, 0, ByamlTag) then Err(BadMagic)
    else if |data| < 4 then Err(Truncated)
    else if U16At(data, 2, BigEndian) != 1 then Err(UnsupportedVersion)
    else if |data| < HeaderSize then Err(Truncated)
    else
      var t :- ReadTables(data, fuel);
      TableAt(t, data, U32At(data, 16, BigEndian), fuel)
  }

  /**
   * When every element's type is given, the elements are 4-byte slots one
   * after another from `start`: element `k` is the slot `4 * k` bytes on,
   * and each read leaves the reader at the next slot.
   */
  lemma {:induction false} ElementsAreSlots(t: Tables, data: seq<byte>, types: seq<byte>, length: nat, i: nat,
                                            start: nat, elements: seq<Node>, fuel: nat, k: nat)
    requires i <= k < length <= |types| && |elements| == i
    requires forall j :: 0 <= j < i ==> WellFormed(elements[j])
    requires forall j :: i <= j < length ==> types[j] != 0
    requires ReadElements(t, data, types, length, i, start + 4 * i, elements, fuel).Ok?
    ensures SlotAt(t, data, start + 4 * k, types[k],
                   ReadElements(t, data, types, length, i, start + 4 * i, elements, fuel).value.value[k], fuel)
    decreases length - i, 1
  {
    if i < k {
      ElementsSkip(t, data, types, length, i, start, elements, fuel, k);
    } else {
      var first := ElementsStep(t, data, types, length, i, start, elements, fuel);
    }
  }

  /** Element `k` is where the array loop's later steps put it. */
  lemma {:induction false} ElementsSkip(t: Tables, data: seq<byte>, types: seq<byte>, length: nat, i: nat,
                                        start: nat, elements: seq<Node>, fuel: nat, k: nat)
    requires i < k < length <= |types| && |elements| == i
    requires forall j :: 0 <= j < i ==> WellFormed(elements[j])
    requires forall j :: i <= j < length ==> types[j] != 0
    requires ReadElements(t, data, types, length, i, start + 4 * i, elements, fuel).Ok?
    ensures SlotAt(t, data, start + 4 * k, types[k],
                   ReadElements(t, data, types, length, i, start + 4 * i, elements, fuel).value.value[k], fuel)
    decreases length - i, 0
  {
    var first := ElementsStep(t, data, types, length, i, start, elements, fuel);
    ElementsAreSlots(t, data, types, length, i + 1, start, elements + [first], fuel, k);
  }

  /** When every element's type is given, the array loop ends `4 * length` bytes after the first slot. */
  lemma {:induction false} ElementsEnd(t: Tables, data: seq<byte>, types: seq<byte>, length: nat, i: nat,
                                       start: nat, elements: seq<Node>, fuel: nat)
    requires i <= length <= |types| && |elements| == i
    requires forall k :: 0 <= k < i ==> WellFormed(elements[k])
    requires forall k :: i <= k < length ==> types[k] != 0
    requires ReadElements(t, data, types, length, i, start + 4 * i, elements, fuel).Ok?
    ensures ReadElements(t, data, types, length, i, start + 4 * i, elements, fuel).value.next == start + 4 * length
    decreases length - i
  {
    if i < length {
      var first := ElementsStep(t, data, types, length, i, start, elements, fuel);
      ElementsEnd(t, data, types, length, i + 1, start, elements + [first], fuel);
    }
  }

  /** One step of the array loop when the element's type is given: the slot at `start + 4 * i` is element `i`. */
  lemma ElementsStep(t: Tables, data: seq<byte>, types: seq<byte>, length: nat, i: nat, start: nat, elements: seq<Node>,
                     fuel: nat) returns (first: Node)
    requires i < length <= |types| && |elements| == i && types[i] != 0
    requires forall k :: 0 <= k < i ==> WellFormed(elements[k])
    requires ReadElements(t, data, types, length, i, start + 4 * i, elements, fuel).Ok?
    ensures SlotAt(t, data, start + 4 * i, types[i], first, fuel)
    ensures forall j :: 0 <= j < |elements + [first]| ==> WellFormed((elements + [first])[j])
    ensures var rest := ReadElements(t, data, types, length, i + 1, start + 4 * (i + 1), elements + [first], fuel);
      ReadElements(t, data, types, length, i, start + 4 * i, elements, fuel) == rest && rest.Ok? &&
      rest.value.value[i] == first
  {
    var d := ReadNode(t, data, start + 4 * i, types[i], fuel).value;
    first := d.value;
    assert d.next == start + 4 * (i + 1);
    var rest := ReadElements(t, data, types, length, i + 1, start + 4 * (i + 1), elements + [first], fuel);
    assert rest.value.value[..i + 1] == elements + [first];
    assert rest.value.value[i] == (elements + [first])[i];
  }

  /** The slot at `p`, read with type `nodeType`, holds `n` and leaves the reader just after it. */
  ghost predicate SlotAt(t: Tables, data: seq<byte>, p: nat, nodeType: byte, n: Node, fuel: nat)
  {
    ReadNode(t, data, p, nodeType, fuel) == Ok(Decoded(n, p + 4))
  }

  /**
   * An array whose type bytes are all present: the types are the `length`
   * bytes after the length word, the elements are read from the next
   * four-byte boundary, and when no type is zero the array ends `4 * length`
   * bytes after that boundary.
   */
  lemma ArrayLayout(t: Tables, data: seq<byte>, at: nat, length: nat, fuel: nat)
    requires at + 4 + length <= |data|
    requires ReadCollection(t, data, ArrayType, at, length, fuel).Ok?
    ensures var start := Align4(at + 4 + length);
      var e := ReadElements(t, data, data[at + 4..at + 4 + length], length, 0, start + 4 * 0, [], fuel);
      e.Ok? && ReadCollection(t, data, ArrayType, at, length, fuel) == Ok(Decoded(Array(e.value.value), e.value.next)) &&
      ((forall j :: at + 4 <= j < at + 4 + length ==> data[j] != 0) ==> e.value.next == start + 4 * length)
  {
    var types := ReadBytes(Reader(data, at + 4, BigEndian), length).value;
    assert types == data[at + 4..at + 4 + length];
    if forall j :: at + 4 <= j < at + 4 + length ==> data[j] != 0 {
      assert forall j :: 0 <= j < length ==> types[j] == data[at + 4 + j];
      ElementsEnd(t, data, types, length, 0, Align4(at + 4 + length), [], fuel);
    }
  }

  /** One step of the dictionary loop when the value's type is given: record `i` is entry `i`. */
  lemma EntriesStep(t: Tables, data: seq<byte>, length: nat, i: nat, start: nat, keys: seq<string>, values: seq<Node>,
                    fuel: nat) returns (name: string, value: Node)
    requires i < length && |keys| == |values| == i && Distinct(keys)
    requires forall k :: 0 <= k < |values| ==> WellFormed(values[k])
    requires start + 8 * length <= |data| && TypeByte(data, start, i) != 0
    requires ReadEntries(t, data, length, i, start + 8 * i, keys, values, fuel).Ok?
    ensures Distinct(keys + [name]) && forall j :: 0 <= j < |values + [value]| ==> WellFormed((values + [value])[j])
    ensures var rest := ReadEntries(t, data, length, i + 1, start + 8 * (i + 1), keys + [name], values + [value], fuel);
      ReadEntries(t, data, length, i, start + 8 * i, keys, values, fuel) == rest && rest.Ok?
  {
    var pos := start + 8 * i;
    var word := U32At(data, pos, BigEndian);
    name := t.names.value[word / 0x100];
    var d := ReadNode(t, data, pos + 4, word % 0x100, fuel).value;
    value := d.value;
    assert d.next == start + 8 * (i + 1);
  }

  /** The record read in one step of the dictionary loop is the entry it adds. */
  lemma EntryStepAt(t: Tables, data: seq<byte>, length: nat, i: nat, start: nat, keys: seq<string>, values: seq<Node>,
                    fuel: nat)
    requires i < length && |keys| == |values| == i && Distinct(keys)
    requires forall k :: 0 <= k < |values| ==> WellFormed(values[k])
    requires start + 8 * length <= |data| && TypeByte(data, start, i) != 0
    requires ReadEntries(t, data, length, i, start + 8 * i, keys, values, fuel).Ok?
    ensures EntryAt(t, data, start + 8 * i, ReadEntries(t, data, length, i, start + 8 * i, keys, values, fuel).value.value, i,
                    fuel)
  {
    var pos := start + 8 * i;
    var word := U32At(data, pos, BigEndian);
    var name := t.names.value[word / 0x100];
    var d := ReadNode(t, data, pos + 4, word % 0x100, fuel).value;
    assert d.next == start + 8 * (i + 1);
    var rest := ReadEntries(t, data, length, i + 1, start + 8 * (i + 1), keys + [name], values + [d.value], fuel).value;
    assert rest.value.keys[..i + 1] == keys + [name] && rest.value.values[..i + 1] == values + [d.value];
    assert rest.value.keys[i] == (keys + [name])[i];
    assert rest.value.values[i] == (values + [d.value])[i];
    assert SlotAt(t, data, pos + 4, word % 0x100, rest.value.values[i], fuel);
  }

  /**
   * When every entry's type byte is non-zero, the entries are 8-byte
   * records from `start`: a word naming the key and giving the value's
   * type, then the value's slot.
   */
  lemma {:induction false} EntriesAreSlots(t: Tables, data: seq<byte>, length: nat, i: nat, start: nat, keys: seq<string>,
                                           values: seq<Node>, fuel: nat, k: nat)
    requires i <= k < length && |keys| == |values| == i && Distinct(keys)
    requires forall j :: 0 <= j < |values| ==> WellFormed(values[j])
    requires start + 8 * length <= |data|
    requires forall j :: i <= j < length ==> TypeByte(data, start, j) != 0
    requires ReadEntries(t, data, length, i, start + 8 * i, keys, values, fuel).Ok?
    ensures EntryAt(t, data, start + 8 * k, ReadEntries(t, data, length, i, start + 8 * i, keys, values, fuel).value.value, k,
                    fuel)
    decreases length - i, 1
  {
    if i < k {
      EntriesSkip(t, data, length, i, start, keys, values, fuel, k);
    } else {
      EntryStepAt(t, data, length, i, start, keys, values, fuel);
    }
  }

  /** Entry `k` is where the dictionary loop's later steps put it. */
  lemma {:induction false} EntriesSkip(t: Tables, data: seq<byte>, length: nat, i: nat, start: nat, keys: seq<string>,
                                       values: seq<Node>, fuel: nat, k: nat)
    requires i < k < length && |keys| == |values| == i && Distinct(keys)
    requires forall j :: 0 <= j < |values| ==> WellFormed(values[j])
    requires start + 8 * length <= |data|
    requires forall j :: i <= j < length ==> TypeByte(data, start, j) != 0
    requires ReadEntries(t, data, length, i, start + 8 * i, keys, values, fuel).Ok?
    ensures EntryAt(t, data, start + 8 * k, ReadEntries(t, data, length, i, start + 8 * i, keys, values, fuel).value.value, k,
                    fuel)
    decreases length - i, 0
  {
    var name, value := EntriesStep(t, data, length, i, start, keys, values, fuel);
    EntriesAreSlots(t, data, length, i + 1, start, keys + [name], values + [value], fuel, k);
  }

  /** When every entry's type byte is non-zero, the dictionary ends `8 * length` bytes after its first record. */
  lemma {:induction false} EntriesEnd(t: Tables, data: seq<byte>, length: nat, i: nat, start: nat, keys: seq<string>,
                                      values: seq<Node>, fuel: nat)
    requires i <= length && |keys| == |values| == i && Distinct(keys)
    requires forall j :: 0 <= j < |values| ==> WellFormed(values[j])
    requires start + 8 * length <= |data|
    requires forall j :: i <= j < length ==> TypeByte(data, start, j) != 0
    requires ReadEntries(t, data, length, i, start + 8 * i, keys, values, fuel).Ok?
    ensures ReadEntries(t, data, length, i, start + 8 * i, keys, values, fuel).value.next == start + 8 * length
    decreases length - i
  {
    if i < length {
      var name, value := EntriesStep(t, data, length, i, start, keys, values, fuel);
      EntriesEnd(t, data, length, i + 1, start, keys + [name], values + [value], fuel);
    } else {
      EntriesDone(t, data, length, start + 8 * i, keys, values, fuel);
    }
  }

  /** The dictionary loop stops after `length` entries, where it stands. */
  lemma EntriesDone(t: Tables, data: seq<byte>, length: nat, pos: nat, keys: seq<string>, values: seq<Node>, fuel: nat)
    requires |keys| == |values| == length && Distinct(keys)
    requires forall j :: 0 <= j < |values| ==> WellFormed(values[j])
    ensures ReadEntries(t, data, length, length, pos, keys, values, fuel) == Ok(Decoded(Dictionary(keys, values), pos))
  {
  }

  /** The type byte of dictionary record `k` after `start`: the low byte of its word. */
  function TypeByte(data: seq<byte>, start: nat, k: nat): byte
    requires start + 8 * k + 4 <= |data|
  {
    U32At(data, start + 8 * k, BigEndian) % 0x100
  }

  /** Entry `index` of a dictionary is the record at `p`: its key from the name table, its value in the slot after the word. */
  ghost predicate EntryAt(t: Tables, data: seq<byte>, p: nat, d: Node, index: nat, fuel: nat)
    requires d.Dictionary? && index < |d.keys| == |d.values| && p + 4 <= |data|
  {
    var word := U32At(data, p, BigEndian);
    t.names.Some? && word / 0x100 < |t.names.value| && d.keys[index] == t.names.value[word / 0x100] &&
    SlotAt(t, data, p + 4, word % 0x100, d.values[index], fuel)
  }

  /**
   * More fuel never changes a successful read: `fuel` only bounds the
   * nesting the model follows, and a document read with some fuel reads the
   * same with any more.
   */
  lemma {:induction false} NodeFuel(t: Tables, data: seq<byte>, pos: nat, given: byte, fuel: nat, more: nat)
    requires fuel <= more && ReadNode(t, data, pos, given, fuel).Ok?
    ensures ReadNode(t, data, pos, given, more) == ReadNode(t, data, pos, given, fuel)
    decreases fuel, 1, 0
  {
    var nodeType := if given != 0 then given else data[pos];
    if ArrayType <= nodeType <= PathArrayType {
      ReferenceFuel(t, data, pos, given, nodeType, fuel, more);
    }
  }

  lemma {:induction false} ReferenceFuel(t: Tables, data: seq<byte>, pos: nat, given: byte, nodeType: byte, fuel: nat,
                                         more: nat)
    requires ArrayType <= nodeType <= PathArrayType
    requires fuel <= more && ReadReference(t, data, pos, given, nodeType, fuel).Ok?
    ensures ReadReference(t, data, pos, given, nodeType, more) == ReadReference(t, data, pos, given, nodeType, fuel)
    decreases fuel, 0, 0
  {
    var at := if given != 0 then U32At(data, pos, BigEndian) else pos;
    var word := U32At(data, at, BigEndian);
    CollectionFuel(t, data, nodeType, at, word % LengthLimit, fuel - 1, more - 1);
  }

  lemma {:induction false} CollectionFuel(t: Tables, data: seq<byte>, nodeType: byte, at: nat, length: nat, fuel: nat,
                                          more: nat)
    requires ArrayType <= nodeType <= PathArrayType
    requires fuel <= more && ReadCollection(t, data, nodeType, at, length, fuel).Ok?
    ensures ReadCollection(t, data, nodeType, at, length, more) == ReadCollection(t, data, nodeType, at, length, fuel)
    decreases fuel, 3, 0
  {
    if nodeType == ArrayType {
      var types := ReadBytes(Reader(data, at + 4, BigEndian), length).value;
      ElementsFuel(t, data, types, length, 0, Align4(at + 4 + |types|), [], fuel, more);
    } else if nodeType == DictionaryType {
      EntriesFuel(t, data, length, 0, at + 4, [], [], fuel, more);
    }
  }

  lemma {:induction false} ElementsFuel(t: Tables, data: seq<byte>, types: seq<byte>, length: nat, i: nat, pos: nat,
                                        elements: seq<Node>, fuel: nat, more: nat)
    requires i <= length && |elements| == i
    requires forall k :: 0 <= k < i ==> WellFormed(elements[k])
    requires fuel <= more && ReadElements(t, data, types, length, i, pos, elements, fuel).Ok?
    ensures ReadElements(t, data, types, length, i, pos, elements, more) ==
      ReadElements(t, data, types, length, i, pos, elements, fuel)
    decreases fuel, 2, length - i
  {
    if i < length {
      var first := ReadNode(t, data, pos, types[i], fuel).value;
      NodeFuel(t, data, pos, types[i], fuel, more);
      ElementsFuel(t, data, types, length, i + 1, first.next, elements + [first.value], fuel, more);
    }
  }

  lemma {:induction false} EntriesFuel(t: Tables, data: seq<byte>, length: nat, i: nat, pos: nat, keys: seq<string>,
                                       values: seq<Node>, fuel: nat, more: nat)
    requires i <= length && |keys| == |values| == i && Distinct(keys)
    requires forall k :: 0 <= k < |values| ==> WellFormed(values[k])
    requires fuel <= more && ReadEntries(t, data, length, i, pos, keys, values, fuel).Ok?
    ensures ReadEntries(t, data, length, i, pos, keys, values, more) == ReadEntries(t, data, length, i, pos, keys, values, fuel)
    decreases fuel, 2, length - i
  {
    if i < length {
      var word := U32At(data, pos, BigEndian);
      var name := t.names.value[word / 0x100];
      var value := ReadNode(t, data, pos + 4, word % 0x100, fuel).value;
      NodeFuel(t, data, pos + 4, word % 0x100, fuel, more);
      EntriesFuel(t, data, length, i + 1, value.next, keys + [name], values + [value.value], fuel, more);
    }
  }
}
