/**
 * BYAML nodes (`ByamlNode`): a tagged value that is a string or path
 * reference, one of four collections, or a 32-bit scalar.  A dictionary keeps
 * its keys and its values in two parallel lists; the list-shaped collections
 * keep their children in one list.  Every operation on a node of the wrong
 * kind fails with `NodeTypeMismatch`.  Floats are kept as their IEEE single
 * bits.
 */
module ByamlNode {
  import opened Wrappers
  import opened Bytes

  type int32 = x: int | -0x8000_0000 <= x < 0x8000_0000

  /** A three-component float vector, each component as its bits. */
  datatype Vector3 = Vector3(x: u32, y: u32, z: u32)

  /** `ByamlPathPoint`: a position, a normal and one unknown word; 28 bytes in a file. */
  datatype PathPoint = PathPoint(position: Vector3, normal: Vector3, unknown: u32)

  /** `ByamlPath`: a list of points. */
  type Path = seq<PathPoint>

  /** The `ByamlNodeType` codes. */
  const StringIndexType: byte := 0xA0
  const PathIndexType: byte := 0xA1
  const ArrayType: byte := 0xC0
  const DictionaryType: byte := 0xC1
  const StringArrayType: byte := 0xC2
  const PathArrayType: byte := 0xC3
  const BooleanType: byte := 0xD0
  const IntegerType: byte := 0xD1
  const FloatType: byte := 0xD2

  datatype Node =
    | StringIndex(str: string)
    | PathIndex(path: Path)
    | Array(values: seq<Node>)
    | Dictionary(keys: seq<string>, values: seq<Node>)
    | StringArray(values: seq<Node>)
    | PathArray(values: seq<Node>)
    | Boolean(b: bool)
    | Integer(i: int32)
    | Float(bits: u32)

  /** The `Type` field of a node. */
  function TypeOf(n: Node): (t: byte)
    ensures t in {StringIndexType, PathIndexType, ArrayType, DictionaryType, StringArrayType, PathArrayType,
                  BooleanType, IntegerType, FloatType}
  {
    match n
    case StringIndex(_) => StringIndexType
    case PathIndex(_) => PathIndexType
    case Array(_) => ArrayType
    case Dictionary(_, _) => DictionaryType
    case StringArray(_) => StringArrayType
    case PathArray(_) => PathArrayType
    case Boolean(_) => BooleanType
    case Integer(_) => IntegerType
    case Float(_) => FloatType
  }

  /** The nodes that hold children: exactly those whose type code lies in 0xC0..0xC3. */
  predicate IsCollection(n: Node)
  {
    n.Array? || n.Dictionary? || n.StringArray? || n.PathArray?
  }

  /** The collections indexed by position. */
  predicate IsList(n: Node)
  {
    n.Array? || n.StringArray? || n.PathArray?
  }

  /** The type code tells the collections from the scalars, and no two kinds of node share a code. */
  lemma TypeCodes(n: Node, m: Node)
    ensures IsCollection(n) <==> ArrayType <= TypeOf(n) <= PathArrayType
    ensures TypeOf(n) == TypeOf(m) <==> ((n.StringIndex? && m.StringIndex?) || (n.PathIndex? && m.PathIndex?) ||
      (n.Array? && m.Array?) || (n.Dictionary? && m.Dictionary?) || (n.StringArray? && m.StringArray?) ||
      (n.PathArray? && m.PathArray?) || (n.Boolean? && m.Boolean?) || (n.Integer? && m.Integer?) ||
      (n.Float? && m.Float?))
  {
  }

  /** The invariant of a dictionary node: the key and value lists are parallel and no key repeats. */
  predicate Valid(n: Node)
  {
    n.Dictionary? ==> |n.keys| == |n.values| && Distinct(n.keys)
  }

  /** `Valid` at every level of the tree. */
  predicate WellFormed(n: Node)
    decreases n
  {
    Valid(n) && (IsCollection(n) ==> forall i :: 0 <= i < |n.values| ==> WellFormed(n.values[i]))
  }

  predicate Distinct<T(==)>(s: seq<T>)
  {
    forall i, j :: 0 <= i < j < |s| ==> s[i] != s[j]
  }

  /** The position of the first occurrence of `x` in `s` (`List.IndexOf` with the ordinal comparer). */
  function FirstIndex<T(==)>(s: seq<T>, x: T): (res: Option<nat>)
    ensures res.Some? <==> x in s
    ensures res.Some? ==> res.value < |s| && s[res.value] == x && forall m :: 0 <= m < res.value ==> s[m] != x
  {
    FirstIndexFrom(s, x, 0)
  }

  function FirstIndexFrom<T(==)>(s: seq<T>, x: T, from: nat): (res: Option<nat>)
    requires from <= |s|
    ensures res.None? <==> forall k :: from <= k < |s| ==> s[k] != x
    ensures res.Some? ==> from <= res.value < |s| && s[res.value] == x && forall m :: from <= m < res.value ==> s[m] != x
    decreases |s| - from
  {
    if from == |s| then None
    else if s[from] == x then Some(from)
    else FirstIndexFrom(s, x, from + 1)
  }

  /** An occurrence with none before it is the first one. */
  lemma FirstIndexAt<T>(s: seq<T>, x: T, k: nat)
    requires k < |s| && s[k] == x && forall m :: 0 <= m < k ==> s[m] != x
    ensures FirstIndex(s, x) == Some(k)
  {
    var v := FirstIndex(s, x).value;
    assert !(v < k) && !(k < v);
  }

  /** In a sequence without repetitions every element's first occurrence is its position. */
  lemma DistinctFirstIndex<T>(s: seq<T>)
    requires Distinct(s)
    ensures forall i :: 0 <= i < |s| ==> FirstIndex(s, s[i]) == Some(i)
  {
    forall i | 0 <= i < |s|
      ensures FirstIndex(s, s[i]) == Some(i)
    {
      FirstIndexAt(s, s[i], i);
    }
  }

  /** The sequence without its element at `i`. */
  function RemovedAt<T>(s: seq<T>, i: nat): (res: seq<T>)
    requires i < |s|
    ensures |res| == |s| - 1
    ensures forall j :: 0 <= j < i ==> res[j] == s[j]
    ensures forall j :: i <= j < |res| ==> res[j] == s[j + 1]
  {
    seq(|s| - 1, j requires 0 <= j < |s| - 1 => if j < i then s[j] else s[j + 1])
  }

  /** A list of the same kind holding other children. */
  function WithValues(n: Node, vs: seq<Node>): (m: Node)
    requires IsList(n)
    ensures IsList(m) && TypeOf(m) == TypeOf(n) && m.values == vs
  {
    match n
    case Array(_) => Array(vs)
    case StringArray(_) => StringArray(vs)
    case PathArray(_) => PathArray(vs)
  }

  /** IEEE equality of two singles given as bits: NaN equals nothing, and +0 equals -0. */
  predicate FloatEquals(x: u32, y: u32)
  {
    !IsNaN(x) && !IsNaN(y) && (x == y || (x % 0x8000_0000 == 0 && y % 0x8000_0000 == 0))
  }

  predicate IsNaN(x: u32)
  {
    (x / 0x80_0000) % 0x100 == 0xFF && x % 0x80_0000 != 0
  }

  /**
   * `FloatEquals` is the IEEE comparison `==` of two singles: symmetric, a
   * NaN unequal even to itself, the two zeros equal, and any other single
   * equal only to itself.
   */
  lemma FloatEqualsIsIeee(x: u32, y: u32)
    ensures FloatEquals(x, y) == FloatEquals(y, x)
    ensures FloatEquals(x, x) <==> !IsNaN(x)
    ensures IsNaN(x) ==> !FloatEquals(x, y)
    ensures FloatEquals(0, 0x8000_0000) && !IsNaN(0x7F80_0000) && !FloatEquals(0x7F80_0000, 0xFF80_0000)
    ensures x % 0x8000_0000 != 0 ==> (FloatEquals(x, y) <==> !IsNaN(x) && x == y)
  {
  }

  /**
   * `Equals`: same type, then the payloads compared; children are compared
   * with `Equals` again, in order, and a dictionary's keys in order too.
   */
  predicate NodeEquals(a: Node, b: Node)
    decreases a
  {
    match a
    case StringIndex(s) => b.StringIndex? && s == b.str
    case PathIndex(p) => b.PathIndex? && p == b.path
    case Array(vs) => b.Array? && |vs| == |b.values| && forall i :: 0 <= i < |vs| ==> NodeEquals(vs[i], b.values[i])
    case StringArray(vs) =>
      b.StringArray? && |vs| == |b.values| && forall i :: 0 <= i < |vs| ==> NodeEquals(vs[i], b.values[i])
    case PathArray(vs) =>
      b.PathArray? && |vs| == |b.values| && forall i :: 0 <= i < |vs| ==> NodeEquals(vs[i], b.values[i])
    case Dictionary(ks, vs) =>
      b.Dictionary? && ks == b.keys && |vs| == |b.values| && forall i :: 0 <= i < |vs| ==> NodeEquals(vs[i], b.values[i])
    case Boolean(x) => b.Boolean? && x == b.b
    case Integer(x) => b.Integer? && x == b.i
    case Float(x) => b.Float? && FloatEquals(x, b.bits)
  }

  /** A node none of whose floats is a NaN or a negative zero. */
  predicate CanonicalFloats(n: Node)
    decreases n
  {
    match n
    case Float(x) => !IsNaN(x) && x != 0x8000_0000
    case Array(vs) => forall i :: 0 <= i < |vs| ==> CanonicalFloats(vs[i])
    case StringArray(vs) => forall i :: 0 <= i < |vs| ==> CanonicalFloats(vs[i])
    case PathArray(vs) => forall i :: 0 <= i < |vs| ==> CanonicalFloats(vs[i])
    case Dictionary(_, vs) => forall i :: 0 <= i < |vs| ==> CanonicalFloats(vs[i])
    case _ => true
  }

  /** Without NaNs and negative zeros, `Equals` is structural equality. */
  lemma {:induction false} EqualsIsEquality(a: Node, b: Node)
    requires CanonicalFloats(a) && CanonicalFloats(b)
    ensures NodeEquals(a, b) <==> a == b
    decreases a
  {
    if a.Array? || a.StringArray? || a.PathArray? || a.Dictionary? {
      if b.Array? || b.StringArray? || b.PathArray? || b.Dictionary? {
        if |a.values| == |b.values| {
          forall i | 0 <= i < |a.values|
            ensures NodeEquals(a.values[i], b.values[i]) <==> a.values[i] == b.values[i]
          {
            EqualsIsEquality(a.values[i], b.values[i]);
          }
          if (forall i :: 0 <= i < |a.values| ==> a.values[i] == b.values[i]) {
            assert a.values == b.values;
          }
        }
      }
    }
  }

  /** A NaN is not equal to itself, so a node holding one is not equal to itself either. */
  lemma NaNNotEqualToItself()
    ensures !NodeEquals(Float(0x7FC0_0000), Float(0x7FC0_0000))
    ensures !NodeEquals(Array([Float(0x7FC0_0000)]), Array([Float(0x7FC0_0000)]))
  {
    assert IsNaN(0x7FC0_0000);
    var a := Array([Float(0x7FC0_0000)]);
    assert !NodeEquals(a.values[0], a.values[0]);
  }

  /** Dictionary equality is order-sensitive: the same entries listed in another order are not equal. */
  lemma DictionaryEqualityIsOrdered(k1: string, k2: string, v1: Node, v2: Node)
    requires k1 != k2
    ensures !NodeEquals(Dictionary([k1, k2], [v1, v2]), Dictionary([k2, k1], [v2, v1]))
    ensures NodeEquals(Dictionary([k1, k2], [v1, v2]), Dictionary([k1, k2], [v1, v2])) <==> NodeEquals(v1, v1) && NodeEquals(v2, v2)
  {
    assert [k1, k2][0] != [k2, k1][0];
    var d := Dictionary([k1, k2], [v1, v2]);
    assert d.values[0] == v1 && d.values[1] == v2;
  }

  /** `Count`: the number of children of a collection; a scalar has no count. */
  function Count(n: Node): (res: Result<nat>)
    requires Valid(n)
    ensures res.Ok? <==> IsCollection(n)
    ensures n.Dictionary? ==> res == Ok(|n.keys|)
    ensures IsList(n) ==> res == Ok(|n.values|)
    ensures res.Err? ==> res.error == NodeTypeMismatch
  {
    if IsCollection(n) then Ok(|n.values|) else Err(NodeTypeMismatch)
  }

  /** The integer indexer's getter: lists only, and the index must be in range. */
  function GetAt(n: Node, index: int): (res: Result<Node>)
    ensures !IsList(n) ==> res == Err(NodeTypeMismatch)
    ensures IsList(n) ==> (res.Ok? <==> 0 <= index < |n.values|)
    ensures IsList(n) && res.Err? ==> res.error == IndexOutOfRange
    ensures res.Ok? ==> res.value == n.values[index]
  {
    if !IsList(n) then Err(NodeTypeMismatch)
    else if 0 <= index < |n.values| then Ok(n.values[index])
    else Err(IndexOutOfRange)
  }

  /** The integer indexer's setter: replaces one child of a list. */
  function SetAt(n: Node, index: int, value: Node): (res: Result<Node>)
    ensures res.Ok? <==> IsList(n) && 0 <= index < |n.values|
    ensures !IsList(n) ==> res == Err(NodeTypeMismatch)
    ensures IsList(n) && res.Err? ==> res.error == IndexOutOfRange
    ensures res.Ok? ==> res.value == WithValues(n, n.values[index := value])
  {
    if !IsList(n) then Err(NodeTypeMismatch)
    else if 0 <= index < |n.values| then Ok(WithValues(n, n.values[index := value]))
    else Err(IndexOutOfRange)
  }

  /** Reading back a position just set gives the new child; every other position is unchanged. */
  lemma GetAfterSetAt(n: Node, index: int, value: Node, j: int)
    requires SetAt(n, index, value).Ok?
    ensures GetAt(SetAt(n, index, value).value, index) == Ok(value)
    ensures j != index ==> GetAt(SetAt(n, index, value).value, j) == GetAt(n, j)
  {
  }

  /** The string indexer's getter: the value of the first entry with the key. */
  function Get(n: Node, key: string): (res: Result<Node>)
    requires Valid(n)
    ensures !n.Dictionary? ==> res == Err(NodeTypeMismatch)
    ensures n.Dictionary? ==> (res.Ok? <==> key in n.keys)
    ensures n.Dictionary? && res.Err? ==> res.error == KeyNotFound
    ensures res.Ok? ==> exists i :: 0 <= i < |n.keys| && n.keys[i] == key && res.value == n.values[i]
  {
    if !n.Dictionary? then Err(NodeTypeMismatch)
    else
      match FirstIndex(n.keys, key)
      case None => Err(KeyNotFound)
      case Some(i) => Ok(n.values[i])
  }

  /** The string indexer's setter: replaces the value of an existing key; it never adds one. */
  function Set(n: Node, key: string, value: Node): (res: Result<Node>)
    requires Valid(n)
    ensures !n.Dictionary? ==> res == Err(NodeTypeMismatch)
    ensures n.Dictionary? ==> (res.Ok? <==> key in n.keys)
    ensures n.Dictionary? && res.Err? ==> res.error == KeyNotFound
    ensures res.Ok? ==> res.value.Dictionary? && res.value.keys == n.keys && |res.value.values| == |n.values|
    ensures res.Ok? ==> forall i :: 0 <= i < |n.keys| ==>
      res.value.values[i] == if n.keys[i] == key then value else n.values[i]
  {
    if !n.Dictionary? then Err(NodeTypeMismatch)
    else
      match FirstIndex(n.keys, key)
      case None => Err(KeyNotFound)
      case Some(i) => Ok(Dictionary(n.keys, n.values[i := value]))
  }

  /** After setting a key, getting it gives the new value; the node stays valid. */
  lemma GetAfterSet(n: Node, key: string, value: Node, other: string)
    requires Valid(n) && Set(n, key, value).Ok?
    ensures Valid(Set(n, key, value).value)
    ensures Get(Set(n, key, value).value, key) == Ok(value)
    ensures other != key ==> Get(Set(n, key, value).value, other) == Get(n, other)
  {
    var m := Set(n, key, value).value;
    var i := FirstIndex(n.keys, key).value;
    assert m.keys == n.keys;
    if other != key && other in n.keys {
      var j := FirstIndex(n.keys, other).value;
      assert j != i;
    }
  }

  /** `TryGetValue`: the value of the key, or nothing (a null value) when it is absent. */
  function TryGetValue(n: Node, key: string): (res: Result<Option<Node>>)
    requires Valid(n)
    ensures !n.Dictionary? ==> res == Err(NodeTypeMismatch)
    ensures n.Dictionary? ==> res.Ok?
    ensures res.Ok? ==> (res.value.Some? <==> key in n.keys)
    ensures res.Ok? && res.value.Some? ==> Get(n, key) == Ok(res.value.value)
  {
    if !n.Dictionary? then Err(NodeTypeMismatch)
    else
      match FirstIndex(n.keys, key)
      case None => Ok(None)
      case Some(i) => Ok(Some(n.values[i]))
  }

  /** `TryGetValue` fails exactly where the indexer throws `KeyNotFoundException`, and agrees with it elsewhere. */
  lemma TryGetValueAgreesWithGet(n: Node, key: string)
    requires Valid(n) && n.Dictionary?
    ensures TryGetValue(n, key) == Ok(None) <==> Get(n, key) == Err(KeyNotFound)
    ensures Get(n, key).Ok? ==> TryGetValue(n, key) == Ok(Some(Get(n, key).value))
  {
  }

  /** `Keys` and `Values`: a dictionary's two parallel lists. */
  function Entries(n: Node): (res: Result<(seq<string>, seq<Node>)>)
    requires Valid(n)
    ensures res.Ok? <==> n.Dictionary?
    ensures res.Err? ==> res.error == NodeTypeMismatch
    ensures res.Ok? ==> (|res.value.0| == |res.value.1| &&
      forall i :: 0 <= i < |res.value.0| ==> Get(n, res.value.0[i]) == Ok(res.value.1[i]))
  {
    if n.Dictionary? then
      DistinctFirstIndex(n.keys);
      Ok((n.keys, n.values))
    else Err(NodeTypeMismatch)
  }

  /** `Add(ByamlNode)`: appends a child to an array. */
  function AddItem(n: Node, item: Node): (res: Result<Node>)
    ensures res.Ok? <==> n.Array?
    ensures res.Err? ==> res.error == NodeTypeMismatch
    ensures res.Ok? ==> res.value == Array(n.values + [item])
  {
    if n.Array? then Ok(Array(n.values + [item])) else Err(NodeTypeMismatch)
  }

  /** `Add(string, ByamlNode)`: appends an entry to a dictionary; a key already present throws. */
  function Add(n: Node, key: string, value: Node): (res: Result<Node>)
    requires Valid(n)
    ensures !n.Dictionary? ==> res == Err(NodeTypeMismatch)
    ensures n.Dictionary? ==> (res.Ok? <==> key !in n.keys)
    ensures n.Dictionary? && res.Err? ==> res.error == DuplicateKey
    ensures res.Ok? ==> res.value == Dictionary(n.keys + [key], n.values + [value])
  {
    if !n.Dictionary? then Err(NodeTypeMismatch)
    else if key in n.keys then Err(DuplicateKey)
    else Ok(Dictionary(n.keys + [key], n.values + [value]))
  }

  /** Adding an entry keeps the dictionary valid, makes the key map to the value and leaves the other keys alone. */
  lemma GetAfterAdd(n: Node, key: string, value: Node, other: string)
    requires Valid(n) && Add(n, key, value).Ok?
    ensures Valid(Add(n, key, value).value)
    ensures Get(Add(n, key, value).value, key) == Ok(value)
    ensures Count(Add(n, key, value).value) == Ok(|n.keys| + 1)
    ensures other != key ==> Get(Add(n, key, value).value, other) == Get(n, other)
  {
    var m := Add(n, key, value).value;
    assert Distinct(m.keys) by {
      forall a, b | 0 <= a < b < |m.keys|
        ensures m.keys[a] != m.keys[b]
      {
        if b == |n.keys| {
          assert m.keys[a] == n.keys[a];
        }
      }
    }
    if other != key {
      FirstIndexAppend(n.keys, key, other);
    }
  }

  /** `Add(string)`: appends a string node to a string array. */
  function AddString(n: Node, item: string): (res: Result<Node>)
    ensures res.Ok? <==> n.StringArray?
    ensures res.Err? ==> res.error == NodeTypeMismatch
    ensures res.Ok? ==> res.value == StringArray(n.values + [StringIndex(item)])
  {
    if n.StringArray? then Ok(StringArray(n.values + [StringIndex(item)])) else Err(NodeTypeMismatch)
  }

  /** `Add(ByamlPath)`: appends a path node to a path array. */
  function AddPath(n: Node, item: Path): (res: Result<Node>)
    ensures res.Ok? <==> n.PathArray?
    ensures res.Err? ==> res.error == NodeTypeMismatch
    ensures res.Ok? ==> res.value == PathArray(n.values + [PathIndex(item)])
  {
    if n.PathArray? then Ok(PathArray(n.values + [PathIndex(item)])) else Err(NodeTypeMismatch)
  }

  /** `Clear`: empties a collection, the key list of a dictionary with it. */
  function Clear(n: Node): (res: Result<Node>)
    ensures res.Ok? <==> IsCollection(n)
    ensures res.Err? ==> res.error == NodeTypeMismatch
    ensures res.Ok? ==> TypeOf(res.value) == TypeOf(n) && Valid(res.value) && Count(res.value) == Ok(0)
  {
    if n.Dictionary? then Ok(Dictionary([], []))
    else if IsList(n) then Ok(WithValues(n, []))
    else Err(NodeTypeMismatch)
  }

  /** The index of the first child that `Equals` the item, or -1 (`List.IndexOf`). */
  function IndexWhere(values: seq<Node>, item: Node): (res: int)
    ensures -1 <= res < |values|
    ensures res == -1 <==> forall i :: 0 <= i < |values| ==> !NodeEquals(values[i], item)
    ensures res >= 0 ==> NodeEquals(values[res], item) && forall i :: 0 <= i < res ==> !NodeEquals(values[i], item)
  {
    if |values| == 0 then -1
    else if NodeEquals(values[0], item) then 0
    else
      var r := IndexWhere(values[1..], item);
      if r == -1 then -1 else r + 1
  }

  /** `IndexOf` on an array, a string array (of a new string node) or a path array (of a new path node). */
  function IndexOf(n: Node, item: Node): (res: Result<int>)
    ensures res.Ok? <==> (n.Array? || (n.StringArray? && item.StringIndex?) || (n.PathArray? && item.PathIndex?))
    ensures res.Err? ==> res.error == NodeTypeMismatch
    ensures res.Ok? ==> -1 <= res.value < |n.values|
    ensures res.Ok? && res.value >= 0 ==> NodeEquals(n.values[res.value], item)
    ensures res.Ok? ==> (res.value == -1 <==> forall i :: 0 <= i < |n.values| ==> !NodeEquals(n.values[i], item))
  {
    if n.Array? || (n.StringArray? && item.StringIndex?) || (n.PathArray? && item.PathIndex?) then
      Ok(IndexWhere(n.values, item))
    else Err(NodeTypeMismatch)
  }

  /** `Contains` on an array, a string array or a path array: some child `Equals` the item. */
  function Contains(n: Node, item: Node): (res: Result<bool>)
    ensures res.Ok? <==> (n.Array? || (n.StringArray? && item.StringIndex?) || (n.PathArray? && item.PathIndex?))
    ensures res.Err? ==> res.error == NodeTypeMismatch
    ensures res.Ok? ==> (res.value <==> IndexOf(n, item).value >= 0)
    ensures res.Ok? ==> (res.value <==> exists i :: 0 <= i < |n.values| && NodeEquals(n.values[i], item))
  {
    if n.Array? || (n.StringArray? && item.StringIndex?) || (n.PathArray? && item.PathIndex?) then
      Ok(IndexWhere(n.values, item) >= 0)
    else Err(NodeTypeMismatch)
  }

  /** `ContainsKey`. */
  function ContainsKey(n: Node, key: string): (res: Result<bool>)
    requires Valid(n)
    ensures res.Ok? <==> n.Dictionary?
    ensures res.Err? ==> res.error == NodeTypeMismatch
    ensures res.Ok? ==> (res.value <==> Get(n, key).Ok?)
  {
    if n.Dictionary? then Ok(key in n.keys) else Err(NodeTypeMismatch)
  }

  /**
   * `Contains(KeyValuePair)` as written: the key is somewhere among the keys
   * and the value somewhere among the values, not necessarily together.
   */
  function ContainsEntryAsWritten(n: Node, key: string, value: Node): (res: Result<bool>)
    ensures res.Ok? <==> n.Dictionary?
    ensures res.Err? ==> res.error == NodeTypeMismatch
    ensures res.Ok? ==> (res.value <==> key in n.keys && exists i :: 0 <= i < |n.values| && NodeEquals(n.values[i], value))
  {
    if n.Dictionary? then Ok(key in n.keys && IndexWhere(n.values, value) >= 0) else Err(NodeTypeMismatch)
  }

  /** A dictionary mapping "a" to 1 and "b" to 2 "contains" the pair ("a", 2) it does not hold. */
  lemma ContainsEntryAsWrittenMismatch()
    ensures var d := Dictionary(["a", "b"], [Integer(1), Integer(2)]);
      ContainsEntryAsWritten(d, "a", Integer(2)) == Ok(true) && Get(d, "a") == Ok(Integer(1))
  {
    var d := Dictionary(["a", "b"], [Integer(1), Integer(2)]);
    assert NodeEquals(d.values[1], Integer(2));
    assert FirstIndex(d.keys, "a") == Some(0);
  }

  /** `Contains(KeyValuePair)` as a dictionary promises it: the key is present and its value `Equals` the given one. */
  function ContainsEntry(n: Node, key: string, value: Node): (res: Result<bool>)
    requires Valid(n)
    ensures res.Ok? <==> n.Dictionary?
    ensures res.Err? ==> res.error == NodeTypeMismatch
    ensures res.Ok? ==> (res.value <==> Get(n, key).Ok? && NodeEquals(Get(n, key).value, value))
  {
    if !n.Dictionary? then Err(NodeTypeMismatch)
    else
      match FirstIndex(n.keys, key)
      case None => Ok(false)
      case Some(i) => Ok(NodeEquals(n.values[i], value))
  }

  /** The corrected check implies the one as written, but not the other way round. */
  lemma ContainsEntryImpliesAsWritten(n: Node, key: string, value: Node)
    requires Valid(n) && n.Dictionary?
    ensures ContainsEntry(n, key, value) == Ok(true) ==> ContainsEntryAsWritten(n, key, value) == Ok(true)
    ensures var d := Dictionary(["a", "b"], [Integer(1), Integer(2)]);
      ContainsEntry(d, "a", Integer(2)) == Ok(false)
  {
    var d := Dictionary(["a", "b"], [Integer(1), Integer(2)]);
    assert FirstIndex(d.keys, "a") == Some(0);
    if ContainsEntry(n, key, value) == Ok(true) {
      var i := FirstIndex(n.keys, key).value;
      assert NodeEquals(n.values[i], value);
    }
  }

  /** `Insert`: puts a child before position `index`, which may be the count itself. */
  function Insert(n: Node, index: int, item: Node): (res: Result<Node>)
    ensures res.Ok? <==> ((n.Array? || (n.StringArray? && item.StringIndex?) || (n.PathArray? && item.PathIndex?)) &&
      0 <= index <= |n.values|)
    ensures res.Err? && (n.Array? || (n.StringArray? && item.StringIndex?) || (n.PathArray? && item.PathIndex?)) ==>
      res.error == IndexOutOfRange
    ensures res.Ok? ==> (TypeOf(res.value) == TypeOf(n) && |res.value.values| == |n.values| + 1 &&
      res.value.values[index] == item && RemovedAt(res.value.values, index) == n.values)
  {
    if !(n.Array? || (n.StringArray? && item.StringIndex?) || (n.PathArray? && item.PathIndex?)) then Err(NodeTypeMismatch)
    else if 0 <= index <= |n.values| then
      var vs := n.values[..index] + [item] + n.values[index..];
      assert RemovedAt(vs, index) == n.values;
      Ok(WithValues(n, vs))
    else Err(IndexOutOfRange)
  }

  /** `RemoveAt`: drops the child at a position of a list. */
  function RemoveAt(n: Node, index: int): (res: Result<Node>)
    ensures res.Ok? <==> IsList(n) && 0 <= index < |n.values|
    ensures !IsList(n) ==> res == Err(NodeTypeMismatch)
    ensures IsList(n) && res.Err? ==> res.error == IndexOutOfRange
    ensures res.Ok? ==> res.value == WithValues(n, RemovedAt(n.values, index))
  {
    if !IsList(n) then Err(NodeTypeMismatch)
    else if 0 <= index < |n.values| then Ok(WithValues(n, RemovedAt(n.values, index)))
    else Err(IndexOutOfRange)
  }

  /** Inserting and then removing at the same position gives the node back. */
  lemma RemoveAtUndoesInsert(n: Node, index: int, item: Node)
    requires Insert(n, index, item).Ok?
    ensures RemoveAt(Insert(n, index, item).value, index) == Ok(n)
  {
  }

  /**
   * `Remove(ByamlNode)`, `Remove(string)` on a string array and
   * `Remove(ByamlPath)`: drops the first child that `Equals` the item; the
   * flag says whether there was one.
   */
  function Remove(n: Node, item: Node): (res: Result<(Node, bool)>)
    ensures res.Ok? <==> (n.Array? || (n.StringArray? && item.StringIndex?) || (n.PathArray? && item.PathIndex?))
    ensures res.Err? ==> res.error == NodeTypeMismatch
    ensures res.Ok? ==> (res.value.1 <==> Contains(n, item) == Ok(true))
    ensures res.Ok? && !res.value.1 ==> res.value.0 == n
    ensures res.Ok? && res.value.1 ==> res.value.0 == WithValues(n, RemovedAt(n.values, IndexOf(n, item).value))
  {
    if !(n.Array? || (n.StringArray? && item.StringIndex?) || (n.PathArray? && item.PathIndex?)) then Err(NodeTypeMismatch)
    else
      var i := IndexWhere(n.values, item);
      if i < 0 then Ok((n, false)) else Ok((WithValues(n, RemovedAt(n.values, i)), true))
  }

  /** `Remove(string)` on a dictionary: drops the key and the value at the same position, keeping the lists parallel. */
  function RemoveKey(n: Node, key: string): (res: Result<(Node, bool)>)
    requires Valid(n)
    ensures res.Ok? <==> n.Dictionary?
    ensures res.Err? ==> res.error == NodeTypeMismatch
    ensures res.Ok? ==> res.value.0.Dictionary? && (res.value.1 <==> key in n.keys)
    ensures res.Ok? && !res.value.1 ==> res.value.0 == n
    ensures res.Ok? && res.value.1 ==> (exists i :: (0 <= i < |n.keys| && n.keys[i] == key &&
      res.value.0 == Dictionary(RemovedAt(n.keys, i), RemovedAt(n.values, i))))
  {
    if !n.Dictionary? then Err(NodeTypeMismatch)
    else
      match FirstIndex(n.keys, key)
      case None => Ok((n, false))
      case Some(i) => Ok((Dictionary(RemovedAt(n.keys, i), RemovedAt(n.values, i)), true))
  }

  /** Removing a key keeps the dictionary valid, leaves the key absent and every other key with its value. */
  lemma GetAfterRemoveKey(n: Node, key: string, other: string)
    requires Valid(n) && n.Dictionary?
    ensures Valid(RemoveKey(n, key).value.0)
    ensures Get(RemoveKey(n, key).value.0, key) == Err(KeyNotFound)
    ensures other != key ==> Get(RemoveKey(n, key).value.0, other) == Get(n, other)
  {
    if key in n.keys {
      var i := FirstIndex(n.keys, key).value;
      RemovedAtDistinct(n.keys, i);
      if other != key {
        RemovedAtFind(n.keys, i, other);
      }
    }
  }

  /** Removing the element at `i` of a repetition-free sequence leaves one without it and without repetitions. */
  lemma RemovedAtDistinct<T>(s: seq<T>, i: nat)
    requires Distinct(s) && i < |s|
    ensures Distinct(RemovedAt(s, i)) && s[i] !in RemovedAt(s, i)
  {
    var r := RemovedAt(s, i);
    forall a, b | 0 <= a < b < |r|
      ensures r[a] != r[b]
    {
      var a' := if a < i then a else a + 1;
      var b' := if b < i then b else b + 1;
      assert r[a] == s[a'] && r[b] == s[b'];
    }
    forall a | 0 <= a < |r|
      ensures r[a] != s[i]
    {
      var a' := if a < i then a else a + 1;
      assert r[a] == s[a'];
    }
  }

  /** Every other element stays, one place earlier when it came after `i`. */
  lemma RemovedAtFind<T>(s: seq<T>, i: nat, x: T)
    requires i < |s| && x != s[i]
    ensures FirstIndex(RemovedAt(s, i), x) ==
      match FirstIndex(s, x)
      case None => None
      case Some(j) => Some(if j < i then j else j - 1)
  {
    match FirstIndex(s, x)
    case None =>
      RemovedAtAbsent(s, i, x);
    case Some(j) =>
      RemovedAtFirst(s, i, j);
  }

  lemma RemovedAtAbsent<T>(s: seq<T>, i: nat, x: T)
    requires i < |s| && x !in s
    ensures FirstIndex(RemovedAt(s, i), x) == None
  {
    var r := RemovedAt(s, i);
    forall k | 0 <= k < |r|
      ensures r[k] != x
    {
      assert r[k] == s[if k < i then k else k + 1];
    }
  }

  lemma RemovedAtFirst<T>(s: seq<T>, i: nat, j: nat)
    requires i < |s| && j < |s| && j != i && forall m :: 0 <= m < j ==> s[m] != s[j]
    ensures FirstIndex(RemovedAt(s, i), s[j]) == Some(if j < i then j else j - 1)
  {
    var r := RemovedAt(s, i);
    var j' := if j < i then j else j - 1;
    assert r[j'] == s[j];
    forall m | 0 <= m < j'
      ensures r[m] != s[j]
    {
      assert r[m] == s[if m < i then m else m + 1];
    }
    FirstIndexAt(r, s[j], j');
  }

  /** Appending an element leaves the first occurrences of every other element where they were. */
  lemma {:induction false} FirstIndexAppend<T>(s: seq<T>, y: T, x: T)
    requires x != y
    ensures FirstIndex(s + [y], x) == FirstIndex(s, x)
  {
    if |s| > 0 && s[0] != x {
      assert (s + [y])[1..] == s[1..] + [y];
      FirstIndexAppend(s[1..], y, x);
    }
  }

  /**
   * `Remove(KeyValuePair)`: finds the first entry with the key and drops it
   * only when its value is the given one; a key with another value is kept.
   */
  function RemoveEntry(n: Node, key: string, value: Node): (res: Result<(Node, bool)>)
    requires Valid(n)
    ensures res.Ok? <==> n.Dictionary?
    ensures res.Err? ==> res.error == NodeTypeMismatch
    ensures res.Ok? ==> (res.value.1 <==> ContainsEntry(n, key, value) == Ok(true))
    ensures res.Ok? && res.value.1 ==> RemoveKey(n, key) == Ok(res.value)
    ensures res.Ok? && !res.value.1 ==> res.value.0 == n
  {
    if !n.Dictionary? then Err(NodeTypeMismatch)
    else
      match FirstIndex(n.keys, key)
      case None => Ok((n, false))
      case Some(i) =>
        if NodeEquals(n.values[i], value) then Ok((Dictionary(RemovedAt(n.keys, i), RemovedAt(n.values, i)), true))
        else Ok((n, false))
  }

  /** The explicit `string` conversion. */
  function AsString(n: Node): (res: Result<string>)
    ensures res.Ok? <==> n.StringIndex?
    ensures res.Err? ==> res.error == NodeTypeMismatch
    ensures res.Ok? ==> StringIndex(res.value) == n
  {
    if n.StringIndex? then Ok(n.str) else Err(NodeTypeMismatch)
  }

  /** The explicit `ByamlPath` conversion. */
  function AsPath(n: Node): (res: Result<Path>)
    ensures res.Ok? <==> n.PathIndex?
    ensures res.Err? ==> res.error == NodeTypeMismatch
    ensures res.Ok? ==> PathIndex(res.value) == n
  {
    if n.PathIndex? then Ok(n.path) else Err(NodeTypeMismatch)
  }

  /** The explicit `List<ByamlNode>` conversion: an array's children. */
  function AsList(n: Node): (res: Result<seq<Node>>)
    ensures res.Ok? <==> n.Array?
    ensures res.Err? ==> res.error == NodeTypeMismatch
    ensures res.Ok? ==> Array(res.value) == n
  {
    if n.Array? then Ok(n.values) else Err(NodeTypeMismatch)
  }

  /** The explicit `bool`, `int` and `float` conversions. */
  function AsBool(n: Node): (res: Result<bool>)
    ensures res.Ok? <==> n.Boolean?
    ensures res.Err? ==> res.error == NodeTypeMismatch
    ensures res.Ok? ==> Boolean(res.value) == n
  {
    if n.Boolean? then Ok(n.b) else Err(NodeTypeMismatch)
  }

  function AsInt(n: Node): (res: Result<int32>)
    ensures res.Ok? <==> n.Integer?
    ensures res.Err? ==> res.error == NodeTypeMismatch
    ensures res.Ok? ==> Integer(res.value) == n
  {
    if n.Integer? then Ok(n.i) else Err(NodeTypeMismatch)
  }

  function AsFloat(n: Node): (res: Result<u32>)
    ensures res.Ok? <==> n.Float?
    ensures res.Err? ==> res.error == NodeTypeMismatch
    ensures res.Ok? ==> Float(res.value) == n
  {
    if n.Float? then Ok(n.bits) else Err(NodeTypeMismatch)
  }

  /** The `Dictionary<string, ByamlNode>` constructor: the entries' keys and values, in enumeration order. */
  function FromDictionary(entries: seq<(string, Node)>): (n: Node)
    requires Distinct(entries)
    ensures n.Dictionary? && |n.keys| == |entries| == |n.values|
    ensures forall i :: 0 <= i < |entries| ==> n.keys[i] == entries[i].0 && n.values[i] == entries[i].1
  {
    Dictionary(seq(|entries|, i requires 0 <= i < |entries| => entries[i].0),
               seq(|entries|, i requires 0 <= i < |entries| => entries[i].1))
  }

  /**
   * The explicit `Dictionary<string, ByamlNode>` conversion: the entries,
   * added one by one while there are values.  A repeated key throws at the
   * repeat; running out of keys throws only after every earlier key was
   * added, so a repeat among the first `Shared(n)` keys is the error.
   */
  function AsDictionary(n: Node): (res: Result<seq<(string, Node)>>)
    ensures res.Ok? <==> n.Dictionary? && |n.keys| >= |n.values| && Distinct(n.keys[..|n.values|])
    ensures n.Dictionary? && res.Err? ==>
      (res.error == DuplicateKey <==> !Distinct(n.keys[..Shared(n)])) &&
      (res.error == IndexOutOfRange <==> Distinct(n.keys[..Shared(n)]) && |n.keys| < |n.values|)
    ensures res.Ok? ==> (|res.value| == |n.values| &&
      forall i :: 0 <= i < |res.value| ==> res.value[i] == (n.keys[i], n.values[i]))
  {
    if !n.Dictionary? then Err(NodeTypeMismatch)
    else if !Distinct(n.keys[..Shared(n)]) then Err(DuplicateKey)
    else if |n.keys| < |n.values| then Err(IndexOutOfRange)
    else Ok(seq(|n.values|, i requires 0 <= i < |n.values| => (n.keys[i], n.values[i])))
  }

  /** How many positions have both a key and a value. */
  function Shared(n: Node): (m: nat)
    requires n.Dictionary?
    ensures m <= |n.keys| && m <= |n.values| && (m == |n.keys| || m == |n.values|)
  {
    if |n.keys| < |n.values| then |n.keys| else |n.values|
  }

  /**
   * The conversion as the source's loop runs it: for each value index `i`,
   * `_keys[i]` (out of range past the keys), then `Add`, which throws when
   * the key is already in the dictionary being built.
   */
  method AsDictionaryLoop(n: Node) returns (res: Result<seq<(string, Node)>>)
    ensures res == AsDictionary(n)
  {
    if !n.Dictionary? {
      return Err(NodeTypeMismatch);
    }
    var entries: seq<(string, Node)> := [];
    var i := 0;
    while i < |n.values|
      invariant i <= |n.values| && i <= |n.keys| && |entries| == i
      invariant Distinct(n.keys[..i])
      invariant forall k :: 0 <= k < i ==> entries[k] == (n.keys[k], n.values[k])
    {
      if i >= |n.keys| {
        assert n.keys[..Shared(n)] == n.keys[..i];
        return Err(IndexOutOfRange);
      }
      if exists k :: 0 <= k < |entries| && entries[k].0 == n.keys[i] {
        var k :| 0 <= k < |entries| && entries[k].0 == n.keys[i];
        assert n.keys[..Shared(n)][k] == n.keys[..Shared(n)][i];
        return Err(DuplicateKey);
      }
      assert n.keys[..i + 1] == n.keys[..i] + [n.keys[i]];
      entries := entries + [(n.keys[i], n.values[i])];
      i := i + 1;
    }
    assert n.keys[..Shared(n)] == n.keys[..i];
    assert entries == seq(|n.values|, k requires 0 <= k < |n.values| => (n.keys[k], n.values[k]));
    return Ok(entries);
  }

  /** A dictionary with distinct keys converts back to its entries, and the constructed node is valid. */
  lemma DictionaryRoundTrip(entries: seq<(string, Node)>)
    requires forall i, j :: 0 <= i < j < |entries| ==> entries[i].0 != entries[j].0
    ensures Valid(FromDictionary(entries))
    ensures AsDictionary(FromDictionary(entries)) == Ok(entries)
  {
    var n := FromDictionary(entries);
    assert n.keys[..|n.values|] == n.keys;
    var s := seq(|n.values|, i requires 0 <= i < |n.values| => (n.keys[i], n.values[i]));
    assert s == entries;
  }

  /** The `List<string>` constructor: one string node per element. */
  function FromStringList(strings: seq<string>): (n: Node)
    ensures n.StringArray? && |n.values| == |strings|
    ensures forall i :: 0 <= i < |strings| ==> n.values[i] == StringIndex(strings[i])
  {
    StringArray(seq(|strings|, i requires 0 <= i < |strings| => StringIndex(strings[i])))
  }

  /**
   * The explicit `List<string>` conversion: every child converted to a
   * string; a child that is not a string node throws.
   */
  function AsStringList(n: Node): (res: Result<seq<string>>)
    ensures res.Ok? <==> n.StringArray? && forall i :: 0 <= i < |n.values| ==> n.values[i].StringIndex?
    ensures res.Err? ==> res.error == NodeTypeMismatch
    ensures res.Ok? ==> FromStringList(res.value) == n
  {
    if n.StringArray? && forall i :: 0 <= i < |n.values| ==> n.values[i].StringIndex? then
      var s := seq(|n.values|, i requires 0 <= i < |n.values| => n.values[i].str);
      assert FromStringList(s).values == n.values;
      Ok(s)
    else Err(NodeTypeMismatch)
  }

  /** A string list survives the round trip through a string-array node. */
  lemma StringListRoundTrip(strings: seq<string>)
    ensures AsStringList(FromStringList(strings)) == Ok(strings)
  {
    var n := FromStringList(strings);
    assert forall i :: 0 <= i < |n.values| ==> n.values[i].StringIndex?;
    var s := seq(|n.values|, i requires 0 <= i < |n.values| => n.values[i].str);
    assert s == strings;
  }

  /** The `List<ByamlPath>` constructor and conversion. */
  function FromPathList(paths: seq<Path>): (n: Node)
    ensures n.PathArray? && |n.values| == |paths|
    ensures forall i :: 0 <= i < |paths| ==> n.values[i] == PathIndex(paths[i])
  {
    PathArray(seq(|paths|, i requires 0 <= i < |paths| => PathIndex(paths[i])))
  }

  function AsPathList(n: Node): (res: Result<seq<Path>>)
    ensures res.Ok? <==> n.PathArray? && forall i :: 0 <= i < |n.values| ==> n.values[i].PathIndex?
    ensures res.Err? ==> res.error == NodeTypeMismatch
    ensures res.Ok? ==> FromPathList(res.value) == n
  {
    if n.PathArray? && forall i :: 0 <= i < |n.values| ==> n.values[i].PathIndex? then
      var s := seq(|n.values|, i requires 0 <= i < |n.values| => n.values[i].path);
      assert FromPathList(s).values == n.values;
      Ok(s)
    else Err(NodeTypeMismatch)
  }

  lemma PathListRoundTrip(paths: seq<Path>)
    ensures AsPathList(FromPathList(paths)) == Ok(paths)
  {
    var n := FromPathList(paths);
    assert forall i :: 0 <= i < |n.values| ==> n.values[i].PathIndex?;
    var s := seq(|n.values|, i requires 0 <= i < |n.values| => n.values[i].path);
    assert s == paths;
  }
}
