/**
 * Reading a run of records one after another, and reading a record at another
 * position with the cursor restored afterwards (`TemporarySeek` in the C#
 * loaders, `tell`/`seek` pairs in the Python importer).
 */
module Records {
  import opened Wrappers
  import opened BinaryReader

  /** `count` records decoded one after another, each starting where the previous one stopped. */
  function ReadArray<T>(r: Reader, count: nat, decode: Reader -> Result<Parsed<T>>): (res: Result<Parsed<seq<T>>>)
    ensures res.Ok? ==> |res.value.value| == count
    decreases count
  {
    if count == 0 then Ok(Parsed([], r))
    else
      var first :- decode(r);
      var others :- ReadArray(first.rest, count - 1, decode);
      Ok(Parsed([first.value] + others.value, others.rest))
  }

  /** The value of a decode, where the cursor ends up being of no further use. */
  function ValueOf<T>(res: Result<Parsed<T>>): (v: Result<T>)
    ensures v.Ok? <==> res.Ok?
    ensures v.Ok? ==> v.value == res.value.value
    ensures v.Err? ==> v.error == res.error
  {
    match res
    case Ok(p) => Ok(p.value)
    case Err(e) => Err(e)
  }

  /** Whether a decoder that succeeds always consumes exactly `size` bytes. */
  ghost predicate FixedSize<T>(decode: Reader -> Result<Parsed<T>>, size: nat)
  {
    forall r: Reader :: decode(r).Ok? ==> decode(r).value.rest == r.(pos := r.pos + size)
  }

  /** The reader positioned at record `i` of a run of `size`-byte records starting at `r`. */
  function RecordAt(r: Reader, size: nat, i: nat): Reader
  {
    r.(pos := r.pos + size * i)
  }

  /**
   * For records of a fixed size the sequential run is positional: record `i`
   * is the one decoded `size * i` bytes after the start, and the run succeeds
   * exactly when every one of them does.
   */
  lemma {:induction false} FixedSizeArray<T>(r: Reader, count: nat, decode: Reader -> Result<Parsed<T>>, size: nat)
    requires FixedSize(decode, size)
    ensures ReadArray(r, count, decode).Ok? <==> forall i :: 0 <= i < count ==> decode(RecordAt(r, size, i)).Ok?
    ensures ReadArray(r, count, decode).Ok? ==> ReadArray(r, count, decode).value.rest == RecordAt(r, size, count)
    ensures ReadArray(r, count, decode).Ok? ==> forall i :: 0 <= i < count ==>
      (decode(RecordAt(r, size, i)) == Ok(Parsed(ReadArray(r, count, decode).value.value[i], RecordAt(r, size, i + 1))))
    decreases count
  {
    if count > 0 {
      var next := RecordAt(r, size, 1);
      FixedSizeArray(next, count - 1, decode, size);
      assert r == RecordAt(r, size, 0);
      forall i: nat
        ensures RecordAt(next, size, i) == RecordAt(r, size, i + 1)
      {
      }
      if decode(r).Ok? {
        assert decode(r).value.rest == next;
        var rest := ReadArray(next, count - 1, decode);
        if rest.Ok? {
          var all := ReadArray(r, count, decode).value;
          assert all.value == [decode(r).value.value] + rest.value.value;
          assert all.rest == rest.value.rest;
          forall i | 0 <= i < count
            ensures decode(RecordAt(r, size, i)).Ok?
            ensures decode(RecordAt(r, size, i)) == Ok(Parsed(all.value[i], RecordAt(r, size, i + 1)))
          {
            if i > 0 {
              assert RecordAt(r, size, i) == RecordAt(next, size, i - 1);
              assert RecordAt(r, size, i + 1) == RecordAt(next, size, i);
              assert all.value[i] == rest.value.value[i - 1];
              assert decode(RecordAt(next, size, i - 1)) ==
                Ok(Parsed(rest.value.value[i - 1], RecordAt(next, size, i - 1 + 1)));
            } else {
              assert RecordAt(r, size, i) == r && RecordAt(r, size, i + 1) == next;
            }
          }
        } else {
          var k :| 0 <= k < count - 1 && decode(RecordAt(next, size, k)).Err?;
          assert decode(RecordAt(r, size, k + 1)).Err?;
        }
      }
    }
  }

  /** A run of fixed-size records fails with the error of the first record that cannot be decoded. */
  lemma {:induction false} FixedSizeArrayError<T>(r: Reader, count: nat, decode: Reader -> Result<Parsed<T>>, size: nat)
    requires FixedSize(decode, size)
    requires ReadArray(r, count, decode).Err?
    ensures exists i :: (0 <= i < count &&
      (forall j :: 0 <= j < i ==> decode(RecordAt(r, size, j)).Ok?) &&
      decode(RecordAt(r, size, i)) == Err(ReadArray(r, count, decode).error))
    decreases count
  {
    assert r == RecordAt(r, size, 0);
    if decode(r).Ok? {
      var next := RecordAt(r, size, 1);
      assert decode(r).value.rest == next;
      FixedSizeArrayError(next, count - 1, decode, size);
      var k :| 0 <= k < count - 1 &&
        (forall j :: 0 <= j < k ==> decode(RecordAt(next, size, j)).Ok?) &&
        decode(RecordAt(next, size, k)) == Err(ReadArray(r, count, decode).error);
      forall j | 0 <= j < k + 1
        ensures decode(RecordAt(r, size, j)).Ok?
      {
        if j > 0 {
          assert RecordAt(r, size, j) == RecordAt(next, size, j - 1);
        }
      }
      assert RecordAt(r, size, k + 1) == RecordAt(next, size, k);
    }
  }

  /**
   * A record read at `target` with the cursor restored afterwards: the reader
   * the caller continues with is the one it had.
   */
  function ReadAt<T>(r: Reader, target: nat, decode: Reader -> Result<Parsed<T>>): (res: Result<Parsed<T>>)
    ensures res.Ok? <==> decode(r.(pos := target)).Ok?
    ensures res.Ok? ==> res.value == Parsed(decode(r.(pos := target)).value.value, r)
    ensures res.Err? ==> res.error == decode(r.(pos := target)).error
  {
    var p :- decode(r.(pos := target));
    Ok(Parsed(p.value, r))
  }
}
