/**
 * The warnings the loaders collect instead of failing.  The C# loaders append
 * a message to a list shared by the whole load; here each decoded record
 * carries the warnings raised while its own fields were read.
 */
module Warnings {

  datatype Warning =
    | UnexpectedValue(field: string, value: int)   // "<field> has unexpected value of <value>"
    | PaddingNotEmpty(section: string)             // "<section> padding not empty"
    | CountMismatch(field: string, value: int)     // a header count disagrees with its index group
    | IndexNotRepeated(field: string)              // two copies of an index differ
    | GroupNormallyUnused(slot: nat)               // a BFRES index group slot that is normally empty
    | UnknownTexture                               // a texture selector names no texture of the file

  /** The warning for a field that must hold one of `expected`, if it does not. */
  function Expect(field: string, value: int, expected: set<int>): (w: seq<Warning>)
    ensures value in expected <==> w == []
    ensures value !in expected ==> w == [UnexpectedValue(field, value)]
  {
    if value in expected then [] else [UnexpectedValue(field, value)]
  }
}
