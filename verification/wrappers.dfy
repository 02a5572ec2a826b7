/** Optional values and decode results shared by every decoder of the model. */
module Wrappers {

  datatype Option<+T> = None | Some(value: T)

  /** The exceptions the decoders raise, one constructor per kind. */
  datatype Error =
    | BadMagic            // a 4-byte tag or the BYAML "BY" did not match
    | UnsupportedVersion  // the BYAML version was not 1
    | Truncated           // a fixed-width read ran past the end of the data
    | InvalidByteOrder    // the BFRES byte-order mark was neither 0xFEFF nor 0xFFFE
    | InvalidType         // a type or format tag outside the accepted set
    | UnsupportedFormat   // a vertex accessor was asked for a format it does not decode
    | BadBackReference    // a Yaz0 back-reference reaches before the start of the output
    | NullReference       // a member of a section that was never loaded was dereferenced
    | IndexOutOfRange     // an index into a decoded array was out of range
    | NegativeCount       // an array size that is negative once cast to a 32-bit int
    | KeyNotFound         // a dictionary key was absent
    | DuplicateKey        // a dictionary key was added twice
    | NodeTypeMismatch    // a BYAML node operation on a node of the wrong type
    | Diverges            // the source would loop forever on this input
    | NestingTooDeep      // the model's bound on following nested BYAML offsets ran out
    | MissingMethod       // the importer calls a reader method that does not exist
    | LengthOverflow      // a BYAML collection too long for its 24-bit length field

  datatype Result<+T> = Ok(value: T) | Err(error: Error)
  {
    predicate IsFailure() {
      Err?
    }

    function PropagateFailure<U>(): Result<U>
      requires Err?
    {
      Err(error)
    }

    function Extract(): T
      requires Ok?
    {
      value
    }
  }
}
