/** Failure-compatible wrappers shared by every module of the decoder.

    The Kotlin source signals every decoding failure by throwing
    `SerializationException` (or a library exception on an empty tag stack);
    here each step returns a `Result` instead and failure propagates with `:-`,
    so the first error aborts the whole decode exactly as a thrown exception does.
 */
module Results {

  /** A value that may be missing (Kotlin's nullable `T?`). */
  datatype Option<+T> = None | Some(value: T)

  /** Why a decode failed. Only the fact and the kind of failure are modelled,
      not the message text or the offending node's key. */
  datatype DecodeError =
    | NotAString        // getCheckedString: no string view
    | NotAChar          // a string view whose length is not exactly 1
    | NotABoolean
    | NotAnInt          // getCheckedInt: no integer view
    | NotALong
    | NotAFloat
    | NotADouble
    | OutOfByteRange    // an int outside [-128, 127] read as a byte
    | OutOfShortRange   // an int outside [-32768, 32767] read as a short
    | UnknownEnumCase   // getElementIndexOrThrow found no case with that name
    | NoValue           // decodeTaggedValue on a node without a value
    | MissingField(name: string)   // an absent record field without a default
    | NoCurrentTag      // the reader needed a tag but its tag stack is empty
    | MisalignedEntry   // a map value index that does not follow its key index

  datatype Result<+T> = Ok(value: T) | Err(error: DecodeError) {

    predicate IsFailure() {
      Err?
    }

    function PropagateFailure<U>(): Result<U>
      requires Err?
    {
      Err(error)
    }

    function Extract(): T
      requires Ok?
    {
      value
    }
  }
}
