/** Result types shared by the whole model. */
module Basics {

  datatype Option<+T> = None | Some(value: T)

  /** The refusals of the coordinator's store, one per Go error value. A refused transaction is rolled back. */
  datatype Error =
    | StaleLease
    | Invalid
    | NoTask
    | NotFound
    | CoordinationChanged
    /** A unique index of the schema rejected the write. */
    | Conflict
    /** A remote call failed. */
    | Remote

  datatype Result<+T> = Ok(value: T) | Err(error: Error)

  // ----- bytes -----

  type Byte = b: int | 0 <= b < 256

  /** The length of a text in UTF-8, as RFC 3629 section 3 encodes it. */
  function ByteLength(s: string): nat {
    if s == "" then 0
    else
      var n := s[|s| - 1] as int;
      ByteLength(s[..|s| - 1]) + if n < 0x80 then 1 else if n < 0x800 then 2 else if n < 0x1_0000 then 3 else 4
  }

  // ----- identifiers of runs and sessions -----

  predicate Alphanumeric(c: char) {
    'A' <= c <= 'Z' || 'a' <= c <= 'z' || '0' <= c <= '9'
  }

  predicate ValidId(s: string) {
    && 1 <= |s| <= 128 && Alphanumeric(s[0])
    && forall i :: 1 <= i < |s| ==> Alphanumeric(s[i]) || s[i] in "_.:-"
  }
}
