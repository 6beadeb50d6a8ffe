/** The US-ASCII (ANSI X3.4) text encoding, strict error handling. */
module Ascii {
  import opened Bytes
  import opened Wrappers

  /** Raised for the first character that has no ASCII code. */
  datatype EncodeError = UnicodeEncodeError(position: nat)

  /** Every character of `s` is below 128. */
  predicate IsAscii(s: string)
  {
    forall i :: 0 <= i < |s| ==> s[i] as int < 128
  }

  /**
   * `s` encoded as ASCII: one byte per character holding its code, or the
   * position of the first character that cannot be encoded.
   */
  function Encode(s: string): (r: Result<seq<byte>, EncodeError>)
    ensures r.Success? <==> IsAscii(s)
    ensures r.Success? ==>
      |r.value| == |s| && forall i :: 0 <= i < |s| ==> r.value[i] as int == s[i] as int
    ensures r.Failure? ==>
      r.error.position < |s| && s[r.error.position] as int >= 128 &&
      forall i :: 0 <= i < r.error.position ==> s[i] as int < 128
  {
    if s == [] then Success([])
    else if s[0] as int >= 128 then Failure(UnicodeEncodeError(0))
    else
      match Encode(s[1..])
      case Success(rest) => Success([s[0] as int as byte] + rest)
      case Failure(e) =>
        Failure(UnicodeEncodeError(e.position + 1))
  }
}
