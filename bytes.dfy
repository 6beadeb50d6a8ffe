/** Bytes, the line-feed delimiter and concatenation of byte buffers. */
module Bytes {

  /** One octet as read from or written to the serial connection. */
  newtype byte = b: int | 0 <= b < 256

  /** The line-framing delimiter, ASCII line feed. */
  const LF: byte := 10

  /** The bytes of all buffers in `chunks`, in order. */
  function Concat(chunks: seq<seq<byte>>): seq<byte>
  {
    if chunks == [] then [] else chunks[0] + Concat(chunks[1..])
  }

  /** Appending one buffer to a history appends its bytes to the concatenation. */
  lemma {:induction false} ConcatAppend(chunks: seq<seq<byte>>, c: seq<byte>)
    ensures Concat(chunks + [c]) == Concat(chunks) + c
  {
    if chunks == [] {
      assert [] + [c] == [c];
      assert Concat([c]) == c + Concat([]);
    } else {
      assert (chunks + [c])[1..] == chunks[1..] + [c];
      ConcatAppend(chunks[1..], c);
    }
  }
}
