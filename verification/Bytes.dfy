/** Byte strings, and the parts of Python's `bytes` interface the codec relies on. */
module Bytes {
  /** One octet, represented by the character with the same code so that literals stay readable. */
  type byte = c: char | c as int < 256 witness ' '

  type bytes = seq<byte>

  const QUOTE: byte := '"'
  const BACKSLASH: byte := '\\'

  /** `b"".join(chunks)` */
  function Join(chunks: seq<bytes>): bytes {
    if chunks == [] then [] else Join(chunks[..|chunks| - 1]) + chunks[|chunks| - 1]
  }

  lemma JoinSnoc(chunks: seq<bytes>, chunk: bytes)
    ensures Join(chunks + [chunk]) == Join(chunks) + chunk
  {
    assert (chunks + [chunk])[..|chunks|] == chunks;
  }

  /** `s.find(bytes([b]), start)`: the first index at or after `start` holding `b`, or -1. */
  function Find(s: bytes, b: byte, start: nat): (i: int)
    requires start <= |s|
    ensures i == -1 || start <= i < |s|
    ensures i == -1 ==> b !in s[start..]
    ensures i != -1 ==> s[i] == b && b !in s[start..i]
    decreases |s| - start
  {
    if start == |s| then -1
    else if s[start] == b then start
    else Find(s, b, start + 1)
  }
}
