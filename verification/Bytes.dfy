/** The bytes of an open file, and what writing and truncating do to them. */
module Bytes {
  type byte = b: int | 0 <= b < 256

  function Zeros(n: nat): (z: seq<byte>)
    ensures |z| == n
  {
    seq(n, _ => 0)
  }

  function Resized(data: seq<byte>, n: nat): (r: seq<byte>)
    ensures |r| == n
  {
    if n <= |data| then data[..n] else data + Zeros(n - |data|)
  }

  /** The bytes after `patch` was written from offset `at`; a gap before it reads as zeros. */
  function Overwritten(data: seq<byte>, at: nat, patch: seq<byte>): seq<byte> {
    if patch == [] then data
    else if at + |patch| <= |data| then data[..at] + patch + data[at + |patch|..]
    else Resized(data, at) + patch
  }

  /** Writing at the end appends. */
  lemma OverwrittenAtEnd(data: seq<byte>, patch: seq<byte>)
    ensures Overwritten(data, |data|, patch) == data + patch
  {
    assert data[..|data|] == data;
  }
}
