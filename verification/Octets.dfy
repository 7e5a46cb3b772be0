/** Byte strings, and the concatenation of a sequence of them. */
module Octets {
  newtype octet = x: int | 0 <= x < 256
  type Bytes = seq<octet>

  const LF: octet := 10
  const CR: octet := 13

  function Concat(chunks: seq<Bytes>): Bytes {
    if chunks == [] then [] else Concat(chunks[..|chunks| - 1]) + chunks[|chunks| - 1]
  }

  lemma ConcatSnoc(chunks: seq<Bytes>, chunk: Bytes)
    ensures Concat(chunks + [chunk]) == Concat(chunks) + chunk
  {
    assert (chunks + [chunk])[..|chunks|] == chunks;
  }

  lemma {:induction false} ConcatAppend(a: seq<Bytes>, b: seq<Bytes>)
    ensures Concat(a + b) == Concat(a) + Concat(b)
  {
    if b == [] {
      assert a + b == a;
    } else {
      var n := |b| - 1;
      ConcatAppend(a, b[..n]);
      assert b == b[..n] + [b[n]];
      assert a + b == (a + b[..n]) + [b[n]];
      ConcatSnoc(a + b[..n], b[n]);
      Append(Concat(a), Concat(b[..n]), b[n]);
    }
  }

  lemma Append(a: Bytes, b: Bytes, c: Bytes)
    ensures a + (b + c) == a + b + c
  {
  }

  lemma SliceJoin(s: Bytes, i: nat, j: nat, k: nat)
    requires i <= j <= k <= |s|
    ensures s[i..j] + s[j..k] == s[i..k]
  {
  }

  /** A slice of a slice. */
  lemma SliceOfSlice(s: Bytes, base: nat, data: Bytes, i: nat, j: nat)
    requires base + |data| <= |s| && s[base..base + |data|] == data && i <= j <= |data|
    ensures data[i..j] == s[base + i..base + j]
  {
    forall k | 0 <= k < j - i ensures data[i..j][k] == s[base + i..base + j][k] {
      assert data[i + k] == s[base..base + |data|][i + k];
    }
  }

  /** A prefix of the chunks makes a prefix of the stream. */
  lemma {:induction false} ConcatPrefix(chunks: seq<Bytes>, i: nat)
    requires i <= |chunks|
    ensures Concat(chunks[..i]) <= Concat(chunks)
  {
    assert chunks == chunks[..i] + chunks[i..];
    ConcatAppend(chunks[..i], chunks[i..]);
  }
}
