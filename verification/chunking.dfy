/**
  Cutting a byte string into GridFS chunks of a fixed size, and joining
  the chunks back together.
 */
module Chunking {

  newtype Byte = b: int | 0 <= b < 256

  type Bytes = seq<Byte>

  /** The chunk size the updater uses when the caller gives none (256 KiB). */
  const DefaultChunkSize: nat := 262144

  function Min(a: int, b: int): int
  {
    if a <= b then a else b
  }

  /**
    The number of chunks a payload of `len` bytes occupies: one per full
    `cs` bytes, and one more for a shorter remainder.
   */
  function ChunkCount(len: nat, cs: nat): nat
    requires cs >= 1
    decreases len
  {
    if len == 0 then 0 else if len <= cs then 1 else 1 + ChunkCount(len - cs, cs)
  }

  lemma MulSucc(n: nat, cs: nat)
    ensures (n + 1) * cs == n * cs + cs
  {
  }

  /**
    The chunks cover the payload and one chunk fewer would not; so the
    count is 0 exactly for the empty payload.
   */
  lemma {:induction false} ChunkCountBounds(len: nat, cs: nat)
    requires cs >= 1
    ensures len <= ChunkCount(len, cs) * cs < len + cs
    ensures ChunkCount(len, cs) == 0 <==> len == 0
  {
    if len > cs {
      ChunkCountBounds(len - cs, cs);
      MulSucc(ChunkCount(len - cs, cs), cs);
    }
  }

  /** The count is the ceiling of len / cs that the PHP code computes. */
  lemma ChunkCountIsCeiling(len: nat, cs: nat)
    requires cs >= 1
    ensures ChunkCount(len, cs) == (len + cs - 1) / cs
  {
    ChunkCountBounds(len, cs);
    DivUnique(len + cs - 1, cs, ChunkCount(len, cs));
  }

  /** x / cs is the n with n * cs <= x < n * cs + cs. */
  lemma DivUnique(x: nat, cs: nat, n: nat)
    requires cs >= 1 && n * cs <= x < n * cs + cs
    ensures x / cs == n
  {
    var q, r := x / cs, x % cs;
    assert q * cs + r == x && 0 <= r < cs;
    if q < n {
      MulLe(q + 1, n, cs);
      MulSucc(q, cs);
      assert false;
    } else if q > n {
      MulLe(n + 1, q, cs);
      MulSucc(n, cs);
      assert false;
    }
  }

  lemma MulLe(a: nat, b: nat, cs: nat)
    requires a <= b
    ensures a * cs <= b * cs
  {
  }

  /** Every chunk index below the count starts inside the payload. */
  lemma ChunkStartInside(len: nat, cs: nat, n: nat)
    requires cs >= 1 && n < ChunkCount(len, cs)
    ensures n * cs + cs <= ChunkCount(len, cs) * cs
    ensures n * cs < len
  {
    var count := ChunkCount(len, cs);
    ChunkCountBounds(len, cs);
    assert n + 1 <= count;
    assert (n + 1) * cs <= count * cs;
  }

  /**
    Chunk `n` of `data`: the bytes from offset n * cs, at most cs of them,
    as substr($bytes, $n * $chunkSize, $chunkSize) returns them for a start
    inside the string.
   */
  function Chunk(data: Bytes, cs: nat, n: nat): Bytes
    requires cs >= 1 && n < ChunkCount(|data|, cs)
  {
    ChunkStartInside(|data|, cs, n);
    data[n * cs .. Min(n * cs + cs, |data|)]
  }

  /**
    Chunk `n` holds min(cs, remaining) bytes, at least one, and they are the
    payload's bytes from offset n * cs on.
   */
  lemma ChunkIsSlice(data: Bytes, cs: nat, n: nat)
    requires cs >= 1 && n < ChunkCount(|data|, cs)
    ensures var c := Chunk(data, cs, n);
      && 1 <= |c| <= cs
      && |c| == Min(cs, |data| - n * cs)
      && forall i | 0 <= i < |c| :: c[i] == data[n * cs + i]
  {
    ChunkStartInside(|data|, cs, n);
  }

  /** The chunks of `data`, in index order. */
  function Split(data: Bytes, cs: nat): (parts: seq<Bytes>)
    requires cs >= 1
    ensures |parts| == ChunkCount(|data|, cs)
    ensures forall n | 0 <= n < |parts| :: parts[n] == Chunk(data, cs, n)
  {
    seq(ChunkCount(|data|, cs), n requires 0 <= n < ChunkCount(|data|, cs) => Chunk(data, cs, n))
  }

  /** The concatenation of `parts` in index order. */
  function Concat(parts: seq<Bytes>): Bytes
  {
    if |parts| == 0 then [] else Concat(parts[..|parts| - 1]) + parts[|parts| - 1]
  }

  /**
    Every chunk but the last holds exactly cs bytes; the last holds the
    remaining 1 to cs bytes.
   */
  lemma SplitShape(data: Bytes, cs: nat)
    requires cs >= 1
    ensures forall n | 0 <= n < |Split(data, cs)| - 1 :: |Split(data, cs)[n]| == cs
    ensures |Split(data, cs)| > 0 ==>
      var last := |Split(data, cs)| - 1;
      |Split(data, cs)[last]| == |data| - last * cs && 1 <= |Split(data, cs)[last]| <= cs
  {
    var parts := Split(data, cs);
    forall n | 0 <= n < |parts| - 1
      ensures |parts[n]| == cs
    {
      ChunkIsSlice(data, cs, n);
      ChunkStartInside(|data|, cs, n + 1);
      MulSucc(n, cs);
    }
    if |parts| > 0 {
      var last := |parts| - 1;
      ChunkIsSlice(data, cs, last);
      ChunkCountBounds(|data|, cs);
      MulSucc(last, cs);
    }
  }

  /** The first k chunks, joined, are the first min(k * cs, |data|) bytes. */
  lemma {:induction false} ConcatPrefix(data: Bytes, cs: nat, k: nat)
    requires cs >= 1 && k <= ChunkCount(|data|, cs)
    ensures Concat(Split(data, cs)[..k]) == data[..Min(k * cs, |data|)]
  {
    var parts := Split(data, cs);
    if k > 0 {
      var n := k - 1;
      ConcatPrefix(data, cs, n);
      ChunkStartInside(|data|, cs, n);
      MulSucc(n, cs);
      var start, end := n * cs, Min(k * cs, |data|);
      assert Min(start, |data|) == start;
      assert parts[..k][..n] == parts[..n];
      assert parts[..k][n] == Chunk(data, cs, n) == data[start..end];
      assert Concat(parts[..k]) == data[..start] + data[start..end];
      assert data[..start] + data[start..end] == data[..end];
    }
  }

  /** Joining the chunks of a payload gives back the payload. */
  lemma ConcatSplit(data: Bytes, cs: nat)
    requires cs >= 1
    ensures Concat(Split(data, cs)) == data
  {
    var parts := Split(data, cs);
    ConcatPrefix(data, cs, |parts|);
    ChunkCountBounds(|data|, cs);
    assert parts[..|parts|] == parts;
    assert data[..|data|] == data;
  }
}
