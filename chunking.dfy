/** How the PUT path cuts a payload into chunks: a `bytes.Reader` over the
    payload is read into one reused buffer of `bufSize` bytes, and each read
    fills the buffer as far as the payload goes. */
module Chunking {
  import opened Common

  /** The successive chunks the reads produce. A zero-size buffer reads
      nothing, so it produces no chunk at all. */
  function Split(p: seq<byte>, size: nat): seq<seq<byte>>
    decreases |p|
  {
    if size == 0 || p == [] then []
    else
      var m := Min(size, |p|);
      [p[..m]] + Split(p[m..], size)
  }

  /** The bytes of a list of chunks, one after the other. */
  function Concat(cs: seq<seq<byte>>): seq<byte>
  {
    if cs == [] then [] else cs[0] + Concat(cs[1..])
  }

  /** One read step: the next chunk is the first min(size, |q|) bytes, when
      there are any, and the rest is split the same way. */
  lemma SplitStep(q: seq<byte>, size: nat)
    ensures var m := Min(size, |q|);
      && Split(q, size) == (if m > 0 then [q[..m]] else []) + Split(q[m..], size)
      && (m == 0 ==> Split(q, size) == [])
  {
  }

  /** SplitStep for the read that starts at offset off of p. */
  lemma ReadStep(p: seq<byte>, off: nat, size: nat)
    requires off <= |p|
    ensures var m := Min(size, |p| - off);
      && Split(p[off..], size) == (if m > 0 then [p[off..off + m]] else []) + Split(p[off + m..], size)
      && (m == 0 ==> Split(p[off..], size) == [])
  {
    var m := Min(size, |p| - off);
    SplitStep(p[off..], size);
    assert p[off..][..m] == p[off..off + m];
    assert p[off..][m..] == p[off + m..];
  }

  /** With a non-empty buffer the chunks put back together are the payload. */
  lemma {:induction false} SplitConcat(p: seq<byte>, size: nat)
    requires size > 0
    ensures Concat(Split(p, size)) == p
    decreases |p|
  {
    if p != [] {
      var m := Min(size, |p|);
      SplitConcat(p[m..], size);
      assert Split(p, size)[1..] == Split(p[m..], size);
      assert p[..m] + p[m..] == p;
    }
  }

  /** No chunk is empty or larger than the buffer, and every chunk but the
      last fills the buffer. */
  lemma {:induction false} SplitChunkSizes(p: seq<byte>, size: nat)
    ensures forall i :: 0 <= i < |Split(p, size)| ==> 0 < |Split(p, size)[i]| <= size
    ensures forall i :: 0 <= i < |Split(p, size)| - 1 ==> |Split(p, size)[i]| == size
    decreases |p|
  {
    if size > 0 && p != [] {
      var m := Min(size, |p|);
      var rest := Split(p[m..], size);
      SplitChunkSizes(p[m..], size);
      assert Split(p, size) == [p[..m]] + rest;
      if rest != [] {
        assert m == size;
      }
    }
  }

  /** There are exactly ceil(|p| / size) chunks: enough to hold the payload,
      and one fewer would not be; an empty payload has none. */
  lemma {:induction false} SplitCount(p: seq<byte>, size: nat)
    requires size > 0
    ensures |Split(p, size)| * size >= |p|
    ensures p != [] ==> (|Split(p, size)| - 1) * size < |p|
    ensures Split(p, size) == [] <==> p == []
    decreases |p|
  {
    if p != [] {
      var m := Min(size, |p|);
      var rest := Split(p[m..], size);
      var k := |rest|;
      SplitCount(p[m..], size);
      assert Split(p, size) == [p[..m]] + rest;
      MulStep(k + 1, size);
      if p[m..] != [] {
        assert m == size;
        MulStep(k, size);
      }
    }
  }

  /** c is the slice of p of up to size bytes that starts at offset i * size. */
  predicate IsChunkAt(p: seq<byte>, size: nat, i: nat, c: seq<byte>)
  {
    && i * size < |p|
    && |c| == Min(size, |p| - i * size)
    && c == p[i * size .. i * size + |c|]
  }

  /** Chunk i is the slice of the payload that starts at offset i * size:
      chunks come in offset order, one right after the other. */
  lemma {:induction false} SplitOffsets(p: seq<byte>, size: nat, i: nat)
    requires i < |Split(p, size)|
    ensures IsChunkAt(p, size, i, Split(p, size)[i])
    decreases |p|
  {
    assert size > 0 && p != [];
    if i == 0 {
      assert Split(p, size)[0] == p[..Min(size, |p|)];
    } else {
      var q := p[Min(size, |p|)..];
      assert Split(p, size) == [p[..Min(size, |p|)]] + Split(q, size);
      var c := Split(q, size)[i - 1];
      assert Split(p, size)[i] == c;
      SplitOffsets(q, size, i - 1);
      var off := (i - 1) * size;
      assert |q| > 0 && |p| > size;
      assert q == p[size..];
      MulStep(i, size);
      SliceOfSuffix(p, size, off, |c|);
    }
  }

  lemma SliceOfSuffix(p: seq<byte>, start: nat, off: nat, len: nat)
    requires start + off + len <= |p|
    ensures p[start..][off..off + len] == p[start + off..start + off + len]
  {
  }

  lemma MulStep(i: nat, size: nat)
    requires i > 0
    ensures size + (i - 1) * size == i * size
  {
  }
}
