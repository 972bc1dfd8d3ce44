/** The decoding of the `MaxObjectSize` network parameter: its value is
    copied into eight zero bytes and read as a little-endian `uint64`
    (`binary.LittleEndian.Uint64`). */
module LittleEndian {
  import opened Common

  /** 256 to the power n. */
  function Pow256(n: nat): (p: nat)
    ensures p > 0
  {
    if n == 0 then 1 else 256 * Pow256(n - 1)
  }

  /** The value of a little-endian byte string of any length: byte i weighs 256^i. */
  function LeValue(b: seq<byte>): nat
  {
    if b == [] then 0 else b[0] + 256 * LeValue(b[1..])
  }

  /** The n lowest little-endian bytes of x (`binary.LittleEndian.PutUint64` for n = 8). */
  function LeBytes(x: nat, n: nat): (b: seq<byte>)
    ensures |b| == n
  {
    if n == 0 then [] else [x % 256] + LeBytes(x / 256, n - 1)
  }

  /** k zero bytes. */
  function Zeros(k: nat): (z: seq<byte>)
    ensures |z| == k && forall i :: 0 <= i < k ==> z[i] == 0
  {
    seq(k, _ => 0)
  }

  /** `buf := make([]byte, 8); copy(buf[:], v)`: the first min(8, |v|) bytes of v,
      then zero bytes up to eight. */
  function ZeroPad8(v: seq<byte>): (buf: seq<byte>)
    ensures |buf| == 8
    ensures forall i :: 0 <= i < 8 ==> buf[i] == if i < |v| then v[i] else 0
  {
    if |v| >= 8 then v[..8] else v + Zeros(8 - |v|)
  }

  /** `binary.LittleEndian.Uint64` on an eight-byte buffer. */
  function Uint64(b: seq<byte>): (x: u64)
    requires |b| == 8
    ensures x == LeValue(b)
  {
    Uint64IsLeValue(b);
    b[0] as int + 0x100 * (b[1] as int) + 0x1_0000 * (b[2] as int) + 0x100_0000 * (b[3] as int)
      + 0x1_0000_0000 * (b[4] as int) + 0x100_0000_0000 * (b[5] as int)
      + 0x1_0000_0000_0000 * (b[6] as int) + 0x100_0000_0000_0000 * (b[7] as int)
  }

  /** The value given to `MaxObjectSize`: the little-endian integer of the first
      min(8, |v|) bytes, with zeros above. */
  function DecodeMaxObjectSize(v: seq<byte>): (x: u64)
    ensures x == LeValue(v[..Min(8, |v|)])
  {
    PaddedIsPrefixValue(v);
    Uint64(ZeroPad8(v))
  }

  lemma PaddedIsPrefixValue(v: seq<byte>)
    ensures LeValue(ZeroPad8(v)) == LeValue(v[..Min(8, |v|)])
  {
    if |v| < 8 {
      assert ZeroPad8(v) == v + Zeros(8 - |v|);
      assert v[..Min(8, |v|)] == v;
      LeValueZeroTail(v, 8 - |v|);
    }
  }

  /** The eight-byte little-endian encoding of a `uint64`. */
  function EncodeUint64(x: u64): (b: seq<byte>)
    ensures |b| == 8
  {
    LeBytes(x, 8)
  }

  lemma Uint64IsLeValue(b: seq<byte>)
    requires |b| == 8
    ensures LeValue(b) == b[0] as int + 0x100 * (b[1] as int) + 0x1_0000 * (b[2] as int) + 0x100_0000 * (b[3] as int)
      + 0x1_0000_0000 * (b[4] as int) + 0x100_0000_0000 * (b[5] as int)
      + 0x1_0000_0000_0000 * (b[6] as int) + 0x100_0000_0000_0000 * (b[7] as int)
  {
    assert LeValue(b[8..]) == 0;
    assert LeValue(b[7..]) == b[7] + 256 * LeValue(b[8..]);
    assert LeValue(b[6..]) == b[6] + 256 * LeValue(b[7..]);
    assert LeValue(b[5..]) == b[5] + 256 * LeValue(b[6..]);
    assert LeValue(b[4..]) == b[4] + 256 * LeValue(b[5..]);
    assert LeValue(b[3..]) == b[3] + 256 * LeValue(b[4..]);
    assert LeValue(b[2..]) == b[2] + 256 * LeValue(b[3..]);
    assert LeValue(b[1..]) == b[1] + 256 * LeValue(b[2..]);
  }

  /** Zero bytes above the last one do not change a little-endian value. */
  lemma {:induction false} LeValueZeroTail(b: seq<byte>, k: nat)
    ensures LeValue(b + Zeros(k)) == LeValue(b)
    decreases |b|, k
  {
    if b == [] {
      if k > 0 {
        assert [] + Zeros(k) == Zeros(k) && Zeros(k)[1..] == [] + Zeros(k - 1);
        LeValueZeroTail([], k - 1);
      }
    } else {
      assert (b + Zeros(k))[1..] == b[1..] + Zeros(k);
      LeValueZeroTail(b[1..], k);
    }
  }

  /** A little-endian value of n bytes is below 256^n. */
  lemma {:induction false} LeValueBound(b: seq<byte>)
    ensures LeValue(b) < Pow256(|b|)
  {
    if b != [] {
      LeValueBound(b[1..]);
    }
  }

  lemma Pow256Of8()
    ensures Pow256(8) == TWO_TO_THE_64
  {
    assert Pow256(1) == 0x100;
    assert Pow256(2) == 0x1_0000;
    assert Pow256(3) == 0x100_0000;
    assert Pow256(4) == 0x1_0000_0000;
    assert Pow256(5) == 0x100_0000_0000;
    assert Pow256(6) == 0x1_0000_0000_0000;
    assert Pow256(7) == 0x100_0000_0000_0000;
  }

  /** Reading back n encoded bytes gives the number, when it fits in n bytes. */
  lemma {:induction false} LeBytesRoundTrip(x: nat, n: nat)
    requires x < Pow256(n)
    ensures LeValue(LeBytes(x, n)) == x
  {
    if n > 0 {
      LeBytesRoundTrip(x / 256, n - 1);
      assert LeBytes(x, n)[1..] == LeBytes(x / 256, n - 1);
    }
  }

  /** Encoding the value of a byte string in as many bytes gives the string back. */
  lemma {:induction false} LeValueRoundTrip(b: seq<byte>)
    ensures LeBytes(LeValue(b), |b|) == b
  {
    if b != [] {
      LeValueRoundTrip(b[1..]);
      var v := LeValue(b);
      assert v % 256 == b[0] && v / 256 == LeValue(b[1..]);
    }
  }

  /** Decoding the eight-byte encoding of any `uint64` gives it back. */
  lemma DecodeEncode(x: u64)
    ensures DecodeMaxObjectSize(EncodeUint64(x)) == x
  {
    Pow256Of8();
    LeBytesRoundTrip(x, 8);
    assert EncodeUint64(x)[..Min(8, 8)] == EncodeUint64(x);
  }

  /** Encoding the decoded value of an eight-byte parameter gives the bytes back. */
  lemma EncodeDecode(b: seq<byte>)
    requires |b| == 8
    ensures EncodeUint64(DecodeMaxObjectSize(b)) == b
  {
    assert b[..Min(8, |b|)] == b;
    LeValueRoundTrip(b);
  }

  /** Bytes beyond the eighth do not take part in the decoding. */
  lemma DecodeIgnoresTail(v: seq<byte>, tail: seq<byte>)
    requires |v| == 8
    ensures DecodeMaxObjectSize(v + tail) == DecodeMaxObjectSize(v)
  {
    assert (v + tail)[..8] == v[..8];
  }

  /** A short value is read as if zero bytes followed it. */
  lemma DecodeShortIsPadded(v: seq<byte>)
    requires |v| < 8
    ensures DecodeMaxObjectSize(v) == LeValue(v)
    ensures DecodeMaxObjectSize(v) < Pow256(|v|)
  {
    assert v[..Min(8, |v|)] == v;
    LeValueBound(v);
  }
}
