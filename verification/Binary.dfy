/** Bytes and fixed-width unsigned integers in both byte orders. */
module Binary {
  import opened Wrappers

  type Byte = b: int | 0 <= b < 256
  type Bytes = seq<Byte>

  function Pow256(k: nat): (p: int)
    ensures p > 0
  {
    if k == 0 then 1 else 256 * Pow256(k - 1)
  }

  /** `n` truncated to `k` bytes, most significant byte first. */
  function BigEndian(n: nat, k: nat): (bs: Bytes)
    ensures |bs| == k
  {
    if k == 0 then [] else BigEndian(n / 256, k - 1) + [n % 256]
  }

  function FromBigEndian(bs: Bytes): nat {
    if bs == [] then 0 else 256 * FromBigEndian(bs[..|bs| - 1]) + bs[|bs| - 1]
  }

  /** `n` truncated to `k` bytes, least significant byte first. */
  function LittleEndian(n: nat, k: nat): (bs: Bytes)
    ensures |bs| == k
  {
    if k == 0 then [] else [n % 256] + LittleEndian(n / 256, k - 1)
  }

  function FromLittleEndian(bs: Bytes): nat {
    if bs == [] then 0 else bs[0] + 256 * FromLittleEndian(bs[1..])
  }

  lemma {:induction false} BigEndianRoundTrip(n: nat, k: nat)
    requires n < Pow256(k)
    ensures FromBigEndian(BigEndian(n, k)) == n
  {
    if k > 0 {
      BigEndianRoundTrip(n / 256, k - 1);
      assert BigEndian(n, k)[..k - 1] == BigEndian(n / 256, k - 1);
    }
  }

  lemma {:induction false} LittleEndianRoundTrip(n: nat, k: nat)
    requires n < Pow256(k)
    ensures FromLittleEndian(LittleEndian(n, k)) == n
  {
    if k > 0 {
      LittleEndianRoundTrip(n / 256, k - 1);
      assert LittleEndian(n, k)[1..] == LittleEndian(n / 256, k - 1);
    }
  }

  lemma {:induction false} FromLittleEndianRoundTrip(bs: Bytes)
    ensures FromLittleEndian(bs) < Pow256(|bs|)
    ensures LittleEndian(FromLittleEndian(bs), |bs|) == bs
  {
    if bs != [] {
      FromLittleEndianRoundTrip(bs[1..]);
      var n := FromLittleEndian(bs);
      assert n % 256 == bs[0] && n / 256 == FromLittleEndian(bs[1..]);
      assert bs == [bs[0]] + bs[1..];
    }
  }

  lemma Pow256Values()
    ensures Pow256(4) == 0x1_0000_0000 && Pow256(8) == 0x1_0000_0000_0000_0000
  {
    assert Pow256(1) == 256 && Pow256(2) == 0x1_0000 && Pow256(3) == 0x100_0000;
    assert Pow256(5) == 0x100_0000_0000 && Pow256(6) == 0x1_0000_0000_0000 && Pow256(7) == 0x100_0000_0000_0000;
  }

  /** The number with these four base-256 digits. */
  function Number(a: int, b: int, c: int, d: int): int {
    0x100_0000 * a + 0x1_0000 * b + 0x100 * c + d
  }

  /** Four bytes, most significant first, and least significant first. */
  lemma FourBytes(bs: Bytes)
    requires |bs| == 4
    ensures FromBigEndian(bs) == Number(bs[0], bs[1], bs[2], bs[3])
    ensures FromLittleEndian(bs) == Number(bs[3], bs[2], bs[1], bs[0])
  {
    var b3 := bs[..3];
    var b2 := b3[..2];
    var b1 := b2[..1];
    assert FromBigEndian(b1) == bs[0] && FromBigEndian(b2) == 256 * FromBigEndian(b1) + bs[1];
    assert FromBigEndian(b3) == 256 * FromBigEndian(b2) + bs[2];
    var c1 := bs[1..];
    var c2 := c1[1..];
    var c3 := c2[1..];
    assert FromLittleEndian(c3) == bs[3] && FromLittleEndian(c2) == bs[2] + 256 * FromLittleEndian(c3);
    assert FromLittleEndian(c1) == bs[1] + 256 * FromLittleEndian(c2);
  }

  lemma {:induction false} BigEndianSplits(a: Bytes, b: Bytes)
    ensures FromBigEndian(a + b) == FromBigEndian(a) * Pow256(|b|) + FromBigEndian(b)
  {
    if b == [] {
      assert a + b == a;
    } else {
      var n := |b| - 1;
      BigEndianSplits(a, b[..n]);
      assert (a + b)[..|a + b| - 1] == a + b[..n];
      Shift(FromBigEndian(a), Pow256(n), FromBigEndian(b[..n]));
    }
  }

  lemma Shift(x: int, y: int, z: int)
    ensures 256 * (x * y + z) == x * (256 * y) + 256 * z
  {}

  /** Eight bytes are two times four, the first four counting 2^32 times as much. */
  lemma EightBytes(bs: Bytes)
    requires |bs| == 8
    ensures FromBigEndian(bs) == 0x1_0000_0000 * FromBigEndian(bs[..4]) + FromBigEndian(bs[4..])
  {
    Pow256Values();
    assert bs == bs[..4] + bs[4..];
    BigEndianSplits(bs[..4], bs[4..]);
  }

  // ---- Slices ----

  lemma SliceOfSlice<T>(buf: seq<T>, lo: nat, hi: nat, i: nat, j: nat)
    requires lo <= hi <= |buf| && i <= j <= hi - lo
    ensures buf[lo..hi][i..j] == buf[lo + i..lo + j]
  {
    var a, b := buf[lo..hi][i..j], buf[lo + i..lo + j];
    forall k | 0 <= k < |a| ensures a[k] == b[k] {
      assert a[k] == buf[lo..hi][i + k] == buf[lo + i + k];
    }
  }

  lemma FourSlices<T>(buf: seq<T>, a: nat, b: nat, c: nat, d: nat)
    requires a <= b <= c < d <= |buf|
    ensures buf[a..d] == buf[a..b] + buf[b..c] + [buf[c]] + buf[c + 1..d]
  {}

  lemma SliceJoins<T>(buf: seq<T>, i: nat, j: nat, a: seq<T>, b: seq<T>)
    requires i <= j <= |buf| && buf[..i] == a && buf[i..j] == b
    ensures buf[..j] == a + b
  {}

  lemma PrefixSplits<T>(a: seq<T>, b: seq<T>, buf: seq<T>)
    requires a + b <= buf
    ensures a <= buf && buf[|a|..|a| + |b|] == b
  {
    assert buf[..|a| + |b|] == a + b;
    assert buf[..|a|] == (a + b)[..|a|] == a;
    assert buf[|a|..|a| + |b|] == (a + b)[|a|..] == b;
  }

  // ---- Regrouping concatenations ----

  lemma Regroup<T>(a: seq<T>, b: seq<T>, c: seq<T>, rest: seq<T>)
    ensures a + b + c + rest == a + b + (c + rest)
  {}

  /** `a b | c d | e` followed by `rest`, nested to the right. */
  lemma RegroupTwo<T>(a: seq<T>, b: seq<T>, c: seq<T>, d: seq<T>, e: seq<T>, rest: seq<T>)
    ensures a + b + c + d + e + rest == a + b + (c + d + (e + rest))
  {
    Regroup(a + b, c, d, e + rest);
    Regroup(a + b, c + d, e, rest);
    Regroup(a, b, c + d, e + rest);
    assert a + b + c + d == a + b + (c + d);
  }

  lemma CutAt<T>(s: seq<T>, i: nat)
    requires i < |s|
    ensures s == s[..i] + [s[i]] + s[i + 1..]
  {}

  // ---- Searching ----

  /** The first position of `b`. */
  function IndexByte(buf: Bytes, b: Byte): (r: Option<nat>)
    ensures r.None? <==> b !in buf
    ensures r.Some? ==> r.value < |buf| && buf[r.value] == b && b !in buf[..r.value]
  {
    if buf == [] then None
    else if buf[0] == b then Some(0)
    else
      match IndexByte(buf[1..], b)
      case None => None
      case Some(i) =>
        assert buf[..i + 1] == [buf[0]] + buf[1..][..i];
        Some(i + 1)
  }

  lemma IndexByteIsFirst(buf: Bytes, b: Byte, n: nat)
    requires n < |buf| && buf[n] == b && b !in buf[..n]
    ensures IndexByte(buf, b) == Some(n)
  {
    hide IndexByte;
    assert buf[n] in buf;
  }

  /** The first `b` after a `b`-free stretch. */
  lemma IndexByteAfter(a: Bytes, b: Byte, rest: Bytes)
    requires b !in a
    ensures IndexByte(a + [b] + rest, b) == Some(|a|)
  {
    var buf := a + [b] + rest;
    assert buf[..|a|] == a;
    IndexByteIsFirst(buf, b, |a|);
  }
}
