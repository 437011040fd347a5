/** Big-endian conversion of unsigned integers (encoding/binary.BigEndian). */
module ByteOrder {
  import opened Types

  function Pow256(width: nat): (p: nat)
    ensures p > 0
  {
    if width == 0 then 1 else 256 * Pow256(width - 1)
  }

  function BigEndian(n: nat, width: nat): (b: seq<byte>)
    ensures |b| == width
  {
    if width == 0 then [] else BigEndian(n / 256, width - 1) + [n % 256]
  }

  function FromBigEndian(b: seq<byte>): (n: nat) {
    if b == [] then 0 else FromBigEndian(b[..|b| - 1]) * 256 + b[|b| - 1]
  }

  lemma {:induction false} FromBigEndianBound(b: seq<byte>)
    ensures FromBigEndian(b) < Pow256(|b|)
  {
    if b != [] {
      FromBigEndianBound(b[..|b| - 1]);
    }
  }

  lemma {:induction false} DecodeEncode(n: nat, width: nat)
    requires n < Pow256(width)
    ensures FromBigEndian(BigEndian(n, width)) == n
  {
    if width > 0 {
      DecodeEncode(n / 256, width - 1);
      var b := BigEndian(n, width);
      assert b[..width - 1] == BigEndian(n / 256, width - 1);
    }
  }

  lemma {:induction false} EncodeDecode(b: seq<byte>)
    ensures BigEndian(FromBigEndian(b), |b|) == b
  {
    if b != [] {
      EncodeDecode(b[..|b| - 1]);
      assert b == b[..|b| - 1] + [b[|b| - 1]];
    }
  }

  /** byteOrder.PutUint64 into eight bytes. */
  function PutUint64(n: uint64): (b: seq<byte>)
    ensures |b| == 8
  {
    BigEndian(n, 8)
  }

  /** byteOrder.Uint64 of eight bytes. */
  function Uint64(b: seq<byte>): (n: uint64)
    requires |b| == 8
  {
    FromBigEndianBound(b);
    Pow256Of8();
    FromBigEndian(b)
  }

  lemma Pow256Of8()
    ensures Pow256(8) == TWO_64
  {
    assert Pow256(4) == TWO_32;
    assert Pow256(6) == 256 * 256 * TWO_32;
    assert Pow256(8) == 256 * 256 * Pow256(6);
  }

  lemma {:induction false} BigEndianByte(n: nat, width: nat, i: nat)
    requires i < width
    ensures BigEndian(n, width)[i] == n / Pow256(width - 1 - i) % 256
  {
    if i < width - 1 {
      BigEndianByte(n / 256, width - 1, i);
      DivideTwice(n, Pow256(width - 2 - i));
    }
  }

  lemma DivideTwice(n: nat, m: nat)
    requires m > 0
    ensures n / 256 / m == n / (256 * m)
  {
    var a, b := n / 256, n % 256;
    var q, r := a / m, a % m;
    assert a == m * q + r;
    Regroup(m, q);
    assert n == 256 * m * q + (256 * r + b);
    QuotientOf(q, 256 * r + b, 256 * m);
  }

  lemma Regroup(m: nat, q: nat)
    ensures 256 * (m * q) == 256 * m * q
  {
  }

  lemma {:induction false} ProductGap(m: nat, a: nat, b: nat)
    requires a < b
    ensures m * a + m <= m * b
  {
    assert m * b == m * (b - 1) + m;
    if a < b - 1 {
      ProductGap(m, a, b - 1);
    }
  }

  lemma QuotientOf(q: nat, r: nat, m: nat)
    requires r < m
    ensures (m * q + r) / m == q
  {
    var n := m * q + r;
    var x, y := n / m, n % m;
    assert m * x + y == m * q + r;
    assert x < q ==> m * x + m <= m * q by {
      if x < q {
        ProductGap(m, x, q);
      }
    }
    assert q < x ==> m * q + m <= m * x by {
      if q < x {
        ProductGap(m, q, x);
      }
    }
  }

  /** The i-th byte of a number of eight bytes, counted from the most significant one. */
  function ByteOf(n: uint64, i: nat): byte
    requires i < 8
  {
    n / Pow256(7 - i) % 256
  }

  /** The most significant byte comes first. */
  lemma PutUint64Bytes(n: uint64, i: nat)
    requires i < 8
    ensures PutUint64(n)[i] == ByteOf(n, i)
  {
    BigEndianByte(n, 8, i);
  }

  /** The two conversions are inverse to each other, in both directions. */
  lemma Uint64RoundTrip(n: uint64, b: seq<byte>)
    requires |b| == 8
    ensures Uint64(PutUint64(n)) == n
    ensures PutUint64(Uint64(b)) == b
  {
    Pow256Of8();
    DecodeEncode(n, 8);
    EncodeDecode(b);
  }
}
