/**
 * Byte-level helpers the protocol layer relies on: the little-endian conversion between an
 * unsigned value and its bytes (the driver's writeValueToBytes / bytesAsValue), and the
 * fixed-width C integer arithmetic of the source (uint16_t, uint32_t and uint64_t wrap-around).
 */
module Bytes {

  type byte = x: int | 0 <= x < 0x100
  type uint16 = x: int | 0 <= x < 0x1_0000
  type pos = x: int | 0 < x witness 1

  const UINT32_MODULUS: pos := 0x1_0000_0000
  const UINT64_MODULUS: pos := 0x1_0000_0000_0000_0000

  /** 256 to the power n: the number of distinct values n bytes can hold. */
  function Pow256(n: nat): pos
  {
    if n == 0 then 1 else 256 * Pow256(n - 1)
  }

  /** writeValueToBytes(buffer, value, n): the n low-order bytes of value, least significant first. */
  function WriteValueToBytes(value: nat, n: nat): (r: seq<byte>)
    ensures |r| == n
  {
    if n == 0 then [] else [value % 256] + WriteValueToBytes(value / 256, n - 1)
  }

  /** bytesAsValue(buffer, n): the unsigned value of n little-endian bytes. */
  function BytesAsValue(s: seq<byte>): (v: nat)
    ensures v < Pow256(|s|)
  {
    if s == [] then 0 else s[0] + 256 * BytesAsValue(s[1..])
  }

  /** The C cast (uint32_t) v of a non-negative value. */
  function ToUint32(v: nat): (r: nat)
    ensures r < UINT32_MODULUS
    ensures v < UINT32_MODULUS ==> r == v
  {
    v % UINT32_MODULUS
  }

  /** uint64_t addition, which wraps modulo 2^64. */
  function AddUint64(a: nat, b: nat): (r: nat)
    ensures r < UINT64_MODULUS
    ensures a + b < UINT64_MODULUS ==> r == a + b
  {
    (a + b) % UINT64_MODULUS
  }

  lemma Pow256Widths()
    ensures Pow256(2) == 0x1_0000
    ensures Pow256(4) == UINT32_MODULUS
    ensures Pow256(8) == UINT64_MODULUS
  {
    assert Pow256(2) == 0x1_0000;
    assert Pow256(4) == 0x1_0000_0000;
  }

  /** Writing a value into n bytes and reading them back yields the value modulo 256^n. */
  lemma {:induction false} ValueRoundTrip(value: nat, n: nat)
    ensures BytesAsValue(WriteValueToBytes(value, n)) == value % Pow256(n)
  {
    if n > 0 {
      ValueRoundTrip(value / 256, n - 1);
      var b := WriteValueToBytes(value, n);
      assert b[1..] == WriteValueToBytes(value / 256, n - 1);
      SplitLowByte(value, Pow256(n - 1));
    }
  }

  /** A 16-bit value survives the two-byte encoding. */
  lemma Uint16RoundTrip(v: uint16)
    ensures BytesAsValue(WriteValueToBytes(v, 2)) == v
  {
    Pow256Widths();
    ValueRoundTrip(v, 2);
  }

  /** Reading bytes as a value and writing the value back reproduces the bytes. */
  lemma {:induction false} BytesRoundTrip(s: seq<byte>)
    ensures WriteValueToBytes(BytesAsValue(s), |s|) == s
  {
    if s != [] {
      var rest := BytesAsValue(s[1..]);
      var v := s[0] + 256 * rest;
      ModUnique(v, 256, rest, s[0]);
      DivUnique(v, 256, rest, s[0]);
      BytesRoundTrip(s[1..]);
      assert WriteValueToBytes(v, |s|) == [s[0]] + WriteValueToBytes(rest, |s| - 1);
    }
  }

  /** Values that agree modulo 256^n have the same n-byte encoding. */
  lemma {:induction false} WriteModulo(value: nat, n: nat, m: nat)
    requires n <= m
    ensures WriteValueToBytes(value % Pow256(m), n) == WriteValueToBytes(value, n)
  {
    var lhs := WriteValueToBytes(value % Pow256(m), n);
    calc {
      lhs;
      { BytesRoundTrip(lhs); }
      WriteValueToBytes(BytesAsValue(lhs), n);
      { ValueRoundTrip(value % Pow256(m), n); }
      WriteValueToBytes(value % Pow256(m) % Pow256(n), n);
      { ModOfPow256(value, m, n); }
      WriteValueToBytes(value % Pow256(n), n);
      { ValueRoundTrip(value, n); }
      WriteValueToBytes(BytesAsValue(WriteValueToBytes(value, n)), n);
      { BytesRoundTrip(WriteValueToBytes(value, n)); }
      WriteValueToBytes(value, n);
    }
  }

  /** The (uint32_t) cast before a four-byte write changes none of the bytes written. */
  lemma CastKeepsFourBytes(v: nat)
    ensures WriteValueToBytes(ToUint32(v), 4) == WriteValueToBytes(v, 4)
  {
    Pow256Widths();
    WriteModulo(v, 4, 4);
  }

  /** Reducing modulo 256^m and then modulo a smaller power 256^n is reducing modulo 256^n. */
  lemma ModOfPow256(x: nat, m: nat, n: nat)
    requires n <= m
    ensures x % Pow256(m) % Pow256(n) == x % Pow256(n)
  {
    var k := Pow256Divides(n, m);
    ModOfMultiple(x, Pow256(n), k);
  }

  lemma ModOfMultiple(x: nat, small: pos, k: nat)
    requires small * k > 0
    ensures x % (small * k) % small == x % small
  {
    var big: pos := small * k;
    var q, r := x / big, x % big;
    var q2, r2 := r / small, r % small;
    assert x == big * q + r;
    assert r == small * q2 + r2;
    assert big * q == small * (k * q);
    assert x == small * (k * q + q2) + r2;
    ModUnique(x, small, k * q + q2, r2);
  }

  lemma {:induction false} Pow256Divides(n: nat, m: nat) returns (k: nat)
    requires n <= m
    ensures Pow256(m) == Pow256(n) * k
  {
    if n == m {
      k := 1;
    } else {
      var k' := Pow256Divides(n, m - 1);
      k := 256 * k';
    }
  }

  lemma SplitLowByte(v: nat, p: pos)
    ensures v % 256 + 256 * ((v / 256) % p) == v % (256 * p)
  {
    var q, r := v / 256, v % 256;
    var q2, r2 := q / p, q % p;
    assert q == p * q2 + r2;
    assert v == 256 * q + r;
    assert 256 * q == (256 * p) * q2 + 256 * r2;
    assert 256 * r2 <= 256 * (p - 1);
    ModUnique(v, 256 * p, q2, 256 * r2 + r);
  }

  lemma ModUnique(v: int, d: pos, q: int, r: int)
    requires 0 <= r < d && v == d * q + r
    ensures v % d == r
  {
    var q', r' := v / d, v % d;
    assert d * q' + r' == d * q + r;
    assert d * (q' - q) == r - r';
    if q' != q {
      MulAwayFromZero(d, q' - q);
    }
  }

  lemma DivUnique(v: int, d: pos, q: int, r: int)
    requires 0 <= r < d && v == d * q + r
    ensures v / d == q
  {
    ModUnique(v, d, q, r);
    assert d * (v / d) == d * q;
  }

  lemma MulAwayFromZero(d: pos, k: int)
    requires k != 0
    ensures d * k >= d || d * k <= 0 - d
  {
    if k > 0 {
      assert d * k == d * (k - 1) + d;
      MulNonNegative(d, k - 1);
    } else {
      assert d * k == d * (k + 1) - d;
      MulNonNegative(d, -(k + 1));
      assert d * (k + 1) == -(d * (-(k + 1)));
    }
  }

  lemma MulNonNegative(d: pos, k: nat)
    ensures d * k >= 0
  {}
}
