/** Fixed-width little-endian integers, as encoding/binary writes and reads them. */
module Binary {
  type byte = x: int | 0 <= x < 256

  datatype Width = Width(bytes: nat)

  const INT32 := Width(4)
  const INT64 := Width(8)

  function Pow256(k: nat): (p: nat)
    ensures p > 0
  {
    if k == 0 then 1 else 256 * Pow256(k - 1)
  }

  function UnsignedBytes(n: nat, k: nat): (r: seq<byte>)
    ensures |r| == k
  {
    if k == 0 then [] else [n % 256] + UnsignedBytes(n / 256, k - 1)
  }

  function UnsignedValue(s: seq<byte>): nat {
    if s == [] then 0 else s[0] + 256 * UnsignedValue(s[1..])
  }

  /** The values of a signed integer of width `w`. */
  predicate Fits(n: int, w: Width) {
    0 <= 2 * n + Pow256(w.bytes) && 2 * n < Pow256(w.bytes)
  }

  /** Two's complement. */
  function Encode(n: int, w: Width): (r: seq<byte>)
    requires Fits(n, w)
    ensures |r| == w.bytes
  {
    UnsignedBytes(if n < 0 then n + Pow256(w.bytes) else n, w.bytes)
  }

  function Decode(s: seq<byte>): int {
    var u := UnsignedValue(s);
    if 2 * u < Pow256(|s|) then u else u - Pow256(|s|)
  }

  lemma {:induction false} UnsignedRoundTrip(n: nat, k: nat)
    requires n < Pow256(k)
    ensures UnsignedValue(UnsignedBytes(n, k)) == n
  {
    if k > 0 {
      UnsignedRoundTrip(n / 256, k - 1);
      assert UnsignedBytes(n, k)[1..] == UnsignedBytes(n / 256, k - 1);
    }
  }

  lemma {:induction false} UnsignedBound(s: seq<byte>)
    ensures UnsignedValue(s) < Pow256(|s|)
  {
    if s != [] {
      UnsignedBound(s[1..]);
    }
  }

  lemma {:induction false} UnsignedByteAt(n: nat, k: nat, i: nat)
    requires i < k
    ensures UnsignedBytes(n, k)[i] == (n / Pow256(i)) % 256
  {
    if i > 0 {
      UnsignedByteAt(n / 256, k - 1, i - 1);
      DivideTwice(n, Pow256(i - 1));
    }
  }

  lemma {:induction false} ProductGap(d: nat, a: nat, b: nat)
    requires d > 0 && a < b
    ensures d * a + d <= d * b
  {
    assert d * b == d * (b - 1) + d;
    if a < b - 1 {
      ProductGap(d, a, b - 1);
    }
  }

  lemma QuotientUnique(n: nat, d: nat, q: nat, r: nat)
    requires d > 0 && n == d * q + r && r < d
    ensures n / d == q
  {
    var q' := n / d;
    assert n == d * q' + n % d;
    if q < q' {
      ProductGap(d, q, q');
    } else if q' < q {
      ProductGap(d, q', q);
    }
  }

  lemma Associate(b: nat, c: nat)
    ensures 256 * (b * c) == (256 * b) * c
  {
  }

  lemma DivideTwice(n: nat, b: nat)
    requires b > 0
    ensures n / 256 / b == n / (256 * b)
  {
    var q := n / 256;
    var once, rest := q / b, q % b;
    assert q == b * once + rest;
    Associate(b, once);
    QuotientUnique(n, 256 * b, once, 256 * rest + n % 256);
  }

  /** The least significant byte comes first, and negative numbers are complements:
      byte `i` of a number is its digit for 256 to the power `i`. */
  lemma LowByteFirst(n: int, w: Width, i: nat)
    requires Fits(n, w) && i < w.bytes
    ensures Encode(n, w)[i] == ((if n < 0 then n + Pow256(w.bytes) else n) / Pow256(i)) % 256
    ensures Encode(n, w)[0] == n % 256
  {
    UnsignedByteAt(if n < 0 then n + Pow256(w.bytes) else n, w.bytes, i);
    LowByte(n, Pow256(w.bytes - 1));
  }

  lemma LowByte(n: int, m: nat)
    ensures (n + 256 * m) % 256 == n % 256
  {
  }

  /** Whatever is read is in range. */
  lemma DecodeFits(s: seq<byte>)
    ensures Fits(Decode(s), Width(|s|))
  {
    UnsignedBound(s);
  }

  lemma RoundTrip(n: int, w: Width)
    requires Fits(n, w)
    ensures Decode(Encode(n, w)) == n
  {
    UnsignedRoundTrip(if n < 0 then n + Pow256(w.bytes) else n, w.bytes);
  }

  lemma SmallFits(n: int, w: Width)
    requires w.bytes > 0 && -128 <= n < 128
    ensures Fits(n, w)
  {
  }

  /** The bounds are the usual ones. */
  lemma FitsInt64(n: int)
    ensures Fits(n, INT64) <==> -0x8000_0000_0000_0000 <= n < 0x8000_0000_0000_0000
    ensures Fits(n, INT32) <==> -0x8000_0000 <= n < 0x8000_0000
  {
    assert Pow256(4) == 0x1_0000_0000;
    assert Pow256(8) == 256 * (256 * (256 * (256 * Pow256(4))));
  }
}
