/**
 Big-endian integers and length-prefixed fields. Each `Put` function is an encoding
 followed by a tail; the lemmas recover the value and the tail from the bytes.
 */
module ByteCodec {
  import opened Wrappers

  type Byte = n: nat | n < 256
  type Bytes = seq<Byte>

  /** A field whose length fits the 32-bit prefix. */
  type Field = s: Bytes | |s| <= U32_MAX

  function BigEndian(n: nat, width: nat): (s: Bytes)
    ensures |s| == width
    decreases width
  {
    if width == 0 then [] else BigEndian(n / 256, width - 1) + [n % 256]
  }

  function FromBigEndian(s: Bytes): nat {
    if s == [] then 0 else 256 * FromBigEndian(s[..|s| - 1]) + s[|s| - 1]
  }

  function Pow256(width: nat): (p: nat)
    ensures p > 0
  {
    if width == 0 then 1 else 256 * Pow256(width - 1)
  }

  lemma {:induction false} BigEndianRoundTrip(n: nat, width: nat)
    requires n < Pow256(width)
    ensures FromBigEndian(BigEndian(n, width)) == n
    decreases width
  {
    if width > 0 {
      BigEndianRoundTrip(n / 256, width - 1);
      assert BigEndian(n, width)[..width - 1] == BigEndian(n / 256, width - 1);
    }
  }

  lemma {:induction false} FromBigEndianRoundTrip(s: Bytes)
    ensures FromBigEndian(s) < Pow256(|s|)
    ensures BigEndian(FromBigEndian(s), |s|) == s
  {
    if s != [] {
      FromBigEndianRoundTrip(s[..|s| - 1]);
      var high, low := FromBigEndian(s[..|s| - 1]), s[|s| - 1];
      assert (256 * high + low) / 256 == high && (256 * high + low) % 256 == low;
    }
  }

  /** Byte `i` is the digit of weight 256 to the power of the bytes after it: most significant first. */
  lemma {:induction false} BigEndianDigits(n: nat, width: nat, i: nat)
    requires i < width
    ensures BigEndian(n, width)[i] == n / Pow256(width - 1 - i) % 256
    decreases width
  {
    if i < width - 1 {
      BigEndianDigits(n / 256, width - 1, i);
      var p := Pow256(width - 2 - i);
      assert Pow256(width - 1 - i) == 256 * p;
      DivideTwice(n, p);
      hide Pow256;
    }
  }

  lemma DivideTwice(n: nat, p: nat)
    requires p > 0
    ensures 256 * p > 0 && n / 256 / p == n / (256 * p)
  {
    var q, r := n / 256, n % 256;
    var a, b := q / p, q % p;
    assert n == 256 * (a * p + b) + r == a * (256 * p) + (256 * b + r);
    assert 256 * b + r < 256 * p;
    QuotientIs(n, 256 * p, a, 256 * b + r);
  }

  lemma QuotientIs(n: nat, d: nat, q: nat, r: nat)
    requires d > 0 && r < d && n == q * d + r
    ensures n / d == q
  {
    var k, rest := n / d, n % d;
    assert k * d + rest == q * d + r;
    if k > q {
      ProductGrows(q, k, d);
    } else if k < q {
      ProductGrows(k, q, d);
    }
  }

  lemma {:induction false} ProductGrows(a: nat, b: nat, d: nat)
    requires a < b
    ensures b * d >= a * d + d
    decreases b
  {
    assert b * d == (b - 1) * d + d;
    if a < b - 1 {
      ProductGrows(a, b - 1, d);
    }
  }

  lemma Widths()
    ensures Pow256(2) == U16_MAX + 1 && Pow256(4) == U32_MAX + 1 && Pow256(8) == U64_MAX + 1
  {
    assert Pow256(1) == 256 && Pow256(2) == 65536 && Pow256(3) == 16777216;
    assert Pow256(4) == 4294967296 && Pow256(6) == 65536 * Pow256(4) && Pow256(8) == 65536 * Pow256(6);
  }

  /** Equal concatenations of equally long heads split equally. */
  lemma SameHead(a: Bytes, r: Bytes, b: Bytes, s: Bytes)
    requires |a| == |b| && a + r == b + s
    ensures a == b && r == s
  {
    assert a == (a + r)[..|a|] && b == (b + s)[..|b|];
    assert r == (a + r)[|a|..] && s == (b + s)[|b|..];
  }

  function PutByte(b: Byte, tail: Bytes): Bytes {
    [b] + tail
  }

  function PutU16(n: U16, tail: Bytes): Bytes {
    BigEndian(n, 2) + tail
  }

  function PutU32(n: U32, tail: Bytes): Bytes {
    BigEndian(n, 4) + tail
  }

  function PutU64(n: U64, tail: Bytes): Bytes {
    BigEndian(n, 8) + tail
  }

  /** A length-prefixed field. */
  function PutField(f: Field, tail: Bytes): Bytes {
    PutU32(|f|, f + tail)
  }

  lemma ByteUnique(a: Byte, r: Bytes, b: Byte, s: Bytes)
    requires PutByte(a, r) == PutByte(b, s)
    ensures a == b && r == s
  {
    SameHead([a], r, [b], s);
    assert [a][0] == [b][0];
  }

  lemma FixedUnique(a: nat, r: Bytes, b: nat, s: Bytes, width: nat)
    requires a < Pow256(width) && b < Pow256(width) && BigEndian(a, width) + r == BigEndian(b, width) + s
    ensures a == b && r == s
  {
    SameHead(BigEndian(a, width), r, BigEndian(b, width), s);
    BigEndianRoundTrip(a, width);
    BigEndianRoundTrip(b, width);
  }

  lemma U16Unique(a: U16, r: Bytes, b: U16, s: Bytes)
    requires PutU16(a, r) == PutU16(b, s)
    ensures a == b && r == s
  {
    Widths();
    FixedUnique(a, r, b, s, 2);
  }

  lemma U32Unique(a: U32, r: Bytes, b: U32, s: Bytes)
    requires PutU32(a, r) == PutU32(b, s)
    ensures a == b && r == s
  {
    Widths();
    FixedUnique(a, r, b, s, 4);
  }

  lemma U64Unique(a: U64, r: Bytes, b: U64, s: Bytes)
    requires PutU64(a, r) == PutU64(b, s)
    ensures a == b && r == s
  {
    Widths();
    FixedUnique(a, r, b, s, 8);
  }

  /** A length-prefixed field determines both itself and what follows. */
  lemma FieldUnique(a: Field, r: Bytes, b: Field, s: Bytes)
    requires PutField(a, r) == PutField(b, s)
    ensures a == b && r == s
  {
    U32Unique(|a|, a + r, |b|, b + s);
    SameHead(a, r, b, s);
  }
}
