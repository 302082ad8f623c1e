/** The bit-interleaved base-4 key of a tile (`_toQuad`). */
module Quadkey {

  function Pow2(i: nat): (r: nat)
    ensures r >= 1
  {
    if i == 0 then 1 else 2 * Pow2(i - 1)
  }

  /** Bit `i` of `n`, the test `(n & (1 << i)) !== 0` on naturals. */
  function Bit(n: nat, i: nat): (b: nat)
    ensures b < 2
  {
    (n / Pow2(i)) % 2
  }

  predicate IsQuadDigit(c: char)
  {
    '0' <= c <= '3'
  }

  /** The key digit for bit `i`: the column bit weighs 1 and the row bit weighs 2. */
  function QuadDigit(x: nat, y: nat, i: nat): (c: char)
    ensures IsQuadDigit(c)
  {
    ('0' as int + Bit(x, i) + 2 * Bit(y, i)) as char
  }

  /** One digit per bit from bit `z` down to bit 0, most significant first. */
  function ToQuad(x: nat, y: nat, z: nat): (q: string)
    ensures |q| == z + 1
    ensures forall k :: 0 <= k < |q| ==> IsQuadDigit(q[k])
    ensures forall k :: 0 <= k < |q| ==> q[k] == QuadDigit(x, y, z - k)
  {
    if z == 0 then [QuadDigit(x, y, 0)] else [QuadDigit(x, y, z)] + ToQuad(x, y, z - 1)
  }

  predicate IsQuadKey(q: string)
  {
    forall k :: 0 <= k < |q| ==> IsQuadDigit(q[k])
  }

  function DigitValue(c: char): (d: nat)
    requires IsQuadDigit(c)
    ensures d < 4
  {
    c as int - '0' as int
  }

  /** The column a key encodes: the low bit of each digit, the first digit most significant. */
  function DecodeColumn(q: string): (n: nat)
    requires IsQuadKey(q)
    ensures n < Pow2(|q|)
  {
    if |q| == 0 then 0 else DigitValue(q[0]) % 2 * Pow2(|q| - 1) + DecodeColumn(q[1..])
  }

  /** The row a key encodes: the high bit of each digit, the first digit most significant. */
  function DecodeRow(q: string): (n: nat)
    requires IsQuadKey(q)
    ensures n < Pow2(|q|)
  {
    if |q| == 0 then 0 else DigitValue(q[0]) / 2 * Pow2(|q| - 1) + DecodeRow(q[1..])
  }

  /** A leading '0' adds nothing to the decoded column and row. */
  lemma DecodeLeadingZero(q: string)
    requires IsQuadKey(q)
    ensures IsQuadKey("0" + q)
    ensures DecodeColumn("0" + q) == DecodeColumn(q) && DecodeRow("0" + q) == DecodeRow(q)
  {
    assert ("0" + q)[1..] == q;
  }

  /** Splitting off bit `z`: the low `z + 1` bits are bit `z` followed by the low `z` bits. */
  lemma ModPow2Split(n: nat, z: nat)
    ensures n % Pow2(z + 1) == Bit(n, z) * Pow2(z) + n % Pow2(z)
  {
    var p := Pow2(z);
    var a := n / p;
    var b := n % p;
    var c := a / 2;
    var e := a % 2;
    assert n == a * p + b;
    assert a == 2 * c + e;
    assert n == c * (2 * p) + (e * p + b) by {
      assert a * p == (2 * c + e) * p;
      assert (2 * c + e) * p == c * (2 * p) + e * p;
    }
    DivModUnique(n, 2 * p, c, e * p + b);
  }

  lemma DivModUnique(n: int, m: int, q: int, r: int)
    requires m > 0 && 0 <= r < m && n == q * m + r
    ensures n % m == r && n / m == q
  {
    var q', r' := n / m, n % m;
    assert n == q' * m + r';
    assert (q - q') * m == r' - r;
    if q > q' {
      MulAtLeast(q - q', m);
    } else if q < q' {
      MulAtLeast(q' - q, m);
    }
  }

  lemma MulAtLeast(k: int, m: int)
    requires k >= 1 && m > 0
    ensures k * m >= m
  {
    assert k * m == (k - 1) * m + m;
  }

  /** Decoding the key of `(x, y)` at zoom `z` recovers the low `z + 1` bits of both. */
  lemma {:induction false} DecodeToQuad(x: nat, y: nat, z: nat)
    ensures IsQuadKey(ToQuad(x, y, z))
    ensures DecodeColumn(ToQuad(x, y, z)) == x % Pow2(z + 1)
    ensures DecodeRow(ToQuad(x, y, z)) == y % Pow2(z + 1)
  {
    var c := QuadDigit(x, y, z);
    var rest := if z == 0 then "" else ToQuad(x, y, z - 1);
    assert ToQuad(x, y, z) == [c] + rest;
    if z == 0 {
      assert x % Pow2(0) == 0 && y % Pow2(0) == 0;
    } else {
      DecodeToQuad(x, y, z - 1);
    }
    DecodeCons(c, rest);
    DigitBits(x, y, z);
    ModPow2Split(x, z);
    ModPow2Split(y, z);
  }

  /** Decoding a key one digit longer adds that digit's bits at the top. */
  lemma DecodeCons(c: char, rest: string)
    requires IsQuadDigit(c) && IsQuadKey(rest)
    ensures IsQuadKey([c] + rest)
    ensures DecodeColumn([c] + rest) == DigitValue(c) % 2 * Pow2(|rest|) + DecodeColumn(rest)
    ensures DecodeRow([c] + rest) == DigitValue(c) / 2 * Pow2(|rest|) + DecodeRow(rest)
  {
    assert ([c] + rest)[1..] == rest;
  }

  /** The column bit and the row bit are read back from a key digit. */
  lemma DigitBits(x: nat, y: nat, i: nat)
    ensures DigitValue(QuadDigit(x, y, i)) % 2 == Bit(x, i)
    ensures DigitValue(QuadDigit(x, y, i)) / 2 == Bit(y, i)
  {
  }

  /** Within `[0, 2^(z+1))` on both axes, distinct tiles get distinct keys. */
  lemma ToQuadInjective(x1: nat, y1: nat, x2: nat, y2: nat, z: nat)
    requires x1 < Pow2(z + 1) && y1 < Pow2(z + 1) && x2 < Pow2(z + 1) && y2 < Pow2(z + 1)
    ensures ToQuad(x1, y1, z) == ToQuad(x2, y2, z) ==> x1 == x2 && y1 == y2
  {
    DecodeToQuad(x1, y1, z);
    DecodeToQuad(x2, y2, z);
    DivModUnique(x1, Pow2(z + 1), 0, x1);
    DivModUnique(y1, Pow2(z + 1), 0, y1);
    DivModUnique(x2, Pow2(z + 1), 0, x2);
    DivModUnique(y2, Pow2(z + 1), 0, y2);
  }

  /** For coordinates below `2^(z+1)`, the leading digit is '0' exactly when both lie below `2^z`. */
  lemma LeadingDigitZero(x: nat, y: nat, z: nat)
    requires x < Pow2(z + 1) && y < Pow2(z + 1)
    ensures ToQuad(x, y, z)[0] == '0' <==> x < Pow2(z) && y < Pow2(z)
  {
    TopBit(x, z);
    TopBit(y, z);
  }

  lemma TopBit(n: nat, z: nat)
    requires n < Pow2(z + 1)
    ensures Bit(n, z) == 0 <==> n < Pow2(z)
  {
    var p := Pow2(z);
    if n < p {
      DivModUnique(n, p, 0, n);
    } else {
      DivModUnique(n, p, 1, n - p);
    }
  }

  /** Column 2 of a three-column level at zoom 1 has leading digit '1', not '0'. */
  lemma WideLevelKey()
    ensures ToQuad(2, 0, 1) == "10"
  {
    assert Bit(2, 1) == 1 && Bit(2, 0) == 0 && Bit(0, 1) == 0 && Bit(0, 0) == 0;
  }
}
