/** Fixed-width bit sets as natural numbers: shifts truncate to the width, exclusive-or works
    bit by bit. On top of them the two conversions of serial_helpers.hpp, for any byte count. */
module Bits {

  type byte = x: int | 0 <= x < 256

  function Pow2(n: nat): (p: nat)
    ensures p > 0
  {
    if n == 0 then 1 else 2 * Pow2(n - 1)
  }

  /** x * 2^k by doubling. */
  function Doubled(x: nat, k: nat): nat {
    if k == 0 then x else 2 * Doubled(x, k - 1)
  }

  /** The low `k` bits. */
  function Low(x: nat, k: nat): (y: nat)
    ensures y < Pow2(k)
  {
    if k == 0 then 0 else x % 2 + 2 * Low(x / 2, k - 1)
  }

  /** `bitset<width>::operator<<`. */
  function Shl(x: nat, n: nat, width: nat): (y: nat)
    ensures y < Pow2(width)
  {
    Low(Doubled(x, n), width)
  }

  /** `bitset::operator>>`. */
  function Shr(x: nat, n: nat): (y: nat)
    ensures y <= x
  {
    if n == 0 then x else Shr(x / 2, n - 1)
  }

  /** `bitset::operator^`. */
  function Xor(x: nat, y: nat): nat
    decreases x + y
  {
    if x == 0 && y == 0 then 0
    else (if x % 2 != y % 2 then 1 else 0) + 2 * Xor(x / 2, y / 2)
  }

  lemma {:induction false} XorZero(x: nat)
    ensures Xor(x, 0) == x && Xor(0, x) == x
  {
    if x != 0 {
      XorZero(x / 2);
    }
  }

  lemma XorHalve(x: nat, y: nat)
    ensures Xor(x, y) == (if x % 2 != y % 2 then 1 else 0) + 2 * Xor(x / 2, y / 2)
  {
  }

  lemma XorFromHalves(a: nat, b: nat, y: nat, v: nat, high: nat)
    requires a % 2 == y % 2 && b % 2 == v % 2
    requires Xor(a / 2, b / 2) == high + Xor(y / 2, v / 2)
    ensures Xor(a, b) == 2 * high + Xor(y, v)
  {
    XorHalve(a, b);
    XorHalve(y, v);
  }

  lemma {:induction false} DoubledIsProduct(x: nat, k: nat)
    ensures Doubled(x, k) == x * Pow2(k)
  {
    if k > 0 {
      DoubledIsProduct(x, k - 1);
      var p := Pow2(k - 1);
      assert x * (2 * p) == 2 * (x * p);
    }
  }

  lemma Halves(a: nat, y: nat)
    ensures (2 * a + y) / 2 == a + y / 2 && (2 * a + y) % 2 == y % 2
  {
  }

  lemma {:induction false} XorSplitDoubled(x: nat, u: nat, y: nat, v: nat, k: nat)
    requires y < Pow2(k) && v < Pow2(k)
    ensures Xor(y, v) < Pow2(k)
    ensures Xor(Doubled(x, k) + y, Doubled(u, k) + v) == Doubled(Xor(x, u), k) + Xor(y, v)
    decreases k
  {
    if k > 0 {
      var a, b := Doubled(x, k - 1), Doubled(u, k - 1);
      XorSplitDoubled(x, u, y / 2, v / 2, k - 1);
      Halves(a, y);
      Halves(b, v);
      XorFromHalves(2 * a + y, 2 * b + v, y, v, Doubled(Xor(x, u), k - 1));
      XorHalve(y, v);
    }
  }

  /** Exclusive-or treats the bits above and below any position separately. */
  lemma XorSplit(x: nat, u: nat, y: nat, v: nat, k: nat)
    requires y < Pow2(k) && v < Pow2(k)
    ensures Xor(y, v) < Pow2(k)
    ensures Xor(x * Pow2(k) + y, u * Pow2(k) + v) == Xor(x, u) * Pow2(k) + Xor(y, v)
  {
    XorSplitDoubled(x, u, y, v, k);
    DoubledIsProduct(x, k);
    DoubledIsProduct(u, k);
    DoubledIsProduct(Xor(x, u), k);
  }

  lemma XorFits(x: nat, y: nat, k: nat)
    requires x < Pow2(k) && y < Pow2(k)
    ensures Xor(x, y) < Pow2(k)
  {
    XorSplitDoubled(0, 0, x, y, k);
  }

  /** Overlaying a number that is zero below bit `k` with one that fits below bit `k` adds them. */
  lemma XorDisjoint(x: nat, v: nat, k: nat)
    requires v < Pow2(k)
    ensures Xor(x * Pow2(k), v) == x * Pow2(k) + v
  {
    hide *;
    assert 0 * Pow2(k) + v == v && x * Pow2(k) + 0 == x * Pow2(k);
    XorSplit(x, 0, 0, v, k);
    XorZero(x);
    XorZero(v);
  }

  lemma RemainderByHalves(x: nat, p: nat)
    requires p > 0
    ensures x % (2 * p) == x % 2 + 2 * (x / 2 % p)
  {
    var q, r := x / 2 / p, x / 2 % p;
    MulAssoc(2, p, q);
    QuotientIs(x, 2 * p, q, 2 * r + x % 2);
  }

  lemma {:induction false} LowIsRemainder(x: nat, k: nat)
    ensures Low(x, k) == x % Pow2(k)
  {
    if k > 0 {
      LowIsRemainder(x / 2, k - 1);
      RemainderByHalves(x, Pow2(k - 1));
    }
  }

  lemma {:induction false} ShrIsQuotient(x: nat, n: nat)
    ensures Shr(x, n) == x / Pow2(n)
  {
    if n > 0 {
      ShrIsQuotient(x / 2, n - 1);
      DivDiv(x, 2, Pow2(n - 1));
    }
  }

  lemma ShlIsProduct(x: nat, n: nat, width: nat)
    ensures Shl(x, n, width) == x * Pow2(n) % Pow2(width)
  {
    DoubledIsProduct(x, n);
    LowIsRemainder(Doubled(x, n), width);
  }

  /** The powers of two the codec shifts by. */
  lemma Powers()
    ensures Pow2(0) == 1 && Pow2(2) == 4 && Pow2(4) == 16 && Pow2(6) == 64 && Pow2(8) == 256
    ensures Pow2(12) == 4096 && Pow2(18) == 262144 && Pow2(24) == 16777216
  {
  }

  function Pow256(n: nat): (p: nat)
    ensures p > 0
  {
    if n == 0 then 1 else 256 * Pow256(n - 1)
  }

  lemma {:induction false} Pow256IsPow2(n: nat)
    ensures Pow256(n) == Pow2(8 * n)
  {
    if n > 0 {
      Pow256IsPow2(n - 1);
      Pow2Skips(8 * n - 8);
    }
  }

  lemma Pow2Skips(m: nat)
    ensures Pow2(m + 8) == 256 * Pow2(m)
  {
    assert Pow2(m + 4) == 2 * Pow2(m + 3) && Pow2(m + 3) == 2 * Pow2(m + 2);
    assert Pow2(m + 2) == 2 * Pow2(m + 1) && Pow2(m + 1) == 2 * Pow2(m);
    assert Pow2(m + 8) == 2 * Pow2(m + 7) && Pow2(m + 7) == 2 * Pow2(m + 6);
    assert Pow2(m + 6) == 2 * Pow2(m + 5) && Pow2(m + 5) == 2 * Pow2(m + 4);
  }

  lemma {:induction false} Pow256Adds(m: nat, n: nat)
    ensures Pow256(m) * Pow256(n) == Pow256(m + n)
  {
    if m > 0 {
      Pow256Adds(m - 1, n);
      assert Pow256(m) * Pow256(n) == 256 * (Pow256(m - 1) * Pow256(n));
    }
  }

  /** The number whose big-endian base-256 digits are `s`. */
  function BigEndian(s: seq<byte>): (v: nat)
    ensures v < Pow256(|s|)
  {
    if s == [] then 0 else BigEndian(s[..|s| - 1]) * 256 + s[|s| - 1]
  }

  /** The `n` big-endian base-256 digits of `v`. */
  function Digits(n: nat, v: nat): (s: seq<byte>)
    ensures |s| == n
  {
    if n == 0 then [] else Digits(n - 1, v / 256) + [v % 256]
  }

  lemma {:induction false} DigitsOfBigEndian(s: seq<byte>)
    ensures Digits(|s|, BigEndian(s)) == s
  {
    if s != [] {
      DigitsOfBigEndian(s[..|s| - 1]);
    }
  }

  lemma {:induction false} BigEndianOfDigits(n: nat, v: nat)
    requires v < Pow256(n)
    ensures BigEndian(Digits(n, v)) == v
  {
    if n > 0 {
      BigEndianOfDigits(n - 1, v / 256);
      assert Digits(n, v)[..n - 1] == Digits(n - 1, v / 256);
    }
  }

  lemma {:induction false} DigitAt(n: nat, v: nat, i: nat)
    requires i < n
    ensures Digits(n, v)[i] == v / Pow256(n - 1 - i) % 256
  {
    if i < n - 1 {
      DigitAt(n - 1, v / 256, i);
      DivDiv(v, 256, Pow256(n - 2 - i));
    }
  }

  lemma MulAtLeast(d: nat, k: int)
    requires k >= 1
    ensures d * k >= d
  {
    assert d * k == d * (k - 1) + d;
  }

  lemma QuotientIs(v: int, d: int, q: int, r: int)
    requires d > 0 && v == d * q + r && 0 <= r < d
    ensures v / d == q && v % d == r
  {
    var q', r' := v / d, v % d;
    assert v == d * q' + r';
    assert d * q - d * q' == d * (q - q') == -(d * (q' - q));
    if q > q' {
      MulAtLeast(d, q - q');
    } else if q < q' {
      MulAtLeast(d, q' - q);
    }
  }

  lemma MulAssoc(a: int, b: int, c: int)
    ensures a * (b * c) == (a * b) * c
  {
  }

  lemma MulBelow(a: nat, b: nat, q: nat, r: nat)
    requires q < b && r < a
    ensures a * q + r < a * b
  {
    MulAtLeast(a, b - q);
    assert a * b == a * q + a * (b - q);
  }

  lemma DivDiv(v: nat, a: nat, b: nat)
    requires a > 0 && b > 0
    ensures a * b > 0 && v / a / b == v / (a * b)
  {
    var q, r := v / a, v % a;
    var q', r' := q / b, q % b;
    MulBelow(a, b, r', r);
    calc {
      v;
      a * q + r;
      a * (b * q' + r') + r;
      a * (b * q') + (a * r' + r);
      { MulAssoc(a, b, q'); }
      (a * b) * q' + (a * r' + r);
    }
    QuotientIs(v, a * b, q', a * r' + r);
  }

  /** With v = low * (256 * h + d) + r: multiplying by `top` and truncating drops h. */
  lemma Truncates(low: nat, top: nat, h: nat, d: nat, r: nat)
    requires low > 0 && top > 0 && d < 256 && r < low
    ensures var unit := low * top;
            unit > 0 && r * top >= 0 && (low * (256 * h + d) + r) * top % (256 * unit) / unit == d
  {
    var unit := low * top;
    var rest := unit * d + r * top;
    Distribute(low, top, 256 * h + d, r);
    MulAssoc(unit, 256, h);
    assert unit * (256 * h + d) == unit * (256 * h) + unit * d;
    MulBelow(top, low, r, 0);
    MulBelow(unit, 256, d, r * top);
    QuotientIs((256 * unit) * h + rest, 256 * unit, h, rest);
    QuotientIs(rest, unit, d, r * top);
  }

  lemma Distribute(low: nat, top: nat, q: nat, r: nat)
    ensures (low * q + r) * top == (low * top) * q + r * top
  {
    assert (low * q + r) * top == (low * q) * top + r * top;
    MulAssoc(top, low, q);
  }

  lemma CutOut(low: nat, top: nat, v: nat)
    requires low > 0 && top > 0
    ensures low * top > 0 && v * top % (256 * (low * top)) / (low * top) == v / low % 256
  {
    var q, r := v / low, v % low;
    assert v == low * q + r;
    assert q == 256 * (q / 256) + q % 256;
    Truncates(low, top, q / 256, q % 256, r);
  }

  /** Shifting digit `i` to the top of the set and back down cuts it out. */
  lemma ShiftsCutOut(n: nat, v: nat, i: nat)
    requires i < n && v < Pow256(n)
    ensures Shr(Shl(v, 8 * i, 8 * n), 8 * (n - 1)) == v / Pow256(n - 1 - i) % 256
  {
    Pow256IsPow2(i);
    Pow256IsPow2(n);
    Pow256IsPow2(n - 1);
    ShlIsProduct(v, 8 * i, 8 * n);
    ShrIsQuotient(Shl(v, 8 * i, 8 * n), 8 * (n - 1));
    var low, top := Pow256(n - 1 - i), Pow256(i);
    Pow256Adds(n - 1 - i, i);
    assert Pow256(n) == 256 * (low * top);
    CutOut(low, top, v);
  }

  /** The largest number of `bytes` bytes. */
  method MaxUnsignedInt(bytes: nat) returns (result: nat)
    ensures result + 1 == Pow256(bytes)
  {
    result := 0;
    for i := 0 to bytes
      invariant result + 1 == Pow256(i)
    {
      result := result + 0xFF * Pow256(i);
    }
  }

  /** Writes the bit set `source` of width 8 * dest.Length into `dest`, first byte most significant. */
  method BitsetToBytearray(dest: array<byte>, source: nat)
    requires source < Pow2(8 * dest.Length)
    modifies dest
    ensures dest[..] == Digits(dest.Length, source)
  {
    var n := dest.Length;
    Pow256IsPow2(n);
    for i := 0 to n
      invariant forall k :: 0 <= k < i ==> dest[k] == Digits(n, source)[k]
    {
      ShiftsCutOut(n, source, i);
      DigitAt(n, source, i);
      dest[i] := Shr(Shl(source, i * 8, n * 8), (n - 1) * 8);
    }
  }

  lemma BigEndianStep(s: seq<byte>, i: nat)
    requires i < |s|
    ensures var rest := Pow256(|s| - 1 - i);
            BigEndian(s[..i + 1]) * rest == BigEndian(s[..i]) * Pow256(|s| - i) + s[i] * rest
  {
    assert s[..i + 1][..i] == s[..i];
    var rest := Pow256(|s| - 1 - i);
    assert Pow256(|s| - i) == 256 * rest;
    assert (BigEndian(s[..i]) * 256 + s[i]) * rest == BigEndian(s[..i]) * (256 * rest) + s[i] * rest;
  }

  /** The first i digits of `s` in their places. */
  function Placed(s: seq<byte>, i: nat): nat
    requires i <= |s|
  {
    BigEndian(s[..i]) * Pow256(|s| - i)
  }

  lemma OverlayDigit(s: seq<byte>, i: nat)
    requires i < |s|
    ensures Xor(Placed(s, i), s[i] * Pow256(|s| - 1 - i)) == Placed(s, i + 1)
  {
    var rest := Pow256(|s| - 1 - i);
    BigEndianStep(s, i);
    Pow256IsPow2(|s| - i);
    MulBelow(rest, 256, s[i], 0);
    XorDisjoint(BigEndian(s[..i]), s[i] * rest, 8 * (|s| - i));
  }

  lemma PlacedEnds(s: seq<byte>)
    ensures Placed(s, 0) == 0 && Placed(s, |s|) == BigEndian(s) < Pow2(8 * |s|)
  {
    assert s[..|s|] == s && s[..0] == [];
    Pow256IsPow2(|s|);
  }

  /** Overlays the bytes of `source`, first byte most significant, by exclusive-or. */
  method BytearrayToBitset(source: seq<byte>) returns (dest: nat)
    ensures dest == BigEndian(source)
    ensures dest < Pow2(8 * |source|)
  {
    hide *;
    var n := |source|;
    PlacedEnds(source);
    dest := 0;
    for i := 0 to n
      invariant dest == Placed(source, i)
    {
      var digit := source[i] * Pow256((n - 1) - i);
      OverlayDigit(source, i);
      dest := Xor(dest, digit);
    }
  }
}
