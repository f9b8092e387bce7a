/** 32-bit words as the native filters see them, and the packed ARGB pixels stored in them. */
module Pixels {

  /** A signed 32-bit word (`jint`). */
  type jint = x: int | -0x8000_0000 <= x <= 0x7fff_ffff

  type byte = x: int | 0 <= x <= 0xff

  datatype Chan = A | R | G | B

  /** Two's-complement truncation to 32 bits. */
  function Wrap(x: int): (w: jint)
    ensures -0x8000_0000 <= x <= 0x7fff_ffff ==> w == x
  {
    var m := x % 0x1_0000_0000;
    if m < 0x8000_0000 then m else m - 0x1_0000_0000
  }

  /** 32-bit multiplication. */
  function Mul(x: jint, y: jint): jint {
    Wrap(x * y)
  }

  /** `(p >> shift) & 0xff`; the shift is arithmetic, hence a floor division. */
  function Byte(p: jint, c: Chan): byte {
    match c
    case A => p / 0x100_0000 % 0x100
    case R => p / 0x1_0000 % 0x100
    case G => p / 0x100 % 0x100
    case B => p % 0x100
  }

  /** The number with the given digits to base 256, most significant first. */
  function Base256(digits: seq<int>): int {
    if digits == [] then 0 else Base256(digits[..|digits| - 1]) * 0x100 + digits[|digits| - 1]
  }

  /** `(a << 24) + (r << 16) + (g << 8) + b` in 32-bit arithmetic. */
  function Pack(a: int, r: int, g: int, b: int): jint {
    Wrap(Base256([a, r, g, b]))
  }

  lemma PackIsSum(a: int, r: int, g: int, b: int)
    ensures Pack(a, r, g, b) == Wrap(a * 0x100_0000 + r * 0x1_0000 + g * 0x100 + b)
  {
    var high, digits := [a, r], [a, r, g, b];
    assert high[..1] == [a] && Base256([a]) == a;
    assert Base256(high) == a * 0x100 + r;
    assert digits[..3] == [a, r, g] && [a, r, g][..2] == high;
    assert Base256([a, r, g]) == Base256(high) * 0x100 + g;
  }

  function Select<T>(c: Chan, a: T, r: T, g: T, b: T): T {
    match c
    case A => a
    case R => r
    case G => g
    case B => b
  }

  lemma MulLe(a: int, b: int, k: int)
    requires a <= b && 0 <= k
    ensures a * k <= b * k
  {
  }

  lemma Digits(x: int, n: int, q: int, d: int)
    requires n > 0 && x == q * n + d && 0 <= d < n
    ensures x / n == q && x % n == d
  {
    assert x == x / n * n + x % n;
    assert (q - x / n) * n == x % n - d;
    var e := q - x / n;
    assert e >= 1 ==> e * n >= n;
    assert e <= -1 ==> e * n <= -n;
  }

  /** The packed word, its top byte taken as signed. */
  lemma PackValue(a: byte, r: byte, g: byte, b: byte)
    ensures Pack(a, r, g, b) == (if a < 0x80 then a else a - 0x100) * 0x100_0000 + r * 0x1_0000 + g * 0x100 + b
  {
    PackIsSum(a, r, g, b);
  }

  /** Packing four bytes never carries from one into the next: unpacking returns them. */
  lemma UnpackPack(a: byte, r: byte, g: byte, b: byte, c: Chan)
    ensures Byte(Pack(a, r, g, b), c) == Select(c, a, r, g, b)
  {
    PackValue(a, r, g, b);
    UnpackWord(Pack(a, r, g, b), if a < 0x80 then a else a - 0x100, a, r, g, b, c);
  }

  lemma UnpackWord(p: jint, high: int, a: byte, r: byte, g: byte, b: byte, c: Chan)
    requires p == high * 0x100_0000 + r * 0x1_0000 + g * 0x100 + b && (high == a || high == a - 0x100)
    ensures Byte(p, c) == Select(c, a, r, g, b)
  {
    match c
    case A =>
      Digits(p, 0x100_0000, high, r * 0x1_0000 + g * 0x100 + b);
      Digits(high, 0x100, if high == a then 0 else -1, a);
    case R =>
      Digits(p, 0x1_0000, high * 0x100 + r, g * 0x100 + b);
      Digits(high * 0x100 + r, 0x100, high, r);
    case G =>
      Digits(p, 0x100, high * 0x1_0000 + r * 0x100 + g, b);
      Digits(high * 0x1_0000 + r * 0x100 + g, 0x100, high * 0x100 + r, g);
    case B =>
      Digits(p, 0x100, high * 0x1_0000 + r * 0x100 + g, b);
  }

  /** Packing the four bytes of a pixel returns the pixel. */
  lemma PackUnpack(p: jint)
    ensures Pack(Byte(p, A), Byte(p, R), Byte(p, G), Byte(p, B)) == p
  {
    var q3 := p / 0x100;
    var q2 := q3 / 0x100;
    var q1 := q2 / 0x100;
    Digits(p, 0x1_0000, q2, q3 % 0x100 * 0x100 + p % 0x100);
    Digits(p, 0x100_0000, q1, q2 % 0x100 * 0x1_0000 + q3 % 0x100 * 0x100 + p % 0x100);
    Digits(q1, 0x100, if p < 0 then -1 else 0, if p < 0 then q1 + 0x100 else q1);
    PackIsSum(Byte(p, A), Byte(p, R), Byte(p, G), Byte(p, B));
  }

  /** A pixel in premultiplied form: no colour channel exceeds alpha. */
  predicate Premultiplied(p: jint) {
    forall c: Chan :: Byte(p, c) <= Byte(p, A)
  }

  /** The C cast of a floating-point value to an integer: rounding toward zero. */
  function Trunc(x: real): (t: int)
    ensures x >= 0.0 ==> t as real <= x < t as real + 1.0
    ensures x <= 0.0 ==> t as real - 1.0 < x <= t as real
  {
    if x >= 0.0 then x.Floor else -((-x).Floor)
  }

  lemma TruncBetween(x: real, lo: int, hi: int)
    requires lo as real <= x <= hi as real
    ensures lo <= Trunc(x) <= hi
  {
  }

  lemma TruncMonotone(x: real, y: real)
    requires x <= y
    ensures Trunc(x) <= Trunc(y)
  {
  }

  /** Bitwise or of two non-negative words. */
  function Or(x: nat, y: nat): nat {
    if x == 0 then y
    else if y == 0 then x
    else 2 * Or(x / 2, y / 2) + (if x % 2 == 1 || y % 2 == 1 then 1 else 0)
  }

  function Pow2(k: nat): (r: nat)
    ensures r > 0
  {
    if k == 0 then 1 else 2 * Pow2(k - 1)
  }

  lemma OrDouble(u: nat, y: nat)
    ensures Or(2 * u, y) == 2 * Or(u, y / 2) + y % 2
  {
  }

  /** x shifted left by k. */
  function Shl(x: nat, k: nat): nat {
    if k == 0 then x else 2 * Shl(x, k - 1)
  }

  /** A word shifted left by k and a word below 2^k have no bit in common. */
  lemma {:induction false} OrDisjoint(x: nat, y: nat, k: nat)
    requires y < Pow2(k)
    ensures Or(Shl(x, k), y) == Shl(x, k) + y
  {
    if k > 0 {
      OrDisjoint(x, y / 2, k - 1);
      OrDouble(Shl(x, k - 1), y);
    }
  }

  lemma ShlBytes(x: nat)
    ensures Shl(x, 8) == 0x100 * x && Shl(x, 16) == 0x1_0000 * x && Shl(x, 24) == 0x100_0000 * x
  {
    ShlNibble(x, 0);
    ShlNibble(x, 4);
    ShlNibble(x, 8);
    ShlNibble(x, 12);
    ShlNibble(x, 16);
    ShlNibble(x, 20);
  }

  lemma ShlNibble(x: nat, k: nat)
    ensures Shl(x, k + 4) == 0x10 * Shl(x, k)
  {
    assert Shl(x, k + 2) == 4 * Shl(x, k);
  }

  lemma Pow2Bytes()
    ensures Pow2(8) == 0x100 && Pow2(16) == 0x1_0000 && Pow2(24) == 0x100_0000
  {
    assert Pow2(4) == 0x10;
    assert Pow2(12) == 0x1000;
    assert Pow2(20) == 0x10_0000;
  }

  lemma OrShifted(x: nat, y: nat, k: nat, u: nat, p: nat)
    requires u == Shl(x, k) && p == Pow2(k) && y < p
    ensures Or(u, y) == u + y
  {
    OrDisjoint(x, y, k);
  }

  /** Bitwise or of all the words, from the left. */
  function OrAll(words: seq<nat>): nat {
    if words == [] then 0 else Or(OrAll(words[..|words| - 1]), words[|words| - 1])
  }

  lemma OrAllFour(x: nat, y: nat, z: nat, w: nat)
    ensures OrAll([x, y, z, w]) == Or(Or(Or(x, y), z), w)
  {
    assert [x, y, z, w][..3] == [x, y, z] && [x, y, z][..2] == [x, y] && [x, y][..1] == [x];
    assert OrAll([x]) == x;
    assert OrAll([x, y]) == Or(x, y);
    assert OrAll([x, y, z]) == Or(Or(x, y), z);
  }

  /** `(r << 16) | (g << 8) | b | (a << 24)`, each operand taken as a 32-bit word. */
  function PackOr(a: int, r: int, g: int, b: int): jint {
    Wrap(OrAll([Word(r * 0x1_0000), Word(g * 0x100), Word(b), Word(a * 0x100_0000)]))
  }

  function Word(x: int): (w: nat)
    ensures 0 <= x < 0x1_0000_0000 ==> w == x
  {
    x % 0x1_0000_0000
  }

  lemma {:induction false} OrCommutes(x: nat, y: nat)
    ensures Or(x, y) == Or(y, x)
  {
    if x > 0 && y > 0 {
      OrCommutes(x / 2, y / 2);
    }
  }

  lemma OrLowBytes(r: byte, g: byte, b: byte)
    ensures Or(Or(r * 0x1_0000, g * 0x100), b) == r * 0x1_0000 + g * 0x100 + b
  {
    Pow2Bytes();
    var high := r * 0x100 + g;
    ShlBytes(r);
    ShlBytes(high);
    OrShifted(r, g * 0x100, 16, r * 0x1_0000, 0x1_0000);
    OrShifted(high, b, 8, high * 0x100, 0x100);
  }

  lemma OrBytes(a: byte, r: byte, g: byte, b: byte)
    ensures Or(Or(Or(r * 0x1_0000, g * 0x100), b), a * 0x100_0000)
         == a * 0x100_0000 + r * 0x1_0000 + g * 0x100 + b
  {
    var low := r * 0x1_0000 + g * 0x100 + b;
    OrLowBytes(r, g, b);
    Pow2Bytes();
    ShlBytes(a);
    OrShifted(a, low, 24, a * 0x100_0000, 0x100_0000);
    OrCommutes(a * 0x100_0000, low);
  }

  /** On bytes the bitwise-or packing and the additive packing agree. */
  lemma PackOrBytes(a: byte, r: byte, g: byte, b: byte)
    ensures PackOr(a, r, g, b) == Pack(a, r, g, b)
  {
    OrBytes(a, r, g, b);
    OrAllFour(r * 0x1_0000, g * 0x100, b, a * 0x100_0000);
    PackIsSum(a, r, g, b);
  }

  lemma PackOrZero()
    ensures PackOr(0, 0, 0, 0) == 0
  {
    PackOrBytes(0, 0, 0, 0);
    PackIsSum(0, 0, 0, 0);
  }

  /** Truncation changes a number by a multiple of 2^32 only. */
  lemma WrapCongruent(x: int)
    ensures (x - Wrap(x)) % 0x1_0000_0000 == 0
  {
  }

  /** The four channels are the four bytes of the word, alpha on top, blue at the bottom. */
  lemma ByteValues(p: jint)
    ensures p % 0x1_0000_0000 == Byte(p, A) * 0x100_0000 + Byte(p, R) * 0x1_0000 + Byte(p, G) * 0x100 + Byte(p, B)
  {
    var a, r, g, b := Byte(p, A), Byte(p, R), Byte(p, G), Byte(p, B);
    PackUnpack(p);
    PackValue(a, r, g, b);
  }
}
