// IEEE 754 single precision words as exact values, and Python's round().
module Floats {
  import opened Bytes

  datatype Float = NaN | Inf(negative: bool) | Fin(r: real)

  function Pow2(e: int): real
    decreases if e < 0 then -e else e
  {
    if e == 0 then 1.0 else if e > 0 then 2.0 * Pow2(e - 1) else Pow2(e + 1) / 2.0
  }

  // struct.unpack('<f', ..) of the bytes of w.
  function Decode(w: Word): Float {
    var negative, exponent, mantissa := w >= 0x8000_0000, w / 0x80_0000 % 0x100, w % 0x80_0000;
    if exponent == 0xff then if mantissa == 0 then Inf(negative) else NaN
    else
      var magnitude := if exponent == 0 then mantissa as real * Pow2(-149)
                       else (0x80_0000 + mantissa) as real * Pow2(exponent - 150);
      Fin(if negative then -magnitude else magnitude)
  }

  // ------------------------------------ which number a word stands for: the word
  // of 1.0, one step of the exponent, the steps between two powers of two, the
  // numbers below the smallest power, the sign, and what is no number

  lemma {:induction false} Pow2Step(e: int)
    ensures Pow2(e + 1) == 2.0 * Pow2(e)
  {
  }

  lemma {:induction false} Pow2Inverse(n: int)
    requires n >= 0
    ensures Pow2(-n) * Pow2(n) == 1.0
  {
    if n > 0 {
      Pow2Inverse(n - 1);
      Pow2Step(-n);
      Halved(Pow2(-n), Pow2(n - 1));
    }
  }

  lemma Halved(a: real, b: real)
    requires 2.0 * a * b == 1.0
    ensures a * (2.0 * b) == 1.0
  {
  }

  lemma Fields(exponent: nat, mantissa: nat)
    requires exponent < 0x100 && mantissa < 0x80_0000
    ensures var w := exponent * 0x80_0000 + mantissa; w / 0x80_0000 == exponent && w % 0x80_0000 == mantissa
  {
  }

  lemma OneIs()
    ensures Decode(0x3f80_0000) == Fin(1.0)
  {
    Fields(127, 0);
    Pow2Inverse(23);
    assert Pow2(4) == 16.0 && Pow2(8) == 256.0 && Pow2(12) == 4096.0 && Pow2(16) == 65536.0;
    assert Pow2(20) == 1048576.0 && Pow2(23) == 8388608.0;
  }

  lemma DecodeNormal(exponent: nat, mantissa: nat)
    requires 0 < exponent < 0xff && mantissa < 0x80_0000
    ensures exponent * 0x80_0000 + mantissa < 0x8000_0000
    ensures Decode(exponent * 0x80_0000 + mantissa) == Fin((0x80_0000 + mantissa) as real * Pow2(exponent - 150))
  {
    var w := exponent * 0x80_0000 + mantissa;
    assert w / 0x80_0000 == exponent && w % 0x80_0000 == mantissa;
  }

  // One up in the exponent doubles the number.
  lemma ExponentDoubles(exponent: nat, mantissa: nat)
    requires 0 < exponent < 0xfe && mantissa < 0x80_0000
    ensures var f, g := Decode(exponent * 0x80_0000 + mantissa), Decode((exponent + 1) * 0x80_0000 + mantissa);
            f.Fin? && g.Fin? && g.r == 2.0 * f.r
  {
    hide Pow2, Decode;
    DecodeNormal(exponent, mantissa);
    DecodeNormal(exponent + 1, mantissa);
    Pow2Step(exponent - 150);
    Turned((0x80_0000 + mantissa) as real, 2.0, Pow2(exponent - 150));
  }

  // From one power of two to the next the numbers are 2^23 equal steps apart.
  lemma MantissaSteps(exponent: nat, mantissa: nat)
    requires 0 < exponent < 0xff && mantissa < 0x80_0000
    ensures exponent * 0x80_0000 < 0x8000_0000 && exponent * 0x80_0000 + mantissa < 0x8000_0000
    ensures var f, g := Decode(exponent * 0x80_0000), Decode(exponent * 0x80_0000 + mantissa);
            f.Fin? && g.Fin? && g.r * 8388608.0 == f.r * (0x80_0000 + mantissa) as real
  {
    hide Pow2, Decode;
    DecodeNormal(exponent, 0);
    DecodeNormal(exponent, mantissa);
    Turned((0x80_0000 + mantissa) as real, Pow2(exponent - 150), 8388608.0);
  }

  lemma Turned(a: real, b: real, c: real)
    ensures a * b * c == c * b * a && a * (b * c) == b * (a * c)
  {
  }

  lemma DecodeSmall(mantissa: nat)
    requires mantissa < 0x80_0000
    ensures Decode(mantissa) == Fin(mantissa as real * Pow2(-149))
  {
    hide Pow2;
    Fields(0, mantissa);
  }

  // And from zero to the first of them, which is where they meet.
  lemma SubnormalSteps(mantissa: nat)
    requires mantissa <= 0x80_0000
    ensures Decode(mantissa).Fin? && Decode(1).Fin? && Decode(mantissa).r == mantissa as real * Decode(1).r
  {
    hide Pow2, Decode;
    DecodeSmall(1);
    assert 1.0 * Pow2(-149) == Pow2(-149);
    if mantissa < 0x80_0000 {
      DecodeSmall(mantissa);
    } else {
      DecodeNormal(1, 0);
    }
  }

  lemma SignAndSpecials(w: Word)
    requires w < 0x8000_0000
    ensures var f, g := Decode(w), Decode(w + 0x8000_0000);
            && (w < 0x7f80_0000 ==> f.Fin? && g == Fin(-f.r))
            && (w == 0x7f80_0000 ==> f == Inf(false) && g == Inf(true))
            && (w > 0x7f80_0000 ==> f == NaN == g)
  {
    hide Pow2;
    var exponent, mantissa := w / 0x80_0000, w % 0x80_0000;
    Fields(exponent, mantissa);
    assert w + 0x8000_0000 == (exponent + 0x100) * 0x80_0000 + mantissa;
  }

  // Comparisons, false on NaN as in Python.
  predicate Above(f: Float, bound: real) {
    (f.Fin? && f.r > bound) || f == Inf(false)
  }

  predicate AtLeast(f: Float, bound: real) {
    (f.Fin? && f.r >= bound) || f == Inf(false)
  }

  predicate Below(f: Float, bound: real) {
    (f.Fin? && f.r < bound) || f == Inf(true)
  }

  predicate Near(f: Float, v: real, tolerance: real) {
    f.Fin? && -tolerance < f.r - v < tolerance
  }

  predicate WithinOne(f: Float, v: int) {
    f.Fin? && -1.0 <= v as real - f.r <= 1.0
  }

  // round(x): to the nearest integer, ties to the even one.
  function Round(x: real): (n: int)
    ensures -0.5 <= n as real - x <= 0.5
    ensures n as real - x == 0.5 || x - n as real == 0.5 ==> n % 2 == 0
  {
    var n := x.Floor;
    if x - n as real < 0.5 then n
    else if x - n as real > 0.5 then n + 1
    else if n % 2 == 0 then n else n + 1
  }
}
