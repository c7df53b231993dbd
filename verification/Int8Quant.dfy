/** Per-token int8 quantisation of one row, in exact reals, with the int32 cast of the zero point
    written out. */
module Int8Quant {

  function Abs(x: real): real { if x < 0.0 then -x else x }
  function Larger(x: real, y: real): real { if x < y then y else x }

  /** Rounding to the nearest integer, ties to even. */
  function Round(x: real): int {
    var f := x.Floor;
    var d := x - f as real;
    if d < 0.5 || (d == 0.5 && f % 2 == 0) then f else f + 1
  }

  function Pow2(n: nat): (r: int)
    ensures r >= 1
  {
    if n == 0 then 1 else 2 * Pow2(n - 1)
  }

  function MinOf(row: seq<real>): (m: real)
    requires row != []
    ensures m in row && forall x :: x in row ==> m <= x
  {
    if |row| == 1 then row[0]
    else
      assert row == [row[0]] + row[1..];
      var m := MinOf(row[1..]);
      if row[0] < m then row[0] else m
  }

  function MaxOf(row: seq<real>): (m: real)
    requires row != []
    ensures m in row && forall x :: x in row ==> x <= m
  {
    if |row| == 1 then row[0]
    else
      assert row == [row[0]] + row[1..];
      var m := MaxOf(row[1..]);
      if row[0] > m then row[0] else m
  }

  function QMin(sym: bool, bits: nat): int
    requires bits > 0
  {
    if sym then -Pow2(bits - 1) else 0
  }

  function QMax(sym: bool, bits: nat): int
    requires bits > 0
  {
    if sym then Pow2(bits - 1) - 1 else Pow2(bits) - 1
  }

  /** Bit widths for which the scale can be computed and the codes fit the byte they are cast to. */
  predicate Width(sym: bool, bits: nat) {
    (if sym then 2 else 1) <= bits <= 8
  }

  const FLOOR: real := 0.00001

  function Clamp(x: int, lo: int, hi: int): int {
    if x < lo then lo else if x > hi then hi else x
  }

  /** Two's complement conversion to 32 bits. */
  function Wrap32(n: int): int {
    (n + 0x8000_0000) % 0x1_0000_0000 - 0x8000_0000
  }

  /** Conversion to the result type: int8 for symmetric codes, uint8 otherwise. */
  function ToByte(sym: bool, n: int): int {
    if sym then (n + 128) % 256 - 128 else n % 256
  }

  lemma WidthGivesRange(sym: bool, bits: nat)
    requires Width(sym, bits)
    ensures QMax(sym, bits) >= 1
    ensures if sym then -128 <= QMin(sym, bits) == -QMax(sym, bits) - 1 && QMax(sym, bits) <= 127
            else QMin(sym, bits) == 0 && QMax(sym, bits) <= 255
  {
    assert Pow2(1) == 2;
    assert Pow2(2) == 2 * Pow2(1) && Pow2(3) == 2 * Pow2(2) && Pow2(4) == 2 * Pow2(3);
    assert Pow2(5) == 2 * Pow2(4) && Pow2(6) == 2 * Pow2(5) && Pow2(7) == 2 * Pow2(6) && Pow2(8) == 2 * Pow2(7);
  }

  lemma {:induction false} PowGrows(a: nat, b: nat)
    requires a <= b
    ensures Pow2(a) <= Pow2(b)
  {
    if a < b { PowGrows(a, b - 1); }
  }

  /** The widths are exactly those whose largest code is positive, so that the scale can be computed, and fits
      the byte. */
  lemma WidthIs(sym: bool, bits: nat)
    ensures Width(sym, bits) <==> bits > 0 && 1 <= QMax(sym, bits) <= if sym then 127 else 255
  {
    if Width(sym, bits) { WidthGivesRange(sym, bits); }
    if bits > 8 {
      Powers(8);
      Powers(7);
      PowGrows(8, bits - 1);
      PowGrows(8, bits);
      assert Pow2(9) == 2 * Pow2(8);
      PowGrows(9, bits);
    }
  }

  function Span(row: seq<real>, sym: bool): real
    requires row != []
  {
    if sym then Larger(Abs(MinOf(row)), Abs(MaxOf(row))) else MaxOf(row) - MinOf(row)
  }

  function Scale(row: seq<real>, sym: bool, bits: nat): (s: real)
    requires row != [] && Width(sym, bits)
    ensures s >= FLOOR
  {
    WidthGivesRange(sym, bits);
    Larger(Span(row, sym) / QMax(sym, bits) as real, FLOOR)
  }

  /** The rounded position of the row minimum, before the casts. */
  function Origin(row: seq<real>, bits: nat): int
    requires row != [] && Width(false, bits)
  {
    Round(MinOf(row) / Scale(row, false, bits))
  }

  function ZeroPoint(row: seq<real>, sym: bool, bits: nat): int
    requires row != [] && Width(sym, bits)
  {
    if sym then 0 else Wrap32(-Wrap32(Origin(row, bits)))
  }

  function Quantize(row: seq<real>, sym: bool, bits: nat, x: real): int
    requires row != [] && Width(sym, bits)
  {
    var v := x / Scale(row, sym, bits) + ZeroPoint(row, sym, bits) as real;
    ToByte(sym, Clamp(Round(v), QMin(sym, bits), QMax(sym, bits)))
  }

  function Dequantize(row: seq<real>, sym: bool, bits: nat, q: int): real
    requires row != [] && Width(sym, bits)
  {
    Scale(row, sym, bits) * (q - ZeroPoint(row, sym, bits)) as real
  }

  ghost predicate HalfStep(row: seq<real>, sym: bool, bits: nat, x: real)
    requires row != [] && Width(sym, bits)
  {
    Abs(Dequantize(row, sym, bits, Quantize(row, sym, bits, x)) - x) <= Scale(row, sym, bits) / 2.0
  }

  // ----- rounding

  lemma RoundNear(x: real)
    ensures Abs(x - Round(x) as real) <= 0.5
  {
  }

  /** Half a unit outside [lo, hi] the clamp still leaves an error of at most half a unit. */
  lemma ClampNear(v: real, lo: int, hi: int)
    requires lo <= hi && lo as real - 0.5 <= v <= hi as real + 0.5
    ensures Abs(v - Clamp(Round(v), lo, hi) as real) <= 0.5
  {
    RoundNear(v);
    assert Round(v) as real <= hi as real + 1.0 && Round(v) as real >= lo as real - 1.0;
    assert Round(v) <= hi + 1 && Round(v) >= lo - 1;
  }

  lemma ByteKeeps(sym: bool, bits: nat, n: int)
    requires Width(sym, bits)
    ensures ToByte(sym, Clamp(n, QMin(sym, bits), QMax(sym, bits))) == Clamp(n, QMin(sym, bits), QMax(sym, bits))
  {
    WidthGivesRange(sym, bits);
  }

  // ----- real division

  lemma DivMul(x: real, s: real)
    requires s > 0.0
    ensures x / s * s == x && s * (x / s) == x
  {
  }

  lemma MulHalf(s: real, d: real)
    requires s > 0.0
    ensures Abs(d) <= 0.5 <==> Abs(s * d) <= s / 2.0
  {
    if Abs(d) <= 0.5 {
      assert s * d <= s * 0.5 && s * d >= s * -0.5;
    } else if d > 0.5 {
      assert s * d > s * 0.5;
    } else {
      assert s * d < s * -0.5;
    }
  }

  /** The error in real units is the scale times the error in codes. */
  lemma ErrorInSteps(row: seq<real>, sym: bool, bits: nat, x: real)
    requires row != [] && Width(sym, bits)
    ensures var s, z := Scale(row, sym, bits), ZeroPoint(row, sym, bits) as real;
            HalfStep(row, sym, bits, x) <==> Abs(Quantize(row, sym, bits, x) as real - (x / s + z)) <= 0.5
  {
    hide Quantize, Scale, ZeroPoint;
    var s, zi, q := Scale(row, sym, bits), ZeroPoint(row, sym, bits), Quantize(row, sym, bits, x);
    var z := zi as real;
    assert (q - zi) as real == q as real - z;
    DivMul(x, s);
    var d := q as real - (x / s + z);
    assert s * d == s * (q as real - z) - s * (x / s);
    MulHalf(s, d);
  }

  // ----- the bounds

  lemma CoverSpan(span: real, m: real)
    requires m >= 1.0
    ensures span <= Larger(span / m, FLOOR) * m
  {
    DivMul(span, m);
    MulLeReal(span / m, Larger(span / m, FLOOR), m);
  }

  lemma ScaleSpan(row: seq<real>, sym: bool, bits: nat)
    requires row != [] && Width(sym, bits)
    ensures QMax(sym, bits) >= 1 && Span(row, sym) <= Scale(row, sym, bits) * QMax(sym, bits) as real
  {
    hide Span, QMax;
    WidthGivesRange(sym, bits);
    CoverSpan(Span(row, sym), QMax(sym, bits) as real);
  }

  lemma MulLeReal(a: real, b: real, m: real)
    requires m >= 0.0 && a <= b
    ensures a * m <= b * m
  {
  }

  lemma MulLtReal(a: real, b: real, m: real)
    requires m > 0.0
    ensures a < b ==> a * m < b * m
  {
  }

  lemma ScaleCovers(row: seq<real>, sym: bool, bits: nat, x: real)
    requires row != [] && Width(sym, bits) && x in row
    ensures var s, m := Scale(row, sym, bits), QMax(sym, bits) as real;
            if sym then -m <= x / s <= m else 0.0 <= x / s - MinOf(row) / s <= m
  {
    hide Scale, QMax, MinOf, MaxOf;
    ScaleSpan(row, sym, bits);
    var s, m := Scale(row, sym, bits), QMax(sym, bits) as real;
    Within(x, s, m, Span(row, sym), if sym then 0.0 else MinOf(row));
    assert 0.0 / s == 0.0;
  }

  lemma Within(x: real, s: real, m: real, span: real, base: real)
    requires s > 0.0 && m > 0.0 && span <= s * m
    ensures x - base <= span ==> x / s - base / s <= m
    ensures x - base >= 0.0 ==> x / s - base / s >= 0.0
    ensures x - base >= -span ==> x / s - base / s >= -m
  {
    var d := x / s - base / s;
    DivMul(x, s);
    DivMul(base, s);
    assert d * s == x - base;
    MulLtReal(m, d, s);
    MulLtReal(d, 0.0, s);
    MulLtReal(d, -m, s);
  }

  /** Symmetric: every input of the row comes back within half a step, and the clamp never acts. */
  lemma SymmetricWithinHalfStep(row: seq<real>, bits: nat, x: real)
    requires row != [] && Width(true, bits) && x in row
    ensures HalfStep(row, true, bits, x)
    ensures Quantize(row, true, bits, x) == Round(x / Scale(row, true, bits))
    ensures Abs(Quantize(row, true, bits, x) as real) <= QMax(true, bits) as real
  {
    WidthGivesRange(true, bits);
    ScaleCovers(row, true, bits, x);
    var v, m := x / Scale(row, true, bits), QMax(true, bits);
    ClampNear(v, QMin(true, bits), m);
    ByteKeeps(true, bits, Round(v));
    RoundWithin(v, m);
    ErrorInSteps(row, true, bits, x);
  }

  lemma ScaleIsSpan(span: real, m: real)
    requires m >= 1.0 && span >= 0.00001 * m
    ensures Larger(span / m, FLOOR) * m == span
  {
    DivMul(span, m);
    MulLtReal(span / m, FLOOR, m);
  }

  lemma Quotient(x: real, s: real, q: real)
    requires s > 0.0 && x == s * q
    ensures x / s == q
  {
  }

  lemma SymmetricScale(row: seq<real>, bits: nat, x: real)
    requires row != [] && Width(true, bits) && x in row && (forall y :: y in row ==> Abs(y) <= Abs(x))
    requires Abs(x) >= 0.00001 * (Pow2(bits - 1) - 1) as real
    ensures Scale(row, true, bits) * (Pow2(bits - 1) - 1) as real == Abs(x)
  {
    WidthGivesRange(true, bits);
    ScaleShape(row, true, bits);
    assert Span(row, true) == Abs(x) && QMax(true, bits) == Pow2(bits - 1) - 1;
    hide *;
    ScaleIsSpan(Abs(x), (Pow2(bits - 1) - 1) as real);
  }

  /** A symmetric row above the floor: the entry of largest magnitude gets the largest code, 127 or -127 in eight
      bits. */
  lemma SymmetricExtreme(row: seq<real>, bits: nat, x: real)
    requires row != [] && Width(true, bits) && x in row && (forall y :: y in row ==> Abs(y) <= Abs(x))
    requires Abs(x) >= 0.00001 * (Pow2(bits - 1) - 1) as real
    ensures Quantize(row, true, bits, x) == if x > 0.0 then Pow2(bits - 1) - 1 else 1 - Pow2(bits - 1)
    ensures bits == 8 ==> Quantize(row, true, bits, x) == if x > 0.0 then 127 else -127
  {
    hide *;
    assert 2 <= bits <= 8 by { WidthBounds(true, bits); }
    Powers(bits - 1);
    SymmetricScale(row, bits, x);
    SymmetricWithinHalfStep(row, bits, x);
    RoundsWhole(x, Scale(row, true, bits), Pow2(bits - 1) - 1);
  }

  lemma WidthBounds(sym: bool, bits: nat)
    requires Width(sym, bits)
    ensures (if sym then 2 else 1) <= bits <= 8
  {
  }

  lemma RoundsWhole(x: real, s: real, n: int)
    requires s > 0.0 && s * n as real == Abs(x)
    ensures Round(x / s) == if x > 0.0 then n else -n
  {
    var q := if x > 0.0 then n else -n;
    assert s * q as real == x;
    Quotient(x, s, q as real);
  }

  lemma AsymmetricScale(row: seq<real>, bits: nat)
    requires row != [] && Width(false, bits)
    requires MaxOf(row) - MinOf(row) >= 0.00001 * (Pow2(bits) - 1) as real
    ensures Scale(row, false, bits) * (Pow2(bits) - 1) as real == MaxOf(row) - MinOf(row)
  {
    hide *;
    WidthBounds(false, bits);
    ScaleShape(row, false, bits);
    AsymmetricShape(row, bits);
    ScaleIsSpan(Span(row, false), (Pow2(bits) - 1) as real);
  }

  lemma AsymmetricShape(row: seq<real>, bits: nat)
    requires row != [] && bits > 0
    ensures Span(row, false) == MaxOf(row) - MinOf(row) && QMax(false, bits) == Pow2(bits) - 1
  {
    hide MinOf, MaxOf, Pow2;
  }

  lemma ScaleShape(row: seq<real>, sym: bool, bits: nat)
    requires row != [] && Width(sym, bits)
    ensures QMax(sym, bits) >= 1 && Scale(row, sym, bits) == Larger(Span(row, sym) / QMax(sym, bits) as real, FLOOR)
  {
    hide Span, QMax;
    WidthGivesRange(sym, bits);
  }

  lemma CodeOf(row: seq<real>, bits: nat, x: real, v: real)
    requires row != [] && Width(false, bits) && -0x8000_0000 < Origin(row, bits) <= 0x8000_0000
    requires v == x / Scale(row, false, bits) - Origin(row, bits) as real
    ensures Quantize(row, false, bits, x) == Clamp(Round(v), 0, Pow2(bits) - 1)
  {
    ZeroPointCast(Origin(row, bits));
    hide Wrap32, Origin, Scale, Round, Pow2;
    ByteKeeps(false, bits, Round(v));
  }

  /** An asymmetric row above the floor whose origin survives the casts: the minimum gets the code 0, and the maximum
      the largest, 255 in eight bits, unless the origin was rounded up from a half. */
  lemma AsymmetricExtremes(row: seq<real>, bits: nat)
    requires row != [] && Width(false, bits) && -0x8000_0000 < Origin(row, bits) <= 0x8000_0000
    requires MaxOf(row) - MinOf(row) >= 0.00001 * (Pow2(bits) - 1) as real
    ensures Quantize(row, false, bits, MinOf(row)) == 0
    ensures var up := MinOf(row) / Scale(row, false, bits) - Origin(row, bits) as real == -0.5;
            && Quantize(row, false, bits, MaxOf(row)) == Pow2(bits) - 1 - (if up then 1 else 0)
            && (bits == 8 ==> Quantize(row, false, bits, MaxOf(row)) == if up then 254 else 255)
  {
    hide *;
    assert 1 <= bits <= 8 by { WidthBounds(false, bits); }
    Powers(bits);
    AsymmetricScale(row, bits);
    var s, n, o := Scale(row, false, bits), Pow2(bits) - 1, Origin(row, bits);
    assert o == Round(MinOf(row) / s) by { OriginShape(row, bits); }
    ExtremeCodes(MinOf(row), MaxOf(row), s, n, o);
    CodeOf(row, bits, MinOf(row), MinOf(row) / s - o as real);
    CodeOf(row, bits, MaxOf(row), MaxOf(row) / s - o as real);
  }

  lemma OriginShape(row: seq<real>, bits: nat)
    requires row != [] && Width(false, bits)
    ensures Origin(row, bits) == Round(MinOf(row) / Scale(row, false, bits))
  {
    hide Scale, Round, MinOf;
  }

  lemma ExtremeCodes(lo: real, hi: real, s: real, n: int, o: int)
    requires s > 0.0 && s * n as real == hi - lo && o == Round(lo / s) && n >= 1 && n % 2 == 1
    ensures Clamp(Round(lo / s - o as real), 0, n) == 0
    ensures Clamp(Round(hi / s - o as real), 0, n) == n - if lo / s - o as real == -0.5 then 1 else 0
  {
    RoundNear(lo / s);
    var a := lo / s - o as real;
    DivMul(lo, s);
    Quotient(hi, s, lo / s + n as real);
    RoundsBack(a, 0);
    RoundsBack(a + n as real, n);
    hide Round;
    assert hi / s - o as real == a + n as real;
  }

  lemma Powers(bits: nat)
    requires 0 < bits <= 8
    ensures Pow2(bits) % 2 == 0 && Pow2(bits) >= 2
    ensures (bits == 8 ==> Pow2(bits) == 256) && (bits == 7 ==> Pow2(bits) == 128)
  {
    assert Pow2(1) == 2 && Pow2(2) == 4 && Pow2(3) == 8 && Pow2(4) == 16 && Pow2(5) == 32 && Pow2(6) == 64;
    assert Pow2(7) == 2 * Pow2(6);
  }

  /** Half a unit around an integer, ties go to the even neighbour. */
  lemma RoundsBack(v: real, n: int)
    requires Abs(v - n as real) <= 0.5
    ensures n % 2 == 0 ==> Round(v) == n
    ensures n % 2 == 1 ==> Round(v) == if v == n as real - 0.5 then n - 1 else if v == n as real + 0.5 then n + 1 else n
  {
  }

  lemma RoundWithin(v: real, m: int)
    requires -(m as real) <= v <= m as real
    ensures -m <= Round(v) <= m
  {
  }

  lemma WrapFits(n: int)
    ensures Wrap32(n) == n <==> -0x8000_0000 <= n < 0x8000_0000
    ensures -0x8000_0000 <= Wrap32(n) < 0x8000_0000
    ensures (Wrap32(n) - n) % 0x1_0000_0000 == 0
  {
  }

  lemma ZeroPointCast(r: int)
    ensures Wrap32(-Wrap32(r)) == -r <==> -0x8000_0000 < r <= 0x8000_0000
    ensures (Wrap32(-Wrap32(r)) + r) % 0x1_0000_0000 == 0
  {
    var w := Wrap32(r);
    var z := Wrap32(-w);
    WrapFits(r);
    WrapFits(-w);
    assert z + r == (z + w) - (w - r);
  }

  lemma AsymmetricError(row: seq<real>, bits: nat, x: real)
    requires row != [] && Width(false, bits) && x in row
    requires -0x8000_0000 < Origin(row, bits) <= 0x8000_0000
    ensures HalfStep(row, false, bits, x)
  {
    hide Round, Wrap32, MinOf;
    WidthGivesRange(false, bits);
    ScaleCovers(row, false, bits, x);
    ZeroPointCast(Origin(row, bits));
    var s, z, m := Scale(row, false, bits), ZeroPoint(row, false, bits), QMax(false, bits);
    RoundNear(MinOf(row) / s);
    var v := x / s + z as real;
    ClampNear(v, 0, m);
    ByteKeeps(false, bits, Round(v));
    ErrorInSteps(row, false, bits, x);
  }

  /** When the cast changes the zero point, the row minimum comes back far away. */
  lemma LostZeroPoint(row: seq<real>, bits: nat)
    requires row != [] && Width(false, bits)
    requires !(-0x8000_0000 < Origin(row, bits) <= 0x8000_0000)
    ensures !HalfStep(row, false, bits, MinOf(row))
  {
    hide Round, Wrap32, MinOf, Scale;
    WidthGivesRange(false, bits);
    var x, r, s, z := MinOf(row), Origin(row, bits), Scale(row, false, bits), ZeroPoint(row, false, bits);
    ZeroPointCast(r);
    RoundNear(x / s);
    var v := x / s + z as real;
    var gap := z + r;
    assert gap >= 0x1_0000_0000 || gap <= -0x1_0000_0000;
    assert Abs(v - gap as real) <= 0.5;
    ByteKeeps(false, bits, Round(v));
    ErrorInSteps(row, false, bits, x);
  }

  /** Asymmetric: the bound holds for the whole row exactly when the rounded origin survives
      the int32 casts. */
  lemma AsymmetricWithinHalfStep(row: seq<real>, bits: nat)
    requires row != [] && Width(false, bits)
    ensures (forall x :: x in row ==> HalfStep(row, false, bits, x))
            <==> -0x8000_0000 < Origin(row, bits) <= 0x8000_0000
  {
    hide HalfStep, Origin;
    if -0x8000_0000 < Origin(row, bits) <= 0x8000_0000 {
      forall x | x in row ensures HalfStep(row, false, bits, x) { AsymmetricError(row, bits, x); }
    } else {
      LostZeroPoint(row, bits);
    }
  }

  /** Strictly inside the int32 range the bound does not depend on what an out-of-range cast does: any cast that
      keeps what fits gives the same zero point. */
  lemma OriginInRange(row: seq<real>, bits: nat, x: real, cast: int -> int)
    requires row != [] && Width(false, bits) && x in row && -0x8000_0000 < Origin(row, bits) < 0x8000_0000
    requires forall n :: -0x8000_0000 <= n < 0x8000_0000 ==> cast(n) == n
    ensures cast(-cast(Origin(row, bits))) == ZeroPoint(row, false, bits) && HalfStep(row, false, bits, x)
  {
    hide Origin, HalfStep;
    ZeroPointCast(Origin(row, bits));
    AsymmetricError(row, bits, x);
  }

  /** A constant row of 30000 already breaks the bound: its scale is the floor, and 3 * 10^9
      floor steps do not fit in 32 bits. */
  lemma ConstantRowBreaksBound()
    ensures Origin([30000.0], 8) == 3_000_000_000
    ensures !HalfStep([30000.0], false, 8, 30000.0)
  {
    var row := [30000.0];
    WidthGivesRange(false, 8);
    assert MinOf(row) == 30000.0 && MaxOf(row) == 30000.0;
    assert 0.0 / QMax(false, 8) as real == 0.0;
    assert Scale(row, false, 8) == FLOOR;
    assert 30000.0 / FLOOR == 3000000000.0;
    assert Round(3000000000.0) == 3_000_000_000;
    LostZeroPoint(row, 8);
  }
}
