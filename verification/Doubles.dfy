/** Rounded arithmetic on non-negative reals: decimals of 28 significant digits and IEEE 754 double
    precision. The exponent range is unbounded: no value here comes near overflow or underflow. */
module Doubles {

  /** The nearest integer; a tie goes to the even one. */
  function HalfEven(x: real): (q: int)
    ensures -0.5 <= q as real - x <= 0.5
    ensures q as real - x == 0.5 || q as real - x == -0.5 ==> q % 2 == 0
  {
    var below := x.Floor;
    var rest := x - below as real;
    if rest < 0.5 || (rest == 0.5 && below % 2 == 0) then below else below + 1
  }

  const DOUBLE_LOW: real := 4503599627370496.0
  const DECIMAL_LOW: real := 1000000000000000000000000000.0

  /** The double nearest to x: a significand of 53 bits times a power of two. */
  function Double(x: real): (r: real)
    requires x >= 0.0
    ensures r >= 0.0
    decreases if x >= 2.0 * DOUBLE_LOW then x.Floor else if 0.0 < x < DOUBLE_LOW then (DOUBLE_LOW / x).Floor else 0
  {
    if x == 0.0 then 0.0
    else if x >= 2.0 * DOUBLE_LOW then 2.0 * Double(x / 2.0)
    else if x < DOUBLE_LOW then Closer(x, DOUBLE_LOW, 2.0); Double(2.0 * x) / 2.0
    else HalfEven(x) as real
  }

  /** The decimal of 28 significant digits nearest to x. */
  function Decimal(x: real): (r: real)
    requires x >= 0.0
    ensures r >= 0.0
    decreases if x >= 10.0 * DECIMAL_LOW then x.Floor else if 0.0 < x < DECIMAL_LOW then (DECIMAL_LOW / x).Floor else 0
  {
    if x == 0.0 then 0.0
    else if x >= 10.0 * DECIMAL_LOW then 10.0 * Decimal(x / 10.0)
    else if x < DECIMAL_LOW then Closer(x, DECIMAL_LOW, 10.0); Decimal(10.0 * x) / 10.0
    else HalfEven(x) as real
  }

  /** Scaling up a value below the range takes whole steps towards it. */
  lemma Closer(x: real, low: real, base: real)
    requires 0.0 < x < low && (base == 2.0 || base == 10.0)
    ensures 0.0 < base * x && 0 <= (low / (base * x)).Floor < (low / x).Floor
  {
    var q := low / x;
    assert q * x == low;
    AboveOne(q, x, low);
    if base == 2.0 {
      Divides(q / 2.0, 2.0 * x, low);
    } else {
      Divides(q / 10.0, 10.0 * x, low);
    }
  }

  lemma Times(a: real, b: real)
    ensures a > 0.0 && b > 0.0 ==> a * b > 0.0
    ensures a >= 0.0 && b >= 0.0 ==> a * b >= 0.0
  {
  }

  lemma AboveOne(q: real, x: real, low: real)
    requires 0.0 < x < low && q * x == low
    ensures q > 1.0
  {
    if q <= 1.0 { Times(1.0 - q, x); assert (1.0 - q) * x == x - low; }
  }

  /** The quotient is the number whose product with the divisor is the dividend. */
  lemma Divides(q: real, d: real, n: real)
    requires d > 0.0 && q * d == n
    ensures n / d == q
  {
    var p := n / d;
    assert p * d == n;
    assert (p - q) * d == 0.0 && (q - p) * d == 0.0;
    Times(p - q, d);
    Times(q - p, d);
  }

  // ----- what rounding keeps ------------------------------------------------

  lemma {:induction false} DoubleIsNear(x: real)
    requires x >= 0.0
    ensures -x <= 2.0 * DOUBLE_LOW * (Double(x) - x) <= x
    decreases if x >= 2.0 * DOUBLE_LOW then x.Floor else if 0.0 < x < DOUBLE_LOW then (DOUBLE_LOW / x).Floor else 0
  {
    if x >= 2.0 * DOUBLE_LOW {
      DoubleIsNear(x / 2.0);
    } else if 0.0 < x < DOUBLE_LOW {
      Closer(x, DOUBLE_LOW, 2.0);
      DoubleIsNear(2.0 * x);
    }
  }

  lemma {:induction false} DecimalIsNear(x: real)
    requires x >= 0.0
    ensures -x <= 2.0 * DECIMAL_LOW * (Decimal(x) - x) <= x
    decreases if x >= 10.0 * DECIMAL_LOW then x.Floor else if 0.0 < x < DECIMAL_LOW then (DECIMAL_LOW / x).Floor else 0
  {
    if x >= 10.0 * DECIMAL_LOW {
      DecimalIsNear(x / 10.0);
    } else if 0.0 < x < DECIMAL_LOW {
      Closer(x, DECIMAL_LOW, 10.0);
      DecimalIsNear(10.0 * x);
    }
  }

  /** Doubling is exact. */
  lemma {:induction false} DoublingIsExact(x: real)
    requires x >= 0.0
    ensures Double(2.0 * x) == 2.0 * Double(x)
  {
    if 0.0 < x < DOUBLE_LOW {
      Closer(x, DOUBLE_LOW, 2.0);
    }
  }

  /** Whole numbers of at most 53 bits are doubles. */
  lemma {:induction false} WholeIsDouble(n: nat)
    requires n as real < 2.0 * DOUBLE_LOW
    ensures Double(n as real) == n as real
    decreases 9007199254740992 - n
  {
    if 0.0 < n as real < DOUBLE_LOW {
      Closer(n as real, DOUBLE_LOW, 2.0);
      WholeIsDouble(2 * n);
    }
  }

  /** Hundredths of at most 27 digits are decimals. */
  lemma {:induction false} WholeIsDecimal(n: nat)
    requires n as real < 10.0 * DECIMAL_LOW
    ensures Decimal(n as real) == n as real
    decreases 10000000000000000000000000000 - n
  {
    if 0.0 < n as real < DECIMAL_LOW {
      Closer(n as real, DECIMAL_LOW, 10.0);
      WholeIsDecimal(10 * n);
    }
  }

  lemma {:induction false} HundredthsAreDecimal(n: nat)
    requires n as real < DECIMAL_LOW
    ensures Decimal(n as real / 100.0) == n as real / 100.0
  {
    var x := n as real / 100.0;
    WholeIsDecimal(n);
    if n != 0 {
      Closer(x, DECIMAL_LOW, 10.0);
      Closer(10.0 * x, DECIMAL_LOW, 10.0);
      assert Decimal(10.0 * x) == Decimal(100.0 * x) / 10.0;
    }
  }

  // ----- evaluating ---------------------------------------------------------

  function Two(k: nat): real {
    if k == 0 then 1.0 else 2.0 * Two(k - 1)
  }

  /** A value k doublings below the range; z is the value scaled up. */
  lemma {:induction false} DoubleOf(x: real, k: nat, z: real)
    requires x > 0.0 && z == x * Two(k) && DOUBLE_LOW <= z < 2.0 * DOUBLE_LOW
    ensures Double(x) * Two(k) == HalfEven(z) as real
    decreases k
  {
    hide Double, HalfEven;
    if k == 0 {
      assert z == x && Double(x) * Two(k) == Double(x);
      InRange(x);
    } else {
      AtLeastOne(k - 1);
      MoveTwo(x, Two(k - 1), Two(k));
      BelowRange(x, Two(k - 1));
      OneDoubling(x);
      DoubleOf(2.0 * x, k - 1, z);
      MoveTwo(Double(x), Two(k - 1), Two(k));
      SameFactor(2.0 * Double(x), Double(2.0 * x), Two(k - 1));
    }
  }

  lemma InRange(x: real)
    requires DOUBLE_LOW <= x < 2.0 * DOUBLE_LOW
    ensures Double(x) == HalfEven(x) as real
  {
  }

  lemma OneDoubling(x: real)
    requires 0.0 < x < DOUBLE_LOW
    ensures 2.0 * Double(x) == Double(2.0 * x)
  {
    Closer(x, DOUBLE_LOW, 2.0);
  }

  lemma SameFactor(a: real, b: real, p: real)
    requires a == b
    ensures a * p == b * p
  {
  }

  lemma MoveTwo(x: real, p: real, q: real)
    requires q == 2.0 * p
    ensures x * q == (2.0 * x) * p
  {
  }

  lemma BelowRange(x: real, p: real)
    requires x > 0.0 && p >= 1.0 && (2.0 * x) * p < 2.0 * DOUBLE_LOW
    ensures x < DOUBLE_LOW
  {
    Times(p - 1.0, 2.0 * x);
    assert (p - 1.0) * (2.0 * x) == (2.0 * x) * p - 2.0 * x;
  }

  lemma {:induction false} AtLeastOne(k: nat)
    ensures Two(k) >= 1.0
  {
    if k > 0 { AtLeastOne(k - 1); }
  }

  function Ten(k: nat): real {
    if k == 0 then 1.0 else 10.0 * Ten(k - 1)
  }

  /** What a decimal is: scaled up to 28 digits, the value rounded to a whole number, a tie to the even one. */
  lemma {:induction false} DecimalOf(x: real, k: nat, z: real)
    requires x > 0.0 && z == x * Ten(k) && DECIMAL_LOW <= z < 10.0 * DECIMAL_LOW
    ensures Decimal(x) * Ten(k) == HalfEven(z) as real
    decreases k
  {
    hide Decimal, HalfEven;
    if k == 0 {
      assert z == x && Decimal(x) * Ten(k) == Decimal(x);
      InDecimalRange(x);
    } else {
      TenIsAtLeastOne(k - 1);
      MoveTen(x, Ten(k - 1), Ten(k));
      BelowDecimalRange(x, Ten(k - 1));
      OneTenfold(x);
      DecimalOf(10.0 * x, k - 1, z);
      MoveTen(Decimal(x), Ten(k - 1), Ten(k));
      SameFactor(10.0 * Decimal(x), Decimal(10.0 * x), Ten(k - 1));
    }
  }

  lemma InDecimalRange(x: real)
    requires DECIMAL_LOW <= x < 10.0 * DECIMAL_LOW
    ensures Decimal(x) == HalfEven(x) as real
  {
  }

  lemma OneTenfold(x: real)
    requires 0.0 < x < DECIMAL_LOW
    ensures 10.0 * Decimal(x) == Decimal(10.0 * x)
  {
    Closer(x, DECIMAL_LOW, 10.0);
  }

  lemma MoveTen(x: real, p: real, q: real)
    requires q == 10.0 * p
    ensures x * q == (10.0 * x) * p
  {
  }

  lemma BelowDecimalRange(x: real, p: real)
    requires x > 0.0 && p >= 1.0 && (10.0 * x) * p < 10.0 * DECIMAL_LOW
    ensures x < DECIMAL_LOW
  {
    Times(p - 1.0, 10.0 * x);
    assert (p - 1.0) * (10.0 * x) == (10.0 * x) * p - 10.0 * x;
  }

  lemma {:induction false} TenIsAtLeastOne(k: nat)
    ensures Ten(k) >= 1.0
  {
    if k > 0 { TenIsAtLeastOne(k - 1); }
  }

  // ----- percentages --------------------------------------------------------

  /** float(Decimal(t) / 100) * 100. */
  function Percent(t: nat): real {
    Double(Double(t as real / 100.0) * 100.0)
  }

  // The percentages whose double falls just short of them.
  const SHORT: set<nat> := {29, 57, 58, 113, 114, 115, 116}

  lemma Powers()
    ensures Two(45) == 35184372088832.0 && Two(46) == 2.0 * Two(45) && Two(47) == 4.0 * Two(45)
    ensures Two(48) == 8.0 * Two(45) && Two(49) == 16.0 * Two(45) && Two(50) == 32.0 * Two(45)
    ensures Two(51) == 64.0 * Two(45) && Two(52) == 128.0 * Two(45) && Two(53) == 256.0 * Two(45)
    ensures Two(54) == 512.0 * Two(45) && Two(55) == 1024.0 * Two(45) && Two(56) == 2048.0 * Two(45)
    ensures Two(57) == 4096.0 * Two(45) && Two(58) == 8192.0 * Two(45) && Two(59) == 16384.0 * Two(45)
  {
    assert Two(15) == 32768.0;
    assert Two(30) == 32768.0 * 32768.0;
    assert Two(45) == 32768.0 * 32768.0 * 32768.0;
    assert Two(50) == 32.0 * Two(45);
    assert Two(55) == 32.0 * Two(50);
  }

  /** What the first rounding adds to 100 times its significand. */
  function Excess(t: int, scale: int): int {
    100 * HalfEven(t as real / 100.0 * scale as real) - t * scale
  }

  lemma ExcessIsSmall(t: int, scale: int)
    ensures -50 <= Excess(t, scale) <= 50
  {
    var x := t as real / 100.0 * scale as real;
    assert x * 100.0 == (t * scale) as real by { assert t as real * scale as real == (t * scale) as real; }
  }

  function Part(e: int, s: int): real {
    if s == 64 then e as real / 64.0 else e as real / 128.0
  }

  /** The second rounding falls short exactly when the first lost more than half a unit. Here sx is the
      quotient scaled up, and tu the percentage in units of the last place. */
  lemma ShortIff(t: nat, k: nat, scale: int, j: nat, unit: int, s: int, sx: real, tu: real)
    requires Two(k) == scale as real && Two(j) == unit as real && (s == 64 || s == 128) && scale == s * unit
    requires t > 0 && unit > 0 && unit % 2 == 0
    requires sx == t as real / 100.0 * scale as real && tu == t as real * unit as real
    requires DOUBLE_LOW <= sx < 2.0 * DOUBLE_LOW
    requires DOUBLE_LOW <= tu < 2.0 * DOUBLE_LOW - 1.0 && (tu >= DOUBLE_LOW + 1.0 || Excess(t, scale) >= 0)
    ensures Percent(t) < t as real <==> 2 * Excess(t, scale) < -s
  {
    hide *;
    var r, e := Double(t as real / 100.0), Excess(t, scale);
    ExcessIsSmall(t, scale);
    FirstRounding(t, k, scale, unit, s, sx, tu);
    SecondRounding(r * 100.0, j, unit as real, tu, e, s);
    PercentIs(t);
    ShortOfEven(t, unit, e, s, tu);
    FallsShort(Percent(t), t as real, unit as real, HalfEven(tu + Part(e, s)), tu);
  }

  lemma FirstRounding(t: nat, k: nat, scale: int, unit: int, s: int, sx: real, tu: real)
    requires Two(k) == scale as real && (s == 64 || s == 128) && scale == s * unit && t > 0
    requires sx == t as real / 100.0 * scale as real && tu == t as real * unit as real
    requires DOUBLE_LOW <= sx < 2.0 * DOUBLE_LOW
    ensures (Double(t as real / 100.0) * 100.0) * unit as real == tu + Part(Excess(t, scale), s)
  {
    hide *;
    DoubleOf(t as real / 100.0, k, sx);
    ExcessIs(t, scale, sx);
    SecondScale(Double(t as real / 100.0), HalfEven(sx), t, scale, unit, s, tu);
  }

  lemma FallsShort(p: real, t: real, unit: real, h: int, tu: real)
    requires unit > 0.0 && p * unit == h as real && tu == t * unit
    ensures p < t <==> (h as real) < tu
  {
    Scaled(p, t, unit);
  }

  lemma SecondRounding(y: real, j: nat, unit: real, b: real, e: int, s: int)
    requires Two(j) == unit && unit > 0.0 && (s == 64 || s == 128) && -50 <= e <= 50 && y >= 0.0
    requires y * unit == b + Part(e, s)
    requires DOUBLE_LOW <= b < 2.0 * DOUBLE_LOW - 1.0 && (b >= DOUBLE_LOW + 1.0 || e >= 0)
    ensures Double(y) * unit == HalfEven(b + Part(e, s)) as real
  {
    hide HalfEven, Double, Two;
    PositiveFactor(y, unit);
    DoubleOf(y, j, b + Part(e, s));
  }

  lemma WholeProduct(a: int, b: int)
    ensures a as real * b as real == (a * b) as real
  {
  }

  lemma ExcessIs(t: int, scale: int, sx: real)
    requires sx == t as real / 100.0 * scale as real
    ensures Excess(t, scale) == 100 * HalfEven(sx) - t * scale
  {
  }

  lemma PercentIs(t: nat)
    ensures Percent(t) == Double(Double(t as real / 100.0) * 100.0)
  {
  }

  lemma SecondScale(r: real, m: int, t: int, scale: int, unit: int, s: int, tu: real)
    requires (s == 64 || s == 128) && scale == s * unit && r * scale as real == m as real
    requires tu == t as real * unit as real
    ensures (r * 100.0) * unit as real == tu + Part(100 * m - t * scale, s)
  {
    var ru := r * unit as real;
    assert (r * 100.0) * unit as real == 100.0 * ru;
    assert r * (s * unit) as real == s as real * ru;
    WholeProduct(t, unit);
    assert t * scale == s * (t * unit);
  }

  lemma PositiveFactor(y: real, unit: real)
    requires y >= 0.0 && y * unit > 0.0
    ensures y > 0.0
  {
  }

  lemma ShortOfEven(t: int, unit: int, e: int, s: int, tu: real)
    requires unit % 2 == 0 && -50 <= e <= 50 && (s == 64 || s == 128) && tu == t as real * unit as real
    ensures (HalfEven(tu + Part(e, s)) as real) < tu <==> 2 * e < -s
  {
    var b := t * (unit / 2) * 2;
    assert b == t * unit;
    WholeProduct(t, unit);
    NearEven(b, e, s);
  }

  lemma NearEven(b: int, e: int, s: int)
    requires b % 2 == 0 && -50 <= e <= 50 && (s == 64 || s == 128)
    ensures HalfEven(b as real + Part(e, s)) < b <==> 2 * e < -s
  {
  }

  lemma Scaled(a: real, b: real, c: real)
    requires c > 0.0
    ensures a < b <==> a * c < b * c
  {
    Times(b - a, c);
    Times(a - b, c);
    assert (b - a) * c == b * c - a * c && (a - b) * c == a * c - b * c;
  }

  /** Only the last two digits of the scale matter. */
  lemma Residue(t: int, scale: int, q: int, c: int) returns (u: int)
    requires scale == 100 * q + c
    ensures 100 * u == t * c + Excess(t, scale) && -50 <= Excess(t, scale) <= 50
  {
    var m := HalfEven(t as real / 100.0 * scale as real);
    ExcessIsSmall(t, scale);
    u := m - t * q;
    assert t * scale == 100 * (t * q) + t * c;
  }

  /** The same with both ranges in whole numbers; q and c are the digits of the scale. */
  lemma InBand(t: nat, k: nat, scale: int, q: int, c: int, j: nat, unit: int, s: int) returns (u: int, e: int)
    requires Two(k) == scale as real && Two(j) == unit as real && (s == 64 || s == 128) && scale == s * unit
    requires t > 0 && unit > 0 && unit % 2 == 0 && scale == 100 * q + c
    requires 450359962737049600 <= t * scale < 900719925474099200
    requires 4503599627370496 <= t * unit < 9007199254740991
    requires t * unit == 4503599627370496 ==> t * c % 100 == 88
    ensures 100 * u == t * c + e && -50 <= e <= 50
    ensures Percent(t) < t as real <==> 2 * e < -s
  {
    hide Two, Percent, HalfEven, Double, Excess;
    u := Residue(t, scale, q, c);
    e := Excess(t, scale);
    WholeProduct(t, scale);
    WholeProduct(t, unit);
    ShortIff(t, k, scale, j, unit, s, t as real / 100.0 * scale as real, t as real * unit as real);
  }

  lemma From1(t: nat)
    requires 1 <= t <= 1
    ensures Percent(t) < t as real <==> t in SHORT
  {
    Powers();
    hide Double, Two, Percent, HalfEven, Excess;
    var u, e := InBand(t, 59, 576460752303423488, 5764607523034234, 88, 52, 4503599627370496, 128);
  }

  lemma From2(t: nat)
    requires 2 <= t <= 3
    ensures Percent(t) < t as real <==> t in SHORT
  {
    Powers();
    hide Double, Two, Percent, HalfEven, Excess;
    var u, e := InBand(t, 58, 288230376151711744, 2882303761517117, 44, 51, 2251799813685248, 128);
  }

  lemma From4(t: nat)
    requires 4 <= t <= 6
    ensures Percent(t) < t as real <==> t in SHORT
  {
    Powers();
    hide Double, Two, Percent, HalfEven, Excess;
    var u, e := InBand(t, 57, 144115188075855872, 1441151880758558, 72, 50, 1125899906842624, 128);
  }

  lemma From7(t: nat)
    requires 7 <= t <= 7
    ensures Percent(t) < t as real <==> t in SHORT
  {
    Powers();
    hide Double, Two, Percent, HalfEven, Excess;
    var u, e := InBand(t, 56, 72057594037927936, 720575940379279, 36, 50, 1125899906842624, 64);
  }

  lemma From8(t: nat)
    requires 8 <= t <= 12
    ensures Percent(t) < t as real <==> t in SHORT
  {
    Powers();
    hide Double, Two, Percent, HalfEven, Excess;
    var u, e := InBand(t, 56, 72057594037927936, 720575940379279, 36, 49, 562949953421312, 128);
  }

  lemma From13(t: nat)
    requires 13 <= t <= 15
    ensures Percent(t) < t as real <==> t in SHORT
  {
    Powers();
    hide Double, Two, Percent, HalfEven, Excess;
    var u, e := InBand(t, 55, 36028797018963968, 360287970189639, 68, 49, 562949953421312, 64);
  }

  lemma From16(t: nat)
    requires 16 <= t <= 24
    ensures Percent(t) < t as real <==> t in SHORT
  {
    Powers();
    hide Double, Two, Percent, HalfEven, Excess;
    var u, e := InBand(t, 55, 36028797018963968, 360287970189639, 68, 48, 281474976710656, 128);
  }

  lemma From25(t: nat)
    requires 25 <= t <= 31
    ensures Percent(t) < t as real <==> t in SHORT
  {
    Powers();
    hide Double, Two, Percent, HalfEven, Excess;
    var u, e := InBand(t, 54, 18014398509481984, 180143985094819, 84, 48, 281474976710656, 64);
  }

  lemma From32(t: nat)
    requires 32 <= t <= 49
    ensures Percent(t) < t as real <==> t in SHORT
  {
    Powers();
    hide Double, Two, Percent, HalfEven, Excess;
    var u, e := InBand(t, 54, 18014398509481984, 180143985094819, 84, 47, 140737488355328, 128);
  }

  lemma From50(t: nat)
    requires 50 <= t <= 63
    ensures Percent(t) < t as real <==> t in SHORT
  {
    Powers();
    hide Double, Two, Percent, HalfEven, Excess;
    var u, e := InBand(t, 53, 9007199254740992, 90071992547409, 92, 47, 140737488355328, 64);
  }

  lemma From64(t: nat)
    requires 64 <= t <= 99
    ensures Percent(t) < t as real <==> t in SHORT
  {
    Powers();
    hide Double, Two, Percent, HalfEven, Excess;
    var u, e := InBand(t, 53, 9007199254740992, 90071992547409, 92, 46, 70368744177664, 128);
  }

  lemma From100(t: nat)
    requires 100 <= t <= 112
    ensures Percent(t) < t as real <==> t in SHORT
  {
    Powers();
    hide Double, Two, Percent, HalfEven, Excess;
    var u, e := InBand(t, 52, 4503599627370496, 45035996273704, 96, 46, 70368744177664, 64);
  }

  lemma From113(t: nat)
    requires 113 <= t <= 127
    ensures Percent(t) < t as real <==> t in SHORT
  {
    Powers();
    hide Double, Two, Percent, HalfEven, Excess;
    var u, e := InBand(t, 52, 4503599627370496, 45035996273704, 96, 46, 70368744177664, 64);
  }

  lemma From128(t: nat)
    requires 128 <= t <= 199
    ensures Percent(t) < t as real <==> t in SHORT
  {
    Powers();
    hide Double, Two, Percent, HalfEven, Excess;
    var u, e := InBand(t, 52, 4503599627370496, 45035996273704, 96, 45, 35184372088832, 128);
  }

  lemma From200(t: nat)
    requires 200 <= t <= 200
    ensures Percent(t) < t as real <==> t in SHORT
  {
    Powers();
    hide Double, Two, Percent, HalfEven, Excess;
    var u, e := InBand(t, 51, 2251799813685248, 22517998136852, 48, 45, 35184372088832, 64);
  }

  /** Of the percentages from 1 to 200 exactly seven fall short when divided and multiplied by 100 in
      double precision. */
  lemma {:induction false} PercentFallsShortIff(t: nat)
    requires 1 <= t <= 200
    ensures Percent(t) < t as real <==> t in SHORT
  {
    hide Percent;
    if t <= 1 { From1(t); } else if t <= 3 { From2(t); } else if t <= 6 { From4(t); }
    else if t <= 7 { From7(t); } else if t <= 12 { From8(t); } else if t <= 15 { From13(t); }
    else if t <= 24 { From16(t); } else if t <= 31 { From25(t); } else if t <= 49 { From32(t); }
    else if t <= 63 { From50(t); } else if t <= 99 { From64(t); } else if t <= 112 { From100(t); }
    else if t <= 127 { From113(t); } else if t <= 199 { From128(t); } else { From200(t); }
  }

  // ----- quotients ----------------------------------------------------------

  function Over(a: real, b: real): (q: real)
    requires a >= 0.0 && b > 0.0
    ensures q >= 0.0 && q * b == a
  {
    var q := a / b;
    Times(-q, b);
    q
  }

  /** n / d in decimals, then as a double: off by at most one part in 2^52. */
  lemma RatioIsNear(n: nat, d: nat)
    requires d > 0
    ensures
      var off := Double(Decimal(Over(n as real, d as real))) * d as real - n as real;
      -(n as real) <= DOUBLE_LOW * off <= n as real
  {
    hide Double, Decimal;
    var x := Over(n as real, d as real);
    var r := RoundedRatioIsNear(x);
    ScaledRatio(r, x, d as real, n as real);
  }

  lemma ScaledRatio(r: real, x: real, d: real, n: real)
    requires d > 0.0 && x * d == n && -x <= DOUBLE_LOW * (r - x) <= x
    ensures -n <= DOUBLE_LOW * (r * d - n) <= n
  {
    var off := r - x;
    assert off * d == r * d - n;
    Stretch(DOUBLE_LOW * off, x, d);
    assert (DOUBLE_LOW * off) * d == DOUBLE_LOW * (off * d);
  }

  lemma RoundedRatioIsNear(x: real) returns (r: real)
    requires x >= 0.0
    ensures r == Double(Decimal(x)) && -x <= DOUBLE_LOW * (r - x) <= x
  {
    hide Double, Decimal;
    r := Double(Decimal(x));
    DecimalIsNear(x);
    DoubleIsNear(Decimal(x));
  }

  /** A bound survives a scale. */
  lemma Stretch(off: real, bound: real, scale: real)
    requires -bound <= off <= bound && scale >= 0.0
    ensures -(bound * scale) <= off * scale <= bound * scale
  {
    Times(bound - off, scale);
    Times(bound + off, scale);
    assert (bound - off) * scale == bound * scale - off * scale;
    assert (bound + off) * scale == bound * scale + off * scale;
  }

  /** float(n / d) * 100. */
  function PercentOf(n: nat, d: nat): real
    requires d > 0
  {
    Double(Double(Decimal(Over(n as real, d as real))) * 100.0)
  }

  /** A percentage is off by at most one part in 2^51. */
  lemma PercentIsNear(n: nat, d: nat)
    requires d > 0
    ensures
      var off := PercentOf(n, d) * d as real - 100.0 * n as real;
      -100.0 * n as real <= DOUBLE_LOW / 2.0 * off <= 100.0 * n as real
  {
    hide Double, Decimal;
    var x := Over(n as real, d as real);
    RoundedPercentIsNear(x);
    hide PercentOf;
    ScaledPercent(PercentOf(n, d), x, d as real, n as real);
  }

  lemma RoundedPercentIsNear(x: real)
    requires x >= 0.0
    ensures -200.0 * x <= DOUBLE_LOW * (Double(Double(Decimal(x)) * 100.0) - 100.0 * x) <= 200.0 * x
  {
    hide Double, Decimal;
    var r := RoundedRatioIsNear(x);
    DoubleIsNear(r * 100.0);
  }

  lemma ScaledPercent(p: real, x: real, d: real, n: real)
    requires d > 0.0 && x * d == n && -200.0 * x <= DOUBLE_LOW * (p - 100.0 * x) <= 200.0 * x
    ensures -100.0 * n <= DOUBLE_LOW / 2.0 * (p * d - 100.0 * n) <= 100.0 * n
  {
    var off := p - 100.0 * x;
    assert off * d == p * d - 100.0 * n;
    Stretch(DOUBLE_LOW * off, 200.0 * x, d);
    assert (DOUBLE_LOW * off) * d == DOUBLE_LOW * (off * d);
    assert (200.0 * x) * d == 200.0 * n;
  }

  /** Comparing the rounded percentage with a whole one is exact, unless the two are equal: then the
      percentage's own rounding decides. */
  lemma {:induction false} PercentReaches(n: nat, d: nat, t: nat)
    requires d > 0 && t * d <= 2000000000000000
    ensures PercentOf(n, d) >= t as real
      <==> 100 * n > t * d || (100 * n == t * d && Percent(t) >= t as real)
  {
    hide PercentOf, Percent;
    if 100 * n == t * d {
      EqualPercent(n, d, t);
    } else {
      PercentIsNear(n, d);
      WholeProduct(t, d);
      FallsShortOfProduct(PercentOf(n, d), t as real, d as real);
      GapExceedsError(PercentOf(n, d) * d as real, n, t * d);
    }
  }

  /** A gap of one hundredth part of a cent is wider than the rounding error. */
  lemma GapExceedsError(p: real, n: int, reach: int)
    requires 0 <= n && 0 <= reach <= 2000000000000000 && 100 * n != reach
    requires -100.0 * n as real <= DOUBLE_LOW / 2.0 * (p - 100.0 * n as real) <= 100.0 * n as real
    ensures p >= reach as real <==> 100 * n > reach
  {
    assert 100 * n > reach ==> 100 * n >= reach + 1;
  }

  lemma FallsShortOfProduct(p: real, t: real, d: real)
    requires d > 0.0
    ensures p >= t <==> p * d >= t * d
  {
    Scaled(p, t, d);
  }

  lemma EqualPercent(n: nat, d: nat, t: nat)
    requires d > 0 && 100 * n == t * d && t * d <= 2000000000000000
    ensures PercentOf(n, d) == Percent(t)
  {
    hide Double, Decimal;
    WholeProduct(t, d);
    assert (t as real / 100.0) * d as real == n as real;
    Divides(t as real / 100.0, d as real, n as real);
    assert Over(n as real, d as real) == t as real / 100.0;
    AtMostProduct(t, d);
    HundredthsAreDecimal(t);
  }

  lemma AtMostProduct(t: nat, d: nat)
    requires d > 0
    ensures t <= t * d
  {
  }

  /** n / 100 and r / 100 as doubles, divided in doubles. */
  function Quotient(n: nat, r: nat): (z: real)
    requires r > 0
    ensures z >= 0.0
  {
    hide Double;
    DoubleIsNear(r as real / 100.0);
    Double(Over(Double(n as real / 100.0), Double(r as real / 100.0)))
  }

  /** A quotient is off by at most one part in 2^51. */
  lemma QuotientIsNear(n: nat, r: nat)
    requires r > 0
    ensures
      var off := Quotient(n, r) * r as real - n as real;
      -(n as real) <= DOUBLE_LOW / 2.0 * off <= n as real
  {
    hide Double;
    var a, b := Double(n as real / 100.0), Double(r as real / 100.0);
    DoubleIsNear(n as real / 100.0);
    DoubleIsNear(r as real / 100.0);
    var q, z := Over(a, b), Quotient(n, r);
    DoubleIsNear(q);
    hide *;
    QuotientSteps(z, q, a, b, n as real, r as real);
  }

  lemma QuotientSteps(z: real, q: real, a: real, b: real, n: real, r: real)
    requires z >= 0.0 && b > 0.0 && q * b == a && -q <= 2.0 * DOUBLE_LOW * (z - q) <= q
    requires -n / 100.0 <= 2.0 * DOUBLE_LOW * (a - n / 100.0) <= n / 100.0
    requires -r / 100.0 <= 2.0 * DOUBLE_LOW * (b - r / 100.0) <= r / 100.0
    ensures -n <= DOUBLE_LOW / 2.0 * (z * r - n) <= n
  {
    AgainstTheDividend(z, q, b, a);
    AgainstTheDivisor(z, b, r);
    ThreeRoundings(z * b, a, z * r, n);
  }

  lemma AgainstTheDividend(z: real, q: real, b: real, a: real)
    requires b > 0.0 && q * b == a && -q <= 2.0 * DOUBLE_LOW * (z - q) <= q
    ensures -a <= 2.0 * DOUBLE_LOW * (z * b - a) <= a
  {
    Stretch(2.0 * DOUBLE_LOW * (z - q), q, b);
    assert (2.0 * DOUBLE_LOW * (z - q)) * b == 2.0 * DOUBLE_LOW * (z * b - q * b);
  }

  lemma AgainstTheDivisor(z: real, b: real, r: real)
    requires z >= 0.0 && -r / 100.0 <= 2.0 * DOUBLE_LOW * (b - r / 100.0) <= r / 100.0
    ensures -(z * r) <= 2.0 * DOUBLE_LOW * (100.0 * (z * b) - z * r) <= z * r
  {
    Stretch(2.0 * DOUBLE_LOW * (100.0 * b - r), r, z);
    assert (2.0 * DOUBLE_LOW * (100.0 * b - r)) * z == 2.0 * DOUBLE_LOW * (100.0 * (z * b) - z * r);
  }

  lemma ThreeRoundings(zb: real, a: real, w: real, n: real)
    requires -a <= 2.0 * DOUBLE_LOW * (zb - a) <= a
    requires -w <= 2.0 * DOUBLE_LOW * (100.0 * zb - w) <= w
    requires -n / 100.0 <= 2.0 * DOUBLE_LOW * (a - n / 100.0) <= n / 100.0
    ensures -n <= DOUBLE_LOW / 2.0 * (w - n) <= n
  {
  }

  /** 0.30 / 0.10 is the double just below 3. */
  lemma ThirtyOverTen()
    ensures Quotient(30, 10) < 3.0
  {
    hide Double, Two;
    Powers();
    DoubleOf(0.3, 54, 5404319552844595.2);
    DoubleOf(0.1, 56, 7205759403792793.6);
    var a, b := Double(0.3), Double(0.1);
    var q := Over(a, b);
    assert q == 21617278211378380.0 / 7205759403792794.0 by {
      Divides(21617278211378380.0 / 7205759403792794.0, b, a);
    }
    DoubleOf(q, 51, q * 2251799813685248.0);
  }
}
