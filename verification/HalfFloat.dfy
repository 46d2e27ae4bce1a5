/**
 Half precision floats: a variant of binary16 (section 3.4 of IEEE 754-2008) in which exponent 31
 is an ordinary exponent and only the magnitude bits 0x7fff are special.

 A single precision number is a sign and a real magnitude. All float operations of the encoder are
 exact on single precision numbers (scaling by powers of two, subtracting the integer part), so the
 results hold for them as for every real.
 */
module HalfFloat {

  datatype Float = Finite(negative: bool, magnitude: real) | Infinite(negative: bool) | NotANumber(negative: bool)

  const SIGN := 0x8000
  const SPECIAL := 0x7fff
  const UNITS := 16777216.0  // 2 to the power of 24: the smallest positive half is one unit

  // ---------- powers of two, rounding ----------

  function Pow2(k: int): (p: real)
    ensures p > 0.0
    decreases if k < 0 then -k else k
  {
    if k == 0 then 1.0 else if k > 0 then 2.0 * Pow2(k - 1) else Pow2(k + 1) / 2.0
  }

  lemma Pow2Next(k: int)
    ensures Pow2(k + 1) == 2.0 * Pow2(k)
  {
  }

  function Shift(k: nat): (p: int)
    ensures p > 0
  {
    if k == 0 then 1 else 2 * Shift(k - 1)
  }

  lemma {:induction false} ShiftIsPow2(k: nat)
    ensures Shift(k) as real * Pow2(0 - k) == 1.0
  {
    if k > 0 {
      ShiftIsPow2(k - 1);
      Pow2Next(0 - k);
      assert Shift(k) as real == 2.0 * Shift(k - 1) as real;
      Twice(Shift(k - 1) as real, Pow2(0 - k));
    }
  }

  lemma Twice(a: real, b: real)
    ensures (2.0 * a) * b == a * (2.0 * b)
  {
  }

  /** roundTiesToEven, section 4.3.1 of IEEE 754-2008. */
  function RoundHalfEven(y: real): int {
    var a := y.Floor;
    var rest := y - a as real;
    if rest > 0.5 || (rest == 0.5 && a % 2 == 1) then a + 1 else a
  }

  // ---------- values and codes in units of the smallest half ----------

  /** The value of magnitude bits `c`, in units. */
  function Units(c: nat): nat {
    if c < 2048 then c else 2 * Units(c - 1024)
  }

  /** Subnormal magnitudes are cut to 13 extra bits before they are rounded. */
  function RoundSubnormal(y: real): int {
    RoundHalfEven((y * 8192.0).Floor as real / 8192.0)
  }

  /** The magnitude bits for `y` units, were there no largest half. */
  function Code(y: real): (c: nat)
    requires y >= 0.0
    ensures y < 1024.0 ==> c <= 1024
    ensures 1024.0 <= y < 2048.0 ==> 1024 <= c <= 2048
    ensures y >= 2048.0 ==> c >= 2048
    decreases y.Floor
  {
    if y < 1024.0 then RoundSubnormal(y) else if y < 2048.0 then RoundHalfEven(y) else 1024 + Code(y / 2.0)
  }

  function Encode(f: Float): (code: nat)
    requires f.Finite? ==> f.magnitude >= 0.0
    ensures code < 0x10000
  {
    (if f.negative then SIGN else 0) +
    match f
    case Finite(_, x) => if Code(x * UNITS) > SPECIAL then SPECIAL else Code(x * UNITS)
    case Infinite(_) => SPECIAL
    case NotANumber(_) => SPECIAL
  }

  // ---------- the decoder ----------

  function Float16To32(code: nat): (f: Float)
    requires code < 0x10000
  {
    var negative := code >= SIGN;
    var e := code / 1024 % 32;
    var m := code % 1024;
    if code % SIGN == SPECIAL then
      NotANumber(negative)
    else if e == 0 then
      if m == 0 then Finite(negative, 0.0) else Finite(negative, Pow2(-14) * (m as real / 1024.0))
    else
      Finite(negative, Pow2(e - 15) * (1.0 + m as real / 1024.0))
  }

  /** Infinity and not-a-number have the special codes, which decode to not-a-number. */
  lemma Specials(f: Float)
    requires !f.Finite?
    ensures Encode(f) == if f.negative then 0xffff else 0x7fff
    ensures Float16To32(Encode(f)) == NotANumber(f.negative)
  {
  }

  lemma {:induction false} UnitsOf(c: nat)
    requires 1024 <= c
    ensures Units(c) as real == (1024 + c % 1024) as real * Pow2(c / 1024 - 1)
  {
    if c < 2048 {
      assert Pow2(0) == 1.0;
    } else {
      UnitsOf(c - 1024);
      Pow2Next(c / 1024 - 2);
      Twice(1024.0, Pow2(c / 1024 - 2));
      Twice((c % 1024) as real, Pow2(c / 1024 - 2));
    }
  }

  lemma {:induction false} Pow2Units(k: int)
    requires 0 <= k
    ensures Pow2(k - 24) * UNITS == Pow2(k)
  {
    if k > 0 {
      Pow2Units(k - 1);
      Pow2Next(k - 25);
      Pow2Next(k - 1);
    } else {
      assert Pow2(-24) * UNITS == 1.0 by {
        assert Pow2(-6) == 1.0 / 64.0;
        assert Pow2(-12) == Pow2(-6) / 64.0;
        assert Pow2(-18) == Pow2(-12) / 64.0;
        assert Pow2(-24) == Pow2(-18) / 64.0;
      }
    }
  }

  lemma SubnormalScale()
    ensures Pow2(-14) * UNITS == 1024.0
  {
    Pow2Units(10);
    assert Pow2(10) == 1024.0 by { assert Pow2(5) == 32.0; }
  }

  lemma NormalScale(e: nat)
    requires e > 0
    ensures Pow2(e - 15) * UNITS == 1024.0 * Pow2(e - 1)
  {
    Pow2Units(e + 9);
    TenMore(e - 1);
  }

  lemma Bits(code: nat)
    requires code < 0x10000
    ensures code % 1024 == code % SIGN % 1024 && code / 1024 % 32 == code % SIGN / 1024
  {
    if code >= SIGN {
      var c := code - SIGN;
      assert code % SIGN == c && code / 1024 == 32 + c / 1024 && c / 1024 < 32;
    } else {
      assert code % SIGN == code && code / 1024 < 32;
    }
  }

  /** What the decoder answers is `Units` of the magnitude bits. */
  lemma DecodedUnits(code: nat)
    requires code < 0x10000 && code % SIGN != SPECIAL
    ensures Float16To32(code).Finite?
    ensures Float16To32(code).negative == (code >= SIGN)
    ensures Float16To32(code).magnitude * UNITS == Units(code % SIGN) as real
  {
    hide Pow2, Units;
    var c := code % SIGN;
    var m := c % 1024;
    var e := c / 1024;
    Bits(code);
    if e == 0 {
      UnitsStart(c);
      SubnormalScale();
      Scaled(Pow2(-14), m as real / 1024.0, 1024.0);
      Whole(m as real);
    } else {
      UnitsOf(c);
      NormalScale(e);
      Scaled(Pow2(e - 15), 1.0 + m as real / 1024.0, 1024.0 * Pow2(e - 1));
      Thousand(Pow2(e - 1), m as real);
    }
  }

  lemma ValueOf(code: nat, magnitude: real)
    requires code < 0x10000 && code % SIGN != SPECIAL && Units(code % SIGN) as real == magnitude * UNITS
    ensures Float16To32(code) == Finite(code >= SIGN, magnitude)
  {
    hide Float16To32, Units;
    DecodedUnits(code);
  }

  lemma PowersUpTo30()
    ensures Pow2(14) == 16384.0 && Pow2(15) == 32768.0 && Pow2(29) == 536870912.0 && Pow2(30) == 1073741824.0
  {
    assert Pow2(7) == 128.0;
    assert Pow2(14) == 128.0 * Pow2(7);
    assert Pow2(21) == 128.0 * Pow2(14);
    assert Pow2(28) == 128.0 * Pow2(21);
  }

  /** Zeros and the smallest half. */
  lemma DecodedSmall()
    ensures Float16To32(0x0000) == Finite(false, 0.0) && Float16To32(0x8000) == Finite(true, 0.0)
    ensures Float16To32(0x0001) == Finite(false, 1.0 / 16777216.0)
  {
    assert Units(0) == 0 && Units(1) == 1;
    hide Float16To32, Units;
    ValueOf(0x0000, 0.0);
    ValueOf(0x8000, 0.0);
    ValueOf(0x0001, 1.0 / 16777216.0);
  }

  lemma SignBit(c: nat)
    requires c < SIGN
    ensures c % SIGN == c && (c + SIGN) % SIGN == c && c + SIGN < 0x10000
  {
  }

  lemma DecodedNormal(c: nat, m: real)
    requires c < SPECIAL && Units(c) as real == m * UNITS
    ensures Float16To32(c) == Finite(false, m) && Float16To32(c + SIGN) == Finite(true, m)
  {
    hide Float16To32, Units;
    SignBit(c);
    ValueOf(c, m);
    ValueOf(c + SIGN, m);
  }

  /** One and two, the largest finite half of section 3.6 of IEEE 754-2008, and the next. */
  lemma DecodedValues()
    ensures Float16To32(0x3c00) == Finite(false, 1.0) && Float16To32(0xc000) == Finite(true, 2.0)
    ensures Float16To32(0x7bff) == Finite(false, 65504.0) && Float16To32(0x7c00) == Finite(false, 65536.0)
  {
    hide Float16To32, Pow2, Units;
    PowersUpTo30();
    UnitsOf(0x3c00);
    UnitsOf(0x4000);
    UnitsOf(0x7bff);
    UnitsOf(0x7c00);
    DecodedNormal(0x3c00, 1.0);
    DecodedNormal(0x4000, 2.0);
    DecodedNormal(0x7bff, 65504.0);
    DecodedNormal(0x7c00, 65536.0);
  }

  lemma UnitsStart(c: nat)
    requires c < 1024
    ensures Units(c) == c
  {
  }

  lemma Whole(m: real)
    ensures 1024.0 * (m / 1024.0) == m
  {
  }

  lemma TenMore(k: int)
    ensures Pow2(k + 10) == 1024.0 * Pow2(k)
  {
    Pow2Next(k); Pow2Next(k + 1); Pow2Next(k + 2); Pow2Next(k + 3); Pow2Next(k + 4);
    Pow2Next(k + 5); Pow2Next(k + 6); Pow2Next(k + 7); Pow2Next(k + 8); Pow2Next(k + 9);
  }

  lemma Scaled(p: real, f: real, q: real)
    requires p * UNITS == q
    ensures (p * f) * UNITS == q * f
  {
    assert (p * f) * UNITS == (p * UNITS) * f;
  }

  lemma Thousand(p: real, m: real)
    ensures (1024.0 * p) * (1.0 + m / 1024.0) == (1024.0 + m) * p
  {
    var f := 1.0 + m / 1024.0;
    assert (1024.0 * p) * f == (1024.0 * f) * p;
  }

  // ---------- the encoder ----------

  /** One exponent up is 1024 codes up. */
  lemma {:induction false} CodeOfNormal(t: real, k: nat, y: real)
    requires 1024.0 <= t < 2048.0 && y == t * Pow2(k)
    ensures y >= 1024.0 && Code(y) == 1024 * k + RoundHalfEven(t)
  {
    hide RoundHalfEven, RoundSubnormal;
    if k == 0 {
      assert y == t by { assert Pow2(0) == 1.0; }
      CodeStart(t);
    } else {
      Halved(t, Pow2(k - 1), Pow2(k), y);
      CodeOfNormal(t, k - 1, y / 2.0);
      CodeDoubles(y / 2.0, y);
    }
  }

  lemma Halved(t: real, p: real, q: real, y: real)
    requires q == 2.0 * p && y == t * q
    ensures y / 2.0 == t * p
  {
    assert t * (2.0 * p) == 2.0 * (t * p);
  }

  lemma CodeStart(t: real)
    requires 1024.0 <= t < 2048.0
    ensures Code(t) == RoundHalfEven(t)
  {
    hide RoundHalfEven;
  }

  lemma CodeDoubles(x: real, y: real)
    requires x >= 1024.0 && y == 2.0 * x
    ensures Code(y) == 1024 + Code(x)
  {
    hide RoundHalfEven, RoundSubnormal;
    assert y / 2.0 == x;
  }

  lemma NormalCode(t: real, exp: int, y: real)
    requires 1024.0 <= t < 2048.0 && exp >= 1 && y == t * Pow2(exp - 1)
    ensures y >= 0.0 && Code(y) == 1024 * (exp - 1) + RoundHalfEven(t)
  {
    hide Pow2, Code, RoundHalfEven;
    var k: nat := exp - 1;
    CodeOfNormal(t, k, y);
  }

  /** Dropping the fraction first does not change a shift to the right. */
  lemma FloorOfQuotient(z: real, d: int)
    requires d > 0 && z >= 0.0
    ensures z.Floor / d == (z / d as real).Floor
  {
    var q := z.Floor / d;
    var r := z.Floor % d;
    assert z.Floor == q * d + r;
    var w := z / d as real;
    assert w * d as real == z;
    CancelLe(q as real, w, d as real);
    Cancel(w, (q + 1) as real, d as real);
  }

  lemma Cancel(a: real, b: real, d: real)
    requires a * d < b * d && d > 0.0
    ensures a < b
  {
    if a >= b { Below(b, a, d); }
  }

  lemma CancelLe(a: real, b: real, d: real)
    requires a * d <= b * d && d > 0.0
    ensures a <= b
  {
    if a > b { Below(b, a, d); }
  }

  lemma Below(a: real, b: real, d: real)
    requires a <= b && d > 0.0
    ensures a * d <= b * d && (a < b ==> a * d < b * d)
  {
    if a < b { assert (b - a) * d > 0.0; }
  }

  /** The bit operations of the subnormal branch round to even what the shift has kept. */
  lemma RoundedBits(q: nat)
    requires q > 0
    ensures var m := (q - (1 - q / 8192 % 2)) / 4096;
            m / 2 + m % 2 == RoundHalfEven(q as real / 8192.0)
  {
    var a := q / 8192;
    var r := q % 8192;
    assert q as real / 8192.0 == a as real + r as real / 8192.0;
    assert (q as real / 8192.0).Floor == a;
    var p := q - (1 - a % 2);
    var m := p / 4096;
    assert m / 2 + m % 2 == (p + 4096) / 8192;
  }

  /** How the subnormal branch sees its input: `d` is the shift, `t` the normalised input. */
  lemma ShiftedUnits(t: real, exp: int, y: real)
    requires 1024.0 <= t < 2048.0 && exp <= 0 && y == t * Pow2(exp - 1)
    ensures y < 1024.0 && y * Shift(1 - exp) as real == t
    ensures (t * 8192.0).Floor / Shift(1 - exp) == (y * 8192.0).Floor
  {
    var d := Shift(1 - exp);
    ShiftIsPow2(1 - exp);
    assert y * d as real == t * (Pow2(exp - 1) * d as real);
    assert (t * 8192.0) / d as real == y * 8192.0;
    FloorOfQuotient(t * 8192.0, d);
    assert d >= 2 by { ShiftLarge(1, 1 - exp); }
    Cancel(y, 1024.0, d as real);
  }

  lemma {:induction false} ShiftLarge(j: nat, k: nat)
    requires j <= k
    ensures Shift(j) <= Shift(k)
  {
    if j < k { ShiftLarge(j, k - 1); }
  }

  lemma Vanishing(t: real, exp: int, y: real)
    requires 1024.0 <= t < 2048.0 && exp <= -12 && y == t * Pow2(exp - 1)
    ensures 0.0 <= y < 0.25 && RoundSubnormal(y) == 0
  {
    ShiftedUnits(t, exp, y);
    ShiftLarge(13, 1 - exp);
    assert Shift(13) == 8192 by { assert Shift(6) == 64; }
    var d := Shift(1 - exp) as real;
    assert y * d < 0.25 * d;
    Cancel(y, 0.25, d);
    Cancel(0.0, y, d);
    var z := (y * 8192.0).Floor;
    assert 0 <= z < 2048;
  }

  /** The encoder's loops and bit operations compute `Encode`, for every finite input too. */
  method Float32To16(f: Float) returns (ret: nat)
    requires f.Finite? ==> f.magnitude >= 0.0
    ensures ret == Encode(f)
  {
    hide Pow2, Code, RoundHalfEven, RoundSubnormal;
    if f.Infinite? {
      return if f.negative then 0xffff else 0x7fff;
    }
    if f.NotANumber? {
      return if f.negative then 0xffff else 0x7fff;
    }
    if f.magnitude == 0.0 {
      CodeOfZero();
      return if f.negative then 0x8000 else 0x0000;
    }
    var tmp, exp := Normalize(f.magnitude);
    exp := exp + 25;
    ret := Round(tmp, exp, f.magnitude * UNITS);
    if f.negative {
      ret := ret + SIGN;
    }
  }

  lemma CodeOfZero()
    ensures Code(0.0) == 0
  {
    assert (0.0 * 8192.0).Floor == 0;
    assert RoundHalfEven(0.0) == 0;
  }

  /** Scales into [1024, 2048), counting the powers of two: what the encoder's two loops compute. */
  method Normalize(x: real) returns (tmp: real, exp: int)
    requires x > 0.0
    ensures 1024.0 <= tmp < 2048.0 && tmp * Pow2(exp) == x
    ensures tmp * Pow2(exp + 24) == x * UNITS
  {
    assert x * Pow2(0) == x;
    if x < 1024.0 {
      tmp, exp := ScaleUp(x);
    } else if x >= 2048.0 {
      tmp, exp := ScaleDown(x);
    } else {
      tmp, exp := x, 0;
    }
    Pow2Shifted(exp);
    assert tmp * (Pow2(exp) * UNITS) == (tmp * Pow2(exp)) * UNITS;
  }

  method ScaleUp(x: real) returns (tmp: real, exp: int)
    requires 0.0 < x < 1024.0
    ensures 1024.0 <= tmp < 2048.0 && tmp * Pow2(exp) == x
  {
    tmp, exp := x, 0;
    assert x * Pow2(0) == x;
    hide Pow2;
    while tmp < 1024.0
      invariant 0.0 < tmp < 2048.0 && tmp * Pow2(exp) == x
      decreases (1024.0 / tmp).Floor
    {
      Pow2Next(exp - 1);
      Twice(tmp, Pow2(exp - 1));
      Halves(1024.0, tmp);
      tmp := 2.0 * tmp;
      exp := exp - 1;
    }
  }

  method ScaleDown(x: real) returns (tmp: real, exp: int)
    requires x >= 2048.0
    ensures 1024.0 <= tmp < 2048.0 && tmp * Pow2(exp) == x
  {
    tmp, exp := x, 0;
    assert x * Pow2(0) == x;
    hide Pow2;
    while tmp >= 2048.0
      invariant tmp >= 1024.0 && tmp * Pow2(exp) == x
      decreases tmp.Floor
    {
      Pow2Next(exp);
      Twice(tmp / 2.0, Pow2(exp));
      tmp := tmp / 2.0;
      exp := exp + 1;
    }
  }

  lemma Halves(n: real, t: real)
    requires 0.0 < t < n
    ensures (n / (2.0 * t)).Floor < (n / t).Floor && (n / t).Floor >= 0
  {
    var a := n / t;
    assert a * t == n;
    assert a > 1.0 by { if a <= 1.0 { Below(a, 1.0, t); } }
    assert n / (2.0 * t) == a / 2.0 by { assert (a / 2.0) * (2.0 * t) == n; }
  }

  lemma {:induction false} Pow2Shifted(k: int)
    ensures Pow2(k + 24) == Pow2(k) * UNITS
    decreases if k < 0 then -k else k
  {
    if k == 0 {
      Pow2Units(0);
      Pow2Units(24);
    } else if k > 0 {
      Pow2Shifted(k - 1);
      Pow2Next(k - 1);
      Pow2Next(k + 23);
    } else {
      Pow2Shifted(k + 1);
      Pow2Next(k);
      Pow2Next(k + 24);
    }
  }

  /** The magnitude bits for the normalised input `tmp` with biased exponent `exp`, `y` units. */
  method Round(tmp: real, exp0: int, y: real) returns (ret: nat)
    requires 1024.0 <= tmp < 2048.0 && y == tmp * Pow2(exp0 - 1) && y >= 0.0
    ensures ret == if Code(y) > SPECIAL then SPECIAL else Code(y)
  {
    hide Pow2, RoundSubnormal, Shift, Code;
    var exp := exp0;
    var mantissa := tmp.Floor;
    if (tmp - mantissa as real == 0.5 && mantissa % 2 == 1) || tmp - mantissa as real > 0.5 {
      mantissa := mantissa + 1;
    }
    assert mantissa == RoundHalfEven(tmp) && 1024 <= mantissa <= 2048;
    if mantissa == 2048 {
      mantissa := 1024;
      exp := exp + 1;
    }
    if exp0 >= 1 {
      NormalCode(tmp, exp0, y);
    } else {
      CodeOfSubnormal(tmp, exp0, y);
    }
    if exp > 31 {
      ret := SPECIAL;
    } else if exp <= 0 {
      if exp < -11 {
        Vanishing(tmp, exp0, y);
        return 0;
      }
      ret := RoundShifted(tmp, exp0, y);
    } else {
      if exp0 == 0 { AlmostNormal(tmp, y); }
      ret := exp * 1024 + mantissa % 1024;
    }
  }

  lemma CodeOfSubnormal(t: real, exp: int, y: real)
    requires 1024.0 <= t < 2048.0 && exp <= 0 && y == t * Pow2(exp - 1) && y >= 0.0
    ensures Code(y) == RoundSubnormal(y) <= 1024
  {
    ShiftedUnits(t, exp, y);
  }

  method RoundShifted(tmp: real, exp: int, y: real) returns (ret: nat)
    requires 1024.0 <= tmp < 2048.0 && -12 <= exp <= 0 && y == tmp * Pow2(exp - 1)
    ensures ret == RoundSubnormal(y)
  {
    hide Pow2;
    var mantissa := (tmp * 8192.0).Floor;
    ShiftedUnits(tmp, exp, y);
    mantissa := mantissa / Shift(1 - exp);
    ShiftedLarge(tmp, exp, mantissa);
    RoundedBits(mantissa);
    mantissa := mantissa - (1 - mantissa / 8192 % 2);
    mantissa := mantissa / 4096;
    var rounding := mantissa % 2;
    mantissa := mantissa / 2;
    ret := mantissa + rounding;
  }

  lemma ShiftedLarge(t: real, exp: int, q: int)
    requires 1024.0 <= t && -12 <= exp <= 0 && q == (t * 8192.0).Floor / Shift(1 - exp)
    ensures q > 0
  {
    ShiftLarge(1 - exp, 13);
    assert Shift(13) == 8192 by { assert Shift(6) == 64; }
    QuotientPositive((t * 8192.0).Floor, Shift(1 - exp));
  }

  lemma QuotientPositive(z: int, d: int)
    requires 0 < d <= z
    ensures z / d > 0
  {
    assert z == z / d * d + z % d;
    Positive(z / d, d);
  }

  lemma Positive(q: int, d: int)
    requires d > 0 && q * d > 0
    ensures q > 0
  {
  }

  /** An input that rounds up to the smallest normal half. */
  lemma AlmostNormal(t: real, y: real)
    requires 2047.5 <= t < 2048.0 && y == t * Pow2(-1)
    ensures RoundSubnormal(y) == 1024
  {
    assert Pow2(-1) == 0.5;
    var z := (y * 8192.0).Floor;
    assert 8386560 <= z < 8388608;
    var w := z as real / 8192.0;
    assert 1023.75 <= w < 1024.0;
  }

  // ---------- what the encoding is ----------

  /** The magnitude bits are ordered as the values are. */
  lemma {:induction false} UnitsIncrease(c: nat, d: nat)
    requires c < d
    ensures Units(c) < Units(d)
    decreases d
  {
    if d >= 2048 {
      if c >= 2048 {
        UnitsIncrease(c - 1024, d - 1024);
      } else if d - 1024 > 1024 {
        UnitsIncrease(1024, d - 1024);
      }
    }
  }

  lemma DecodeIncreases(c: nat, d: nat)
    requires c < d < SPECIAL
    ensures Float16To32(c).Finite? && Float16To32(d).Finite?
    ensures Float16To32(c).magnitude < Float16To32(d).magnitude
  {
    hide Float16To32;
    Magnitude(c);
    Magnitude(d);
    UnitsIncrease(c, d);
  }

  lemma RoundMonotone(x: real, y: real)
    requires x <= y
    ensures RoundHalfEven(x) <= RoundHalfEven(y)
  {
  }

  lemma {:induction false} CodeMonotone(x: real, y: real)
    requires 0.0 <= x <= y
    ensures Code(x) <= Code(y)
    decreases y.Floor
  {
    hide RoundHalfEven;
    if y >= 2048.0 {
      if x >= 2048.0 { CodeMonotone(x / 2.0, y / 2.0); }
    } else if x < 1024.0 && y < 1024.0 {
      RoundMonotone((x * 8192.0).Floor as real / 8192.0, (y * 8192.0).Floor as real / 8192.0);
    } else if x >= 1024.0 {
      RoundMonotone(x, y);
    }
  }

  /** Encoding is monotone on the magnitudes, over zero, subnormals, normals and overflow. */
  lemma EncodeMonotone(x: real, y: real)
    requires 0.0 <= x <= y
    ensures Encode(Finite(false, x)) <= Encode(Finite(false, y))
    ensures Encode(Finite(true, x)) <= Encode(Finite(true, y))
  {
    hide Code;
    CodeMonotone(x * UNITS, y * UNITS);
  }

  lemma RoundInteger(n: int)
    ensures RoundHalfEven(n as real) == n
  {
  }

  lemma Quotient(x: real)
    ensures (x * 8192.0) / 8192.0 == x
  {
  }

  lemma SubnormalInteger(c: int)
    ensures RoundSubnormal(c as real) == c
  {
    hide RoundHalfEven;
    var z := (c as real * 8192.0).Floor;
    assert c as real * 8192.0 == (8192 * c) as real;
    assert z == 8192 * c;
    Quotient(c as real);
    RoundInteger(c);
  }

  /** Every representable value encodes to its own code. */
  lemma {:induction false} CodeOfUnits(c: nat)
    ensures Code(Units(c) as real) == c
  {
    hide RoundHalfEven, RoundSubnormal;
    var y := Units(c) as real;
    if c < 1024 {
      SubnormalInteger(c);
    } else if c < 2048 {
      RoundInteger(c);
    } else {
      CodeOfUnits(c - 1024);
      UnitsAtLeast(c - 1024);
      assert y / 2.0 == Units(c - 1024) as real;
      assert Code(y) == 1024 + Code(y / 2.0);
    }
  }

  lemma {:induction false} UnitsAtLeast(c: nat)
    requires c >= 1024
    ensures Units(c) >= 1024
  {
    if c >= 2048 { UnitsAtLeast(c - 1024); }
  }

  /** Encode is a left inverse of decode on every code that is not special. */
  lemma DecodeEncode(code: nat)
    requires code < 0x10000 && code % SIGN != SPECIAL
    ensures Float16To32(code).Finite? && Float16To32(code).magnitude >= 0.0
    ensures Encode(Float16To32(code)) == code
  {
    hide Float16To32, Code;
    DecodedUnits(code);
    CodeOfUnits(code % SIGN);
  }

  /** What was encoded once keeps its code for ever. */
  lemma EncodeStable(f: Float)
    requires f.Finite? && f.magnitude >= 0.0 && Encode(f) % SIGN != SPECIAL
    ensures Float16To32(Encode(f)).Finite? && Float16To32(Encode(f)).magnitude >= 0.0
    ensures Encode(Float16To32(Encode(f))) == Encode(f)
  {
    hide Float16To32, Encode;
    DecodeEncode(Encode(f));
  }

  // ---------- how near ----------

  function Distance(x: real, y: real): real {
    if x < y then y - x else x - y
  }

  /** How far code `c` is from `y` units. */
  function Off(c: nat, y: real): real {
    Distance(Units(c) as real, y)
  }

  /** No code is nearer to `y`, and when another one is as near, this one is even. */
  ghost predicate Nearest(c: nat, y: real) {
    forall d: nat :: Off(c, y) <= Off(d, y) && (d != c && Off(c, y) == Off(d, y) ==> c % 2 == 0)
  }

  lemma RoundNearest(y: real, d: int)
    ensures Distance(RoundHalfEven(y) as real, y) <= Distance(d as real, y)
    ensures Distance(RoundHalfEven(y) as real, y) <= 0.5
    ensures d != RoundHalfEven(y) && Distance(RoundHalfEven(y) as real, y) == Distance(d as real, y) ==>
              RoundHalfEven(y) % 2 == 0
  {
  }

  lemma UnitsBeyond(d: nat)
    requires d > 2048
    ensures Units(d) > 2048
  {
    UnitsIncrease(2048, d);
  }

  /** Rounding to an integer is rounding to a code as long as the values are integers one apart. */
  lemma NearestBelow(y: real)
    requires 0.0 <= y < 2048.0
    ensures 0 <= RoundHalfEven(y) <= 2048 && Nearest(RoundHalfEven(y), y)
  {
    hide RoundHalfEven;
    var c := RoundHalfEven(y);
    RoundNearest(y, 0);
    assert 0 <= c <= 2048 by { RoundMonotone(0.0, y); RoundMonotone(y, 2048.0); RoundInteger(0); RoundInteger(2048); }
    assert Units(c) == c;
    forall d: nat ensures Off(c, y) <= Off(d, y) && (d != c && Off(c, y) == Off(d, y) ==> c % 2 == 0) {
      RoundNearest(y, d);
      if d > 2048 {
        UnitsBeyond(d);
        RoundNearest(y, 2048);
      }
    }
  }

  /** A normal magnitude is rounded to the nearest half, ties to even. */
  lemma {:induction false} NormalNearest(y: real)
    requires y >= 1024.0
    ensures Nearest(Code(y), y)
    decreases y.Floor
  {
    hide RoundHalfEven;
    if y < 2048.0 {
      NearestBelow(y);
    } else {
      NormalNearest(y / 2.0);
      var b := Code(y / 2.0);
      var c := 1024 + b;
      assert Code(y) == c;
      forall d: nat ensures Off(c, y) <= Off(d, y) && (d != c && Off(c, y) == Off(d, y) ==> c % 2 == 0) {
        Doubled(b, y);
        if d >= 2048 {
          Doubled(d - 1024, y);
          assert Off(b, y / 2.0) <= Off(d - 1024, y / 2.0);
        } else {
          Doubled(1024, y);
          assert Off(b, y / 2.0) <= Off(1024, y / 2.0);
        }
      }
    }
  }

  lemma Doubled(b: nat, y: real)
    requires b >= 1024
    ensures Off(b + 1024, y) == 2.0 * Off(b, y / 2.0)
  {
  }

  /** The spacing of the halves around `y` units. */
  function Spacing(y: real): real
    requires y >= 0.0
    decreases y.Floor
  {
    if y < 2048.0 then 1.0 else 2.0 * Spacing(y / 2.0)
  }

  /** A normal magnitude moves by at most half the spacing. */
  lemma {:induction false} NormalError(y: real)
    requires y >= 1024.0
    ensures Off(Code(y), y) <= Spacing(y) / 2.0
    decreases y.Floor
  {
    hide RoundHalfEven;
    if y < 2048.0 {
      RoundNearest(y, 0);
      assert Units(Code(y)) == Code(y);
    } else {
      NormalError(y / 2.0);
      Doubled(Code(y / 2.0), y);
    }
  }

  // ---------- subnormals ----------

  /**
   The 13 extra bits of a subnormal say half, the integer part is even, and something was cut off
   below them: a value just above a tie that looks like the tie.
   */
  predicate TieLost(y: real) {
    var z := (y * 8192.0).Floor;
    z % 8192 == 4096 && y.Floor % 2 == 0 && z as real != y * 8192.0
  }

  lemma CutFloor(y: real)
    requires y >= 0.0
    ensures var z := (y * 8192.0).Floor;
            z / 8192 == y.Floor && z >= 0 && (z as real / 8192.0).Floor == y.Floor
            && z as real / 8192.0 == y.Floor as real + (z % 8192) as real / 8192.0
            && z as real / 8192.0 <= y < (z as real + 1.0) / 8192.0
  {
    var z := (y * 8192.0).Floor;
    assert z == z / 8192 * 8192 + z % 8192;
    var a := z / 8192;
    assert a as real <= y < a as real + 1.0;
  }

  /** Subnormals are rounded to nearest, ties to even, exactly when no tie is lost. */
  lemma SubnormalRounding(y: real)
    requires 0.0 <= y
    ensures RoundSubnormal(y) == RoundHalfEven(y) <==> !TieLost(y)
    ensures TieLost(y) ==> RoundSubnormal(y) == RoundHalfEven(y) - 1
  {
    CutFloor(y);
    var z := (y * 8192.0).Floor;
    var w := z as real / 8192.0;
    var a := y.Floor;
    var r := z % 8192;
    assert w - a as real == r as real / 8192.0;
    assert r == 4096 ==> (y - a as real == 0.5 <==> z as real == y * 8192.0);
  }

  lemma SubnormalError(y: real)
    requires 0.0 <= y
    ensures Distance(RoundSubnormal(y) as real, y) < 0.5 + 1.0 / 8192.0
  {
    CutFloor(y);
    RoundNearest((y * 8192.0).Floor as real / 8192.0, 0);
  }

  /** When encoding finds the nearest half, ties to even: always, but for lost ties of subnormals. */
  lemma CodeNearest(y: real)
    requires y >= 0.0
    ensures Nearest(Code(y), y) <==> y >= 1024.0 || !TieLost(y)
  {
    hide RoundHalfEven, RoundSubnormal, TieLost, Off;
    if y >= 1024.0 {
      NormalNearest(y);
    } else {
      SubnormalRounding(y);
      NearestBelow(y);
      if TieLost(y) { NearestUnique(y, Code(y), RoundHalfEven(y)); }
    }
  }

  /** Decoding the code of `x` gives the half nearest to `x`, wherever no tie is lost. */
  lemma EncodeNearest(x: real, d: nat)
    requires x >= 0.0 && (x * UNITS >= 1024.0 || !TieLost(x * UNITS))
    requires Encode(Finite(false, x)) != SPECIAL && d < SPECIAL
    ensures var c := Encode(Finite(false, x));
            c < SPECIAL && Float16To32(c).Finite? && Float16To32(d).Finite?
            && Distance(Float16To32(c).magnitude, x) <= Distance(Float16To32(d).magnitude, x)
  {
    hide Float16To32, Encode, Distance, TieLost;
    var c := Encode(Finite(false, x));
    EncodeIsCode(x);
    UnitsNearest(x * UNITS, d);
    Magnitude(c);
    Magnitude(d);
    FromUnits(Float16To32(c).magnitude, Float16To32(d).magnitude, x);
  }

  lemma UnitsNearest(y: real, d: nat)
    requires y >= 0.0 && (y >= 1024.0 || !TieLost(y))
    ensures Distance(Units(Code(y)) as real, y) <= Distance(Units(d) as real, y)
  {
    hide Code, TieLost, Units, Distance;
    CodeNearest(y);
    assert Off(Code(y), y) <= Off(d, y);
  }

  lemma Magnitude(c: nat)
    requires c < SPECIAL
    ensures Float16To32(c).Finite? && Float16To32(c).magnitude * UNITS == Units(c) as real
  {
    hide Float16To32;
    DecodedUnits(c);
  }

  lemma EncodeIsCode(x: real)
    requires x >= 0.0 && Encode(Finite(false, x)) != SPECIAL
    ensures Encode(Finite(false, x)) == Code(x * UNITS) < SPECIAL
  {
    hide Code;
  }

  lemma FromUnits(a: real, b: real, x: real)
    requires Distance(a * UNITS, x * UNITS) <= Distance(b * UNITS, x * UNITS)
    ensures Distance(a, x) <= Distance(b, x)
  {
  }

  /** Of two nearest codes one apart, both would be even. */
  lemma NearestUnique(y: real, c: nat, d: nat)
    requires d == c + 1
    ensures !(Nearest(c, y) && Nearest(d, y))
  {
    assert Nearest(c, y) ==> Off(c, y) <= Off(d, y) && (Off(c, y) == Off(d, y) ==> c % 2 == 0);
    assert Nearest(d, y) ==> Off(d, y) <= Off(c, y) && (Off(d, y) == Off(c, y) ==> d % 2 == 0);
  }

  /** A value above 0.5 units by less than a cut bit encodes as zero, though one unit is nearer. */
  lemma TieLostExample()
    ensures var y := 0.5 + 1.0 / 16384.0;
            TieLost(y) && Code(y) == 0 && Off(1, y) < Off(0, y)
  {
    var y := 0.5 + 1.0 / 16384.0;
    assert (y * 8192.0).Floor == 4096;
    assert y.Floor == 0;
  }

  // ---------- overflow ----------

  /** The finite inputs that encode to the special code are exactly those above 130976. */
  lemma Overflow(x: real)
    requires x >= 0.0
    ensures Encode(Finite(false, x)) == SPECIAL <==> x > 130976.0
  {
    hide RoundHalfEven, Pow2, Code;
    Limit();
    if x <= 130976.0 {
      BelowLimit(x * UNITS);
    } else {
      AboveLimit(x * UNITS);
    }
  }

  lemma Limit()
    ensures 130976.0 * UNITS == 2046.5 * Pow2(30) && Pow2(30) == 1073741824.0
  {
    hide Pow2;
    TenMore(20);
    TenMore(10);
    TenMore(0);
    assert Pow2(0) == 1.0 by { ZeroPower(); }
  }

  lemma ZeroPower()
    ensures Pow2(0) == 1.0
  {
  }

  lemma HalfOfEven()
    ensures RoundHalfEven(2046.5) == 2046
  {
    assert 2046.5.Floor == 2046;
  }

  lemma BelowLimit(y: real)
    requires 0.0 <= y <= 2046.5 * Pow2(30)
    ensures Code(y) < SPECIAL
  {
    hide Pow2, Code, RoundHalfEven;
    CodeOfNormal(2046.5, 30, 2046.5 * Pow2(30));
    CodeMonotone(y, 2046.5 * Pow2(30));
    HalfOfEven();
  }

  lemma AboveLimit(y: real)
    requires y > 2046.5 * Pow2(30)
    ensures Code(y) >= SPECIAL
  {
    hide Pow2, Code;
    Limit();
    if y >= 2047.0 * Pow2(30) {
      CodeOfNormal(2047.0, 30, 2047.0 * Pow2(30));
      CodeMonotone(2047.0 * Pow2(30), y);
    } else {
      var t := y / 1073741824.0;
      assert 2046.5 < t < 2047.0;
      CodeOfNormal(t, 30, y);
      assert t.Floor == 2046;
    }
  }
}
