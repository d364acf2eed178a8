/** Binary32 values as bit patterns (IEEE 754-2019, section 3.4), the form in which the delta codec compares
    magnitudes. */
module Float32 {
  import opened Prelude

  const SIGN: nat := 0x8000_0000
  const MANTISSA: nat := 0x80_0000

  type Float32 = b: nat | b < 0x1_0000_0000

  /** The pattern of |x|: the sign bit cleared. */
  function AbsKey(b: Float32): (k: nat)
    ensures k < SIGN
  {
    b % SIGN
  }

  /** The magnitude of a finite pattern as a whole number of smallest subnormals, each worth 2^-149. */
  function Units(key: nat): nat {
    var e, m := key / MANTISSA, key % MANTISSA;
    if e == 0 then m else (MANTISSA + m) * Pow2(e - 1)
  }

  /** 2^149 */
  const SUBNORMALS_PER_UNIT: nat := 713623846352979940529142984724747568191373312

  function Magnitude(b: Float32): real { Units(AbsKey(b)) as real / SUBNORMALS_PER_UNIT as real }

  /** The real number a finite pattern denotes. */
  function Value(b: Float32): real {
    if b >= SIGN then -Magnitude(b) else Magnitude(b)
  }

  lemma {:induction false} UnitsStep(key: nat)
    ensures Units(key) < Units(key + 1)
  {
    var e, m := key / MANTISSA, key % MANTISSA;
    if m + 1 < MANTISSA {
      assert (key + 1) / MANTISSA == e && (key + 1) % MANTISSA == m + 1;
      if e > 0 {
        var p := Pow2(e - 1);
        assert (MANTISSA + (m + 1)) * p == (MANTISSA + m) * p + p;
      }
    } else {
      assert (key + 1) / MANTISSA == e + 1 && (key + 1) % MANTISSA == 0;
      if e > 0 {
        var p := Pow2(e - 1);
        assert Pow2(e) == 2 * p;
        assert MANTISSA * (2 * p) == (MANTISSA + m) * p + p;
      }
    }
  }

  lemma {:induction false} UnitsMonotone(a: nat, b: nat)
    requires a < b
    ensures Units(a) < Units(b)
  {
    UnitsStep(b - 1);
    if a < b - 1 {
      UnitsMonotone(a, b - 1);
    }
  }

  /** The pattern of |x| orders magnitudes, with ties exactly where magnitudes tie. */
  lemma KeyOrdersMagnitude(x: Float32, y: Float32)
    ensures AbsKey(x) < AbsKey(y) <==> Magnitude(x) < Magnitude(y)
    ensures AbsKey(x) == AbsKey(y) <==> Magnitude(x) == Magnitude(y)
  {
    if AbsKey(x) < AbsKey(y) {
      MagnitudeMonotone(x, y);
    } else if AbsKey(y) < AbsKey(x) {
      MagnitudeMonotone(y, x);
    }
  }

  lemma MagnitudeMonotone(x: Float32, y: Float32)
    requires AbsKey(x) < AbsKey(y)
    ensures Magnitude(x) < Magnitude(y)
  {
    UnitsMonotone(AbsKey(x), AbsKey(y));
  }

  lemma Pow2Sum(a: nat, b: nat)
    ensures Pow2(a + b) == Pow2(a) * Pow2(b)
  {
    if a > 0 {
      Pow2Sum(a - 1, b);
      Associate(Pow2(a - 1), Pow2(b));
    }
  }

  lemma Associate(x: nat, y: nat)
    ensures 2 * (x * y) == (2 * x) * y
  {
  }

  lemma Pow2Small()
    ensures Pow2(9) == 512 && Pow2(10) == 1024
  {
  }

  lemma Pow2Of149()
    ensures Pow2(149) == SUBNORMALS_PER_UNIT
  {
    hide Pow2;
    Pow2Small();
    Pow2Sum(10, 10);
    Pow2Sum(20, 20);
    Pow2Sum(40, 40);
    Pow2Sum(40, 20);
    Pow2Sum(60, 9);
    Pow2Sum(80, 69);
  }

  /** A pattern of sign s, exponent e and fraction m denotes, e not being the greatest, m or 2^23 + m times a power of two,
      in units of 2^-149, with the sign. */
  lemma ValueExactly(s: nat, e: nat, m: nat)
    requires s < 2 && e < 255 && m < 0x80_0000
    ensures var b := s * 0x8000_0000 + e * 0x80_0000 + m;
            && b < 0x1_0000_0000
            && var units := if e == 0 then m else (0x80_0000 + m) * Pow2(e - 1);
               Value(b) == (if s == 1 then -1.0 else 1.0) * (units as real / Pow2(149) as real)
  {
    hide Pow2;
    var b := s * 0x8000_0000 + e * 0x80_0000 + m;
    var key := e * 0x80_0000 + m;
    assert key < SIGN && b % SIGN == key && (b >= SIGN <==> s == 1);
    DivModUnique(key, e, m, MANTISSA);
    Pow2Of149();
  }
}
