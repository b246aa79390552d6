/**
 * The bridge between NUMERIC columns and amounts: NUMERIC is an integer times a power of ten,
 * an amount a whole number in the unsigned 128-bit range.
 */
module Numeric {
  import opened Basics

  const MAX_AMOUNT: nat := 0xffff_ffff_ffff_ffff_ffff_ffff_ffff_ffff

  /** The unsigned 128-bit range. */
  lemma {:induction false} AmountsAre128Bits()
    ensures MAX_AMOUNT + 1 == Pow2(128)
  {
    Squared(1, 2);
    Squared(2, 4);
    Squared(4, 0x10);
    Squared(8, 0x100);
    Squared(16, 0x1_0000);
    Squared(32, 0x1_0000_0000);
    Squared(64, 0x1_0000_0000_0000_0000);
  }

  lemma {:induction false} Squared(n: nat, p: nat)
    requires Pow2(n) == p
    ensures Pow2(2 * n) == p * p
  {
    PowersOfTwo(n, n);
  }

  lemma {:induction false} PowersOfTwo(a: nat, b: nat)
    ensures Pow2(a + b) == Pow2(a) * Pow2(b)
  {
    if a > 0 {
      PowersOfTwo(a - 1, b);
      assert Pow2(a) * Pow2(b) == 2 * (Pow2(a - 1) * Pow2(b));
    }
  }

  const MIN_EXP: int := -0x8000_0000

  /** An int32 exponent. */
  newtype Exponent = x: int | -0x8000_0000 <= x < 0x8000_0000

  datatype Infinity = Finite | Positive | Negative

  datatype Numeric = Numeric(digits: int, exp: Exponent, nan: bool, infinity: Infinity, valid: bool)

  datatype NumericError = NotFinite | Infinite | Fractional | IsNegative | OutOfRange

  /** big.Int.Exp with no modulus: 1 when the exponent is not positive. */
  function PowerOfTen(e: Exponent): (p: nat)
    ensures p >= 1
  {
    if e <= 0 then 1 else Pow10(e as int)
  }

  /** Negation in int32: the least value is its own negative. */
  function Negate(e: Exponent): (r: Exponent)
    ensures e as int != MIN_EXP ==> r as int == -(e as int)
    ensures e as int == MIN_EXP ==> r == e
  {
    if e as int == MIN_EXP then e else -e
  }

  /** Division rounding toward zero, with the remainder that goes with it. */
  function Quo(a: int, b: nat): int
    requires b >= 1
  {
    if a >= 0 then a / b else -(-a / b)
  }

  function Rem(a: int, b: nat): int
    requires b >= 1
  {
    a - Quo(a, b) * b
  }

  function ParseRange(v: nat): Result<nat, NumericError> {
    if v <= MAX_AMOUNT then Ok(v) else Err(OutOfRange)
  }

  function Scaled(n: Numeric): Result<int, NumericError> {
    if n.exp > 0 then Ok(n.digits * PowerOfTen(n.exp))
    else if n.exp < 0 then
      var divisor := PowerOfTen(Negate(n.exp));
      if Rem(n.digits, divisor) != 0 then Err(Fractional) else Ok(Quo(n.digits, divisor))
    else Ok(n.digits)
  }

  function ToAmount(n: Numeric): Result<nat, NumericError> {
    if !n.valid || n.nan then Err(NotFinite)
    else if n.infinity != Finite then Err(Infinite)
    else
      match Scaled(n)
      case Err(e) => Err(e)
      case Ok(v) => if v < 0 then Err(IsNegative) else ParseRange(v)
  }

  function FromAmount(a: nat): Numeric {
    Numeric(a, 0, false, Finite, true)
  }

  /** The conversion as the program runs it, on one big integer updated in place. */
  method NumericToAmount(n: Numeric) returns (r: Result<nat, NumericError>)
    ensures r == ToAmount(n)
  {
    if !n.valid || n.nan {
      return Err(NotFinite);
    }
    if n.infinity != Finite {
      return Err(Infinite);
    }
    var v := n.digits;
    if n.exp > 0 {
      v := v * PowerOfTen(n.exp);
    } else if n.exp < 0 {
      var divisor := PowerOfTen(Negate(n.exp));
      var rem := Rem(v, divisor);
      v := Quo(v, divisor);
      if rem != 0 {
        return Err(Fractional);
      }
    }
    if v < 0 {
      return Err(IsNegative);
    }
    r := ParseRange(v);
  }

  // ---- what a NUMERIC stands for ----

  predicate IsNumber(n: Numeric) {
    n.valid && !n.nan && n.infinity == Finite
  }

  /** digits * 10^exp == v, without fractions. */
  ghost predicate Denotes(n: Numeric, v: int) {
    if n.exp >= 0 then v == n.digits * Pow10(n.exp as int) else v * Pow10(-(n.exp as int)) == n.digits
  }

  lemma {:induction false} QuoIsExact(a: int, b: nat, v: int)
    requires b >= 1
    ensures v * b == a <==> Rem(a, b) == 0 && Quo(a, b) == v
  {
    if v * b == a {
      if a >= 0 {
        assert a / b == v by { DivExact(v, b); }
      } else {
        assert (-v) * b == -a;
        assert -a / b == -v by { DivExact(-v, b); }
      }
    }
  }

  lemma {:induction false} DivExact(v: int, b: nat)
    requires b >= 1
    ensures (v * b) / b == v
  {
    var q := (v * b) / b;
    NoSmallMultiple(v - q, b, (v * b) % b);
  }

  lemma {:induction false} AtLeastOnce(d: int, b: nat)
    ensures d >= 1 ==> d * b >= b
  {
  }

  lemma {:induction false} NoSmallMultiple(d: int, b: nat, r: int)
    requires d * b == r && 0 <= r < b
    ensures d == 0
  {
    AtLeastOnce(d, b);
    AtLeastOnce(-d, b);
    assert (-d) * b == -(d * b);
  }

  /** Scaling finds the denoted number exactly, whatever the sign, unless the exponent is the least int32. */
  lemma {:induction false} ScaledIsExact(n: Numeric, v: int)
    requires n.exp as int != MIN_EXP
    ensures Scaled(n) == Ok(v) <==> Denotes(n, v)
    ensures Scaled(n).Err? ==> Scaled(n) == Err(Fractional)
  {
    if n.exp < 0 {
      QuoIsExact(n.digits, Pow10(-(n.exp as int)), v);
    } else if n.exp == 0 {
      assert Pow10(0) == 1;
    }
  }

  /** The conversion succeeds exactly on whole numbers in range, and returns that number. */
  lemma {:induction false} ToAmountIsExact(n: Numeric, v: nat)
    requires n.exp as int != MIN_EXP
    ensures ToAmount(n) == Ok(v) <==> IsNumber(n) && Denotes(n, v) && v <= MAX_AMOUNT
  {
    ScaledIsExact(n, v);
  }

  ghost predicate DenotesSome(n: Numeric) {
    exists v :: Denotes(n, v)
  }

  ghost predicate DenotesNegative(n: Numeric) {
    exists v :: v < 0 && Denotes(n, v)
  }

  ghost predicate DenotesTooMuch(n: Numeric) {
    exists v :: v > MAX_AMOUNT && Denotes(n, v)
  }

  /** Which error a finite NUMERIC gets says what is wrong with its value; a fraction is reported first. */
  lemma {:induction false} ErrorsSayWhy(n: Numeric)
    requires IsNumber(n) && n.exp as int != MIN_EXP
    ensures ToAmount(n) == Err(Fractional) <==> !DenotesSome(n)
    ensures ToAmount(n) == Err(IsNegative) <==> DenotesNegative(n)
    ensures ToAmount(n) == Err(OutOfRange) <==> DenotesTooMuch(n)
  {
    forall v
      ensures Scaled(n) == Ok(v) <==> Denotes(n, v)
    {
      ScaledIsExact(n, v);
    }
    ScaledIsExact(n, 0);
    if Scaled(n).Ok? {
      assert Denotes(n, Scaled(n).value);
    }
  }

  // ---- equal values, any representation ----

  lemma {:induction false} PowAdd(a: nat, b: nat)
    ensures Pow10(a + b) == Pow10(a) * Pow10(b)
    decreases a
  {
    if a == 0 {
    } else {
      PowAdd(a - 1, b);
      assert Pow10(a) * Pow10(b) == 10 * (Pow10(a - 1) * Pow10(b));
    }
  }

  lemma {:induction false} Cancel(x: int, y: int, p: nat)
    requires p >= 1
    ensures x * p == y * p <==> x == y
  {
    if x * p == y * p {
      assert (x - y) * p == 0;
    }
  }

  /** a and b are the same number; b has the larger exponent. */
  ghost predicate SameValue(a: Numeric, b: Numeric)
    requires a.exp <= b.exp
  {
    a.digits == b.digits * Pow10(b.exp as int - a.exp as int)
  }

  lemma {:induction false} Regroup(x: int, y: int, z: int)
    ensures x * y * z == x * (y * z)
  {
  }

  /** The same digits scaled by p and by g * p, seen from a whole number v. */
  lemma {:induction false} ScaledAlike(v: int, x: int, g: nat, p: nat)
    requires g >= 1 && p >= 1
    ensures v * (p * g) == x * g <==> v * p == x
  {
    Regroup(v, p, g);
    Cancel(v * p, x, g);
  }

  lemma {:induction false} SameDenotation(a: Numeric, b: Numeric, v: int)
    requires a.exp <= b.exp && SameValue(a, b)
    ensures Denotes(a, v) <==> Denotes(b, v)
  {
    var ea, eb := a.exp as int, b.exp as int;
    var gap := Pow10(eb - ea);
    if ea >= 0 {
      PowAdd(eb - ea, ea);
      Regroup(b.digits, gap, Pow10(ea));
    } else if eb >= 0 {
      PowAdd(eb, -ea);
      Regroup(b.digits, Pow10(eb), Pow10(-ea));
      Cancel(v, b.digits * Pow10(eb), Pow10(-ea));
    } else {
      PowAdd(-eb, eb - ea);
      ScaledAlike(v, b.digits, gap, Pow10(-eb));
    }
  }

  /** Two representations of one number convert alike, to the same amount or the same error. */
  lemma {:induction false} RepresentationDoesNotMatter(a: Numeric, b: Numeric)
    requires IsNumber(a) && IsNumber(b) && a.exp <= b.exp && SameValue(a, b) && a.exp as int != MIN_EXP
    ensures ToAmount(a) == ToAmount(b)
  {
    if Scaled(a).Ok? {
      ScaledIsExact(a, Scaled(a).value);
      SameDenotation(a, b, Scaled(a).value);
      ScaledIsExact(b, Scaled(a).value);
    } else if Scaled(b).Ok? {
      ScaledIsExact(b, Scaled(b).value);
      SameDenotation(a, b, Scaled(b).value);
      ScaledIsExact(a, Scaled(b).value);
    } else {
      ScaledIsExact(a, 0);
      ScaledIsExact(b, 0);
    }
  }

  /** What AmountToNumeric writes reads back as the same amount, and so does anything equal to it. */
  lemma {:induction false} WrittenAmountsReadBack(a: nat, n: Numeric)
    requires a <= MAX_AMOUNT && IsNumber(n) && n.exp as int != MIN_EXP
    ensures ToAmount(FromAmount(a)) == Ok(a)
    ensures Denotes(n, a) <==> ToAmount(n) == ToAmount(FromAmount(a))
  {
    ToAmountIsExact(n, a);
  }

  // ---- the least exponent ----

  ghost predicate IsAmount(n: Numeric) {
    exists v: nat :: v <= MAX_AMOUNT && Denotes(n, v)
  }

  /** The conversion succeeds exactly when the value is an amount, with that amount. */
  ghost predicate ConvertsRight(n: Numeric) {
    forall v: nat :: ToAmount(n) == Ok(v) <==> v <= MAX_AMOUNT && Denotes(n, v)
  }

  /** Negating the least int32 exponent overflows, the divisor becomes 1, and 10^-2147483648 reads as 1. */
  lemma {:induction false} LeastExponentMisreads()
    ensures var n := Numeric(1, -0x8000_0000, false, Finite, true);
      ToAmount(n) == Ok(1) && !Denotes(n, 1) && !DenotesSome(n)
  {
    var n := Numeric(1, -0x8000_0000, false, Finite, true);
    var p := Pow10(0x8000_0000);
    assert p == 10 * Pow10(0x7fff_ffff);
    assert Scaled(n) == Ok(1) by { QuoIsExact(1, 1, 1); }
    forall v
      ensures !Denotes(n, v)
    {
      assert v * p == 10 * (v * Pow10(0x7fff_ffff));
    }
  }

  /** 10^2147483648, the divisor the least exponent calls for. */
  ghost function LeastDivisor(): (p: nat)
    ensures p >= 10
  {
    assert Pow10(0x8000_0000) == 10 * Pow10(0x7fff_ffff);
    Pow10(0x8000_0000)
  }

  /**
   * The conversion is right if and only if the exponent is above the least int32, or the digits are
   * not positive, or they exceed an amount and, divided by 10^2147483648, leave a remainder or
   * exceed one still.
   */
  lemma {:induction false} ConvertsRightIff(n: Numeric)
    requires IsNumber(n)
    ensures ConvertsRight(n) <==>
      || n.exp as int != MIN_EXP || n.digits <= 0
      || (n.digits > MAX_AMOUNT && (n.digits % LeastDivisor() != 0 || n.digits / LeastDivisor() > MAX_AMOUNT))
  {
    if n.exp as int != MIN_EXP {
      forall v: nat
        ensures ToAmount(n) == Ok(v) <==> v <= MAX_AMOUNT && Denotes(n, v)
      {
        ToAmountIsExact(n, v);
      }
    } else {
      LeastExponent(n);
      if n.digits > 0 { IsAmountByDivision(n); }
    }
  }

  /** With the least exponent, being an amount is divisibility and size. */
  lemma {:induction false} IsAmountByDivision(n: Numeric)
    requires n.exp as int == MIN_EXP && n.digits > 0
    ensures IsAmount(n) <==> n.digits % LeastDivisor() == 0 && n.digits / LeastDivisor() <= MAX_AMOUNT
  {
    var p := LeastDivisor();
    var q := n.digits / p;
    assert n.digits == q * p + n.digits % p;
    if n.digits % p == 0 {
      assert Denotes(n, q);
    }
    if v: nat :| v <= MAX_AMOUNT && Denotes(n, v) {
      assert v * p == n.digits;
      DivExact(v, p);
      assert n.digits % p == 0;
    }
  }

  lemma {:induction false} LeastExponent(n: Numeric)
    requires IsNumber(n) && n.exp as int == MIN_EXP
    ensures ConvertsRight(n) <==> n.digits <= 0 || (n.digits > MAX_AMOUNT && !IsAmount(n))
  {
    var p := LeastDivisor();
    assert Scaled(n) == Ok(n.digits) by { QuoIsExact(n.digits, 1, n.digits); }
    if n.digits <= 0 {
      forall v: nat
        ensures ToAmount(n) == Ok(v) <==> v <= MAX_AMOUNT && Denotes(n, v)
      {
        Cancel(v, 0, p);
      }
    } else if n.digits <= MAX_AMOUNT {
      assert ToAmount(n) == Ok(n.digits);
      assert !Denotes(n, n.digits) by { Cancel(p, 1, n.digits); }
    } else if !IsAmount(n) {
      forall v: nat
        ensures ToAmount(n) == Ok(v) <==> v <= MAX_AMOUNT && Denotes(n, v)
      {
      }
    } else {
      var v: nat :| v <= MAX_AMOUNT && Denotes(n, v);
      assert ToAmount(n) != Ok(v);
    }
  }
}
