/** Half-up rounding of amounts to cents. */
module Rounding {
  import opened Text
  import opened Decimals

  function Magnitude(n: int): nat {
    if n < 0 then -n else n
  }

  /** What is cut off adds one when it is half the divisor or more. */
  function HalfUp(n: nat, p: nat): nat
    requires p > 0
  {
    var quotient: int := n / p;
    if 2 * (n % p) >= p then quotient + 1 else quotient
  }

  /** The cents of n * 10^exp: the digits beyond the second place are rounded away. */
  function Cents(n: nat, exp: int): nat {
    if exp >= -2 then n * Pow10(exp + 2) else HalfUp(n, Pow10(-exp - 2))
  }

  /** `d.quantize(Decimal("0.01"), rounding=ROUND_HALF_UP)`: the sign is kept, the magnitude rounded. */
  function RoundEur(d: Dec): Dec {
    var cents: int := Cents(Magnitude(d.coeff), d.exp);
    Dec(if d.coeff < 0 then -cents else cents, -2)
  }

  // ---------- On numbers ----------

  /** Half-up rounding of a number: half a cent goes away from zero. */
  function RoundCents(x: real): real {
    if x >= 0.0 then (100.0 * x + 0.5).Floor as real / 100.0 else -((100.0 * -x + 0.5).Floor as real / 100.0)
  }

  function Distance(x: real, y: real): real {
    if x >= y then x - y else y - x
  }

  lemma ValueOfNegation(d: Dec)
    ensures Value(d.(coeff := -d.coeff)) == -Value(d)
  {
    if d.exp < 0 {
      NegatedQuotient(d.coeff, Pow10(-d.exp));
    } else {
      NegatedProduct(d.coeff, Pow10(d.exp));
    }
  }

  lemma NegatedQuotient(n: int, p: nat)
    requires p > 0
    ensures (-n) as real / p as real == -(n as real / p as real)
  {}

  lemma NegatedProduct(n: int, p: nat)
    ensures (-n * p) as real == -((n * p) as real)
  {
    assert -n * p == -(n * p);
  }

  lemma QuotientBounds(n: nat, p: nat)
    requires p > 0
    ensures (2 * HalfUp(n, p) - 1) * p <= 2 * n < (2 * HalfUp(n, p) + 1) * p
  {
    var q, m := n / p, n % p;
    assert n == q * p + m;
    if 2 * m >= p {
      assert (2 * (q + 1) - 1) * p == 2 * (q * p) + p;
      assert (2 * (q + 1) + 1) * p == 2 * (q * p) + 3 * p;
    } else {
      assert (2 * q - 1) * p == 2 * (q * p) - p;
      assert (2 * q + 1) * p == 2 * (q * p) + p;
    }
  }

  /** Dividing a bound through by p. */
  lemma Scaled(a: int, b: int, p: nat)
    requires p > 0
    ensures a * p <= b ==> a as real <= b as real / p as real
    ensures b < a * p ==> b as real / p as real < a as real
  {
    var q := p as real;
    var x := b as real / q;
    assert x * q == b as real;
    assert (a * p) as real == a as real * q;
    if x < a as real { assert x * q < a as real * q; }
    if x >= a as real { assert x * q >= a as real * q; }
  }

  lemma HundredTimes(n: nat, exp: int)
    ensures exp < -2 ==> 200.0 * Value(Dec(n, exp)) == (2 * n) as real / Pow10(-exp - 2) as real
    ensures exp >= -2 ==> 100.0 * Value(Dec(n, exp)) == (n * Pow10(exp + 2)) as real
  {
    if exp < -2 {
      var p := Pow10(-exp - 2);
      Pow10Add(-exp - 2, 2);
      assert Pow10(2) == 100;
      HundredOver(n, p);
    } else if exp < 0 {
      assert Pow10(1) == 10 && Pow10(2) == 100;
      HundredOver(n, 1);
    } else {
      Pow10Add(exp, 2);
      assert Pow10(2) == 100;
      assert n * Pow10(exp + 2) == 100 * (n * Pow10(exp));
    }
  }

  lemma HundredOver(n: nat, p: nat)
    requires p > 0
    ensures 200.0 * (n as real / (100 * p) as real) == (2 * n) as real / p as real
  {
    var x := n as real / (100 * p) as real;
    assert x * (100 * p) as real == n as real;
    assert (100 * p) as real == 100.0 * p as real;
    assert (200.0 * x) * p as real == (2 * n) as real;
  }

  lemma CentsBounds(n: nat, exp: int)
    ensures var v := Value(Dec(n, exp));
            2.0 * Cents(n, exp) as real - 1.0 <= 200.0 * v < 2.0 * Cents(n, exp) as real + 1.0
  {
    hide Value;
    HundredTimes(n, exp);
    if exp < -2 {
      var p := Pow10(-exp - 2);
      QuotientBounds(n, p);
      var r: int := HalfUp(n, p);
      Scaled(2 * r - 1, 2 * n, p);
      Scaled(2 * r + 1, 2 * n, p);
    }
  }

  /** The decimal algorithm computes half-up rounding, and its result has exactly two decimal places. */
  lemma RoundEurIsHalfUp(d: Dec)
    ensures Value(RoundEur(d)) == RoundCents(Value(d)) && FractionDigits(RoundEur(d)) == 2
  {
    var n := Magnitude(d.coeff);
    var up := Dec(n, d.exp);
    CentsBounds(n, d.exp);
    ValueSign(up);
    ValueSign(d);
    var x := Value(up);
    var r := Cents(n, d.exp);
    assert (100.0 * x + 0.5).Floor == r;
    assert Pow10(2) == 100;
    assert Value(Dec(r, -2)) == r as real / 100.0;
    ValueOfNegation(Dec(r, -2));
    ValueOfNegation(up);
    assert d == up || d == up.(coeff := -up.coeff);
  }

  lemma RoundEurIdempotent(d: Dec)
    ensures RoundEur(RoundEur(d)) == RoundEur(d)
  {
    assert Pow10(0) == 1;
  }

  lemma RoundWithinHalfCent(x: real)
    ensures Distance(RoundCents(x), x) <= 0.005
  {}

  lemma RoundOdd(x: real)
    ensures RoundCents(-x) == -RoundCents(x)
  {}

  lemma RoundMonotone(x: real, y: real)
    requires x <= y
    ensures RoundCents(x) <= RoundCents(y)
  {
    if x >= 0.0 {
      FloorMonotone(100.0 * x + 0.5, 100.0 * y + 0.5);
    } else if y < 0.0 {
      FloorMonotone(100.0 * -y + 0.5, 100.0 * -x + 0.5);
    } else {
      FloorMonotone(0.5, 100.0 * -x + 0.5);
      FloorMonotone(0.5, 100.0 * y + 0.5);
    }
  }

  lemma FloorMonotone(x: real, y: real)
    requires x <= y
    ensures x.Floor <= y.Floor
  {}

  /** The same laws for decimals, through their values. */
  lemma RoundEurLaws(a: Dec, b: Dec)
    ensures Distance(Value(RoundEur(a)), Value(a)) <= 0.005
    ensures Value(a) <= Value(b) ==> Value(RoundEur(a)) <= Value(RoundEur(b))
    ensures Value(RoundEur(a.(coeff := -a.coeff))) == -Value(RoundEur(a))
  {
    hide RoundEur, Value, RoundCents;
    RoundEurIsHalfUp(a);
    RoundEurIsHalfUp(b);
    RoundEurIsHalfUp(a.(coeff := -a.coeff));
    ValueOfNegation(a);
    RoundOdd(Value(a));
    RoundWithinHalfCent(Value(a));
    if Value(a) <= Value(b) { RoundMonotone(Value(a), Value(b)); }
  }

  // ---------- Sums of shares ----------

  function Sum(shares: seq<real>): real {
    if shares == [] then 0.0 else Sum(shares[..|shares| - 1]) + shares[|shares| - 1]
  }

  function RoundedSum(shares: seq<real>): real {
    if shares == [] then 0.0 else RoundedSum(shares[..|shares| - 1]) + RoundCents(shares[|shares| - 1])
  }

  /** Rounding each share moves the sum by at most half a cent a share. */
  lemma {:induction false} RoundedShares(shares: seq<real>)
    ensures Distance(RoundedSum(shares), Sum(shares)) <= 0.005 * |shares| as real
  {
    hide RoundCents;
    if shares != [] {
      var n := |shares| - 1;
      RoundedShares(shares[..n]);
      RoundWithinHalfCent(shares[n]);
    }
  }

  // ---------- Any number of digits ----------

  /** Half-up rounding to so many digits after the point. */
  function RoundTo(x: real, digits: nat): real {
    RoundAt(x, Pow10(digits) as real)
  }

  /** To a whole number of p-th parts. */
  function RoundAt(x: real, p: real): real
    requires p > 0.0
  {
    if x >= 0.0 then NearestPart(x, p) else -NearestPart(-x, p)
  }

  function NearestPart(x: real, p: real): real
    requires p > 0.0
  {
    (p * x + 0.5).Floor as real / p
  }

  lemma RoundToCents(x: real)
    ensures RoundTo(x, 2) == RoundCents(x)
  {
    assert Pow10(2) == 100;
  }

  /** Rounding p*x to a whole number moves it by at most a half, and so x by at most half a p-th. */
  lemma FloorNear(x: real, p: real)
    requires p > 0.0
    ensures Distance(NearestPart(x, p), x) <= 0.5 / p
  {
    var y := p * x;
    var r := (y + 0.5).Floor as real;
    assert y - 0.5 <= r <= y + 0.5;
    OverP(r, y, x, p);
  }

  lemma OverP(r: real, y: real, x: real, p: real)
    requires p > 0.0 && y == p * x && y - 0.5 <= r <= y + 0.5
    ensures Distance(r / p, x) <= 0.5 / p
  {
    var q, h := r / p, 0.5 / p;
    assert q * p == r && h * p == 0.5;
    if q > x + h { assert q * p > (x + h) * p; }
    if q < x - h { assert q * p < (x - h) * p; }
  }

  lemma RoundToNear(x: real, digits: nat)
    ensures Distance(RoundTo(x, digits), x) <= 0.5 / Pow10(digits) as real
  {
    RoundAtNear(x, Pow10(digits) as real);
  }

  lemma RoundAtNear(x: real, p: real)
    requires p > 0.0
    ensures Distance(RoundAt(x, p), x) <= 0.5 / p
  {
    hide NearestPart;
    FloorNear(x, p);
    FloorNear(-x, p);
  }

  function RoundedSumTo(shares: seq<real>, digits: nat): real {
    if shares == [] then 0.0 else RoundedSumTo(shares[..|shares| - 1], digits) + RoundTo(shares[|shares| - 1], digits)
  }

  /** Rounding each share moves the sum by at most half a unit of the last digit a share. */
  lemma {:induction false} RoundedSharesTo(shares: seq<real>, digits: nat)
    ensures Distance(RoundedSumTo(shares, digits), Sum(shares)) <= (0.5 / Pow10(digits) as real) * |shares| as real
  {
    hide RoundTo, Pow10;
    if shares != [] {
      var n := |shares| - 1;
      RoundedSharesTo(shares[..n], digits);
      RoundToNear(shares[n], digits);
      OneShareMore(0.5 / Pow10(digits) as real, n);
    }
  }

  lemma OneShareMore(h: real, n: nat)
    ensures h * (n + 1) as real == h * n as real + h
  {}
}
