/** Exact decimals: a coefficient and a power of ten, as `decimal.Decimal` keeps a finite number.
    Negative zero is not represented. */
module Decimals {
  import opened Text

  datatype Dec = Dec(coeff: int, exp: int)

  /** The number a decimal denotes. */
  function Value(d: Dec): real {
    if d.exp >= 0 then (d.coeff * Pow10(d.exp)) as real
    else d.coeff as real / Pow10(-d.exp) as real
  }

  /** `max(-exponent, 0)`: the digits after the point. */
  function FractionDigits(d: Dec): nat {
    if d.exp < 0 then -d.exp else 0
  }

  lemma ValueSign(d: Dec)
    ensures d.coeff >= 0 <==> Value(d) >= 0.0
    ensures d.coeff == 0 <==> Value(d) == 0.0
  {
    if d.exp >= 0 {
      var p := Pow10(d.exp);
      if d.coeff > 0 { assert d.coeff * p > 0; } else if d.coeff < 0 { assert d.coeff * p < 0; }
    } else {
      var p := Pow10(-d.exp) as real;
      var v := Value(d);
      assert v * p == d.coeff as real;
      if v > 0.0 { assert v * p > 0.0; } else if v < 0.0 { assert v * p < 0.0; }
    }
  }

  /** The texts before and after the point of a decimal with a negative exponent. */
  function Parts(d: Dec): (r: (string, string))
    requires d.coeff >= 0 && d.exp < 0
    ensures r.0 != "" && AllDigits(r.0) && AllDigits(r.1) && |r.1| == -d.exp
  {
    var digits := NatText(d.coeff);
    var point := |digits| + d.exp;
    if point <= 0 then ("0", Zeros(-point) + digits) else (digits[..point], digits[point..])
  }

  lemma PartsSpell(d: Dec)
    requires d.coeff >= 0 && d.exp < 0
    ensures ReadDigits(Parts(d).0 + Parts(d).1) == d.coeff
  {
    var digits := NatText(d.coeff);
    var point := |digits| + d.exp;
    if point <= 0 {
      ReadLeadingZeros(1 - point, digits);
      assert "0" + (Zeros(-point) + digits) == Zeros(1 - point) + digits;
    } else {
      assert digits[..point] + digits[point..] == digits;
    }
  }

  function PrintMagnitude(d: Dec): (s: string)
    requires d.coeff >= 0
    ensures s != "" && IsDigit(s[0])
  {
    if d.exp < 0 then Parts(d).0 + "." + Parts(d).1
    else if d.coeff == 0 then "0"
    else NatText(d.coeff) + Zeros(d.exp)
  }

  /** `format(d, "f")`. */
  function PrintFixed(d: Dec): string {
    if d.coeff < 0 then "-" + PrintMagnitude(d.(coeff := -d.coeff)) else PrintMagnitude(d)
  }

  function IndexOfPoint(s: string): (k: nat)
    ensures k <= |s|
    ensures forall i | 0 <= i < k :: s[i] != '.'
    ensures k < |s| ==> s[k] == '.'
  {
    if s == "" || s[0] == '.' then 0 else 1 + IndexOfPoint(s[1..])
  }

  function ReadMagnitude(s: string): (r: Option<Dec>) {
    var k := IndexOfPoint(s);
    var whole := s[..k];
    var fraction := if k < |s| then s[k + 1..] else "";
    if AllDigits(whole + fraction) && |whole + fraction| > 0
    then Some(Dec(ReadDigits(whole + fraction), -|fraction|))
    else None
  }

  /** `Decimal(text)` on fixed-point text; None for any other text. */
  function ReadFixed(s: string): Option<Dec> {
    if s != "" && s[0] == '-' then
      match ReadMagnitude(s[1..])
      case None => None
      case Some(d) => Some(d.(coeff := -d.coeff))
    else ReadMagnitude(s)
  }

  /** The form in which a decimal comes back from fixed-point text. */
  function Canonical(d: Dec): Dec {
    if d.exp <= 0 then d else Dec(d.coeff * Pow10(d.exp), 0)
  }

  lemma CanonicalKeeps(d: Dec)
    ensures Value(Canonical(d)) == Value(d)
    ensures FractionDigits(Canonical(d)) == FractionDigits(d)
    ensures d.coeff >= 0 ==> Canonical(d).coeff >= 0
    ensures Canonical(Canonical(d)) == Canonical(d)
  {
    if d.exp > 0 {
      assert Pow10(0) == 1;
      if d.coeff >= 0 { assert d.coeff * Pow10(d.exp) >= 0; }
    }
  }

  lemma ReadSplit(whole: string, fraction: string)
    requires AllDigits(whole) && AllDigits(fraction) && whole != ""
    ensures ReadMagnitude(whole + "." + fraction) == Some(Dec(ReadDigits(whole + fraction), -|fraction|))
  {
    var s := whole + "." + fraction;
    var k := IndexOfPoint(s);
    assert s[|whole|] == '.';
    assert forall i | 0 <= i < |whole| :: s[i] == whole[i] && IsDigit(s[i]);
    assert k == |whole|;
    assert s[..k] == whole && s[k + 1..] == fraction;
  }

  lemma ReadWhole(whole: string)
    requires AllDigits(whole) && whole != ""
    ensures ReadMagnitude(whole) == Some(Dec(ReadDigits(whole), 0))
  {
    assert IndexOfPoint(whole) == |whole|;
    assert whole[..|whole|] + "" == whole;
  }

  lemma FractionRoundTrip(d: Dec)
    requires d.coeff >= 0 && d.exp < 0
    ensures ReadMagnitude(PrintMagnitude(d)) == Some(Canonical(d))
  {
    hide ReadMagnitude, ReadDigits, Parts;
    PartsSpell(d);
    ReadSplit(Parts(d).0, Parts(d).1);
  }

  lemma ZeroRoundTrip(exp: nat)
    ensures ReadMagnitude(PrintMagnitude(Dec(0, exp))) == Some(Canonical(Dec(0, exp)))
  {
    hide ReadMagnitude;
    ReadWhole("0");
    assert ReadDigits("0") == 0 by { assert "0"[..0] == ""; }
    assert 0 * Pow10(exp) == 0;
  }

  lemma MagnitudeRoundTrip(d: Dec)
    requires d.coeff >= 0
    ensures ReadMagnitude(PrintMagnitude(d)) == Some(Canonical(d))
  {
    hide ReadMagnitude, ReadDigits;
    if d.exp < 0 {
      FractionRoundTrip(d);
    } else if d.coeff == 0 {
      ZeroRoundTrip(d.exp);
    } else {
      var digits := NatText(d.coeff);
      ReadTrailingZeros(digits, d.exp);
      ReadWhole(digits + Zeros(d.exp));
      assert Pow10(0) == 1;
    }
  }

  lemma ReadNegative(s: string, d: Dec)
    requires ReadMagnitude(s) == Some(d)
    ensures ReadFixed("-" + s) == Some(d.(coeff := -d.coeff))
  {
    assert ("-" + s)[1..] == s;
  }

  lemma CanonicalNegated(d: Dec)
    ensures Canonical(d.(coeff := -d.coeff)) == Canonical(d).(coeff := -Canonical(d).coeff)
  {
    if d.exp > 0 { assert -d.coeff * Pow10(d.exp) == -(d.coeff * Pow10(d.exp)); }
  }

  lemma SignedRoundTrip(d: Dec)
    ensures ReadFixed(PrintFixed(d)) == Some(Canonical(d))
  {
    hide ReadMagnitude, PrintMagnitude;
    if d.coeff < 0 {
      var m := d.(coeff := -d.coeff);
      MagnitudeRoundTrip(m);
      ReadNegative(PrintMagnitude(m), Canonical(m));
      CanonicalNegated(m);
    } else {
      MagnitudeRoundTrip(d);
    }
  }

  /** Reading back the printed text gives the same number with the same digits after the point,
      for every coefficient and exponent; the text is never empty, and signed only for a negative
      number. */
  lemma FixedTextRoundTrip(d: Dec)
    ensures ReadFixed(PrintFixed(d)) == Some(Canonical(d))
    ensures Value(Canonical(d)) == Value(d) && FractionDigits(Canonical(d)) == FractionDigits(d)
    ensures PrintFixed(d) != "" && (PrintFixed(d)[0] == '-' <==> Value(d) < 0.0)
  {
    SignedRoundTrip(d);
    CanonicalKeeps(d);
    ValueSign(d);
  }

  // ---------- The one text ----------

  /** Digits without leading zeros, and a point only before digits. */
  predicate FixedForm(s: string, whole: string, fraction: string) {
    && AllDigits(whole) && AllDigits(fraction) && Plain(whole)
    && s == if fraction == "" then whole else whole + "." + fraction
  }

  lemma PartsPlain(d: Dec)
    requires d.coeff >= 0 && d.exp < 0
    ensures Plain(Parts(d).0)
  {
    hide NatText, ReadDigits;
    var digits := NatText(d.coeff);
    if digits == "0" { assert |digits| + d.exp <= 0; }
  }

  lemma PlainWithZeros(s: string, n: nat)
    requires Plain(s) && s != "0"
    ensures Plain(s + Zeros(n))
  {
    assert (s + Zeros(n))[0] == s[0];
  }

  lemma PrintedForm(d: Dec) returns (whole: string, fraction: string)
    requires d.coeff >= 0
    ensures FixedForm(PrintFixed(d), whole, fraction) && |fraction| == FractionDigits(d)
  {
    if d.exp < 0 {
      whole, fraction := Parts(d).0, Parts(d).1;
      PartsPlain(d);
    } else {
      whole, fraction := PrintFixed(d), "";
      if d.coeff > 0 {
        NotZero(NatText(d.coeff));
        PlainWithZeros(NatText(d.coeff), d.exp);
      }
    }
  }

  lemma FormRead(s: string, whole: string, fraction: string)
    requires FixedForm(s, whole, fraction)
    ensures ReadFixed(s) == Some(Dec(ReadDigits(whole + fraction), -|fraction|))
  {
    hide ReadDigits;
    assert s[0] == whole[0] && IsDigit(s[0]);
    if fraction == "" {
      ReadWhole(whole);
      assert whole + fraction == whole;
    } else {
      ReadSplit(whole, fraction);
    }
  }

  /** Forms with the same digits after the point and the same digits in all are one text. */
  lemma SameForm(w: string, f: string, v: string, g: string)
    requires AllDigits(w) && AllDigits(f) && AllDigits(v) && AllDigits(g) && Plain(w) && Plain(v)
    requires |f| == |g| && ReadDigits(w + f) == ReadDigits(v + g)
    ensures w == v && f == g
  {
    hide ReadDigits, Plain;
    if |w| < |v| {
      LongerForm(w, f, v, g);
    } else if |v| < |w| {
      LongerForm(v, g, w, f);
    } else {
      FixedWidthOrder(w + f, v + g);
      assert w == (w + f)[..|w|] && v == (v + g)[..|v|] && f == (w + f)[|w|..] && g == (v + g)[|v|..];
    }
  }

  lemma LongerForm(w: string, f: string, v: string, g: string)
    requires AllDigits(w) && AllDigits(f) && AllDigits(v) && AllDigits(g) && Plain(w) && Plain(v)
    requires |f| == |g| && |w| < |v|
    ensures ReadDigits(w + f) < ReadDigits(v + g)
  {
    assert (v + g)[0] == v[0];
    LongerIsMore(w + f, v + g);
  }

  /** No other text of this form reads back as the number, so the printed text is fixed. */
  lemma FixedTextUnique(d: Dec, s: string, whole: string, fraction: string)
    requires d.coeff >= 0 && FixedForm(s, whole, fraction) && ReadFixed(s) == Some(Canonical(d))
    ensures s == PrintFixed(d)
  {
    hide PrintFixed, Canonical, ReadFixed, ReadDigits, Plain;
    var w, f := PrintedForm(d);
    FixedTextRoundTrip(d);
    FormRead(s, whole, fraction);
    FormRead(PrintFixed(d), w, f);
    SameForm(whole, fraction, w, f);
  }

  ghost predicate DecimalForm(s: string, whole: string, fraction: string) {
    && AllDigits(whole) && AllDigits(fraction) && whole + fraction != ""
    && (s == whole + "." + fraction || (s == whole && fraction == ""))
  }

  lemma FormIsRead(s: string, whole: string, fraction: string)
    requires DecimalForm(s, whole, fraction)
    ensures ReadMagnitude(s).Some?
  {
    hide ReadDigits;
    if s == whole {
      ReadWhole(whole);
    } else {
      var k := IndexOfPoint(s);
      assert s[|whole|] == '.' && forall i | 0 <= i < |whole| :: s[i] == whole[i];
      assert k == |whole| && s[..k] == whole && s[k + 1..] == fraction;
    }
  }

  lemma DigitsOfParts(a: string, b: string)
    ensures AllDigits(a + b) ==> AllDigits(a) && AllDigits(b)
  {
    assert forall i | 0 <= i < |a| :: a[i] == (a + b)[i];
    assert forall i | 0 <= i < |b| :: b[i] == (a + b)[|a| + i];
  }

  /** Decimal text is digits, at least one, with at most one point among them. */
  lemma ReadMagnitudeExact(s: string)
    ensures ReadMagnitude(s).Some? <==> exists whole, fraction :: DecimalForm(s, whole, fraction)
  {
    hide ReadDigits, IsDigit;
    if ReadMagnitude(s).Some? {
      var k := IndexOfPoint(s);
      var whole := s[..k];
      var fraction := if k < |s| then s[k + 1..] else "";
      DigitsOfParts(whole, fraction);
      assert s == if k < |s| then whole + "." + fraction else whole;
      assert DecimalForm(s, whole, fraction);
    }
    forall whole, fraction | DecimalForm(s, whole, fraction) ensures ReadMagnitude(s).Some? {
      FormIsRead(s, whole, fraction);
    }
  }
}
