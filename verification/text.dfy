/** Text as the ledger handles it: trimming on construction, the code-point order that both
    Python's `sorted` and SQLite's binary collation use, and digit strings. */
module Text {

  datatype Option<+T> = None | Some(value: T)

  // ---------- Trimming ----------

  /** The characters that `str.strip` removes. */
  predicate IsSpace(c: char) {
    || '\t' <= c <= '\r'
    || '\U{1c}' <= c <= ' '
    || c in {'\U{85}', '\U{a0}', '\U{1680}', '\U{2028}', '\U{2029}', '\U{202f}', '\U{205f}', '\U{3000}'}
    || '\U{2000}' <= c <= '\U{200a}'
  }

  predicate Trimmed(s: string) {
    s != "" ==> !IsSpace(s[0]) && !IsSpace(s[|s| - 1])
  }

  /** Text that a constructor accepts and keeps unchanged. */
  predicate NonBlank(s: string) {
    s != "" && Trimmed(s)
  }

  predicate OptionalNonBlank(s: Option<string>) {
    s.Some? ==> NonBlank(s.value)
  }

  function StripLeft(s: string): (r: string)
    ensures r != "" ==> !IsSpace(r[0])
    ensures |r| <= |s| && r == s[|s| - |r|..]
    ensures forall k | 0 <= k < |s| - |r| :: IsSpace(s[k])
  {
    if s != "" && IsSpace(s[0]) then StripLeft(s[1..]) else s
  }

  function StripRight(s: string): (r: string)
    ensures r != "" ==> !IsSpace(r[|r| - 1])
    ensures r <= s
    ensures forall k | |r| <= k < |s| :: IsSpace(s[k])
  {
    if s != "" && IsSpace(s[|s| - 1]) then StripRight(s[..|s| - 1]) else s
  }

  /** The trimmed text: trimmed text stays as it is. */
  function Strip(s: string): (r: string)
    ensures Trimmed(r)
    ensures Trimmed(s) ==> r == s
  {
    StripRight(StripLeft(s))
  }

  /** `t` is `s` without the whitespace around it. */
  ghost predicate TrimOf(s: string, t: string) {
    exists k: nat :: k + |t| <= |s| && OuterSpace(s, t, k)
  }

  ghost predicate OuterSpace(s: string, t: string, k: nat)
    requires k + |t| <= |s|
  {
    && s[k..k + |t|] == t && Trimmed(t)
    && forall i | 0 <= i < k || k + |t| <= i < |s| :: IsSpace(s[i])
  }

  /** Trimming removes exactly the whitespace at both ends. */
  lemma StripTrims(s: string)
    ensures TrimOf(s, Strip(s))
  {
    hide StripLeft, StripRight, IsSpace;
    var left := StripLeft(s);
    var t := Strip(s);
    var k := |s| - |left|;
    assert forall i | 0 <= i < |left| :: left[i] == s[k + i];
    forall i | k + |t| <= i < |s| ensures IsSpace(s[i]) {
      assert IsSpace(left[i - k]);
    }
    assert OuterSpace(s, t, k);
  }

  /** There is one such text. */
  lemma TrimIsUnique(s: string, t: string)
    requires TrimOf(s, t)
    ensures t == Strip(s)
  {
    StripTrims(s);
    var u := Strip(s);
    var k: nat :| k + |t| <= |s| && OuterSpace(s, t, k);
    var l: nat :| l + |u| <= |s| && OuterSpace(s, u, l);
    SameTrim(s, t, k, u, l);
  }

  lemma SameTrim(s: string, t: string, k: nat, u: string, l: nat)
    requires k + |t| <= |s| && l + |u| <= |s| && OuterSpace(s, t, k) && OuterSpace(s, u, l)
    ensures t == u
  {
    if t != "" {
      assert s[k] == t[0] && s[k + |t| - 1] == t[|t| - 1];
      assert l <= k && k + |t| <= l + |u|;
    }
    if u != "" {
      assert s[l] == u[0] && s[l + |u| - 1] == u[|u| - 1];
      assert k <= l && l + |u| <= k + |t|;
    }
  }

  /** `require_non_empty_str`: the trimmed text, or nothing when it is blank. */
  function RequireText(s: string): (r: Option<string>)
    ensures r.Some? ==> NonBlank(r.value)
    ensures NonBlank(s) ==> r == Some(s)
    ensures r == if Strip(s) == "" then None else Some(Strip(s))
  {
    var t := Strip(s);
    if t == "" then None else Some(t)
  }

  // ---------- Order ----------

  /** Code-point order, a prefix first. */
  predicate TextLe(a: string, b: string) {
    a == "" || (b != "" && (a[0] < b[0] || (a[0] == b[0] && TextLe(a[1..], b[1..]))))
  }

  predicate TextLt(a: string, b: string) {
    a != b && TextLe(a, b)
  }

  lemma {:induction false} TextLeTotal(a: string, b: string)
    ensures TextLe(a, b) || TextLe(b, a)
    ensures TextLe(a, b) && TextLe(b, a) ==> a == b
  {
    if a != "" && b != "" && a[0] == b[0] {
      TextLeTotal(a[1..], b[1..]);
      assert a == [a[0]] + a[1..] && b == [b[0]] + b[1..];
    }
  }

  lemma {:induction false} TextLeTransitive(a: string, b: string, c: string)
    requires TextLe(a, b) && TextLe(b, c)
    ensures TextLe(a, c)
  {
    if a != "" && a[0] == b[0] == c[0] {
      TextLeTransitive(a[1..], b[1..], c[1..]);
    }
  }

  /** The first difference decides, and of two texts one of which begins the other the shorter comes first. */
  lemma {:induction false} TextLeIsLexicographic(a: string, b: string)
    ensures TextLe(a, b) <==> a <= b || exists k | 0 <= k < |a| && k < |b| :: a[..k] == b[..k] && a[k] < b[k]
  {
    if a != "" && b != "" && a[0] == b[0] {
      var x, y := a[1..], b[1..];
      TextLeIsLexicographic(x, y);
      assert a == [a[0]] + x && b == [b[0]] + y;
      if k :| 0 <= k < |x| && k < |y| && x[..k] == y[..k] && x[k] < y[k] {
        assert a[..k + 1] == [a[0]] + x[..k] && b[..k + 1] == [b[0]] + y[..k];
        assert a[k + 1] < b[k + 1];
      }
      if k :| 0 <= k < |a| && k < |b| && a[..k] == b[..k] && a[k] < b[k] {
        assert k > 0 && x[..k - 1] == a[1..k] && y[..k - 1] == b[1..k];
        assert a[1..k] == a[..k][1..] && b[1..k] == b[..k][1..];
        assert x[k - 1] < y[k - 1];
      }
    } else if a != "" && b != "" {
      if a[0] < b[0] { assert a[..0] == b[..0]; }
      forall k | 0 < k < |a| && k < |b| ensures a[..k] != b[..k] {
        assert a[..k][0] == a[0] && b[..k][0] == b[0];
      }
    }
  }

  /** Texts with a common head compare by their tails. */
  lemma {:induction false} TextLePrefix(p: string, a: string, b: string)
    ensures TextLe(p + a, p + b) <==> TextLe(a, b)
  {
    if p == "" {
      assert p + a == a && p + b == b;
    } else {
      TextLePrefix(p[1..], a, b);
      assert (p + a)[1..] == p[1..] + a && (p + b)[1..] == p[1..] + b;
    }
  }

  /** Different heads of one length decide the comparison. */
  lemma {:induction false} TextLeHead(p: string, q: string, a: string, b: string)
    requires |p| == |q| && p != q
    ensures TextLe(p + a, q + b) <==> TextLe(p, q)
  {
    assert p != "";
    assert (p + a)[1..] == p[1..] + a && (q + b)[1..] == q[1..] + b;
    assert (p + a)[0] == p[0] && (q + b)[0] == q[0];
    if p[0] == q[0] {
      assert p == [p[0]] + p[1..] && q == [q[0]] + q[1..];
      TextLeHead(p[1..], q[1..], a, b);
    }
  }

  // ---------- Digits ----------

  function Pow10(n: nat): (r: nat)
    ensures r >= 1
  {
    if n == 0 then 1 else 10 * Pow10(n - 1)
  }

  lemma {:induction false} Pow10Add(a: nat, b: nat)
    ensures Pow10(a + b) == Pow10(a) * Pow10(b)
  {
    if a > 0 { Pow10Add(a - 1, b); }
  }

  predicate IsDigit(c: char) { '0' <= c <= '9' }

  predicate AllDigits(s: string) { forall i | 0 <= i < |s| :: IsDigit(s[i]) }

  function DigitChar(d: nat): (c: char)
    requires d < 10
    ensures IsDigit(c) && DigitValue(c) == d
  {
    '0' + d as char
  }

  function DigitValue(c: char): (d: nat)
    requires IsDigit(c)
    ensures d < 10
  {
    (c - '0') as nat
  }

  /** `str(n)` for a natural number. */
  function NatText(n: nat): (s: string)
    ensures s != "" && AllDigits(s)
    ensures ReadDigits(s) == n
    ensures Plain(s)
  {
    if n < 10 then [DigitChar(n)]
    else
      var s := NatText(n / 10) + [DigitChar(n % 10)];
      assert s[..|s| - 1] == NatText(n / 10);
      assert Plain(NatText(n / 10)) && NatText(n / 10) != "0" by { NotZero(NatText(n / 10)); }
      s
  }

  /** No leading zeros. */
  predicate Plain(s: string) {
    s != "" && (s == "0" || s[0] != '0')
  }

  lemma NotZero(s: string)
    requires AllDigits(s) && ReadDigits(s) > 0
    ensures s != "0"
  {
    assert "0"[..0] == "";
  }

  /** A number has one spelling without leading zeros. */
  lemma {:induction false} OneSpelling(a: string, b: string)
    requires AllDigits(a) && AllDigits(b) && Plain(a) && Plain(b) && ReadDigits(a) == ReadDigits(b)
    ensures a == b
  {
    if |a| < |b| {
      LongerIsMore(a, b);
    } else if |b| < |a| {
      LongerIsMore(b, a);
    } else {
      FixedWidthOrder(a, b);
    }
  }

  lemma {:induction false} DigitsBound(s: string)
    requires AllDigits(s)
    ensures ReadDigits(s) < Pow10(|s|)
    ensures s != "" && s[0] != '0' ==> ReadDigits(s) >= Pow10(|s| - 1)
  {
    if |s| == 1 {
      assert s[..0] == "";
    } else if s != "" {
      DigitsBound(s[..|s| - 1]);
    }
  }

  lemma LongerIsMore(a: string, b: string)
    requires AllDigits(a) && AllDigits(b) && Plain(b) && |a| < |b| && a != ""
    ensures ReadDigits(a) < ReadDigits(b)
  {
    DigitsBound(a);
    DigitsBound(b);
    Pow10Grows(|a|, |b| - 1);
  }

  lemma {:induction false} Pow10Grows(a: nat, b: nat)
    requires a <= b
    ensures Pow10(a) <= Pow10(b)
  {
    if a < b { Pow10Grows(a, b - 1); }
  }

  /** The number that a digit string spells, leading zeros allowed. */
  function ReadDigits(s: string): nat
    requires AllDigits(s)
  {
    if s == "" then 0 else 10 * ReadDigits(s[..|s| - 1]) + DigitValue(s[|s| - 1])
  }

  function Zeros(n: nat): (s: string)
    ensures |s| == n && AllDigits(s)
  {
    seq(n, i => '0')
  }

  lemma Shift(a: nat, n: nat)
    requires n > 0
    ensures 10 * (a * Pow10(n - 1)) == a * Pow10(n)
  {}

  lemma {:induction false} ReadTrailingZeros(s: string, n: nat)
    requires AllDigits(s)
    ensures ReadDigits(s + Zeros(n)) == ReadDigits(s) * Pow10(n)
  {
    if n == 0 {
      assert s + Zeros(0) == s;
    } else {
      ReadTrailingZeros(s, n - 1);
      var t := s + Zeros(n);
      assert t[..|t| - 1] == s + Zeros(n - 1) && t[|t| - 1] == '0';
      Shift(ReadDigits(s), n);
    }
  }

  lemma {:induction false} ReadLeadingZeros(n: nat, s: string)
    requires AllDigits(s)
    ensures ReadDigits(Zeros(n) + s) == ReadDigits(s)
  {
    if s == "" {
      ReadTrailingZeros("", n);
      assert Zeros(n) + s == "" + Zeros(n);
    } else {
      ReadLeadingZeros(n, s[..|s| - 1]);
      var t := Zeros(n) + s;
      assert t[..|t| - 1] == Zeros(n) + s[..|s| - 1];
    }
  }

  /** Digit strings of one length compare as text exactly as they compare as numbers. */
  lemma {:induction false} FixedWidthOrder(a: string, b: string)
    requires AllDigits(a) && AllDigits(b) && |a| == |b|
    ensures TextLe(a, b) <==> ReadDigits(a) <= ReadDigits(b)
    ensures ReadDigits(a) == ReadDigits(b) ==> a == b
  {
    if a != "" {
      var n := |a| - 1;
      var a0, b0, x, y := a[..n], b[..n], a[n..], b[n..];
      assert a == a0 + x && b == b0 + y;
      FixedWidthOrder(a0, b0);
      if a0 == b0 {
        TextLePrefix(a0, x, y);
        assert x[1..] == "" && y[1..] == "";
      } else {
        TextLeHead(a0, b0, x, y);
      }
    }
  }

  /** `str(n)` for any integer. */
  function IntText(n: int): (s: string)
    ensures ReadInt(s) == Some(n)
    ensures if n >= 0 then Plain(s) && AllDigits(s) else s[..1] == "-" && Plain(s[1..]) && AllDigits(s[1..])
  {
    if n >= 0 then NatText(n)
    else
      var s := "-" + NatText(-n);
      assert s[1..] == NatText(-n) && !IsDigit(s[0]);
      s
  }

  /** `int(text)` on the plain spellings that `str` writes; None for any other text. */
  function ReadInt(s: string): Option<int> {
    if s != "" && AllDigits(s) then Some(ReadDigits(s))
    else if |s| > 1 && s[0] == '-' && AllDigits(s[1..]) then Some(-(ReadDigits(s[1..]) as int))
    else None
  }

  /** `n` in exactly `width` digits. */
  function Padded(n: nat, width: nat): (s: string)
    requires n < Pow10(width)
    ensures |s| == width && AllDigits(s) && ReadDigits(s) == n
  {
    if width == 0 then ""
    else
      var s := Padded(n / 10, width - 1) + [DigitChar(n % 10)];
      assert s[..|s| - 1] == Padded(n / 10, width - 1);
      s
  }
}
