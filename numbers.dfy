/**
 * Decimal text: natural numbers as digit strings, the decimal prices the
 * catalog carries as text (`"249.90"`), and the fixed-point renderings the
 * feeds use (`f"{float(p):.2f}"`, `str(int(float(p)))`, weights in kilograms).
 */
module Numbers {
  import opened Values
  import opened Text

  predicate AllDigits(s: string)
  {
    forall i :: 0 <= i < |s| ==> IsDigit(s[i])
  }

  function DigitChar(d: nat): (c: char)
    requires d < 10
    ensures IsDigit(c)
  {
    ('0' as int + d) as char
  }

  function DigitValue(c: char): nat
    requires IsDigit(c)
  {
    c as int - '0' as int
  }

  /** The value of a digit string, most significant digit first. */
  function DigitsValue(s: string): nat
    requires AllDigits(s)
  {
    if s == [] then 0 else DigitsValue(s[..|s| - 1]) * 10 + DigitValue(s[|s| - 1])
  }

  /** `str(n)`: decimal digits without leading zeros. */
  function NatToString(n: nat): (r: string)
    ensures r != [] && AllDigits(r)
    ensures |r| > 1 ==> r[0] != '0'
    ensures n < 10 ==> |r| == 1
    ensures n < 100 ==> |r| <= 2
    ensures n < 1000 ==> |r| <= 3
  {
    if n < 10 then [DigitChar(n)] else NatToString(n / 10) + [DigitChar(n % 10)]
  }

  /** Reading back the digits of `str(n)` gives `n`. */
  lemma {:induction false} NatToStringValue(n: nat)
    ensures DigitsValue(NatToString(n)) == n
  {
    if n >= 10 {
      NatToStringValue(n / 10);
      var s := NatToString(n);
      assert s[..|s| - 1] == NatToString(n / 10);
    }
  }

  /** `str(i)` for an integer. */
  function IntToString(i: int): string
  {
    if i < 0 then "-" + NatToString(-i) else NatToString(i)
  }

  /** `s` left-padded with zeros to `width` characters. */
  function ZeroPad(s: string, width: nat): (r: string)
    ensures |r| == if |s| < width then width else |s|
    ensures EndsWith(r, s)
    ensures forall i :: 0 <= i < |r| - |s| ==> r[i] == '0'
  {
    var z := if |s| < width then width - |s| else 0;
    seq(z, _ => '0') + s
  }

  lemma ZeroPadDigits(s: string, width: nat)
    requires AllDigits(s)
    ensures AllDigits(ZeroPad(s, width))
  {
    var r := ZeroPad(s, width);
    forall i | 0 <= i < |r| ensures IsDigit(r[i]) {
      if i >= |r| - |s| { assert r[i] == r[|r| - |s|..][i - (|r| - |s|)]; }
    }
  }

  // ------------------------------------------------------------ decimals

  /** A decimal literal `[+-]whole[.frac]` where at least one of the digit runs is non-empty. */
  datatype Decimal = Decimal(negative: bool, whole: string, frac: string)

  predicate WellFormed(d: Decimal)
  {
    AllDigits(d.whole) && AllDigits(d.frac) && (d.whole != [] || d.frac != [])
  }

  /** The unsigned digits with an optional `.`; `None` when another character occurs. */
  function ParseUnsigned(negative: bool, body: string): (r: Option<Decimal>)
    ensures r.Some? ==> WellFormed(r.value) && r.value.negative == negative
  {
    match FirstIndex(body, '.')
    case None =>
      if AllDigits(body) && body != [] then Some(Decimal(negative, body, [])) else None
    case Some(i) =>
      var w, f := body[..i], body[i + 1..];
      if AllDigits(w) && AllDigits(f) && (w != [] || f != []) then Some(Decimal(negative, w, f)) else None
  }

  /**
   * `float(s)` on plain decimal literals: surrounding whitespace, an optional
   * sign, digits with at most one point. Anything else is `None` (`ValueError`).
   */
  function ParseDecimal(s: string): (r: Option<Decimal>)
    ensures r.Some? ==> WellFormed(r.value)
  {
    ParseSignedText(Strip(s))
  }

  /** An optional sign, then the unsigned literal. */
  function ParseSignedText(t: string): (r: Option<Decimal>)
    ensures r.Some? ==> WellFormed(r.value)
  {
    if t != [] && (t[0] == '-' || t[0] == '+') then ParseUnsigned(t[0] == '-', t[1..])
    else ParseUnsigned(false, t)
  }

  function FracDigit(d: Decimal, k: nat): nat
    requires WellFormed(d)
  {
    if k < |d.frac| then DigitValue(d.frac[k]) else 0
  }

  /** The magnitude in hundredths, rounded half up on the third fraction digit. */
  function Cents(d: Decimal): nat
    requires WellFormed(d)
  {
    DigitsValue(d.whole) * 100 + FracDigit(d, 0) * 10 + FracDigit(d, 1)
    + (if FracDigit(d, 2) >= 5 then 1 else 0)
  }

  /** `f"{x:.2f}"`: the sign of `x` (also of a negative zero), the whole part, a point and two digits. */
  function Fixed2(d: Decimal): (r: string)
    requires WellFormed(d)
    ensures |r| >= 4 && r[|r| - 3] == '.' && IsDigit(r[|r| - 2]) && IsDigit(r[|r| - 1])
  {
    var sign, h := if d.negative then "-" else "", Hundredths(Cents(d));
    SuffixIndex(sign, h, 1);
    SuffixIndex(sign, h, 2);
    SuffixIndex(sign, h, 3);
    sign + h
  }

  /** A whole number of hundredths written with two decimals: the whole part, a point and two digits. */
  function Hundredths(c: nat): (r: string)
    ensures |r| >= 4 && r[|r| - 3] == '.' && IsDigit(r[|r| - 2]) && IsDigit(r[|r| - 1])
  {
    Pointed(NatToString(c / 100), TwoDigits(c % 100))
  }

  /** `f` below a hundred on two digits, a leading zero when it is below ten. */
  function TwoDigits(f: nat): (r: string)
    requires f < 100
    ensures |r| == 2 && AllDigits(r) && DigitValue(r[0]) * 10 + DigitValue(r[1]) == f
  {
    TwoDigitValue(f);
    ZeroPad(NatToString(f), 2)
  }

  /** A whole part, a point and two fraction digits. */
  function Pointed(whole: string, frac: string): (r: string)
    requires whole != [] && |frac| == 2 && AllDigits(frac)
    ensures |r| >= 4 && r[|r| - 3] == '.' && IsDigit(r[|r| - 2]) && IsDigit(r[|r| - 1])
  {
    PointTail(whole, frac);
    whole + "." + frac
  }

  lemma SuffixIndex(a: string, b: string, k: nat)
    requires 1 <= k <= |b|
    ensures (a + b)[|a + b| - k] == b[|b| - k]
  {
  }

  lemma PointTail(a: string, b: string)
    requires a != [] && |b| == 2 && AllDigits(b)
    ensures var r := a + "." + b; |r| >= 4 && r[|r| - 3] == '.' && IsDigit(r[|r| - 2]) && IsDigit(r[|r| - 1])
  {
    var r := a + "." + b;
    assert r[|r| - 2] == b[0] && r[|r| - 1] == b[1];
  }

  lemma {:induction false} TwoDigitValue(n: nat)
    requires n < 100
    ensures AllDigits(ZeroPad(NatToString(n), 2))
    ensures |ZeroPad(NatToString(n), 2)| == 2
    ensures DigitValue(ZeroPad(NatToString(n), 2)[0]) * 10 + DigitValue(ZeroPad(NatToString(n), 2)[1]) == n
  {
    ZeroPadDigits(NatToString(n), 2);
    var p := ZeroPad(NatToString(n), 2);
    if n < 10 {
      assert p == ['0', DigitChar(n)];
    } else {
      assert NatToString(n) == NatToString(n / 10) + [DigitChar(n % 10)];
      assert p == [DigitChar(n / 10), DigitChar(n % 10)];
    }
  }

  /** Digits, a point and digits parse as that decimal. */
  lemma ParsePointed(negative: bool, w: string, f: string)
    requires AllDigits(w) && AllDigits(f) && w != []
    ensures ParseUnsigned(negative, w + "." + f) == Some(Decimal(negative, w, f))
  {
    var body := w + "." + f;
    assert body[..|w|] == w && body[|w| + 1..] == f;
    assert forall i :: 0 <= i < |w| ==> body[i] == w[i];
    assert '.' !in w;
    assert FirstIndex(body, '.') == Some(|w|);
  }

  /** The signed two-decimal text of `d` is made of its sign and an unsigned part. */
  lemma Fixed2Parts(d: Decimal) returns (w: string, f: string)
    requires WellFormed(d)
    ensures AllDigits(w) && w != [] && AllDigits(f) && |f| == 2
    ensures Fixed2(d) == (if d.negative then "-" else "") + (w + "." + f)
    ensures DigitsValue(w) * 100 + DigitValue(f[0]) * 10 + DigitValue(f[1]) == Cents(d)
  {
    var c := Cents(d);
    w := NatToString(c / 100);
    f := TwoDigits(c % 100);
    NatToStringValue(c / 100);
  }

  /** A body with digit ends, after an optional minus sign, is parsed with that sign. */
  lemma ParseSigned(negative: bool, body: string)
    requires body != [] && IsDigit(body[0]) && IsDigit(body[|body| - 1])
    ensures ParseDecimal((if negative then "-" else "") + body) == ParseUnsigned(negative, body)
  {
    if negative {
      ParseMinus(body);
      assert "-" + body == ['-'] + body;
    } else {
      assert "" + body == body;
      assert !IsSpace(body[0]) && !IsSpace(body[|body| - 1]);
      StripNoOp(body);
      assert ParseDecimal(body) == ParseSignedText(body);
      assert body[0] != '-' && body[0] != '+';
    }
  }

  lemma ParseMinus(body: string)
    requires body != [] && IsDigit(body[|body| - 1])
    ensures ParseDecimal(['-'] + body) == ParseUnsigned(true, body)
  {
    var r := ['-'] + body;
    assert r[|r| - 1] == body[|body| - 1];
    StripNoOp(r);
    assert r[1..] == body;
  }

  /** Rendering with two decimals and parsing back keeps the sign and the amount in hundredths. */
  lemma Fixed2RoundTrip(d: Decimal)
    requires WellFormed(d)
    ensures ParseDecimal(Fixed2(d)).Some?
    ensures ParseDecimal(Fixed2(d)).value.negative == d.negative
    ensures Cents(ParseDecimal(Fixed2(d)).value) == Cents(d)
  {
    var w, f := Fixed2Parts(d);
    var body := w + "." + f;
    ParsePointed(d.negative, w, f);
    ParseSigned(d.negative, body);
    var e := Decimal(d.negative, w, f);
    assert ParseDecimal(Fixed2(d)) == Some(e);
    assert FracDigit(e, 0) == DigitValue(f[0]) && FracDigit(e, 1) == DigitValue(f[1]) && FracDigit(e, 2) == 0;
  }

  /** `str(int(float(s)))`: the integer part, truncated toward zero. */
  function TruncText(d: Decimal): (r: string)
    requires WellFormed(d)
    ensures r != []
  {
    var w: int := DigitsValue(d.whole);
    IntToString(if d.negative then -w else w)
  }

  /** The truncated text reads back as the whole part, negative only when the whole part is non-zero. */
  lemma TruncTextValue(d: Decimal)
    requires WellFormed(d)
    ensures var r := TruncText(d); var w := DigitsValue(d.whole);
      if d.negative && w != 0 then r[0] == '-' && AllDigits(r[1..]) && DigitsValue(r[1..]) == w
      else AllDigits(r) && DigitsValue(r) == w
  {
    NatToStringValue(DigitsValue(d.whole));
    var r := TruncText(d);
    if d.negative && DigitsValue(d.whole) != 0 {
      assert r[1..] == NatToString(DigitsValue(d.whole));
    }
  }

  // ------------------------------------------------------------- weights

  /** `f"{g / 1000:.3f}"` for whole grams: exact, three decimals. */
  function Kg3(g: nat): (r: string)
    ensures |r| >= 5 && r[|r| - 4] == '.'
  {
    NatToString(g / 1000) + "." + ZeroPad(NatToString(g % 1000), 3)
  }

  /** `f"{g / 1000:.2f}"` for whole grams: hundredths of a kilogram, a half rounding up. */
  function Kg2(g: nat): (r: string)
    ensures |r| >= 4 && r[|r| - 3] == '.'
  {
    Hundredths((g + 5) / 10)
  }

  /** `f"{float(g)}"` for whole grams: the digits and `.0`. */
  function FloatText(g: nat): (r: string)
    ensures EndsWith(r, ".0")
  {
    NatToString(g) + ".0"
  }

  lemma {:induction false} ThreeDigitValue(n: nat)
    requires n < 1000
    ensures var p := ZeroPad(NatToString(n), 3);
      |p| == 3 && AllDigits(p) && DigitsValue(p) == n
  {
    var p := ZeroPad(NatToString(n), 3);
    ZeroPadDigits(NatToString(n), 3);
    NatToStringValue(n);
    LeadingZerosValue(NatToString(n), 3);
  }

  lemma {:induction false} LeadingZerosValue(s: string, width: nat)
    requires AllDigits(s)
    ensures AllDigits(ZeroPad(s, width)) && DigitsValue(ZeroPad(s, width)) == DigitsValue(s)
  {
    ZeroPadDigits(s, width);
    var z := if |s| < width then width - |s| else 0;
    ZerosValue(z, s);
  }

  lemma {:induction false} ZerosValue(k: nat, s: string)
    requires AllDigits(s)
    ensures AllDigits(seq(k, _ => '0') + s) && DigitsValue(seq(k, _ => '0') + s) == DigitsValue(s)
  {
    if k == 0 {
      assert seq(k, _ => '0') + s == s;
    } else {
      ZerosValue(k - 1, s);
      var t := seq(k - 1, _ => '0') + s;
      PrependZero(t);
      assert seq(k, _ => '0') + s == ['0'] + t;
    }
  }

  lemma {:induction false} PrependZero(s: string)
    requires AllDigits(s)
    ensures AllDigits(['0'] + s) && DigitsValue(['0'] + s) == DigitsValue(s)
    decreases |s|
  {
    if s != [] {
      var z := ['0'] + s;
      assert z[..|z| - 1] == ['0'] + s[..|s| - 1];
      PrependZero(s[..|s| - 1]);
    }
  }

  /** The kilogram text reads back as the grams: whole kilograms, then three digits of grams. */
  lemma Kg3Value(g: nat)
    ensures var r := Kg3(g); var w := NatToString(g / 1000);
      r[..|w|] == w && DigitsValue(w) * 1000 + DigitsValue(r[|w| + 1..]) == g
      && |r| == |w| + 4 && r[|w|] == '.' && AllDigits(r[|w| + 1..])
  {
    var w := NatToString(g / 1000);
    var r := Kg3(g);
    ThreeDigitValue(g % 1000);
    NatToStringValue(g / 1000);
    assert r[|w| + 1..] == ZeroPad(NatToString(g % 1000), 3);
  }
}
