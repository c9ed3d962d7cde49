/** Python's integer rendering `str(int)` and the two numeric parsers the
    backend uses on text: `int(text)` and `decimal.Decimal(text)`, both over
    ASCII digits. Decimal values are exact `real`s. */
module Numbers {

  import opened Wrappers
  import opened Text

  predicate IsDigit(c: char) {
    '0' <= c <= '9'
  }

  predicate AllDigits(s: string) {
    forall i :: 0 <= i < |s| ==> IsDigit(s[i])
  }

  /** Python's `s.isdigit()` restricted to ASCII digits. */
  predicate IsDigitString(s: string) {
    |s| > 0 && AllDigits(s)
  }

  /** The characters a decimal literal may contain once stripped. */
  predicate IsDecimalChar(c: char) {
    IsDigit(c) || c == '+' || c == '-' || c == '.' || c == 'e' || c == 'E'
  }

  predicate AllDecimalChars(s: string) {
    forall i :: 0 <= i < |s| ==> IsDecimalChar(s[i])
  }

  /** The number a string of decimal digits denotes. */
  function DigitsValue(s: string): nat
    requires AllDigits(s)
    decreases |s|
  {
    if s == [] then 0 else DigitsValue(s[..|s| - 1]) * 10 + (s[|s| - 1] as int - '0' as int)
  }

  function Pow10(n: nat): (p: nat)
    ensures p >= 1
  {
    if n == 0 then 1 else 10 * Pow10(n - 1)
  }

  /** `c * 10^e` as an exact real, for any integer exponent. */
  function ScaleBy10(c: int, e: int): real {
    if e >= 0 then (c * Pow10(e)) as real else c as real / Pow10(-e) as real
  }

  /** Python's `str(n)` for a natural number: digits with no leading zero that read back as `n`. */
  function NatToString(n: nat): (s: string)
    ensures IsDigitString(s)
    ensures DigitsValue(s) == n
    ensures |s| > 1 ==> s[0] != '0'
    decreases n
  {
    if n < 10 then [('0' as int + n) as char]
    else
      var t := NatToString(n / 10);
      var s := t + [('0' as int + n % 10) as char];
      assert s[..|s| - 1] == t;
      s
  }

  /** Python's `str(i)`. */
  function IntToString(i: int): (s: string)
    ensures |s| > 0
    ensures i < 0 <==> s[0] == '-'
  {
    if i < 0 then "-" + NatToString(-i) else NatToString(i)
  }

  /** An optional sign followed by digits, as in the exponent of a decimal literal. */
  function ParseSignedDigits(s: string): (r: Option<int>)
    ensures r.Some? ==> AllDecimalChars(s)
  {
    if |s| > 0 && (s[0] == '+' || s[0] == '-') then
      if IsDigitString(s[1..]) then
        var v: int := DigitsValue(s[1..]);
        Some(if s[0] == '-' then -v else v)
      else None
    else if IsDigitString(s) then Some(DigitsValue(s))
    else None
  }

  /** Python's `int(text)` on a string: surrounding whitespace, an optional sign, ASCII digits. */
  function ParseInt(s: string): (r: Option<int>)
    ensures r.Some? ==> AllDecimalChars(Strip(s))
  {
    ParseSignedDigits(Strip(s))
  }

  /** Index of the first exponent marker `e`/`E`, if any. */
  function ExponentIndex(s: string): (r: Option<nat>)
    ensures r.Some? ==> r.value < |s| && (s[r.value] == 'e' || s[r.value] == 'E')
    ensures r.Some? ==> forall k :: 0 <= k < r.value ==> s[k] != 'e' && s[k] != 'E'
    ensures r.None? ==> forall k :: 0 <= k < |s| ==> s[k] != 'e' && s[k] != 'E'
    decreases |s|
  {
    if s == [] then None
    else if s[0] == 'e' || s[0] == 'E' then Some(0)
    else
      match ExponentIndex(s[1..])
      case None => None
      case Some(i) => Some(i + 1)
  }

  /** The significand of a decimal literal: `digits`, `digits.`, `.digits` or `digits.digits`.
      Yields the integer coefficient and the number of fraction digits. */
  function ParseSignificand(m: string): (r: Option<(nat, nat)>)
    ensures r.Some? ==> AllDecimalChars(m)
  {
    match SplitOnce(m, '.')
    case None =>
      if IsDigitString(m) then Some((DigitsValue(m), 0)) else None
    case Some((a, b)) =>
      if AllDigits(a) && AllDigits(b) && |a| + |b| > 0 then
        assert forall k :: 0 <= k < |m| ==> (k < |a| && m[k] == a[k]) || k == |a| || (k > |a| && m[k] == b[k - |a| - 1]);
        Some((DigitsValue(a + b), |b|))
      else None
  }

  /** Python's `Decimal(text)` for finite values: surrounding whitespace, an optional sign,
      a significand and an optional exponent. Any other text is rejected. */
  function ParseDecimal(s: string): (r: Option<real>)
    ensures r.Some? ==> AllDecimalChars(Strip(s))
  {
    var t := Strip(s);
    var signed := |t| > 0 && (t[0] == '+' || t[0] == '-');
    var u := if signed then t[1..] else t;
    var ei := ExponentIndex(u);
    var mant := if ei.Some? then u[..ei.value] else u;
    var sig := ParseSignificand(mant);
    var exp := if ei.Some? then ParseSignedDigits(u[ei.value + 1..]) else Some(0);
    if sig.None? || exp.None? then None
    else
      LiteralChars(t, signed, u, ei);
      var v := ScaleBy10(sig.value.0, exp.value - sig.value.1);
      Some(if signed && t[0] == '-' then -v else v)
  }

  /** A literal whose parts are made of decimal characters is itself made of them. */
  lemma LiteralChars(t: string, signed: bool, u: string, ei: Option<nat>)
    requires signed ==> |t| > 0 && (t[0] == '+' || t[0] == '-') && u == t[1..]
    requires !signed ==> u == t
    requires ei.Some? ==> ei.value < |u| && (u[ei.value] == 'e' || u[ei.value] == 'E')
    requires ei.Some? ==> AllDecimalChars(u[..ei.value]) && AllDecimalChars(u[ei.value + 1..])
    requires ei.None? ==> AllDecimalChars(u)
    ensures AllDecimalChars(t)
  {
    if ei.Some? {
      var i := ei.value;
      forall k | 0 <= k < |u| ensures IsDecimalChar(u[k]) {
        if k < i {
          assert u[k] == u[..i][k];
        } else if k > i {
          assert u[k] == u[i + 1..][k - i - 1];
        }
      }
    }
    if signed {
      forall k | 0 <= k < |t| ensures IsDecimalChar(t[k]) {
        if k > 0 {
          assert t[k] == u[k - 1];
        }
      }
    }
  }

  /** `Strip` leaves a rendered integer unchanged. */
  lemma IntToStringStripped(i: int)
    ensures Strip(IntToString(i)) == IntToString(i)
  {
    var s := IntToString(i);
    StripStripped(s);
  }

  /** `int(str(i)) == i`. */
  lemma ParseIntRoundTrip(i: int)
    ensures ParseInt(IntToString(i)) == Some(i)
  {
    IntToStringStripped(i);
    if i < 0 {
      assert IntToString(i)[1..] == NatToString(-i);
    }
  }

  /** `Decimal(str(i)) == i`: a rendered integer parses back to itself. */
  lemma ParseDecimalOfInt(i: int)
    ensures ParseDecimal(IntToString(i)) == Some(i as real)
  {
    IntToStringStripped(i);
    var s := IntToString(i);
    var n: nat := if i < 0 then -i else i;
    var d := NatToString(n);
    var u := if i < 0 then s[1..] else s;
    assert u == d;
    NoExponentInDigits(d);
    assert SplitOnce(d, '.') == None;
  }

  lemma {:induction false} NoExponentInDigits(d: string)
    requires AllDigits(d)
    ensures ExponentIndex(d) == None
  {
    if d != [] {
      NoExponentInDigits(d[1..]);
    }
  }

  /** A text holding, once stripped, any character that cannot appear in a decimal literal is
      not a decimal. */
  lemma DecimalRejectsForeignChar(s: string, i: nat)
    requires i < |Strip(s)| && !IsDecimalChar(Strip(s)[i])
    ensures ParseDecimal(s) == None
  {
    assert !AllDecimalChars(Strip(s));
  }

  /** A literal with a unit glued on, such as "130 g", is not a decimal. */
  lemma DecimalRejectsUnitSuffix()
    ensures ParseDecimal("130 g") == None
  {
    var t := "130 g";
    assert IsStripped(t);
    StripStripped(t);
    assert Strip(t)[3] == ' ';
    DecimalRejectsForeignChar(t, 3);
  }
}
