/** Helpers the three fiches import modules (backend/apps/integration/fiches_snapshots.py,
    fiches_catalog.py and fiches_titles.py) each define identically: the guard that a
    configured table or column name is safe to splice into SQL, the lenient decimal
    conversion, and the clamping of a row limit. */
module FichesCommon {

  import opened Wrappers
  import opened Text
  import opened Numbers
  import opened Json
  import Ingredients

  predicate IsIdentStart(c: char) {
    'A' <= c <= 'Z' || 'a' <= c <= 'z' || c == '_'
  }

  /** Letters, digits, `_`, backslash and `.`: the class `[A-Za-z0-9_\\.]` of the raw pattern
      admits a backslash as well as a dot. */
  predicate IsIdentChar(c: char) {
    IsIdentStart(c) || '0' <= c <= '9' || c == '\\' || c == '.'
  }

  /** A full match of `^[A-Za-z_][A-Za-z0-9_\\.]*$`. */
  predicate IsSafeIdentifier(s: string) {
    |s| > 0 && IsIdentStart(s[0]) && forall i :: 1 <= i < |s| ==> IsIdentChar(s[i])
  }

  /** A safe identifier can carry no whitespace, quote, semicolon or parenthesis, so it cannot
      end the statement it is spliced into or open a new one. */
  lemma SafeIdentifierIsInert(s: string, i: nat)
    requires IsSafeIdentifier(s) && i < |s|
    ensures !IsSpace(s[i]) && s[i] !in "'\";()-"
  {
    assert IsIdentChar(s[i]);
  }

  /** `_safe_identifier`: the stripped name when it is a safe identifier, else the fallback. */
  function SafeIdentifier(value: string, fallback: string): (r: string)
    ensures IsSafeIdentifier(Strip(value)) ==> r == Strip(value)
    ensures !IsSafeIdentifier(Strip(value)) ==> r == fallback
  {
    var candidate := Strip(value);
    if IsSafeIdentifier(candidate) then candidate else fallback
  }

  /** With a safe fallback the result is always safe, and checking it again keeps it. */
  lemma SafeIdentifierStable(value: string, fallback: string)
    requires IsSafeIdentifier(fallback)
    ensures IsSafeIdentifier(SafeIdentifier(value, fallback))
    ensures SafeIdentifier(SafeIdentifier(value, fallback), fallback) == SafeIdentifier(value, fallback)
  {
    var r := SafeIdentifier(value, fallback);
    SafeIdentifierIsInert(r, 0);
    SafeIdentifierIsInert(r, |r| - 1);
    StripStripped(r);
  }

  /** `_safe_optional_identifier`: the stripped name when it is a safe identifier, else empty. */
  function SafeOptionalIdentifier(value: string): (r: string)
    ensures r == "" || (IsSafeIdentifier(r) && r == Strip(value))
    ensures IsSafeIdentifier(Strip(value)) <==> r != ""
  {
    var candidate := Strip(value);
    if candidate == "" then "" else if !IsSafeIdentifier(candidate) then "" else candidate
  }

  /** `Decimal(str(value))` of a JSON value; none when the text is not a decimal literal. */
  function DecimalOfJson(v: Json): (r: Option<real>)
    ensures v.JInt? ==> r == Some(v.i as real)
    ensures v.JStr? ==> r == ParseDecimal(v.s)
    ensures v.JFloat? ==> r == ParseDecimal(v.text)
    ensures v.JNull? || v.JBool? || v.JList? || v.JObj? ==> r.None?
  {
    match v
    case JInt(i) =>
      ParseDecimalOfInt(i);
      ParseDecimal(IntToString(i))
    case JStr(s) => ParseDecimal(s)
    case JFloat(t) => ParseDecimal(t)
    case _ => None
  }

  /** `_to_decimal` of the fiches imports: none for None, for "" and for anything that is not
      a decimal literal. */
  function FicheDecimal(v: Json): (r: Option<real>)
    ensures v == JNull || v == JStr("") ==> r.None?
    ensures v.JInt? ==> r == Some(v.i as real)
    ensures r.Some? ==> (v.JInt? || v.JStr? || v.JFloat?)
  {
    if v == JNull || v == JStr("") then None else DecimalOfJson(v)
  }

  /** The fiches conversion and the ingredient conversion of
      backend/apps/core/services/service_ingredients.py agree: the latter is the former with
      0 for none. */
  lemma FicheDecimalAgreesWithIngredients(v: Json)
    ensures FicheDecimal(v).GetOr(0.0) == Ingredients.ToDecimal(v)
  {
    if v == JStr("") {
      assert ParseDecimal("").None?;
    }
  }

  /** `max(lo, min(n, hi))`. */
  function Clamp(n: int, lo: int, hi: int): (r: int)
    requires lo <= hi
    ensures lo <= r <= hi
    ensures lo <= n <= hi ==> r == n
    ensures n < lo ==> r == lo
    ensures n > hi ==> r == hi
  {
    if n < lo then lo else if n > hi then hi else n
  }
}
