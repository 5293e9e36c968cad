/**
 * The JavaScript values that reach the services from JSON payloads and query
 * results, with the pieces of JavaScript semantics the services rely on:
 * truthiness, `||`, `String(v)`, `toLowerCase()`, `trim()` and digit filtering.
 */
module JsValues {

  /** A JSON number as written in decimal: `mantissa * 10^-scale`. */
  datatype Decimal = Decimal(mantissa: int, scale: nat)

  /**
   * A JavaScript value read from a JSON object. `Undefined` stands for an
   * absent key. An array or an object is `Composite`, represented by the text
   * `String(v)` gives for it (all such values are truthy).
   */
  datatype JsValue =
    | Undefined
    | Null
    | Bool(b: bool)
    | Num(d: Decimal)
    | Str(s: string)
    | Composite(text: string)

  /** JavaScript truthiness (JSON numbers are never NaN). */
  predicate Truthy(v: JsValue) {
    match v
    case Undefined => false
    case Null => false
    case Bool(b) => b
    case Num(d) => d.mantissa != 0
    case Str(s) => s != ""
    case Composite(_) => true
  }

  /** `a || b`: the left operand when it is truthy, otherwise the right one. */
  function Or(a: JsValue, b: JsValue): (r: JsValue)
    ensures r == a || r == b
    ensures Truthy(r) <==> Truthy(a) || Truthy(b)
    ensures Truthy(a) ==> r == a
  {
    if Truthy(a) then a else b
  }

  /** `vs[0] || vs[1] || ... || vs[n-1]`, grouped to the left as JavaScript does. */
  function Coalesce(vs: seq<JsValue>): (r: JsValue)
    requires |vs| > 0
    ensures r in vs
    ensures Truthy(r) <==> exists i :: 0 <= i < |vs| && Truthy(vs[i])
  {
    if |vs| == 1 then vs[0] else Or(Coalesce(vs[..|vs| - 1]), vs[|vs| - 1])
  }

  /** The first truthy operand of a `||` chain is its value. */
  lemma {:induction false} CoalesceFirstTruthy(vs: seq<JsValue>, i: nat)
    requires i < |vs| && Truthy(vs[i])
    requires forall j :: 0 <= j < i ==> !Truthy(vs[j])
    ensures Coalesce(vs) == vs[i]
  {
    if |vs| > 1 {
      if i < |vs| - 1 {
        CoalesceFirstTruthy(vs[..|vs| - 1], i);
      } else {
        assert forall j :: 0 <= j < |vs| - 1 ==> vs[..|vs| - 1][j] == vs[j];
        assert !Truthy(Coalesce(vs[..|vs| - 1]));
      }
    }
  }

  /** A `||` chain with no truthy operand yields its last operand. */
  lemma {:induction false} CoalesceNoneTruthy(vs: seq<JsValue>)
    requires |vs| > 0
    requires forall j :: 0 <= j < |vs| ==> !Truthy(vs[j])
    ensures Coalesce(vs) == vs[|vs| - 1]
  {
    if |vs| > 1 {
      assert forall j :: 0 <= j < |vs| - 1 ==> vs[..|vs| - 1][j] == vs[j];
      assert !Truthy(Coalesce(vs[..|vs| - 1]));
    }
  }

  // ---------------------------------------------------------------------------
  // Digits and the decimal text of numbers

  predicate IsDigit(c: char) {
    '0' <= c <= '9'
  }

  predicate AllDigits(s: string) {
    forall i :: 0 <= i < |s| ==> IsDigit(s[i])
  }

  function DigitChar(d: nat): (c: char)
    requires d < 10
    ensures IsDigit(c) && c as int - '0' as int == d
  {
    ('0' as int + d) as char
  }

  function DigitOf(c: char): (d: nat)
    requires IsDigit(c)
    ensures d < 10 && DigitChar(d) == c
  {
    c as int - '0' as int
  }

  /** The value of a string of decimal digits (0 for the empty string). */
  function DigitsValue(s: string): nat
    requires AllDigits(s)
  {
    if s == [] then 0 else DigitsValue(s[..|s| - 1]) * 10 + DigitOf(s[|s| - 1])
  }

  /** The decimal text of a natural number, as `String(n)` writes it. */
  function NatToString(n: nat): (s: string)
    ensures |s| > 0 && AllDigits(s)
    ensures s[0] == '0' <==> n == 0
  {
    if n < 10 then [DigitChar(n)] else NatToString(n / 10) + [DigitChar(n % 10)]
  }

  /** Reading back the text of a number gives the number. */
  lemma {:induction false} NatToStringRoundTrip(n: nat)
    ensures DigitsValue(NatToString(n)) == n
  {
    if n >= 10 {
      var s := NatToString(n);
      assert s[..|s| - 1] == NatToString(n / 10);
      NatToStringRoundTrip(n / 10);
    }
  }

  function IntToString(i: int): (s: string)
    ensures |s| > 0
    ensures forall c :: c in s ==> IsDigit(c) || c == '-'
  {
    if i < 0 then "-" + NatToString(-i) else NatToString(i)
  }

  function Pow10(k: nat): (p: nat)
    ensures p >= 1
  {
    if k == 0 then 1 else 10 * Pow10(k - 1)
  }

  /** Drops trailing zeros of the mantissa while there are decimals left. */
  function Normalize(d: Decimal): (r: Decimal)
    ensures r.scale <= d.scale
    ensures r.scale == 0 || r.mantissa % 10 != 0
    decreases d.scale
  {
    if d.scale > 0 && d.mantissa % 10 == 0 then Normalize(Decimal(d.mantissa / 10, d.scale - 1)) else d
  }

  /** `s` preceded by zeros up to length `k`. */
  function PadLeft(s: string, k: nat): (r: string)
    ensures |r| == if |s| < k then k else |s|
    ensures AllDigits(s) ==> AllDigits(r)
  {
    if |s| < k then seq(k - |s|, _ => '0') + s else s
  }

  predicate IsNumberChar(c: char) {
    IsDigit(c) || c == '-' || c == '.'
  }

  /** The text `String(n)` gives for a JSON number in plain (non-exponent) notation. */
  function DecimalToString(d: Decimal): (s: string)
    ensures |s| > 0
    ensures forall i :: 0 <= i < |s| ==> IsNumberChar(s[i])
  {
    var n := Normalize(d);
    var a: nat := if n.mantissa < 0 then -n.mantissa else n.mantissa;
    var sign := if n.mantissa < 0 then "-" else "";
    var body := UnsignedDecimalText(a, n.scale);
    assert forall i :: 0 <= i < |sign| ==> IsNumberChar(sign[i]);
    sign + body
  }

  /** The text of `a * 10^-scale` without a sign; `scale` digits follow the point when there is one. */
  function UnsignedDecimalText(a: nat, scale: nat): (s: string)
    ensures |s| > 0
    ensures forall i :: 0 <= i < |s| ==> IsNumberChar(s[i])
  {
    var p := Pow10(scale);
    DivNonNegative(a, p);
    var whole := NatToString(a / p);
    assert forall i :: 0 <= i < |whole| ==> IsNumberChar(whole[i]);
    if scale == 0 then whole
    else
      var frac := PadLeft(NatToString(a % p), scale);
      NumberTextConcat(whole, frac);
      whole + "." + frac
  }

  lemma DivNonNegative(a: nat, p: nat)
    requires p >= 1
    ensures a / p >= 0 && a % p >= 0
  {
  }

  lemma NumberTextConcat(whole: string, frac: string)
    requires AllDigits(whole) && AllDigits(frac)
    ensures forall i :: 0 <= i < |whole + "." + frac| ==> IsNumberChar((whole + "." + frac)[i])
  {
  }

  /** `String(v)`. */
  function ToJsString(v: JsValue): string {
    match v
    case Undefined => "undefined"
    case Null => "null"
    case Bool(b) => if b then "true" else "false"
    case Num(d) => DecimalToString(d)
    case Str(s) => s
    case Composite(t) => t
  }

  // ---------------------------------------------------------------------------
  // toLowerCase, trim and character filters

  /**
   * `toLowerCase` on one character, for the ASCII and Latin-1 letters.
   */
  function LowerChar(c: char): (r: char)
    ensures IsJsSpace(r) <==> IsJsSpace(c)
    ensures IsDigit(r) <==> IsDigit(c)
    ensures !('A' <= r <= 'Z')
  {
    if 'A' <= c <= 'Z' then (c as int + 32) as char
    else if '\U{00C0}' <= c <= '\U{00DE}' && c != '\U{00D7}' then (c as int + 32) as char
    else c
  }

  lemma LowerCharIdempotent(c: char)
    ensures LowerChar(LowerChar(c)) == LowerChar(c)
  {
  }

  /** `s.toLowerCase()`. */
  function Lower(s: string): (r: string)
    ensures |r| == |s|
    ensures forall i :: 0 <= i < |s| ==> r[i] == LowerChar(s[i])
  {
    if s == [] then [] else [LowerChar(s[0])] + Lower(s[1..])
  }

  /** A string that `toLowerCase` leaves as it is. */
  predicate IsLower(s: string) {
    forall i :: 0 <= i < |s| ==> LowerChar(s[i]) == s[i]
  }

  lemma LowerIsLower(s: string)
    ensures IsLower(Lower(s))
  {
  }

  /** Lower-casing a lower-case string changes nothing. */
  lemma LowerOfLower(s: string)
    requires IsLower(s)
    ensures Lower(s) == s
  {
  }

  /** The characters `String.prototype.trim` removes: white space and line terminators. */
  predicate IsJsSpace(c: char) {
    var n := c as int;
    (9 <= n <= 13) || n == 32 || n == 0xA0 || n == 0x1680 || (0x2000 <= n <= 0x200A)
    || n == 0x2028 || n == 0x2029 || n == 0x202F || n == 0x205F || n == 0x3000 || n == 0xFEFF
  }

  /** The index of the first character of `s` at or after `i` that is not white space (`|s|` if none). */
  function SkipSpaces(s: string, i: nat): (j: nat)
    requires i <= |s|
    ensures i <= j <= |s|
    decreases |s| - i
  {
    if i < |s| && IsJsSpace(s[i]) then SkipSpaces(s, i + 1) else i
  }

  /** The end of `s[lo..j]` once its trailing white space is dropped. */
  function SkipSpacesBack(s: string, lo: nat, j: nat): (k: nat)
    requires lo <= j <= |s|
    ensures lo <= k <= j
  {
    if lo < j && IsJsSpace(s[j - 1]) then SkipSpacesBack(s, lo, j - 1) else j
  }

  /** `s.trim()`: `s` without its leading and trailing white space. */
  function Trim(s: string): (r: string)
    ensures |r| <= |s|
  {
    var lo := SkipSpaces(s, 0);
    s[lo..SkipSpacesBack(s, lo, |s|)]
  }

  lemma {:induction false} SkipSpacesSpec(s: string, i: nat)
    requires i <= |s|
    ensures forall k :: i <= k < SkipSpaces(s, i) ==> IsJsSpace(s[k])
    ensures SkipSpaces(s, i) == |s| || !IsJsSpace(s[SkipSpaces(s, i)])
    decreases |s| - i
  {
    if i < |s| && IsJsSpace(s[i]) {
      SkipSpacesSpec(s, i + 1);
    }
  }

  lemma {:induction false} SkipSpacesBackSpec(s: string, lo: nat, j: nat)
    requires lo <= j <= |s|
    ensures forall k :: SkipSpacesBack(s, lo, j) <= k < j ==> IsJsSpace(s[k])
    ensures SkipSpacesBack(s, lo, j) == lo || !IsJsSpace(s[SkipSpacesBack(s, lo, j) - 1])
  {
    if lo < j && IsJsSpace(s[j - 1]) {
      SkipSpacesBackSpec(s, lo, j - 1);
    }
  }

  /**
   * `trim` removes exactly the white space at both ends: the result is the
   * slice `s[lo..hi]`, everything outside it is white space, and the result
   * neither starts nor ends with white space.
   */
  lemma TrimSpec(s: string)
    ensures exists lo, hi ::
              && 0 <= lo <= hi <= |s| && Trim(s) == s[lo..hi]
              && (forall k :: 0 <= k < lo ==> IsJsSpace(s[k]))
              && (forall k :: hi <= k < |s| ==> IsJsSpace(s[k]))
    ensures IsTrimmed(Trim(s))
  {
    var lo := SkipSpaces(s, 0);
    var hi := SkipSpacesBack(s, lo, |s|);
    SkipSpacesSpec(s, 0);
    SkipSpacesBackSpec(s, lo, |s|);
    assert Trim(s) == s[lo..hi];
  }

  /** A string `trim` leaves as it is. */
  predicate IsTrimmed(s: string) {
    s == [] || (!IsJsSpace(s[0]) && !IsJsSpace(s[|s| - 1]))
  }

  /** Trimming a trimmed string changes nothing. */
  lemma TrimOfTrimmed(s: string)
    requires IsTrimmed(s)
    ensures Trim(s) == s
  {
    if s != [] {
      assert SkipSpaces(s, 0) == 0;
      assert SkipSpacesBack(s, 0, |s|) == |s|;
    }
  }

  /** The characters of `s` that satisfy `keep`, in order (`s.replace(/[^...]/g, '')`). */
  function Filter(s: string, keep: char -> bool): (r: string)
    ensures |r| <= |s|
    ensures forall i :: 0 <= i < |r| ==> keep(r[i])
    ensures (forall i :: 0 <= i < |s| ==> keep(s[i])) ==> r == s
  {
    if s == [] then [] else (if keep(s[0]) then [s[0]] else []) + Filter(s[1..], keep)
  }

  /** Nothing is kept from a string none of whose characters qualifies. */
  lemma {:induction false} FilterNone(s: string, keep: char -> bool)
    requires forall i :: 0 <= i < |s| ==> !keep(s[i])
    ensures Filter(s, keep) == []
  {
    if s != [] {
      FilterNone(s[1..], keep);
    }
  }

  /** `s.replace(/\D/g, '')`: the ASCII digits of `s`. */
  function DigitsOnly(s: string): (r: string)
    ensures AllDigits(r) && |r| <= |s|
    ensures AllDigits(s) ==> r == s
  {
    Filter(s, IsDigit)
  }
}
