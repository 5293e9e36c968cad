/**
 * The value-level part of processing one staged contact row
 * (src/imports/imports.service.ts): key folding, alias resolution, phone
 * cleaning, the `is_primary` coercion and `parseCurrency`.
 */
module Normalizer {
  import opened Wrappers
  import opened JsValues

  /** One key of a raw row with its value. */
  type Entry = (string, JsValue)

  /**
   * A raw staged row: its entries in the order `Object.keys` enumerates them,
   * taken to be the order in which they were uploaded.
   */
  type RawRow = seq<Entry>

  /** A row after key normalisation. */
  type Row = map<string, JsValue>

  // ---------------------------------------------------------------------------
  // Key normalisation

  /** `k.toLowerCase().trim()`. */
  function FoldKey(k: string): string {
    Trim(Lower(k))
  }

  /** A folded key is lower-case and has no surrounding white space. */
  lemma FoldKeyFolded(k: string)
    ensures IsLower(FoldKey(k)) && IsTrimmed(FoldKey(k))
  {
    var l := Lower(k);
    TrimSpec(l);
    var lo, hi :| 0 <= lo <= hi <= |l| && Trim(l) == l[lo..hi];
    forall i | 0 <= i < hi - lo
      ensures LowerChar(Trim(l)[i]) == Trim(l)[i]
    {
      LowerCharIdempotent(k[lo + i]);
    }
  }

  /** A folded key folds to itself. */
  lemma FoldKeyIdempotent(k: string)
    ensures FoldKey(FoldKey(k)) == FoldKey(k)
  {
    var f := FoldKey(k);
    FoldKeyFolded(k);
    LowerOfLower(f);
    TrimOfTrimmed(f);
  }

  /**
   * The row the `forEach` over `Object.keys(raw)` builds: every key folded,
   * a later entry overwriting an earlier one whose key folds the same.
   */
  function NormalizeKeys(raw: RawRow): Row {
    if raw == [] then map[]
    else NormalizeKeys(raw[..|raw| - 1])[FoldKey(raw[|raw| - 1].0) := raw[|raw| - 1].1]
  }

  /** A key is in the normalised row exactly when some raw key folds to it. */
  lemma NormalizedKeys(raw: RawRow, k: string)
    ensures k in NormalizeKeys(raw) <==> exists i :: 0 <= i < |raw| && FoldKey(raw[i].0) == k
  {
    if k in NormalizeKeys(raw) {
      var i := NormalizedKeyFrom(raw, k);
    }
    if exists i :: 0 <= i < |raw| && FoldKey(raw[i].0) == k {
      var i :| 0 <= i < |raw| && FoldKey(raw[i].0) == k;
      NormalizedKeyOf(raw, i);
    }
  }

  /** Every raw key survives, folded. */
  lemma {:induction false} NormalizedKeyOf(raw: RawRow, i: nat)
    requires i < |raw|
    ensures FoldKey(raw[i].0) in NormalizeKeys(raw)
  {
    if i < |raw| - 1 {
      var init := raw[..|raw| - 1];
      assert init[i] == raw[i];
      NormalizedKeyOf(init, i);
    }
  }

  /** Every key of the normalised row comes from some raw key. */
  lemma {:induction false} NormalizedKeyFrom(raw: RawRow, k: string) returns (i: nat)
    requires k in NormalizeKeys(raw)
    ensures i < |raw| && FoldKey(raw[i].0) == k
  {
    var init := raw[..|raw| - 1];
    if k == FoldKey(raw[|raw| - 1].0) {
      i := |raw| - 1;
    } else {
      i := NormalizedKeyFrom(init, k);
      assert init[i] == raw[i];
    }
  }

  /** Every key of a normalised row is already folded: lower-case and trimmed. */
  lemma NormalizedKeysFolded(raw: RawRow, k: string)
    requires k in NormalizeKeys(raw)
    ensures IsLower(k) && IsTrimmed(k)
  {
    NormalizedKeys(raw, k);
    var i :| 0 <= i < |raw| && FoldKey(raw[i].0) == k;
    FoldKeyFolded(raw[i].0);
  }

  /** A key keeps the value of the last raw entry that folds to it: values are preserved verbatim. */
  lemma {:induction false} NormalizedValueIsLast(raw: RawRow, i: nat)
    requires i < |raw|
    requires forall j :: i < j < |raw| ==> FoldKey(raw[j].0) != FoldKey(raw[i].0)
    ensures FoldKey(raw[i].0) in NormalizeKeys(raw)
    ensures NormalizeKeys(raw)[FoldKey(raw[i].0)] == raw[i].1
  {
    if i < |raw| - 1 {
      var init := raw[..|raw| - 1];
      assert init[i] == raw[i];
      NormalizedValueIsLast(init, i);
    }
  }

  lemma NormalizeKeysSnoc(raw: RawRow, i: nat)
    requires i < |raw|
    ensures NormalizeKeys(raw[..i + 1]) == NormalizeKeys(raw[..i])[FoldKey(raw[i].0) := raw[i].1]
  {
    var p := raw[..i + 1];
    assert p[..|p| - 1] == raw[..i];
    assert p[|p| - 1] == raw[i];
  }

  /** Key normalisation as the source performs it: one pass that fills an empty row. */
  method NormalizeRow(raw: RawRow) returns (row: Row)
    ensures row == NormalizeKeys(raw)
  {
    row := map[];
    var i := 0;
    while i < |raw|
      invariant 0 <= i <= |raw|
      invariant row == NormalizeKeys(raw[..i])
    {
      NormalizeKeysSnoc(raw, i);
      row := row[FoldKey(raw[i].0) := raw[i].1];
      i := i + 1;
    }
    assert raw[..|raw|] == raw;
  }

  // ---------------------------------------------------------------------------
  // Reading fields and resolving aliases

  /** `row[key]`, `undefined` when the key is absent. */
  function Get(row: Row, key: string): JsValue {
    if key in row then row[key] else Undefined
  }

  const CpfAliases: seq<string> := ["cpf", "documento"]
  const NameAliases: seq<string> := ["name", "nome"]
  const PhoneAliases: seq<string> := ["phone_number", "phone", "telefone", "celular"]

  /** `row[aliases[0]] || row[aliases[1]] || ...`. */
  function Resolve(row: Row, aliases: seq<string>): (r: JsValue)
    requires |aliases| > 0
    ensures Truthy(r) <==> exists i :: 0 <= i < |aliases| && Truthy(Get(row, aliases[i]))
  {
    var vs := seq(|aliases|, i requires 0 <= i < |aliases| => Get(row, aliases[i]));
    assert forall i :: 0 <= i < |aliases| ==> vs[i] == Get(row, aliases[i]);
    Coalesce(vs)
  }

  /** The first alias whose value is truthy decides; later aliases are ignored even when present. */
  lemma ResolveFirstTruthy(row: Row, aliases: seq<string>, i: nat)
    requires i < |aliases| && Truthy(Get(row, aliases[i]))
    requires forall j :: 0 <= j < i ==> !Truthy(Get(row, aliases[j]))
    ensures Resolve(row, aliases) == Get(row, aliases[i])
  {
    var vs := seq(|aliases|, k requires 0 <= k < |aliases| => Get(row, aliases[k]));
    CoalesceFirstTruthy(vs, i);
  }

  /** When no alias is truthy the chain yields the last alias's value. */
  lemma ResolveNoneTruthy(row: Row, aliases: seq<string>)
    requires |aliases| > 0
    requires forall j :: 0 <= j < |aliases| ==> !Truthy(Get(row, aliases[j]))
    ensures Resolve(row, aliases) == Get(row, aliases[|aliases| - 1])
  {
    var vs := seq(|aliases|, k requires 0 <= k < |aliases| => Get(row, aliases[k]));
    CoalesceNoneTruthy(vs);
  }

  // ---------------------------------------------------------------------------
  // Phone cleaning and the primary flag

  /** Filtering distributes over concatenation. */
  lemma {:induction false} FilterConcat(a: string, b: string, keep: char -> bool)
    ensures Filter(a + b, keep) == Filter(a, keep) + Filter(b, keep)
  {
    if a == [] {
      assert a + b == b;
    } else {
      var head := if keep(a[0]) then [a[0]] else [];
      assert (a + b)[0] == a[0];
      assert (a + b)[1..] == a[1..] + b;
      calc {
        Filter(a + b, keep);
        head + Filter(a[1..] + b, keep);
        { FilterConcat(a[1..], b, keep); }
        head + (Filter(a[1..], keep) + Filter(b, keep));
        (head + Filter(a[1..], keep)) + Filter(b, keep);
      }
    }
  }

  /**
   * The digits a row's phone aliases give: `String(phone).replace(/\D/g, '')`
   * when the alias chain is truthy; `None` when it is falsy or has no digit.
   */
  function PhoneDigits(row: Row): (r: Option<string>)
    ensures r.Some? ==> r.value != "" && AllDigits(r.value)
    ensures !Truthy(Resolve(row, PhoneAliases)) ==> r == None
    ensures var phone := Resolve(row, PhoneAliases);
      Truthy(phone) && DigitsOnly(ToJsString(phone)) != "" ==> r == Some(DigitsOnly(ToJsString(phone)))
  {
    var phone := Resolve(row, PhoneAliases);
    if !Truthy(phone) then None
    else
      var clean := DigitsOnly(ToJsString(phone));
      if clean == "" then None else Some(clean)
  }

  /** A phone given as a JSON integer keeps all its digits. */
  lemma NumericPhoneKept(row: Row, n: nat)
    requires Resolve(row, PhoneAliases) == Num(Decimal(n, 0)) && n > 0
    ensures PhoneDigits(row) == Some(NatToString(n))
  {
    assert Normalize(Decimal(n, 0)) == Decimal(n, 0);
    assert UnsignedDecimalText(n, 0) == NatToString(n);
    assert DecimalToString(Decimal(n, 0)) == NatToString(n);
  }

  /** A formatted phone string is keyed by its digits alone. */
  lemma FormattedPhoneDigits(row: Row)
    requires Resolve(row, PhoneAliases) == Str("(11) 98765-4321")
    ensures PhoneDigits(row) == Some("11987654321")
  {
    FormattedPhoneText();
  }

  lemma FormattedPhoneText()
    ensures DigitsOnly("(11) 98765-4321") == "11987654321"
  {
    PhoneSplit();
    PhoneSeparators();
    PhoneDigitRuns();
    DigitsOfPieces("(", "11", ") ", "98765", "-", "4321");
    PhoneDigitsJoin();
  }

  /** Digit runs between separators: only the runs are kept, in order. */
  lemma DigitsOfPieces(open: string, area: string, close: string, first: string, dash: string, last: string)
    requires Filter(open, IsDigit) == [] && Filter(close, IsDigit) == [] && Filter(dash, IsDigit) == []
    requires Filter(area, IsDigit) == area && Filter(first, IsDigit) == first && Filter(last, IsDigit) == last
    ensures Filter(open + (area + (close + (first + (dash + last)))), IsDigit) == area + (first + last)
  {
    var t1 := dash + last;
    FilterConcat(dash, last, IsDigit);
    assert Filter(t1, IsDigit) == last;
    var t2 := first + t1;
    FilterConcat(first, t1, IsDigit);
    assert Filter(t2, IsDigit) == first + last;
    var t3 := close + t2;
    FilterConcat(close, t2, IsDigit);
    assert Filter(t3, IsDigit) == first + last;
    var t4 := area + t3;
    FilterConcat(area, t3, IsDigit);
    assert Filter(t4, IsDigit) == area + (first + last);
    FilterConcat(open, t4, IsDigit);
  }

  lemma PhoneSeparators()
    ensures Filter("(", IsDigit) == [] && Filter(") ", IsDigit) == [] && Filter("-", IsDigit) == []
  {
    FilterNone("(", IsDigit);
    FilterNone(") ", IsDigit);
    FilterNone("-", IsDigit);
  }

  lemma PhoneDigitRuns()
    ensures Filter("11", IsDigit) == "11" && Filter("98765", IsDigit) == "98765" && Filter("4321", IsDigit) == "4321"
  {
  }

  lemma PhoneSplit()
    ensures "(11) 98765-4321" == "(" + ("11" + (") " + ("98765" + ("-" + "4321"))))
  {
  }

  lemma PhoneDigitsJoin()
    ensures "11" + ("98765" + "4321") == "11987654321"
  {
  }

  /** A phone string with no digit at all links no phone. */
  lemma NoDigitsNoPhone(row: Row, s: string)
    requires Resolve(row, PhoneAliases) == Str(s)
    requires forall i :: 0 <= i < |s| ==> !IsDigit(s[i])
    ensures PhoneDigits(row) == None
  {
    FilterNone(s, IsDigit);
  }

  /** `String(v).toLowerCase() === 'true'`. */
  function IsPrimary(v: JsValue): (r: bool)
    ensures v == Bool(true) ==> r
    ensures v.Undefined? || v.Null? || v == Bool(false) || v.Num? ==> !r
  {
    NumberTextNotTrue(v);
    Lower(ToJsString(v)) == "true"
  }

  lemma NumberTextNotTrue(v: JsValue)
    ensures v.Num? ==> Lower(DecimalToString(v.d)) != "true"
  {
    if v.Num? {
      var s := DecimalToString(v.d);
      assert IsNumberChar(s[0]);
      assert LowerChar(s[0]) != 't';
    }
  }

  /** Any capitalisation of the word true sets the flag; a different word does not. */
  lemma IsPrimaryStrings()
    ensures IsPrimary(Str("TRUE")) && IsPrimary(Str("True")) && IsPrimary(Str("true"))
    ensures !IsPrimary(Str("yes")) && !IsPrimary(Str("1")) && !IsPrimary(Str(" true"))
  {
    IsPrimaryAccepts();
    IsPrimaryRejects();
  }

  lemma IsPrimaryAccepts()
    ensures IsPrimary(Str("TRUE")) && IsPrimary(Str("True")) && IsPrimary(Str("true"))
  {
    LowerIsTrue("TRUE");
    LowerIsTrue("True");
    LowerIsTrue("true");
  }

  /** A four-letter text whose letters lower to `t`, `r`, `u`, `e` lowers to `"true"`. */
  lemma LowerIsTrue(s: string)
    requires |s| == 4 && LowerChar(s[0]) == 't' && LowerChar(s[1]) == 'r'
    requires LowerChar(s[2]) == 'u' && LowerChar(s[3]) == 'e'
    ensures Lower(s) == "true"
  {
    var r := Lower(s);
    assert r[0] == 't' && r[1] == 'r' && r[2] == 'u' && r[3] == 'e';
  }

  lemma IsPrimaryRejects()
    ensures !IsPrimary(Str("yes")) && !IsPrimary(Str("1")) && !IsPrimary(Str(" true"))
  {
  }

  // ---------------------------------------------------------------------------
  // parseCurrency

  predicate IsCurrencyChar(c: char) {
    IsDigit(c) || c == '.' || c == ',' || c == '-'
  }

  predicate IsCurrencyText(s: string) {
    forall i :: 0 <= i < |s| ==> IsCurrencyChar(s[i])
  }

  /** `s.replace(',', '.')`: the first comma, and only it, becomes a point. */
  function ReplaceFirstComma(s: string): (r: string)
    ensures |r| == |s|
    ensures IsCurrencyText(s) ==> IsCurrencyText(r)
  {
    if s == [] then []
    else if s[0] == ',' then "." + s[1..]
    else [s[0]] + ReplaceFirstComma(s[1..])
  }

  /** Characters other than commas are kept; a comma becomes a point exactly when no comma precedes it. */
  lemma {:induction false} ReplaceFirstCommaAt(s: string, i: nat)
    requires i < |s|
    ensures s[i] != ',' ==> ReplaceFirstComma(s)[i] == s[i]
    ensures s[i] == ',' ==>
      (ReplaceFirstComma(s)[i] == if forall j :: 0 <= j < i ==> s[j] != ',' then '.' else ',')
  {
    if i > 0 && s[0] != ',' {
      ReplaceFirstCommaAt(s[1..], i - 1);
      assert forall j :: 0 < j < i ==> s[1..][j - 1] == s[j];
    }
  }

  /** The text `parseCurrency` hands to `parseFloat`: trimmed, cut to `[0-9.,-]`, first comma made a point. */
  function CurrencyText(v: JsValue): (r: string)
    ensures IsCurrencyText(r)
  {
    ReplaceFirstComma(Filter(Trim(ToJsString(v)), IsCurrencyChar))
  }

  /** The longest prefix of `s` made of digits. */
  function LeadingDigits(s: string): (d: string)
    ensures AllDigits(d) && |d| <= |s| && d == s[..|d|]
    ensures |d| == |s| || !IsDigit(s[|d|])
  {
    if s != [] && IsDigit(s[0]) then [s[0]] + LeadingDigits(s[1..]) else []
  }

  /**
   * `parseFloat` on a string over `[0-9.,-]`: an optional minus, digits, an
   * optional point and digits, read up to the first character that does not
   * fit; `None` (NaN) when no digit is read.
   */
  function ParseFloatPrefix(s: string): (r: Option<Decimal>)
    requires IsCurrencyText(s)
  {
    var negative := s != [] && s[0] == '-';
    var t := if negative then s[1..] else s;
    var whole := LeadingDigits(t);
    var rest := t[|whole|..];
    var frac := if rest != [] && rest[0] == '.' then LeadingDigits(rest[1..]) else [];
    if whole == [] && frac == [] then None
    else
      var m: int := DigitsValue(whole + frac);
      Some(Decimal(if negative then -m else m, |frac|))
  }

  const Zero: Decimal := Decimal(0, 0)

  /** `parseCurrency`: absent, null and empty give 0, numbers pass through, text is cleaned and parsed (NaN gives 0). */
  function ParseCurrency(v: JsValue): (r: Decimal)
    ensures v.Undefined? || v.Null? || v == Str("") ==> r == Zero
    ensures v.Num? ==> r == v.d
  {
    if v.Undefined? || v.Null? || v == Str("") then Zero
    else if v.Num? then v.d
    else
      match ParseFloatPrefix(CurrencyText(v))
      case None => Zero
      case Some(d) => d
  }

  /** A digit string is read whole by `parseFloat`. */
  lemma {:induction false} LeadingDigitsAll(s: string, rest: string)
    requires AllDigits(s)
    requires rest == [] || !IsDigit(rest[0])
    ensures LeadingDigits(s + rest) == s
  {
    if s != [] {
      assert (s + rest)[1..] == s[1..] + rest;
      LeadingDigitsAll(s[1..], rest);
    }
  }

  /** How `parseFloat` reads an unsigned text with a point after its whole digits. */
  lemma ParsePointed(s: string, whole: string, frac: string)
    requires IsCurrencyText(s) && s != [] && s[0] != '-'
    requires LeadingDigits(s) == whole && |whole| < |s| && s[|whole|] == '.'
    requires LeadingDigits(s[|whole| + 1..]) == frac
    requires whole != []
    ensures ParseFloatPrefix(s) == Some(Decimal(DigitsValue(whole + frac), |frac|))
  {
    var rest := s[|whole|..];
    assert rest[1..] == s[|whole| + 1..];
  }

  /** Parsing stops at the second point: `w.f.rest` reads as `w.f`. */
  lemma ParseStopsAtSecondPoint(w: string, f: string, rest: string)
    requires AllDigits(w) && AllDigits(f) && w != []
    requires rest == [] || !IsDigit(rest[0])
    requires IsCurrencyText(w + "." + f + rest)
    ensures ParseFloatPrefix(w + "." + f + rest) == Some(Decimal(DigitsValue(w + f), |f|))
  {
    var s := w + "." + f + rest;
    PointedParts(w, f, rest, s);
    ParsePointed(s, w, f);
  }

  /** The pieces of `w.f.rest` that ParsePointed needs. */
  lemma PointedParts(w: string, f: string, rest: string, s: string)
    requires AllDigits(w) && AllDigits(f) && w != []
    requires rest == [] || !IsDigit(rest[0])
    requires s == w + "." + f + rest
    ensures |w| < |s| && s[|w|] == '.' && s[0] != '-'
    ensures LeadingDigits(s) == w && LeadingDigits(s[|w| + 1..]) == f
  {
    var t := f + rest;
    var tail := ['.'] + t;
    PointedShape(w, f, rest, s);
    LeadingDigitsAll(w, tail);
    assert s[|w|..] == tail;
    assert tail[1..] == t;
    LeadingDigitsAll(f, rest);
  }

  /** `w.f.rest` regrouped as `w` followed by the point and `f.rest`. */
  lemma PointedShape(w: string, f: string, rest: string, s: string)
    requires s == w + "." + f + rest
    ensures s == w + (['.'] + (f + rest))
  {
    assert w + "." + f == w + (['.'] + f);
    assert w + (['.'] + f) + rest == w + (['.'] + f + rest);
    assert ['.'] + f + rest == ['.'] + (f + rest);
  }

  lemma TrimExample()
    ensures Trim("R$ 1.234,56") == "R$ 1.234,56"
  {
    TrimOfTrimmed("R$ 1.234,56");
  }

  lemma FilterExample()
    ensures Filter("R$ 1.234,56", IsCurrencyChar) == "1.234,56"
  {
    var prefix, tail := "R$ ", "1.234,56";
    FilterSymbolsExample();
    FilterDigitsExample();
    SampleSplit();
    FilterConcat(prefix, tail, IsCurrencyChar);
  }

  lemma SampleSplit()
    ensures "R$ 1.234,56" == "R$ " + "1.234,56"
  {
  }

  lemma FilterSymbolsExample()
    ensures Filter("R$ ", IsCurrencyChar) == []
  {
    var prefix := "R$ ";
    assert !IsCurrencyChar(prefix[0]) && !IsCurrencyChar(prefix[1]) && !IsCurrencyChar(prefix[2]);
    FilterNone(prefix, IsCurrencyChar);
  }

  lemma FilterDigitsExample()
    ensures Filter("1.234,56", IsCurrencyChar) == "1.234,56"
  {
    assert IsCurrencyText("1.234,56");
  }

  lemma ReplaceExample()
    ensures ReplaceFirstComma("1.234,56") == "1.234.56"
  {
    assert ReplaceFirstComma(",56") == ".56";
    ReplacedSampleSplit();
    ReplaceNoCommaPrefix("1.234", ",56");
  }

  lemma ReplacedSampleSplit()
    ensures "1.234,56" == "1.234" + ",56"
  {
  }

  /** A prefix without commas is left alone. */
  lemma {:induction false} ReplaceNoCommaPrefix(p: string, s: string)
    requires forall i :: 0 <= i < |p| ==> p[i] != ','
    ensures ReplaceFirstComma(p + s) == p + ReplaceFirstComma(s)
  {
    if p == [] {
      assert p + s == s;
    } else {
      assert (p + s)[0] == p[0];
      assert (p + s)[1..] == p[1..] + s;
      ReplaceNoCommaPrefix(p[1..], s);
      assert p == [p[0]] + p[1..];
    }
  }

  lemma DigitsExample()
    ensures DigitsValue("1234") == 1234
  {
    assert "1234"[..3] == "123" && "123"[..2] == "12" && "12"[..1] == "1" && "1"[..0] == [];
    assert DigitsValue("1") == 1;
    assert DigitsValue("12") == 12;
    assert DigitsValue("123") == 123;
  }

  lemma ParseExample()
    ensures ParseFloatPrefix("1.234.56") == Some(Decimal(1234, 3))
  {
    ParsedSampleSplit();
    ParseStopsAtSecondPoint("1", "234", ".56");
    DigitsExample();
  }

  lemma ParsedSampleSplit()
    ensures "1" + "." + "234" + ".56" == "1.234.56"
    ensures "1" + "234" == "1234"
  {
  }

  /** `"R$ 1.234,56"` is cleaned to `"1.234.56"`: only the first comma becomes a point. */
  lemma CurrencyTextExample()
    ensures CurrencyText(Str("R$ 1.234,56")) == "1.234.56"
  {
    TrimExample();
    FilterExample();
    ReplaceExample();
  }

  /**
   * A Brazilian amount with a thousands point: only the first comma becomes a
   * point, so `parseFloat` stops at the second point and reads 1.234.
   */
  lemma ParseCurrencyThousandsPoint()
    ensures CurrencyText(Str("R$ 1.234,56")) == "1.234.56"
    ensures ParseCurrency(Str("R$ 1.234,56")) == Decimal(1234, 3)
  {
    CurrencyTextExample();
    ParseExample();
  }
}
