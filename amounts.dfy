/** `parse_amount` (icscards-pdf-to-csv.py:214-229): a euro amount written
    the Dutch way ("€ 1.234,56") followed by "Bij" (credit) or "Af" (debit).
    Amounts are exact decimal numbers (`real`), not binary floats. */
module Amounts {
  import opened Base
  import opened Text

  /** The value of the digits after a decimal point: ".56" is 0.56. */
  function FractionValue(ds: string): real
    requires AllDigits(ds)
  {
    if ds == [] then 0.0 else (DigitValue(ds[0]) as real + FractionValue(ds[1..])) / 10.0
  }

  /** Digits with at most one '.' and at least one digit, as a number. */
  function UnsignedDecimal(body: string): Option<real> {
    var dot := Find(body, '.');
    var whole := body[..dot];
    var frac := if dot < |body| then body[dot + 1..] else [];
    if AllDigits(whole) && AllDigits(frac) && |whole| + |frac| > 0 then
      Some(DigitsValue(whole) as real + FractionValue(frac))
    else None
  }

  /** The decimal literals `float()` is modelled on: an optional sign, then
      digits with at most one '.', and at least one digit. */
  function ParseDecimal(t: string): Option<real> {
    if t != [] && (t[0] == '+' || t[0] == '-') then
      match UnsignedDecimal(t[1..])
      case None => None
      case Some(v) => Some(if t[0] == '-' then -v else v)
    else UnsignedDecimal(t)
  }

  /** `amount.strip('€ ').replace('.', '').replace(',', '.')`: drops the euro
      sign and spaces around the amount, the '.' thousands separators, and
      turns the ',' decimal comma into a decimal point. */
  function Normalize(amount: string): string {
    ReplaceChar(RemoveChar(StripChars(amount, {'€', ' '}), '.'), ',', '.')
  }

  function Abs(x: real): real {
    if x < 0.0 then -x else x
  }

  /** `parse_amount(amount, indicator, *extra)`. Every failure is a ParseError. */
  function ParseAmount(amount: string, indicator: string, extra: seq<string>): (r: Result<real>)
    ensures r.Err? ==> r.error == ParseError
  {
    if extra != [] then Err(ParseError)
    else ApplyIndicator(ParseDecimal(Normalize(amount)), indicator)
  }

  /** The sign rule of `parse_amount` once the number has been read: "Af"
      negates a positive number, "Bij" keeps it, anything else is refused. */
  function ApplyIndicator(number: Option<real>, indicator: string): Result<real> {
    match number
    case None => Err(ParseError)
    case Some(n) =>
      var ind := Strip(indicator);
      if ind != "Af" && ind != "Bij" then Err(ParseError)
      else if ind == "Af" && n > 0.0 then Ok(-n)
      else Ok(n)
  }

  /** An amount parses exactly when there are no excess words, the number is
      well formed and the stripped indicator is "Af" or "Bij"; "Bij" keeps the
      number and "Af" makes it non-positive without changing its size. */
  lemma AmountIndicatorRule(amount: string, indicator: string, extra: seq<string>)
    ensures var r := ParseAmount(amount, indicator, extra);
      var n := ParseDecimal(Normalize(amount));
      (r.Ok? <==> extra == [] && n.Some? && (Strip(indicator) == "Af" || Strip(indicator) == "Bij")) &&
      (r.Ok? && Strip(indicator) == "Bij" ==> r.value == n.value) &&
      (r.Ok? && Strip(indicator) == "Af" ==> r.value <= 0.0 && Abs(r.value) == Abs(n.value))
  {
  }

  /** `parse_amount(*words)`: the first word is the amount, the second (default
      "Bij") the indicator, any further words are the excess arguments.
      With no words at all Python raises a TypeError for the missing argument. */
  function ParseAmountWords(words: seq<string>): (r: Result<real>)
    ensures words == [] <==> r == Err(TypeError)
    ensures r.Err? ==> r.error in {TypeError, ParseError}
    ensures |words| > 2 ==> r == Err(ParseError)
    ensures |words| == 1 ==> r == ParseAmount(words[0], "Bij", [])
  {
    if words == [] then Err(TypeError)
    else ParseAmount(words[0], if |words| > 1 then words[1] else "Bij", if |words| > 2 then words[2..] else [])
  }

  // ---------------------------------------------------------------------
  // The way the statement prints an amount, as the partner of ParseAmount.

  /** "1234567" becomes "1.234.567". */
  function GroupThousands(ds: string): (r: string)
    requires AllDigits(ds)
    ensures |ds| > 0 ==> |r| > 0 && IsDigit(r[0]) && IsDigit(r[|r| - 1])
    ensures forall k :: 0 <= k < |r| ==> IsDigit(r[k]) || r[k] == '.'
  {
    if |ds| <= 3 then ds else GroupThousands(ds[..|ds| - 3]) + "." + ds[|ds| - 3..]
  }

  function TwoDigits(k: nat): string
    requires k < 100
  {
    [DigitChar(k / 10), DigitChar(k % 10)]
  }

  /** `m` cents as the statement shows the size of an amount: "€ 1.234,56". */
  function FormatMagnitude(m: nat): string {
    "€ " + GroupThousands(NatToString(m / 100)) + "," + TwoDigits(m % 100)
  }

  /** An amount in cents as the statement shows it: the size, and "Af" for a
      debit or "Bij" for a credit or zero. */
  function FormatEuro(cents: int): (string, string) {
    (FormatMagnitude(Magnitude(cents)), if cents < 0 then "Af" else "Bij")
  }

  function Magnitude(cents: int): nat {
    if cents < 0 then -cents else cents
  }

  lemma {:induction false} RemoveDotsOfGrouped(ds: string)
    requires AllDigits(ds)
    ensures RemoveChar(GroupThousands(ds), '.') == ds
  {
    if |ds| <= 3 {
      RemoveCharAbsent(ds, '.');
    } else {
      var head, tail := ds[..|ds| - 3], ds[|ds| - 3..];
      assert AllDigits(head) && AllDigits(tail);
      var g := GroupThousands(head);
      assert GroupThousands(ds) == g + "." + tail;
      RemoveDotsOfGrouped(head);
      RemoveDotBetween(g, tail);
      assert ds == head + tail;
    }
  }

  /** Dropping the dots of `g.tail`, where `tail` has none. */
  lemma RemoveDotBetween(g: string, tail: string)
    requires AllDigits(tail)
    ensures RemoveChar(g + "." + tail, '.') == RemoveChar(g, '.') + tail
  {
    var withDot := g + ".";
    RemoveCharAppend(withDot, tail, '.');
    RemoveCharAbsent(tail, '.');
    RemoveCharAppend(g, ".", '.');
    assert RemoveChar(".", '.') == [];
    assert RemoveChar(withDot, '.') == RemoveChar(g, '.');
  }

  lemma UnsignedOfDigits(ds: string, dd: string)
    requires AllDigits(ds) && AllDigits(dd) && |dd| == 2
    ensures UnsignedDecimal(ds + "." + dd) ==
      Some(DigitsValue(ds) as real + DigitsValue(dd) as real / 100.0)
  {
    var t := ds + "." + dd;
    FindAfter(ds, '.', dd);
    assert t[..|ds|] == ds;
    assert t[|ds| + 1..] == dd;
    UnsignedWithPoint(t, |ds|);
    assert UnsignedDecimal(t) == Some(DigitsValue(ds) as real + FractionValue(dd));
    FractionOfTwo(dd);
  }

  /** A body whose first '.' is at `dot` reads as the digits before it plus
      the fraction after it. */
  lemma UnsignedWithPoint(body: string, dot: nat)
    requires dot < |body| && |body| > 1 && Find(body, '.') == dot
    requires AllDigits(body[..dot]) && AllDigits(body[dot + 1..])
    ensures UnsignedDecimal(body) ==
      Some(DigitsValue(body[..dot]) as real + FractionValue(body[dot + 1..]))
  {
  }

  lemma FractionOfTwo(dd: string)
    requires AllDigits(dd) && |dd| == 2
    ensures FractionValue(dd) == DigitsValue(dd) as real / 100.0
  {
    var a, b := DigitValue(dd[0]), DigitValue(dd[1]);
    assert dd[1..][1..] == [] && dd[1..][0] == dd[1];
    assert FractionValue(dd[1..]) == b as real / 10.0;
    assert dd[..1][..0] == [] && dd[..1][0] == dd[0];
    assert DigitsValue(dd[..1]) == a;
    assert DigitsValue(dd) == 10 * a + b;
  }

  lemma DecimalOfDigits(ds: string, dd: string)
    requires ds != [] && AllDigits(ds) && AllDigits(dd) && |dd| == 2
    ensures ParseDecimal(ds + "." + dd) ==
      Some(DigitsValue(ds) as real + DigitsValue(dd) as real / 100.0)
  {
    var t := ds + "." + dd;
    assert t[0] == ds[0] && IsDigit(t[0]);
    UnsignedOfDigits(ds, dd);
  }

  lemma TwoDigitsValue(k: nat)
    requires k < 100
    ensures AllDigits(TwoDigits(k)) && |TwoDigits(k)| == 2
    ensures DigitsValue(TwoDigits(k)) == k
  {
    var dd := TwoDigits(k);
    assert dd[..1] == [DigitChar(k / 10)];
    assert dd[..1][..0] == [];
    assert DigitsValue(dd[..1]) == k / 10;
  }

  /** Stripping "€ " off a printed amount leaves the digits, dots and comma. */
  lemma StripFormatted(g: string, dd: string)
    requires g != [] && IsDigit(g[0]) && dd != [] && IsDigit(dd[|dd| - 1])
    ensures StripChars("€ " + (g + "," + dd), {'€', ' '}) == g + "," + dd
  {
    var body := g + "," + dd;
    var s := "€ " + body;
    assert s[2..] == body;
    assert LeadingCount(s, {'€', ' '}) == 2 by {
      assert s[0] == '€' && s[1] == ' ' && s[2] == g[0];
      assert LeadingCount(s[2..], {'€', ' '}) == 0;
      assert s[1..][1..] == s[2..];
    }
    assert TrailingCount(body, {'€', ' '}) == 0 by {
      assert body[|body| - 1] == dd[|dd| - 1];
    }
    assert body[..|body|] == body;
  }

  lemma ReplaceComma(ds: string, dd: string)
    requires AllDigits(ds) && AllDigits(dd)
    ensures ReplaceChar(ds + "," + dd, ',', '.') == ds + "." + dd
  {
    var rep := ReplaceChar(ds + "," + dd, ',', '.');
    forall j | 0 <= j < |rep|
      ensures rep[j] == (ds + "." + dd)[j]
    {
      ReplaceCharAt(ds + "," + dd, ',', '.', j);
      if j < |ds| {
        assert (ds + "," + dd)[j] == ds[j];
      } else if j > |ds| {
        assert (ds + "," + dd)[j] == dd[j - |ds| - 1];
      }
    }
  }

  lemma {:induction false} NormalizeFormatted(e: nat, k: nat)
    requires k < 100
    ensures Normalize("€ " + GroupThousands(NatToString(e)) + "," + TwoDigits(k))
         == NatToString(e) + "." + TwoDigits(k)
  {
    var ds := NatToString(e);
    var g := GroupThousands(ds);
    var dd := TwoDigits(k);
    TwoDigitsValue(k);
    assert "€ " + g + "," + dd == "€ " + (g + "," + dd);
    StripFormatted(g, dd);
    RemoveCharAppend(g + ",", dd, '.');
    RemoveCharAppend(g, ",", '.');
    RemoveDotsOfGrouped(ds);
    RemoveCharAbsent(dd, '.');
    assert RemoveChar(",", '.') == ",";
    ReplaceComma(ds, dd);
  }

  /** The printed digits of `m` cents read back as `m / 100`. */
  lemma {:induction false} MagnitudeOfFormatted(m: nat)
    ensures ParseDecimal(Normalize(FormatMagnitude(m))) == Some(m as real / 100.0)
  {
    var e, k := m / 100, m % 100;
    var parts := "€ " + GroupThousands(NatToString(e)) + "," + TwoDigits(k);
    assert FormatMagnitude(m) == parts;
    PartsOfFormatted(e, k);
    CentsSplit(m);
    assert ParseDecimal(Normalize(parts)) == Some(m as real / 100.0);
  }

  /** Euros and cents, printed, read back as euros plus cents over 100. */
  lemma PartsOfFormatted(e: nat, k: nat)
    requires k < 100
    ensures ParseDecimal(Normalize("€ " + GroupThousands(NatToString(e)) + "," + TwoDigits(k)))
         == Some(e as real + k as real / 100.0)
  {
    NormalizeFormatted(e, k);
    TwoDigitsValue(k);
    DecimalOfDigits(NatToString(e), TwoDigits(k));
  }

  lemma CentsSplit(m: nat)
    ensures (m / 100) as real + (m % 100) as real / 100.0 == m as real / 100.0
  {
    assert m == 100 * (m / 100) + m % 100;
  }

  /** With a clean indicator, "Af" makes a non-negative amount negative and "Bij" keeps it. */
  lemma IndicatorSign(n: real, indicator: string)
    requires n >= 0.0
    requires indicator == "Af" || indicator == "Bij"
    ensures ApplyIndicator(Some(n), indicator) == Ok(if indicator == "Af" then -n else n)
  {
    StripOfIndicators();
  }

  lemma StripOfIndicators()
    ensures Strip("Af") == "Af" && Strip("Bij") == "Bij"
  {
    StripCharsNoop("Af", Whitespace);
    StripCharsNoop("Bij", Whitespace);
  }

  /** Parsing the printed form of an amount in cents gives back exactly that
      amount, with the sign the indicator carries. */
  lemma {:induction false} AmountRoundTrip(cents: int)
    ensures ParseAmount(FormatEuro(cents).0, FormatEuro(cents).1, []) == Ok(cents as real / 100.0)
  {
    var m := Magnitude(cents);
    var text := FormatMagnitude(m);
    MagnitudeOfFormatted(m);
    SignedRoundTrip(cents, m, text);
  }

  lemma SignedRoundTrip(cents: int, m: nat, text: string)
    requires m == Magnitude(cents)
    requires ParseDecimal(Normalize(text)) == Some(m as real / 100.0)
    ensures ParseAmount(text, if cents < 0 then "Af" else "Bij", []) == Ok(cents as real / 100.0)
  {
    var ind := if cents < 0 then "Af" else "Bij";
    var v := m as real / 100.0;
    assert ParseAmount(text, ind, []) == ApplyIndicator(Some(v), ind);
    IndicatorSign(v, ind);
    assert (if cents < 0 then -v else v) == cents as real / 100.0;
  }

  lemma NumeralExample()
    ensures NatToString(1234) == "1234"
  {
    assert NatToString(1) == "1";
    assert NatToString(12) == "12";
    assert NatToString(123) == "123";
  }

  lemma GroupingExample()
    ensures GroupThousands("1234") == "1.234"
  {
    assert "1234"[..1] == "1" && "1234"[1..] == "234";
  }

  /** 123456 cents is printed "€ 1.234,56". */
  lemma PrintedExample()
    ensures FormatMagnitude(123456) == "€ 1.234,56"
  {
    assert 123456 / 100 == 1234 && 123456 % 100 == 56;
    assert FormatMagnitude(123456) == "€ " + GroupThousands(NatToString(1234)) + "," + TwoDigits(56);
    NumeralExample();
    GroupingExample();
    assert TwoDigits(56) == "56";
  }

  /** "€ 1.234,56" reads as 1234.56. */
  lemma NumberExample(text: string)
    requires text == "€ 1.234,56"
    ensures ParseDecimal(Normalize(text)) == Some(1234.56)
  {
    PrintedExample();
    MagnitudeOfFormatted(123456);
  }

  /** "€ 1.234,56" with "Af" is -1234.56; with "Bij" it is 1234.56; "Bijf" is refused. */
  lemma AmountSignExamples(text: string)
    requires text == "€ 1.234,56"
    ensures ParseAmount(text, "Af", []) == Ok(-1234.56)
    ensures ParseAmount(text, "Bij", []) == Ok(1234.56)
    ensures ParseAmount(text, "Bijf", []) == Err(ParseError)
  {
    NumberExample(text);
    IndicatorsOn(text, 1234.56);
  }

  /** A number that reads as `v` gives `-v` with "Af" and `v` with "Bij";
      "Bijf" is refused. */
  lemma IndicatorsOn(text: string, v: real)
    requires v >= 0.0 && ParseDecimal(Normalize(text)) == Some(v)
    ensures ParseAmount(text, "Af", []) == Ok(-v)
    ensures ParseAmount(text, "Bij", []) == Ok(v)
    ensures ParseAmount(text, "Bijf", []) == Err(ParseError)
  {
    assert ParseAmount(text, "Af", []) == ApplyIndicator(Some(v), "Af");
    IndicatorSign(v, "Af");
    assert ParseAmount(text, "Bij", []) == ApplyIndicator(Some(v), "Bij");
    IndicatorSign(v, "Bij");
    assert ParseAmount(text, "Bijf", []) == ApplyIndicator(Some(v), "Bijf");
    MisspeltIndicator(v);
  }

  lemma MisspeltIndicator(n: real)
    ensures ApplyIndicator(Some(n), "Bijf") == Err(ParseError)
  {
    StripCharsNoop("Bijf", Whitespace);
    assert Strip("Bijf") == "Bijf";
  }
}
