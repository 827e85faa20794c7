/** The header fields of a statement (icscards-pdf-to-csv.py:405-426): the
    statement date, customer number, serial number and the four balance
    amounts, read from the label/value dictionary of the information box. */
module HeaderFields {
  import opened Base
  import opened Text
  import opened Amounts
  import opened Dates

  type Props = map<string, seq<string>>

  /** The statement-level fields of `BankStatement`. */
  datatype HeaderInfo = HeaderInfo(
    date: Date,
    customerNumber: string,
    serialNumber: int,
    previousBalance: real,
    totalReceivedPayment: real,
    totalNewExpenses: real,
    newBalance: real)

  /** `properties[key]`: a KeyError when the label is missing. */
  function Field(props: Props, key: string): (r: Result<seq<string>>)
    ensures r.Ok? <==> key in props
    ensures r.Ok? ==> r.value == props[key]
    ensures r.Err? ==> r.error == KeyError
  {
    if key in props then Ok(props[key]) else Err(KeyError)
  }

  /** `parse_amount(*properties[key])`, using `preferred` when present and
      `fallback` otherwise. */
  function BalanceField(props: Props, preferred: string, fallback: string): Result<real> {
    var words :- Field(props, if preferred in props then preferred else fallback);
    ParseAmountWords(words)
  }

  /** `int(properties['volgnummer'][0])`, after refusing more than one word.
      An empty list is an IndexError; so is a non-integer when the customer
      number list is empty, since the error message indexes it. */
  function SerialNumber(serial: seq<string>, customer: seq<string>): Result<int> {
    if |serial| > 1 then Err(ParseError)
    else if serial == [] then Err(IndexError)
    else match ParseInt(serial[0])
      case Some(n) => Ok(n)
      case None => if customer == [] then Err(IndexError) else Err(ParseError)
  }

  /** The four amounts of the header, in the order Python reads them: each
      with the label used when it is present and the label used otherwise. */
  const BalanceLabels: seq<(string, string)> := [
    ("vorig tegoed", "vorig openstaand saldo"),
    ("totaal ontvangen betalingen", "totaal ontvangen betalingen"),
    ("totaal nieuwe uitgaven", "totaal nieuwe uitgaven"),
    ("nieuw tegoed", "nieuw openstaand saldo")]

  /** The amounts under `labels`, read one after the other; the first
      failure stops the reading. */
  function ReadAmounts(props: Props, labels: seq<(string, string)>): (r: Result<seq<real>>)
    ensures r.Ok? ==> |r.value| == |labels|
    ensures r.Ok? ==> forall i :: 0 <= i < |labels| ==> BalanceField(props, labels[i].0, labels[i].1) == Ok(r.value[i])
    ensures r.Err? ==> r.error in {KeyError, TypeError, ParseError}
    ensures r.Err? ==> exists i :: 0 <= i < |labels| && BalanceField(props, labels[i].0, labels[i].1) == Err(r.error)
  {
    if labels == [] then Ok([])
    else
      var first :- BalanceField(props, labels[0].0, labels[0].1);
      var rest :- ReadAmounts(props, labels[1..]);
      Ok([first] + rest)
  }

  /** The body of the `try:` block, in Python's order of evaluation. The
      dictionary lookups are pure, so they are passed in already made. */
  function ReadFields(props: Props): Result<HeaderInfo> {
    CombineFields(Field(props, "datum"), Field(props, "ics-klantnummer"), Field(props, "volgnummer"),
                  ReadAmounts(props, BalanceLabels))
  }

  function CombineFields(datum: Result<seq<string>>, customer: Result<seq<string>>,
                         serialWords: Result<seq<string>>, amounts: Result<seq<real>>): Result<HeaderInfo>
    requires amounts.Ok? ==> |amounts.value| == 4
  {
    var datum :- datum;
    var date :- ParseDate(Join(datum, " "), None);
    var customer :- customer;
    var serialWords :- serialWords;
    var serial :- SerialNumber(serialWords, customer);
    var amounts :- amounts;
    Ok(HeaderInfo(date, Strip(Join(customer, " ")), serial, amounts[0], amounts[1], amounts[2], amounts[3]))
  }

  /** The block with its `except KeyError` handler: a missing label, or a
      month name the date parser does not know, becomes a ParseError; an
      invalid or oversized date escapes as it is. */
  function ReadHeaderFields(props: Props): (r: Result<HeaderInfo>)
    ensures r.Err? ==> r.error in {ParseError, ValueError, OverflowError, IndexError, TypeError}
  {
    match ReadFields(props)
    case Err(KeyError) => Err(ParseError)
    case other => other
  }

  /** The labels the block cannot do without. */
  predicate HasRequiredLabels(props: Props) {
    "datum" in props && "ics-klantnummer" in props && "volgnummer" in props &&
    ("vorig tegoed" in props || "vorig openstaand saldo" in props) &&
    "totaal ontvangen betalingen" in props && "totaal nieuwe uitgaven" in props &&
    ("nieuw tegoed" in props || "nieuw openstaand saldo" in props)
  }

  /** A successful read has every required label, a one-word integer serial
      number, a full date, the customer number as its words joined, and the
      four amounts as written, each balance under its preferred label when
      that is present and under the other label otherwise. */
  lemma ReadHeaderFieldsOk(props: Props)
    requires ReadHeaderFields(props).Ok?
    ensures var h := ReadHeaderFields(props).value;
      HasRequiredLabels(props) &&
      ParseDate(Join(props["datum"], " "), None) == Ok(h.date) &&
      |Words(Join(props["datum"], " "))| == 3 &&
      h.customerNumber == Strip(Join(props["ics-klantnummer"], " ")) &&
      |props["volgnummer"]| == 1 && ParseInt(props["volgnummer"][0]) == Some(h.serialNumber) &&
      ParseAmountWords(props["totaal ontvangen betalingen"]) == Ok(h.totalReceivedPayment) &&
      ParseAmountWords(props["totaal nieuwe uitgaven"]) == Ok(h.totalNewExpenses) &&
      BalanceField(props, "vorig tegoed", "vorig openstaand saldo") == Ok(h.previousBalance) &&
      BalanceField(props, "nieuw tegoed", "nieuw openstaand saldo") == Ok(h.newBalance)
  {
  }

  /** Without one of the labels the block needs, reading fails with a ParseError
      unless an earlier field has already failed otherwise. */
  lemma MissingLabelIsParseError(props: Props)
    requires !HasRequiredLabels(props)
    ensures ReadHeaderFields(props).Err?
    ensures ReadHeaderFields(props).error == ParseError ||
      ReadFields(props).error in {ValueError, OverflowError, IndexError, TypeError}
  {
  }

  lemma {:induction false} ReadAmountsAgree(a: Props, b: Props, labels: seq<(string, string)>)
    requires forall i :: 0 <= i < |labels| ==>
      BalanceField(a, labels[i].0, labels[i].1) == BalanceField(b, labels[i].0, labels[i].1)
    ensures ReadAmounts(a, labels) == ReadAmounts(b, labels)
  {
    if labels != [] {
      ReadAmountsAgree(a, b, labels[1..]);
    }
  }

  /** Two dictionaries that agree on everything the block reads give the same result. */
  lemma ReadFieldsAgree(a: Props, b: Props)
    requires Field(a, "datum") == Field(b, "datum")
    requires Field(a, "ics-klantnummer") == Field(b, "ics-klantnummer")
    requires Field(a, "volgnummer") == Field(b, "volgnummer")
    requires forall i :: 0 <= i < |BalanceLabels| ==>
      BalanceField(a, BalanceLabels[i].0, BalanceLabels[i].1) == BalanceField(b, BalanceLabels[i].0, BalanceLabels[i].1)
    ensures ReadHeaderFields(a) == ReadHeaderFields(b)
  {
    ReadAmountsAgree(a, b, BalanceLabels);
  }

  /** A label the block reads as a single word list. */
  lemma SameField(a: Props, b: Props, key: string)
    requires key in a <==> key in b
    requires key in a ==> a[key] == b[key]
    ensures Field(a, key) == Field(b, key)
  {
  }

  /** Either wording of the previous balance label is accepted, and gives the
      same statement: 'vorig tegoed' or 'vorig openstaand saldo'. */
  lemma PreviousBalanceSynonyms(props: Props, words: seq<string>)
    requires "vorig tegoed" !in props && "vorig openstaand saldo" !in props
    ensures ReadHeaderFields(props["vorig tegoed" := words]) ==
            ReadHeaderFields(props["vorig openstaand saldo" := words])
  {
    var a, b := props["vorig tegoed" := words], props["vorig openstaand saldo" := words];
    SameField(a, b, "datum");
    SameField(a, b, "ics-klantnummer");
    SameField(a, b, "volgnummer");
    SameBalance(a, b, "totaal ontvangen betalingen", "totaal ontvangen betalingen");
    SameBalance(a, b, "totaal nieuwe uitgaven", "totaal nieuwe uitgaven");
    SameBalance(a, b, "nieuw tegoed", "nieuw openstaand saldo");
    assert BalanceField(a, "vorig tegoed", "vorig openstaand saldo") == ParseAmountWords(words);
    assert BalanceField(b, "vorig tegoed", "vorig openstaand saldo") == ParseAmountWords(words);
    BalancesAgree(a, b);
    ReadFieldsAgree(a, b);
  }

  /** Likewise 'nieuw tegoed' and 'nieuw openstaand saldo'. */
  lemma NewBalanceSynonyms(props: Props, words: seq<string>)
    requires "nieuw tegoed" !in props && "nieuw openstaand saldo" !in props
    ensures ReadHeaderFields(props["nieuw tegoed" := words]) ==
            ReadHeaderFields(props["nieuw openstaand saldo" := words])
  {
    var a, b := props["nieuw tegoed" := words], props["nieuw openstaand saldo" := words];
    SameField(a, b, "datum");
    SameField(a, b, "ics-klantnummer");
    SameField(a, b, "volgnummer");
    SameBalance(a, b, "vorig tegoed", "vorig openstaand saldo");
    SameBalance(a, b, "totaal ontvangen betalingen", "totaal ontvangen betalingen");
    SameBalance(a, b, "totaal nieuwe uitgaven", "totaal nieuwe uitgaven");
    assert BalanceField(a, "nieuw tegoed", "nieuw openstaand saldo") == ParseAmountWords(words);
    assert BalanceField(b, "nieuw tegoed", "nieuw openstaand saldo") == ParseAmountWords(words);
    BalancesAgree(a, b);
    ReadFieldsAgree(a, b);
  }

  /** A balance read through two labels on which both dictionaries agree. */
  lemma SameBalance(a: Props, b: Props, preferred: string, fallback: string)
    requires preferred in a <==> preferred in b
    requires preferred in a ==> a[preferred] == b[preferred]
    requires fallback in a <==> fallback in b
    requires fallback in a ==> a[fallback] == b[fallback]
    ensures BalanceField(a, preferred, fallback) == BalanceField(b, preferred, fallback)
  {
    SameField(a, b, preferred);
    SameField(a, b, fallback);
  }

  /** The four balances, one by one, give the agreement ReadFieldsAgree asks for. */
  lemma BalancesAgree(a: Props, b: Props)
    requires BalanceField(a, "vorig tegoed", "vorig openstaand saldo") ==
      BalanceField(b, "vorig tegoed", "vorig openstaand saldo")
    requires BalanceField(a, "totaal ontvangen betalingen", "totaal ontvangen betalingen") ==
      BalanceField(b, "totaal ontvangen betalingen", "totaal ontvangen betalingen")
    requires BalanceField(a, "totaal nieuwe uitgaven", "totaal nieuwe uitgaven") ==
      BalanceField(b, "totaal nieuwe uitgaven", "totaal nieuwe uitgaven")
    requires BalanceField(a, "nieuw tegoed", "nieuw openstaand saldo") ==
      BalanceField(b, "nieuw tegoed", "nieuw openstaand saldo")
    ensures forall i :: 0 <= i < |BalanceLabels| ==>
      BalanceField(a, BalanceLabels[i].0, BalanceLabels[i].1) == BalanceField(b, BalanceLabels[i].0, BalanceLabels[i].1)
  {
    forall i | 0 <= i < |BalanceLabels|
      ensures BalanceField(a, BalanceLabels[i].0, BalanceLabels[i].1) == BalanceField(b, BalanceLabels[i].0, BalanceLabels[i].1)
    {
      assert i == 0 || i == 1 || i == 2 || i == 3;
    }
  }

  /** When both wordings are present, the "tegoed" one is read and the other ignored. */
  lemma TegoedPreferred(props: Props)
    requires "vorig tegoed" in props && "nieuw tegoed" in props
    ensures ReadHeaderFields(props) ==
      ReadHeaderFields(props - {"vorig openstaand saldo", "nieuw openstaand saldo"})
  {
    var b := props - {"vorig openstaand saldo", "nieuw openstaand saldo"};
    SameField(props, b, "datum");
    SameField(props, b, "ics-klantnummer");
    SameField(props, b, "volgnummer");
    SameBalance(props, b, "totaal ontvangen betalingen", "totaal ontvangen betalingen");
    SameBalance(props, b, "totaal nieuwe uitgaven", "totaal nieuwe uitgaven");
    SameField(props, b, "vorig tegoed");
    SameField(props, b, "nieuw tegoed");
    assert BalanceField(props, "vorig tegoed", "vorig openstaand saldo") == ParseAmountWords(props["vorig tegoed"]);
    assert BalanceField(b, "vorig tegoed", "vorig openstaand saldo") == ParseAmountWords(props["vorig tegoed"]);
    assert BalanceField(props, "nieuw tegoed", "nieuw openstaand saldo") == ParseAmountWords(props["nieuw tegoed"]);
    assert BalanceField(b, "nieuw tegoed", "nieuw openstaand saldo") == ParseAmountWords(props["nieuw tegoed"]);
    BalancesAgree(props, b);
    ReadFieldsAgree(props, b);
  }

  /** A serial number with more than one word is refused; so is a
      non-integer one. */
  lemma SerialNumberRules(serial: seq<string>, customer: seq<string>)
    ensures |serial| > 1 ==> SerialNumber(serial, customer) == Err(ParseError)
    ensures SerialNumber(serial, customer).Ok? <==> |serial| == 1 && ParseInt(serial[0]).Some?
    ensures |serial| == 1 && ParseInt(serial[0]).None? && customer != [] ==>
      SerialNumber(serial, customer) == Err(ParseError)
  {
  }
}
