/** `parse_transaction` (icscards-pdf-to-csv.py:365-386): the nine cells of
    a table row, by position, become one transaction. */
module Transactions {
  import opened Base
  import opened Text
  import opened Amounts
  import opened Dates

  /** One line of the statement. The card fields and the exchange rate are
      filled in later, by the row loop. */
  datatype Transaction = Transaction(
    transactionDate: Date,
    bookingDate: Date,
    description: string,
    location: string,
    country: string,
    amount: real,
    foreignAmount: Option<real>,
    foreignCurrency: Option<string>,
    foreignExchangeRate: Option<real>,
    cardLastNumbers: string,
    cardOwner: string)

  /** `row[i]`: an IndexError past the end. */
  function Cell(row: seq<string>, i: nat): (r: Result<string>)
    ensures r.Ok? <==> i < |row|
    ensures r.Ok? ==> r.value == row[i]
    ensures r.Err? ==> r.error == IndexError
  {
    if i < |row| then Ok(row[i]) else Err(IndexError)
  }

  /** `parse_amount(text) if text else None` */
  function OptionalAmount(text: string): (r: Result<Option<real>>)
    ensures text == "" <==> r == Ok(None)
    ensures r.Ok? && r.value.Some? ==> ParseAmount(text, "Bij", []) == Ok(r.value.value)
    ensures r.Err? ==> ParseAmount(text, "Bij", []).Err? && r.error == ParseError
  {
    if text == "" then Ok(None)
    else
      var a :- ParseAmount(text, "Bij", []);
      Ok(Some(a))
  }

  /** `text if text else None` */
  function OptionalText(text: string): Option<string> {
    if text == "" then None else Some(text)
  }

  /** `parse_transaction(row, hint)`, reading the cells in Python's order:
      the two dates, then the rest of the row. */
  function ParseTransaction(row: seq<string>, hint: Date): (r: Result<Transaction>)
    ensures r.Err? ==> r.error in {IndexError, ParseError, KeyError, ValueError, OverflowError}
    ensures r.Ok? ==> r.value.foreignExchangeRate.None? && r.value.cardLastNumbers == "" && r.value.cardOwner == ""
  {
    var c0 :- Cell(row, 0);
    var transactionDate :- ParseDate(c0, Some(hint));
    var c1 :- Cell(row, 1);
    var bookingDate :- ParseDate(c1, Some(hint));
    ReadCells(row, transactionDate, bookingDate)
  }

  /** A row gives a transaction exactly when it has nine cells, both dates
      read, the amount reads and a non-empty foreign amount reads; the
      transaction then holds what those cells say. */
  lemma ParseTransactionFields(row: seq<string>, hint: Date)
    ensures var r := ParseTransaction(row, hint);
      (r.Ok? <==>
        |row| >= 9 && ParseDate(row[0], Some(hint)).Ok? && ParseDate(row[1], Some(hint)).Ok? &&
        ParseAmount(row[7], row[8], []).Ok? && (row[5] != "" ==> ParseAmount(row[5], "Bij", []).Ok?)) &&
      (r.Ok? ==>
        ParseDate(row[0], Some(hint)) == Ok(r.value.transactionDate) &&
        ParseDate(row[1], Some(hint)) == Ok(r.value.bookingDate) &&
        RestOfRow(row, r.value))
  {
  }

  /** What a transaction takes from the cells after the dates: the three
      texts stripped, the amount with its indicator, the foreign amount and
      currency when their cells are not empty, and nothing else yet. */
  predicate RestOfRow(row: seq<string>, t: Transaction)
    requires |row| >= 9
  {
    t.description == Strip(row[2]) && t.location == Strip(row[3]) && t.country == Strip(row[4]) &&
    ParseAmount(row[7], row[8], []) == Ok(t.amount) &&
    (t.foreignAmount.None? <==> row[5] == "") &&
    (t.foreignAmount.Some? ==> ParseAmount(row[5], "Bij", []) == Ok(t.foreignAmount.value)) &&
    (t.foreignCurrency.None? <==> row[6] == "") &&
    (t.foreignCurrency.Some? ==> t.foreignCurrency.value == row[6]) &&
    t.foreignExchangeRate.None? && t.cardLastNumbers == "" && t.cardOwner == ""
  }

  /** The cells after the dates. Cells 2, 3, 4, 7 and 8 are all read before
      anything else can fail, so a row shorter than nine cells fails here
      with an IndexError; cells 5 and 6 are read after the amount. */
  function ReadCells(row: seq<string>, transactionDate: Date, bookingDate: Date): (r: Result<Transaction>)
    ensures r.Ok? <==> (|row| >= 9 && ParseAmount(row[7], row[8], []).Ok? &&
      (row[5] != "" ==> ParseAmount(row[5], "Bij", []).Ok?))
    ensures |row| < 9 ==> r == Err(IndexError)
    ensures r.Err? ==> r.error in {IndexError, ParseError}
    ensures r.Ok? ==> (r.value.transactionDate == transactionDate && r.value.bookingDate == bookingDate &&
      RestOfRow(row, r.value))
  {
    if |row| < 9 then Err(IndexError)
    else
      var amount :- ParseAmount(row[7], row[8], []);
      var foreignAmount :- OptionalAmount(row[5]);
      Ok(Transaction(transactionDate, bookingDate, Strip(row[2]), Strip(row[3]), Strip(row[4]), amount,
                     foreignAmount, OptionalText(row[6]), None, "", ""))
  }

  /** A row shorter than nine cells never gives a transaction; once its
      dates read, the failure is an IndexError. */
  lemma ShortRow(row: seq<string>, hint: Date)
    requires 2 <= |row| < 9
    ensures ParseTransaction(row, hint).Err?
    ensures ParseDate(row[0], Some(hint)).Ok? && ParseDate(row[1], Some(hint)).Ok? ==>
      ParseTransaction(row, hint) == Err(IndexError)
  {
    ParseTransactionFields(row, hint);
  }

  // ---------------------------------------------------------------------
  // The way the statement prints a transaction, as the partner of
  // ParseTransaction.

  /** A foreign amount in cents as the statement prints it, without sign;
      an empty cell when there is none. */
  function ForeignText(foreign: Option<nat>): string {
    match foreign
    case Some(m) => FormatMagnitude(m)
    case None => ""
  }

  function ForeignValue(foreign: Option<nat>): Option<real> {
    match foreign
    case Some(m) => Some(m as real / 100.0)
    case None => None
  }

  /** The foreign amount cell as printed reads back as the amount, and an
      empty cell as none. */
  lemma ForeignRoundTrip(foreign: Option<nat>)
    ensures OptionalAmount(ForeignText(foreign)) == Ok(ForeignValue(foreign))
  {
    if foreign.Some? {
      var m := foreign.value;
      AmountRoundTrip(m);
      assert FormatEuro(m) == (FormatMagnitude(m), "Bij");
      MagnitudeOfFormatted(m);
    }
  }

  /** Once both dates read, the rest of the transaction comes from the cells after them. */
  lemma DatesFirst(row: seq<string>, hint: Date, transactionDate: Date, bookingDate: Date)
    requires |row| >= 2
    requires ParseDate(row[0], Some(hint)) == Ok(transactionDate)
    requires ParseDate(row[1], Some(hint)) == Ok(bookingDate)
    ensures ParseTransaction(row, hint) == ReadCells(row, transactionDate, bookingDate)
  {
  }

  lemma ReadCellsOk(row: seq<string>, transactionDate: Date, bookingDate: Date, amount: real, foreign: Option<real>)
    requires |row| >= 9
    requires ParseAmount(row[7], row[8], []) == Ok(amount)
    requires OptionalAmount(row[5]) == Ok(foreign)
    ensures ReadCells(row, transactionDate, bookingDate) ==
      Ok(Transaction(transactionDate, bookingDate, Strip(row[2]), Strip(row[3]), Strip(row[4]), amount,
                     foreign, OptionalText(row[6]), None, "", ""))
  {
  }

  /** A row printed from a transaction reads back as that transaction: its
      dates printed as day and month are the ones the rollover rule picks
      for the hint, its texts carry no surrounding whitespace, and its
      amount cells read back as the transaction's amounts (as AmountRoundTrip
      and ForeignRoundTrip show for the ones the statement prints). */
  lemma TransactionRoundTrip(row: seq<string>, hint: Date, transactionDate: Date, bookingDate: Date,
                             description: string, location: string, country: string,
                             amount: real, foreign: Option<real>, currency: string)
    requires |row| == 9
    requires row[0] == FormatDayMonth(transactionDate) && row[1] == FormatDayMonth(bookingDate)
    requires row[2] == description && row[3] == location && row[4] == country && row[6] == currency
    requires ParseAmount(row[7], row[8], []) == Ok(amount) && OptionalAmount(row[5]) == Ok(foreign)
    requires CompleteDate(transactionDate.day, transactionDate.month, hint) == Ok(transactionDate)
    requires CompleteDate(bookingDate.day, bookingDate.month, hint) == Ok(bookingDate)
    requires Strip(description) == description && Strip(location) == location && Strip(country) == country
    ensures ParseTransaction(row, hint) ==
      Ok(Transaction(transactionDate, bookingDate, description, location, country, amount,
                     foreign, OptionalText(currency), None, "", ""))
  {
    DayMonthRoundTrip(transactionDate, hint);
    DayMonthRoundTrip(bookingDate, hint);
    CellsRead(row, hint, transactionDate, bookingDate, description, location, country,
              amount, foreign, OptionalText(currency));
  }

  /** A row whose cells read as given gives the transaction made of them. */
  lemma CellsRead(row: seq<string>, hint: Date, transactionDate: Date, bookingDate: Date,
                  description: string, location: string, country: string,
                  amount: real, foreign: Option<real>, currency: Option<string>)
    requires |row| >= 9
    requires ParseDate(row[0], Some(hint)) == Ok(transactionDate)
    requires ParseDate(row[1], Some(hint)) == Ok(bookingDate)
    requires Strip(row[2]) == description && Strip(row[3]) == location && Strip(row[4]) == country
    requires ParseAmount(row[7], row[8], []) == Ok(amount) && OptionalAmount(row[5]) == Ok(foreign)
    requires OptionalText(row[6]) == currency
    ensures ParseTransaction(row, hint) ==
      Ok(Transaction(transactionDate, bookingDate, description, location, country, amount,
                     foreign, currency, None, "", ""))
  {
    DatesFirst(row, hint, transactionDate, bookingDate);
    ReadCellsOk(row, transactionDate, bookingDate, amount, foreign);
  }
}
