/** The row loop of `parse_ics_pdf` (icscards-pdf-to-csv.py:458-500): the
    rows of all pages, read in order, become the transactions. A one-cell row
    is free text; a card banner among them sets the card digits and, when the
    next row is also free text, the card owner. An exchange-rate row completes
    the transaction just read. Every other row is a transaction. */
module Tracker {
  import opened Base
  import opened Text
  import opened Amounts
  import opened Dates
  import opened Transactions

  type Row = seq<string>

  // ---------------------------------------------------------------------
  // Classifying rows.

  /** The banner before a card's transactions; matched case-insensitively. */
  const BannerPrefix: string := "Uw Card met als laatste vier cijfers "

  /** The banner as compared: lower case, like any text matched against it. */
  const BannerLower: string := "uw card met als laatste vier cijfers "

  /** How many digits `s` starts with. */
  function DigitRun(s: string): (n: nat)
    ensures n <= |s|
    ensures forall k :: 0 <= k < n ==> IsDigit(s[k])
    ensures n == |s| || !IsDigit(s[n])
  {
    if s == [] || !IsDigit(s[0]) then 0 else 1 + DigitRun(s[1..])
  }

  /** `RE_CARD_NO.match(text)`: the digits after the banner, if `text`
      starts with the banner (in any case) followed by at least one digit. */
  function CardBanner(text: string): (r: Option<string>)
    ensures r.Some? ==> |r.value| > 0 && AllDigits(r.value)
    ensures r.Some? <==> |text| > |BannerLower| && Lower(text[..|BannerLower|]) == BannerLower && IsDigit(text[|BannerLower|])
    ensures r.Some? ==> text[..|BannerLower|] + r.value <= text
    ensures r.Some? ==> |text| == |BannerLower| + |r.value| || !IsDigit(text[|BannerLower| + |r.value|])
  {
    var p := |BannerLower|;
    if |text| < p || Lower(text[..p]) != BannerLower then None
    else
      var n := DigitRun(text[p..]);
      if n == 0 then None else Some(text[p..][..n])
  }

  /** `line[0] == '' and line[1] == '' and line[2].startswith("Wisselkoers")`,
      with Python's short-circuit: a short row raises IndexError only when
      every cell it has is empty, since a non-empty cell 0 or 1 ends the test. */
  function IsRateRow(row: Row): (r: Result<bool>)
    ensures r.Err? ==> r.error == IndexError
    ensures r.Err? <==> |row| < 3 && forall k :: 0 <= k < |row| ==> row[k] == ""
    ensures r == Ok(true) <==> |row| >= 3 && row[0] == "" && row[1] == "" && StartsWith(row[2], "Wisselkoers")
  {
    var c0 :- Cell(row, 0);
    if c0 != "" then Ok(false)
    else
      var c1 :- Cell(row, 1);
      if c1 != "" then Ok(false)
      else
        var c2 :- Cell(row, 2);
        Ok(StartsWith(c2, "Wisselkoers"))
  }

  /** A row that becomes a transaction: not free text and not a rate row. */
  predicate IsDataRow(row: Row) {
    |row| != 1 && IsRateRow(row) == Ok(false)
  }

  /** A row that hands its exchange rate to the transaction before it. */
  predicate IsRateLine(row: Row) {
    |row| != 1 && IsRateRow(row) == Ok(true)
  }

  // ---------------------------------------------------------------------
  // The loop's state and its reference definition.

  /** The variables of the loop: the transactions so far, the current card
      digits and owner, and whether the last transaction is still open for
      an exchange rate (`transaction` is not None). */
  datatype Context = Context(transactions: seq<Transaction>, card: string, owner: string, pending: bool)

  predicate ValidContext(ctx: Context) {
    ctx.pending ==> |ctx.transactions| > 0
  }

  const Initial: Context := Context([], "", "", false)

  /** `parse_amount(line[3])` stored on the open transaction, which is the
      last one in the list. */
  function SetRate(ts: seq<Transaction>, rate: real): (r: seq<Transaction>)
    requires |ts| > 0
    ensures |r| == |ts|
  {
    ts[|ts| - 1 := ts[|ts| - 1].(foreignExchangeRate := Some(rate))]
  }

  /** The loop, one row (or a banner and its owner row) at a time. */
  function Run(rows: seq<Row>, hint: Date, ctx: Context): (r: Result<Context>)
    requires ValidContext(ctx)
    ensures r.Ok? ==> ValidContext(r.value)
    ensures r.Err? ==> r.error in {IndexError, ParseError, KeyError, ValueError, OverflowError}
    decreases |rows|
  {
    if rows == [] then Ok(ctx)
    else
      var row := rows[0];
      if |row| == 1 then
        match CardBanner(row[0])
        case Some(digits) =>
          if |rows| == 1 then Ok(ctx.(card := digits, pending := false))
          else if |rows[1]| == 1 then Run(rows[2..], hint, ctx.(card := digits, owner := Strip(rows[1][0]), pending := false))
          else Run(rows[1..], hint, ctx.(card := digits, owner := "", pending := false))
        case None => Run(rows[1..], hint, ctx.(pending := false))
      else
        var isRate :- IsRateRow(row);
        if isRate then
          if !ctx.pending then Err(ParseError)
          else
            var text :- Cell(row, 3);
            var rate :- ParseAmount(text, "Bij", []);
            Run(rows[1..], hint, ctx.(transactions := SetRate(ctx.transactions, rate), pending := false))
        else
          var t :- ParseTransaction(row, hint);
          var stamped := t.(cardLastNumbers := ctx.card, cardOwner := ctx.owner);
          Run(rows[1..], hint, ctx.(transactions := ctx.transactions + [stamped], pending := true))
  }

  /** A banner as the last row sets the card and ends the loop. */
  lemma LastRowBanner(row: Row, hint: Date, ctx: Context)
    requires ValidContext(ctx) && |row| == 1 && CardBanner(row[0]).Some?
    ensures Run([row], hint, ctx) == Ok(ctx.(card := CardBanner(row[0]).value, pending := false))
  {
  }

  /** The transactions of the loop as a whole. */
  function TransactionsOf(rows: seq<Row>, hint: Date): Result<seq<Transaction>> {
    var ctx :- Run(rows, hint, Initial);
    Ok(ctx.transactions)
  }

  // ---------------------------------------------------------------------
  // The loop as Python writes it.

  /** `while lines: line = lines.pop(0) ...`: the index `i` is the front of
      `lines`; a row pushed back with `lines.insert(0, line)` is simply not
      consumed. The open transaction is the last one in the list. */
  method ReadTransactions(rows: seq<Row>, hint: Date) returns (r: Result<seq<Transaction>>)
    ensures r == TransactionsOf(rows, hint)
  {
    var transactions: seq<Transaction> := [];
    var card, owner := "", "";
    var pending := false;
    var i := 0;
    while i < |rows|
      invariant 0 <= i <= |rows|
      invariant pending ==> |transactions| > 0
      invariant Run(rows, hint, Initial) == Run(rows[i..], hint, Context(transactions, card, owner, pending))
      decreases |rows| - i
    {
      var line := rows[i];
      ghost var ctx := Context(transactions, card, owner, pending);
      assert rows[i..][0] == line;
      if |line| == 1 {
        var m := CardBanner(line[0]);
        if m.Some? {
          card := m.value;
          i := i + 1;
          if i < |rows| {
            var next := rows[i];
            assert rows[i - 1..][1] == next;
            if |next| == 1 {
              owner := Strip(next[0]);
              i := i + 1;
              assert rows[i - 2..][2..] == rows[i..];
            } else {
              owner := "";
              assert rows[i - 1..][1..] == rows[i..];
            }
          } else {
            assert rows[i - 1..] == [line];
            LastRowBanner(line, hint, ctx);
            return Ok(transactions);
          }
        } else {
          i := i + 1;
          assert rows[i - 1..][1..] == rows[i..];
        }
        pending := false;
      } else {
        var isRate := IsRateRow(line);
        if isRate.Err? {
          return Err(isRate.error);
        }
        if isRate.value {
          if !pending {
            return Err(ParseError);
          }
          var text := Cell(line, 3);
          if text.Err? {
            return Err(text.error);
          }
          var rate := ParseAmount(text.value, "Bij", []);
          if rate.Err? {
            return Err(rate.error);
          }
          transactions := SetRate(transactions, rate.value);
          pending := false;
        } else {
          var t := ParseTransaction(line, hint);
          if t.Err? {
            return Err(t.error);
          }
          transactions := transactions + [t.value.(cardLastNumbers := card, cardOwner := owner)];
          pending := true;
        }
        i := i + 1;
        assert rows[i - 1..][1..] == rows[i..];
      }
    }
    assert rows[i..] == [];
    return Ok(transactions);
  }

  // ---------------------------------------------------------------------
  // What the loop promises.

  /** The rows that become transactions, in order. */
  function DataRows(rows: seq<Row>): (r: seq<Row>)
    ensures forall k :: 0 <= k < |r| ==> IsDataRow(r[k])
  {
    if rows == [] then []
    else (if IsDataRow(rows[0]) then [rows[0]] else []) + DataRows(rows[1..])
  }

  /** A transaction without what the loop adds to it. */
  function Unstamped(t: Transaction): Transaction {
    t.(foreignExchangeRate := None, cardLastNumbers := "", cardOwner := "")
  }

  /** `a` and `b` agree but for what the loop adds to a transaction. */
  predicate SameUnstamped(a: seq<Transaction>, b: seq<Transaction>) {
    |a| == |b| && forall k :: 0 <= k < |a| ==> Unstamped(a[k]) == Unstamped(b[k])
  }

  lemma SplitAt<T>(s: seq<T>, n: nat)
    requires n < |s|
    ensures s[n..] == [s[n]] + s[n + 1..]
  {
  }

  /** Each transaction of `ts` is the parse of the row at its place in `data`. */
  predicate ParsedFrom(data: seq<Row>, ts: seq<Transaction>, hint: Date) {
    |data| == |ts| && forall k :: 0 <= k < |ts| ==> ParseTransaction(data[k], hint) == Ok(Unstamped(ts[k]))
  }

  /** What one call of `Run` does to the transaction list. */
  predicate ReadsDataRows(rows: seq<Row>, hint: Date, before: seq<Transaction>, after: seq<Transaction>) {
    |before| <= |after| &&
    SameUnstamped(after[..|before|], before) &&
    ParsedFrom(DataRows(rows), after[|before|..], hint)
  }

  lemma ReadsSkip(row: Row, rows: seq<Row>, hint: Date, before: seq<Transaction>, middle: seq<Transaction>, after: seq<Transaction>)
    requires !IsDataRow(row)
    requires SameUnstamped(middle, before)
    requires ReadsDataRows(rows, hint, middle, after)
    ensures ReadsDataRows([row] + rows, hint, before, after)
  {
    assert ([row] + rows)[1..] == rows;
  }

  lemma ParsedFromCons(row: Row, data: seq<Row>, x: Transaction, ts: seq<Transaction>, hint: Date)
    requires ParseTransaction(row, hint) == Ok(Unstamped(x))
    requires ParsedFrom(data, ts, hint)
    ensures ParsedFrom([row] + data, [x] + ts, hint)
  {
    forall k | 0 <= k < |ts| + 1
      ensures ParseTransaction(([row] + data)[k], hint) == Ok(Unstamped(([x] + ts)[k]))
    {
      if k > 0 {
        assert ([row] + data)[k] == data[k - 1] && ([x] + ts)[k] == ts[k - 1];
      }
    }
  }

  lemma SameUnstampedSplit(a: seq<Transaction>, b: seq<Transaction>, t: Transaction)
    requires SameUnstamped(a, b + [t])
    ensures SameUnstamped(a[..|b|], b) && Unstamped(a[|b|]) == Unstamped(t)
  {
    assert forall k :: 0 <= k < |b| ==> a[..|b|][k] == a[k] && (b + [t])[k] == b[k];
    assert (b + [t])[|b|] == t;
  }

  lemma ReadsData(row: Row, rows: seq<Row>, hint: Date, before: seq<Transaction>, t: Transaction, after: seq<Transaction>)
    requires IsDataRow(row)
    requires ParseTransaction(row, hint) == Ok(Unstamped(t))
    requires ReadsDataRows(rows, hint, before + [t], after)
    ensures ReadsDataRows([row] + rows, hint, before, after)
  {
    DataRowsOfData(row, rows);
    var n := |before|;
    SameUnstampedSplit(after[..n + 1], before, t);
    assert after[..n + 1][..n] == after[..n];
    assert after[..n + 1][n] == after[n];
    SplitAt(after, n);
    assert |before + [t]| == n + 1;
    assert ParsedFrom(DataRows(rows), after[n + 1..], hint);
    assert ParseTransaction(row, hint) == Ok(Unstamped(after[n]));
    ParsedFromCons(row, DataRows(rows), after[n], after[n + 1..], hint);
  }

  lemma DataRowsOfData(row: Row, rows: seq<Row>)
    requires IsDataRow(row)
    ensures DataRows([row] + rows) == [row] + DataRows(rows)
  {
    assert ([row] + rows)[1..] == rows;
  }

  lemma SetRateUnstamped(ts: seq<Transaction>, rate: real)
    requires |ts| > 0
    ensures SameUnstamped(SetRate(ts, rate), ts)
  {
  }

  /** The loop keeps the transactions it has, up to what it adds to them,
      and adds one transaction per data row, in order, each the parse of its
      row. */
  lemma {:induction false} RunReadsDataRows(rows: seq<Row>, hint: Date, ctx: Context)
    requires ValidContext(ctx)
    requires Run(rows, hint, ctx).Ok?
    ensures ReadsDataRows(rows, hint, ctx.transactions, Run(rows, hint, ctx).value.transactions)
    decreases |rows|, 1
  {
    if rows == [] {
      var after := Run(rows, hint, ctx).value.transactions;
      assert after[..|ctx.transactions|] == ctx.transactions;
    } else if |rows[0]| == 1 {
      ReadsAfterOneCell(rows, hint, ctx);
    } else if IsRateRow(rows[0]) == Ok(true) {
      ReadsAfterRate(rows, hint, ctx);
    } else {
      ReadsAfterData(rows, hint, ctx);
    }
  }

  /** `RunReadsDataRows` for a banner or a sentence row at the front. */
  lemma {:induction false} ReadsAfterOneCell(rows: seq<Row>, hint: Date, ctx: Context)
    requires ValidContext(ctx) && rows != [] && |rows[0]| == 1
    requires Run(rows, hint, ctx).Ok?
    ensures ReadsDataRows(rows, hint, ctx.transactions, Run(rows, hint, ctx).value.transactions)
    decreases |rows|, 0
  {
    var after := Run(rows, hint, ctx).value.transactions;
    var row := rows[0];
    SplitAt(rows, 0);
    match CardBanner(row[0])
    case Some(digits) =>
      if |rows| == 1 {
        assert after[..|ctx.transactions|] == ctx.transactions;
      } else if |rows[1]| == 1 {
        var rest := rows[2..];
        SplitAt(rows, 1);
        RunReadsDataRows(rest, hint, ctx.(card := digits, owner := Strip(rows[1][0]), pending := false));
        ReadsSkip(rows[1], rest, hint, ctx.transactions, ctx.transactions, after);
        ReadsSkip(row, rows[1..], hint, ctx.transactions, ctx.transactions, after);
      } else {
        RunReadsDataRows(rows[1..], hint, ctx.(card := digits, owner := "", pending := false));
        ReadsSkip(row, rows[1..], hint, ctx.transactions, ctx.transactions, after);
      }
    case None =>
      RunReadsDataRows(rows[1..], hint, ctx.(pending := false));
      ReadsSkip(row, rows[1..], hint, ctx.transactions, ctx.transactions, after);
  }

  /** `RunReadsDataRows` for a rate row at the front. */
  lemma {:induction false} ReadsAfterRate(rows: seq<Row>, hint: Date, ctx: Context)
    requires ValidContext(ctx) && rows != [] && |rows[0]| != 1 && IsRateRow(rows[0]) == Ok(true)
    requires Run(rows, hint, ctx).Ok?
    ensures ReadsDataRows(rows, hint, ctx.transactions, Run(rows, hint, ctx).value.transactions)
    decreases |rows|, 0
  {
    var after := Run(rows, hint, ctx).value.transactions;
    var row := rows[0];
    SplitAt(rows, 0);
    var rate := ParseAmount(row[3], "Bij", []).value;
    var ts := SetRate(ctx.transactions, rate);
    RunReadsDataRows(rows[1..], hint, ctx.(transactions := ts, pending := false));
    SetRateUnstamped(ctx.transactions, rate);
    ReadsSkip(row, rows[1..], hint, ctx.transactions, ts, after);
  }

  /** `RunReadsDataRows` for a data row at the front. */
  lemma {:induction false} ReadsAfterData(rows: seq<Row>, hint: Date, ctx: Context)
    requires ValidContext(ctx) && rows != [] && |rows[0]| != 1 && IsRateRow(rows[0]) != Ok(true)
    requires Run(rows, hint, ctx).Ok?
    ensures ReadsDataRows(rows, hint, ctx.transactions, Run(rows, hint, ctx).value.transactions)
    decreases |rows|, 0
  {
    var after := Run(rows, hint, ctx).value.transactions;
    var row := rows[0];
    SplitAt(rows, 0);
    var t := ParseTransaction(row, hint).value;
    var stamped := t.(cardLastNumbers := ctx.card, cardOwner := ctx.owner);
    assert Unstamped(stamped) == t;
    RunReadsDataRows(rows[1..], hint, ctx.(transactions := ctx.transactions + [stamped], pending := true));
    ReadsData(row, rows[1..], hint, ctx.transactions, stamped, after);
  }

  /** From the start: one transaction per data row, in order. */
  lemma OneTransactionPerDataRow(rows: seq<Row>, hint: Date)
    requires TransactionsOf(rows, hint).Ok?
    ensures ParsedFrom(DataRows(rows), TransactionsOf(rows, hint).value, hint)
  {
    RunReadsDataRows(rows, hint, Initial);
    var ts := TransactionsOf(rows, hint).value;
    assert ts[0..] == ts;
  }

  /** `parse_amount(line[3])` of a rate row, when it reads. */
  function RateOf(row: Row): Option<real> {
    if |row| > 3 && ParseAmount(row[3], "Bij", []).Ok? then Some(ParseAmount(row[3], "Bij", []).value) else None
  }

  /** The rate the rows after a transaction's row hand to it: that of a rate
      row right after it, and none otherwise. */
  function RateAfter(rest: seq<Row>): Option<real> {
    if rest != [] && IsRateLine(rest[0]) then RateOf(rest[0]) else None
  }

  /** For each data row, in order, the rate of the rate row right after it,
      or None when no rate row follows it. */
  function FollowingRates(rows: seq<Row>): (r: seq<Option<real>>)
    ensures |r| == |DataRows(rows)|
  {
    if rows == [] then []
    else (if IsDataRow(rows[0]) then [RateAfter(rows[1..])] else []) + FollowingRates(rows[1..])
  }

  /** What one call of `Run` does to the exchange rates: the open transaction
      takes the rate of a rate row at the front, the other transactions it had
      keep theirs, and each new one has the rate of the row after its own. */
  predicate RatesFollow(rows: seq<Row>, ctx: Context, after: seq<Transaction>)
    requires ValidContext(ctx)
  {
    var n := |ctx.transactions|;
    |after| == n + |FollowingRates(rows)| &&
    KeptRates(ctx.transactions, after, ctx.pending && rows != [] && IsRateLine(rows[0]), RateAfter(rows)) &&
    NewRates(after, n, FollowingRates(rows))
  }

  /** The transactions of `before` keep their rates in `after`, but for the
      last one, which takes `rate` when `retouched`. */
  predicate KeptRates(before: seq<Transaction>, after: seq<Transaction>, retouched: bool, rate: Option<real>) {
    |before| <= |after| &&
    forall k :: 0 <= k < |before| ==>
      after[k].foreignExchangeRate ==
        if retouched && k == |before| - 1 then rate else before[k].foreignExchangeRate
  }

  lemma KeptRatesAppend(before: seq<Transaction>, t: Transaction, after: seq<Transaction>,
                        retouched: bool, rate: Option<real>, other: Option<real>)
    requires KeptRates(before + [t], after, retouched, rate)
    ensures KeptRates(before, after, false, other)
    ensures after[|before|].foreignExchangeRate == if retouched then rate else t.foreignExchangeRate
  {
    forall k | 0 <= k < |before|
      ensures after[k].foreignExchangeRate == before[k].foreignExchangeRate
    {
      assert (before + [t])[k] == before[k];
    }
    assert (before + [t])[|before|] == t;
  }

  /** From index `n` on, the transactions carry the given rates, in order. */
  predicate NewRates(after: seq<Transaction>, n: nat, rates: seq<Option<real>>) {
    n + |rates| <= |after| &&
    forall k :: 0 <= k < |rates| ==> after[n + k].foreignExchangeRate == rates[k]
  }

  lemma NewRatesCons(after: seq<Transaction>, n: nat, first: Option<real>, rates: seq<Option<real>>)
    requires n < |after| && after[n].foreignExchangeRate == first
    requires NewRates(after, n + 1, rates)
    ensures NewRates(after, n, [first] + rates)
  {
    forall k | 0 <= k < |rates| + 1
      ensures after[n + k].foreignExchangeRate == ([first] + rates)[k]
    {
      if k > 0 {
        assert n + k == n + 1 + (k - 1);
      }
    }
  }

  lemma FollowingRatesOfData(row: Row, rows: seq<Row>)
    requires IsDataRow(row)
    ensures FollowingRates([row] + rows) == [RateAfter(rows)] + FollowingRates(rows)
  {
    assert ([row] + rows)[1..] == rows;
  }

  lemma RatesSkip(row: Row, rows: seq<Row>, ctx: Context, next: Context, after: seq<Transaction>)
    requires ValidContext(ctx) && ValidContext(next) && !next.pending
    requires !IsDataRow(row)
    requires |next.transactions| == |ctx.transactions|
    requires forall k :: 0 <= k < |ctx.transactions| ==>
      next.transactions[k].foreignExchangeRate ==
        if ctx.pending && k == |ctx.transactions| - 1 && IsRateLine(row) then RateOf(row)
        else ctx.transactions[k].foreignExchangeRate
    requires RatesFollow(rows, next, after)
    ensures RatesFollow([row] + rows, ctx, after)
  {
    var all := [row] + rows;
    assert all[0] == row && all[1..] == rows;
    assert FollowingRates(all) == FollowingRates(rows);
    assert RateAfter(all) == if IsRateLine(row) then RateOf(row) else None;
  }

  lemma RatesData(row: Row, rows: seq<Row>, ctx: Context, t: Transaction, after: seq<Transaction>)
    requires ValidContext(ctx)
    requires IsDataRow(row) && t.foreignExchangeRate.None?
    requires RatesFollow(rows, ctx.(transactions := ctx.transactions + [t], pending := true), after)
    ensures RatesFollow([row] + rows, ctx, after)
  {
    var n := |ctx.transactions|;
    var all := [row] + rows;
    assert all[0] == row;
    KeptRatesAppend(ctx.transactions, t, after, rows != [] && IsRateLine(rows[0]), RateAfter(rows), RateAfter(all));
    assert after[n].foreignExchangeRate == RateAfter(rows);
    assert !IsRateLine(row);
    FollowingRatesOfData(row, rows);
    NewRatesCons(after, n, RateAfter(rows), FollowingRates(rows));
  }

  lemma RatesRateRow(row: Row, rows: seq<Row>, ctx: Context, rate: real, after: seq<Transaction>)
    requires ValidContext(ctx) && ctx.pending && IsRateLine(row)
    requires |row| > 3 && ParseAmount(row[3], "Bij", []) == Ok(rate)
    requires RatesFollow(rows, ctx.(transactions := SetRate(ctx.transactions, rate), pending := false), after)
    ensures RatesFollow([row] + rows, ctx, after)
  {
    var next := ctx.(transactions := SetRate(ctx.transactions, rate), pending := false);
    assert RateOf(row) == Some(rate);
    RatesSkip(row, rows, ctx, next, after);
  }

  /** The exchange rate of each transaction comes from the rate row right
      after its own row, and there is none when no rate row follows. */
  lemma {:induction false} RunSetsRates(rows: seq<Row>, hint: Date, ctx: Context)
    requires ValidContext(ctx)
    requires Run(rows, hint, ctx).Ok?
    ensures RatesFollow(rows, ctx, Run(rows, hint, ctx).value.transactions)
    decreases |rows|, 1
  {
    if rows != [] {
      var row := rows[0];
      if |row| == 1 {
        RatesAfterOneCell(rows, hint, ctx);
      } else if IsRateRow(row) == Ok(true) {
        RatesAfterRate(rows, hint, ctx);
      } else {
        RatesAfterData(rows, hint, ctx);
      }
    } else {
      assert FollowingRates(rows) == [];
    }
  }

  /** `RunSetsRates` for a banner or a sentence row at the front. */
  lemma {:induction false} RatesAfterOneCell(rows: seq<Row>, hint: Date, ctx: Context)
    requires ValidContext(ctx) && rows != [] && |rows[0]| == 1
    requires Run(rows, hint, ctx).Ok?
    ensures RatesFollow(rows, ctx, Run(rows, hint, ctx).value.transactions)
    decreases |rows|, 0
  {
    var after := Run(rows, hint, ctx).value.transactions;
    var row := rows[0];
    SplitAt(rows, 0);
    match CardBanner(row[0])
    case Some(digits) =>
      if |rows| == 1 {
        RatesSkip(row, [], ctx, ctx.(card := digits, pending := false), after);
      } else if |rows[1]| == 1 {
        var rest := rows[2..];
        SplitAt(rows, 1);
        var next := ctx.(card := digits, owner := Strip(rows[1][0]), pending := false);
        RunSetsRates(rest, hint, next);
        RatesSkip(rows[1], rest, next, next, after);
        RatesSkip(row, rows[1..], ctx, next, after);
      } else {
        var next := ctx.(card := digits, owner := "", pending := false);
        RunSetsRates(rows[1..], hint, next);
        RatesSkip(row, rows[1..], ctx, next, after);
      }
    case None =>
      RunSetsRates(rows[1..], hint, ctx.(pending := false));
      RatesSkip(row, rows[1..], ctx, ctx.(pending := false), after);
  }

  /** `RunSetsRates` for a rate row at the front. */
  lemma {:induction false} RatesAfterRate(rows: seq<Row>, hint: Date, ctx: Context)
    requires ValidContext(ctx) && rows != [] && |rows[0]| != 1 && IsRateRow(rows[0]) == Ok(true)
    requires Run(rows, hint, ctx).Ok?
    ensures RatesFollow(rows, ctx, Run(rows, hint, ctx).value.transactions)
    decreases |rows|, 0
  {
    var after := Run(rows, hint, ctx).value.transactions;
    var row := rows[0];
    SplitAt(rows, 0);
    var rate := ParseAmount(row[3], "Bij", []).value;
    var next := ctx.(transactions := SetRate(ctx.transactions, rate), pending := false);
    RunSetsRates(rows[1..], hint, next);
    RatesRateRow(row, rows[1..], ctx, rate, after);
  }

  /** `RunSetsRates` for a data row at the front. */
  lemma {:induction false} RatesAfterData(rows: seq<Row>, hint: Date, ctx: Context)
    requires ValidContext(ctx) && rows != [] && |rows[0]| != 1 && IsRateRow(rows[0]) != Ok(true)
    requires Run(rows, hint, ctx).Ok?
    ensures RatesFollow(rows, ctx, Run(rows, hint, ctx).value.transactions)
    decreases |rows|, 0
  {
    var after := Run(rows, hint, ctx).value.transactions;
    var row := rows[0];
    SplitAt(rows, 0);
    var t := ParseTransaction(row, hint).value;
    var stamped := t.(cardLastNumbers := ctx.card, cardOwner := ctx.owner);
    RunSetsRates(rows[1..], hint, ctx.(transactions := ctx.transactions + [stamped], pending := true));
    RatesData(row, rows[1..], ctx, stamped, after);
  }

  /** From the start: transaction k has the rate of the rate row after the
      k-th data row, and no rate when none follows it. */
  lemma RatesFromFollowingRows(rows: seq<Row>, hint: Date)
    requires TransactionsOf(rows, hint).Ok?
    ensures var ts := TransactionsOf(rows, hint).value;
      |ts| == |FollowingRates(rows)| &&
      forall k :: 0 <= k < |ts| ==> ts[k].foreignExchangeRate == FollowingRates(rows)[k]
  {
    RunSetsRates(rows, hint, Initial);
    var ts := Run(rows, hint, Initial).value.transactions;
    assert NewRates(ts, 0, FollowingRates(rows));
    forall k | 0 <= k < |ts|
      ensures ts[k].foreignExchangeRate == FollowingRates(rows)[k]
    {
      assert ts[0 + k] == ts[k];
    }
  }

  /** In a run that succeeds, every rate row comes right after a data row,
      and a first rate row needs a transaction left open by the rows before:
      a run with any other rate row fails. */
  lemma {:induction false} RateRowsFollowDataRows(rows: seq<Row>, hint: Date, ctx: Context)
    requires ValidContext(ctx)
    requires Run(rows, hint, ctx).Ok?
    ensures rows != [] && IsRateLine(rows[0]) ==> ctx.pending
    ensures forall i :: 0 < i < |rows| && IsRateLine(rows[i]) ==> IsDataRow(rows[i - 1])
    decreases |rows|
  {
    if rows != [] {
      var row := rows[0];
      if |row| == 1 {
        match CardBanner(row[0])
        case Some(digits) =>
          if |rows| > 1 && |rows[1]| == 1 {
            var next := ctx.(card := digits, owner := Strip(rows[1][0]), pending := false);
            RateRowsFollowDataRows(rows[2..], hint, next);
            forall i | 0 < i < |rows| && IsRateLine(rows[i])
              ensures IsDataRow(rows[i - 1])
            {
              assert i >= 2;
              if i > 2 {
                assert rows[2..][i - 2] == rows[i] && rows[2..][i - 3] == rows[i - 1];
              }
            }
          } else if |rows| > 1 {
            var next := ctx.(card := digits, owner := "", pending := false);
            RateRowsFollowDataRows(rows[1..], hint, next);
            Shifted(rows);
          }
        case None =>
          RateRowsFollowDataRows(rows[1..], hint, ctx.(pending := false));
          Shifted(rows);
      } else if IsRateRow(row) == Ok(true) {
        var rate := ParseAmount(row[3], "Bij", []).value;
        var next := ctx.(transactions := SetRate(ctx.transactions, rate), pending := false);
        RateRowsFollowDataRows(rows[1..], hint, next);
        Shifted(rows);
      } else {
        var t := ParseTransaction(row, hint).value;
        var next := ctx.(transactions := ctx.transactions + [t.(cardLastNumbers := ctx.card, cardOwner := ctx.owner)], pending := true);
        RateRowsFollowDataRows(rows[1..], hint, next);
        Shifted(rows);
      }
    }
  }

  /** The rows after the first keep their neighbours. */
  lemma Shifted(rows: seq<Row>)
    requires rows != []
    ensures forall j :: 0 <= j < |rows| - 1 ==> rows[1..][j] == rows[j + 1]
  {
  }

  /** From the start, a rate row is never first, and always follows a data
      row; a statement with any other rate row fails. */
  lemma RateRowsNeedATransaction(rows: seq<Row>, hint: Date)
    requires TransactionsOf(rows, hint).Ok?
    ensures forall i :: 0 <= i < |rows| && IsRateLine(rows[i]) ==> i > 0 && IsDataRow(rows[i - 1])
  {
    RateRowsFollowDataRows(rows, hint, Initial);
  }

  // ---------------------------------------------------------------------
  // The card each transaction is stamped with.

  /** A card's last digits and its owner's name. */
  datatype Card = Card(digits: string, owner: string)

  function CardOf(t: Transaction): Card {
    Card(t.cardLastNumbers, t.cardOwner)
  }

  /** For each data row, in order, the card in force at it, starting from
      `card`: a banner sets the digits and takes a one-cell row right after
      it as the owner (stripped), or clears the owner when another row
      follows it. */
  function CardsInForce(rows: seq<Row>, card: Card): (r: seq<Card>)
    ensures |r| == |DataRows(rows)|
    decreases |rows|
  {
    if rows == [] then []
    else if |rows[0]| == 1 && CardBanner(rows[0][0]).Some? then
      var digits := CardBanner(rows[0][0]).value;
      if |rows| == 1 then []
      else if |rows[1]| == 1 then
        assert rows[1..][1..] == rows[2..];
        CardsInForce(rows[2..], Card(digits, Strip(rows[1][0])))
      else CardsInForce(rows[1..], Card(digits, ""))
    else (if IsDataRow(rows[0]) then [card] else []) + CardsInForce(rows[1..], card)
  }

  /** Without a banner, every data row has the card in force before the rows. */
  lemma {:induction false} NoBannerCards(rows: seq<Row>, card: Card)
    requires forall i :: 0 <= i < |rows| && |rows[i]| == 1 ==> CardBanner(rows[i][0]).None?
    ensures forall k :: 0 <= k < |CardsInForce(rows, card)| ==> CardsInForce(rows, card)[k] == card
    decreases |rows|
  {
    if rows != [] {
      assert forall i :: 0 <= i < |rows| - 1 ==> rows[1..][i] == rows[i + 1];
      NoBannerCards(rows[1..], card);
    }
  }

  /** The transactions of `before` keep their cards in `after`, and those
      after them carry `cards`, in order. */
  predicate Stamped(before: seq<Transaction>, after: seq<Transaction>, cards: seq<Card>) {
    |after| == |before| + |cards| &&
    (forall k :: 0 <= k < |before| ==> CardOf(after[k]) == CardOf(before[k])) &&
    forall k :: 0 <= k < |cards| ==> CardOf(after[|before| + k]) == cards[k]
  }

  /** What one call of `Run` does to the cards of the transactions: those it
      had keep theirs, and each new one has the card in force at its row. */
  predicate CardsFollow(rows: seq<Row>, ctx: Context, after: seq<Transaction>) {
    Stamped(ctx.transactions, after, CardsInForce(rows, Card(ctx.card, ctx.owner)))
  }

  /** A step that adds no transaction and leaves the cards of those there are. */
  lemma StampedKept(before: seq<Transaction>, middle: seq<Transaction>, after: seq<Transaction>, cards: seq<Card>)
    requires |middle| == |before|
    requires forall k :: 0 <= k < |before| ==> CardOf(middle[k]) == CardOf(before[k])
    requires Stamped(middle, after, cards)
    ensures Stamped(before, after, cards)
  {
  }

  lemma SetRateKeepsCards(ts: seq<Transaction>, rate: real)
    requires |ts| > 0
    ensures forall k :: 0 <= k < |ts| ==> CardOf(SetRate(ts, rate)[k]) == CardOf(ts[k])
  {
  }

  /** A data row adds a transaction stamped with the card in force. */
  lemma StampedData(before: seq<Transaction>, t: Transaction, after: seq<Transaction>, cards: seq<Card>)
    requires Stamped(before + [t], after, cards)
    ensures Stamped(before, after, [CardOf(t)] + cards)
  {
    var n := |before|;
    forall k | 0 <= k < n
      ensures CardOf(after[k]) == CardOf(before[k])
    {
      assert (before + [t])[k] == before[k];
    }
    assert CardOf(after[n]) == CardOf(t) by {
      assert (before + [t])[n] == t;
    }
    forall k | 0 <= k < |cards| + 1
      ensures CardOf(after[n + k]) == ([CardOf(t)] + cards)[k]
    {
      if k > 0 {
        assert n + k == |before + [t]| + (k - 1);
      }
    }
  }

  /** Each transaction `Run` adds is stamped with the card in force at its
      row, and the transactions it had keep their cards. */
  lemma {:induction false} RunStampsCards(rows: seq<Row>, hint: Date, ctx: Context)
    requires ValidContext(ctx)
    requires Run(rows, hint, ctx).Ok?
    ensures CardsFollow(rows, ctx, Run(rows, hint, ctx).value.transactions)
    decreases |rows|, 1
  {
    if rows != [] {
      if |rows[0]| == 1 {
        CardsAfterOneCell(rows, hint, ctx);
      } else if IsRateRow(rows[0]) == Ok(true) {
        CardsAfterRate(rows, hint, ctx);
      } else {
        CardsAfterData(rows, hint, ctx);
      }
    }
  }

  /** `RunStampsCards` for a banner or a sentence row at the front. */
  lemma {:induction false} CardsAfterOneCell(rows: seq<Row>, hint: Date, ctx: Context)
    requires ValidContext(ctx) && rows != [] && |rows[0]| == 1
    requires Run(rows, hint, ctx).Ok?
    ensures CardsFollow(rows, ctx, Run(rows, hint, ctx).value.transactions)
    decreases |rows|, 0
  {
    var after := Run(rows, hint, ctx).value.transactions;
    match CardBanner(rows[0][0])
    case Some(digits) =>
      if |rows| > 1 {
        var owner, rest := "", rows[1..];
        if |rows[1]| == 1 {
          owner, rest := Strip(rows[1][0]), rows[2..];
        }
        var next := ctx.(card := digits, owner := owner, pending := false);
        assert Run(rows, hint, ctx) == Run(rest, hint, next);
        assert CardsInForce(rows, Card(ctx.card, ctx.owner)) == CardsInForce(rest, Card(digits, owner));
        RunStampsCards(rest, hint, next);
      } else {
        assert after == ctx.transactions;
      }
    case None =>
      var c := Card(ctx.card, ctx.owner);
      assert CardsInForce(rows, c) == CardsInForce(rows[1..], c);
      RunStampsCards(rows[1..], hint, ctx.(pending := false));
  }

  /** `RunStampsCards` for a rate row at the front. */
  lemma {:induction false} CardsAfterRate(rows: seq<Row>, hint: Date, ctx: Context)
    requires ValidContext(ctx) && rows != [] && |rows[0]| != 1 && IsRateRow(rows[0]) == Ok(true)
    requires Run(rows, hint, ctx).Ok?
    ensures CardsFollow(rows, ctx, Run(rows, hint, ctx).value.transactions)
    decreases |rows|, 0
  {
    var after := Run(rows, hint, ctx).value.transactions;
    var rate := ParseAmount(rows[0][3], "Bij", []).value;
    var next := ctx.(transactions := SetRate(ctx.transactions, rate), pending := false);
    RunStampsCards(rows[1..], hint, next);
    SetRateKeepsCards(ctx.transactions, rate);
    StampedKept(ctx.transactions, next.transactions, after, CardsInForce(rows[1..], Card(ctx.card, ctx.owner)));
  }

  /** `RunStampsCards` for a data row at the front. */
  lemma {:induction false} CardsAfterData(rows: seq<Row>, hint: Date, ctx: Context)
    requires ValidContext(ctx) && rows != [] && |rows[0]| != 1 && IsRateRow(rows[0]) != Ok(true)
    requires Run(rows, hint, ctx).Ok?
    ensures CardsFollow(rows, ctx, Run(rows, hint, ctx).value.transactions)
    decreases |rows|, 0
  {
    var after := Run(rows, hint, ctx).value.transactions;
    var t := ParseTransaction(rows[0], hint).value;
    var stamped := t.(cardLastNumbers := ctx.card, cardOwner := ctx.owner);
    RunStampsCards(rows[1..], hint, ctx.(transactions := ctx.transactions + [stamped], pending := true));
    var c := Card(ctx.card, ctx.owner);
    assert CardsInForce(rows, c) == [c] + CardsInForce(rows[1..], c);
    StampedData(ctx.transactions, stamped, after, CardsInForce(rows[1..], c));
  }

  /** From the start: transaction k carries the card in force at the k-th
      data row, which is that of the last banner before it, and no card
      before any banner. */
  lemma CardsFromBanners(rows: seq<Row>, hint: Date)
    requires TransactionsOf(rows, hint).Ok?
    ensures var ts := TransactionsOf(rows, hint).value;
      var cards := CardsInForce(rows, Card("", ""));
      |ts| == |cards| &&
      forall k :: 0 <= k < |ts| ==> ts[k].cardLastNumbers == cards[k].digits && ts[k].cardOwner == cards[k].owner
  {
    RunStampsCards(rows, hint, Initial);
    CardsFromStart(rows, Run(rows, hint, Initial).value.transactions);
  }

  lemma CardsFromStart(rows: seq<Row>, ts: seq<Transaction>)
    requires CardsFollow(rows, Initial, ts)
    ensures var cards := CardsInForce(rows, Card("", ""));
      |ts| == |cards| &&
      forall k :: 0 <= k < |ts| ==> ts[k].cardLastNumbers == cards[k].digits && ts[k].cardOwner == cards[k].owner
  {
    var cards := CardsInForce(rows, Card("", ""));
    forall k | 0 <= k < |ts|
      ensures CardOf(ts[k]) == cards[k]
    {
      assert ts[0 + k] == ts[k];
    }
  }

  /** Without a card banner, the card and owner in force before the rows stay
      in force: the transactions there were keep their cards, and every new
      one carries that card and owner. */
  lemma {:induction false} NoBannerKeepsCard(rows: seq<Row>, hint: Date, ctx: Context)
    requires ValidContext(ctx)
    requires Run(rows, hint, ctx).Ok?
    requires forall i :: 0 <= i < |rows| && |rows[i]| == 1 ==> CardBanner(rows[i][0]).None?
    ensures var c := Run(rows, hint, ctx).value;
      var n := |ctx.transactions|;
      c.card == ctx.card && c.owner == ctx.owner && n <= |c.transactions| &&
      (forall k :: 0 <= k < n ==>
        c.transactions[k].cardLastNumbers == ctx.transactions[k].cardLastNumbers &&
        c.transactions[k].cardOwner == ctx.transactions[k].cardOwner) &&
      forall k :: n <= k < |c.transactions| ==>
        c.transactions[k].cardLastNumbers == ctx.card && c.transactions[k].cardOwner == ctx.owner
  {
    NoBannerKeepsContext(rows, hint, ctx);
    RunStampsCards(rows, hint, ctx);
    NoBannerCards(rows, Card(ctx.card, ctx.owner));
    OneCardFollows(rows, ctx, Run(rows, hint, ctx).value.transactions);
  }

  /** When every data row has the card in force at the start, every new
      transaction carries that card. */
  lemma OneCardFollows(rows: seq<Row>, ctx: Context, after: seq<Transaction>)
    requires CardsFollow(rows, ctx, after)
    requires forall k :: 0 <= k < |CardsInForce(rows, Card(ctx.card, ctx.owner))| ==>
      CardsInForce(rows, Card(ctx.card, ctx.owner))[k] == Card(ctx.card, ctx.owner)
    ensures var n := |ctx.transactions|;
      n <= |after| &&
      (forall k :: 0 <= k < n ==>
        after[k].cardLastNumbers == ctx.transactions[k].cardLastNumbers &&
        after[k].cardOwner == ctx.transactions[k].cardOwner) &&
      forall k :: n <= k < |after| ==> after[k].cardLastNumbers == ctx.card && after[k].cardOwner == ctx.owner
  {
    var n := |ctx.transactions|;
    var cards := CardsInForce(rows, Card(ctx.card, ctx.owner));
    assert |after| == n + |cards|;
    forall k | n <= k < |after|
      ensures after[k].cardLastNumbers == ctx.card && after[k].cardOwner == ctx.owner
    {
      var j := k - n;
      assert 0 <= j < |cards|;
      assert CardOf(after[n + j]) == cards[j];
      assert cards[j] == Card(ctx.card, ctx.owner);
      assert n + j == k;
    }
    forall k | 0 <= k < n
      ensures after[k].cardLastNumbers == ctx.transactions[k].cardLastNumbers &&
        after[k].cardOwner == ctx.transactions[k].cardOwner
    {
      assert CardOf(after[k]) == CardOf(ctx.transactions[k]);
    }
  }

  /** Without a card banner, the loop ends with the card and owner it began with. */
  lemma {:induction false} NoBannerKeepsContext(rows: seq<Row>, hint: Date, ctx: Context)
    requires ValidContext(ctx)
    requires Run(rows, hint, ctx).Ok?
    requires forall i :: 0 <= i < |rows| && |rows[i]| == 1 ==> CardBanner(rows[i][0]).None?
    ensures Run(rows, hint, ctx).value.card == ctx.card && Run(rows, hint, ctx).value.owner == ctx.owner
    decreases |rows|
  {
    if rows != [] {
      assert forall i :: 0 <= i < |rows| - 1 ==> rows[1..][i] == rows[i + 1];
      if |rows[0]| == 1 {
        assert CardBanner(rows[0][0]).None?;
        NoBannerKeepsContext(rows[1..], hint, ctx.(pending := false));
      } else if IsRateRow(rows[0]) == Ok(true) {
        var rate := ParseAmount(rows[0][3], "Bij", []).value;
        NoBannerKeepsContext(rows[1..], hint, ctx.(transactions := SetRate(ctx.transactions, rate), pending := false));
      } else {
        var t := ParseTransaction(rows[0], hint).value;
        var stamped := t.(cardLastNumbers := ctx.card, cardOwner := ctx.owner);
        NoBannerKeepsContext(rows[1..], hint, ctx.(transactions := ctx.transactions + [stamped], pending := true));
      }
    }
  }

  /** A card banner with no banner after it decides the card of every
      transaction that follows: its digits, and as owner the stripped one-cell
      row right after it, no owner when another row follows it, or the owner
      before it when it is the last row. The transactions before it keep
      their cards. */
  lemma BannerSetsCard(rows: seq<Row>, hint: Date, ctx: Context)
    requires ValidContext(ctx) && Run(rows, hint, ctx).Ok?
    requires rows != [] && |rows[0]| == 1 && CardBanner(rows[0][0]).Some?
    requires forall i :: 2 <= i < |rows| && |rows[i]| == 1 ==> CardBanner(rows[i][0]).None?
    ensures var c := Run(rows, hint, ctx).value;
      var digits := CardBanner(rows[0][0]).value;
      var owner := if |rows| == 1 then ctx.owner else if |rows[1]| == 1 then Strip(rows[1][0]) else "";
      var n := |ctx.transactions|;
      c.card == digits && c.owner == owner && n <= |c.transactions| &&
      (forall k :: 0 <= k < n ==>
        c.transactions[k].cardLastNumbers == ctx.transactions[k].cardLastNumbers &&
        c.transactions[k].cardOwner == ctx.transactions[k].cardOwner) &&
      forall k :: n <= k < |c.transactions| ==>
        c.transactions[k].cardLastNumbers == digits && c.transactions[k].cardOwner == owner
  {
    var digits := CardBanner(rows[0][0]).value;
    if |rows| > 1 {
      var owner, rest := "", rows[1..];
      if |rows[1]| == 1 {
        owner, rest := Strip(rows[1][0]), rows[2..];
      }
      var next := ctx.(card := digits, owner := owner, pending := false);
      assert Run(rows, hint, ctx) == Run(rest, hint, next);
      LaterRowsHaveNoBanner(rows, rest);
      NoBannerKeepsCard(rest, hint, next);
    }
  }

  lemma LaterRowsHaveNoBanner(rows: seq<Row>, rest: seq<Row>)
    requires |rows| > 1 && (rest == rows[1..] || rest == rows[2..]) && (rest == rows[1..] ==> |rows[1]| != 1)
    requires forall i :: 2 <= i < |rows| && |rows[i]| == 1 ==> CardBanner(rows[i][0]).None?
    ensures forall i :: 0 <= i < |rest| && |rest[i]| == 1 ==> CardBanner(rest[i][0]).None?
  {
    var d := |rows| - |rest|;
    assert forall i :: 0 <= i < |rest| ==> rest[i] == rows[i + d];
  }

  /** The compared banner is the pattern in lower case. */
  lemma BannerLowerIsLower()
    ensures Lower(BannerPrefix) == BannerLower
  {
  }

  /** The banner in capitals, compared in lower case. */
  lemma ShoutedBannerLower()
    ensures Lower("UW CARD MET ALS LAATSTE VIER CIJFERS ") == BannerLower
  {
  }

  /** A banner followed by the digits 1234 and nothing else gives them. */
  lemma {:induction false} BannerDigits(text: string, prefix: string)
    requires |prefix| == |BannerLower| && Lower(prefix) == BannerLower
    requires text == prefix + "1234"
    ensures CardBanner(text) == Some("1234")
  {
    var p := |BannerLower|;
    assert text[..p] == prefix;
    assert text[p..] == "1234";
    assert DigitRun("1234") == 4;
    assert text[p..][..4] == "1234";
  }

  /** The banner of card 1234 gives its digits, in any case. */
  lemma BannerExample(text: string, shouted: string)
    requires text == "Uw Card met als laatste vier cijfers 1234"
    requires shouted == "UW CARD MET ALS LAATSTE VIER CIJFERS 1234"
    ensures CardBanner(text) == Some("1234")
    ensures CardBanner(shouted) == Some("1234")
  {
    BannerLowerIsLower();
    BannerDigits(text, BannerPrefix);
    ShoutedBannerLower();
    BannerDigits(shouted, "UW CARD MET ALS LAATSTE VIER CIJFERS ");
  }
}
