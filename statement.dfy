/** `parse_ics_pdf` (icscards-pdf-to-csv.py:388-510) with the PDF layer
    lifted out: each page arrives as the words of its information box, the
    words of its table header and the characters of its table body. Also the
    three balance checks of `sanity_checks` (icscards-pdf-to-csv.py:520-546). */
module Statement {
  import opened Base
  import opened Text
  import opened Lines
  import opened Header
  import opened HeaderFields
  import opened Boundaries
  import opened Columns
  import opened Transactions
  import opened Tracker

  /** What pdfplumber extracts from one page inside the three boxes. */
  datatype Page = Page(infoWords: seq<Token>, headerWords: seq<Token>, bodyChars: seq<Token>)

  /** `BankStatement`: the header fields and the transactions. */
  datatype BankStatement = BankStatement(info: HeaderInfo, transactions: seq<Transaction>)

  // ---------------------------------------------------------------------
  // The parts, as values.

  /** What `ReadPage` computes: the rows of one page. */
  predicate PageReadable(page: Page) {
    Titles(Headings(page.headerWords)) == ExpectedTitles && AllHorizontal(page.bodyChars) && page.bodyChars != []
  }

  function PageRows(page: Page): (r: Result<seq<Row>>)
    ensures r.Ok? <==> PageReadable(page)
    ensures r.Err? ==> r.error == ParseError
  {
    if !PageReadable(page) then Err(ParseError)
    else
      var bs, lines := Expand(Headings(page.headerWords)), LineGroups(page.bodyChars, LineTolerance);
      Ok(seq(|lines|, i requires 0 <= i < |lines| => RowOf(lines[i], bs)))
  }

  /** The rows of all pages, page after page; the first unreadable page stops
      the reading. */
  function Concatenated(parts: seq<Result<seq<Row>>>): (r: Result<seq<Row>>)
    ensures r.Err? ==> exists k :: 0 <= k < |parts| && parts[k] == Err(r.error)
  {
    if parts == [] then Ok([])
    else
      var front :- Concatenated(parts[..|parts| - 1]);
      var last :- parts[|parts| - 1];
      Ok(front + last)
  }

  function PageResults(pages: seq<Page>): (r: seq<Result<seq<Row>>>)
    ensures |r| == |pages|
  {
    seq(|pages|, k requires 0 <= k < |pages| => PageRows(pages[k]))
  }

  function AllRows(pages: seq<Page>): Result<seq<Row>> {
    Concatenated(PageResults(pages))
  }

  /** The whole of `parse_ics_pdf`, in Python's order: the information box
      of the first page, the header fields, the rows of every page, and
      the transactions read from those rows. */
  function StatementOf(pages: seq<Page>): Result<BankStatement> {
    if pages == [] then Err(IndexError)
    else
      var props :- HeaderDictOf(pages[0].infoWords);
      var info :- ReadHeaderFields(props);
      var rows :- AllRows(pages);
      var ts :- TransactionsOf(rows, info.date);
      Ok(BankStatement(info, ts))
  }

  // ---------------------------------------------------------------------
  // The function as Python writes it.

  /** `parse_ics_pdf`: `pdf.pages[0]` on a document without pages is an
      IndexError; the pages' rows are collected with `lines.append`. */
  method ParseStatement(pages: seq<Page>) returns (r: Result<BankStatement>)
    ensures r == StatementOf(pages)
  {
    if pages == [] {
      return Err(IndexError);
    }
    var props := HeaderWordsToDict(pages[0].infoWords);
    if props.Err? {
      return Err(props.error);
    }
    var info := ReadHeaderFields(props.value);
    if info.Err? {
      return Err(info.error);
    }
    var rows := ReadAllPages(pages);
    if rows.Err? {
      return Err(rows.error);
    }
    var ts := ReadTransactions(rows.value, info.value.date);
    if ts.Err? {
      return Err(ts.error);
    }
    return Ok(BankStatement(info.value, ts.value));
  }

  /** `for page in pdf.pages: ... lines.append(...)`: the rows of every page,
      in order. */
  method ReadAllPages(pages: seq<Page>) returns (r: Result<seq<Row>>)
    ensures r == AllRows(pages)
  {
    var rows: seq<Row> := [];
    ghost var parts := PageResults(pages);
    for i := 0 to |pages|
      invariant Concatenated(parts[..i]) == Ok(rows)
    {
      assert parts[..i + 1][..i] == parts[..i];
      var pageRows := ReadPage(pages[i].headerWords, pages[i].bodyChars);
      SameRows(pages[i], pageRows);
      if pageRows.Err? {
        ConcatenatedStopsAtError(parts, i + 1);
        return Err(pageRows.error);
      }
      rows := rows + pageRows.value;
    }
    assert parts[..|pages|] == parts;
    return Ok(rows);
  }

  /** What `ReadPage` promises is exactly `PageRows`. */
  lemma SameRows(page: Page, r: Result<seq<Row>>)
    requires r.Err? ==> r.error == ParseError
    requires r.Ok? <==> PageReadable(page)
    requires r.Ok? ==>
      var bs, lines := Expand(Headings(page.headerWords)), LineGroups(page.bodyChars, LineTolerance);
      |r.value| == |lines| && forall i :: 0 <= i < |lines| ==> r.value[i] == RowOf(lines[i], bs)
    ensures r == PageRows(page)
  {
    if r.Ok? {
      var bs, lines := Expand(Headings(page.headerWords)), LineGroups(page.bodyChars, LineTolerance);
      var expected := seq(|lines|, i requires 0 <= i < |lines| => RowOf(lines[i], bs));
      assert PageRows(page) == Ok(expected);
      assert r.value == expected;
    }
  }

  /** Once a page cannot be read, neither can the document. */
  lemma {:induction false} ConcatenatedStopsAtError(parts: seq<Result<seq<Row>>>, n: nat)
    requires n <= |parts|
    requires Concatenated(parts[..n]).Err?
    ensures Concatenated(parts) == Concatenated(parts[..n])
    decreases |parts| - n
  {
    if n < |parts| {
      assert parts[..n + 1][..n] == parts[..n];
      ConcatenatedStopsAtError(parts, n + 1);
    } else {
      assert parts[..n] == parts;
    }
  }

  // ---------------------------------------------------------------------
  // What the statement promises.

  /** The rows of two runs of pages are the rows of the first, then those of
      the second. */
  lemma {:induction false} RowsInPageOrder(a: seq<Result<seq<Row>>>, b: seq<Result<seq<Row>>>)
    requires Concatenated(a).Ok? && Concatenated(b).Ok?
    ensures Concatenated(a + b) == Ok(Concatenated(a).value + Concatenated(b).value)
    decreases |b|
  {
    if b == [] {
      assert a + b == a;
      assert Concatenated(a).value + [] == Concatenated(a).value;
    } else {
      var front := b[..|b| - 1];
      assert (a + b)[..|a + b| - 1] == a + front;
      assert (a + b)[|a + b| - 1] == b[|b| - 1];
      RowsInPageOrder(a, front);
      var x, y, z := Concatenated(a).value, Concatenated(front).value, b[|b| - 1].value;
      assert (x + y) + z == x + (y + z);
    }
  }

  /** The document reads exactly when every page reads. */
  lemma {:induction false} AllPartsRead(parts: seq<Result<seq<Row>>>)
    ensures Concatenated(parts).Ok? <==> forall k :: 0 <= k < |parts| ==> parts[k].Ok?
  {
    if parts != [] {
      var front := parts[..|parts| - 1];
      AllPartsRead(front);
      assert forall k :: 0 <= k < |front| ==> front[k] == parts[k];
    }
  }

  /** Every page must be readable: its table header the five expected
      titles, its body non-empty and horizontal. */
  lemma AllPagesReadable(pages: seq<Page>)
    ensures AllRows(pages).Ok? <==> forall k :: 0 <= k < |pages| ==> PageReadable(pages[k])
  {
    AllPartsRead(PageResults(pages));
    assert forall k :: 0 <= k < |pages| ==> (PageResults(pages)[k].Ok? <==> PageReadable(pages[k]));
  }

  /** A statement read from pages holds, in order, one transaction per data
      row of its pages, each parsed with the statement date as the year
      hint; every page was readable; and the header fields come from the
      information box of the first page. */
  lemma StatementShape(pages: seq<Page>)
    requires StatementOf(pages).Ok?
    ensures var s := StatementOf(pages).value;
      pages != [] &&
      (forall k :: 0 <= k < |pages| ==> PageReadable(pages[k])) &&
      HeaderDictOf(pages[0].infoWords).Ok? &&
      ReadHeaderFields(HeaderDictOf(pages[0].infoWords).value) == Ok(s.info) &&
      ParsedFrom(DataRows(AllRows(pages).value), s.transactions, s.info.date)
  {
    AllPagesReadable(pages);
    var info := ReadHeaderFields(HeaderDictOf(pages[0].infoWords).value).value;
    OneTransactionPerDataRow(AllRows(pages).value, info.date);
  }

  // ---------------------------------------------------------------------
  // sanity_checks: three warnings, each raised only when the computed value
  // exceeds the declared one by more than the rounding allowance.

  const MaxRoundingError: real := 0.001

  function Amounts(ts: seq<Transaction>): seq<real> {
    seq(|ts|, k requires 0 <= k < |ts| => ts[k].amount)
  }

  /** `sum(ta.amount for ta in statement.transactions if ta.amount < 0)` */
  function SumNegative(xs: seq<real>): real {
    if xs == [] then 0.0 else (if xs[0] < 0.0 then xs[0] else 0.0) + SumNegative(xs[1..])
  }

  /** `sum(ta.amount for ta in statement.transactions if ta.amount > 0)` */
  function SumPositive(xs: seq<real>): real {
    if xs == [] then 0.0 else (if xs[0] > 0.0 then xs[0] else 0.0) + SumPositive(xs[1..])
  }

  function Sum(xs: seq<real>): real {
    if xs == [] then 0.0 else xs[0] + Sum(xs[1..])
  }

  datatype Warnings = Warnings(expenses: bool, payments: bool, balance: bool)

  /** The three checks, over exact amounts. Each is one-sided: it warns when
      the computed value exceeds the declared one, never when it falls short.
      So only a declared expenses total below -0.001 can warn, a payments
      warning with a declared total that is not negative needs a positive
      amount, and a declared new balance at or above the expected one never
      warns. */
  function SanityWarnings(s: BankStatement): (r: Warnings)
    ensures r.expenses ==> s.info.totalNewExpenses < -MaxRoundingError
    ensures r.payments && s.info.totalReceivedPayment >= 0.0 ==>
      exists k :: 0 <= k < |s.transactions| && s.transactions[k].amount > 0.0
    ensures s.info.newBalance >= s.info.previousBalance + s.info.totalReceivedPayment + s.info.totalNewExpenses ==>
      !r.balance
  {
    var xs := Amounts(s.transactions);
    var h := s.info;
    SumsSplit(xs);
    PaymentsNeedAPositiveAmount(xs);
    Warnings(
      SumNegative(xs) - h.totalNewExpenses > MaxRoundingError,
      SumPositive(xs) - h.totalReceivedPayment > MaxRoundingError,
      (h.previousBalance + h.totalReceivedPayment + h.totalNewExpenses) - h.newBalance > MaxRoundingError)
  }

  /** The spending and the payments split the transactions' total, and have
      their signs. */
  lemma {:induction false} SumsSplit(xs: seq<real>)
    ensures SumNegative(xs) + SumPositive(xs) == Sum(xs)
    ensures SumNegative(xs) <= 0.0 <= SumPositive(xs)
  {
    if xs != [] {
      SumsSplit(xs[1..]);
    }
  }

  /** A statement whose declared totals match its transactions, and whose
      balances add up, raises no warning. */
  lemma ConsistentStatementPasses(s: BankStatement)
    requires SumNegative(Amounts(s.transactions)) == s.info.totalNewExpenses
    requires SumPositive(Amounts(s.transactions)) == s.info.totalReceivedPayment
    requires s.info.previousBalance + Sum(Amounts(s.transactions)) == s.info.newBalance
    ensures SanityWarnings(s) == Warnings(false, false, false)
  {
    SumsSplit(Amounts(s.transactions));
  }

  /** Only spending counts towards the expenses check. */
  lemma {:induction false} SpendingNeedsANegativeAmount(xs: seq<real>)
    ensures SumNegative(xs) < 0.0 ==> exists k :: 0 <= k < |xs| && xs[k] < 0.0
  {
    if xs != [] {
      SpendingNeedsANegativeAmount(xs[1..]);
      if SumNegative(xs) < 0.0 && xs[0] >= 0.0 {
        var k :| 0 <= k < |xs[1..]| && xs[1..][k] < 0.0;
        assert xs[k + 1] < 0.0;
      }
    }
  }

  /** Only payments count towards the payments check. */
  lemma {:induction false} PaymentsNeedAPositiveAmount(xs: seq<real>)
    ensures SumPositive(xs) > 0.0 ==> exists k :: 0 <= k < |xs| && xs[k] > 0.0
  {
    if xs != [] {
      PaymentsNeedAPositiveAmount(xs[1..]);
      if SumPositive(xs) > 0.0 && xs[0] <= 0.0 {
        var k :| 0 <= k < |xs[1..]| && xs[1..][k] > 0.0;
        assert xs[k + 1] > 0.0;
      }
    }
  }
}
