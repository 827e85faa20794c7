# ICS card statements: from positioned text to transactions

This project models the core of `icscards-pdf-to-csv.py` in Dafny and proves
properties of that model. The script reads the PDF statements of the ICS
credit-card company and rebuilds their transaction table. A PDF library
hands over text tokens (words or single characters) with a position and a
font; the script does the rest:

- It groups tokens into lines by their vertical position (`group_by_lines`).
- It pairs each label line of the information box with the value line
  below it (`header_words_to_dict`). It then reads the statement date,
  customer number, serial number and the four balance amounts from those
  labels.
- It finds the nine column boundaries from the five column titles of the
  table header (`get_boundaries_from_first_line`).
- It cuts each body line into nine cells (`group_by_columns`). A bold line
  (`is_sentence_line`) stays one cell of free text.
- It reads each nine-cell row as a `Transaction` (`parse_transaction`),
  using `parse_date` and `parse_amount`.
- It walks all rows in order, keeping track of the current card and its
  owner (the free-text banner "Uw Card met als laatste vier cijfers NNNN",
  then an owner line). It also keeps the open transaction, which the next
  "Wisselkoers" row completes with its exchange rate.

Modules, one per file:

| file | module | what it holds |
|---|---|---|
| base.dfy | `Base` | `Option`, `Result` and the Python exception kinds the core can raise |
| text.dfy | `Text` | `str.split`, `str.strip`, `str.lower`, `int()` on digit strings, string order |
| sorting.dfy | `Sorting` | `list.sort(reverse=True)` under a total preorder |
| amounts.dfy | `Amounts` | `parse_amount` and the printed form of an amount |
| dates.dfy | `Dates` | a proleptic Gregorian calendar with day ordinals, and `parse_date` |
| lines.dfy | `Lines` | tokens and `group_by_lines` |
| header.dfy | `Header` | `header_words_to_dict` |
| fields.dfy | `HeaderFields` | the header-field block of `parse_ics_pdf` |
| boundaries.dfy | `Boundaries` | `get_boundaries_from_first_line` |
| columns.dfy | `Columns` | `is_sentence_line`, `group_by_columns` and the rows of one page |
| transactions.dfy | `Transactions` | `Transaction` and `parse_transaction` |
| tracker.dfy | `Tracker` | the card/owner/exchange-rate loop over all rows |
| statement.dfy | `Statement` | `parse_ics_pdf` as a whole, and the balance checks of `sanity_checks` |

Each imperative function of the script is a method with the same loop:

- `GroupByLines`, `FillDict`/`FindKey` (the dictionary filled in place),
  `MergeHeadings`/`ExpandBoundaries`, `GroupByColumns` (an `array` of cells
  updated in place) and `ReadTransactions`.
- `ReadTransactions` keeps the card, the owner, the open transaction and
  the transaction list as loop variables.

Each of these methods is proved equal to a function on values, and the
script's promises are lemmas about those functions.

Amounts and positions are exact `real`s. Python uses floats for them; the
model uses the decimal value the text denotes.

The model follows the code in these places, where its behaviour may
surprise a reader:

- A label that appears twice in the information box gets both values
  appended; the later value does not replace the earlier one.
- After a card banner, any one-cell row is taken as the owner, even one that
  is itself a banner. A banner that is the last row keeps the previous owner.
- A rate row needs only cells 0 and 1 to be empty.
- The card number is every digit after the banner, not only four.
- Every layout failure is the one `ParseError` kind. An unknown month name
  in a table row escapes as a `KeyError`. An impossible date raises a
  `ValueError`, and a day or year too large for a C `int` an `OverflowError`.

## Model

| member | source | states |
|---|---|---|
| `Text.StripCharsIsTrimmed` | icscards-pdf-to-csv.py:219 | `strip(chars)` removes exactly the longest run of those characters at each end, and keeps the rest |
| `Text.WordsOfJoin` | icscards-pdf-to-csv.py:192 | splitting words joined by single spaces gives back the words |
| `Text.IntRoundTrip` | icscards-pdf-to-csv.py:196 | `int()` reads back the decimal numeral of every natural number |
| `Text.ParseInt` | icscards-pdf-to-csv.py:196 | `int()` reads an optional sign followed by ASCII decimal digits, once surrounding whitespace is stripped, and gives a negative number only after a minus sign; the model reads nothing else |
| `Text.SignedIntRoundTrip` | icscards-pdf-to-csv.py:196 | a minus sign before the numeral of n reads back as -n, and a plus sign as n |
| `Sorting.SortDescendingSorted` | icscards-pdf-to-csv.py:279 | sorting with `reverse=True` under a total preorder gives a descending order |
| `Sorting.SortDescending` | icscards-pdf-to-csv.py:351 | sorting is a permutation: the result has the multiset of its input |
| `Amounts.ParseAmount` | icscards-pdf-to-csv.py:214-229 | every failure of `parse_amount` is a ParseError |
| `Amounts.AmountIndicatorRule` | icscards-pdf-to-csv.py:214-229 | an amount parses exactly when no extra word is given, the text (euro sign and spaces stripped, '.' dropped, ',' as decimal point) is a decimal number, and the stripped indicator is "Af" or "Bij"; "Bij" keeps the number; "Af" makes it non-positive with the same size |
| `Amounts.ParseAmountWords` | icscards-pdf-to-csv.py:415-423 | `parse_amount(*words)`: no word is a TypeError, more than two words a ParseError, one word is read with the default indicator "Bij" |
| `Amounts.AmountRoundTrip` | icscards-pdf-to-csv.py:214-229 | any whole number of cents, printed as "€ 1.234,56" with "Af" or "Bij", reads back as that number of cents over 100 |
| `Amounts.AmountSignExamples` | icscards-pdf-to-csv.py:215-216 | "€ 1.234,56" with "Af" is -1234.56, with "Bij" is 1234.56, and an unknown indicator is a ParseError |
| `Dates.OrdinalOrder` | icscards-pdf-to-csv.py:209 | the day ordinal orders dates as Python compares them (year, month, day), and is one-to-one |
| `Dates.MonthNumber` | icscards-pdf-to-csv.py:184-191 | a known three-letter month prefix gives a month 1 to 12; an unknown one is a KeyError, which the `except IndexError` does not catch |
| `Dates.MakeDate` | icscards-pdf-to-csv.py:211 | `date(year, month, day)` succeeds exactly for a valid calendar date; otherwise it is an OverflowError when an argument does not fit a C `int`, and a ValueError when all do |
| `Dates.CompleteDate` | icscards-pdf-to-csv.py:205-211 | a day and month without a year keep that day and month, fall in the hint's year or the year before, never more than 40 days after the hint, and in the year before only when in the hint's year they would be more than 40 days after it; failures are a ValueError or OverflowError from `date()` |
| `Dates.ParseDate` | icscards-pdf-to-csv.py:180-211 | not 2 or 3 words, a non-integer day, a non-integer year, or a 2-word date without hint is a ParseError; an unknown month is a KeyError; any other failure is a ValueError or OverflowError from `date()`; without a hint only 3-word dates succeed |
| `Dates.FullDateIgnoresHint` | icscards-pdf-to-csv.py:200-204 | a 3-word date ignores the hint and gives the day, month and year written |
| `Dates.PartialDateRollover` | icscards-pdf-to-csv.py:205-211 | a 2-word date gets the hint's year, or the year before exactly when the date in the hint's year lies more than 40 days after the hint; the result is never more than 40 days after the hint |
| `Dates.DateRoundTrip` | icscards-pdf-to-csv.py:180-211 | a date printed as "28 dec 2024" reads back as the same date, with or without a hint |
| `Dates.DayMonthRoundTrip` | icscards-pdf-to-csv.py:205-211 | a day and month printed as "28 dec" read back through the rollover rule |
| `Dates.RolloverExample` | icscards-pdf-to-csv.py:205-211 | with hint 20 January 2025, "28 dec" is 28 December 2024 and "5 jan" is 5 January 2025 |
| `Dates.OversizedYear` | icscards-pdf-to-csv.py:200-211 | a date whose year does not fit a C `int` stops `date()` with an OverflowError, whatever the day and month |
| `Lines.GroupByLines` | icscards-pdf-to-csv.py:232-257 | the loop gives the line grouping of the tokens, or a ParseError when a token is not upright or not left-to-right |
| `Lines.LineGroupsIsGrouping` | icscards-pdf-to-csv.py:236-257 | the lines, put back together, are the input in order; no line is empty; each token of a line lies less than the tolerance below the line's first token; a new line starts exactly when a token lies at least the tolerance below the current line's first token |
| `Lines.LineGroupingUnique` | icscards-pdf-to-csv.py:246-256 | those conditions determine the lines: any grouping meeting them is the one computed |
| `Header.AtLeastIsTotalPreorder` | icscards-pdf-to-csv.py:279 | Python's comparison of (threshold, label) tuples is a total preorder, so the sort is well defined |
| `Header.KeyPositions` | icscards-pdf-to-csv.py:277-279 | the key positions are a permutation of the label words' (x0 - 2, lower-cased text) pairs |
| `Header.KeyPositionsSorted` | icscards-pdf-to-csv.py:279 | the key positions are in descending order |
| `Header.KeyPositionLabels` | icscards-pdf-to-csv.py:278-284 | the labels registered are exactly the lower-cased words of the label line |
| `Header.NearestLeftKey` | icscards-pdf-to-csv.py:286-294 | a value word goes to the label with the greatest threshold at or left of it, or, when every threshold lies to its right, to the label with the lowest threshold; either way a label of that line |
| `Header.FindKey` | icscards-pdf-to-csv.py:287-293 | the search loop returns the label of the first key position whose threshold is at or left of the word, else the last one |
| `Header.RegisterKeys` | icscards-pdf-to-csv.py:280-284 | every label of the line becomes a key; a key already present keeps its values, and a new key starts empty |
| `Header.AppendValues` | icscards-pdf-to-csv.py:285-294 | the value line appends each word's text, in order, to its label's list, and no key is added |
| `Header.FillDict` | icscards-pdf-to-csv.py:275-295 | the loop over pairs of lines builds the dictionary: the keys are all labels, and each key's values are its words, pair after pair |
| `Header.HeaderWordsToDict` | icscards-pdf-to-csv.py:260-295 | no words give an empty dictionary; a token that is not horizontal, or an odd number of lines, is a ParseError; otherwise the dictionary of the line pairs; this is the value of `Header.HeaderDictOf`, through which `Statement` reads the header |
| `HeaderFields.Field` | icscards-pdf-to-csv.py:406-423 | a lookup succeeds exactly when the label is present, and a missing label is a KeyError |
| `HeaderFields.ReadAmounts` | icscards-pdf-to-csv.py:414-423 | the four balances are read in order, each under its preferred label when present; the first failure is the result |
| `HeaderFields.ReadHeaderFields` | icscards-pdf-to-csv.py:405-426 | the block fails only with ParseError, ValueError, OverflowError, IndexError or TypeError: a KeyError becomes a ParseError |
| `HeaderFields.ReadHeaderFieldsOk` | icscards-pdf-to-csv.py:405-423 | a successful read had every required label, a three-word date, the customer number as its words joined and stripped, a one-word integer serial number, the two totals as written, and the previous and new balances under their preferred labels when present and under the other labels otherwise |
| `HeaderFields.MissingLabelIsParseError` | icscards-pdf-to-csv.py:424-426 | a missing required label fails the block with a ParseError, unless an earlier field already failed in another way |
| `HeaderFields.PreviousBalanceSynonyms` | icscards-pdf-to-csv.py:414-417 | "vorig tegoed" and "vorig openstaand saldo" give the same statement |
| `HeaderFields.NewBalanceSynonyms` | icscards-pdf-to-csv.py:420-423 | "nieuw tegoed" and "nieuw openstaand saldo" give the same statement |
| `HeaderFields.TegoedPreferred` | icscards-pdf-to-csv.py:414-423 | when both wordings are present, the "tegoed" one is read and the other is ignored |
| `HeaderFields.SerialNumberRules` | icscards-pdf-to-csv.py:408-413 | the serial number is read exactly when it is one integer word; more than one word is a ParseError |
| `Boundaries.Positions` | icscards-pdf-to-csv.py:313-318 | the dictionary's keys: each x0 of a word, once, in order of first appearance |
| `Boundaries.Headings` | icscards-pdf-to-csv.py:311-318 | each heading is an x0 with the texts of the words at that x0 joined by spaces |
| `Boundaries.MergeHeadings` | icscards-pdf-to-csv.py:313-318 | the loop that fills the dictionary gives those headings |
| `Boundaries.ExpandBoundaries` | icscards-pdf-to-csv.py:325-328 | the nested loops give each heading's offsets added to its x0, heading after heading |
| `Boundaries.GetBoundaries` | icscards-pdf-to-csv.py:298-334 | titles other than the five expected ones, in order, are a ParseError; otherwise the expanded boundaries; the warning fires exactly when they differ from the reference list, and the computed list is still returned |
| `Boundaries.ExpectedHeadings` | icscards-pdf-to-csv.py:320-323 | passing the title check means five headings with the expected titles |
| `Boundaries.NineBoundaries` | icscards-pdf-to-csv.py:303-328 | with the expected titles, the boundaries are the nine values x0-1, x0-2, x0-4, x0+122, x0+209, x0-3, x0+43, x0-3, x0+56 of the five headings |
| `Boundaries.ReferenceLayout` | icscards-pdf-to-csv.py:303-330 | headings at 61, 105, 154, 402 and 479 give exactly the reference boundaries |
| `Columns.EdgeAtLeastIsTotalPreorder` | icscards-pdf-to-csv.py:350-351 | the (left, index) tuples are compared by a total preorder |
| `Columns.ColumnIsColumnOf` | icscards-pdf-to-csv.py:350-357 | a character goes to the column with the greatest boundary at or left of its x0, the later column on a tie, or to column 0 when it lies left of every boundary |
| `Columns.ColumnOfUnique` | icscards-pdf-to-csv.py:352-357 | that column is unique |
| `Columns.OnBoundary` | icscards-pdf-to-csv.py:352-357 | with increasing boundaries, a character exactly on a boundary goes to that column, and one left of all goes to column 0 |
| `Columns.GetColumnIndex` | icscards-pdf-to-csv.py:352-357 | the search loop returns the index of the first sorted boundary at or left of x0, else 0 |
| `Columns.GroupByColumns` | icscards-pdf-to-csv.py:345-362 | one string per boundary; each is the texts, in input order, of the characters in that column |
| `Columns.NothingLost` | icscards-pdf-to-csv.py:358-362 | the cells together hold exactly as many characters as the line's texts |
| `Columns.RowShape` | icscards-pdf-to-csv.py:338-342 | a line becomes a one-cell row exactly when it is a sentence line (its first character in a "-bold" font); any other line has a cell per boundary |
| `Columns.SentenceLineByFont` | icscards-pdf-to-csv.py:336-340 | `is_sentence_line` judges a line by its first character: with a font named "name-xxxx", the line is a sentence line exactly when "xxxx" is "bold" in any case |
| `Columns.LinesToRows` | icscards-pdf-to-csv.py:446-454 | each line becomes its row, in order: the joined text of a sentence line, else its cells |
| `Columns.ReadPage` | icscards-pdf-to-csv.py:431-454 | a page reads exactly when its table header has the expected titles and its body is non-empty and horizontal (every failure a ParseError); the rows are the page's lines cut at the page's own boundaries |
| `Transactions.OptionalAmount` | icscards-pdf-to-csv.py:374 | an empty foreign-amount cell gives None, and only an empty one; any other cell is parsed with "Bij" |
| `Transactions.ParseTransaction` | icscards-pdf-to-csv.py:365-386 | a row fails only with IndexError, ParseError, KeyError, ValueError or OverflowError |
| `Transactions.ParseTransactionFields` | icscards-pdf-to-csv.py:365-386 | a row gives a transaction exactly when it has nine cells, both dates read, the amount reads, and a non-empty foreign amount reads; then the fields are cells 2-4 stripped, the amount, and a foreign amount and currency that are None exactly when cells 5 and 6 are empty; no rate, card or owner yet |
| `Transactions.ShortRow` | icscards-pdf-to-csv.py:368-373 | a row of fewer than nine cells never gives a transaction; once its dates read, it is an IndexError |
| `Transactions.ForeignRoundTrip` | icscards-pdf-to-csv.py:374 | an empty foreign cell reads as None, and a printed foreign amount as its value |
| `Transactions.TransactionRoundTrip` | icscards-pdf-to-csv.py:365-386 | a nine-cell row with day-month dates the rollover rule maps back, stripped texts, and amount cells that read as the amounts, reads back as the transaction made of those values |
| `Tracker.CardBanner` | icscards-pdf-to-csv.py:460-469 | a match means the text starts with the banner in any case, followed by a digit; the digits taken are all the digits there, and at least one |
| `Tracker.BannerExample` | icscards-pdf-to-csv.py:460 | the banner of card 1234 gives "1234", in mixed case and in capitals |
| `Tracker.IsRateRow` | icscards-pdf-to-csv.py:480 | a row is a rate row exactly when it has three cells or more, cells 0 and 1 are empty and cell 2 starts with "Wisselkoers"; the test fails with IndexError exactly when the row has fewer than three cells, all of them empty (a non-empty first or second cell ends the test first) |
| `Tracker.Run` | icscards-pdf-to-csv.py:465-490 | the loop keeps an open transaction only when there is one to complete, and fails only with the errors of its parts |
| `Tracker.ReadTransactions` | icscards-pdf-to-csv.py:458-490 | the loop with `pop(0)` and `insert(0, …)` gives the result of the row-by-row definition |
| `Tracker.RunReadsDataRows` | icscards-pdf-to-csv.py:480-490 | from any state, the loop keeps its transactions but for their rate, card and owner, and adds one transaction per data row, in order, each the parse of its row |
| `Tracker.OneTransactionPerDataRow` | icscards-pdf-to-csv.py:486-490 | from the start, the transactions are the parses of the data rows (neither one-cell nor rate rows), one each, in order |
| `Tracker.RateRowsFollowDataRows` | icscards-pdf-to-csv.py:480-485 | from any state, a rate row at the front needs an open transaction, and a later one must come right after a data row |
| `Tracker.RateRowsNeedATransaction` | icscards-pdf-to-csv.py:480-485 | from the start, a rate row is never first and always comes right after a data row; a statement with any other rate row fails |
| `Tracker.RunSetsRates` | icscards-pdf-to-csv.py:480-490 | from any state, the open transaction takes the rate of a rate row at the front, and each new transaction gets the rate of the row after its own, or none |
| `Tracker.RatesFromFollowingRows` | icscards-pdf-to-csv.py:480-490 | from the start, there is one transaction per data row, and the k-th one's exchange rate is `parse_amount` of cell 3 of the rate row right after the k-th data row, or None when no rate row follows that row |
| `Tracker.NoBannerKeepsCard` | icscards-pdf-to-csv.py:465-490 | from any state, rows without a card banner end with the card digits and owner they began with; the transactions there were keep their cards, and every new one carries the digits and owner in force before the rows |
| `Tracker.BannerSetsCard` | icscards-pdf-to-csv.py:467-490 | from any state, a card banner with no banner after it leaves its digits in force, with as owner the stripped one-cell row right after it, no owner when another row follows it, or the previous owner when it is the last row; every transaction after it carries those, and those before it keep theirs |
| `Tracker.NoBannerCards` | icscards-pdf-to-csv.py:465-490 | with no card banner among the rows, every data row has the card in force before them |
| `Tracker.RunStampsCards` | icscards-pdf-to-csv.py:465-490 | from any state, the transactions there were keep their card digits and owner, and each new one carries the card in force at its own row: that of the last banner before it, with the one-cell row right after that banner as owner |
| `Tracker.CardsFromBanners` | icscards-pdf-to-csv.py:461-490 | from the start, there is one transaction per data row, and the k-th one carries the digits and stripped owner of the last card banner before the k-th data row, empty digits and owner before any banner, and an empty owner after a banner followed by a row of several cells |
| `Statement.PageRows` | icscards-pdf-to-csv.py:431-454 | a page gives rows exactly when it is readable, and otherwise a ParseError |
| `Statement.ReadAllPages` | icscards-pdf-to-csv.py:428-454 | the loop over pages appends the rows of each page, in page order; the first unreadable page is the result |
| `Statement.RowsInPageOrder` | icscards-pdf-to-csv.py:428-454 | the rows of two runs of pages are those of the first followed by those of the second |
| `Statement.AllPagesReadable` | icscards-pdf-to-csv.py:429-443 | the document reads exactly when every page has the expected titles and a non-empty horizontal body |
| `Statement.ParseStatement` | icscards-pdf-to-csv.py:400-500 | a document without pages is an IndexError; otherwise the information box, the header fields, the rows of all pages and the transactions, in that order, each failure ending the reading |
| `Statement.StatementShape` | icscards-pdf-to-csv.py:400-500 | a statement read from pages had every page readable, took its fields from the first page's information box, and holds one transaction per data row, in order, each read with the statement date as year hint |
| `Statement.SumsSplit` | icscards-pdf-to-csv.py:527-533 | the expenses sum and the payments sum add up to the total of the amounts; the first is never positive and the second never negative |
| `Statement.ConsistentStatementPasses` | icscards-pdf-to-csv.py:526-546 | a statement whose totals match its transactions and whose new balance is the previous balance plus the transactions raises no warning |
| `Statement.SanityWarnings` | icscards-pdf-to-csv.py:526-546 | `sanity_checks` warns only when the computed value exceeds the declared one by more than 0.001: only a declared expenses total below -0.001 can warn, a payments warning with a total that is not negative needs a positive amount, and a declared new balance at or above previous balance plus payments plus expenses never warns |
| `Statement.SpendingNeedsANegativeAmount` | icscards-pdf-to-csv.py:527 | a negative expenses sum needs a negative amount |
| `Statement.PaymentsNeedAPositiveAmount` | icscards-pdf-to-csv.py:532 | a positive payments sum needs a positive amount |

## Left out

- The PDF library (`pdfplumber.open`, `within_bbox`, `extract_words`, `.chars`; icscards-pdf-to-csv.py:400-403, 429-440) is not part of this model. Its output for each page enters as a `Page` of three token lists. The bounding boxes and the first-page/later-page choice of body box belong to it.
- Logging is left out. The boundary warning is the `moved` result of `GetBoundaries`. The duplicate-label and unknown-line messages have no effect on the result. The balance checks are a `Warnings` value.
- Serialisation, printing, the command line and file handling (`as_dict`, `save_as_*`, `print*`, `destination_path`, `process_file`, `process_folder`, `main`, `usage`, `test`) are left out: they are I/O.
- The filename date check of `sanity_checks` (icscards-pdf-to-csv.py:522-525) is left out: it reads the file name with a regular expression and only logs.
- `Amounts.ParseAmount` does not model `float()` beyond decimal digit strings with an optional sign and one point. Exponents, "nan", "inf", underscores and binary rounding are out, and amounts are exact decimals.
- `Statement.SanityWarnings` sums exact amounts. Python's float sums can differ from them in the last bits, which the 0.001 allowance covers.
- `Text.Strip` and `Text.Words` treat ASCII whitespace only: space, tab, line feed, vertical tab, form feed, carriage return and the separators U+001C to U+001F. Python's `split()` and `strip()` also drop U+0085, U+00A0 and the other Unicode spaces, which the model keeps as ordinary characters. `Text.Lower` and `Tracker.CardBanner` fold ASCII letters only; Python's `lower()` and `re.IGNORECASE` also fold other Unicode letters, and `\d` also matches other Unicode digits.
- `Text.ParseInt` does not model the limit on the length of a numeral that `int()` enforces from Python 3.11 on: a numeral of more than 4300 digits is a ValueError there, and the limit can be changed through the interpreter's configuration. `parse_date` would report such a word as a ParseError, where the model reads it and `date()` then fails with an OverflowError. The model reads numerals of any length. It also does not read the other forms `int()` accepts: underscores between digits (`int('1_0') == 10`) and non-ASCII decimal digits. Such a word is not an integer in the model. This affects both callers: `Dates.ParseDate` reports it as a ParseError where Python reads the number, and so does `HeaderFields.SerialNumber` for the serial-number word.
- `Text.IntRoundTrip` holds only for numerals of at most 4300 digits in Python 3.11 and later, for the same reason.
- `HeaderFields.SerialNumberRules` states that any one-word integer is read as the serial number. In Python 3.11 and later a word of more than 4300 digits raises a ValueError instead, which `parse_ics_pdf` turns into a ParseError (icscards-pdf-to-csv.py:411-413). In the other direction, a word with underscores between digits, such as "1_0", or with non-ASCII digits is a serial number to Python and a ParseError in the model, as the `Text.ParseInt` line says.
- `Dates.ParseDate` leaves out `int()`'s acceptance of surrounding whitespace, underscores and non-ASCII digits inside a word. Such words are not integers in the model.
- `Sorting.SortDescending` is an insertion sort, not Python's Timsort. Both sort by a total preorder, and the keys compared here never tie except when equal, so their results agree.
- `Columns.GroupByColumns` requires at least one boundary. Python would index an empty list, but the script only calls it with the nine boundaries `GetBoundaries` returns.
- `Boundaries.RelativeBoundaries` gives no offsets for a title outside the five expected ones. Python would raise a KeyError there, but only after the title check has passed, so it is never looked up.
- `Columns.IsSentenceLine` does not take the `boundaries` parameter, which `is_sentence_line` ignores.
- `Transaction` is a value. The in-place assignment of the exchange rate to the open transaction, which is the last element of the list, is the update of that last element.
- `Transactions.TransactionRoundTrip` takes as given that the row's amount cells read back as its amounts, instead of building those cells from an amount in cents. `Amounts.AmountRoundTrip` and `Transactions.ForeignRoundTrip` prove this for the cells the statement prints. The two are separate lemmas because the combined statement is too costly for the verifier.
