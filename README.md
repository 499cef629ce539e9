# Expense dashboard pipeline, modelled in Dafny

The dashboard reads chat messages tagged `#F` from a message store. Each one
has the shape `#F | description | amount | anything | payment method`. The
pipeline does the following:

- parses every message into a description, an amount and a payment method;
- drops the messages that do not parse;
- dates each row by the calendar day of its timestamp;
- lets the user pick a date range and a set of payment methods;
- charts the daily totals of the rows in view.

This project models that pipeline and proves what it guarantees. The modules
are:

- `Wrappers`: `Option` and `Result`.
- `Text`: the string operations the parser relies on.
  - `str.split` on one character, with its inverse `Join`.
  - `str.strip` over Python's whitespace set.
  - `str.replace` of one character.
  - Python's code-point order on strings.
- `Decimal`: `float(text)` on plain decimal literals. An optional sign,
  digits, and at most one point. The value is exact, as a `real`.
- `Parser`: `parse_message`. A rejected message carries the reason: too few
  fields, or an amount that is not a number.
- `Seqs`: order-preserving selection.
  - `Filter` models a pandas boolean mask.
  - `FilterMap` models mapping every row and then `dropna`.
  - Both are characterised by the ascending list of positions they keep.
- `Ledger`: `load_data`.
  - A `Record` is a message with its timestamp, in whole seconds.
  - An `Entry` is one row of the cleaned table.
  - `BuildLedger` specifies the table.
  - The method `LoadData` builds it record by record. It fails on an empty
    input, because the table then has no timestamp column.
- `Views`: the sidebar defaults, the offered payment methods and the row
  filter.
- `Daily`: `groupby("data")["valor"].sum()`.
- `Examples`: two concrete messages, one accepted and one rejected.

Dates are whole days counted from the epoch. `DateOf` is the floor of the
timestamp divided by 86400.

## Model

| member | source | states |
|---|---|---|
| Text.Split | streamlit_app.py:53 | splitting at `\|` gives one more piece than there are `\|` characters, and no piece contains a `\|` |
| Text.JoinSplit | streamlit_app.py:53 | joining the split pieces with the separator gives back the message |
| Text.SplitJoin | streamlit_app.py:53 | splitting a join of separator-free pieces gives back exactly those pieces |
| Text.Trim | streamlit_app.py:53 | `strip`; its contract: the result is no longer than the text and, unless empty, neither begins nor ends with whitespace; TrimBorders fixes it as the middle between whitespace borders |
| Text.TrimBorders | streamlit_app.py:53 | `strip` returns the contiguous middle of the text, and only whitespace lies before and after it |
| Text.TrimPadded | streamlit_app.py:53 | stripping whitespace padding off a text with non-space ends gives that text |
| Text.TrimIdempotent | streamlit_app.py:53 | stripping twice is stripping once |
| Text.Replace | streamlit_app.py:56 | `replace` keeps the length and changes exactly the occurrences of the replaced character |
| Text.ReplaceIdempotent | streamlit_app.py:56 | replacing `,` by `.` a second time changes nothing |
| Text.ReplaceCounts | streamlit_app.py:56 | after replacing `,` by `.`, no `,` remains, and the `.` count is the old `,` count plus the old `.` count |
| Text.ReplaceTrim | streamlit_app.py:53-56 | replacing non-space characters commutes with stripping |
| Text.LessIrreflexive | streamlit_app.py:84 | no string sorts before itself |
| Text.LessTransitive | streamlit_app.py:84 | string order is transitive |
| Text.LessTotal | streamlit_app.py:84 | any two different strings are ordered one way or the other |
| Decimal.ParseDecimal | streamlit_app.py:59-61 | `float` on the amount text; its contract is ParseDecimalAccepts (which texts are numbers) and PointLiteralValue, IntegerLiteralValue and SignedValue (which number each denotes) |
| Decimal.ParseDecimalAccepts | streamlit_app.py:59-61 | the amount parser accepts a text exactly when it is an optional sign, then digits and points, with at most one point and at least one digit |
| Decimal.PointLiteralValue | streamlit_app.py:59 | `whole.frac` denotes the digits of `whole` followed by `frac`, divided by ten once per fractional digit |
| Decimal.IntegerLiteralValue | streamlit_app.py:59 | a run of digits denotes the integer it spells |
| Decimal.SignedValue | streamlit_app.py:59 | a leading `-` negates the value, and a leading `+` keeps it |
| Decimal.SeveralPointsRejected | streamlit_app.py:59-61 | a text with two or more points is never an amount |
| Decimal.ExampleAmount | streamlit_app.py:59 | `"45.90"` denotes 45.9 |
| Parser.Segments | streamlit_app.py:53 | a message has one stripped segment more than it has `\|` characters |
| Parser.ParseMessage | streamlit_app.py:52-62 | `parse_message`; its contract: a message is rejected for too few fields exactly when it has fewer than four `\|`; what an accepted message yields is stated by FieldsByPosition |
| Parser.ReadFields | streamlit_app.py:55-61 | reading the three field texts; its contract is FieldsByPosition: the amount text with `,` as `.` must be a number, otherwise the message is rejected as an invalid amount |
| Parser.FieldsByPosition | streamlit_app.py:53-61 | for a message made of pieces 0..n (n at least 4), the result is: description = stripped piece 1; amount read from stripped piece 2 with `,` as `.`; method = stripped piece 4; an unreadable amount is rejected |
| Parser.UnusedPiecesIgnored | streamlit_app.py:53-57 | messages that agree on pieces 1, 2 and 4 parse alike, whatever pieces 0, 3 and beyond hold |
| Parser.CommaIsPoint | streamlit_app.py:56 | writing the amount with decimal commas or with decimal points gives the same result |
| Parser.TwoSeparatorsRejected | streamlit_app.py:56-61 | an amount holding two or more separators, commas and points counted together, is rejected as an invalid amount |
| Examples.ExampleGroceries | streamlit_app.py:52-61 | `#F \| Groceries \| 45,90 \| x \| credito` gives description `Groceries`, amount 45.9 and method `credito` |
| Examples.ExampleMixedSeparators | streamlit_app.py:56-61 | `#F\|Lunch\|1,2.3\|x\|debito` is rejected as an invalid amount |
| Seqs.Filter | streamlit_app.py:88-91 | a boolean mask; its contract: never longer than the table; FilterPicksKeptIndices fixes it as the satisfying rows in order |
| Seqs.FilterPicksKeptIndices | streamlit_app.py:88-91 | a mask keeps exactly the rows that satisfy it, each once, in their original order |
| Seqs.FilterMembership | streamlit_app.py:88-91 | a row is in the masked table exactly when it is in the table and satisfies the mask |
| Seqs.FilterKeepsAll | streamlit_app.py:88-91 | a mask every row satisfies returns the table unchanged |
| Seqs.FilterDropsAll | streamlit_app.py:88-91 | a mask no row satisfies returns the empty table |
| Seqs.FilterMap | streamlit_app.py:64-65 | mapping every row and dropping the empty results; its contract: never longer than the input; FilterMapPicksKeptIndices fixes it as the produced values in order |
| Seqs.FilterMapAppend | streamlit_app.py:64-65 | parsing and dropping is done row by row: the result for a concatenation is the concatenation of the results |
| Seqs.FilterMapSkip | streamlit_app.py:65 | removing a row that maps to nothing leaves the result unchanged |
| Seqs.FilterMapPicksKeptIndices | streamlit_app.py:64-65 | the result is exactly the values of the rows that map to one, in row order |
| Ledger.DateOf | streamlit_app.py:48-49 | the date is the day whose 86400-second span holds the timestamp |
| Ledger.RowOf | streamlit_app.py:49-65 | the row one record becomes, or none; its contract is RecordRow |
| Ledger.RecordRow | streamlit_app.py:49-65 | for a message written as pieces 0..n (n at least 4), the record yields a row exactly when stripped piece 2 with `,` as `.` is a number; the row has the record's date, stripped piece 1, that number and stripped piece 4 |
| Ledger.BuildLedger | streamlit_app.py:47-65 | the cleaned table; its contract is LedgerRowsFromAcceptedRecords, RejectedRecordAddsNoRow and TooFewFieldsAddsNoRow |
| Ledger.LedgerRowsFromAcceptedRecords | streamlit_app.py:47-65 | the table is exactly the rows of the accepted records, one per record, in record order; a record contributes exactly when the parser accepts it |
| Ledger.RejectedRecordAddsNoRow | streamlit_app.py:60-65 | deleting a rejected record, wherever it stands, leaves the table unchanged |
| Ledger.TooFewFieldsAddsNoRow | streamlit_app.py:53-65 | a message with fewer than four `\|` is rejected and contributes no row |
| Ledger.LoadData | streamlit_app.py:47-65 | building the table record by record yields `BuildLedger` of the records; an empty input fails for lack of a timestamp column |
| Views.InView | streamlit_app.py:89-90 | the row condition `between(first, last) & isin(selected)`: date in `[first, last]`, both ends included, and method selected |
| Views.Keep | streamlit_app.py:89-90 | the row mask as a function; its contract is FilterRowsExact |
| Views.FilterRows | streamlit_app.py:88-91 | `df[mask]`; its contract is FilterRowsExact and FilterRowsMembership |
| Views.FilterRowsExact | streamlit_app.py:88-91 | the filtered table is exactly the ledger rows dated in `[first, last]` (both ends included) whose method is selected, in ledger order |
| Views.FilterRowsMembership | streamlit_app.py:88-91 | a row is shown exactly when it is a ledger row whose date is in range and whose method is selected |
| Views.EmptySelectionShowsNothing | streamlit_app.py:88-91 | with no method selected, nothing is shown |
| Views.EmptyRangeShowsNothing | streamlit_app.py:88-91 | when the start date lies after the end date, nothing is shown |
| Views.Insert | streamlit_app.py:84 | inserting a method adds exactly that method to the list |
| Views.InsertSorted | streamlit_app.py:84 | inserting into a strictly ascending list keeps it strictly ascending |
| Views.PaymentMethods | streamlit_app.py:84 | the offered methods are strictly ascending and are exactly the methods some ledger row uses |
| Views.PaymentMethodsDistinct | streamlit_app.py:84 | no method is offered twice |
| Views.MinDate | streamlit_app.py:79 | the default start is a ledger date, and no ledger date is earlier |
| Views.MaxDate | streamlit_app.py:80 | the default end is a ledger date, and no ledger date is later |
| Views.DefaultViewKeepsLedger | streamlit_app.py:79-91 | the opening view (full date range, every method selected) shows the whole ledger |
| Daily.AddDay | streamlit_app.py:94 | adding one row to the bars; its contract is AddDayDates, AddDayAscending, AddDaySum and AddDayTotals |
| Daily.GroupByDate | streamlit_app.py:94 | `groupby("data")["valor"].sum()`; its contract: the bars' dates are strictly ascending; GroupByDateFacts and OneBarPerDate give the rest |
| Daily.AddDayDates | streamlit_app.py:94 | adding a row adds its date to the set of dates with a bar, and no other date |
| Daily.AddDayAscending | streamlit_app.py:94 | adding a row keeps the bars in strictly ascending date order |
| Daily.AddDaySum | streamlit_app.py:94 | adding a row raises the sum of all bars by its amount |
| Daily.AddDayTotals | streamlit_app.py:94 | adding a row raises its own date's total by its amount and leaves every other total alone |
| Daily.GroupByDateFacts | streamlit_app.py:94 | the bars' dates are strictly ascending; there is a bar for exactly the dates the rows carry, so no day without rows; each date's total is the sum of that date's amounts; all bars together sum to the sum of all amounts |
| Daily.AscendingCount | streamlit_app.py:94 | strictly ascending bars carry as many distinct dates as there are bars |
| Daily.TotalOnAt | streamlit_app.py:94 | with strictly ascending bars, looking up a bar's date returns that bar's total |
| Daily.OneBarPerDate | streamlit_app.py:94 | there are as many bars as distinct dates, and each bar's total is the sum of the amounts of the rows carrying its date |
| Daily.DefaultChartCoversLedger | streamlit_app.py:79-94 | in the opening view, the daily bars add up to the total of the whole ledger |

## Left out

- The Streamlit page, sidebar widgets, warnings, the detail table and the
  Altair chart (streamlit_app.py:6-8, 71-112) are presentation only.
  - Their inputs appear as parameters: the date range `first`/`last`, and
    the selected methods.
  - A `date_input` that returns a single date, while the user is still
    picking a range, is not modelled.
  - `st.stop` on an empty table is not modelled. It is reflected only in
    `MinDate`, `MaxDate`, `DefaultViewKeepsLedger` and
    `DefaultChartCoversLedger`, which require a non-empty ledger.
- The message store and its query (streamlit_app.py:11-19, 31-36) are I/O.
  - The records are the input of `LoadData`.
  - The server-side `^#F` filter is not modelled: the parser ignores
    segment 0 anyway.
- Caching (`st.cache_resource`, `st.cache_data`) is framework runtime state.
- Decimal.ParseDecimal: models `float` only on plain decimal literals, with
  an exact value.
  - Python also accepts exponents, underscores between digits, `inf`,
    `infinity` and `nan` in any case, and non-ASCII digits. Python rounds
    to binary floating point.
  - A `"nan"` amount parses in Python and its row is then dropped by
    `dropna`, which matches the model's rejection.
  - An `inf` or exponent amount yields a row in Python but is rejected here.
- Daily.GroupByDateFacts: totals are exact sums of reals. The source sums
  binary floating-point values, whose rounding depends on the order of
  addition.
- `pd.to_datetime` parsing and time zones are not modelled.
  - A timestamp is a whole number of seconds since the epoch, read as naive
    time.
  - A record with a missing timestamp is not modelled.
- Ledger.LoadData:
  - models `dropna` on `valor` and `forma_pagamento` as dropping the
    rejected messages. For an accepted message both fields are present.
  - The table's other columns (`message`, `message_timestamp`) are not
    carried in `Entry`.
- streamlit_app.py computes no label normalisation (accent stripping or case
  folding), no cumulative totals, no per-method or per-keyword totals and no
  goal comparison, so none of these is modelled.
