# MoMo SMS transactions: parser, query API and dashboard pipeline

This project models the data path of a mobile-money (MTN MoMo, Rwanda) analytics system and proves
properties of that model.

- **Parser** (`backend/parse_sms_transactions.py`). It reads an SMS backup XML document. For every
  `<sms>` element it:
  - converts the millisecond `date` attribute to a local date-time;
  - sorts the body into one of ten category tags by case-insensitive keyword rules;
  - scans the body with regular expressions for the amount (`digits/commas` before `RWF`), the fee
    (`Fee was N` or `Fee : N`) and a category-specific detail (code-holder recipient and code,
    bank-transfer recipient and account, incoming-money sender).
- **Query API** (`backend/api.py`). `GET /transactions` builds a parameterised SQL query from the
  optional `type`, `min_amount`, `max_amount` and `date` arguments. `GET /transactions/<id>` answers
  404 when no row has that id.
- **Dashboard** (`frontend/script.js`). It normalises the records the API returns into display
  transactions, with defaults for missing fields, `parseInt(..) || 0` amounts and a locale date
  string. From them it computes:
  - the summary metrics: count, volume, the most frequent category and its rounded percentage;
  - the per-category counts and the twelve monthly volume buckets;
  - the daily, weekly and monthly date ranges and the filter that applies them;
  - the table page with its "Show More" button;
  - the CSV export.

The modules, one file each:

| module | file | what it holds |
|---|---|---|
| `Wrappers` | wrappers.dfy | `Option` and `Result` |
| `Text` | text.dfy | ASCII lower-casing, substring occurrence, decimal rendering of integers |
| `JsValues` | js_values.dfy | JavaScript field values, truthiness, `\|\|`, and `parseInt` with radix detection |
| `Calendar` | calendar.dfy | proleptic Gregorian day numbers computed as ECMAScript's MakeDay, month overflow included |
| `Categories` | categories.dfy | the ten category tags shared by the parser and the dashboard |
| `SmsCategorize` | sms_categorize.dfy | `categorize_transaction` |
| `SmsExtract` | sms_extract.dfy | the amount, fee, code, transfer and sender regular expressions, as leftmost-first searches |
| `PyValues` | py_values.dfy | Python's `str.strip` and `int()` on decimal text |
| `SmsParse` | sms_parse.dfy | `parse_sms`: the loop, the skipped undatable messages, the abort on a bad amount |
| `ApiQuery` | api_query.dfy | query building, the rows it selects, and the single-transaction lookup |
| `DashboardRecords` | dashboard_records.dfy | the record transform and the load outcome |
| `DashboardMetrics` | dashboard_metrics.dfy | volume, category counts, top category, percentage |
| `DashboardSeries` | dashboard_series.dfy | monthly volume buckets |
| `DashboardPeriod` | dashboard_period.dfy | `getDateRange` and the period filter |
| `DashboardTable` | dashboard_table.dfy | table paging and the `ShowMoreButton` class |
| `DashboardExport` | dashboard_export.dfy | CSV text, plus a standard CSV reader used to state the round trip |
| `DashboardView` | dashboard_view.dfy | `updateCharts`: filter, then metrics, series and table |

Where the source holds a loop that updates variables, the model is a method with a loop proved
against a specification function:
- the `parse_sms` loop is `SmsParse.ParseSms`;
- the category counts are `DashboardMetrics.TypeCounts`;
- the monthly buckets are `DashboardSeries.MonthlyVolume`;
- the CSV accumulation is `DashboardExport.ExportCsv`.

Building the SQL query has no loop: four `if` statements in turn extend the query text and the
parameter list. It is the method `ApiQuery.BuildQuery`, which performs those same steps and is
proved against the functions `ApiQuery.Query` and `ApiQuery.Params`.

The "Show More" closure keeps a counter and a button state that each click updates, so it is a
class with those fields. Everything else in the source is expression code and is modelled as
functions and lemmas.

Where the system's specification and its code disagree, the model follows the code:
- The specification states that the monthly buckets sum to at most the total volume. Amounts are
  `parseInt` results and may be negative (`"-250"` stays `-250`), so that bound does not hold in
  general. What holds is `DashboardSeries.SeriesTotal`: the buckets sum to the volume of the
  transactions whose date parsed. That equals the total volume when every date parsed
  (`DashboardSeries.DatedVolumeIsTotal`).
- The specification describes the daily range as "start of today to now". The code compares calendar days
  (`toISOString().split('T')[0]`), so the daily range is exactly today's date.
- The specification describes the monthly range as "one calendar month back". The code uses `setMonth`
  overflow, so on 31 March the start is 2 March (`DashboardPeriod.MonthlyRangeOverflows`).

## Model

| member | source | states |
|---|---|---|
| Text.Lower | backend/parse_sms_transactions.py:16 | the lowered body has the same length and no upper-case ASCII letter; every other character is unchanged and each upper-case letter becomes its lower-case partner |
| Text.LowerIdempotent | backend/parse_sms_transactions.py:16 | lower-casing an already lowered body changes nothing |
| Text.IntToString | backend/parse_sms_transactions.py:57 | the rendering starts with `-` iff the integer is negative, and the rest is a non-empty run of decimal digits with no leading zero |
| Categories.TagsDistinct | frontend/script.js:3-14 | there are ten distinct tags and the last is "Other" |
| SmsCategorize.CategorizeLower | backend/parse_sms_transactions.py:19-43 | the exclusion check, then the rules in source order over the lowered body; `Categorize`, `OtherExactly`, `ExclusionWins` and `TokenGuardRedundant` prove it lands in the ten tags, is "Other" exactly when excluded or unmatched, and equals the chain without the `token` guard |
| SmsCategorize.Categorize | backend/parse_sms_transactions.py:14-43 | every body is given one of the ten dashboard tags |
| SmsCategorize.CaseInsensitive | backend/parse_sms_transactions.py:16 | the category depends only on the lower-cased body |
| SmsCategorize.ExclusionWins | backend/parse_sms_transactions.py:19-21 | a body containing any exclusion keyword is "Other", whatever else it contains |
| SmsCategorize.ReceivedBeatsDeposit | backend/parse_sms_transactions.py:23-26 | "you have received" takes precedence over "bank deposit" |
| SmsCategorize.OtherExactly | backend/parse_sms_transactions.py:19-43 | the category is "Other" iff an exclusion keyword occurs or no rule fires |
| SmsCategorize.TokenGuardRedundant | backend/parse_sms_transactions.py:31-34 | the `token` rule's guard against bundle/airtime words never changes the outcome, because earlier rules have already claimed those bodies |
| SmsCategorize.TokenIsCashPower | backend/parse_sms_transactions.py:33-34 | a body that reaches the cash-power rule and contains "token" is a cash-power payment |
| SmsExtract.Run | backend/parse_sms_transactions.py:69 | a greedy character-class run stays inside the string |
| SmsExtract.RunChars | backend/parse_sms_transactions.py:69 | every character of a run belongs to the class |
| SmsExtract.RunStops | backend/parse_sms_transactions.py:69 | a run stops at the first character outside the class |
| SmsExtract.RunExact | backend/parse_sms_transactions.py:69 | a run is determined by where the class ends |
| SmsExtract.FirstWhere | backend/parse_sms_transactions.py:69 | a leftmost search returns a position in range where the pattern matches |
| SmsExtract.FirstWhereAt | backend/parse_sms_transactions.py:69 | the leftmost search returns the first matching position |
| SmsExtract.FirstWhereFinds | backend/parse_sms_transactions.py:69 | a search succeeds whenever some position in range matches, at or before that position |
| SmsExtract.FirstWhereNone | backend/parse_sms_transactions.py:69 | a search fails when no position matches |
| SmsExtract.FirstWhereBefore | backend/parse_sms_transactions.py:69 | no position before the returned one matches |
| SmsExtract.FirstWhereMisses | backend/parse_sms_transactions.py:69 | a failed search means no position in range matches |
| SmsExtract.AmountMatchIsGreedy | backend/parse_sms_transactions.py:69 | a match of `([0-9,]+)\s*RWF` at a position uses the maximal digit/comma run and the maximal space run |
| SmsExtract.AmountAtMatches | backend/parse_sms_transactions.py:69 | the greedy check at a position succeeds iff some split of the text there matches the pattern |
| SmsExtract.RemoveCommas | backend/parse_sms_transactions.py:71 | removing commas leaves no comma and leaves a digit-only group unchanged |
| SmsExtract.ExtractAmount | backend/parse_sms_transactions.py:69-74 | the amount of the leftmost `([0-9,]+)\s*RWF` match, commas removed; `NoAmountIsZero`, `AmountRoundTrip`, `AmountFoundAt` and `CommasOnlyAmount` prove it is 0 without a match, the written number after a match-free prefix, and a failure for a commas-only group |
| SmsExtract.NoAmountIsZero | backend/parse_sms_transactions.py:69-74 | a body with no amount match gives amount 0 |
| SmsExtract.AmountDigits | backend/parse_sms_transactions.py:71 | the comma-stripped group consists of digits |
| SmsExtract.AmountRoundTrip | backend/parse_sms_transactions.py:69-71 | a number written before `RWF`, after text that holds no amount match and does not end in a digit or comma, is the amount extracted |
| SmsExtract.AmountFoundAt | backend/parse_sms_transactions.py:69-71 | an amount written at a position before which no amount match starts is the value extracted |
| SmsExtract.CommasOnlyAmount | backend/parse_sms_transactions.py:69-71 | a body whose first match is only a comma ("Paid , RWF") makes the amount conversion fail |
| SmsExtract.ExtractAmountDigitFirst | backend/parse_sms_transactions.py:69-74 | the corrected amount scanner yields a natural number; wherever the source's conversion succeeds the two agree, and with no digit-led match it gives 0 |
| SmsExtract.DigitFirstAgrees | backend/parse_sms_transactions.py:69-74 | when the leftmost match starts with a digit, the corrected scanner agrees with the source's |
| SmsExtract.DigitFirstCommasOnly | backend/parse_sms_transactions.py:69-74 | the corrected scanner gives 0 on "Paid , RWF" instead of failing |
| SmsExtract.ExtractFee | backend/parse_sms_transactions.py:77-81 | the digits after the leftmost `Fee was ` or `Fee : `; `NoFeeIsZero`, `FeeRoundTrip`, `FeeFoundAt` and `FeeTagAt` prove it is 0 without a tag and the written fee after either tag |
| SmsExtract.NoFeeIsZero | backend/parse_sms_transactions.py:77-81 | a body with no `Fee was`/`Fee :` match gives fee 0 |
| SmsExtract.FeeRoundTrip | backend/parse_sms_transactions.py:77-79 | a fee written after either tag, following text that holds no fee match, is the fee extracted |
| SmsExtract.FeeFoundAt | backend/parse_sms_transactions.py:77-79 | the digits after a fee tag before which no fee tag occurs give the fee |
| SmsExtract.FeeTagAt | backend/parse_sms_transactions.py:77 | both alternatives of `(was\|:)` are recognised and the digits start right after the tag |
| SmsExtract.FirstGroupFinds | backend/parse_sms_transactions.py:85 | a lazy `.+?`/`.*?` group finds an end when one exists within the line |
| SmsExtract.LazyMiddleFinds | backend/parse_sms_transactions.py:85 | the lazy middle of the code-holder pattern is found whenever the rest of the pattern can follow |
| SmsExtract.CodePayment | backend/parse_sms_transactions.py:84-87 | the groups of the leftmost `payment of .*? RWF to (.+?) (\d+)` match; `CodePaymentFound` proves it exists iff the body has that shape and that the groups have it |
| SmsExtract.CodePaymentFound | backend/parse_sms_transactions.py:84-87 | the code-holder search succeeds iff the body has the shape `payment of … RWF to X N`, and its groups have that shape |
| SmsExtract.Transfer | backend/parse_sms_transactions.py:88-91 | the groups of the leftmost `transferred to (.+?) \((\d+)\)` match; `TransferFound` proves it exists iff the body has that shape and that the groups have it |
| SmsExtract.TransferFound | backend/parse_sms_transactions.py:88-91 | the transfer search succeeds iff the body has the shape `transferred to X (N)`, and its groups have that shape |
| SmsExtract.Sender | backend/parse_sms_transactions.py:92-95 | the group of the leftmost `from\s+(.+?)\s+\(\*+\d+\)` match; `SenderFound` proves it exists iff the body has that shape and that the group is such a sender |
| SmsExtract.SenderFound | backend/parse_sms_transactions.py:92-95 | the sender search succeeds iff the body has the shape `from X (*…N)`, and the group is such an X |
| PyValues.TrimEnd | backend/api.py:20-21 | stripping trailing whitespace keeps a prefix that ends in a non-space |
| PyValues.RemoveUnderscores | backend/api.py:20-21 | a digit-only literal is unchanged by removing underscores |
| PyValues.TrimEndOfSpaces | backend/api.py:20-21 | trailing whitespace is removed exactly |
| PyValues.StripOfPadded | backend/api.py:20-21 | `strip` returns the text between leading and trailing whitespace |
| PyValues.LiteralOfNatToString | backend/parse_sms_transactions.py:57 | `int()` reads back a written natural number |
| PyValues.LiteralOfNegative | backend/parse_sms_transactions.py:57 | `int()` reads back a negative number |
| PyValues.LiteralOfIntToString | backend/parse_sms_transactions.py:57 | `int()` reads back any written integer |
| PyValues.PyInt | backend/api.py:20-21 | Python's `int()` on text; `PyIntOfIntToString`, `LiteralOfIntToString` and `PyIntOfBlank` prove it reads back any written integer, padded or not, and refuses blank text |
| PyValues.PyIntOfIntToString | backend/api.py:20-21 | an integer argument padded with whitespace converts to that integer |
| PyValues.IntToStringEnds | backend/parse_sms_transactions.py:57 | a written integer begins and ends with a non-space |
| PyValues.PyIntOfBlank | backend/api.py:20-21 | blank text does not convert to an integer |
| SmsParse.ParseSmsSpec | backend/parse_sms_transactions.py:45-99 | `parse_sms` as a function: no records for malformed XML, else the records of the datable messages; `ParseSms`, `RecordsAll`, `ParseSmsFails` and `ParseSmsLength` prove the loop computes it, that it fails iff some record fails, and one record per datable message otherwise |
| SmsParse.ParseSms | backend/parse_sms_transactions.py:45-99 | the loop returns exactly the specification's result: no records for malformed XML; otherwise the records of the datable messages in order, or the first amount failure |
| SmsParse.Record | backend/parse_sms_transactions.py:61-97 | one message's record; `RecordFields` proves it fails exactly with the amount's error and otherwise carries the category, date-time, body, amount and fee |
| SmsParse.RecordFields | backend/parse_sms_transactions.py:55-81 | a record fails iff its amount conversion fails, with the same error; otherwise it carries the category, date-time, raw text, amount and fee read from the body |
| SmsParse.DetailsOf | backend/parse_sms_transactions.py:83-95 | the category-specific keys; `DetailsExclusive`, `DetailsCode`, `DetailsTransfer` and `DetailsSender` prove each key belongs to one category and is set iff the body has that category's shape |
| SmsParse.DetailsExclusive | backend/parse_sms_transactions.py:84-95 | a code is only set for code-holder payments, an account only for bank transfers, a sender only for incoming money |
| SmsParse.DetailsCode | backend/parse_sms_transactions.py:84-87 | for code-holder payments the recipient and code are set iff the body has the code-holder shape |
| SmsParse.DetailsTransfer | backend/parse_sms_transactions.py:88-91 | for bank transfers the recipient and account are set iff the body has the transfer shape |
| SmsParse.DetailsSender | backend/parse_sms_transactions.py:92-95 | for incoming money the sender is set iff the body has the sender shape |
| SmsParse.MissingDateIsEpoch | backend/parse_sms_transactions.py:57 | a message without a date attribute is dated at timestamp 0 |
| SmsParse.WrittenDate | backend/parse_sms_transactions.py:57 | a written millisecond timestamp is converted at that instant |
| SmsParse.DatedBound | backend/parse_sms_transactions.py:54-60 | no more messages are kept than were read |
| SmsParse.DatedSkips | backend/parse_sms_transactions.py:56-60 | a message whose date cannot be converted is skipped and nothing else changes |
| SmsParse.DatedKeeps | backend/parse_sms_transactions.py:54-60 | a datable message is kept in place with its body and date-time |
| SmsParse.DatedAll | backend/parse_sms_transactions.py:54-60 | when every message is datable, every message is kept, in order |
| SmsParse.RecordsAll | backend/parse_sms_transactions.py:54-97 | the loop succeeds iff every record succeeds, and then yields every record in order |
| SmsParse.RecordsFirstFailure | backend/parse_sms_transactions.py:54-97 | a failed run reports the error of the first record that fails |
| SmsParse.ParseSmsCategorised | backend/parse_sms_transactions.py:61 | every parsed record carries a dashboard tag equal to its body's category |
| SmsParse.ParseSmsLength | backend/parse_sms_transactions.py:54-97 | a successful parse yields one record per datable message |
| SmsParse.ParseSmsFails | backend/parse_sms_transactions.py:54-97 | the parse fails iff some datable message's amount conversion fails |
| SmsParse.CommasOnlyAborts | backend/parse_sms_transactions.py:69-71 | one datable "Paid , RWF" message anywhere makes the whole parse fail |
| ApiQuery.FiltersOf | backend/api.py:19-22 | the four filters read from the query arguments; `WrittenBoundKept` and `BlankBoundIgnored` prove a written integer bound is read as that integer and a blank one as absent |
| ApiQuery.Clauses | backend/api.py:27-38 | the condition and parameter of each filter that applies, in source order; `SelectsWanted`, `EmptyTextIgnored` and `BoundsKept` prove the conditions hold of a row iff it matches every given filter, that empty text adds none and that a zero bound does |
| ApiQuery.ParamsOf | backend/api.py:25-38 | the parameter list pairs one-to-one with the chosen clauses |
| ApiQuery.Query | backend/api.py:25-37 | the SQL text executed; `BuildQuery`, `PlaceholdersMatchParams` and `NoFilters` prove the step-by-step building yields it, that it has one `?` per parameter, and that without filters it is the base query |
| ApiQuery.Params | backend/api.py:26-38 | the parameters bound; `BuildQuery` and `ParamsOf` prove the step-by-step building yields them, one per chosen condition and in the same order |
| ApiQuery.BuildQuery | backend/api.py:25-38 | the query and parameters built step by step are the base query plus the chosen clauses, with their parameters in the same order |
| ApiQuery.PlaceholdersMatchParams | backend/api.py:25-38 | the query has exactly as many `?` placeholders as there are parameters |
| ApiQuery.ClausePlaceholders | backend/api.py:25-38 | the base query has no placeholder and each clause has one |
| ApiQuery.NoFilters | backend/api.py:25-38 | without filters the query is the base query with no parameters |
| ApiQuery.EmptyTextIgnored | backend/api.py:27-38 | an empty `type` or `date` argument adds no clause |
| ApiQuery.BoundsKept | backend/api.py:30-35 | a given amount bound always adds its clause, zero included |
| ApiQuery.WrittenBoundKept | backend/api.py:20-21 | an amount argument written as an integer is read as that integer |
| ApiQuery.BlankBoundIgnored | backend/api.py:20-21 | a blank amount argument is treated as absent |
| ApiQuery.SelectsWanted | backend/api.py:25-38 | a row satisfies the built WHERE clause iff it matches every given filter |
| ApiQuery.Select | backend/api.py:25-42 | the rows returned are exactly the stored rows matching the filters, each as often as it is stored |
| ApiQuery.FirstWithId | backend/api.py:51 | the lookup returns a stored row with that id, and none only when no row has it |
| ApiQuery.GetTransaction | backend/api.py:51-55 | a row is found iff one has the id; otherwise the answer is 404 "Transaction not found" |
| JsValues.ParseInt | frontend/script.js:77-78 | `parseInt` without a radix; `DecimalPrefix`, `SignedDecimal`, `HexPrefix`, `NoLeadingDigit` and `ParseIntOfIntToString` prove it reads the leading signed digits, switches to hexadecimal after `0x`, gives NaN without a digit and reads back any written integer |
| JsValues.ToText | frontend/script.js:534 | `String(v)` as the template literal inserts it; the number case is `Text.IntToString`, whose contract gives the sign and digits, and `ParseIntOfIntToString` proves `parseInt` reads that text back |
| JsValues.TrimStart | frontend/script.js:77 | `parseInt` skips the leading ASCII whitespace and stops at the first other character |
| JsValues.DigitRun | frontend/script.js:77 | `parseInt` reads the longest run of radix digits |
| JsValues.ParseIntOfIntToString | frontend/script.js:77-78 | `parseInt` reads back a written integer, and an integer amount passes through |
| JsValues.DecimalPrefix | frontend/script.js:77 | `parseInt` reads the leading signed decimal digits and ignores what follows |
| JsValues.SignedDecimal | frontend/script.js:77 | a sign followed by decimal digits gives the signed value |
| JsValues.HexPrefix | frontend/script.js:77 | a `0x` prefix switches `parseInt` to hexadecimal |
| JsValues.NoLeadingDigit | frontend/script.js:77 | text without a leading digit gives NaN |
| JsValues.SignedNonDigit | frontend/script.js:77 | a sign not followed by a digit gives NaN |
| JsValues.UnsignedStart | frontend/script.js:77 | text with no leading space or sign is read unsigned |
| Calendar.MakeDay | frontend/script.js:459-462 | ECMAScript's day number of a year, month and day, with month and day overflow; `YearLength`, `MonthLength`, `MonthBack` and `DayNumberOrder` prove year and month lengths, the month step back, and that day order is date order |
| Calendar.YearLength | frontend/script.js:459-462 | a leap year has 366 days and any other year 365 |
| Calendar.MonthLength | frontend/script.js:462 | consecutive month starts are one month's length apart |
| Calendar.MonthBack | frontend/script.js:462 | stepping the month back keeps the day of month and moves back by the previous month's length |
| Calendar.MonthBackFromJanuary | frontend/script.js:462 | from January the step goes back 31 days into December |
| Calendar.DayNumberOrder | frontend/script.js:480 | comparing day numbers is comparing calendar dates, in both directions |
| DashboardRecords.Normalize | frontend/script.js:56-87 | one record's display transaction; `NormalizeDefaults`, `NormalizeDate` and the scenario lemmas prove the defaults apply exactly to falsy fields and how the date and amount are shown |
| DashboardRecords.NormalizeDefaults | frontend/script.js:54-92 | a normalised transaction always has an id, a category, a sender and a recipient; the defaults "Other" and "N/A" apply exactly when the field is falsy |
| DashboardRecords.NormalizeDate | frontend/script.js:61-73 | an unparsable date keeps the raw text (or "") for display; a parsed one shows its locale date |
| DashboardRecords.NoLeadingDigitText | frontend/script.js:77 | an amount with no leading digit or sign is not a number |
| DashboardRecords.NegativeAmountSurvives | frontend/script.js:77 | "-250" stays -250 |
| DashboardRecords.PlainAmount | frontend/script.js:77 | "1500" is 1500 |
| DashboardRecords.ThousandsSeparatorStops | frontend/script.js:77 | "1,500" is read as 1 |
| DashboardRecords.CurrencyPrefixHides | frontend/script.js:77 | "RWF 1500" is read as 0 |
| DashboardRecords.BankDepositScenario | frontend/script.js:54-92 | a bank-deposit record with amount "1500" normalises to the expected display transaction |
| DashboardRecords.EmptyRecordScenario | frontend/script.js:54-92 | an empty record normalises to the generated id, "Other", 0, 0, "N/A", "N/A" |
| DashboardRecords.Transform | frontend/script.js:54-91 | the map callback on one element, `null` for a null element; `NormalizeAllLength` proves that only null elements are dropped |
| DashboardRecords.NormalizeAll | frontend/script.js:54-92 | `data.map(...).filter(...)`; `NormalizeAllLength`, `NormalizeAllPositions` and `MapCompactAppend` prove one transaction per object element, in order, and distribution over concatenation |
| DashboardRecords.MapCompactAppend | frontend/script.js:54-92 | transforming and dropping failures distributes over concatenation |
| DashboardRecords.NormalizeAllLength | frontend/script.js:54-92 | one transaction survives per object element, and only null elements are dropped |
| DashboardRecords.NormalizeAllPositions | frontend/script.js:54-92 | each object element's transaction appears in order, at the position given by the objects before it |
| DashboardRecords.Load | frontend/script.js:48-100 | a non-array payload and an all-null array both stop the load; otherwise the dashboard receives one normalised transaction per object element, in order, and at least one |
| DashboardMetrics.TotalVolume | frontend/script.js:126 | the sum of the amounts; `TotalVolumeAppend` and `TotalVolumeBounds` prove it adds over concatenation and bounds every amount when amounts are non-negative |
| DashboardMetrics.TotalVolumeAppend | frontend/script.js:126 | the volume of a concatenation is the sum of the volumes |
| DashboardMetrics.TotalVolumeBounds | frontend/script.js:126 | with non-negative amounts the volume is non-negative and at least every single amount |
| DashboardMetrics.TagCounts | frontend/script.js:129-132 | the count of each tag, in tag order; `TypeCounts` and `TagCountsSum` prove the loop computes it and that the counts sum to at most the number of transactions |
| DashboardMetrics.TypeCounts | frontend/script.js:129-132 | the counting loop yields, for every tag in order, the number of transactions of that type |
| DashboardMetrics.TagCountsSum | frontend/script.js:151-154 | the per-tag counts sum to at most the number of transactions, with equality iff every transaction has a known tag |
| DashboardMetrics.CountInBound | frontend/script.js:151-154 | counts over any set of tags are bounded by the number of transactions, with equality iff all are tagged from it |
| DashboardMetrics.TwoCountsBound | frontend/script.js:129-132 | two different tags never count more transactions together than exist |
| DashboardMetrics.TopIndex | frontend/script.js:133 | the reduce picks a maximal count, and ties go to the later tag |
| DashboardMetrics.TopCategory | frontend/script.js:133 | the tag the reduce picks; `TopCategoryMaximal`, `MajorityIsTop` and `NoTaggedGivesOther` prove it is a tag of maximal count with ties to the later tag, a majority tag wins, and "Other" when nothing is tagged |
| DashboardMetrics.TopCategoryMaximal | frontend/script.js:133 | the top category is a tag whose count no tag exceeds, and every later tag has a strictly smaller count |
| DashboardMetrics.NoTaggedGivesOther | frontend/script.js:133 | with no known tags (in particular with no transactions) the top category is "Other" |
| DashboardMetrics.MajorityIsTop | frontend/script.js:133 | a tag held by more than half the transactions is the top category |
| DashboardMetrics.RoundPercent | frontend/script.js:134 | the percentage is absent (NaN) for no transactions; otherwise it is the nearest integer to the exact ratio 100·count/n, halves rounded up, between 0 and 100 |
| DashboardMetrics.RoundingBounds | frontend/script.js:134 | the rounded percentage lies within one half of the exact ratio |
| DashboardMetrics.UpdateMetrics | frontend/script.js:124-134 | the summary holds the count, the volume, the top category and its rounded share |
| DashboardMetrics.SixOfTenScenario | frontend/script.js:124-134 | six "Incoming Money" out of ten makes it the top category at 60% |
| DashboardSeries.MonthIndex | frontend/script.js:203-204 | only transactions with a parsed date get a month, and it is between 0 and 11 |
| DashboardSeries.MonthlySeries | frontend/script.js:197-207 | the twelve monthly sums; `MonthlyVolume`, `SeriesTotal` and `UndatedIgnored` prove the loop computes them, that they total the dated volume, and that undated transactions are ignored |
| DashboardSeries.MonthlyVolume | frontend/script.js:197-207 | the bucketing loop yields the twelve monthly sums |
| DashboardSeries.SeriesTotal | frontend/script.js:197-207 | there are twelve buckets and they sum to the volume of the dated transactions |
| DashboardSeries.DatedVolumeIsTotal | frontend/script.js:197-207 | when every date parsed, the buckets account for the whole volume |
| DashboardSeries.UndatedIgnored | frontend/script.js:203-204 | a transaction without a parsed date leaves every bucket unchanged |
| DashboardPeriod.DateRange | frontend/script.js:451-472 | daily, weekly and monthly give a range ending today; every other period gives none |
| DashboardPeriod.DailyAndWeeklyRanges | frontend/script.js:455-460 | the daily range is today alone; the weekly range starts seven days back |
| DashboardPeriod.MonthlyRange | frontend/script.js:461-463 | the monthly range spans the previous month's length (31 days from January) |
| DashboardPeriod.MonthlyRangeBounds | frontend/script.js:461-463 | the monthly range spans 28 to 31 days |
| DashboardPeriod.MonthlyRangeOverflows | frontend/script.js:462 | on 31 March 2024 the monthly range starts on 2 March |
| DashboardPeriod.NoRangeKeepsAll | frontend/script.js:464-466 | "alltime" and unknown periods filter nothing |
| DashboardPeriod.FilterRange | frontend/script.js:477-482 | the range filter; `FilterRangeMembers` and `FilterRangeOrdered` prove it keeps exactly the in-range transactions, with their multiplicity and order |
| DashboardPeriod.FilterRangeMembers | frontend/script.js:477-482 | the filter keeps exactly the transactions whose date falls in the range, each as often as it occurs |
| DashboardPeriod.FilterRangeOrdered | frontend/script.js:477-482 | the filter keeps the original order |
| DashboardPeriod.FilterByPeriod | frontend/script.js:474-482 | the transactions a period shows; `PeriodFilter`, `NoRangeKeepsAll`, `DailyKeepsToday` and `WeeklyKeepsLastSevenDays` prove which dated transactions each period keeps |
| DashboardPeriod.PeriodFilter | frontend/script.js:474-482 | a period's result is an ordered subsequence holding exactly the dated transactions between the range start and today |
| DashboardPeriod.DailyKeepsToday | frontend/script.js:455-457 | the daily view keeps exactly today's transactions |
| DashboardPeriod.WeeklyKeepsLastSevenDays | frontend/script.js:458-460 | the weekly view keeps exactly the transactions of the last seven days and today |
| DashboardTable.Page | frontend/script.js:251-254 | a zero limit shows everything; otherwise the page is the first `min(limit, n)` transactions |
| DashboardTable.PageShowsAll | frontend/script.js:254 | the page is everything iff the limit is zero or at least the count |
| DashboardTable.PageGrows | frontend/script.js:254 | a larger limit extends the page without reordering it |
| DashboardTable.ShowMoreButton.constructor | frontend/script.js:318-322 | the button starts enabled at limit 5 with the "Show More" caption |
| DashboardTable.ShowMoreButton.Click | frontend/script.js:323-330 | a click adds five rows to the limit, shows that page, and disables the button exactly when everything is shown |
| DashboardView.UpdateCharts | frontend/script.js:474-487 | the view shows the period's transactions, the no-data flag iff none, their metrics and monthly series, and the first page |
| DashboardView.EmptyPeriodView | frontend/script.js:474-487 | an empty period shows "Other", no percentage, twelve zero buckets and an empty table |
| DashboardExport.ExportCsv | frontend/script.js:531-535 | the export loop yields the header followed by one quoted line per transaction |
| DashboardExport.CsvLine | frontend/script.js:534 | one row's template literal; `ReadQuotedRecord`, `UnescapedRowsAgree` and `UnescapedQuoteBreaksCsv` prove it reads back as the six fields when they hold no quote, and is unreadable when the sender is a lone quote |
| DashboardExport.CsvRows | frontend/script.js:533-535 | the rows of the export in input order; `CsvRowsSnoc`, `ExportCsv` and `CsvRoundTrip` prove it grows by one line per transaction, the loop builds it, and it reads back field for field when no field holds a quote |
| DashboardExport.CsvRowsSnoc | frontend/script.js:533-535 | appending a transaction appends exactly its line |
| DashboardExport.Escape | frontend/script.js:534 | escaping leaves text without quotes unchanged |
| DashboardExport.ReadQuotedEscape | frontend/script.js:534 | a quoted field with doubled quotes reads back as the original text |
| DashboardExport.ReadQuotedRecord | frontend/script.js:534 | a line of escaped quoted fields reads back as those fields |
| DashboardExport.ReadBareRecord | frontend/script.js:531 | a line of bare fields without separators or quotes reads back as those fields |
| DashboardExport.HeaderRecord | frontend/script.js:531 | the header line is the six header fields joined by commas |
| DashboardExport.EscapedCsvRoundTrip | frontend/script.js:531-535 | with quotes escaped, the export reads back as the header and every transaction's six fields, for all inputs |
| DashboardExport.UnescapedRowsAgree | frontend/script.js:534 | without quotes in any field, the source's lines equal the escaped lines |
| DashboardExport.CsvRoundTrip | frontend/script.js:531-535 | when no field contains a quote, the source's CSV reads back as the header and every transaction's fields |
| DashboardExport.UnescapedQuoteBreaksCsv | frontend/script.js:531-535 | after any rows without quotes, a transaction whose sender is a lone `"`, with a recipient that starts with neither a quote nor a separator (the default "N/A", say), makes the whole export unreadable as RFC 4180 CSV |

## Left out

- File, console and log output (`log_unprocessed`, `print`, `console.*`) has no effect on results and is not modelled.
- Reading the XML file and XML parsing are left out. The document is given as `Malformed` or as its `sms` elements, each with its optional `body` and `date` attributes.
- `datetime.fromtimestamp(...).strftime(...)` depends on the machine's time zone. It is a parameter `localTime` from milliseconds to an optional formatted string; `None` stands for the exception it may raise. The source divides the millisecond value by 1000 with true division (`/`), so fractional seconds reach `fromtimestamp`; that division happens inside `localTime`, which receives the milliseconds.
- The dashboard's date parsing (`new Date(..)`, `toISOString`) and the current time (`new Date()`) are parameters: a date parser and a `now` date. Time of day and time zones are left out; dates are compared as calendar days.
- `Math.random` ids are a parameter giving one token per array position.
- SQLite's `date(datetime)` is a parameter `sqlDate`. The database, its connection and JSON serialisation are left out. A row holds only the id, category, amount and date-time columns the filters read.
- `request.args` is a map from each argument to its first value.
- Python's `\s`, `\d`, `str.strip`, `str.lower` and `int()` are modelled over ASCII. Unicode digits and whitespace are left out.
- JsValues.TrimStart: JavaScript's `parseInt` also skips the no-break space, the byte order mark, the line and paragraph separators (U+2028, U+2029) and the other Unicode space separators; only ASCII whitespace is modelled.
- PyValues.PyInt: Python 3.11 and later refuse `int()` of more than 4300 digits with `ValueError`. The model reads any length. In the source, such an amount aborts `parse_sms`, and such a date skips the message.
- `int()` on the amount group: only the empty group fails, because the group has only digits after the commas are removed.
- DashboardMetrics.RoundPercent: the browser computes `(count / n) * 100` in IEEE doubles before `Math.round`. The model rounds the exact ratio. The two differ where the double falls just below a half: 29 of 200 gives 14.499999999999998 in the browser, shown as 14, and 15 in the model. Floating point is not modelled.
- JavaScript numbers are integers. Fractional amounts, `Infinity` and `toFixed` formatting of the volume are left out. Objects, arrays and booleans as field values are treated as non-numeric.
- Chart rendering, DOM updates, view buttons, the fetch call and the HTTP error path are left out.
- DashboardRecords.Load: the `fetch` rejection path is not modelled.
- The "Show More" button's re-render of the table is the returned page. The DOM rows themselves are left out.

## Findings

| source | as written | input that shows it | evidently intended | confidence | as-written member | corrected member |
|---|---|---|---|---|---|---|
| frontend/script.js:534 | each field is wrapped in double quotes without doubling embedded quotes | a transaction whose sender is `"` and whose recipient is the default `N/A` produces a line no RFC 4180 reader accepts | embedded quotes doubled, so that every export reads back field for field | high, not executed | DashboardExport.UnescapedQuoteBreaksCsv | DashboardExport.EscapedCsvRoundTrip |
| backend/parse_sms_transactions.py:69-71 | `[0-9,]+` can match commas alone, and `int('')` then raises, aborting the whole parse | a message body "Paid , RWF" | an amount group that starts with a digit, or 0 when there is none | medium, not executed | SmsExtract.CommasOnlyAmount | SmsExtract.ExtractAmountDigitFirst |
