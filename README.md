# hbconv in Dafny

hbconv converts the CSV exports of two German banks, Postbank and Sparda, into
HomeBank's CSV transaction import format. This project models three parts:

- **HomeBank** (`homebank.dfy`). The canonical `Record` with its closed
  `Payment` kinds and their numeric codes. The conversion of a record into
  its text fields (`ToIR`):
  - the date is written as `%Y-%m-%d`;
  - the payment kind is written as its code;
  - the tags are joined with one space.

  The `Writer` class appends one `;`-separated, header-less line of eight
  fields per record.
- **Postbank** (`postbank.dfy`). `PostbankIter` discards the first eight raw
  lines. It then reads every remaining line as one `;`-separated row of
  eighteen columns, with quoting off. Each row becomes a `Postbank`
  transaction or an error, at that row's position in the sequence:
  - the dates are read as `%d.%m.%Y`;
  - the two money columns go through the money parser;
  - the other columns are kept verbatim.

  `ToRecord` maps a transaction to a HomeBank record.
- **Sparda** (`sparda.dfy`). `TeoIter` drops the first ten CSV records
  whatever they hold. It reads the remaining records as seven columns and
  maps each to a HomeBank record or an error:
  - the dates are read as `%Y-%m-%d`;
  - the turnover has its surrounding `"` removed and is read as an amount in
    euro.

Supporting modules:
- `outcomes.dfy`: `Option`, `Result` and the error kinds.
- `text.dfy`: split on and join with one separator character, and decimal
  digit strings.
- `calendar.dfy`: proleptic Gregorian dates (chrono's `NaiveDate`), the
  `%Y-%m-%d` writer, and the two date readers.
- `money.dfy`: the abstract amount type.
- `streams.dfy`: a conversion mapped over a sequence, in order. This is the
  item sequence of an iterator adapter chain.

The input of an adapter is modelled as its sequence of already-decoded lines,
one CSV record per line. Money parsing and rendering belong to foreign
libraries. Amounts are therefore an abstract type, and every parser or
renderer is a function-valued parameter (`AmountParser`, `AmountRenderer`).
The output stream's answer to a write is a boolean parameter. The writer and
both iterators hold their per-record conversion as a function-valued field
(`serialize`, `convert`), fixed by their constructors.

The line-skip loop at `src/inputs/postbank.rs:64` runs for `0..=7`, which is
eight lines. Its comment says seven, and the unit test puts the data after
eight newlines. The model follows the code and discards eight lines. There is
no trailing-line skip in the code, so the model has none.

The error values follow the messages the code attaches:
- a date error names the column its message names;
- both Postbank money columns fail with the same message, and so does
  Sparda's turnover, so `BadAmount` carries no column;
- `src/inputs/sparda.rs:48` labels a bad wertstellungstag with buchungstag's
  message, and the model keeps that label.

## Model

| member | source | states |
|---|---|---|
| HomeBank.FromCode | src/homebank.rs:16-30 | a code names a payment kind exactly when it lies in 0..11 |
| HomeBank.Code | src/homebank.rs:16-30 | every kind's code lies in 0..11 and maps back to that kind, so distinct kinds have distinct codes |
| HomeBank.TagsRoundTrip | src/homebank.rs:86 | splitting the space-joined tags field recovers the tags when every tag is non-empty and holds no space |
| HomeBank.EmptyTagVanishes | src/homebank.rs:86 | an empty tag is lost: `[""]` gives the empty field, which reads back as no tags |
| HomeBank.ToIRMeaning | src/homebank.rs:76-89 | for years 0 to 9999 the date field reads back as the record's date; the payment field is the kind's code; the tags field splits back into the tags; info, payee, memo and category are copied; the amount field is the rendered amount |
| HomeBank.LineLayout | src/homebank.rs:63-74 | a written record is one line ending in its only newline; splitting the rest on `;` gives date, payment code, info, payee, memo, amount, category and tags in that order |
| HomeBank.Writer.constructor | src/homebank.rs:46-51 | a new writer has written nothing, in particular no header line, and serializes each record as its `;`-joined line |
| HomeBank.Writer.Write | src/homebank.rs:53-60 | an accepted write appends the record's line and returns `Pass`; a refused write returns the failure and leaves the output unchanged |
| HomeBank.Writer.WriteAll | src/homebank.rs:133-138 | writing records in sequence appends their lines in call order, up to the first refused write, and leaves earlier output untouched; the result is `Pass` exactly when every write was accepted |
| HomeBankExample.TestDate | src/homebank.rs:101-102 | 4 February 2015 is written `2015-02-04` |
| HomeBankExample.CashLine | src/homebank.rs:99 | the first test record gives the first expected line |
| HomeBankExample.DslLine | src/homebank.rs:99 | the second test record gives the second expected line |
| HomeBankExample.BasicWrite | src/homebank.rs:97-145 | the two test records give the two expected lines in call order |
| Text.Split | src/inputs/postbank.rs:69-74 | with quoting off, n separators split a line into n + 1 fields, none holding the separator |
| Text.JoinSplit | src/inputs/postbank.rs:69-74 | joining the fields of a split line with `;` gives the line back |
| Text.SplitJoin | src/homebank.rs:46-51 | splitting a `;`-joined line gives its fields back when no field holds `;` |
| Text.Decimal | src/homebank.rs:80 | the payment code is written as a non-empty digit string, one digit below 10 |
| Text.DecimalValue | src/homebank.rs:80 | the written code denotes the code |
| Text.Padded | src/homebank.rs:79 | a zero-padded field is all digits, of the requested width or the number's own length if longer |
| Text.PaddedValue | src/homebank.rs:79 | zero padding keeps the number |
| Text.PaddedDigits | src/homebank.rs:79 | every digit string is the zero-padded form of its own value at its own width, so padding loses nothing |
| Calendar.DaysInMonth | src/homebank.rs:34 | months have 28 to 31 days, and February has 29 exactly in leap years |
| Calendar.FormatYear | src/homebank.rs:79 | `%Y` writes four digits for the years 0 to 9999 and a sign before at least four digits otherwise |
| Calendar.FormatYearValue | src/homebank.rs:79 | the written year's digits denote the year's magnitude |
| Calendar.FormatDateText | src/homebank.rs:79 | a written date holds only digits, signs and `-` |
| Calendar.FormatDateLayout | src/homebank.rs:79 | for years 0 to 9999, `%Y-%m-%d` is four year digits, `-`, two month digits, `-`, two day digits, denoting the date's year, month and day |
| Calendar.ParseField | src/inputs/sparda.rs:43-48 | a numeric field is read exactly when it holds 1 to width digits, and it denotes their value |
| Calendar.ParseYearMonthDay | src/inputs/sparda.rs:43-48 | a text is read exactly when it splits on `-` into three fields of 1 to 4, 1 to 2 and 1 to 2 digits naming an existing day; the date read is year, month and day as those fields denote, so a text that does not have this form makes the row an error |
| Calendar.ParseDayMonthYear | src/inputs/postbank.rs:109-114 | a text is read exactly when it splits on `.` into three fields of 1 to 2, 1 to 2 and 1 to 4 digits naming an existing day; the first field is the day, the second the month and the third the year |
| Calendar.SplitFormatDate | src/homebank.rs:79 | a written date with a four-digit year splits on `-` into year, month and day fields |
| Calendar.FormatThenParse | src/inputs/sparda.rs:43-48 | a date written by the writer's `%Y-%m-%d` is read back by the Sparda date reader as the same date |
| Calendar.ParseThenFormat | src/inputs/sparda.rs:43 | a date read from `%Y-%m-%d` text is written back as exactly that text if and only if its fields have the full widths 4, 2 and 2 |
| Postbank.Deserialize | src/inputs/postbank.rs:32-52 | a record with at least 18 fields fills the 18 columns by position, ignoring extra fields; a shorter one is a missing-fields error |
| Postbank.TryFrom | src/inputs/postbank.rs:100-137 | a row converts exactly when both dates and both money columns parse, with the parsed values and every other column verbatim; otherwise the first failing check, in the order buchungstag, wert, betrag, waehrung, gives the error |
| Postbank.RecordLine | src/inputs/postbank.rs:139-152 | a converted transaction is written as its booking date, code 8, kundenreferenz, auftraggeber, verwendungszweck, the rendered betrag, and empty category and tags |
| Postbank.ParseRow | src/inputs/postbank.rs:85-97 | a line with fewer than 18 fields gives a missing-fields error |
| Postbank.RowFromColumns | src/inputs/postbank.rs:69-74 | a row written with `;` between its columns converts exactly as its columns do |
| Postbank.ItemsAt | src/inputs/postbank.rs:85-97 | the i-th item is the conversion of line 8 + i whatever came before, so an error item does not end the sequence |
| Postbank.ItemsAppend | src/inputs/postbank.rs:85-97 | items keep input order: lines added after the discarded ones append their items |
| Postbank.Items | src/inputs/postbank.rs:58-97 | input of at most eight lines yields nothing; otherwise n lines yield n - 8 items |
| Postbank.HeaderIgnored | src/inputs/postbank.rs:64-66 | the content of the eight discarded lines does not affect the items |
| Postbank.PostbankIter.constructor | src/inputs/postbank.rs:59-79 | construction discards eight lines, or all of them when there are fewer, and leaves exactly the items of the input to come |
| Postbank.PostbankIter.Next | src/inputs/postbank.rs:85-97 | the next item is `None` at the end, otherwise the conversion of the next line; the items still to come shrink by exactly that item |
| Postbank.PostbankIter.Collect | src/inputs/postbank.rs:164-165 | collecting the iterator yields exactly the items still to come |
| PostbankExample.ExampleConverts | src/inputs/postbank.rs:162 | the test row converts, booked on 7 March 2024 with payee Woopsie and memo Doopsie, when both money columns parse |
| PostbankExample.ExampleDate | src/inputs/postbank.rs:162 | `7.3.2024` reads as 7 March 2024 |
| PostbankExample.ToIter | src/inputs/postbank.rs:160-169 | eight newlines followed by the 18-column test row yield exactly one item, which is `Ok`; its record is dated 2024-03-07 with payee Woopsie, memo Doopsie and the amount read from `-25,88` |
| Sparda.Deserialize | src/inputs/sparda.rs:26-35 | a record with at least 7 fields fills the 7 columns by position, ignoring extra fields; a shorter one is a missing-fields error |
| Sparda.TrimStart | src/inputs/sparda.rs:53 | removes exactly the leading run of the character |
| Sparda.TrimEnd | src/inputs/sparda.rs:53 | removes exactly the trailing run of the character |
| Sparda.TrimMatchesSlice | src/inputs/sparda.rs:52-53 | trimming `"` keeps a contiguous slice with only `"` around it, which neither starts nor ends with `"`; interior quotes stay |
| Sparda.TrimMatchesIdempotent | src/inputs/sparda.rs:53 | trimming twice equals trimming once |
| Sparda.TryFrom | src/inputs/sparda.rs:37-59 | a record converts exactly when both dates and the trimmed turnover parse, with the parsed values and the texts verbatim; a date failure gives buchungstag's error, a turnover failure the money error |
| Sparda.CurrencyIgnored | src/inputs/sparda.rs:56 | the currency column decides nothing; changing it changes only the stored text |
| Sparda.QuotedAmount | src/inputs/sparda.rs:52-53 | a quoted turnover converts as the unquoted one |
| Sparda.RecordLine | src/inputs/sparda.rs:61-74 | a converted transaction is written as its booking date, code 8, gegeniban, name of the counter account, verwendungszweck, the rendered turnover, and empty category and tags |
| Sparda.ParseRow | src/inputs/sparda.rs:105-122 | a record with fewer than 7 fields gives a missing-fields error |
| Sparda.RowFromColumns | src/inputs/sparda.rs:87-92 | a record written with `;` between its columns yields the mapped conversion of those columns, or its error |
| Sparda.ItemsAt | src/inputs/sparda.rs:105-122 | the i-th item is the conversion of record 10 + i whatever came before, so an error item does not end the sequence |
| Sparda.ItemsAppend | src/inputs/sparda.rs:105-122 | items keep input order: records added after the dropped ones append their items |
| Sparda.Items | src/inputs/sparda.rs:97-101 | n records yield max(0, n - 10) items |
| Sparda.HeaderIgnored | src/inputs/sparda.rs:97-101 | the ten dropped records do not affect the items, even when they would not parse |
| Sparda.TeoIter.constructor | src/inputs/sparda.rs:80-103 | a new iterator has read nothing, has ten records pending to drop, and its items to come are exactly the input's items |
| Sparda.TeoIter.Next | src/inputs/sparda.rs:105-122 | the first call drops the pending records, then each call yields the conversion of the next record, or `None` at the end; the items still to come shrink by exactly that item |
| Sparda.TeoIter.Collect | src/inputs/sparda.rs:105-122 | draining the iterator yields exactly the items still to come |

## Left out

- Byte decoding is not modelled. Input is already-decoded lines: Sparda's Windows-1252 decoding (`src/inputs/sparda.rs:83-85`) and UTF-8 are library behaviour.
- Money parsing and rendering are not modelled. They are function parameters over an abstract `Amount`. The `currency_rs` options of the Postbank reader and `rusty_money` are foreign libraries. So no property about amount text or sign is stated: the unit test builds `40,00` and expects `-40,00`.
- `src/inputs/postbank.rs:147` stores a `currency_rs` amount in a `rusty_money` field. The model has one amount type, so this type mismatch has no counterpart.
- What reading `EUR` as an amount means (`src/inputs/postbank.rs:132`) is not modelled. Only its failure matters: it makes the row an error.
- CSV library details are not modelled: `\r\n` line ends, the skipping of blank lines, quoting on output of fields holding `;`, `"` or a newline, and flexible-mode rules beyond "missing fields are an error, extra fields are ignored".
- Input and output failures are not modelled: the panic on a read error while discarding lines (`src/inputs/postbank.rs:65`), read errors while reading records, and the flush.
- HomeBank.Writer.Write: a refused write is modelled as writing nothing. Whether part of the line reached the stream is not modelled.
- Calendar.ParseDayMonthYear and Calendar.ParseYearMonthDay accept only unsigned years of one to four digits. chrono's leniencies are not modelled: signed or longer years, and whitespace.
- Calendar.FormatThenParse holds only for the years 0 to 9999. The reader modelled here does not read the signed years `%Y` writes outside that range.
- The range of years chrono can represent is not modelled. Dates are proleptic Gregorian with unbounded years.
- The driver in `src/main.rs` is not part of this model: argument parsing, files, logging, and the loop that skips error rows and stops at the first write error.
- The wrapping of errors in diagnostic reports (`wrap_err`, `into_diagnostic`) is modelled only as the error kind and the column its message names.
