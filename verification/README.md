# Receipt points engine — a Dafny model

This project models the core of a small receipt-processing service written in
Go. The service scores a purchase receipt with seven fixed rules and keeps the
score in an in-memory table under a generated id. The model covers two parts:

- the **points engine** `calculatePoints` and its helpers (`countAlphaNumericChars`,
  `isWholeNumber`, `isMultipleOf`, `pointsFromItem`, `isOddDay`, `isBetween`), as
  pure Dafny functions, plus a method that mirrors the source's accumulating loop;
- the **`ReceiptStore`** (`NewReceiptStore`, `AddReceipt`, `GetPoints`), as an
  immutable map value.

Modules, one per concern:

| file | module | models |
|---|---|---|
| `receipts.dfy` | `Receipts` | the `Receipt` and `Item` records of types.go, with money as integer cents |
| `text.dfy` | `Text` | the `[a-zA-Z0-9]` match count, `strings.TrimSpace` and Go's byte-counting `len` |
| `timeparse.dfy` | `TimeParse` | `time.Parse` for the layouts `2006-01-02` and `15:04`, and the instant comparison of `isBetween` |
| `sums.dfy` | `Sums` | sums of a per-element value over a sequence, used for rule 5 |
| `points.dfy` | `Points` | the seven rules, the score, `calculatePoints`, and the properties of the score |
| `examples.dfy` | `ScoringExamples` | worked examples of each rule |
| `store.dfy` | `Store` | `ReceiptStore` and its read-after-write behaviour |
| `wrappers.dfy` | `Wrappers` | the `Option` type standing for Go's `value, err` results |

Modelling choices:

- **Money is integer cents.** The source decodes `total` and `price` into `float64`.
  Here `35.25` is `3525`. Rule 2 (`f == float64(int(f))`) becomes `cents % 100 == 0`.
  Rule 3 (`math.Mod(f, 0.25) == 0`) becomes `cents % 25 == 0`. Rule 5
  (`math.Ceil(price * 0.2)`) becomes the least integer `p` with `500 * p >= cents`.
  For amounts written with two decimals these agree with the exact float tests,
  because quarter multiples are exactly representable and `math.Mod` is exact.
  The zero tests also agree for negative amounts.
- **Strings are sequences of Unicode scalar values.** This is what JSON decoding
  hands the Go code (valid UTF-8). Go's `len` counts UTF-8 bytes, so rule 5 measures
  the trimmed description with `Text.ByteLength`. White space is Go's
  `unicode.IsSpace` set.
- **Dates and times follow Go's layout parser.** The year takes four digits. Month
  and day take exactly two digits each. The hour of `15:04` takes one or two digits
  and the minute exactly two. The separators must match, and trailing text is an
  error. The month must be 1–12 and the day 1 up to the month's length under the
  proleptic Gregorian leap rule. The hour must be below 24 and the minute below 60.
- **`isBetween` compares instants.** `TimeParse.ClockInstant` counts minutes from
  January 1 of year 0. A parsed `15:04` value lies on that first day. A failed parse
  returns Go's zero `Time`, January 1 of year 1, which is 366 days later. That is
  why an unparseable time is after 14:00 but not before 16:00, and earns nothing.
- **The score is a function.** Every rule and `Points.Score` are Dafny functions,
  so equal receipts get equal scores by construction. `Points.CalculatePoints`
  is the source's accumulating code, proved equal to `Points.Score`.
- **The store is a value.** `AddReceipt` returns the new store. `GetPoints`
  returns a `Lookup(points, found)` pair and cannot change the store.

Two facts about the code shape what is promised:

- The store has no lock, so no synchronisation is modelled.
- A qualifying item priced at -5.00 or less gets a negative item score
  (`CeilFifthOfPrice(-500) == -1`); a price from -4.99 up to 0 scores 0. So
  `Points.ScoreNonNegative` promises a non-negative score only for non-negative prices.

## Model

| member | source | states |
|---|---|---|
| `Text.CountAlphaNumericChars` | api.go:134-136 | rule 1 count is at most the name's length; it equals the length iff every character is in `[a-zA-Z0-9]`, and is 0 iff none is |
| `Text.CountAlphaNumericAppend` | api.go:134-136 | the count of a concatenation is the sum of the counts (matches are single characters) |
| `Text.TrimSpace` | api.go:147 | the trimmed description is a slice of the original, surrounded only by white space, neither starting nor ending with white space; empty iff the description is all white space |
| `Text.TrimSpacePadding` | api.go:147 | trimming white-space padding off a core that neither starts nor ends with white space returns exactly that core |
| `Text.ByteLength` | api.go:147 | Go `len` is between 1 and 4 bytes per character, equals the character count for ASCII text, and for one character is that character's UTF-8 width (1 below U+0080, 2 below U+0800, 3 below U+10000, else 4) |
| `Text.ByteLengthAppend` | api.go:147 | the byte length of a concatenation is the sum of the byte lengths, so `len` is the sum of the per-character widths |
| `TimeParse.ParseDate` | api.go:155 | `time.Parse(time.DateOnly, …)` succeeds iff the text has shape `DDDD-DD-DD`, the month is 1–12 and the day exists in that month and year; it then yields those fields |
| `TimeParse.DaysIn` | api.go:155 | month lengths are 28–31: 28 exactly for February of a common year, 29 exactly for February of a leap year, 30 exactly for April, June, September and November, 31 exactly for the other seven months |
| `TimeParse.ParseFormatDate` | api.go:155 | every valid date with a four-digit year parses back from its `2006-01-02` rendering |
| `TimeParse.FormatParseDate` | api.go:155 | an accepted date string is the rendering of its date: the layout admits one spelling per date |
| `TimeParse.ParseClock` | api.go:164 | `time.Parse("15:04", …)` succeeds iff the text is `D:DD` or `DD:DD` with hour below 24 and minute below 60; it then yields those fields |
| `TimeParse.ParseFormatClock` | api.go:164 | every valid clock reading parses back from its two-digit rendering |
| `TimeParse.FormatParseClock` | api.go:164 | an accepted time string is its reading's rendering, or that rendering without the leading zero of an hour below 10 |
| `TimeParse.ClockInstant` | api.go:164-166 | a parsed time is an instant on the first day of year 0; a failed parse is the zero `Time`, 366 days later |
| `TimeParse.IsBetween` | api.go:163-168 | with both bounds valid times, a time is between them iff it parses and its minute of the day is strictly after the start's and strictly before the end's; an unparseable time never is |
| `Points.IsWholeNumber` | api.go:138-140 | rule 2's test holds iff the total in cents is 100 times some whole number of dollars |
| `Points.IsMultipleOf` | api.go:142-144 | `math.Mod(value, factor) == 0` holds iff the factor is non-zero and the value is a whole number of factors (rule 3 uses 25 cents); a zero factor is never satisfied, as `math.Mod` is then NaN |
| `Points.CeilFifthOfPrice` | api.go:148-149 | `ceil(price * 0.2)` is the least integer `p` with `price <= 500 * p` (price in cents); non-negative for a non-negative price |
| `Points.PointsFromItem` | api.go:146-152 | an item earns nothing unless its trimmed byte length is a multiple of 3; then it earns the ceiling of a fifth of its price |
| `Sums.SumByAppend` | api.go:116-119 | a per-element sum over a concatenation is the sum over the parts |
| `Sums.SumByPermutation` | api.go:116-119 | a per-element sum depends only on the multiset of elements |
| `Sums.SumByNonNegative` | api.go:116-119 | a sum of non-negative per-element values is non-negative |
| `Points.SumItemPoints` | api.go:116-119 | the rule 5 loop adds up exactly the points of every item |
| `Points.Score` | api.go:97-131 | a score is at least its item points; the other rules add at most one point per retailer character, 75 for the total, 5 per pair of items, and 6 + 10 for date and time |
| `Points.ScoreNonNegative` | api.go:97-131 | with no negative price the score is at least its per-item points, which are non-negative |
| `Points.CalculatePoints` | api.go:97-132 | the source's accumulation, in its rule order, returns exactly the sum of the seven rule contributions |
| `Points.ScoreItemOrder` | api.go:113-119 | reordering the items of a receipt leaves its score unchanged |
| `Points.TotalBonuses` | api.go:103-111 | rules 2 and 3 together give 75 iff the total is whole, 25 iff it is a quarter multiple but not whole, and 0 otherwise; 50 alone never happens |
| `Points.ItemPairPointsCount` | api.go:114 | rule 4 gives 5 points per complete pair of items |
| `Points.IsOddDay` | api.go:154-161 | `isOddDay` holds iff the date is a well-formed existing `YYYY-MM-DD` date whose last digit is odd; an unparseable date is never odd |
| `Points.OddDayRule` | api.go:154-161 | rule 6 gives 6 iff the date is a well-formed existing `YYYY-MM-DD` date whose last digit is odd, else 0 |
| `Points.AfternoonWindow` | api.go:163-168 | rule 7 gives 10 iff the time parses to a minute of the day strictly between 840 and 960, else 0; an unparseable time gives 0 |
| `ScoringExamples.RetailerTarget` | api.go:134-136 | "Target" earns 6 |
| `ScoringExamples.RetailerCornerMarket` | api.go:134-136 | "M&M Corner Market" earns 14 |
| `ScoringExamples.TotalExamples` | api.go:103-111 | 35.00 earns 75, 35.10 earns 0, 35.25 earns only the 25 |
| `ScoringExamples.PairExamples` | api.go:114 | 4 and 5 items earn 10, 1 item earns 0 |
| `ScoringExamples.ItemGatorade` | api.go:146-152 | "Gatorade" earns nothing at any price |
| `ScoringExamples.ItemBlank` | api.go:146-152 | a blank description at 6.00 earns 2 |
| `ScoringExamples.NegativePriceExamples` | api.go:146-152 | prices of -1.00 and -4.99 round up to 0 points, -5.00 to -1; a blank-described item at -5.00 earns -1 |
| `ScoringExamples.DateOddDay` | api.go:154-161 | "2022-01-01" earns 6 |
| `ScoringExamples.DateEvenDay` | api.go:154-161 | "2022-01-02" earns 0 |
| `ScoringExamples.DateUnparsable` | api.go:154-161 | "2022-02-29" (not a leap year) and "2022-1-01" earn 0 |
| `ScoringExamples.TimeExamples` | api.go:163-168 | "14:33" earns 10; "14:00", "16:00" and "2:30" earn 0 |
| `ScoringExamples.TimeUnparsable` | api.go:163-168 | "noon" and "15:60" earn 0 |
| `Store.GetPoints` | types.go:40-43 | a lookup finds an id iff it is stored, returning its points; a miss returns `(0, false)` |
| `Store.NewReceiptStore` | types.go:30-34 | a new store finds no id |
| `Store.AddReceipt` | types.go:36-38 | afterwards the id reads back the new points, overwriting any old value, and every other id reads back what it did before |
| `Store.ReplayReadsLatest` | types.go:36-43 | after any sequence of additions, an id reads back its latest added points, or `(0, false)` if it was never added |
| `Store.LaterSubmissionsIndependent` | types.go:36-38 | later additions under other ids do not change an id's lookup |
| `Store.AddReceiptOverwrites` | types.go:37 | adding an id twice is the same as adding only the second value |

## Left out

- HTTP plumbing: `WriteJSON`, `makeHTTPHandlerFunc`, `APIServer.Run`, routing, `handleProcessReceipts` and `handleGetPoints` (api.go:17-95). These are I/O and framework glue.
- `HTTPError` (types.go:3-11). It only maps errors to status codes in that glue.
- JSON decoding of receipts, including the string-encoded floats (types.go:13-24). The model takes decoded fields, with amounts already in cents.
- Id generation `createReceiptId` (api.go:68-70). It uses a UUID library and randomness; ids are arbitrary strings here.
- Binary floating point. Rare rounding differences of `float64` equality and `price * 0.2` are not modelled. Neither are amounts too large for `int(f)` (api.go:139) or amounts (totals and prices) with more than two decimals.
- Points.CalculatePoints: the sum is an unbounded integer; Go's 64-bit `int` would wrap only for pathological receipts.
- Concurrency: the store has no lock in the source, and no thread-safety is modelled.
- The log line written when a date does not parse (api.go:157).
- Invalid UTF-8: JSON decoding never produces it, so `len` of raw invalid bytes is not modelled.
