# Receipt processor, modelled in Dafny

A small web service scores shopping receipts. `POST /receipts/process` checks a
JSON receipt against a schema. It then computes the receipt's points with
`calculate_points` and stores the receipt, with its points, under a new id.
`GET /receipts/<id>/points` answers the stored points, or 404.

The points are the sum of seven rules:

1. one point per alphanumeric character of the retailer name;
2. 50 when the total is a whole number of dollars;
3. 25 when the total is a multiple of $0.25;
4. 5 per pair of items;
5. for every item whose stripped description has a length divisible by 3, the ceiling of 0.2 times its price;
6. 6 when the day of the purchase date is odd;
7. 10 when the purchase time lies strictly between 14:00 and 16:00.

A total, a scored item's price, a date or a time that does not parse raises `ValueError`. The route turns that into a 400 answer.

The model has seven modules:

| file | module | what it holds |
|---|---|---|
| `results.dfy` | `Results` | `Option` and `Result` |
| `text.dfy` | `Text` | `str.isalnum`, `str.isspace`, `str.strip`, decimal digit strings |
| `money.dfy` | `Money` | `float(...)` of an amount, read exactly as integer cents; the item bonus `ceil(price * 0.2)` |
| `calendar.dfy` | `Calendar` | `strptime` with `%Y-%m-%d` and `%H:%M` |
| `scoring.dfy` | `Scoring` | the rules as specification functions (`Points`); the imperative `CalculatePoints`, proved equal to it; what the rules promise |
| `schema.dfy` | `Schema` | JSON values, the request schema, reading a request as a `Receipt` |
| `store.dfy` | `Store` | the `receipts` dictionary as the class `ReceiptStore`, with `Process` and `Lookup` |

Amounts are exact integers of cents. The floating-point tests of the source
become the following:

| source | model |
|---|---|
| `float(total).is_integer()` | `cents % 100 == 0` |
| `float(total) % 0.25 == 0` | `cents % 25 == 0` |
| `ceil(float(price) * 0.2)` | `PriceBonus(cents)`, the ceiling of `cents / 500` |

These agree on every amount with at most two decimals whose magnitude is below
$10^13. Below 2^44 dollars the double nearest such a text is within 2^-10
dollars of it. That is far less than the 0.01 that separates a non-whole amount
from a whole one, or from a multiple of 0.25. A whole multiple of $5 times the
double 0.2 rounds back to the exact quotient. Otherwise `price / 5` lies at
least 0.002 from an integer, while the accumulated rounding stays below 0.0005.
This is an argument about IEEE doubles; it is not proved in Dafny. Larger amounts
are rounded by `float` and may score differently.

A parse failure is an
`Err` that carries the text that failed. The error is the first failure in the
order the source evaluates: the total, then the items in list order (only
scored items have their price parsed), then the date, then the time.

Where the repository's files leave room for doubt, the model follows app.py:

- `test_app.py:128` asserts 20 for its receipt, and app.py computes 20: "M&M Corner Market" has 14 alphanumeric characters, and "Mountain Dew 12PK" strips to 17 characters, so it is not scored (`ExampleReceiptScoresTwenty`).
- `test_app.py:106-112` expects a price of "6.4" to be refused by a `validate_item` that app.py does not define. In app.py the price goes straight to `float`, which accepts it as 640 cents (`ExampleOneFractionDigit`).
- app.py:106 compares the time strictly, so 14:00 and 16:00 score nothing (`AfternoonWindow`).
- The schema at app.py:11-32 puts no constraint on the sign of a price, and nothing else refuses a negative one. A scored item priced "-10.00" contributes -2, so a receipt can score below zero (`ExampleNegativePoints`). Points are non-negative when every price is (`PointsNonNegative`).

## Model

| member | source | states |
|---|---|---|
| Text.AlnumCount | app.py:74-77 | the number of characters of the retailer name that `isalnum` accepts (ASCII letters and digits), counted left to right |
| Text.Strip | app.py:94 | `str.strip()`: the text with its leading and trailing whitespace removed |
| Text.AlnumCountIsPositionCount | app.py:74-77 | the retailer count equals the number of positions holding an alphanumeric character, and is at most the length |
| Text.AlnumCountAppend | app.py:74-77 | the count of a concatenation is the sum of the counts |
| Text.AlnumCountAllAlnum | app.py:74-77 | a name made only of letters and digits counts its full length |
| Text.NonAlnumAddsNothing | app.py:74-77 | inserting a non-alphanumeric character (`&`, a space) leaves the count unchanged |
| Text.StripStartSpec | app.py:94 | dropping leading whitespace leaves a suffix that does not start with whitespace, and everything dropped is whitespace |
| Text.StripEndSpec | app.py:94 | dropping trailing whitespace leaves a prefix that does not end with whitespace, and everything dropped is whitespace |
| Text.StripSpec | app.py:94 | `strip()` gives a text with no whitespace at either end; it is empty exactly when the input is all whitespace; it keeps an already-trimmed text |
| Text.StripIdempotent | app.py:94 | stripping twice is stripping once |
| Text.StripStartAppend | app.py:94 | how dropping leading whitespace distributes over a concatenation |
| Text.StripPadding | app.py:94 | whitespace added on either side of a text does not change its stripped form |
| Text.AllDigitsIff | app.py:79-85 | the recursive digit-string predicate holds exactly when every character is a digit |
| Text.DigitsToNatBound | app.py:79-85 | a string of k digits denotes a number below 10^k |
| Text.NatToDigitsRoundTrip | app.py:79-85 | writing a number in decimal and reading it back gives the number |
| Text.FixedDigits | app.py:79-85 | zero-padding to a width gives that many digits, denoting the number |
| Text.TwoDigitRoundTrip | app.py:97-105 | a two-digit field written and read back gives its value |
| Money.ParseCents | app.py:79-85 | `float(text)` in cents, with no result where `float` raises: an optional sign, then digits with at most one point and at most two digits after it, and at least one digit; an accepted text is not empty, and a negative result is written with a leading '-' |
| Money.PriceBonus | app.py:95 | `ceil(price * 0.2)` for a price in cents: the price divided by 500, rounded up |
| Money.ScanDigits | app.py:79-85 | a run of digits is read as its decimal value, with no point seen |
| Money.WholeDollars | app.py:79-85 | a digit string with no point is a whole number of dollars, and the empty string is refused |
| Money.PointOnly | app.py:79-85 | digits followed by a lone point ("6.") are whole dollars, and "." alone is refused |
| Money.OneFractionDigit | app.py:79-85 | "D+.d" is dollars times 100 plus ten times d |
| Money.TwoFractionDigits | app.py:79-85 | "D+.dd" is dollars times 100 plus the two-digit cents |
| Money.DollarsAndCents | app.py:79-85 | digits, a point and at most two digits read as dollars times 100 plus the fraction's cents, with ".", and only ".", refused |
| Money.FractionCentsTwoDigits | app.py:79-85 | two fraction digits are worth their own decimal value in cents |
| Money.ThreeFractionDigits | app.py:79-85 | a third digit after the point is refused |
| Money.SignedAmount | app.py:79-85 | a leading '+' changes nothing, a leading '-' negates, and an unsigned text reads as its unsigned value |
| Money.CanonicalAmount | app.py:79-85 | a text of the canonical form "D+.DD" is accepted, and denotes dollars times 100 plus cents |
| Money.UnsignedRoundTrip | app.py:79-85 | the canonical rendering of a non-negative amount reads back as that amount, and starts with neither sign |
| Money.FormatCentsRoundTrip | app.py:79-85 | every amount in cents, negative ones included, survives rendering as "[-]D+.DD" and parsing back |
| Money.PriceBonusIsCeiling | app.py:93-95 | the item bonus is the least whole r with price <= 5r dollars: `ceil(price * 0.2)` |
| Money.PriceBonusSign | app.py:93-95 | the bonus is non-negative exactly for prices above -$5.00, and zero exactly for prices in (-$5.00, $0.00] |
| Money.ScanStaysRefused | app.py:79-85 | once a prefix of the text is refused, every longer prefix is refused |
| Money.ForeignCharacter | app.py:79-85 | in the unsigned part of an amount, any character other than a digit or a point makes the amount refused |
| Money.PointIsRemembered | app.py:79-85 | after a '.' is read, the reader is past the point for the rest of the text |
| Money.SecondPoint | app.py:79-85 | a second '.' makes the amount refused |
| Money.ExampleAmount | test_app.py:114-128 | "6.49" is 649 cents |
| Money.ExampleOneFractionDigit | app.py:93-95 | "6.4" is accepted as 640 cents |
| Money.ExampleRefused | app.py:79-85 | "6.x9" and "6.4.9" are refused |
| Calendar.ParseDate | app.py:97-98 | an accepted date has the shape YYYY-MM-DD and is a real day of the Gregorian calendar in years 1 to 9999 |
| Calendar.DateRoundTrip | app.py:97-98 | a date written as YYYY-MM-DD is accepted exactly when it is a real calendar date, and is read back unchanged |
| Calendar.LeapDay | app.py:97-98 | February 29th is accepted exactly in leap years |
| Calendar.ParseTime | app.py:102-105 | an accepted time has the shape HH:MM and is less than 24 hours after midnight |
| Calendar.TimeRoundTrip | app.py:102-105 | HH:MM is accepted exactly when HH < 24 and MM < 60, and denotes 60 * HH + MM minutes |
| Scoring.RoundDollarPoints | app.py:79-81 | 50 when the total is a whole number of dollars, else 0 |
| Scoring.QuarterPoints | app.py:83-85 | 25 when the total is a multiple of 25 cents, else 0 |
| Scoring.PairPoints | app.py:88 | 5 for every complete pair of items |
| Scoring.IsScored | app.py:94 | an item is scored when the length of its stripped description is a multiple of 3 |
| Scoring.ItemPoints | app.py:94-95 | a scored item contributes the bonus of its price, or the error of a price that fails to parse; an unscored item contributes 0 and its price is not read |
| Scoring.ItemsPoints | app.py:93-95 | the item bonuses summed in list order, or the error of the first scored item whose price fails |
| Scoring.OddDayPoints | app.py:99-100 | 6 when the day of the purchase date is odd, else 0 |
| Scoring.AfternoonPoints | app.py:103-107 | 10 when the time is strictly after 14:00 and strictly before 16:00, else 0 |
| Scoring.Points | app.py:70-109 | the sum of the seven rules; otherwise the error of the first field that fails to parse, in the order app.py reads them: total, items, date, time |
| Scoring.CalculatePoints | app.py:70-109 | the loop-and-accumulator computation returns exactly `Points(receipt)`: the score, or the first parse error in source order |
| Scoring.AddItemPoints | app.py:93-95 | the item loop adds each scored item's bonus to the running total, in order, and stops with the first price that fails |
| Scoring.ItemsErrorPersists | app.py:93-95 | once an item's price fails, the later items do not change the error |
| Scoring.FirstFailureSpec | app.py:93-95 | every item before the first failure has a parsing price or is unscored, and the item at it is scored with a price that fails |
| Scoring.ItemsPointsMeaning | app.py:93-95 | the items' outcome is the error of the first failing item, otherwise the sum of all item bonuses |
| Scoring.ItemsSucceedIff | app.py:93-95 | the items succeed exactly when no scored item has a price that fails |
| Scoring.PointsSucceedIff | app.py:70-109 | a receipt scores exactly when its total, every scored price, its date and its time all parse |
| Scoring.PointsNonNegative | app.py:70-109 | with no negative prices, the points are never negative |
| Scoring.RetailerRule | app.py:74-77 | renaming the retailer changes the points by the difference of the alphanumeric counts, and nothing else |
| Scoring.TotalRules | app.py:79-85 | the two total rules stack: 75 for whole dollars, 25 for other multiples of $0.25, 0 otherwise |
| Scoring.AppendItem | app.py:88-95 | appending an item adds its bonus, plus 5 when it completes a pair; a failing price becomes the error |
| Scoring.ItemsPointsPointwise | app.py:93-95 | two item lists whose items score alike have the same outcome |
| Scoring.UnscoredPriceIrrelevant | app.py:93-95 | the price of an unscored item is never read: changing it does not change the outcome |
| Scoring.DescriptionPadding | app.py:94 | whitespace around a description does not change the item's contribution |
| Scoring.DayRuleReadsLastDigit | app.py:97-100 | the day rule depends only on the parity of the last digit of the date |
| Scoring.AfternoonWindow | app.py:102-107 | 14:01 to 15:59 score 10, and 14:00, 16:00 and every other valid time score 0 |
| Scoring.ExampleRetailerCount | test_app.py:114-128 | "M&M Corner Market" counts 14 |
| Scoring.ExampleItemUnscored | test_app.py:114-128 | "Mountain Dew 12PK" is not scored and contributes 0 |
| Scoring.ExampleDateAndTime | test_app.py:114-128 | "2022-01-01" and "13:01" read as the first of January and 781 minutes |
| Scoring.ExampleReceiptScoresTwenty | test_app.py:114-128 | the receipt of the test suite scores 20 |
| Scoring.ExampleNegativeAmounts | app.py:79-85 | "1.01" is 101 cents and "-10.00" is -1000 cents |
| Scoring.ExampleScoredItem | app.py:93-95 | a scored item priced "-10.00" contributes -2 |
| Scoring.ExampleNegativePoints | app.py:70-109 | a receipt with one such item scores -2 |
| Scoring.ExampleImpossibleDate | app.py:97-98 | February 29th of a common year makes the receipt fail with that date as the error |
| Schema.MatchesSchema | app.py:11-32 | a JSON object with string members retailer, purchaseDate, purchaseTime and total, and an items array with at least one element, each an object with string members shortDescription and price; other members are allowed |
| Schema.ToReceipt | app.py:11-32 | the five fields of a conforming request that `calculate_points` reads, as a `Receipt` |
| Schema.SchemaRoundTrip | app.py:11-32 | a receipt's request conforms to the schema exactly when it lists at least one item, and then reads back as the same receipt |
| Schema.WithPoints | app.py:49 | setting "points" records the points, adds no member other than "points", and keeps every other member of the request |
| Schema.WithPointsKeepsReceipt | app.py:49 | recording the points keeps the request conforming and describing the same receipt |
| Store.ReceiptStore.Valid | app.py:49-55 | every stored entry is a conforming request whose "points" member is the score of the receipt it describes |
| Store.ReceiptStore.constructor | app.py:34 | the store starts empty |
| Store.ReceiptStore.Process | app.py:42-56 | a request that does not conform is rejected; a receipt that fails to score answers its error; in both cases the store is unchanged; otherwise the request with its points is stored under the fresh id and that id is answered; existing entries never change; every stored entry carries the points of the receipt it describes; the answer is 200 exactly when the request conforms and scores, and 400 otherwise |
| Store.ReceiptStore.Lookup | app.py:59-67 | a stored id answers its recorded points, which are the score of the stored receipt; any other id answers not found, naming the id; the answer is 200 exactly when the id is stored, and 404 otherwise |
| Store.ProcessThenLookup | app.py:42-67 | posting a receipt and then looking up the id answers its score, or the scoring error followed by not found |
| Store.ExampleSession | test_app.py:41-61 | the test receipt is accepted with 200, and its lookup answers 200 with 20 points |
| Store.ExampleUnknownId | test_app.py:63-65 | looking up an id that was never issued answers 404 |

## Left out

- The Flask application, the JSON decoding of the request body, and `app.run` (app.py:1-8, 112-114) are not modelled. A request is a `Schema.Json` value. A body that is not JSON at all is not modelled.
- `get_receipts` (app.py:37-39) is not modelled: it returns the dictionary verbatim, and the model exposes it as the field `ReceiptStore.receipts`.
- `uuid.uuid4()` (app.py:47) is a parameter of `Process`. It is required to be absent from the store, standing for the negligible chance of a collision of random UUIDs.
- Store.ReceiptStore.Process: a 128-bit UUID collision, which would overwrite an entry, is excluded by that precondition rather than modelled.
- Concurrent requests on the shared dictionary are not modelled; each route runs to completion.
- Money.ParseCents accepts the decimal forms with at most two fraction digits: an optional sign, ASCII digits, an optional point, and at least one digit overall. `float` also accepts the following, which are refused here:
  - exponents;
  - `inf`/`nan`;
  - underscores;
  - surrounding whitespace;
  - three or more fraction digits;
  - non-ASCII decimal digits such as "٦.٤٩".
- Money.ParseCents reads amounts exactly. `float` rounds amounts of $10^13 and more in magnitude (for example "10000000000000000.01" becomes 1e16, which then scores 75 for the total rules where the model gives 0). The model does not follow that rounding, nor the drift of `ceil(float(price) * 0.2)` at such magnitudes.
- Calendar.ParseDate and Calendar.ParseTime accept only the zero-padded shapes `YYYY-MM-DD` and `HH:MM`. The one-digit fields and other leniencies of `strptime` are refused here.
- `str.isalnum` is modelled for ASCII letters and digits, and `str.isspace` for the Latin-1 range. Other Unicode letters and spaces are not modelled.
- JSON numbers are integers; only the stored points are numbers.
- The bodies of the error answers are modelled by their fields (`InvalidReceipt(error)` with the failing text, `NotFound(id)`), not as JSON text. The text of the `ValueError` message is not modelled.
- The schema's 400 answer is the one the validation decorator produces. Its message text is not modelled.
- `test_app.py` expects 422 and different messages, and imports `validate_receipt` and `validate_item`, which app.py does not define. The model follows app.py.
- `test_routes.py` calls `app.main()`, which does not exist, and uses names it never imports. It is not modelled.
- The item loop (app.py:93-95) is a separate method, `Scoring.AddItemPoints`, called from `Scoring.CalculatePoints`, so that its invariant can be stated on its own.
