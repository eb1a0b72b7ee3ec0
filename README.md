# Stock Hawk price-history chart, modelled in Dafny

The Stock Hawk app keeps each stock's price history as one text blob. The blob has one record
`"<epochMillis>, <price>"` per line, newest record first, and every line ends with a newline. When
the stock chart screen (`StockChartActivity`) opens, it does two things:

- It turns the blob into chart entries and an x-axis label map:
  - it splits the blob on `"\n"` and drops the last segment;
  - it reverses the rest, so records are visited oldest first;
  - it splits each record on `", "`;
  - it parses the timestamp as a `long` and truncates it to seconds;
  - it latches a reference second from the first record whose timestamp parses;
  - it parses the price;
  - it appends the entry `(seconds - reference, price)` and puts `x -> short date` into a `TreeMap`.
- Its `XAxisValueFormatter` labels an axis position with the label of the nearest key. The floor
  key wins only when it is strictly closer than the ceiling key. A missing side counts as
  infinitely far, and an empty map gives `""`.

Modules:

- `Wrappers`: `Option`.
- `Text`: Android's `TextUtils.split` (an empty input gives no pieces) and the inverse `Join`.
- `Longs`: `Long.parseLong` (optional sign, decimal digits, 64-bit range), `Long.toString`, and
  Java's truncating division.
- `HistoryParser`:
  - the loop as an imperative method `StockChartActivity.LoadHistory`, over the `mEntries` field and
    a `dates` map;
  - the function `Parse`, which specifies the loop. Each record is first classified into an
    `Outcome`: `Skipped`, `Latched(seconds)` or `Point(seconds, millis, price)`. `Accumulate` then
    applies that outcome to the state.
- `HistoryProperties`: what the loop promises, proved against independent definitions:
  `FirstSeconds` for the reference, `ExpectedEntries` for the entries, and `XValues` for the label keys.
- `HistoryBlob`: the blob as the store writes it, with a write-then-parse round trip.
- `ReferenceLatch`: the `-1` sentinel the Java code uses for "not latched yet", compared with the
  `Option` latch the model uses (see Findings).
- `AxisFormatter`: `floorEntry`/`ceilingEntry` and `getFormattedValue`, proved equal to a
  nearest-key reference definition.

`Float.parseFloat` and `DateFormat.getDateInstance(SHORT).format` are library calls. They enter as
the function parameters `parsePrice: string -> Option<real>` (`None` where Java throws
`NumberFormatException`) and `shortDate: int -> string`. Entry x values and label keys are exact
integers (seconds). Prices are `real`.

## Model

| member | source | states |
|---|---|---|
| HistoryParser.StockChartActivity.LoadHistory | app/src/main/java/com/udacity/stockhawk/ui/StockChartActivity.java:76-103 | The loop appends to `mEntries` exactly the entries of `Parse(historyData)`, after whatever was there before, and the label map it builds is exactly `Parse(historyData).dates` |
| HistoryParser.Records | app/src/main/java/com/udacity/stockhawk/ui/StockChartActivity.java:77-80 | The visited records are the newline-split segments without the last one: one fewer than the segments, and record i is segment `n-2-i`, so they appear in reverse order of the blob |
| HistoryParser.RunAppend | app/src/main/java/com/udacity/stockhawk/ui/StockChartActivity.java:84-102 | Visiting one more record is exactly one more turn of the loop body on the state so far |
| HistoryProperties.RunReference | app/src/main/java/com/udacity/stockhawk/ui/StockChartActivity.java:82-95 | The latched reference is the truncated seconds of the first record that has two fields and a timestamp that parses, whatever its price; it is not latched when no record gets that far |
| HistoryProperties.RunEntries | app/src/main/java/com/udacity/stockhawk/ui/StockChartActivity.java:84-98 | The entries are exactly one per record whose timestamp and price both parse, in processing order with no sorting, each with x = its truncated seconds minus the reference; with no latch there are none. Records with equal x all keep their entry |
| HistoryProperties.RunDateKeys | app/src/main/java/com/udacity/stockhawk/ui/StockChartActivity.java:98-99 | The label map's key set equals the set of the entries' x values |
| HistoryProperties.LabelFromLastRecord | app/src/main/java/com/udacity/stockhawk/ui/StockChartActivity.java:98-99 | The label under a record's x is the short date of that record when no later good record has the same x: `put` overwrites, so the last-processed record with a given x supplies the label |
| HistoryProperties.SkippedRecordInvisible | app/src/main/java/com/udacity/stockhawk/ui/StockChartActivity.java:85-92 | A record that does not split into exactly two fields, or whose timestamp does not parse, can be removed from anywhere in the input without changing the entries, the labels or the reference |
| HistoryProperties.SkippedInvisible | app/src/main/java/com/udacity/stockhawk/ui/StockChartActivity.java:85-92 | The same at the level of outcomes: a skipped record anywhere in the sequence changes nothing |
| HistoryProperties.BadPriceOnlyLatches | app/src/main/java/com/udacity/stockhawk/ui/StockChartActivity.java:90-102 | A two-field record with a good timestamp and a bad price adds no entry and no label, but latches its seconds as the reference if none was latched, and keeps the old reference otherwise |
| HistoryProperties.FirstEntryAtZero | app/src/main/java/com/udacity/stockhawk/ui/StockChartActivity.java:93-98 | When the record that latches the reference also has a good price, the first entry is `(0, its price)` |
| HistoryProperties.EntriesSortedWhenChronological | app/src/main/java/com/udacity/stockhawk/ui/StockChartActivity.java:84-98 | When the latching records are visited in non-decreasing seconds, the entries are sorted by x and every x is non-negative |
| HistoryProperties.EntryLabelOnAxis | app/src/main/java/com/udacity/stockhawk/ui/StockChartActivity.java:98-99 | Every entry's x is a label key, and the axis formatter at that position returns that key's label |
| HistoryProperties.FirstSecondsAppend | app/src/main/java/com/udacity/stockhawk/ui/StockChartActivity.java:93-95 | Once a reference second exists, later records do not change it; otherwise the next latching record supplies it |
| HistoryBlob.NewestFirstBlobRecords | app/src/main/java/com/udacity/stockhawk/ui/StockChartActivity.java:77-80 | For a blob written newest first with every line newline-terminated, the records visited are exactly the written lines, oldest first |
| HistoryBlob.RecordsOfSegments | app/src/main/java/com/udacity/stockhawk/ui/StockChartActivity.java:77-80 | For any blob of newline-free segments, the records are the segments without the last one, reversed, so a final line without its newline is lost |
| HistoryBlob.HistoryLineOutcome | app/src/main/java/com/udacity/stockhawk/ui/StockChartActivity.java:85-97 | A written line `"<millis>, <price>"` splits into exactly its two fields; its timestamp parses back to millis, truncated to seconds; it becomes a point when the price parses and only latches otherwise |
| HistoryBlob.BlobOutcomes | app/src/main/java/com/udacity/stockhawk/ui/StockChartActivity.java:77-97 | Every written point comes back as one record, in writing order, whose outcome is that of the point |
| HistoryBlob.SerializedHistoryRoundTrip | app/src/main/java/com/udacity/stockhawk/ui/StockChartActivity.java:77-99 | Writing points and parsing the blob back gives one entry per point, in the same order, each with that point's parsed price and with x = its truncated seconds minus the first point's |
| HistoryBlob.BadPriceStillLatches | app/src/main/java/com/udacity/stockhawk/ui/StockChartActivity.java:93-97 | Two written lines where the older has a bad price: the older still fixes the reference, so the only entry has x = newer seconds minus older seconds |
| Longs.ParseLong | app/src/main/java/com/udacity/stockhawk/ui/StockChartActivity.java:91 | A parsed timestamp is in the `long` range; its text is an optional sign and then digits only; the empty text and a bare sign fail; the sign decides the sign of the value |
| Longs.ParseLongToString | app/src/main/java/com/udacity/stockhawk/ui/StockChartActivity.java:91 | Parsing the decimal text of n gives n exactly when n fits in a `long`, and fails otherwise |
| Longs.TruncDiv | app/src/main/java/com/udacity/stockhawk/ui/StockChartActivity.java:92 | Java's `/`: the remainder lies in `[0, d)` for non-negative n and in `(-d, 0]` for negative n, so the quotient rounds toward zero |
| Text.JoinSplit | app/src/main/java/com/udacity/stockhawk/ui/StockChartActivity.java:77 | Joining the pieces of a split with the delimiter gives back the original text |
| Text.SplitJoinChar | app/src/main/java/com/udacity/stockhawk/ui/StockChartActivity.java:77 | Splitting pieces joined by a character they do not contain gives back the pieces |
| Text.TextUtilsSplit | app/src/main/java/com/udacity/stockhawk/ui/StockChartActivity.java:77 | The split of a text is empty exactly when the text is empty |
| ReferenceLatch.AsWrittenAgrees | app/src/main/java/com/udacity/stockhawk/ui/StockChartActivity.java:82-96 | With the `-1` sentinel, the entries, labels and reference agree with the `Option` latch whenever no latching record's seconds are -1 |
| ReferenceLatch.SentinelCollision | app/src/main/java/com/udacity/stockhawk/ui/StockChartActivity.java:82-96 | For the blob `"2000, p\n-1000, p\n"` the code as written gives entries x = 0 and x = 0; the `Option` latch gives x = 0 and x = 3 |
| ReferenceLatch.SentinelCollisionAt | app/src/main/java/com/udacity/stockhawk/ui/StockChartActivity.java:82-96 | The same for any two written lines whose older timestamp truncates to -1 seconds |
| AxisFormatter.FloorKey | app/src/main/java/com/udacity/stockhawk/ui/StockChartActivity.java:142 | `floorEntry`: the greatest key at or below the position, and absent exactly when every key is above it |
| AxisFormatter.CeilingKey | app/src/main/java/com/udacity/stockhawk/ui/StockChartActivity.java:143 | `ceilingEntry`: the least key at or above the position, and absent exactly when every key is below it |
| AxisFormatter.FormattedValue | app/src/main/java/com/udacity/stockhawk/ui/StockChartActivity.java:145-153 | An empty label map gives `""` |
| AxisFormatter.FormattedValueIsNearest | app/src/main/java/com/udacity/stockhawk/ui/StockChartActivity.java:142-149 | The formatter returns the label of the nearest key, and of the larger key when two are equally near |
| AxisFormatter.NearestExists | app/src/main/java/com/udacity/stockhawk/ui/StockChartActivity.java:142-149 | Every position over a non-empty label map has a nearest key |
| AxisFormatter.NearestUnique | app/src/main/java/com/udacity/stockhawk/ui/StockChartActivity.java:142-149 | The nearest key, with ties going to the larger key, is unique |
| AxisFormatter.FormattedValueAtKey | app/src/main/java/com/udacity/stockhawk/ui/StockChartActivity.java:142-149 | A position exactly on a key gets that key's label |
| AxisFormatter.FormattedValueTieToCeiling | app/src/main/java/com/udacity/stockhawk/ui/StockChartActivity.java:145-149 | Halfway between two neighbouring keys, the formatter returns the ceiling's label |
| AxisFormatter.FormattedValueOneSided | app/src/main/java/com/udacity/stockhawk/ui/StockChartActivity.java:145-152 | Past the greatest key the formatter returns the greatest key's label; before the least key it returns the least key's label |

## Left out

- Floating point: `Float.parseFloat` is the parameter `parsePrice`, and prices are `real`. The
  `long`-to-`float` conversion of x at line 96 is not modelled. x is an exact integer, so the model
  does not capture the rounding of x values beyond 2^24 seconds, or two distinct x values that
  collide as `Float` keys of the `TreeMap`. NaN and -0.0 are not modelled either.
- `DateFormat.getDateInstance(SHORT).format(new Date(millis))` is locale-dependent library
  formatting. It is the uninterpreted parameter `shortDate`.
- The `Timber` logging calls have no effect on results.
- Platform plumbing is not modelled: the activity lifecycle, the intent extras, the content-resolver
  query, the cursor, and a missing history column (lines 39-75 and 125).
- Chart construction and styling through MPAndroidChart (lines 105-123) are foreign UI calls;
  `XAxisValueFormatter`'s constructor (lines 134-136) only stores the map.
- `app/src/main/java/com/udacity/stockhawk/widget/StockListWidgetService.java` is widget glue and is
  not part of this model.
- `HistoryParser.StockChartActivity.LoadHistory` and `HistoryParser.Parse` require a non-empty blob.
  For the empty blob `TextUtils.split` gives no segments, and `subList(0, -1)` at line 79 throws;
  that library exception is not modelled.
- `Longs.ParseLong`: accepts only ASCII decimal digits. Java's `Long.parseLong` also accepts other
  Unicode decimal digits.
- `HistoryParser.Classify` and `HistoryParser.Accumulate` split one loop turn into a parsing half
  and a state half, so the reasoning can be done on outcomes. `LoadHistory` performs the steps in
  the source's order: the latch comes before the price parse.
- The code differs from a natural reading of the screen's intent in two ways, and the model follows
  the code. First, the first entry's x need not be 0: when the record that latches the reference has a
  bad price, the first entry is measured from that record (`FirstEntryAtZero`,
  `BadPriceStillLatches`). Second, entries are sorted and non-negative only
  when the records are chronological (`EntriesSortedWhenChronological`); nothing sorts them.

## Findings

| source | as written | input that shows it | evidently intended | confidence | as-written member | corrected member |
|---|---|---|---|---|---|---|
| app/src/main/java/com/udacity/stockhawk/ui/StockChartActivity.java:82-95 | `referenceDate` starts at the sentinel -1, and `referenceDate == -1` is taken as "not latched yet". A first latching record whose timestamp truncates to -1 seconds (-1999 to -1000 ms) is therefore mistaken for "not latched", and the next record latches again | the blob `"2000, p\n-1000, p\n"` with a price `p` that parses: as written the entries get x = 0 and x = 0 | latch exactly once, from the first record whose timestamp parses, so the entries get x = 0 and x = 3 | low (pre-1970 timestamps are unlikely in a price history); not executed | ReferenceLatch.SentinelCollision | HistoryParser.StockChartActivity.LoadHistory |
