# Portfolio dashboard core, in Dafny

This project models the computational core of two batch scripts from a personal portfolio dashboard.

- `build_daily_cockpit.py` builds the "control room": a report with classified positions, an attention queue and the day's movers.
- `build_portfolio_mvp.py` is the first dashboard. It builds totals and an interactive table.

Both scripts work the same way. They read a holdings sheet and normalise its ticker symbols. They resolve each distinct symbol to a quote from trailing daily closes. Then they join each row with its quote into per-position figures. Unknown values stay unknown through that join, and so does a zero base. Last, they reduce the positions with positive units into totals and lists.

Unknown figures are `Option<real>`, with `None` where the scripts have `None` or NaN. In the model, Python truthiness of a figure (`x or 0`, `if prev_close`) is written out: an `Option` figure counts only when it is known and non-zero. This is the truthiness of `None` and of numbers. A pandas NaN is truthy in the scripts, and the places where that changes a result are listed under "## Left out". The two scripts share one model, parameterised by `Quotes.Config`:

- the control room downloads five sessions and derives a week figure (`CockpitConfig`);
- the first dashboard downloads two sessions and derives no week figure (`MvpConfig`).

Modules:

| module | models |
|---|---|
| `Wrappers` | `Option` |
| `Money` | workbook cells, `parse_money`, `pd.to_numeric` on text, `str.strip`, `str.upper` |
| `Order` | boolean masks, `sort_values`/`sorted` on optional keys, `sum()`, `sorted(...)[:k]` |
| `Quotes` | `fetch_quote`'s window arithmetic, the `fetch_quotes` loop, the symbol list handed to it |
| `Metrics` | the per-row join of `build` (lines 144-177 of the control room, 87-115 of the first dashboard) |
| `Alerts` | `classify` |
| `Json` | `clean_for_json` |
| `Cockpit` | the records loop, the summary and the JSON payloads of the control room |
| `Mvp` | the totals and the interactive-records loop of the first dashboard |

The download is an input. It is a function from a request to a `Download`, where the request holds the symbol, the number of sessions and the position of the call in the run. The answer is either `Failed` (an exception or an empty frame) or the daily closes, any of them missing.

The two loops of the source are methods with loop invariants, each proved against a specification function:

- `Quotes.FetchQuotes` fills the quote map;
- `Cockpit.BuildRecords` and `Mvp.BuildInteractiveRecords` collect the records.

The column-by-column DataFrame assignments of `build` are modelled row by row, as functions.

## Model

| member | source | states |
|---|---|---|
| Money.RemoveMarks | build_daily_cockpit.py:19 | the text with every `$` and `,` removed: no mark is left and nothing is added |
| Money.RemoveMarksAppend | build_daily_cockpit.py:19 | removing marks works piece by piece over concatenation |
| Money.Trim | build_daily_cockpit.py:19 | `strip()`: the result is the text between an all-whitespace prefix and suffix, its ends are not whitespace, and it is empty exactly when the text is all whitespace |
| Money.TrimUnique | build_daily_cockpit.py:19 | a core without whitespace ends, padded by whitespace, trims to exactly that core |
| Money.TrimPadding | build_daily_cockpit.py:19 | extra whitespace around a text does not change its trim |
| Money.TrimParts | build_daily_cockpit.py:19 | a text is its `strip()` between an all-whitespace prefix and an all-whitespace suffix |
| Money.LexRender | build_daily_cockpit.py:23 | every decimal numeral's text is read back as that numeral |
| Money.Lex | build_daily_cockpit.py:23 | reading text as a numeral: whatever it accepts is a valid numeral whose text is exactly the input (with `LexRender`, the reader and the printer are inverse) |
| Money.LexRejectsStart | build_daily_cockpit.py:22-25 | text starting with anything but a digit, sign or point is rejected (the `ValueError` path) |
| Money.ParseDecimal | build_daily_cockpit.py:22-25 | `float(clean)` on the decimal subset: defined exactly when the text is a numeral, and then the numeral's value |
| Money.ParseMoney | build_daily_cockpit.py:17-31 | a blank cell is unknown; a number passes through unchanged; text is the marks-removed and stripped text read as a numeral, and unknown when that is empty |
| Money.ParseMoneyIgnoresMark | build_daily_cockpit.py:19 | a `$` or `,` anywhere in the text does not change the parsed amount |
| Money.ParseMoneyIgnoresPadding | build_daily_cockpit.py:19 | surrounding whitespace does not change the parsed amount |
| Money.ParseMoneyNumeral | build_daily_cockpit.py:17-25 | the text of any numeral parses to that numeral's value |
| Money.ParseMoneyAmount | build_daily_cockpit.py:17-25 | `"$1,234.56"` parses to 1234.56 |
| Money.ParseMoneyUnknownText | build_daily_cockpit.py:20-25 | `" $ "` (nothing left after cleaning) and `"n/a"` (not a number) are unknown, not zero |
| Money.ToNumeric | build_daily_cockpit.py:144 | `to_numeric(errors="coerce")`: blank is unknown, a number passes through, text is known exactly when it is a numeral as written, and then it is that numeral's value |
| Money.CurrencyTextIsNotNumeric | build_portfolio_mvp.py:89 | `"$90"` is unknown in a `to_numeric` column but 90 through `parse_money` |
| Money.Upper | build_daily_cockpit.py:74 | `upper()`: the same length, each character upper-cased |
| Money.Normalize | build_daily_cockpit.py:74 | `strip().upper()`: as long as the stripped text, and empty exactly when the text is all whitespace |
| Money.NormalizeForm | build_daily_cockpit.py:74 | a normalised symbol has the trimmed length, no lower-case letter and no whitespace ends, and is empty exactly for all-whitespace text |
| Money.NormalizeIdempotent | build_daily_cockpit.py:74 | normalising an already-normalised symbol changes nothing, so the quote loop's own `strip().upper()` leaves the symbols it is handed as they are |
| Order.Insert | build_daily_cockpit.py:177 | inserting into a sorted sequence keeps it sorted and adds exactly the one element |
| Order.SortOn | build_daily_cockpit.py:177 | sorting by an optional key: ordered with unknown keys last, and a permutation of the input |
| Order.Filter | build_daily_cockpit.py:176 | a mask keeps exactly the elements that pass, and only those |
| Order.FilterMultiset | build_daily_cockpit.py:176 | a mask keeps each passing element as often as it occurs and drops every other |
| Order.FilterAppend | build_daily_cockpit.py:212-214 | masking a sequence grown by one element grows the result by that element exactly when it passes |
| Order.SumOfAllUnknown | build_daily_cockpit.py:181-183 | a sum with no known value is 0 |
| Order.SumOfAppend | build_daily_cockpit.py:179 | a sum over a concatenation is the sum of the two sums |
| Order.SumOfPermutation | build_daily_cockpit.py:177-179 | sums do not depend on the order of the rows |
| Order.SumOfFilter | build_daily_cockpit.py:176-179 | summing over the masked rows is summing over all rows with the dropped ones counted as unknown |
| Order.Smallest | build_daily_cockpit.py:217 | `sorted(...)[:k]`: min(k, n) elements drawn from the input, in key order, and none left out has a smaller key than one kept |
| Quotes.Usable | build_daily_cockpit.py:49 | `dropna`: never longer than the window, holds a value exactly when some session has that close, and is empty exactly when every close is missing (its order is stated by `UsableAppend` and `UsableSession`) |
| Quotes.UsableAppend | build_daily_cockpit.py:49 | the usable closes of two stretches of sessions are those of the first followed by those of the second |
| Quotes.UsableSession | build_daily_cockpit.py:49 | one session contributes its close when known and nothing when missing |
| Quotes.FirstUsableIsFirstDefined | build_daily_cockpit.py:58-59 | the first usable close, the week figure's base, is at the first session whose close is known |
| Quotes.LastUsableIsLastDefined | build_daily_cockpit.py:52 | the last usable close is at the last session whose close is known |
| Quotes.PrevUsableIsPrevDefined | build_daily_cockpit.py:52-53 | with two or more usable closes, the previous close is at the last known session before the price's, and every other session after it is missing |
| Quotes.UsableBeforeLast | build_daily_cockpit.py:49-52 | when a session is the last known one, the usable closes are those before it followed by its close |
| Quotes.FetchQuote | build_daily_cockpit.py:46-68 | no quote for a failed download or one without a usable close; otherwise the quote that `QuoteOf` derives from the usable closes |
| Quotes.QuoteOf | build_daily_cockpit.py:52-65 | price is the last close; the previous close exists exactly with two or more closes; day change and day percent exist exactly when the previous close is non-zero, and they restore the price; the week percent exists exactly in the weekly variant with five or more closes and a non-zero first close |
| Quotes.PercentOf | build_daily_cockpit.py:57 | `change / base * 100`, stated as `p * base == change * 100` |
| Quotes.VariantsAgree | build_portfolio_mvp.py:45-64 | on the same closes the two-session variant gives the same quote as the five-session one, without a week figure |
| Quotes.NormalizeAll | build_daily_cockpit.py:140 | each symbol normalised, in order |
| Quotes.Answer | build_daily_cockpit.py:46-68 | what one request resolves to: no quote exactly when the download fails or has no known close, otherwise the quote of its usable closes |
| Quotes.CountAppend | build_daily_cockpit.py:73 | appending an element adds one to its own count and nothing to any other |
| Quotes.BatchSkip | build_daily_cockpit.py:75-76 | a skipped round (blank or already resolved) keeps the loop invariant |
| Quotes.BatchRequest | build_daily_cockpit.py:77-79 | a requested round keeps the loop invariant, whether the answer is a quote or not |
| Quotes.FetchQuotes | build_daily_cockpit.py:71-80 | every key is a normalised non-empty input symbol, every value is what a request for its key answered, and no successful answer is lost; a symbol is requested again only after a failed request; an unresolved symbol was requested once per row naming it; without blanks or repeats every symbol is requested once, in order |
| Quotes.FirstIndex | build_daily_cockpit.py:141 | the first position of an element |
| Quotes.SymbolsToFetch | build_daily_cockpit.py:140-141 | the distinct normalised symbols other than `""` and `"NAN"`: each one occurs, none repeats, and they are in order of first appearance |
| Quotes.Distinct | build_daily_cockpit.py:141 | `unique()` with the filter: distinct fetchable entries, all of them, in order of first appearance |
| Quotes.SymbolsToFetchAreDistinct | build_daily_cockpit.py:141-142 | the symbol list given to the loop is already normalised and has no blank or repeat |
| Quotes.ResolvedOnce | build_daily_cockpit.py:142 | when each symbol is requested once in order, a symbol is resolved exactly when its one request answered |
| Metrics.PctChange | build_daily_cockpit.py:170-171 | the percent change is known exactly when both sides are known and the base is non-zero, and then moving the base by it gives the current price |
| Metrics.Mul | build_daily_cockpit.py:172-174 | a product is unknown exactly when a factor is, and otherwise is the product |
| Metrics.Join | build_daily_cockpit.py:144-174 | the symbol is normalised; units, reference and target are coerced with `to_numeric` and buy with `parse_money`; with a quote the current price and the day and week fields are the quote's; without one the current price is the parsed snapshot and the day and week fields are unknown; the derived figures mean what `Derived` says |
| Metrics.Derive | build_daily_cockpit.py:170-174 | the five derived columns from the joined inputs, meaning what `Derived` says |
| Metrics.JoinAll | build_daily_cockpit.py:165-174 | the join of every row, in order |
| Metrics.UnresolvedFallsBack | build_portfolio_mvp.py:91-107 | a row whose symbol is unresolved keeps the snapshot price and has no day or week movement |
| Metrics.NoBuyNoPct | build_daily_cockpit.py:170 | an unknown or zero buy price makes the percent versus buy unknown |
| Metrics.Holdings | build_daily_cockpit.py:176-177 | the rows with positive units (unknown units count as 0), each as often as it occurs, ordered by percent versus buy |
| Metrics.HoldingsSum | build_daily_cockpit.py:176-180 | a column summed over the holdings is the column summed over all rows, with the rows that are not holdings counted as unknown |
| Metrics.HoldingsDefined | build_portfolio_mvp.py:117-118 | a column has a known value among the holdings exactly when some row with positive units has one |
| Metrics.ResolveSheet | build_daily_cockpit.py:140-142 | each distinct symbol of the sheet is resolved exactly when its one request answered, with that answer, and nothing else is resolved |
| Metrics.ResolvedHaveNoWeek | build_portfolio_mvp.py:57-62 | every quote of the two-session variant has no week figure |
| Alerts.OrZero | build_daily_cockpit.py:85-88 | `x or 0`: the known value, or 0 when it is unknown |
| Alerts.Triggers | build_daily_cockpit.py:84-101 | a trigger is listed exactly when its rule fires on the known metrics (the `or 0` reads never fire a rule), and the list is in rule order |
| Alerts.StatusOf | build_daily_cockpit.py:103-108 | stable exactly for no triggers; attention exactly when a trigger other than the target rule is present; action exactly when every trigger is the target rule and there is one |
| Alerts.Classify | build_daily_cockpit.py:83-110 | the triggers are exactly the rules that fire, in rule order; the status is stable exactly without triggers, and attention exactly when a decline rule is among them |
| Alerts.DeclineLabels | build_daily_cockpit.py:93-101 | exactly the four decline labels start with the down triangle |
| Alerts.StatusMeaning | build_daily_cockpit.py:103-110 | stable exactly when no rule fires; attention exactly when a decline rule fires, whatever the target rule does; action exactly when the target rule fires alone |
| Alerts.StatusOfList | build_daily_cockpit.py:103-108 | on a rule-ordered list, the status by the list's shape |
| Alerts.RankSpread | build_daily_cockpit.py:92-101 | in a rule-ordered list, the first and last triggers have ranks at least the list's length minus one apart |
| Alerts.MissingDataIsStable | build_daily_cockpit.py:85-90 | with every metric unknown, nothing fires and the status is stable |
| Alerts.DayDropBoundary | build_daily_cockpit.py:92 | the day rule is inclusive: -3.0 fires and -2.99 does not |
| Alerts.ClassifyDependsOnMetrics | build_daily_cockpit.py:83-110 | the classification depends only on the rule metrics of the row |
| Json.Keys | build_daily_cockpit.py:124 | the keys of a dictionary, in order |
| Json.CleanNumber | build_daily_cockpit.py:131-134 | NaN and the infinities become null; a finite number becomes the same float |
| Json.Clean | build_daily_cockpit.py:122-135 | the result is sanitised; a number becomes what `CleanNumber` makes of it (null for NaN and the infinities); a dictionary stays a dictionary with the same keys in the same order; a list stays a list of the same length; strings and null are unchanged |
| Json.CleanMembers | build_daily_cockpit.py:124 | same keys, each value cleaned |
| Json.CleanItems | build_daily_cockpit.py:126 | each item cleaned, in order |
| Json.CleanKeepsSanitized | build_daily_cockpit.py:122-135 | a value that is already sanitised is unchanged |
| Json.CleanIdempotent | build_daily_cockpit.py:122-135 | cleaning twice is cleaning once |
| Json.CleanFrameNumber | build_daily_cockpit.py:131-134 | an unknown figure (NaN in the frame) leaves as null and a known one as the same float |
| Cockpit.RecordOf | build_daily_cockpit.py:191-211 | a record keeps its position and its note (`""` without one), lists exactly the triggers whose rules fire, in the fixed rule order (day, week, buy, reference, target) with none twice, and has the status of that list |
| Cockpit.RecordsOf | build_daily_cockpit.py:190-214 | one record per holding, in order |
| Cockpit.BuildRecords | build_daily_cockpit.py:187-214 | the loop's records are the records of the holdings, and its attention list is the records with a trigger, in order |
| Cockpit.RecordsOfAppend | build_daily_cockpit.py:214 | one more holding appends one more record |
| Cockpit.NetPct | build_daily_cockpit.py:184 | 0 when the cost is 0, otherwise the gain over the cost in percent |
| Cockpit.AttentionKey | build_daily_cockpit.py:216 | `dayPct or -999`: the day percent when known and non-zero, -999 otherwise |
| Cockpit.LoserKey | build_daily_cockpit.py:217 | `dayPct or 0`, ascending: the day percent, 0 when unknown |
| Cockpit.WinnerKey | build_daily_cockpit.py:218 | `dayPct or 0`, descending: the negated day percent, 0 when unknown |
| Cockpit.Summarize | build_daily_cockpit.py:176-232 | the records are those of the holdings; the queue is a sorted permutation of the records with a trigger and the flag count is its length; the losers and the winners are the five smallest records by `LoserKey` and by `WinnerKey` (ranked as `Order.Smallest` and `Cockpit.Movers` state); the net percent is `NetPct` of the total cost and value (0 at zero cost, otherwise the gain over the cost in percent); the top symbol is the last record's |
| Cockpit.Build | build_daily_cockpit.py:138-218 | the sheet's symbols are resolved as `ResolveSheet` states, and the summary is that of the joined rows |
| Cockpit.RecordsAreHoldings | build_daily_cockpit.py:176-214 | the records follow percent versus buy, and there is a record exactly for each row with positive units, whatever its status |
| Cockpit.TopSymbolIsBest | build_daily_cockpit.py:232 | the top symbol is that of a holding no other holding tops in percent versus buy (an unknown percent sorts last, so such a holding wins), and a dash when no row has positive units |
| Cockpit.LastHoldingIsBest | build_daily_cockpit.py:177 | in holdings sorted by percent versus buy, no holding tops the last one |
| Cockpit.TotalsOverRows | build_daily_cockpit.py:176-183 | cost, value and day move are the sums of the known figures of the rows with positive units |
| Cockpit.EmptyAggregatesAreZero | build_daily_cockpit.py:181-184 | with no known day move the day aggregate is 0; with no known cost the cost and the net percent are 0 |
| Cockpit.AttentionQueue | build_daily_cockpit.py:212-216 | the queue holds exactly the records whose status is not stable, each as often as it occurs, sorted by `dayPct or -999` |
| Cockpit.RecordsClassified | build_daily_cockpit.py:191 | every record is the classification of its own position |
| Cockpit.Movers | build_daily_cockpit.py:217-218 | losers and winners are min(5, n) records drawn from all records, and none left out moved less (losers) or more (winners) by `dayPct or 0` than one kept |
| Cockpit.FlagsCountWholeQueue | build_daily_cockpit.py:512 | the flag count is the number of records with a trigger, and the attention payload holds min(10, that count) entries |
| Cockpit.LabelValues | build_daily_cockpit.py:208 | the trigger labels as strings, in order |
| Cockpit.RecordDict | build_daily_cockpit.py:193-211 | a dictionary with the seventeen keys in the loop's order, each holding its field |
| Cockpit.CleanRecord | build_daily_cockpit.py:234 | sanitising a record dictionary turns exactly its unknown figures and a blank name into null and keeps everything else |
| Cockpit.CleanLabels | build_daily_cockpit.py:208 | the trigger labels pass the sanitiser unchanged |
| Cockpit.CleanMembersPointwise | build_daily_cockpit.py:124 | a dictionary whose every value cleans to the matching entry cleans to that dictionary |
| Cockpit.RecordsValue | build_daily_cockpit.py:234 | the list of record dictionaries, one per record |
| Cockpit.Payloads | build_daily_cockpit.py:234-237 | four sanitised lists: all records, the first min(10, n) of the queue, the winners and the losers |
| Cockpit.PayloadEntries | build_daily_cockpit.py:234 | every payload entry is the shown form of its record |
| Cockpit.FailedQuoteFallsBack | build_daily_cockpit.py:151-174 | a row at 10 units, bought at 100, reference 90, target 130 and snapshot 95, whose quote failed: current 95, -5% versus buy, +50/9 % versus reference, cost 1000, value 950, no triggers, stable |
| Cockpit.DayDropNeedsAttention | build_daily_cockpit.py:92-106 | the same row with a -4% day move fires the day rule and needs attention |
| Cockpit.TargetReachedIsAction | build_daily_cockpit.py:100-108 | a position at 105 with target 100 and no decline fires only the target rule and is an action |
| Mvp.MvpRecordOf | build_portfolio_mvp.py:140-155 | the entry of a holding carries its figures, with unknown units written as 0 |
| Mvp.MvpRecordsOf | build_portfolio_mvp.py:138-155 | one entry per holding, in order |
| Mvp.BuildInteractiveRecords | build_portfolio_mvp.py:138-155 | the loop's entries are the entries of the holdings |
| Mvp.SumMinCount | build_portfolio_mvp.py:117-118 | `sum(min_count=1)`: unknown exactly when no value is known, otherwise the sum of the known values |
| Mvp.PctGain | build_portfolio_mvp.py:120 | 0 when the cost is unknown or 0; otherwise known exactly when the gain is, and then the gain over the cost in percent |
| Mvp.TotalsOf | build_portfolio_mvp.py:117-120 | each total is unknown exactly when no holding has the figure, otherwise the sum of the known figures; the gain is value minus cost, known exactly when both are; the percent is 0 without a non-zero cost, and otherwise the gain over the cost |
| Mvp.Build | build_portfolio_mvp.py:80-155 | the sheet's symbols are resolved as `ResolveSheet` states, no quote has a week figure, and the entries and totals are those of the holdings of the joined rows |
| Mvp.TotalsOverRows | build_portfolio_mvp.py:114-119 | each total is unknown exactly when no row with positive units has the figure, otherwise the sum of the known figures of those rows; the gain is value minus cost, known exactly when both are |
| Mvp.RecordsFollowHoldings | build_portfolio_mvp.py:138-155 | one entry per holding with positive units, in order of percent versus buy |

## Left out

- The market-data download (`yf.download`) is an input function. Exceptions and empty frames are both `Failed`.
- `time.sleep(0.2)` in the first dashboard's loop is left out; it only affects timing.
- File input and output are left out: `pd.read_excel`, the notes file (`load_notes`), and the digest, summary and HTML writes. The sheet is a sequence of `Row`s and the notes are a map, where a missing symbol gives `""`.
- Presentation is left out: `pct_format`, `money_format`, the digest and summary lines, the HTML/CSS templates with their placeholders, and the browser-side JavaScript.
- `datetime.now()` and the generated-at stamp are left out.
- The Sell column (`build_daily_cockpit.py:146`) is left out; nothing reads it.
- Money.ParseDecimal: reads only decimal numerals (`[+-]digits[.digits]`). Exponents, `inf`, `nan`, underscores and non-ASCII (for example full-width) digits read as unknown rather than as Python's `float()` would read them.
- Money.ToNumeric: reads text with the same decimal subset and without stripping. pandas' own string grammar is not modelled.
- Money.Upper: upper-cases ASCII letters only.
- Money.ParseMoney: a number cell is kept as it is. Booleans and other Python objects in a cell are not modelled.
- The symbol cell is taken as text, with a missing cell already read as `"nan"` (the `astype(str)` step).
- All numbers are unbounded reals. IEEE rounding, NaN and infinity exist only inside `Json`.
- pandas' unguarded `x / 0` (infinity) is not modelled. A zero base gives an unknown percent, as the intended `None` paths do.
- Cockpit.Summarize: when no holding has a known cost or value, the total is 0. The source's `sum(min_count=1) or 0` leaves NaN there, because NaN is truthy.
- Cockpit.AttentionKey: an unknown day percent sorts as -999. The source's `NaN or -999` leaves NaN in the key.
- Cockpit.LoserKey: an unknown day percent sorts as 0. The source's `NaN or 0` leaves NaN in the key, so its order around such records is not a key order.
- Cockpit.WinnerKey: an unknown day percent sorts as 0. The source's `NaN or 0` leaves NaN in the key, so its order around such records is not a key order.
- Mvp.PctGain: an unknown cost gives 0. This follows the source's `if total_cost` on the intended `None` path, not on NaN.
- Order.SortOn: `sort_values` (not stable) and `sorted` (stable) are both modelled by one stable sort with unknown keys last. Contracts state "sorted and a permutation", which both sorts meet.
- Mvp.MvpRecordOf: the units are not rounded to four places (`round(..., 4)`).
- `clean_for_json` on pandas `Series`/`Index` values is not modelled. The core hands it only lists and dictionaries.
- The first dashboard's raw `json.dumps` of its entries (with NaN left in) is not modelled. Only the figures are.
