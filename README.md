# Paginated price history and Bollinger bands, modelled in Dafny

This project models the two parts of the stock screener that hold real logic.

- **The history assembler** is `StockPrice.analyzer` in `kis/get.py`. It asks the broker's
  daily-price endpoint for pages of records, most recent first. It appends the records to six
  parallel lists (`date`, `price`, `low`, `high`, `tvol`, `tamt`) until they hold `size`
  records. Consecutive pages share one boundary record, so at every page end the last record
  is deleted from every list. The next page is then anchored at the date of the record
  yielded last. A row with an empty closing price raises `NoMoreData`. The screener
  (`Explorer.cond_search_api_call`) skips every symbol whose assembly raised `NoMoreData`.
  The file also holds the day/night exchange-code translation (`daynight_consider`).
- **The series container** is `StockAnalyzer` in `calc/math.py`. It checks that the six
  columns have one length. `bollinger_band` computes, for each index from `period` on, the
  mean and population standard deviation of the `period` prices *before* that index. From
  them it computes the upper and lower bands, %B and a bandwidth value.

Files:

- `wrappers.dfy`: `Option` and `Result`.
- `kis_get.dfy` (module `KisGet`): the exchange codes, records and pages, and the `total`
  buffer as a class (`Total`). It also holds the assembler, given both as a specification
  function (`Assemble`, `History`) and as the imperative loop (`Analyzer`), plus the
  screener (`Screen`, `CondSearch`).
- `calc_math.dfy` (module `CalcMath`): the window statistics and one band point
  (`BandPoint`). It also holds the table specification (`Bands`) and the `StockAnalyzer`
  class with its validating factory, `__bool__` and the `bollinger_band` loop.

Modelling choices:

- The HTTP answers are parameters:
  - a `PageSource` (anchor date to the rows of that page);
  - a search function (exchange code to the hits of the search);
  - the `PSBL_YN` string of the day/night answer.
- Dates are integers (day numbers).
- Prices are `real`. The square root is a parameter `sqrt: real -> real`. Only the lemmas
  that need it ask that `sqrt(x) >= 0` for `x >= 0`.
- A division by zero in %B or bandwidth gives `None`. In the source, numpy produces a
  non-finite value there.

Points where the code departs from the usual convention, modelled as the code behaves:

- The series is returned most recent first. It is not reversed to chronological order.
- The window of output row `k` is `price[k .. period + k]`, which leaves out `price[period + k]`.
  So `period == length` yields an empty dict with no keys, not one point.
- Running out of history is always fatal (`NoMoreData`). There is no best-effort mode.
- The boundary record is deleted without comparing dates. A page that does not repeat the
  anchor therefore loses one record silently instead of failing.
- The bandwidth is `upper - lower / center`, as written (see Findings).

## Model

| member | source | states |
|---|---|---|
| `KisGet.ToRecord` | kis/get.py:66-76 | A row with a closing price yields the record dated at the row's `xymd` whose price is the row's `clos` |
| `KisGet.DayNightConsider` | kis/get.py:23-36 | When `PSBL_YN` is not "N" the code comes back unchanged. When it is "N" (daytime), a translation exists exactly for AMS/NAS/NYS; any other code is the dict lookup's `KeyError` (`None`) |
| `KisGet.DaytimeRoundTrip` | kis/get.py:25 | In daytime each listed exchange maps to a code that is different and outside the night list, and `NightCode` maps it back, so the table is one-to-one |
| `KisGet.Total.Append` | kis/get.py:89-90 | Appending a record extends every column by that record's value, so the buffer's records become the old ones plus this one and all columns keep one length |
| `KisGet.Total.DropLast` | kis/get.py:91-93 | At a page end exactly the last record is removed from every column, and all columns keep one length |
| `KisGet.Assemble` | kis/get.py:83-94 | A successful run below `size` always ends with exactly `size` records, because each pass adds or removes one record and the loop stops only at `size` |
| `KisGet.History` | kis/get.py:78-95 | A successful `analyzer(size, ref_day)` returns exactly `size` records |
| `KisGet.Analyzer` | kis/get.py:78-95 | The loop over the `Total` buffer returns exactly what `History` specifies. On success the six columns are aligned and hold exactly `size` records |
| `KisGet.TakeFromPage` | kis/get.py:86-90 | Priced rows are appended in the order the page yields them, and assembly stops exactly when `size` is reached, even mid-page |
| `KisGet.DrainPage` | kis/get.py:86-91 | A page that ends before `size` is appended whole, in page order, and its last record becomes the record the next page is anchored at |
| `KisGet.GapRaises` | kis/get.py:66-68 | A row with an empty closing price that is reached before `size` records are held makes the whole assembly fail with `NoMoreData` |
| `KisGet.FirstPageGap` | kis/get.py:78-91 | `analyzer` does not catch `NoMoreData`: when the first page has an unpriced row before `size` priced ones, it fails rather than returning a shorter series |
| `KisGet.EmptyAnchorPageFails` | kis/get.py:91-94 | If the page anchored at the last yielded record is empty, every page end deletes one more record and requests the same page, so no series is ever returned: the run ends on the `del` of an empty list when a request per held record is left, and on the request bound otherwise |
| `KisGet.StitchLength` | kis/get.py:91-93 | Stitching `n` overlapping pages gives their total length minus `n - 1`: each boundary removes exactly one record |
| `KisGet.AssembleChain` | kis/get.py:85-94 | From any state about to read a page of an overlapping chain, the result is the held records followed by the stitched chain, cut at `size` |
| `KisGet.StitchedHistory` | kis/get.py:78-95 | If every new page starts with the anchor record, `analyzer` returns the pages concatenated with each boundary record kept once, most recent first, cut at `size` |
| `KisGet.Screen` | kis/get.py:133-141 | The screening loop keeps at most one series per hit, and when it fails, the error is one of the hits' own errors other than `NoMoreData` |
| `KisGet.SurvivorsMembers` | kis/get.py:133-141 | A symbol's series is among the survivors exactly when its assembly returned one, so symbols that raised `NoMoreData` are dropped |
| `KisGet.ScreenOk` | kis/get.py:133-143 | The screener returns a list exactly when no assembly raised anything other than `NoMoreData`, and the list is the survivors in encounter order |
| `KisGet.ScreenErr` | kis/get.py:133-141 | Otherwise the call fails with the first uncaught error in encounter order |
| `KisGet.ScreenSticks` | kis/get.py:133-141 | Once an uncaught error has happened, later hits do not change the outcome |
| `KisGet.CondSearch` | kis/get.py:117-143 | The nested loop over exchanges and hits returns exactly `Screen` of the hits' outcomes, flattened in exchange order |
| `CalcMath.SumBounds` | calc/math.py:49 | A sum of `n` prices between `lo` and `hi` lies between `n * lo` and `n * hi` |
| `CalcMath.MeanBounds` | calc/math.py:49 | The window average lies within the window's price range |
| `CalcMath.Mean` | calc/math.py:49 | `sum(window) / period`; `MeanBounds` places it within the window's price range and `FlatWindowVariance` makes it the price of a flat window |
| `CalcMath.Variance` | calc/math.py:50 | The population variance inside the square root is never negative |
| `CalcMath.FlatWindowVariance` | calc/math.py:49-50 | A window of equal prices has that price as its mean and zero variance |
| `CalcMath.PercentB` | calc/math.py:53 | %B is defined exactly when the band has non-zero width, and then the price is `lower + %B * (upper - lower)` |
| `CalcMath.BandwidthAsWritten` | calc/math.py:54 | The as-written bandwidth is defined exactly when the center is non-zero, and then it is the value `b` with `(upper - b) * center == lower`: only `lower` is divided by the center |
| `CalcMath.BandPoint` | calc/math.py:48-61 | The values one loop pass appends carry index `i`'s date and the mean of the `period` prices before `i` as center, with the upper and lower bands equally far from the center |
| `CalcMath.BandStep` | calc/math.py:47-61 | One loop pass appends index `i`'s point to every column, which turns the table for the indices before `i` into the table including `i` |
| `CalcMath.Bands` | calc/math.py:40-63 | The result is `InvalidParameter` exactly when `period > length`. Otherwise every column has `length - period` entries, and the table has no keys exactly when `period == length` |
| `CalcMath.BandsRow` | calc/math.py:47-61 | Row `k` is index `period + k`. It carries that index's date and the mean of the preceding `period` prices, which exclude the price at the index. Its bands are the mean ± multiplier·sqrt(variance), and %B places the price at the index within them |
| `CalcMath.BandsSymmetric` | calc/math.py:49-52 | `upper - center == center - lower == multiplier * std` with `std >= 0`, so `lower <= center <= upper` when the multiplier is non-negative |
| `CalcMath.BandsCenterInRange` | calc/math.py:48-49 | Every row's center lies within the range of the prices in its window |
| `CalcMath.PercentBPosition` | calc/math.py:53 | For a band of positive width, %B is 0 at the lower band, 1 at the upper band, and between 0 and 1 for a price inside the band |
| `CalcMath.BandwidthAsWrittenCounterexample` | calc/math.py:54 | The as-written bandwidth is 1 for a collapsed band at 2, and 3 once prices are doubled, where the relative width is 0 |
| `CalcMath.RelativeBandwidthZero` | calc/math.py:54 | The conventional relative bandwidth is zero exactly for a collapsed band |
| `CalcMath.RelativeBandwidthScale` | calc/math.py:54 | The conventional relative bandwidth does not change when all prices are scaled |
| `CalcMath.BandsRelativeBandwidth` | calc/math.py:49-54 | On a band row the conventional relative bandwidth is `2 * multiplier * std / center` |
| `CalcMath.StockAnalyzer.constructor` | calc/math.py:13-38 | From equal-length columns the object keeps code, exchange, date, price, tvol and tamt, and sets `length` to the number of dates |
| `CalcMath.StockAnalyzer.Create` | calc/math.py:27-38 | Construction fails with `ValueError` exactly when the six columns differ in length. Otherwise `length` is the number of dates, which may be 0 |
| `CalcMath.StockAnalyzer.AsBool` | calc/math.py:68-69 | The object is false exactly when it holds no dates |
| `CalcMath.StockAnalyzer.BollingerBand` | calc/math.py:40-63 | The append loop returns exactly `Bands` of the stored prices and dates. The fields are constants, so repeated calls with the same arguments give the same table |

## Left out

- HTTP requests: the page request, the day/night query, the condition search and `current`. They are parameters or are not modelled; `current` only reads one field of an HTTP answer.
- The search-parameter wrappers (`current_price`, `fluctuation_rate`, ... `market_capitalization`) only build the query passed to HTTP. `filter` is empty.
- Loading the symbol lists from pickle files at import time: file I/O.
- kis/auth.py (OAuth token and its refresh), system/logger.py (logging, memory and disk probes) and test.py (a multiprocessing logging demo) are not part of this model.
- Date parsing and formatting (`strptime`/`strftime`): dates are integers.
- Float64 rounding and numpy semantics: prices are reals, `sqrt` is a parameter, and a division by zero is `None`.
- Number parsing: `float()` raises `ValueError` on a `clos` that is not empty but not a number, and on an empty or non-numeric `low`, `high`, `tvol` or `tamt` (kis/get.py:71-75). The model takes these fields as already parsed, so it has no such error; the screener would not catch it and the whole call would fail.
- `StockAnalyzer.__repr__`: string formatting only.
- Analyzer: requires `size >= 1`. With `size <= 0` the source builds a dict that only has a `date` key, and the constructor call then fails.
- Analyzer: returns the six columns, not a `StockAnalyzer`. The source calls the constructor with `symbol=`, which the constructor does not accept.
- History: for `size <= 0` it returns an empty success where the source fails at the constructor call (kis/get.py:95, the columns other than `date` are missing). No method reaches it: `Analyzer` requires `size >= 1` and `Assess` uses 100.
- Analyzer: `fuel` bounds the number of extra page requests, and `OutOfFuel` is what the model returns when the bound is reached. The source would keep requesting pages, for example forever when a page holds only the anchor record. Termination is not claimed in general.
- Analyzer: `EmptyBuffer` is the `IndexError` of the `del` on an empty list. This is also what an empty first page gives: the loop guard has already created the `date` list, so the `del` fails before `current` is read.
- Analyzer: the default `ref_day` is fixed when the definition is evaluated; here it is the parameter `refDay`.
- CondSearch: the analyzer is called with its defaults, `size = 100` and the same `refDay`. The symbol and exchange of a hit only select its page source.
- CondSearch: as written, every `analyzer` call that assembles a series ends in a `TypeError` at kis/get.py:95 (the constructor does not accept `symbol=`), so `cond_search_api_call` can only return an empty list or raise. The survivors list the model returns is what the call gives once that constructor call is fixed.
- BollingerBand: the defaults `period=20` and `multiplier=2` (calc/math.py:40) are not modelled; both are explicit parameters.
- BollingerBand: requires `period >= 1`. With `period == 0` the source divides by zero when the series is not empty, and a negative period slices from the end of the arrays.

## Findings

| source | as written | input that shows it | evidently intended | confidence | as-written member | corrected member |
|---|---|---|---|---|---|---|
| calc/math.py:54 | `bandwidth = upper - lower / average`: the division binds first | upper = lower = center = 2 gives 1; doubling every price gives 3 | `(upper - lower) / average`, zero for a collapsed band and independent of the price scale | high; not executed | `CalcMath.BandwidthAsWrittenCounterexample` | `CalcMath.RelativeBandwidthScale` |

The band table keeps the as-written value in its `bandwidth` column (`BandwidthAsWritten`),
because that column reproduces what the code returns. The corrected definition is
`RelativeBandwidth`. `RelativeBandwidthZero` and `RelativeBandwidthScale` prove its intended
properties, and `BandsRelativeBandwidth` gives its value on every band row.
