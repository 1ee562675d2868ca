# Crop price predictor — a Dafny model

This project models the query side of the crop price predictor:

- the `CropPredictor` class of `ml/predictor.py`, which covers crop lookup, the linear price forecast, and the top gainers and top losers;
- the older module-level `get_forecast(crop_name)` of `ml/__init__.py`.

The model works over a price table that is already loaded. A table is its set of column names plus its rows (crop, month, price) in file order. A row's label is its position in the whole table, because `read_csv` gives the default index.

Modules:

- `PriceTable` (`price_table.dfy`): the table and the case-insensitive crop filter `frame['Crop'].str.lower() == name.lower()`.
  - `MatchedIndices` gives the labels of the matching rows.
  - `MatchedRows` gives the rows themselves.
- `LeastSquares` (`least_squares.dfy`): ordinary least squares with one regressor, the fit `LinearRegression().fit` computes for a single column.
  - When every x is equal, the minimum-norm solution is used: slope 0, intercept the mean.
  - It proves that the fit solves the normal equations and that no line has a smaller squared error.
- `Numeric` (`numeric.dfy`): the float behaviour the predictor relies on.
  - Division by a zero price gives ±inf or NaN instead of raising.
  - It covers the two ways the source writes a percent change.
  - `round(x, d)` is modelled as round-half-even on the exact value.
- `Ranking` (`ranking.dfy`): the pipeline shared by `get_top_gainers` and `get_top_losers`:
  - per-crop `pct_change(periods=days) * 100`;
  - `dropna`, then the sort by change and `head(5)`;
  - the loop that rounds each change to 3 places, modelled in place on an array.
- `Predictor` (`predictor.dfy`): the `CropPredictor` class with its `crop_data` table, the two lookup tables and the fallback rankings.
  - `ForecastOf` specifies `get_forecast(crop_name, periods)`.
  - The `GetForecast` method follows the source step by step. Its loop chains each change from the last observed price through the unrounded predictions.
  - Exceptions that escape the source are results of the form `Raised(KeyError(column))` or `Raised(ValueError)`.
  - The current month is a parameter.
- `LegacyForecast` (`legacy_forecast.dfy`): `ml/__init__.py`'s `get_forecast`.
  - Months Jan..Jun are numbered 1..6, a line is fitted, and it is evaluated at months 7..12.
  - Every failure becomes four empty lists. That covers an unreadable file (the table is `None`), a missing column, and a month outside Jan..Jun, which maps to NaN and makes the fit raise.

The model follows the code as written. Points where that differs from what one might expect:

- The forecast regressor is the row label in the whole table, as `crop_df.index.values` gives it. It is not the position 0..N-1 among the matched rows.
  - Predictions are taken at N..N+periods-1.
  - A crop that does not start the table is therefore fitted on other x values. `ForecastUsesRowLabels` shows the effect: a crop on rows 3..5 priced 100, 110, 120 is forecast at 100 and 110, not 130 and 140.
- A zero previous price does not exclude a row from the ranking.
  - 0/0 gives NaN, and `dropna` removes that row.
  - x/0 gives ±inf. The row stays and sorts as the most extreme change.
- A non-positive `periods` does not give an empty forecast. `model.predict([])` raises ValueError.

## Model

| member | source | states |
|---|---|---|
| PriceTable.Empty | ml/predictor.py:70 | `df.empty`: a table with no rows or no columns; UsesFallback states how it selects the fallback ranking |
| PriceTable.LowerChar | ml/predictor.py:58 | an upper-case ASCII letter becomes the lower-case letter 32 code points above it, and every other character is unchanged |
| PriceTable.Lower | ml/predictor.py:58 | `lower()` keeps the length and lower-cases each character |
| PriceTable.Matches | ml/predictor.py:58 | a crop cell matches the name only when both have the same length and agree character by character after lower-casing |
| PriceTable.MatchIgnoresCase | ml/predictor.py:58 | matching a crop against a name is the same as matching against the lower-cased name; every crop matches itself |
| PriceTable.MatchedIndices | ml/predictor.py:58 | the selected labels are valid rows that match, strictly increasing (table order), and every matching row is selected |
| PriceTable.MatchedIndicesExact | ml/predictor.py:58-60 | a label is selected iff its row matches; the selection is empty iff no row matches; its last label is the last matching row of the table |
| PriceTable.LastMatchUnique | ml/predictor.py:63 | `iloc[-1]` is well defined: at most one row is the last matching row |
| PriceTable.MatchedIndicesIgnoreCase | ml/predictor.py:123 | names that differ only in case select the same rows |
| PriceTable.BlockMatches | ml/predictor.py:127 | when exactly rows lo..hi-1 match, the index of the filtered frame is lo, ..., hi-1 |
| PriceTable.MatchedRows | ml/__init__.py:9 | entry k of the filtered frame is the row at the k-th selected label, so the frame keeps the matching rows in table order |
| PriceTable.LabelledPoints | ml/predictor.py:127-128 | the regression points are (row label, price) of the selected rows, one per row |
| LeastSquares.At | ml/predictor.py:133 | `model.predict` at x: slope times x plus intercept; ForecastPriceAt and ZeroErrorIffOnLine state what it is used for |
| LeastSquares.Slope | ml/predictor.py:129-130 | the fitted slope: the covariance of x and price over the spread of x, and 0 when x has no spread; SlopeBalancesSpread states its defining equation |
| LeastSquares.SlopeBalancesSpread | ml/predictor.py:129-130 | slope times the spread of x equals the covariance of x and price, also when there is no spread |
| LeastSquares.Fit | ml/predictor.py:129-130 | the `coef_` and `intercept_` that `fit` leaves; FitThroughCentroid and FitMinimizesSquaredError state what they are |
| LeastSquares.FitThroughCentroid | ml/predictor.py:129-130 | the fitted line passes through the mean point, and its slope balances the spread of x against the covariance |
| LeastSquares.FitSolvesNormalEquations | ml/predictor.py:129-130 | the fitted line's residuals sum to zero, and so do the residuals weighted by x |
| LeastSquares.FitMinimizesSquaredError | ml/predictor.py:129-130 | no line has a smaller sum of squared residuals than the fitted one |
| LeastSquares.ZeroErrorIffOnLine | ml/predictor.py:129-130 | a line has zero squared error iff every point lies on it |
| LeastSquares.ExactLineIsRecovered | ml/predictor.py:129-130 | when all points lie on a line and two of them have different x, the fit is that line |
| LeastSquares.NoSpreadFitIsFlat | ml/predictor.py:129-130 | when the x values have no spread, the fit is the horizontal line through the mean price |
| LeastSquares.SinglePointFit | ml/predictor.py:129-130 | one observation is fitted by the horizontal line through its price |
| Numeric.Quotient | ml/predictor.py:142 | division is finite iff the divisor is non-zero, and then it is the exact quotient; 0/0 is NaN; x/0 is +inf iff x > 0 |
| Numeric.PercentChange | ml/predictor.py:142 | the change is finite iff the previous price is non-zero, and then it is `(price - last) / last * 100`; it is NaN iff both prices are 0, and +inf iff only the previous one is 0 and the price is positive |
| Numeric.PctChange | ml/predictor.py:73 | pandas' `cur / prev - 1`, scaled by 100, equals the forecast's `(cur - prev) / prev * 100` on every input, including a zero previous price |
| Numeric.Le | ml/predictor.py:75 | the order `sort_values` uses: -inf before every finite value, finite values by size, +inf after them all, NaN unordered; LeTotal and LeTransitive state that it is a total order |
| Numeric.LeTotal | ml/predictor.py:75 | any two non-NaN changes are ordered one way or the other |
| Numeric.LeTransitive | ml/predictor.py:75 | the order on changes is transitive |
| Numeric.RoundHalfEven | ml/predictor.py:143 | the result is within half a unit of x, and a tie goes to the even neighbour |
| Numeric.RoundTo | ml/predictor.py:143 | `round(x, d)`: the multiple of 10^-d nearest to x, ties to even; RoundToNearest states its accuracy |
| Numeric.RoundToNearest | ml/predictor.py:143 | `round(x, d)` has at most d decimals and is within half a unit of the d-th decimal of x |
| Numeric.RoundWhole | ml/predictor.py:143 | a whole number is unchanged by rounding to 2 places |
| Numeric.RoundToMonotone | ml/predictor.py:83 | rounding to d places preserves the order of any two values |
| Numeric.RoundFloat | ml/predictor.py:83 | a finite value becomes `Finite(RoundTo(value, d))`; infinities and NaN are returned unchanged |
| Numeric.RoundFloatMonotone | ml/predictor.py:83 | rounding preserves the order of two changes, infinities included |
| Ranking.GroupPrices | ml/predictor.py:73 | a crop's group has no more prices than the table has rows, and is empty iff no row has that exact crop name |
| Ranking.GroupPricesAreRows | ml/predictor.py:73 | entry j of a crop's group is the price of a row with exactly that crop name whose group position is j |
| Ranking.GroupPricesPrefix | ml/predictor.py:73 | the group prices of a prefix of the table are a prefix of the group prices |
| Ranking.GroupPositionPrice | ml/predictor.py:73 | a row's own price sits at its position inside its crop's group |
| Ranking.LagChange | ml/predictor.py:73 | the change at position j is NaN when position j - days does not exist, and otherwise the percent change from there; it is NaN iff there is no such position or both prices are 0 |
| Ranking.RowChange | ml/predictor.py:73 | a row's change is defined only when its group has a row `days` positions before it |
| Ranking.RowChangeIsLagged | ml/predictor.py:73 | a row's change is the percent change from the same crop's price `days` rows earlier in its group, and NaN when the group has no such row |
| Ranking.RecordOf | ml/predictor.py:78-79 | the output record of a row: its crop as `name`, its price, and its change; CandidatesAreRows and RowChangeIsLagged state what the change is |
| Ranking.Records | ml/predictor.py:73-79 | one record (crop, price, change) per row, in table order |
| Ranking.DropUndefined | ml/predictor.py:76 | `dropna` keeps only defined changes, keeps every record whose change is defined, and adds nothing |
| Ranking.DropUndefinedCounts | ml/predictor.py:76 | `dropna` keeps each record with a defined change exactly as often as it occurs, and no record with an undefined change |
| Ranking.Candidates | ml/predictor.py:73-76 | every candidate change is defined |
| Ranking.CandidatesAreRows | ml/predictor.py:73-76 | every candidate is a row's record, and every row whose change is defined gives a candidate |
| Ranking.InsertSorted | ml/predictor.py:75 | inserting into a sorted sequence keeps it sorted and adds exactly the inserted record |
| Ranking.Sort | ml/predictor.py:75 | `sort_values` yields a sorted permutation of its input |
| Ranking.Top | ml/predictor.py:77 | `head(5)` is a prefix of length min(5, n) |
| Ranking.Ranked | ml/predictor.py:73-77 | the ranking before rounding has at most five records, sorted, all with defined changes, drawn from the candidates |
| Ranking.TopIsBest | ml/predictor.py:75-77 | after sorting, every kept record ranks before every record left out |
| Ranking.SortedTopIsBest | ml/predictor.py:75-77 | the first five of any sorted arrangement are in order, are drawn from the input, and rank before every record left out |
| Ranking.RankedSelectsBest | ml/predictor.py:73-77 | the ranking keeps min(5, n) of the defined changes, sorted, and each ranks before every defined change left out |
| Ranking.RankedAreRows | ml/predictor.py:73-79 | every kept record is a row's (crop, price, change) with a defined change |
| Ranking.RoundRecord | ml/predictor.py:83 | a record keeps its name and price and its change becomes `round(change, 3)`; the change stays defined iff it was |
| Ranking.Rounded | ml/predictor.py:82-83 | entry k of the result is record k with its change rounded to 3 places |
| Ranking.RoundedKeepsRank | ml/predictor.py:82-83 | records that rank before every left-out record still do once all changes are rounded |
| Ranking.RankedEntriesAreRows | ml/predictor.py:73-79 | every entry of the ranking is the record of some row of the table |
| Ranking.RoundedSorted | ml/predictor.py:82-83 | rounding the changes keeps the ranking in order |
| Ranking.RoundChanges | ml/predictor.py:82-83 | the loop leaves every array slot holding its old record with the change rounded to 3 places |
| Predictor.ProductionRegions | ml/predictor.py:155-167 | a known crop (looked up in lower case) gets its three regions; the result is `['Multiple regions']` iff the crop is unknown |
| Predictor.ExportMarkets | ml/predictor.py:169-181 | a known crop gets its three markets; the result is `['Global markets']` iff the crop is unknown |
| Predictor.LookupsIgnoreCase | ml/predictor.py:155-181 | both lookups ignore the case of the name, and the two tables know the same crops |
| Predictor.MonthLabel | ml/predictor.py:137-141 | the label of entry i is `months[(month + i - 1) % 12]`; the three lemmas below state what that gives |
| Predictor.MonthLabelStartsNow | ml/predictor.py:137-141 | the first forecast entry is labelled with the current month |
| Predictor.MonthLabelNext | ml/predictor.py:137-141 | each label is the calendar month after the previous one, with December followed by January |
| Predictor.MonthLabelPeriodic | ml/predictor.py:137-141 | the labels repeat every twelve entries |
| Predictor.CropPoints | ml/predictor.py:127-128 | `X` and `y`: one (row label, price) point per matched row |
| Predictor.ForecastEntry | ml/predictor.py:132-143 | entry i is labelled with the i-th month from now; its price is within half a cent of the line at N + i; the first change is finite iff the last observed price is non-zero |
| Predictor.ForecastOf | ml/predictor.py:122-146 | what `get_forecast` returns or raises; ForecastOutcomes and ForecastEntries state it |
| Predictor.ForecastOutcomes | ml/predictor.py:122-133 | `get_forecast` raises KeyError('Crop') iff the column is missing; returns [] iff no row matches; raises KeyError('Price') iff that column is missing and a row matches; raises ValueError iff periods <= 0 and a row matches; otherwise returns exactly `periods` entries |
| Predictor.ForecastPriceAt | ml/predictor.py:132-143 | entry i of a successful forecast is the fitted line at N + i, rounded to 2 places |
| Predictor.ForecastEntries | ml/predictor.py:127-146 | a successful forecast is, entry by entry, the month label, the rounded prediction at N + i and the rounded change from the previous unrounded prediction (from the last observed price for entry 0) |
| Predictor.ForecastFollowsLeastSquares | ml/predictor.py:127-145 | entry i is labelled with the i-th month from now; its price comes from the least-squares line through (row label, price) at N + i, and no line fits better; its change runs from the last price through the unrounded predictions |
| Predictor.SingleMatchForecastIsFlat | ml/predictor.py:127-145 | with one matched row every forecast price is that row's price rounded to 2 places, and for a positive price every change is 0 |
| Predictor.ForecastIgnoresCase | ml/predictor.py:123 | names that differ only in case give the same forecast or the same exception |
| Predictor.LeadingPoints | ml/predictor.py:127-128 | a crop on exactly the first n rows gives the points (k, price of row k), k < n |
| Predictor.LeadingPointsOnLine | ml/predictor.py:127-128 | when those prices lie on a line, so do the points, and the first two have different x |
| Predictor.ForecastContinuesLeadingLine | ml/predictor.py:127-133 | when the crop fills exactly the first n >= 2 rows and their prices lie on a line, entry i is that line at n + i, rounded to 2 places |
| Predictor.ForecastUsesRowLabels | ml/predictor.py:127-133 | the regressor is the row label in the whole table: a crop on rows 3..5 priced 100, 110, 120 is forecast at 100 and 110 |
| Predictor.ForecastExample | ml/predictor.py:122-146 | Wheat priced 100, 110, 120 on rows 0..2, two periods: prices 130.0 and 140.0, changes 8.33 and 7.69 |
| Predictor.FallbackGainers | ml/predictor.py:104-111 | the fallback gainers are five defined changes in descending order |
| Predictor.FallbackLosers | ml/predictor.py:113-120 | the fallback losers are five defined changes in ascending order |
| Predictor.UsesFallback | ml/predictor.py:70 | the ranking is computed only for a table with rows and with both the Crop and the Price column |
| Predictor.RankingOf | ml/predictor.py:68-102 | a ranking has at most five defined changes, in order; an empty table or a missing Price or Crop column gives the fallback list |
| Predictor.RankingSelectsBest | ml/predictor.py:73-83 | outside the fallback, entry i is the i-th best defined change rounded to 3 places and is a row of the table; rounded, it ranks before the rounded change of every defined change left out |
| Predictor.CropPredictor.constructor | ml/predictor.py:10-13 | the predictor holds the given table |
| Predictor.CropPredictor.GetCropData | ml/predictor.py:57-66 | KeyError('Crop') iff that column is missing; None iff no row matches; KeyError('Price') iff that column is missing and a row matches; otherwise the name as given, the price of the last matching row, and the two lookups |
| Predictor.CropPredictor.GetForecast | ml/predictor.py:122-146 | the method returns or raises exactly what `ForecastOf` specifies |
| Predictor.ChainForecast | ml/predictor.py:135-146 | the loop produces entry i = (month label, rounded prediction at N + i, rounded change from the previous unrounded price) for every i < periods |
| Predictor.CropPredictor.GetTopGainers | ml/predictor.py:68-84 | returns the descending ranking and leaves `crop_data` unchanged |
| Predictor.CropPredictor.GetTopLosers | ml/predictor.py:86-102 | returns the ascending ranking and leaves `crop_data` unchanged |
| Predictor.TopRecords | ml/predictor.py:69-84 | sorting, truncating and rounding in place on a copy gives the specified ranking |
| LegacyForecast.MonthNumber | ml/__init__.py:15-16 | a month is mapped to n in 1..6 whose name it is, and to NaN iff it is not Jan..Jun |
| LegacyForecast.MonthNumberInverse | ml/__init__.py:15-16 | the i-th month of the first half year is mapped to i |
| LegacyForecast.MonthPoints | ml/__init__.py:15-19 | the regression points are (month number in 1..6, price), one per matched row |
| LegacyForecast.GetForecast | ml/__init__.py:5-41 | the result is non-empty iff the file was read, the columns exist, some row matches and every matched month is Jan..Jun; then it returns the matched months and prices in order, Jul..Dec, and the fitted line at 7..12 rounded to 2 places |
| LegacyForecast.ForecastIsLeastSquares | ml/__init__.py:18-27 | the six forecasts come from the line no other line beats in squared error |
| LegacyForecast.ForecastContinuesLine | ml/__init__.py:18-27 | when the observations lie on a line over two distinct months, forecast i is that line at 7 + i, rounded to 2 places |
| LegacyForecast.ForecastAlongLine | ml/__init__.py:18-36 | the whole forecast list along such a line |
| LegacyForecast.SingleMonthForecastIsFlat | ml/__init__.py:18-27 | observations from a single month give a flat forecast at their mean price, rounded to 2 places |
| LegacyForecast.SameXFitIsFlat | ml/__init__.py:22-23 | points that share one x are fitted by the horizontal line through their mean |
| LegacyForecast.ForecastIgnoresCase | ml/__init__.py:9 | names that differ only in case give the same result |
| LegacyForecast.LegacyExample | ml/__init__.py:5-37 | rows Jan, Feb, Mar priced 100, 110, 120 give the forecast 160, 170, ..., 210 for Jul..Dec |

## Left out

- Loading: `load_data`, `load_market_data`, `detect_encoding`, reading the CSV or JSON files, and encoding detection. The table is a parameter. The legacy reader is `Option<Table>`, where `None` stands for any exception while reading.
- `get_market_insights` only copies three fields out of the JSON document, whose loading is not modelled.
- `print` calls in the exception handlers.
- The clock: `datetime.now().month` is the `month` parameter (1..12), read once for the whole forecast. The source reads the clock on every pass of its loop, so a forecast computed across a month boundary can skip or repeat a label there. `MonthLabelNext` and the labels in `ForecastFollowsLeastSquares` hold only for a single reading.
- Default arguments: `periods=6` and `days=7` are not modelled separately. Every member takes `periods` and `days` explicitly, and a call without them is the call with 6 or 7.
- GroupPrices: its own contract gives only the size bound and emptiness. Which prices the group holds, and in which order, is stated by `GroupPricesAreRows` and `GroupPositionPrice`.
- DropUndefined: its own contract states membership only. The multiplicities are stated by `DropUndefinedCounts`. That the kept records stay in table order is not stated, because the sort that follows does not depend on it except for ties.
- Floating point: prices and predictions are exact reals.
  - Rounding is round-half-even on the exact value. Python and numpy round the binary float, which can differ on values such as 2.675.
  - Division by a zero price yields ±inf or NaN as in numpy.
  - NaN or inf prices in the table itself are not modelled.
- Missing cells: every row has a crop, a month and a price. `dropna()` removes rows with a missing cell in any column; the model drops only the rows whose change is undefined.
- Sort order among equal changes: numpy's quicksort is not stable, while `Ranking.Sort` is a stable insertion sort. The contracts speak only of sortedness, permutation and selection, except that the exact order of ties is fixed in the model.
- `Ranking.Sort`: sorts before `dropna` in the source and after it in the model. NaN changes sort last and are then dropped, so the records kept and their order are the same.
- `PriceTable.Lower`: handles ASCII letters only; Python's `str.lower` also folds other Unicode letters.
- The pandas frame itself (dtypes, the `Date` column, the renamed output columns): a record holds only name, price and change.
- The web application and its static files, which only call into these functions.
