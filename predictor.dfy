/** `CropPredictor`: crop lookup, the linear price forecast and the top
    gainers / losers over a loaded price table. Exceptions the source lets
    escape are results of the form `Raised(...)`; the current month, which
    the source reads from the clock, is a parameter. */
module Predictor {
  import opened Wrappers
  import opened Numeric
  import opened PriceTable
  import opened LeastSquares
  import opened Ranking

  /** The exceptions that escape: a missing column, or sklearn rejecting an
      empty prediction input. */
  datatype Error = KeyError(column: string) | ValueError

  datatype Outcome<T> = Ok(value: T) | Raised(error: Error)

  /** `{'name', 'current_price', 'production_regions', 'export_markets'}` */
  datatype CropInfo = CropInfo(name: string, currentPrice: real,
                               productionRegions: seq<string>, exportMarkets: seq<string>)

  /** One forecast triple `(month, price, change)`. */
  datatype ForecastPoint = ForecastPoint(month: string, price: real, change: Float)

  // ---- lookup tables ----

  const Regions: map<string, seq<string>> := map[
    "wheat" := ["Punjab", "Haryana", "Uttar Pradesh"],
    "rice" := ["West Bengal", "Punjab", "Andhra Pradesh"],
    "cotton" := ["Maharashtra", "Gujarat", "Punjab"],
    "maize" := ["Karnataka", "Andhra Pradesh", "Bihar"],
    "soybean" := ["Madhya Pradesh", "Maharashtra", "Rajasthan"],
    "mustard" := ["Rajasthan", "Uttar Pradesh", "Haryana"],
    "sunflower" := ["Karnataka", "Andhra Pradesh", "Maharashtra"],
    "groundnut" := ["Gujarat", "Andhra Pradesh", "Tamil Nadu"],
    "coffee" := ["Karnataka", "Kerala", "Tamil Nadu"]]

  const Markets: map<string, seq<string>> := map[
    "wheat" := ["Bangladesh", "Nepal", "UAE"],
    "rice" := ["Iran", "Iraq", "Saudi Arabia"],
    "cotton" := ["China", "Bangladesh", "Vietnam"],
    "maize" := ["Malaysia", "Indonesia", "Vietnam"],
    "soybean" := ["China", "Japan", "Vietnam"],
    "mustard" := ["Bangladesh", "Nepal", "Pakistan"],
    "sunflower" := ["Turkey", "Egypt", "Iran"],
    "groundnut" := ["Indonesia", "Vietnam", "Philippines"],
    "coffee" := ["Italy", "Germany", "Russia"]]

  /** `regions.get(crop_name.lower(), ['Multiple regions'])` */
  function ProductionRegions(name: string): (r: seq<string>)
    ensures Lower(name) in Regions ==> r == Regions[Lower(name)] && |r| == 3
    ensures r == ["Multiple regions"] <==> Lower(name) !in Regions
  {
    if Lower(name) in Regions then Regions[Lower(name)] else ["Multiple regions"]
  }

  /** `markets.get(crop_name.lower(), ['Global markets'])` */
  function ExportMarkets(name: string): (r: seq<string>)
    ensures Lower(name) in Markets ==> r == Markets[Lower(name)] && |r| == 3
    ensures r == ["Global markets"] <==> Lower(name) !in Markets
  {
    if Lower(name) in Markets then Markets[Lower(name)] else ["Global markets"]
  }

  /** Both lookups ignore the case of the name and know the same crops. */
  lemma LookupsIgnoreCase(a: string, b: string)
    requires Lower(a) == Lower(b)
    ensures ProductionRegions(a) == ProductionRegions(b)
    ensures ExportMarkets(a) == ExportMarkets(b)
    ensures ProductionRegions(a) == ProductionRegions(Lower(a))
    ensures Regions.Keys == Markets.Keys
  {
    LowerIdempotent(a);
  }

  // ---- month labels ----

  const MonthNames: seq<string> := ["Jan", "Feb", "Mar", "Apr", "May", "Jun",
                                    "Jul", "Aug", "Sep", "Oct", "Nov", "Dec"]

  /** The label of forecast entry i when the current month is `month` (1..12):
      `months[(month + i - 1) % 12]`. */
  function MonthLabel(month: int, i: nat): string
    requires 1 <= month <= 12
  {
    MonthNames[(month + i - 1) % 12]
  }

  /** Entry 0 is the current month. */
  lemma MonthLabelStartsNow(month: int)
    requires 1 <= month <= 12
    ensures MonthLabel(month, 0) == MonthNames[month - 1]
  {
    SmallMod(month - 1);
  }

  /** Each entry is the calendar month after the previous one: entry i + 1
      from `month` is entry i from the month after it, December being
      followed by January. */
  lemma MonthLabelNext(month: int, i: nat)
    requires 1 <= month <= 12
    ensures MonthLabel(month, i + 1) == MonthLabel(if month == 12 then 1 else month + 1, i)
  {
    if month == 12 {
      DecemberThenJanuary(i);
    } else {
      assert month + (i + 1) - 1 == (month + 1) + i - 1;
    }
  }

  lemma DecemberThenJanuary(i: nat)
    ensures MonthLabel(12, i + 1) == MonthLabel(1, i)
  {
    ModTwelveShift(i);
    assert 12 + (i + 1) - 1 == i + 12 && 1 + i - 1 == i;
  }

  /** Labels repeat every twelve entries. */
  lemma MonthLabelPeriodic(month: int, i: nat)
    requires 1 <= month <= 12
    ensures MonthLabel(month, i + 12) == MonthLabel(month, i)
  {
    ModTwelveShift(month + i - 1);
  }

  lemma SmallMod(a: int)
    requires 0 <= a < 12
    ensures a % 12 == a
  {
  }

  /** Adding twelve months lands on the same name. */
  lemma ModTwelveShift(a: nat)
    ensures (a + 12) % 12 == a % 12
  {
    var q, r := a / 12, a % 12;
    assert a + 12 == 12 * (q + 1) + r;
  }

  // ---- the forecast ----

  /** The matched rows as (row label, price) points. */
  function CropPoints(t: Table, name: string): (ps: seq<Point>)
    ensures |ps| == |MatchedIndices(t.rows, name)|
  {
    LabelledPoints(t.rows, MatchedIndices(t.rows, name))
  }

  /** Entry i of a forecast along line l that starts after n observations,
      the last of them priced `last`: the change is taken against the
      previous unrounded price. */
  function ForecastEntry(l: Line, n: nat, last: real, month: int, i: nat): (e: ForecastPoint)
    requires 1 <= month <= 12
    ensures e.month == MonthLabel(month, i)
    ensures -0.5 <= TimesPow10(e.price, 2) - TimesPow10(At(l, (n + i) as real), 2) <= 0.5
    ensures i == 0 ==> (e.change.Finite? <==> last != 0.0)
  {
    RoundToNearest(At(l, (n + i) as real), 2);
    var p := At(l, (n + i) as real);
    var prev := if i == 0 then last else At(l, (n + i - 1) as real);
    ForecastPoint(MonthLabel(month, i), RoundTo(p, 2), RoundFloat(PercentChange(prev, p), 2))
  }

  /** What `get_forecast(crop_name, periods)` returns or raises. */
  function ForecastOf(t: Table, name: string, periods: int, month: int): Outcome<seq<ForecastPoint>>
    requires 1 <= month <= 12
  {
    var ix := MatchedIndices(t.rows, name);
    if "Crop" !in t.columns then Raised(KeyError("Crop"))
    else if ix == [] then Ok([])
    else if "Price" !in t.columns then Raised(KeyError("Price"))
    else if periods <= 0 then Raised(ValueError)
    else
      var l, last := Fit(CropPoints(t, name)), t.rows[ix[|ix| - 1]].price;
      Ok(seq(periods, i requires 0 <= i < periods => ForecastEntry(l, |ix|, last, month, i)))
  }

  /** The outcomes of `get_forecast`: KeyError when the table has no `Crop`
      column, an empty list when no row matches, KeyError when there is no
      `Price` column, ValueError from the prediction when `periods` is not
      positive, and otherwise exactly `periods` entries. */
  lemma ForecastOutcomes(t: Table, name: string, periods: int, month: int)
    requires 1 <= month <= 12
    ensures var r := ForecastOf(t, name, periods, month);
      (r == Raised(KeyError("Crop")) <==> "Crop" !in t.columns) &&
      (r == Ok([]) <==> "Crop" in t.columns && !AnyMatch(t.rows, name)) &&
      (r == Raised(KeyError("Price")) <==> "Crop" in t.columns && "Price" !in t.columns && AnyMatch(t.rows, name)) &&
      (r == Raised(ValueError) <==> "Crop" in t.columns && "Price" in t.columns && periods <= 0 && AnyMatch(t.rows, name)) &&
      (r.Ok? && r.value != [] <==> "Crop" in t.columns && "Price" in t.columns && periods > 0 && AnyMatch(t.rows, name)) &&
      (r.Ok? && r.value != [] ==> |r.value| == periods)
  {
    MatchedIndicesExact(t.rows, name);
  }

  /** Entry i of a successful forecast is the fitted line at N + i, rounded. */
  lemma ForecastPriceAt(t: Table, name: string, periods: int, month: int, i: int)
    requires 1 <= month <= 12 && "Crop" in t.columns && "Price" in t.columns && 0 <= i < periods
    requires MatchedIndices(t.rows, name) != []
    ensures var r, ps := ForecastOf(t, name, periods, month), CropPoints(t, name);
      r.Ok? && |r.value| == periods && r.value[i].price == RoundTo(At(Fit(ps), (|ps| + i) as real), 2)
  {
  }

  /** A successful forecast, entry by entry, along the fitted line. */
  lemma ForecastEntries(t: Table, name: string, periods: int, month: int)
    requires 1 <= month <= 12 && "Crop" in t.columns && "Price" in t.columns && periods > 0
    requires MatchedIndices(t.rows, name) != []
    ensures var ix, ps := MatchedIndices(t.rows, name), CropPoints(t, name);
      ForecastOf(t, name, periods, month) ==
        Ok(seq(periods, i requires 0 <= i < periods => ForecastEntry(Fit(ps), |ps|, t.rows[ix[|ix| - 1]].price, month, i)))
  {
  }

  /** A successful forecast has `periods` entries: entry i is labelled with
      the i-th month from now, its price is the least-squares line through
      (row label, price) of the matched rows taken at x = N + i, and its
      change runs from the last matched price through the unrounded
      predictions. */
  lemma ForecastFollowsLeastSquares(t: Table, name: string, periods: int, month: int, i: int, k: Line)
    requires 1 <= month <= 12 && "Crop" in t.columns && "Price" in t.columns
    requires MatchedIndices(t.rows, name) != [] && 0 <= i < periods
    ensures var ps, r := CropPoints(t, name), ForecastOf(t, name, periods, month);
      var ix := MatchedIndices(t.rows, name);
      |ps| > 0 && r.Ok? && |r.value| == periods &&
      SquaredError(ps, Fit(ps)) <= SquaredError(ps, k) &&
      r.value[i].month == MonthLabel(month, i) &&
      r.value[i].price == RoundTo(At(Fit(ps), (|ps| + i) as real), 2) &&
      r.value[i].change == RoundFloat(PercentChange(
        if i == 0 then t.rows[ix[|ix| - 1]].price else At(Fit(ps), (|ps| + i - 1) as real),
        At(Fit(ps), (|ps| + i) as real)), 2)
  {
    ForecastEntries(t, name, periods, month);
    FitMinimizesSquaredError(CropPoints(t, name), k);
  }

  /** With a single matched row the fitted line is flat, so every forecast
      price is that row's price rounded to 2 places and, for a positive
      price, every change is 0. */
  lemma SingleMatchForecastIsFlat(t: Table, name: string, periods: int, month: int, i: int)
    requires 1 <= month <= 12
    requires "Crop" in t.columns && "Price" in t.columns && 0 <= i < periods
    requires |MatchedIndices(t.rows, name)| == 1
    ensures var r, p := ForecastOf(t, name, periods, month), t.rows[MatchedIndices(t.rows, name)[0]].price;
      r.Ok? && |r.value| == periods && r.value[i].price == RoundTo(p, 2) &&
      (p > 0.0 ==> r.value[i].change == Finite(0.0))
  {
    var ix := MatchedIndices(t.rows, name);
    var ps := CropPoints(t, name);
    assert ps == [ps[0]];
    SinglePointFit(ps[0]);
    var p := t.rows[ix[0]].price;
    assert Fit(ps) == Line(0.0, p);
    var r := ForecastOf(t, name, periods, month).value;
    assert At(Fit(ps), (1 + i) as real) == p;
    if p > 0.0 {
      RoundZero();
    }
  }

  lemma RoundZero()
    ensures RoundTo(0.0, 2) == 0.0
  {
    assert TimesPow10(0.0, 2) == 0.0;
  }

  /** "WHEAT", "wheat" and "Wheat" give the same forecast. */
  lemma ForecastIgnoresCase(t: Table, a: string, b: string, periods: int, month: int)
    requires 1 <= month <= 12 && Lower(a) == Lower(b)
    ensures ForecastOf(t, a, periods, month) == ForecastOf(t, b, periods, month)
  {
    MatchedIndicesIgnoreCase(t.rows, a, b);
  }

  /** When the crop fills exactly the first n rows of the table (n >= 2) and
      their prices lie on a line, the forecast carries that line on: entry i
      is the line at n + i, rounded to 2 places. */
  lemma ForecastContinuesLeadingLine(t: Table, name: string, periods: int, month: int, l: Line, n: nat, i: int)
    requires 1 <= month <= 12 && "Crop" in t.columns && "Price" in t.columns && 0 <= i < periods
    requires 2 <= n <= |t.rows|
    requires forall k :: 0 <= k < |t.rows| ==> (Matches(t.rows[k].crop, name) <==> k < n)
    requires forall k :: 0 <= k < n ==> t.rows[k].price == At(l, k as real)
    ensures var r := ForecastOf(t, name, periods, month);
      r.Ok? && |r.value| == periods && r.value[i].price == RoundTo(At(l, (n + i) as real), 2)
  {
    var ps := CropPoints(t, name);
    LeadingPointsOnLine(t, name, l, n);
    ExactLineIsRecovered(ps, l, 0, 1);
    ForecastPriceAt(t, name, periods, month, i);
  }

  /** The points of a crop on exactly the first n rows are (k, price of row k). */
  lemma LeadingPoints(t: Table, name: string, n: nat)
    requires n <= |t.rows|
    requires forall k :: 0 <= k < |t.rows| ==> (Matches(t.rows[k].crop, name) <==> k < n)
    ensures var ps := CropPoints(t, name);
      |ps| == n && forall k :: 0 <= k < n ==> ps[k] == Point(k as real, t.rows[k].price)
  {
    var ix := MatchedIndices(t.rows, name);
    BlockMatches(t.rows, name, 0, n);
    assert forall k :: 0 <= k < n ==> ix[k] == k;
  }

  /** ... so when their prices lie on l, so do the points, two of them apart. */
  lemma LeadingPointsOnLine(t: Table, name: string, l: Line, n: nat)
    requires 2 <= n <= |t.rows|
    requires forall k :: 0 <= k < |t.rows| ==> (Matches(t.rows[k].crop, name) <==> k < n)
    requires forall k :: 0 <= k < n ==> t.rows[k].price == At(l, k as real)
    ensures var ps := CropPoints(t, name);
      |ps| == n && OnLine(ps, l) && ps[0].x != ps[1].x
  {
    LeadingPoints(t, name, n);
  }

  /** Three Rice rows followed by three Wheat rows priced 100, 110, 120. */
  const OffsetTable := Table({"Crop", "Price"},
    [Row("Rice", "Jan", 50.0), Row("Rice", "Feb", 50.0), Row("Rice", "Mar", 50.0),
     Row("Wheat", "Jan", 100.0), Row("Wheat", "Feb", 110.0), Row("Wheat", "Mar", 120.0)])

  /** The regressor is the row label in the whole table, not 0..N-1: a crop
      on rows 3, 4, 5 priced 100, 110, 120 fits the line 10x + 70, and the
      forecast at x = 3, 4 repeats the observed 100 and 110 instead of going
      on to 130 and 140. */
  lemma ForecastUsesRowLabels()
    ensures var r := ForecastOf(OffsetTable, "Wheat", 2, 1);
      r.Ok? && |r.value| == 2 && r.value[0].price == 100.0 && r.value[1].price == 110.0
  {
    OffsetTableFit();
    ForecastPriceAt(OffsetTable, "Wheat", 2, 1, 0);
    ForecastPriceAt(OffsetTable, "Wheat", 2, 1, 1);
    RoundWhole(100.0);
    RoundWhole(110.0);
  }

  lemma OffsetTableFit()
    ensures var ps := CropPoints(OffsetTable, "Wheat");
      |ps| == 3 && Fit(ps) == Line(10.0, 70.0)
  {
    var ps := CropPoints(OffsetTable, "Wheat");
    OffsetTablePoints();
    assert OnLine(ps, Line(10.0, 70.0));
    ExactLineIsRecovered(ps, Line(10.0, 70.0), 0, 1);
  }

  lemma OffsetTablePoints()
    ensures CropPoints(OffsetTable, "Wheat") == [Point(3.0, 100.0), Point(4.0, 110.0), Point(5.0, 120.0)]
  {
    RiceIsNotWheat();
    BlockMatches(OffsetTable.rows, "Wheat", 3, 6);
  }

  lemma RiceIsNotWheat()
    ensures !Matches("Rice", "Wheat") && Matches("Wheat", "Wheat")
  {
    assert Lower("Rice")[0] == 'r' && Lower("Wheat")[0] == 'w';
  }

  /** Wheat on rows 0, 1, 2 priced 100, 110, 120. */
  const WheatTable := Table({"Crop", "Month", "Price"},
    [Row("Wheat", "Jan", 100.0), Row("Wheat", "Feb", 110.0), Row("Wheat", "Mar", 120.0)])

  /** Wheat on rows 0, 1, 2 priced 100, 110, 120, forecast two periods: prices
      130 and 140, changes 8.33 (from 120) and 7.69 (from 130). */
  lemma ForecastExample(month: int)
    requires 1 <= month <= 12
    ensures ForecastOf(WheatTable, "Wheat", 2, month) ==
      Ok([ForecastPoint(MonthLabel(month, 0), 130.0, Finite(8.33)),
          ForecastPoint(MonthLabel(month, 1), 140.0, Finite(7.69))])
  {
    WheatTableFit();
    ForecastEntries(WheatTable, "Wheat", 2, month);
    ExampleEntries(month);
    var ix := MatchedIndices(WheatTable.rows, "Wheat");
    assert WheatTable.rows[ix[|ix| - 1]].price == 120.0;
    var e := seq(2, i requires 0 <= i < 2 => ForecastEntry(Line(10.0, 100.0), 3, 120.0, month, i));
    assert e == [e[0], e[1]];
  }

  lemma ExampleEntries(month: int)
    requires 1 <= month <= 12
    ensures ForecastEntry(Line(10.0, 100.0), 3, 120.0, month, 0) == ForecastPoint(MonthLabel(month, 0), 130.0, Finite(8.33))
    ensures ForecastEntry(Line(10.0, 100.0), 3, 120.0, month, 1) == ForecastPoint(MonthLabel(month, 1), 140.0, Finite(7.69))
  {
    RoundWhole(130.0);
    RoundExample(120.0, 130.0, 833, 8.33);
    RoundWhole(140.0);
    RoundExample(130.0, 140.0, 769, 7.69);
  }

  lemma WheatTableFit()
    ensures var ix, ps := MatchedIndices(WheatTable.rows, "Wheat"), CropPoints(WheatTable, "Wheat");
      ix == [0, 1, 2] && |ps| == 3 && Fit(ps) == Line(10.0, 100.0)
  {
    var ps := CropPoints(WheatTable, "Wheat");
    WheatTablePoints();
    assert OnLine(ps, Line(10.0, 100.0));
    ExactLineIsRecovered(ps, Line(10.0, 100.0), 0, 1);
  }

  lemma WheatTablePoints()
    ensures MatchedIndices(WheatTable.rows, "Wheat") == [0, 1, 2]
    ensures CropPoints(WheatTable, "Wheat") == [Point(0.0, 100.0), Point(1.0, 110.0), Point(2.0, 120.0)]
  {
    RiceIsNotWheat();
    BlockMatches(WheatTable.rows, "Wheat", 0, 3);
  }

  /** The change from `prev` to `p`, rounded to 2 places, is `n / 100`
      when 100 times the change lies strictly within half a unit of n. */
  lemma RoundExample(prev: real, p: real, n: int, c: real)
    requires prev > 0.0 && c == n as real / 100.0
    requires n as real - 0.5 < (p - prev) / prev * 10000.0 < n as real + 0.5
    ensures RoundFloat(PercentChange(prev, p), 2) == Finite(c)
  {
    assert Pow10(2) == 100.0;
    var q := (p - prev) / prev * 100.0;
    assert PercentChange(prev, p) == Finite(q);
    var y := TimesPow10(q, 2);
    assert y == (p - prev) / prev * 10000.0;
    assert RoundHalfEven(y) == n;
  }

  // ---- fallbacks ----

  /** `_fallback_gainers()` */
  function FallbackGainers(): (r: seq<Record>)
    ensures |r| == TopCount && AllNumbers(r) && Sorted(r, true)
  {
    [Record("Gram", 3920.4, Finite(3.4)),
     Record("Sunflower", 3877.6, Finite(2.9)),
     Record("Jute", 2871.79, Finite(2.5)),
     Record("Rape", 3200.0, Finite(2.1)),
     Record("Bajra", 1561.68, Finite(1.9))]
  }

  /** `_fallback_losers()` */
  function FallbackLosers(): (r: seq<Record>)
    ensures |r| == TopCount && AllNumbers(r) && Sorted(r, false)
  {
    [Record("Wheat", 2040.0, Finite(-2.8)),
     Record("Cotton", 6380.5, Finite(-2.5)),
     Record("Soybean", 4530.3, Finite(-2.2)),
     Record("Maize", 1890.0, Finite(-1.8)),
     Record("Mustard", 5450.75, Finite(-1.5))]
  }

  /** `df.empty or 'Price' not in df.columns or 'Crop' not in df.columns` */
  predicate UsesFallback(t: Table): (b: bool)
    ensures !b ==> t.rows != [] && "Crop" in t.columns && "Price" in t.columns
  {
    Empty(t) || "Price" !in t.columns || "Crop" !in t.columns
  }

  /** What `get_top_gainers(days)` (desc) or `get_top_losers(days)` returns. */
  function RankingOf(t: Table, days: int, desc: bool): (r: seq<Record>)
    ensures |r| <= TopCount && AllNumbers(r) && Sorted(r, desc)
    ensures UsesFallback(t) ==> r == if desc then FallbackGainers() else FallbackLosers()
  {
    if UsesFallback(t) then (if desc then FallbackGainers() else FallbackLosers())
    else
      RankedSelectsBest(t.rows, days, desc);
      RoundedSorted(Ranked(t.rows, days, desc), desc);
      Rounded(Ranked(t.rows, days, desc))
  }

  /** Outside the fallback, entry i is the i-th best defined change rounded to
      3 places, a row of the table; rounded, it ranks before the rounded change
      of every row left out. */
  lemma RankingSelectsBest(t: Table, days: int, desc: bool)
    requires !UsesFallback(t)
    ensures var r, s, c := RankingOf(t, days, desc), Ranked(t.rows, days, desc), Candidates(t.rows, days);
      |r| == |s| && |s| == (if |c| < TopCount then |c| else TopCount) &&
      (forall i :: 0 <= i < |r| ==> r[i] == RoundRecord(s[i])) &&
      (forall i :: 0 <= i < |s| ==> exists k :: 0 <= k < |t.rows| && s[i] == RecordOf(t.rows, k, days)) &&
      forall i, b :: 0 <= i < |r| && b in multiset(c) - multiset(s) ==> Ranks(r[i], RoundRecord(b), desc)
  {
    var s, c := Ranked(t.rows, days, desc), Candidates(t.rows, days);
    RankingIsRounded(t, days, desc);
    RankedSelectsBest(t.rows, days, desc);
    RoundedKeepsRank(s, multiset(c) - multiset(s), desc);
    RankedEntriesAreRows(t.rows, days, desc);
  }

  lemma RankingIsRounded(t: Table, days: int, desc: bool)
    requires !UsesFallback(t)
    ensures RankingOf(t, days, desc) == Rounded(Ranked(t.rows, days, desc))
  {
  }

  // ---- the predictor object ----

  class CropPredictor {
    /** `self.crop_data`; the loaders are not modelled, the table is given. */
    var cropData: Table

    constructor (table: Table)
      ensures cropData == table
    {
      cropData := table;
    }

    /** `get_crop_data(crop_name)` */
    function GetCropData(name: string): (r: Outcome<Option<CropInfo>>)
      reads this
      ensures r == Raised(KeyError("Crop")) <==> "Crop" !in cropData.columns
      ensures r == Ok(None) <==> "Crop" in cropData.columns && !AnyMatch(cropData.rows, name)
      ensures r == Raised(KeyError("Price")) <==>
        "Crop" in cropData.columns && "Price" !in cropData.columns && AnyMatch(cropData.rows, name)
      ensures r.Ok? && r.value.Some? ==>
        var info := r.value.value;
        info.name == name && info.productionRegions == ProductionRegions(name) &&
        info.exportMarkets == ExportMarkets(name) &&
        forall k :: LastMatch(cropData.rows, name, k) ==> info.currentPrice == cropData.rows[k].price
      ensures r.Ok? && r.value.Some? <==>
        "Crop" in cropData.columns && "Price" in cropData.columns && AnyMatch(cropData.rows, name)
    {
      var rows := cropData.rows;
      var ix := MatchedIndices(rows, name);
      MatchedIndicesExact(rows, name);
      if "Crop" !in cropData.columns then Raised(KeyError("Crop"))
      else if ix == [] then Ok(None)
      else if "Price" !in cropData.columns then Raised(KeyError("Price"))
      else
        LastMatchUnique(rows, name, ix[|ix| - 1]);
        Ok(Some(CropInfo(name, rows[ix[|ix| - 1]].price, ProductionRegions(name), ExportMarkets(name))))
    }

    /** `get_forecast(crop_name, periods)`, the current month given. */
    method GetForecast(name: string, periods: int, month: int) returns (r: Outcome<seq<ForecastPoint>>)
      requires 1 <= month <= 12
      ensures r == ForecastOf(cropData, name, periods, month)
    {
      if "Crop" !in cropData.columns {
        return Raised(KeyError("Crop"));
      }
      var ix := MatchedIndices(cropData.rows, name);
      if ix == [] {
        return Ok([]);
      }
      if "Price" !in cropData.columns {
        return Raised(KeyError("Price"));
      }
      var model := Fit(LabelledPoints(cropData.rows, ix));
      if periods <= 0 {
        return Raised(ValueError);
      }
      var last := cropData.rows[ix[|ix| - 1]].price;
      var forecast := ChainForecast(model, |ix|, last, periods, month);
      ForecastEntries(cropData, name, periods, month);
      return Ok(forecast);
    }

    /** `get_top_gainers(days)`: works on a copy, `crop_data` is not changed. */
    method GetTopGainers(days: int) returns (r: seq<Record>)
      ensures r == RankingOf(cropData, days, true)
    {
      r := TopRecords(cropData, days, true);
    }

    /** `get_top_losers(days)`: works on a copy, `crop_data` is not changed. */
    method GetTopLosers(days: int) returns (r: seq<Record>)
      ensures r == RankingOf(cropData, days, false)
    {
      r := TopRecords(cropData, days, false);
    }
  }

  /** The loop of `get_forecast`: predicts `periods` points of `model` after
      n observations, labels each with its month and chains the change from
      `last` through the unrounded predictions. */
  method ChainForecast(model: Line, n: nat, last: real, periods: nat, month: int) returns (forecast: seq<ForecastPoint>)
    requires 1 <= month <= 12
    ensures forecast == seq(periods, i requires 0 <= i < periods => ForecastEntry(model, n, last, month, i))
  {
    var prices := seq(periods, i requires 0 <= i < periods => At(model, (n + i) as real));
    var lastPrice := last;
    forecast := [];
    var i := 0;
    while i < periods
      invariant 0 <= i <= periods
      invariant |forecast| == i
      invariant forall k :: 0 <= k < i ==> forecast[k] == ForecastEntry(model, n, last, month, k)
      invariant lastPrice == if i == 0 then last else prices[i - 1]
    {
      var price := prices[i];
      var change := PercentChange(lastPrice, price);
      forecast := forecast + [ForecastPoint(MonthLabel(month, i), RoundTo(price, 2), RoundFloat(change, 2))];
      lastPrice := price;
      i := i + 1;
    }
    assert forall k :: 0 <= k < periods ==> forecast[k] == ForecastEntry(model, n, last, month, k);
  }

  /** The ranking pipeline shared by both rankings, rounding the records in
      place as the source's loop does. */
  method TopRecords(t: Table, days: int, desc: bool) returns (r: seq<Record>)
    ensures r == RankingOf(t, days, desc)
  {
    if UsesFallback(t) {
      return if desc then FallbackGainers() else FallbackLosers();
    }
    var top := Ranked(t.rows, days, desc);
    var items := new Record[|top|](i requires 0 <= i < |top| => top[i]);
    RoundChanges(items);
    r := items[..];
  }
}
