/** The module-level `get_forecast(crop_name)` of the `ml` package: the
    matched rows' first-half-year month labels become the regressor 1..6, a
    least-squares line is fitted to the prices and taken at months 7..12.
    Every exception (an unreadable file, a missing column, a month outside
    Jan..Jun, which the mapping turns into NaN and the fit rejects) is
    caught and gives four empty lists. */
module LegacyForecast {
  import opened Wrappers
  import opened PriceTable
  import opened LeastSquares
  import opened Numeric

  /** `(months, prices, future_labels, forecast)` */
  datatype ForecastLists = ForecastLists(months: seq<string>, prices: seq<real>,
                                         futureLabels: seq<string>, forecast: seq<real>)

  /** `[], [], [], []` */
  const NoForecast := ForecastLists([], [], [], [])

  const FirstHalf: seq<string> := ["Jan", "Feb", "Mar", "Apr", "May", "Jun"]

  const FutureLabels: seq<string> := ["Jul", "Aug", "Sep", "Oct", "Nov", "Dec"]

  /** `month_mapping` */
  const MonthMapping: map<string, int> := map["Jan" := 1, "Feb" := 2, "Mar" := 3, "Apr" := 4, "May" := 5, "Jun" := 6]

  /** `df['Month'].map(month_mapping)` on one cell: None stands for NaN. */
  function MonthNumber(month: string): (n: Option<int>)
    ensures n.Some? ==> 1 <= n.value <= 6 && FirstHalf[n.value - 1] == month
    ensures n.None? <==> month !in FirstHalf
  {
    if month in MonthMapping then Some(MonthMapping[month]) else None
  }

  /** Month i of the first half year is mapped to i. */
  lemma MonthNumberInverse(i: int)
    requires 1 <= i <= 6
    ensures MonthNumber(FirstHalf[i - 1]) == Some(i)
  {
  }

  /** Every matched month is mapped, so the regressor has no NaN. */
  predicate AllMapped(m: seq<Row>) {
    forall k :: 0 <= k < |m| ==> MonthNumber(m[k].month).Some?
  }

  /** The regression points (month number, price). */
  function MonthPoints(m: seq<Row>): (ps: seq<Point>)
    requires AllMapped(m)
    ensures |ps| == |m|
    ensures forall k :: 0 <= k < |m| ==>
      ps[k].y == m[k].price && 1.0 <= ps[k].x <= 6.0 && ps[k].x == MonthNumber(m[k].month).value as real
  {
    seq(|m|, k requires 0 <= k < |m| => Point(MonthNumber(m[k].month).value as real, m[k].price))
  }

  /** The columns the function reads. */
  predicate HasColumns(t: Table) {
    "Crop" in t.columns && "Month" in t.columns && "Price" in t.columns
  }

  /** `get_forecast(crop_name)`; `csv` is the table `read_csv` gave, or None
      when reading the file raised. */
  function GetForecast(csv: Option<Table>, name: string): (r: ForecastLists)
    ensures r != NoForecast <==>
      csv.Some? && HasColumns(csv.value) && MatchedRows(csv.value.rows, name) != [] &&
      AllMapped(MatchedRows(csv.value.rows, name))
    ensures r != NoForecast ==>
      var m := MatchedRows(csv.value.rows, name);
      |r.months| == |m| && |r.prices| == |m| &&
      (forall k :: 0 <= k < |m| ==> r.months[k] == m[k].month && r.months[k] in FirstHalf && r.prices[k] == m[k].price) &&
      r.futureLabels == FutureLabels && |r.forecast| == 6 &&
      forall i :: 0 <= i < 6 ==> r.forecast[i] == RoundTo(At(Fit(MonthPoints(m)), (7 + i) as real), 2)
  {
    if csv.None? || "Crop" !in csv.value.columns then NoForecast
    else
      var m := MatchedRows(csv.value.rows, name);
      if m == [] then NoForecast
      else if "Month" !in csv.value.columns || !AllMapped(m) || "Price" !in csv.value.columns then NoForecast
      else
        var model := Fit(MonthPoints(m));
        ForecastLists(seq(|m|, k requires 0 <= k < |m| => m[k].month),
                      seq(|m|, k requires 0 <= k < |m| => m[k].price),
                      FutureLabels,
                      seq(6, i requires 0 <= i < 6 => RoundTo(At(model, (7 + i) as real), 2)))
  }

  /** The six forecasts come from the least-squares line through (month
      number, price): no line has a smaller squared error. */
  lemma ForecastIsLeastSquares(csv: Option<Table>, name: string, l: Line)
    requires GetForecast(csv, name) != NoForecast
    ensures var ps := MonthPoints(MatchedRows(csv.value.rows, name));
      SquaredError(ps, Fit(ps)) <= SquaredError(ps, l)
  {
    FitMinimizesSquaredError(MonthPoints(MatchedRows(csv.value.rows, name)), l);
  }

  /** When the observations lie on a line and span at least two distinct
      months, the forecast is that line at months 7..12, rounded to 2 places. */
  lemma ForecastContinuesLine(csv: Option<Table>, name: string, l: Line, a: int, b: int, i: int)
    requires GetForecast(csv, name) != NoForecast && 0 <= i < 6
    requires var m := MatchedRows(csv.value.rows, name);
      OnLine(MonthPoints(m), l) && 0 <= a < |m| && 0 <= b < |m| && m[a].month != m[b].month
    ensures GetForecast(csv, name).forecast[i] == RoundTo(At(l, (7 + i) as real), 2)
  {
    var ps := MonthPoints(MatchedRows(csv.value.rows, name));
    assert Fit(ps) == l by {
      assert ps[a].x != ps[b].x;
      ExactLineIsRecovered(ps, l, a, b);
    }
  }

  /** The whole forecast list along such a line. */
  lemma ForecastAlongLine(csv: Option<Table>, name: string, l: Line, a: int, b: int)
    requires GetForecast(csv, name) != NoForecast
    requires var m := MatchedRows(csv.value.rows, name);
      OnLine(MonthPoints(m), l) && 0 <= a < |m| && 0 <= b < |m| && m[a].month != m[b].month
    ensures GetForecast(csv, name).forecast == seq(6, i requires 0 <= i < 6 => RoundTo(At(l, (7 + i) as real), 2))
  {
    var ps := MonthPoints(MatchedRows(csv.value.rows, name));
    assert Fit(ps) == l by {
      assert ps[a].x != ps[b].x;
      ExactLineIsRecovered(ps, l, a, b);
    }
  }

  /** Observations from a single month (one row, say) give a flat forecast
      at the mean price of the matched rows, rounded to 2 places. */
  lemma SingleMonthForecastIsFlat(csv: Option<Table>, name: string, i: int)
    requires GetForecast(csv, name) != NoForecast && 0 <= i < 6
    requires var m := MatchedRows(csv.value.rows, name);
      forall k :: 0 <= k < |m| ==> m[k].month == m[0].month
    ensures var ps := MonthPoints(MatchedRows(csv.value.rows, name));
      GetForecast(csv, name).forecast[i] == RoundTo(MeanY(ps), 2)
  {
    var ps := MonthPoints(MatchedRows(csv.value.rows, name));
    assert Fit(ps) == Line(0.0, MeanY(ps)) by {
      SameXFitIsFlat(ps, ps[0].x);
    }
  }

  /** Names that differ only in case give the same result. */
  lemma ForecastIgnoresCase(csv: Option<Table>, a: string, b: string)
    requires Lower(a) == Lower(b)
    ensures GetForecast(csv, a) == GetForecast(csv, b)
  {
    if csv.Some? {
      MatchedIndicesIgnoreCase(csv.value.rows, a, b);
    }
  }

  /** Rows priced 100, 110, 120 in Jan, Feb, Mar. */
  predicate SpringRows(m: seq<Row>) {
    |m| == 3 && m[0].month == "Jan" && m[1].month == "Feb" && m[2].month == "Mar" &&
    m[0].price == 100.0 && m[1].price == 110.0 && m[2].price == 120.0
  }

  /** Matched rows priced 100, 110, 120 in Jan, Feb, Mar lie on the line
      10x + 90, so the forecast is 160, 170, ..., 210. */
  lemma LegacyExample(csv: Option<Table>, name: string)
    requires csv.Some? && HasColumns(csv.value) && SpringRows(MatchedRows(csv.value.rows, name))
    ensures GetForecast(csv, name) ==
      ForecastLists(["Jan", "Feb", "Mar"], [100.0, 110.0, 120.0], FutureLabels,
                    [160.0, 170.0, 180.0, 190.0, 200.0, 210.0])
  {
    var m := MatchedRows(csv.value.rows, name);
    SpringRowsOnLine(m);
    SpringObserved(csv, name);
    ForecastAlongLine(csv, name, Line(10.0, 90.0), 0, 1);
    ExampleLine();
  }

  lemma SpringRowsOnLine(m: seq<Row>)
    requires SpringRows(m)
    ensures AllMapped(m) && OnLine(MonthPoints(m), Line(10.0, 90.0))
  {
    assert MonthNumber("Jan") == Some(1) && MonthNumber("Feb") == Some(2) && MonthNumber("Mar") == Some(3);
  }

  lemma SpringObserved(csv: Option<Table>, name: string)
    requires csv.Some? && HasColumns(csv.value) && SpringRows(MatchedRows(csv.value.rows, name))
    requires AllMapped(MatchedRows(csv.value.rows, name))
    ensures var r := GetForecast(csv, name);
      r != NoForecast && r.months == ["Jan", "Feb", "Mar"] && r.prices == [100.0, 110.0, 120.0]
  {
    var m := MatchedRows(csv.value.rows, name);
    var r := GetForecast(csv, name);
    assert r != NoForecast;
    assert r.months[0] == m[0].month && r.months[1] == m[1].month && r.months[2] == m[2].month;
    assert r.prices[0] == m[0].price && r.prices[1] == m[1].price && r.prices[2] == m[2].price;
  }

  lemma ExampleLine()
    ensures seq(6, i requires 0 <= i < 6 => RoundTo(At(Line(10.0, 90.0), (7 + i) as real), 2)) ==
      [160.0, 170.0, 180.0, 190.0, 200.0, 210.0]
  {
    var f := seq(6, i requires 0 <= i < 6 => RoundTo(At(Line(10.0, 90.0), (7 + i) as real), 2));
    forall i | 0 <= i < 6 ensures f[i] == (160 + 10 * i) as real {
      RoundWhole((160 + 10 * i) as real);
    }
  }

  /** Points that share one x are fitted by the horizontal line through their mean y. */
  lemma SameXFitIsFlat(ps: seq<Point>, u: real)
    requires |ps| > 0 && forall k :: 0 <= k < |ps| ==> ps[k].x == u
    ensures Fit(ps) == Line(0.0, MeanY(ps))
  {
    SameXNoSpread(ps, u);
    assert MeanX(ps) == u by {
      SameXSum(ps, u);
      MeansTimesCount(ps);
    }
    NoSpreadFitIsFlat(ps);
  }

  /** Points that share one x sum to |ps| times it. */
  lemma {:induction false} SameXSum(ps: seq<Point>, u: real)
    requires forall k :: 0 <= k < |ps| ==> ps[k].x == u
    ensures SumX(ps) == |ps| as real * u
  {
    if ps != [] {
      SameXSum(ps[1..], u);
      assert ps[0].x == u;
    }
  }

  /** Points that share one x have no spread around it. */
  lemma {:induction false} SameXNoSpread(ps: seq<Point>, u: real)
    requires forall k :: 0 <= k < |ps| ==> ps[k].x == u
    ensures Cxx(ps, u) == 0.0
  {
    if ps != [] {
      SameXNoSpread(ps[1..], u);
      assert ps[0].x - u == 0.0;
      MulEq(ps[0].x - u, Id(ps[0].x - u), 0.0);
    }
  }
}
