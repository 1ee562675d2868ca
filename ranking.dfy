/** The top-gainers / top-losers ranking: each row's percent change against
    the row `days` rows earlier among the rows of the same crop, rows without
    such a change dropped, the rest sorted by change and the first five kept,
    each change finally rounded to 3 places. */
module Ranking {
  import opened Numeric
  import opened PriceTable

  /** One output record, `{'name': ..., 'price': ..., 'change': ...}`. */
  datatype Record = Record(name: string, price: real, change: Float)

  // ---- the per-row change ----

  /** The prices of the rows whose crop is exactly `crop`, in table order
      (`groupby('Crop')` compares names exactly, unlike the lookups). */
  function GroupPrices(rows: seq<Row>, crop: string): (p: seq<real>)
    ensures |p| <= |rows|
    ensures |p| == 0 <==> forall i :: 0 <= i < |rows| ==> rows[i].crop != crop
    decreases |rows|
  {
    if rows == [] then []
    else
      var n := |rows| - 1;
      assert forall i :: 0 <= i < n ==> rows[..n][i] == rows[i];
      GroupPrices(rows[..n], crop) + (if rows[n].crop == crop then [rows[n].price] else [])
  }

  /** The position of row k inside its crop's group. */
  function GroupPosition(rows: seq<Row>, k: int): nat
    requires 0 <= k < |rows|
  {
    |GroupPrices(rows[..k], rows[k].crop)|
  }

  /** The prices of a prefix of the table are a prefix of the group. */
  lemma {:induction false} GroupPricesPrefix(rows: seq<Row>, j: int, crop: string)
    requires 0 <= j <= |rows|
    ensures GroupPrices(rows[..j], crop) <= GroupPrices(rows, crop)
    decreases |rows|
  {
    if j < |rows| {
      var n := |rows| - 1;
      assert rows[..n][..j] == rows[..j];
      GroupPricesPrefix(rows[..n], j, crop);
    } else {
      assert rows[..j] == rows;
    }
  }

  /** A row's own price sits at its group position. */
  lemma {:induction false} GroupPositionPrice(rows: seq<Row>, k: int)
    requires 0 <= k < |rows|
    ensures GroupPosition(rows, k) < |GroupPrices(rows, rows[k].crop)|
    ensures GroupPrices(rows, rows[k].crop)[GroupPosition(rows, k)] == rows[k].price
  {
    var crop := rows[k].crop;
    assert rows[..k + 1][..k] == rows[..k];
    assert GroupPrices(rows[..k + 1], crop) == GroupPrices(rows[..k], crop) + [rows[k].price];
    GroupPricesPrefix(rows, k + 1, crop);
  }

  /** Every entry of a crop's group is the price of a row with that exact
      crop name sitting at that group position; with `GroupPositionPrice`,
      the group is exactly those rows' prices in table order. */
  lemma {:induction false} GroupPricesAreRows(rows: seq<Row>, crop: string)
    ensures var p := GroupPrices(rows, crop);
      forall j :: 0 <= j < |p| ==> GroupEntryFrom(rows, crop, j)
    decreases |rows|
  {
    if rows != [] {
      var n := |rows| - 1;
      var p, q := GroupPrices(rows, crop), GroupPrices(rows[..n], crop);
      GroupPricesAreRows(rows[..n], crop);
      forall j | 0 <= j < |p| ensures GroupEntryFrom(rows, crop, j) {
        if j < |q| {
          GroupEntryExtends(rows, crop, j);
        } else {
          GroupEntryLast(rows, crop);
        }
      }
    }
  }

  /** Group entry j is the price of a row with that crop at group position j. */
  predicate GroupEntryFrom(rows: seq<Row>, crop: string, j: int) {
    var p := GroupPrices(rows, crop);
    0 <= j < |p| &&
    exists k :: 0 <= k < |rows| && rows[k].crop == crop && GroupPosition(rows, k) == j && p[j] == rows[k].price
  }

  lemma GroupEntryExtends(rows: seq<Row>, crop: string, j: int)
    requires rows != [] && GroupEntryFrom(rows[..|rows| - 1], crop, j)
    ensures GroupEntryFrom(rows, crop, j)
  {
    var n := |rows| - 1;
    var init := rows[..n];
    var k :| 0 <= k < n && init[k].crop == crop && GroupPosition(init, k) == j && GroupPrices(init, crop)[j] == init[k].price;
    assert init[..k] == rows[..k];
    GroupPricesPrefix(rows, n, crop);
  }

  lemma GroupEntryLast(rows: seq<Row>, crop: string)
    requires rows != [] && |GroupPrices(rows, crop)| > |GroupPrices(rows[..|rows| - 1], crop)|
    ensures GroupEntryFrom(rows, crop, |GroupPrices(rows[..|rows| - 1], crop)|)
  {
    var n := |rows| - 1;
    GroupPositionPrice(rows, n);
  }

  /** `pct_change(periods=days) * 100` at position j of a group: NaN when
      position j - days does not exist (also for days <= 0, where pandas
      shifts the other way). */
  function LagChange(p: seq<real>, j: int, days: int): (c: Float)
    requires 0 <= j < |p|
    ensures !(0 <= j - days < |p|) ==> c == NaN
    ensures 0 <= j - days < |p| ==> c == PercentChange(p[j - days], p[j])
    ensures c.NaN? <==> !(0 <= j - days < |p|) || (p[j - days] == 0.0 && p[j] == 0.0)
  {
    if 0 <= j - days < |p| then
      PctChange(p[j - days], p[j])
    else NaN
  }

  /** Row k's change within its own crop. */
  function RowChange(rows: seq<Row>, k: int, days: int): (c: Float)
    requires 0 <= k < |rows|
    ensures IsNumber(c) ==> 0 <= GroupPosition(rows, k) - days < |GroupPrices(rows, rows[k].crop)|
  {
    GroupPositionPrice(rows, k);
    LagChange(GroupPrices(rows, rows[k].crop), GroupPosition(rows, k), days)
  }

  /** Row k's change, computed from its own price and its group's prices:
      defined exactly when the crop has a row `days` positions earlier. */
  lemma RowChangeIsLagged(rows: seq<Row>, k: int, days: int)
    requires 0 <= k < |rows|
    ensures var p, j := GroupPrices(rows, rows[k].crop), GroupPosition(rows, k);
      j < |p| && p[j] == rows[k].price &&
      (0 <= j - days < |p| ==> RowChange(rows, k, days) == PercentChange(p[j - days], rows[k].price)) &&
      (!(0 <= j - days < |p|) ==> RowChange(rows, k, days) == NaN)
  {
    GroupPositionPrice(rows, k);
  }

  function RecordOf(rows: seq<Row>, k: int, days: int): Record
    requires 0 <= k < |rows|
  {
    Record(rows[k].crop, rows[k].price, RowChange(rows, k, days))
  }

  predicate AllNumbers(s: seq<Record>) {
    forall i :: 0 <= i < |s| ==> IsNumber(s[i].change)
  }

  /** One record per row, in table order. */
  function Records(rows: seq<Row>, days: int): (rs: seq<Record>)
    ensures |rs| == |rows|
    ensures forall k :: 0 <= k < |rows| ==> rs[k] == RecordOf(rows, k, days)
  {
    seq(|rows|, k requires 0 <= k < |rows| => RecordOf(rows, k, days))
  }

  /** `dropna()`: the records whose change is defined, in order. */
  function DropUndefined(rs: seq<Record>): (c: seq<Record>)
    ensures |c| <= |rs| && AllNumbers(c)
    ensures forall i :: 0 <= i < |rs| && IsNumber(rs[i].change) ==> rs[i] in c
    ensures forall x :: x in c ==> x in rs
  {
    if rs == [] then []
    else
      var n := |rs| - 1;
      assert rs == rs[..n] + [rs[n]];
      assert forall i :: 0 <= i < n ==> rs[..n][i] == rs[i];
      var init := DropUndefined(rs[..n]);
      if IsNumber(rs[n].change) then init + [rs[n]] else init
  }

  /** `dropna` keeps every record with a defined change as often as it
      occurs, and no other. */
  lemma {:induction false} DropUndefinedCounts(rs: seq<Record>)
    ensures var c := DropUndefined(rs);
      (forall x: Record :: IsNumber(x.change) ==> multiset(c)[x] == multiset(rs)[x]) &&
      forall x: Record :: !IsNumber(x.change) ==> x !in c
  {
    if rs != [] {
      var n := |rs| - 1;
      assert rs == rs[..n] + [rs[n]];
      DropUndefinedCounts(rs[..n]);
    }
  }

  /** The records of the rows whose change is defined, in table order. */
  function Candidates(rows: seq<Row>, days: int): (c: seq<Record>)
    ensures AllNumbers(c)
  {
    DropUndefined(Records(rows, days))
  }

  /** A candidate is a row's record, and every row whose change is defined
      gives one. */
  lemma CandidatesAreRows(rows: seq<Row>, days: int)
    ensures forall x :: x in Candidates(rows, days) ==> exists k :: 0 <= k < |rows| && x == RecordOf(rows, k, days)
    ensures forall k :: 0 <= k < |rows| && IsNumber(RowChange(rows, k, days)) ==> RecordOf(rows, k, days) in Candidates(rows, days)
  {
    var rs := Records(rows, days);
    forall x | x in Candidates(rows, days) ensures exists k :: 0 <= k < |rows| && x == RecordOf(rows, k, days) {
      var k :| 0 <= k < |rs| && rs[k] == x;
    }
    forall k | 0 <= k < |rows| && IsNumber(RowChange(rows, k, days)) ensures RecordOf(rows, k, days) in Candidates(rows, days) {
      assert rs[k] == RecordOf(rows, k, days);
    }
  }

  // ---- ordering ----

  /** a may stand before b: with desc, a's change is the larger. */
  predicate Ranks(a: Record, b: Record, desc: bool) {
    if desc then Le(b.change, a.change) else Le(a.change, b.change)
  }

  predicate Sorted(s: seq<Record>, desc: bool) {
    forall i, j :: 0 <= i < j < |s| ==> Ranks(s[i], s[j], desc)
  }

  lemma RanksTotal(a: Record, b: Record, desc: bool)
    requires IsNumber(a.change) && IsNumber(b.change)
    ensures Ranks(a, b, desc) || Ranks(b, a, desc)
  {
    LeTotal(a.change, b.change);
  }

  lemma RanksTransitive(a: Record, b: Record, c: Record, desc: bool)
    requires Ranks(a, b, desc) && Ranks(b, c, desc)
    ensures Ranks(a, c, desc)
  {
    if desc {
      LeTransitive(c.change, b.change, a.change);
    } else {
      LeTransitive(a.change, b.change, c.change);
    }
  }

  /** Inserts x behind every element it does not strictly precede. */
  function Insert(x: Record, s: seq<Record>, desc: bool): seq<Record> {
    if s == [] then [x]
    else if !Ranks(s[0], x, desc) then [x] + s
    else [s[0]] + Insert(x, s[1..], desc)
  }

  /** A record that ranks before every element of a sorted sequence can lead it. */
  lemma SortedCons(a: Record, s: seq<Record>, desc: bool)
    requires Sorted(s, desc) && forall j :: 0 <= j < |s| ==> Ranks(a, s[j], desc)
    ensures Sorted([a] + s, desc)
  {
    var r := [a] + s;
    forall i, j | 0 <= i < j < |r| ensures Ranks(r[i], r[j], desc) {
      if i > 0 {
        assert r[i] == s[i - 1] && r[j] == s[j - 1];
      }
    }
  }

  /** Every element of r is x or an element of t, so whatever ranks before
      x and before all of t ranks before all of r. */
  lemma RanksAll(a: Record, x: Record, t: seq<Record>, r: seq<Record>, desc: bool)
    requires multiset(r) == multiset(t) + multiset{x}
    requires Ranks(a, x, desc) && forall j :: 0 <= j < |t| ==> Ranks(a, t[j], desc)
    ensures forall j :: 0 <= j < |r| ==> Ranks(a, r[j], desc)
  {
    forall j | 0 <= j < |r| ensures Ranks(a, r[j], desc) {
      assert r[j] in multiset(r);
      if r[j] != x {
        assert r[j] in multiset(t);
        var k :| 0 <= k < |t| && t[k] == r[j];
      }
    }
  }

  lemma {:induction false} InsertSorted(x: Record, s: seq<Record>, desc: bool)
    requires IsNumber(x.change) && AllNumbers(s) && Sorted(s, desc)
    ensures Sorted(Insert(x, s, desc), desc)
    ensures multiset(Insert(x, s, desc)) == multiset(s) + multiset{x}
    ensures AllNumbers(Insert(x, s, desc))
  {
    if s == [] {
    } else if !Ranks(s[0], x, desc) {
      InsertFront(x, s, desc);
    } else {
      InsertSorted(x, s[1..], desc);
      InsertBehind(x, s, Insert(x, s[1..], desc), desc);
    }
  }

  /** x ranks before the head of s, so it leads. */
  lemma InsertFront(x: Record, s: seq<Record>, desc: bool)
    requires IsNumber(x.change) && AllNumbers(s) && Sorted(s, desc)
    requires s != [] && !Ranks(s[0], x, desc)
    ensures Sorted([x] + s, desc) && AllNumbers([x] + s)
    ensures multiset([x] + s) == multiset(s) + multiset{x}
  {
    RanksTotal(x, s[0], desc);
    forall j | 0 < j < |s| ensures Ranks(x, s[j], desc) {
      RanksTransitive(x, s[0], s[j], desc);
    }
    SortedCons(x, s, desc);
  }

  /** The head of s ranks before x, so it stays in front of r, the insertion
      of x into the rest. */
  lemma InsertBehind(x: Record, s: seq<Record>, r: seq<Record>, desc: bool)
    requires s != [] && Sorted(s, desc) && Ranks(s[0], x, desc) && AllNumbers(s)
    requires Sorted(r, desc) && multiset(r) == multiset(s[1..]) + multiset{x} && AllNumbers(r)
    ensures Sorted([s[0]] + r, desc) && AllNumbers([s[0]] + r)
    ensures multiset([s[0]] + r) == multiset(s) + multiset{x}
  {
    var t := s[1..];
    assert s == [s[0]] + t;
    RanksAll(s[0], x, t, r, desc);
    SortedCons(s[0], r, desc);
  }

  /** `sort_values('price_change', ascending = !desc)`, written as a stable
      insertion sort. */
  function Sort(s: seq<Record>, desc: bool): (r: seq<Record>)
    requires AllNumbers(s)
    ensures Sorted(r, desc) && AllNumbers(r)
    ensures multiset(r) == multiset(s)
  {
    if s == [] then []
    else
      var n := |s| - 1;
      assert s == s[..n] + [s[n]];
      var t := Sort(s[..n], desc);
      InsertSorted(s[n], t, desc);
      Insert(s[n], t, desc)
  }

  const TopCount := 5

  /** `head(5)` */
  function Top(s: seq<Record>): (r: seq<Record>)
    ensures |r| == if |s| < TopCount then |s| else TopCount
    ensures r <= s
  {
    if |s| < TopCount then s else s[..TopCount]
  }

  /** The first records of a sorted sequence rank before every record left
      behind. */
  lemma TopIsBest(s: seq<Record>, desc: bool)
    requires Sorted(s, desc)
    ensures forall a, b :: a in Top(s) && b in multiset(s) - multiset(Top(s)) ==> Ranks(a, b, desc)
  {
    var t := Top(s);
    var rest := s[|t|..];
    assert multiset(s) - multiset(t) == multiset(rest) by {
      assert s == t + rest;
    }
    forall a, b | a in t && b in rest ensures Ranks(a, b, desc) {
      PrefixRanksSuffix(s, |t|, a, b, desc);
    }
  }

  /** In a sorted sequence, an element of s[..n] ranks before one of s[n..]. */
  lemma PrefixRanksSuffix(s: seq<Record>, n: nat, a: Record, b: Record, desc: bool)
    requires Sorted(s, desc) && n <= |s| && a in s[..n] && b in s[n..]
    ensures Ranks(a, b, desc)
  {
    var i :| 0 <= i < n && s[..n][i] == a;
    var j :| 0 <= j < |s| - n && s[n..][j] == b;
    assert s[i] == a && s[n + j] == b;
  }

  /** The ranking before rounding: the defined changes sorted, the first five. */
  function Ranked(rows: seq<Row>, days: int, desc: bool): (r: seq<Record>)
    ensures |r| <= TopCount && Sorted(r, desc) && AllNumbers(r)
    ensures multiset(r) <= multiset(Candidates(rows, days))
  {
    var c := Candidates(rows, days);
    SortedTopIsBest(c, Sort(c, desc), desc);
    Top(Sort(c, desc))
  }

  /** The ranking keeps at most five of the defined changes, in order, and
      every change it keeps ranks before every defined change it leaves out. */
  lemma RankedSelectsBest(rows: seq<Row>, days: int, desc: bool)
    ensures var c, t := Candidates(rows, days), Ranked(rows, days, desc);
      |t| == (if |c| < TopCount then |c| else TopCount) &&
      multiset(t) <= multiset(c) && Sorted(t, desc) && AllNumbers(t) &&
      forall a, b :: a in t && b in multiset(c) - multiset(t) ==> Ranks(a, b, desc)
  {
    var c := Candidates(rows, days);
    SortedTopIsBest(c, Sort(c, desc), desc);
  }

  /** The first five of any sorted arrangement of c. */
  lemma SortedTopIsBest(c: seq<Record>, s: seq<Record>, desc: bool)
    requires AllNumbers(s) && Sorted(s, desc) && multiset(s) == multiset(c)
    ensures var t := Top(s);
      |t| == (if |c| < TopCount then |c| else TopCount) &&
      multiset(t) <= multiset(c) && Sorted(t, desc) && AllNumbers(t) &&
      forall a, b :: a in t && b in multiset(c) - multiset(t) ==> Ranks(a, b, desc)
  {
    var t := Top(s);
    assert |s| == |c| by {
      assert |multiset(s)| == |multiset(c)|;
    }
    assert multiset(t) <= multiset(c) by {
      assert s == t + s[|t|..];
      assert multiset(s) == multiset(t) + multiset(s[|t|..]);
    }
    assert Sorted(t, desc) && AllNumbers(t) by {
      assert forall i :: 0 <= i < |t| ==> t[i] == s[i];
    }
    TopIsBest(s, desc);
  }

  /** A kept record is a row of the table with its defined change; a row whose
      change is defined and is not kept ranks behind every kept one. */
  lemma RankedAreRows(rows: seq<Row>, days: int, desc: bool)
    ensures forall x :: x in Ranked(rows, days, desc) ==>
      exists k :: 0 <= k < |rows| && x == RecordOf(rows, k, days) && IsNumber(x.change)
  {
    var c := Candidates(rows, days);
    var t := Ranked(rows, days, desc);
    RankedSelectsBest(rows, days, desc);
    CandidatesAreRows(rows, days);
    forall x | x in t
      ensures exists k :: 0 <= k < |rows| && x == RecordOf(rows, k, days) && IsNumber(x.change)
    {
      assert x in multiset(t);
      assert x in c;
    }
  }

  /** The same, entry by entry. */
  lemma RankedEntriesAreRows(rows: seq<Row>, days: int, desc: bool)
    ensures var s := Ranked(rows, days, desc);
      forall i :: 0 <= i < |s| ==> exists k :: 0 <= k < |rows| && s[i] == RecordOf(rows, k, days)
  {
    var s := Ranked(rows, days, desc);
    RankedAreRows(rows, days, desc);
    forall i | 0 <= i < |s| ensures exists k :: 0 <= k < |rows| && s[i] == RecordOf(rows, k, days) {
      assert s[i] in s;
    }
  }

  // ---- rounding ----

  /** `item['change'] = round(item['change'], 3)` */
  function RoundRecord(x: Record): (y: Record)
    ensures y.name == x.name && y.price == x.price
    ensures y.change == RoundFloat(x.change, 3)
    ensures IsNumber(y.change) <==> IsNumber(x.change)
  {
    x.(change := RoundFloat(x.change, 3))
  }

  function Rounded(s: seq<Record>): (r: seq<Record>)
    ensures |r| == |s|
    ensures forall k :: 0 <= k < |s| ==> r[k] == RoundRecord(s[k])
  {
    seq(|s|, k requires 0 <= k < |s| => RoundRecord(s[k]))
  }

  /** Rounding is monotone, so the rounded ranking is still in order. */
  lemma RoundedSorted(s: seq<Record>, desc: bool)
    requires Sorted(s, desc)
    ensures Sorted(Rounded(s), desc)
  {
    var r := Rounded(s);
    forall i, j | 0 <= i < j < |r| ensures Ranks(r[i], r[j], desc) {
      if desc {
        RoundFloatMonotone(s[j].change, s[i].change, 3);
      } else {
        RoundFloatMonotone(s[i].change, s[j].change, 3);
      }
    }
  }

  /** Records that rank before every record of `rest` still do once all
      changes are rounded. */
  lemma RoundedKeepsRank(s: seq<Record>, rest: multiset<Record>, desc: bool)
    requires forall a, b :: a in s && b in rest ==> Ranks(a, b, desc)
    ensures forall i, b :: 0 <= i < |s| && b in rest ==> Ranks(Rounded(s)[i], RoundRecord(b), desc)
  {
    forall i, b | 0 <= i < |s| && b in rest ensures Ranks(Rounded(s)[i], RoundRecord(b), desc) {
      assert s[i] in s;
      if desc {
        RoundFloatMonotone(b.change, s[i].change, 3);
      } else {
        RoundFloatMonotone(s[i].change, b.change, 3);
      }
    }
  }

  /** The loop over the result records, rounding each change in place. */
  method RoundChanges(a: array<Record>)
    modifies a
    ensures a[..] == Rounded(old(a[..]))
  {
    var i := 0;
    while i < a.Length
      invariant 0 <= i <= a.Length
      invariant forall k :: 0 <= k < i ==> a[k] == RoundRecord(old(a[k]))
      invariant forall k :: i <= k < a.Length ==> a[k] == old(a[k])
    {
      a[i] := RoundRecord(a[i]);
      i := i + 1;
    }
  }
}
