/** The crop price table the predictor queries: the columns it was loaded
    with and its rows in file order. `read_csv` gives the table its default
    index, so a row's label is its position in the whole table. */
module PriceTable {
  import LeastSquares

  /** One row: the `Crop`, `Month` and `Price` cells. */
  datatype Row = Row(crop: string, month: string, price: real)

  /** The column names present and the rows. A column missing from
      `columns` makes `frame[column]` raise KeyError. */
  datatype Table = Table(columns: set<string>, rows: seq<Row>)

  /** pandas `DataFrame.empty`: no rows or no columns. */
  predicate Empty(t: Table) {
    t.rows == [] || t.columns == {}
  }

  /** Lower-casing of one character (ASCII letters only). */
  function LowerChar(c: char): (d: char)
    ensures !('A' <= d <= 'Z')
    ensures 'a' <= d <= 'z' <==> 'A' <= c <= 'Z' || 'a' <= c <= 'z'
    ensures 'A' <= c <= 'Z' ==> d as int == c as int + 32
    ensures !('A' <= c <= 'Z') ==> d == c
  {
    if 'A' <= c <= 'Z' then (c as int - 'A' as int + 'a' as int) as char else c
  }

  /** `s.lower()` */
  function Lower(s: string): (r: string)
    ensures |r| == |s|
    ensures forall i :: 0 <= i < |s| ==> r[i] == LowerChar(s[i])
  {
    seq(|s|, i requires 0 <= i < |s| => LowerChar(s[i]))
  }

  lemma LowerIdempotent(s: string)
    ensures Lower(Lower(s)) == Lower(s)
  {
  }

  /** `frame['Crop'].str.lower() == name.lower()` for one cell. */
  predicate Matches(crop: string, name: string): (b: bool)
    ensures b ==> |crop| == |name| && forall i :: 0 <= i < |crop| ==> LowerChar(crop[i]) == LowerChar(name[i])
  {
    Lower(crop) == Lower(name)
  }

  /** Matching ignores the case of the name asked for. */
  lemma MatchIgnoresCase(crop: string, name: string)
    ensures Matches(crop, name) <==> Matches(crop, Lower(name))
    ensures Matches(crop, crop)
  {
    LowerIdempotent(name);
  }

  /** The labels of the rows whose crop matches `name`, in table order:
      the index of the filtered frame. */
  function MatchedIndices(rows: seq<Row>, name: string): (ix: seq<nat>)
    ensures forall k :: 0 <= k < |ix| ==> ix[k] < |rows| && Matches(rows[ix[k]].crop, name)
    ensures forall k, k' :: 0 <= k < k' < |ix| ==> ix[k] < ix[k']
    ensures forall i :: 0 <= i < |rows| && Matches(rows[i].crop, name) ==> i in ix
    decreases |rows|
  {
    if rows == [] then []
    else
      var n := |rows| - 1;
      var init := MatchedIndices(rows[..n], name);
      assert forall k :: 0 <= k < |init| ==> rows[..n][init[k]] == rows[init[k]];
      assert forall i :: 0 <= i < n ==> rows[..n][i] == rows[i];
      if Matches(rows[n].crop, name) then init + [n] else init
  }

  /** Some row's crop matches the name. */
  predicate AnyMatch(rows: seq<Row>, name: string) {
    exists i :: 0 <= i < |rows| && Matches(rows[i].crop, name)
  }

  /** Row k is the last row of the table whose crop matches the name. */
  predicate LastMatch(rows: seq<Row>, name: string, k: int) {
    0 <= k < |rows| && Matches(rows[k].crop, name) &&
    forall i :: k < i < |rows| ==> !Matches(rows[i].crop, name)
  }

  /** At most one row is the last match. */
  lemma LastMatchUnique(rows: seq<Row>, name: string, k: int)
    requires LastMatch(rows, name, k)
    ensures forall k' :: LastMatch(rows, name, k') ==> k' == k
  {
  }

  /** Exactly the matching rows are selected, none exactly when no row
      matches, and the last label is the last matching row of the table. */
  lemma {:induction false} MatchedIndicesExact(rows: seq<Row>, name: string)
    ensures forall i :: i in MatchedIndices(rows, name) <==> 0 <= i < |rows| && Matches(rows[i].crop, name)
    ensures MatchedIndices(rows, name) == [] <==> !AnyMatch(rows, name)
    ensures MatchedIndices(rows, name) != [] ==>
      LastMatch(rows, name, MatchedIndices(rows, name)[|MatchedIndices(rows, name)| - 1])
  {
    var ix := MatchedIndices(rows, name);
    if ix != [] {
      assert forall k :: 0 <= k < |ix| ==> ix[k] <= ix[|ix| - 1];
      assert ix[0] in ix;
    }
  }

  /** Names that differ only in case select the same rows. */
  lemma {:induction false} MatchedIndicesIgnoreCase(rows: seq<Row>, a: string, b: string)
    requires Lower(a) == Lower(b)
    ensures MatchedIndices(rows, a) == MatchedIndices(rows, b)
    decreases |rows|
  {
    if rows != [] {
      MatchedIndicesIgnoreCase(rows[..|rows| - 1], a, b);
    }
  }

  /** When exactly the rows lo..hi-1 match, the labels are lo, ..., hi-1. */
  lemma {:induction false} BlockMatches(rows: seq<Row>, name: string, lo: nat, hi: nat)
    requires lo <= hi <= |rows|
    requires forall k :: 0 <= k < |rows| ==> (Matches(rows[k].crop, name) <==> lo <= k < hi)
    ensures MatchedIndices(rows, name) == seq(hi - lo, k => lo + k)
    decreases |rows|
  {
    if rows != [] {
      var n := |rows| - 1;
      var init := rows[..n];
      assert forall k :: 0 <= k < n ==> init[k] == rows[k];
      if hi <= n {
        BlockMatches(init, name, lo, hi);
      } else if lo == hi {
        BlockMatches(init, name, n, n);
      } else {
        BlockMatches(init, name, lo, n);
        assert seq(hi - lo, k => lo + k) == seq(n - lo, k => lo + k) + [n];
      }
    }
  }

  /** The filtered frame `frame[frame['Crop'].str.lower() == name.lower()]`. */
  function MatchedRows(rows: seq<Row>, name: string): (m: seq<Row>)
    ensures |m| == |MatchedIndices(rows, name)|
    ensures forall k :: 0 <= k < |m| ==> Matches(m[k].crop, name)
    ensures forall k :: 0 <= k < |m| ==> m[k] == rows[MatchedIndices(rows, name)[k]]
  {
    var ix := MatchedIndices(rows, name);
    seq(|ix|, k requires 0 <= k < |ix| => rows[ix[k]])
  }

  /** Rows given as regression points: x is the row label, y the price. */
  function LabelledPoints(rows: seq<Row>, ix: seq<nat>): (ps: seq<LeastSquares.Point>)
    requires forall k :: 0 <= k < |ix| ==> ix[k] < |rows|
    ensures |ps| == |ix|
    ensures forall k :: 0 <= k < |ix| ==> ps[k].x == ix[k] as real && ps[k].y == rows[ix[k]].price
  {
    seq(|ix|, k requires 0 <= k < |ix| => LeastSquares.Point(ix[k] as real, rows[ix[k]].price))
  }
}
