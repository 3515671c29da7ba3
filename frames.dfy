/**
 * The slice of pandas the metrics use: a data frame is a list of column
 * names and a list of rows; a cell is missing (None/NaN), a number or a
 * text. Grouping, filtering, counting and column means are defined here
 * once and used by every metric.
 */
module Frames {

  import opened Counting
  import Stats

  datatype Cell = Null | Num(x: real) | Str(s: string)

  /** pandas element-wise `==`: a missing value equals nothing, itself included. */
  predicate Eq(a: Cell, b: Cell)
  {
    a != Null && a == b
  }

  type Row = map<string, Cell>

  datatype Frame = Frame(columns: seq<string>, rows: seq<Row>)

  /** The cell of `row` in column `c`; a row without the column reads as missing. */
  function At(row: Row, c: string): Cell
  {
    if c in row then row[c] else Null
  }

  /** `notna()` of one cell. */
  predicate Present(c: Cell)
  {
    c != Null
  }

  /** `df[c]` */
  function Column(df: Frame, c: string): (r: seq<Cell>)
    ensures |r| == |df.rows|
    ensures forall i :: 0 <= i < |r| ==> r[i] == At(df.rows[i], c)
  {
    seq(|df.rows|, i requires 0 <= i < |df.rows| => At(df.rows[i], c))
  }

  /** The values of a row in the grouping columns `cols`. */
  function KeyOf(row: Row, cols: seq<string>): (r: seq<Cell>)
    ensures |r| == |cols|
  {
    seq(|cols|, j requires 0 <= j < |cols| => At(row, cols[j]))
  }

  predicate Complete(key: seq<Cell>)
  {
    Null !in key
  }

  /** The grouping key of every row, in row order. */
  function KeysOf(rows: seq<Row>, cols: seq<string>): (r: seq<seq<Cell>>)
    ensures |r| == |rows|
    ensures forall i :: 0 <= i < |rows| ==> r[i] == KeyOf(rows[i], cols)
  {
    seq(|rows|, i requires 0 <= i < |rows| => KeyOf(rows[i], cols))
  }

  /** The keys of `df.groupby(cols)`: the distinct keys without a missing value. */
  function GroupKeys(df: Frame, cols: seq<string>): (r: seq<seq<Cell>>)
    ensures NoDuplicates(r)
    ensures forall k :: k in r <==> Complete(k) && k in KeysOf(df.rows, cols)
  {
    Distinct(Filter(KeysOf(df.rows, cols), Complete))
  }

  /** The rows whose key in `cols` is `key`, in order. */
  function RowsWithKey(rows: seq<Row>, cols: seq<string>, key: seq<Cell>): (r: seq<Row>)
    ensures |r| == Count(KeysOf(rows, cols), key)
    ensures forall row :: row in r ==> row in rows && KeyOf(row, cols) == key
  {
    if rows == [] then []
    else
      var init := rows[..|rows| - 1];
      assert KeysOf(rows, cols)[..|rows| - 1] == KeysOf(init, cols);
      var r := RowsWithKey(init, cols, key);
      if KeyOf(rows[|rows| - 1], cols) == key then r + [rows[|rows| - 1]] else r
  }

  /** One group of `df.groupby(cols)`: the sub-frame of the rows with that key. */
  function Group(df: Frame, cols: seq<string>, key: seq<Cell>): Frame
  {
    Frame(df.columns, RowsWithKey(df.rows, cols, key))
  }

  /** Every group of `groupby` holds at least one row. */
  lemma GroupNotEmpty(df: Frame, cols: seq<string>, key: seq<Cell>)
    requires key in GroupKeys(df, cols)
    ensures |Group(df, cols, key).rows| >= 1
  {
  }

  /** The group sizes add up to the number of rows with a complete key. */
  lemma GroupSizesSum(df: Frame, cols: seq<string>)
    ensures SumCounts(GroupKeys(df, cols), KeysOf(df.rows, cols)) == |Filter(KeysOf(df.rows, cols), Complete)|
  {
    var ks := KeysOf(df.rows, cols);
    var complete := Filter(ks, Complete);
    DistinctCountsSum(complete);
    SumCountsFiltered(Distinct(complete), ks, Complete);
  }

  /** Counting complete values in all keys or in the complete keys only comes to the same. */
  lemma {:induction false} SumCountsFiltered(vs: seq<seq<Cell>>, ks: seq<seq<Cell>>, keep: seq<Cell> -> bool)
    requires forall v :: v in vs ==> keep(v)
    ensures SumCounts(vs, ks) == SumCounts(vs, Filter(ks, keep))
  {
    if vs != [] {
      var init := vs[..|vs| - 1];
      SumCountsFiltered(init, ks, keep);
      CountFiltered(ks, vs[|vs| - 1], keep);
    }
  }

  lemma {:induction false} CountFiltered(ks: seq<seq<Cell>>, v: seq<Cell>, keep: seq<Cell> -> bool)
    requires keep(v)
    ensures Count(ks, v) == Count(Filter(ks, keep), v)
  {
    if ks != [] {
      var init := ks[..|ks| - 1];
      CountFiltered(init, v, keep);
      if keep(ks[|ks| - 1]) {
        CountAppend(Filter(init, keep), ks[|ks| - 1], v);
      }
    }
  }

  /** `df[mask]` for a mask computed row by row. */
  function Where(df: Frame, keep: Row -> bool): (r: Frame)
    ensures r.columns == df.columns
    ensures |r.rows| <= |df.rows|
  {
    Frame(df.columns, Filter(df.rows, keep))
  }

  /** The rows whose cell in column `c` equals `v` (`df[df[c] == v]`). */
  function WhereEq(df: Frame, c: string, v: Cell): (r: Frame)
    ensures r.columns == df.columns
    ensures |r.rows| <= |df.rows|
    ensures forall row :: row in r.rows ==> row in df.rows && Eq(At(row, c), v)
  {
    Where(df, row => Eq(At(row, c), v))
  }

  /** The values present in a column (the index of `value_counts()`), in order of first appearance. */
  function Values(cells: seq<Cell>): (r: seq<Cell>)
    ensures NoDuplicates(r) && Null !in r
    ensures forall v :: v in r <==> v in cells && v != Null
  {
    Distinct(Filter(cells, Present))
  }

  /** `(cells == v).sum()` */
  function CountEq(cells: seq<Cell>, v: Cell): (r: nat)
    ensures r <= |cells|
  {
    if v == Null then 0 else Count(cells, v)
  }

  /** `(cells == v).mean()` */
  function RateEq(cells: seq<Cell>, v: Cell): (r: real)
    ensures 0.0 <= r <= 1.0
  {
    if cells == [] then 0.0 else CountEq(cells, v) as real / |cells| as real
  }

  /** The numbers of a column in order, skipping missing values. */
  function Nums(cells: seq<Cell>): (r: seq<real>)
    ensures |r| <= |cells|
  {
    if cells == [] then []
    else
      var init := Nums(cells[..|cells| - 1]);
      match cells[|cells| - 1]
      case Num(x) => init + [x]
      case _ => init
  }

  /** A column holding text, on which pandas' `.mean()` raises a TypeError. */
  predicate HasText(cells: seq<Cell>)
  {
    exists i :: 0 <= i < |cells| && cells[i].Str?
  }

  /** `cells.mean()` with missing values skipped. */
  function MeanOf(cells: seq<Cell>): real
  {
    Stats.Mean(Nums(cells))
  }

  /** Every number in the column lies in `[lo, hi]`. */
  predicate NumsWithin(cells: seq<Cell>, lo: real, hi: real)
  {
    forall i :: 0 <= i < |cells| && cells[i].Num? ==> lo <= cells[i].x <= hi
  }

  lemma {:induction false} NumsWithinStats(cells: seq<Cell>, lo: real, hi: real)
    requires NumsWithin(cells, lo, hi)
    ensures Stats.Within(Nums(cells), lo, hi)
  {
    if cells != [] {
      NumsWithinStats(cells[..|cells| - 1], lo, hi);
    }
  }

  /** The mean of a column whose numbers lie in `[lo, hi]` lies in `[lo, hi]`; a column without numbers gives 0. */
  lemma MeanOfWithin(cells: seq<Cell>, lo: real, hi: real)
    requires NumsWithin(cells, lo, hi)
    ensures Nums(cells) != [] ==> lo <= MeanOf(cells) <= hi
    ensures Nums(cells) == [] ==> MeanOf(cells) == 0.0
  {
    NumsWithinStats(cells, lo, hi);
    if Nums(cells) != [] {
      Stats.MeanWithin(Nums(cells), lo, hi);
    }
  }

  /** A 0/1 column, such as a binary prediction. */
  predicate Binary(cells: seq<Cell>)
  {
    NumsWithin(cells, 0.0, 1.0)
  }

  predicate HasColumn(df: Frame, c: string)
  {
    c in df.columns
  }

  /** A sub-frame made of rows of `df` keeps the bounds of `df`'s columns. */
  lemma SubFrameWithin(df: Frame, sub: Frame, c: string, lo: real, hi: real)
    requires forall row :: row in sub.rows ==> row in df.rows
    requires NumsWithin(Column(df, c), lo, hi)
    ensures NumsWithin(Column(sub, c), lo, hi)
  {
    forall i | 0 <= i < |sub.rows| && Column(sub, c)[i].Num?
      ensures lo <= Column(sub, c)[i].x <= hi
    {
      var row := sub.rows[i];
      assert row in df.rows;
      var j :| 0 <= j < |df.rows| && df.rows[j] == row;
      assert Column(df, c)[j] == Column(sub, c)[i];
    }
  }

  /** The groups of `df.groupby(c)`: the values present in column `c`. */
  function GroupValues(df: Frame, c: string): (r: seq<Cell>)
    ensures NoDuplicates(r) && Null !in r
  {
    Values(Column(df, c))
  }

  lemma {:induction false} FilterEqSize(rows: seq<Row>, c: string, v: Cell)
    ensures |Filter(rows, row => Eq(At(row, c), v))| == CountEq(Column(Frame([], rows), c), v)
  {
    if rows != [] {
      var init := rows[..|rows| - 1];
      FilterEqSize(init, c, v);
      assert Column(Frame([], rows), c)[..|rows| - 1] == Column(Frame([], init), c);
    }
  }

  /** The group of value `v` has as many rows as `v` occurs in the column. */
  lemma WhereEqSize(df: Frame, c: string, v: Cell)
    ensures |WhereEq(df, c, v).rows| == CountEq(Column(df, c), v)
  {
    FilterEqSize(df.rows, c, v);
    assert Column(Frame([], df.rows), c) == Column(df, c);
  }

  /** Every group of `groupby(c)` holds at least one row. */
  lemma GroupValueNotEmpty(df: Frame, c: string, v: Cell)
    requires v in GroupValues(df, c)
    ensures |WhereEq(df, c, v).rows| >= 1
  {
    WhereEqSize(df, c, v);
  }

  /** `cells.value_counts()`: how often each present value occurs, in the order of `Values`. */
  function ValueCounts(cells: seq<Cell>): (r: seq<real>)
    ensures |r| == |Values(cells)|
    ensures forall i :: 0 <= i < |r| ==> 1.0 <= r[i] <= |cells| as real
    ensures forall i :: 0 <= i < |r| ==> r[i] == CountEq(cells, Values(cells)[i]) as real
  {
    var vs := Values(cells);
    seq(|vs|, i requires 0 <= i < |vs| => CountEq(cells, vs[i]) as real)
  }

  /** Every name of `cols` is a column of `df`. */
  predicate AllColumns(df: Frame, cols: seq<string>)
  {
    forall c :: c in cols ==> c in df.columns
  }

  /** `cells.value_counts(normalize=True).get(v, 0.0)`: the share of `v` among the present values. */
  function Share(cells: seq<Cell>, v: Cell): (r: real)
    ensures 0.0 <= r <= 1.0
  {
    CountPresent(cells, v);
    Stats.Ratio(CountEq(cells, v), |Filter(cells, Present)|)
  }

  /** Counting a value among the present cells is counting it among all cells. */
  lemma {:induction false} CountPresent(cells: seq<Cell>, v: Cell)
    ensures CountEq(cells, v) == (if v == Null then 0 else Count(Filter(cells, Present), v))
    ensures CountEq(cells, v) <= |Filter(cells, Present)|
  {
    if cells != [] {
      var init := cells[..|cells| - 1];
      CountPresent(init, v);
      if cells[|cells| - 1] != Null {
        CountAppend(Filter(init, Present), cells[|cells| - 1], v);
      }
    }
  }

  /** The shares of `vs` in `a`, added up. */
  function ShareSum(vs: seq<Cell>, a: seq<Cell>): real
  {
    if vs == [] then 0.0 else ShareSum(vs[..|vs| - 1], a) + Share(a, vs[|vs| - 1])
  }

  /** The shares of distinct values add up to the share of all of them together (a missing value has share 0). */
  lemma {:induction false} ShareSumCounts(vs: seq<Cell>, a: seq<Cell>)
    requires NoDuplicates(vs)
    ensures SumCounts(vs, Filter(a, Present)) <= |Filter(a, Present)|
    ensures ShareSum(vs, a) == Stats.Ratio(SumCounts(vs, Filter(a, Present)), |Filter(a, Present)|)
  {
    var present := Filter(a, Present);
    SumCountsBound(vs, present);
    if vs != [] {
      var init := vs[..|vs| - 1];
      var v := vs[|vs| - 1];
      assert NoDuplicates(init);
      ShareSumCounts(init, a);
      CountPresent(a, v);
      Stats.RatioAdd(SumCounts(init, present), Count(present, v), |present|);
    }
  }

  /** Distinct values have shares adding up to at most one. */
  lemma ShareSumBound(vs: seq<Cell>, a: seq<Cell>)
    requires NoDuplicates(vs)
    ensures ShareSum(vs, a) <= 1.0
  {
    ShareSumCounts(vs, a);
  }

  /** With at least one value present, the shares of the present values add up to exactly one. */
  lemma SharesSumToOne(cells: seq<Cell>)
    requires Values(cells) != []
    ensures ShareSum(Values(cells), cells) == 1.0
  {
    var present := Filter(cells, Present);
    ShareSumCounts(Values(cells), cells);
    DistinctCountsSum(present);
    Stats.RatioWhole(|present|);
  }

  /** A number of the column is among its numbers. */
  lemma {:induction false} NumsHas(cells: seq<Cell>, i: nat)
    requires i < |cells| && cells[i].Num?
    ensures cells[i].x in Nums(cells)
  {
    if i < |cells| - 1 {
      NumsHas(cells[..|cells| - 1], i);
    }
  }

  /** A value that occurs is counted. */
  lemma {:induction false} CountPositive(cells: seq<Cell>, k: nat)
    requires k < |cells| && cells[k] != Null
    ensures CountEq(cells, cells[k]) > 0
  {
    if k < |cells| - 1 {
      CountPositive(cells[..|cells| - 1], k);
      CountAppend(cells[..|cells| - 1], cells[|cells| - 1], cells[k]);
    } else {
      CountAppend(cells[..|cells| - 1], cells[|cells| - 1], cells[k]);
    }
    assert cells[..|cells| - 1] + [cells[|cells| - 1]] == cells;
  }

  /** A value that occurs has a positive share of the present values. */
  lemma SharePositive(cells: seq<Cell>, k: nat)
    requires k < |cells| && cells[k] != Null
    ensures Share(cells, cells[k]) > 0.0
  {
    CountPositive(cells, k);
    CountPresent(cells, cells[k]);
    Stats.RatioPositive(CountEq(cells, cells[k]), |Filter(cells, Present)|);
  }
}
