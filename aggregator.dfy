/**
 The dimension aggregator: the rows of the dimension table
 (`dimensiones_todas.csv`) that belong to a selected area and to a filtered
 customer, grouped by customer, each of the four scores averaged per group.
 */
module DimensionAggregator {
  import opened Areas
  import opened Stats

  /** A row of the dimension table: a customer's four scores in one area. The
      `area` column is free text; only rows naming a selected area survive. */
  datatype DimRow = DimRow(id: int, area: string, dims: Dims)

  /** A row of the per-customer result: the customer's id and its four means. */
  datatype CustomerMean = CustomerMean(id: int, dims: Dims)

  /** `df_dim[df_dim["area"].isin(areas_seleccionadas)]`: the rows of a
      selected area, in table order. */
  function KeepAreas(rows: seq<DimRow>, sel: seq<Area>): (kept: seq<DimRow>)
    ensures |kept| <= |rows|
    ensures forall r :: r in kept <==> r in rows && r.area in SelectedNames(sel)
  {
    if rows == [] then []
    else
      var rest := KeepAreas(rows[1..], sel);
      assert forall r :: r in rows <==> r == rows[0] || r in rows[1..];
      if rows[0].area in SelectedNames(sel) then [rows[0]] + rest else rest
  }

  /** `df[df["id_cliente"].isin(clientes_filtrados)]`: the rows of a filtered
      customer, in table order. */
  function KeepCustomers(rows: seq<DimRow>, ids: seq<int>): (kept: seq<DimRow>)
    ensures |kept| <= |rows|
    ensures forall r :: r in kept <==> r in rows && r.id in ids
  {
    if rows == [] then []
    else
      var rest := KeepCustomers(rows[1..], ids);
      assert forall r :: r in rows <==> r == rows[0] || r in rows[1..];
      if rows[0].id in ids then [rows[0]] + rest else rest
  }

  /** The group of customer `id`: its rows, in table order. */
  function RowsOf(rows: seq<DimRow>, id: int): (group: seq<DimRow>)
    ensures forall r :: r in group <==> r in rows && r.id == id
  {
    if rows == [] then []
    else
      var rest := RowsOf(rows[1..], id);
      assert forall r :: r in rows <==> r == rows[0] || r in rows[1..];
      if rows[0].id == id then [rows[0]] + rest else rest
  }

  /** The area filter keeps each row of a selected area exactly as often as
      the table holds it, and no other row. */
  lemma {:induction false} KeepAreasCount(rows: seq<DimRow>, sel: seq<Area>, r: DimRow)
    ensures multiset(KeepAreas(rows, sel))[r] == if r.area in SelectedNames(sel) then multiset(rows)[r] else 0
  {
    if rows != [] {
      KeepAreasCount(rows[1..], sel, r);
      assert rows == [rows[0]] + rows[1..];
    }
  }

  /** The customer filter keeps each row of a filtered customer exactly as
      often as the table holds it, and no other row. */
  lemma {:induction false} KeepCustomersCount(rows: seq<DimRow>, ids: seq<int>, r: DimRow)
    ensures multiset(KeepCustomers(rows, ids))[r] == if r.id in ids then multiset(rows)[r] else 0
  {
    if rows != [] {
      KeepCustomersCount(rows[1..], ids, r);
      assert rows == [rows[0]] + rows[1..];
    }
  }

  /** A customer's group holds each of its rows exactly as often as the table
      holds it, and no row of another customer. */
  lemma {:induction false} RowsOfCount(rows: seq<DimRow>, id: int, r: DimRow)
    ensures multiset(RowsOf(rows, id))[r] == if r.id == id then multiset(rows)[r] else 0
  {
    if rows != [] {
      RowsOfCount(rows[1..], id, r);
      assert rows == [rows[0]] + rows[1..];
    }
  }

  /** The score columns of some rows. */
  function DimsOf(rows: seq<DimRow>): seq<Dims> {
    seq(|rows|, i requires 0 <= i < |rows| => rows[i].dims)
  }

  /** The ids of the per-customer result, in order. */
  function Ids(ms: seq<CustomerMean>): seq<int> {
    seq(|ms|, i requires 0 <= i < |ms| => ms[i].id)
  }

  predicate StrictlyIncreasing(xs: seq<int>) {
    forall i, j :: 0 <= i < j < |xs| ==> xs[i] < xs[j]
  }

  /** Adds a key to an ascending list of distinct keys. */
  function InsertKey(keys: seq<int>, k: int): (r: seq<int>)
    requires StrictlyIncreasing(keys)
    ensures StrictlyIncreasing(r)
    ensures forall x :: x in r <==> x in keys || x == k
  {
    if keys == [] then [k]
    else if k < keys[0] then [k] + keys
    else if k == keys[0] then keys
    else
      var rest := InsertKey(keys[1..], k);
      assert forall x :: x in keys <==> x == keys[0] || x in keys[1..];
      assert forall i :: 0 <= i < |rest| ==> keys[0] < rest[i] by {
        forall i | 0 <= i < |rest| ensures keys[0] < rest[i] {
          assert rest[i] in rest;
        }
      }
      [keys[0]] + rest
  }

  /** The group keys of `groupby("id_cliente")`: every id of the rows, once,
      in ascending order (pandas sorts group keys by default). */
  function GroupKeys(rows: seq<DimRow>): (keys: seq<int>)
    ensures StrictlyIncreasing(keys)
    ensures forall id :: id in keys <==> exists r :: r in rows && r.id == id
  {
    if rows == [] then []
    else
      var keys := InsertKey(GroupKeys(rows[1..]), rows[0].id);
      assert forall r :: r in rows <==> r == rows[0] || r in rows[1..];
      keys
  }

  /** The mean row of every key, each key's group being non-empty. */
  function MeansOver(rows: seq<DimRow>, keys: seq<int>): (ms: seq<CustomerMean>)
    requires forall k :: k in keys ==> exists r :: r in rows && r.id == k
    ensures |ms| == |keys|
    ensures forall i :: 0 <= i < |ms| ==> ms[i].id == keys[i]
    ensures forall i :: 0 <= i < |ms| ==>
              |RowsOf(rows, keys[i])| > 0 && ms[i].dims == MeanDims(DimsOf(RowsOf(rows, keys[i])))
  {
    if keys == [] then []
    else
      var group := RowsOf(rows, keys[0]);
      assert |group| > 0 by {
        assert keys[0] in keys;
        var r :| r in rows && r.id == keys[0];
        assert r in group;
      }
      assert forall k :: k in keys[1..] ==> k in keys;
      var rest := MeansOver(rows, keys[1..]);
      [CustomerMean(keys[0], MeanDims(DimsOf(group)))] + rest
  }

  /** `groupby("id_cliente")[...].mean().reset_index()`: one row per customer
      id that has rows, in ascending id order, holding the mean of each
      score over that customer's rows. No id without rows appears. */
  function GroupByMean(rows: seq<DimRow>): (ms: seq<CustomerMean>)
    ensures StrictlyIncreasing(Ids(ms))
    ensures forall id :: id in Ids(ms) <==> exists r :: r in rows && r.id == id
    ensures forall i :: 0 <= i < |ms| ==>
              |RowsOf(rows, ms[i].id)| > 0 && ms[i].dims == MeanDims(DimsOf(RowsOf(rows, ms[i].id)))
  {
    var keys := GroupKeys(rows);
    var ms := MeansOver(rows, keys);
    assert Ids(ms) == keys;
    ms
  }

  /** The rows of customer `id` in a selected area, taken straight from the
      dimension table. */
  function CustomerRows(rows: seq<DimRow>, sel: seq<Area>, id: int): seq<DimRow> {
    RowsOf(KeepAreas(rows, sel), id)
  }

  /** The customer filter keeps every row of a customer it lets through,
      in order. */
  lemma {:induction false} RowsOfKept(rows: seq<DimRow>, ids: seq<int>, id: int)
    requires id in ids
    ensures RowsOf(KeepCustomers(rows, ids), id) == RowsOf(rows, id)
  {
    if rows != [] {
      RowsOfKept(rows[1..], ids, id);
    }
  }

  /** Lines 49 to 57 together: the area filter, the customer filter and the
      per-customer means. The result holds exactly the filtered customers
      that have at least one row in a selected area, each once, ascending;
      each holds the column means of its rows in the selected areas. */
  function Aggregate(rows: seq<DimRow>, sel: seq<Area>, ids: seq<int>): (ms: seq<CustomerMean>)
    ensures StrictlyIncreasing(Ids(ms))
    ensures forall id :: id in Ids(ms) <==>
              id in ids && exists r :: r in rows && r.id == id && r.area in SelectedNames(sel)
    ensures forall i :: 0 <= i < |ms| ==>
              |CustomerRows(rows, sel, ms[i].id)| > 0
              && ms[i].dims == MeanDims(DimsOf(CustomerRows(rows, sel, ms[i].id)))
  {
    var ms := GroupByMean(KeepCustomers(KeepAreas(rows, sel), ids));
    assert forall id :: id in Ids(ms) <==>
              id in ids && exists r :: r in rows && r.id == id && r.area in SelectedNames(sel) by {
      forall id ensures id in Ids(ms) ==> id in ids && exists r :: r in rows && r.id == id && r.area in SelectedNames(sel) {
        if id in Ids(ms) {
          var r :| r in KeepCustomers(KeepAreas(rows, sel), ids) && r.id == id;
          assert r in rows && r.area in SelectedNames(sel);
        }
      }
      forall id | id in ids && exists r :: r in rows && r.id == id && r.area in SelectedNames(sel)
        ensures id in Ids(ms)
      {
        var r :| r in rows && r.id == id && r.area in SelectedNames(sel);
        assert r in KeepCustomers(KeepAreas(rows, sel), ids);
      }
    }
    assert forall i :: 0 <= i < |ms| ==> CustomerRows(rows, sel, ms[i].id) == RowsOf(KeepCustomers(KeepAreas(rows, sel), ids), ms[i].id) by {
      forall i | 0 <= i < |ms|
        ensures CustomerRows(rows, sel, ms[i].id) == RowsOf(KeepCustomers(KeepAreas(rows, sel), ids), ms[i].id)
      {
        assert Ids(ms)[i] == ms[i].id;
        RowsOfKept(KeepAreas(rows, sel), ids, ms[i].id);
      }
    }
    ms
  }

  /** Each per-customer mean lies between the least and the greatest value
      of that score over the customer's rows in the selected areas; no range
      is assumed of the scores. */
  lemma AggregateMeanBounds(rows: seq<DimRow>, sel: seq<Area>, ids: seq<int>, f: Field)
    ensures forall m :: m in Aggregate(rows, sel, ids) ==>
              && (exists r :: r in rows && r.id == m.id && r.area in SelectedNames(sel) && r.dims.Get(f) <= m.dims.Get(f))
              && (exists r :: r in rows && r.id == m.id && r.area in SelectedNames(sel) && m.dims.Get(f) <= r.dims.Get(f))
  {
    var ms := Aggregate(rows, sel, ids);
    forall m | m in ms
      ensures exists r :: r in rows && r.id == m.id && r.area in SelectedNames(sel) && r.dims.Get(f) <= m.dims.Get(f)
      ensures exists r :: r in rows && r.id == m.id && r.area in SelectedNames(sel) && m.dims.Get(f) <= r.dims.Get(f)
    {
      var i :| 0 <= i < |ms| && ms[i] == m;
      var group := CustomerRows(rows, sel, m.id);
      var g := DimsOf(group);
      MeanBetweenMinMax(g, f);
      var lo := group[MinIndex(g, f)];
      var hi := group[MaxIndex(g, f)];
      assert lo in group && hi in group;
    }
  }
}
