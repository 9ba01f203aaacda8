/**
 The whole computation of the page, from an area selection to the
 per-customer table and the group row: reject an empty selection, filter the
 customers, stop when none qualifies, aggregate their dimension rows and
 average the per-customer means.
 */
module ClienteIntegral {
  import opened Areas
  import opened Stats
  import opened MembershipFilter
  import opened DimensionAggregator

  datatype Option<T> = None | Some(value: T)

  /** The per-customer table without its id column. */
  function ScoreTable(ms: seq<CustomerMean>): seq<Dims> {
    seq(|ms|, i requires 0 <= i < |ms| => ms[i].dims)
  }

  /** `df_resultado.drop(columns="id_cliente").mean()`: the mean of every
      score column over the customers of the table, each customer counting
      once whatever its number of rows. On an empty table pandas yields NaN
      in every column, modelled as `None`. */
  function GroupAverage(ms: seq<CustomerMean>): (avg: Option<Dims>)
    ensures avg.None? <==> ms == []
  {
    if ms == [] then None else Some(MeanDims(ScoreTable(ms)))
  }

  /** For a non-empty table, each column of the group row is the column's
      sum over the customers divided by their number, and lies between the
      least and the greatest customer value of that column. */
  lemma GroupAverageBounds(ms: seq<CustomerMean>, f: Field)
    requires ms != []
    ensures GroupAverage(ms).Some?
    ensures GroupAverage(ms).value.Get(f) == Sum(ScoreTable(ms), f) / (|ms| as real)
    ensures exists i :: 0 <= i < |ms| && ms[i].dims.Get(f) <= GroupAverage(ms).value.Get(f)
    ensures exists j :: 0 <= j < |ms| && GroupAverage(ms).value.Get(f) <= ms[j].dims.Get(f)
  {
    var t := ScoreTable(ms);
    MeanBetweenMinMax(t, f);
    assert t[MinIndex(t, f)] == ms[MinIndex(t, f)].dims;
    assert t[MaxIndex(t, f)] == ms[MaxIndex(t, f)].dims;
  }

  /** The group row of a single customer is that customer's own row. */
  lemma GroupAverageOfOne(m: CustomerMean)
    ensures GroupAverage([m]) == Some(m.dims)
  {
    var t := ScoreTable([m]);
    forall f: Field ensures Mean(t, f) == m.dims.Get(f) {
      MeanOfConstant(t, f, m.dims.Get(f));
    }
  }

  /** How one run of the page ends. */
  datatype Outcome =
    | SelectionRejected   // no area selected: warning and stop
    | NoCustomers         // no customer belongs to every selected area: stop
    | Report(customers: seq<int>, means: seq<CustomerMean>, groupAverage: Option<Dims>)

  /** One run of the page for selection `sel` over the customer table `cs`
      and the dimension table `rows`. */
  function Run(cs: seq<Customer>, rows: seq<DimRow>, sel: seq<Area>): (o: Outcome)
    ensures o.SelectionRejected? <==> sel == []
    ensures o.NoCustomers? <==> sel != [] && forall c :: c in cs ==> !InAllAreas(c, sel)
    ensures o.Report? ==> o.customers != [] && |o.customers| <= |cs|
    ensures o.Report? ==> StrictlyIncreasing(Ids(o.means))
    ensures o.Report? ==> forall id :: id in Ids(o.means) <==>
              (exists c :: c in cs && c.id == id && InAllAreas(c, sel))
              && (exists r :: r in rows && r.id == id && r.area in SelectedNames(sel))
    ensures o.Report? ==> forall id :: id in o.customers <==>
              exists c :: c in cs && c.id == id && InAllAreas(c, sel)
    ensures o.Report? ==> forall i :: 0 <= i < |o.means| ==>
              |CustomerRows(rows, sel, o.means[i].id)| > 0
              && o.means[i].dims == MeanDims(DimsOf(CustomerRows(rows, sel, o.means[i].id)))
    ensures o.Report? ==> (o.groupAverage.None? <==> o.means == [])
    ensures o.Report? && o.means != [] ==> o.groupAverage == Some(MeanDims(ScoreTable(o.means)))
  {
    if sel == [] then SelectionRejected
    else
      var ids := FilterCustomers(cs, sel);
      if ids == [] then
        assert forall c :: c in cs ==> !InAllAreas(c, sel) by {
          forall c | c in cs ensures !InAllAreas(c, sel) {
            assert c.id !in ids;
          }
        }
        NoCustomers
      else
        assert exists c :: c in cs && InAllAreas(c, sel) by {
          assert ids[0] in ids;
        }
        var ms := Aggregate(rows, sel, ids);
        Report(ids, ms, GroupAverage(ms))
  }

  /** An empty selection is turned away before any filtering or averaging. */
  lemma EmptySelectionRejected(cs: seq<Customer>, rows: seq<DimRow>)
    ensures Run(cs, rows, []) == SelectionRejected
  {
  }

  /** A customer of both selected areas whose two rows average to
      (0.6, 0.5, 0.5, 0.5), next to a customer lacking `consumo`. */
  lemma TwoAreaExample()
    ensures Run([Customer(1, 1, 0, 0), Customer(2, 1, 1, 0)],
                [DimRow(2, "brilla", Dims(0.8, 0.6, 0.5, 0.4)),
                 DimRow(2, "consumo", Dims(0.4, 0.4, 0.5, 0.6))],
                [Brilla, Consumo])
            == Report([2], [CustomerMean(2, Dims(0.6, 0.5, 0.5, 0.5))], Some(Dims(0.6, 0.5, 0.5, 0.5)))
  {
    var cs := [Customer(1, 1, 0, 0), Customer(2, 1, 1, 0)];
    var rows := [DimRow(2, "brilla", Dims(0.8, 0.6, 0.5, 0.4)),
                 DimRow(2, "consumo", Dims(0.4, 0.4, 0.5, 0.6))];
    var sel := [Brilla, Consumo];
    assert FilterCustomers(cs, sel) == [2];
    assert Brilla.Name() in SelectedNames(sel) && Consumo.Name() in SelectedNames(sel);
    assert KeepAreas(rows, sel) == rows;
    assert KeepCustomers(rows, [2]) == rows;
    assert GroupKeys(rows) == [2];
    assert RowsOf(rows, 2) == rows;
    var m := CustomerMean(2, Dims(0.6, 0.5, 0.5, 0.5));
    var ds := DimsOf(rows);
    assert ds == [Dims(0.8, 0.6, 0.5, 0.4), Dims(0.4, 0.4, 0.5, 0.6)];
    forall f: Field ensures Sum(ds, f) == ds[0].Get(f) + ds[1].Get(f) {
      assert ds[1..][1..] == [];
      assert Sum(ds[1..], f) == ds[1].Get(f);
    }
    assert MeanDims(ds) == m.dims;
    assert Aggregate(rows, sel, [2]) == [m];
    GroupAverageOfOne(m);
  }
}
