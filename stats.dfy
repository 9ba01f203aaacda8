/**
 The four dimension scores of the customer model and the column statistics the
 application takes over them: a column sum, the arithmetic mean of a column
 (what pandas' `mean()` computes when no value is missing) and the rows that
 hold a column's least and greatest value.
 */
module Stats {

  /** The four score columns of `dimensiones_todas.csv`. */
  datatype Field = Economica | Relacional | Cumplimiento | Potencial

  /** One set of the four scores: a row of the dimension table, a customer's
      mean, or the group mean. No range such as [0, 1] is assumed. */
  datatype Dims = Dims(economica: real, relacional: real, cumplimiento: real, potencial: real)
  {
    /** The value of one column. */
    function Get(f: Field): real {
      match f
      case Economica => economica
      case Relacional => relacional
      case Cumplimiento => cumplimiento
      case Potencial => potencial
    }
  }

  /** Sum of column `f` over the rows `ds`. */
  function Sum(ds: seq<Dims>, f: Field): real {
    if ds == [] then 0.0 else ds[0].Get(f) + Sum(ds[1..], f)
  }

  /** Arithmetic mean of column `f` over a non-empty set of rows. */
  function Mean(ds: seq<Dims>, f: Field): real
    requires |ds| > 0
  {
    Sum(ds, f) / (|ds| as real)
  }

  /** The column-wise mean of non-empty rows: every column averaged on its own. */
  function MeanDims(ds: seq<Dims>): (m: Dims)
    requires |ds| > 0
    ensures forall f: Field :: m.Get(f) == Sum(ds, f) / (|ds| as real)
  {
    Dims(Mean(ds, Economica), Mean(ds, Relacional), Mean(ds, Cumplimiento), Mean(ds, Potencial))
  }

  /** The position of a least value of column `f`. */
  function MinIndex(ds: seq<Dims>, f: Field): (i: nat)
    requires |ds| > 0
    ensures i < |ds|
    ensures forall j :: 0 <= j < |ds| ==> ds[i].Get(f) <= ds[j].Get(f)
  {
    if |ds| == 1 then 0
    else
      var k := MinIndex(ds[1..], f) + 1;
      if ds[0].Get(f) <= ds[k].Get(f) then 0 else k
  }

  /** The position of a greatest value of column `f`. */
  function MaxIndex(ds: seq<Dims>, f: Field): (i: nat)
    requires |ds| > 0
    ensures i < |ds|
    ensures forall j :: 0 <= j < |ds| ==> ds[j].Get(f) <= ds[i].Get(f)
  {
    if |ds| == 1 then 0
    else
      var k := MaxIndex(ds[1..], f) + 1;
      if ds[k].Get(f) <= ds[0].Get(f) then 0 else k
  }

  /** If every value of a column lies in [lo, hi], the column sum lies in
      [n * lo, n * hi] for n rows. */
  lemma {:induction false} SumWithin(ds: seq<Dims>, f: Field, lo: real, hi: real)
    requires forall j :: 0 <= j < |ds| ==> lo <= ds[j].Get(f) <= hi
    ensures (|ds| as real) * lo <= Sum(ds, f) <= (|ds| as real) * hi
  {
    if ds != [] {
      SumWithin(ds[1..], f, lo, hi);
      var n := |ds[1..]| as real;
      assert (n + 1.0) * lo == n * lo + lo;
      assert (n + 1.0) * hi == n * hi + hi;
    }
  }

  /** A mean never leaves the range of the values it averages: whatever bounds
      hold of every row hold of the mean. */
  lemma MeanWithin(ds: seq<Dims>, f: Field, lo: real, hi: real)
    requires |ds| > 0
    requires forall j :: 0 <= j < |ds| ==> lo <= ds[j].Get(f) <= hi
    ensures lo <= Mean(ds, f) <= hi
  {
    SumWithin(ds, f, lo, hi);
    var n := |ds| as real;
    var m := Mean(ds, f);
    assert m * n == Sum(ds, f);
  }

  /** The mean of a column lies between its least and its greatest value. */
  lemma MeanBetweenMinMax(ds: seq<Dims>, f: Field)
    requires |ds| > 0
    ensures ds[MinIndex(ds, f)].Get(f) <= Mean(ds, f) <= ds[MaxIndex(ds, f)].Get(f)
  {
    MeanWithin(ds, f, ds[MinIndex(ds, f)].Get(f), ds[MaxIndex(ds, f)].Get(f));
  }

  /** When every row holds the same value in a column, the mean is that value. */
  lemma MeanOfConstant(ds: seq<Dims>, f: Field, v: real)
    requires |ds| > 0
    requires forall j :: 0 <= j < |ds| ==> ds[j].Get(f) == v
    ensures Mean(ds, f) == v
  {
    MeanWithin(ds, f, v, v);
  }
}
