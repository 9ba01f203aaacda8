# Cliente Integral: area filter and dimension averages

This project models the computation behind the "Cliente Integral" page
(`app_cliente_integral.py`). The page works on two tables. The customer table
(`base_clientes.csv`) has the columns `id_cliente` and one flag column per
area (`brilla`, `consumo`, `sad`). The dimension table
(`dimensiones_todas.csv`) has the columns `id_cliente`, `area` and four
scores (`dimension_economica`, `dimension_relacional`,
`dimension_cumplimiento`, `dimension_potencial`). The data is meant to hold
one customer row per customer and one dimension row per customer and area,
but the code relies on neither, and neither does the model: any id may
appear in any number of rows of either table.

The user picks areas. The page then does four things:

1. It rejects an empty selection.
2. It keeps the ids of the customers flagged `1` in every selected area (a
   logical AND), and stops when there are none.
3. It keeps the dimension rows of a selected area and a kept customer, groups
   them by customer and averages each score per customer.
4. It averages those per-customer means column by column into one group row.

Modules, one per component:

- `Areas` (areas.dfy): the three areas, their names, and the customer row.
- `Stats` (stats.dfy): the four-score record, column sums and means, and the
  facts that bound a mean by the values it averages.
- `MembershipFilter` (membership.dfy): the AND filter over the customer table.
- `DimensionAggregator` (aggregator.dfy): the two `isin` filters and the
  group-by mean.
- `ClienteIntegral` (pipeline.dfy): the group row and one whole run of the
  page, including its two early stops.

Scores are Dafny `real`s, so all arithmetic is exact. Customer ids are
integers. The per-customer table is a sequence in ascending id order, because
`groupby` sorts its keys and `reset_index` turns them back into a column.
The result is a sequence and not a map for that reason.

The filtered customers are a list, as `.tolist()` returns. A customer id
that appears in two qualifying rows of the customer table appears twice
(`MembershipFilter.DuplicateIdsKeptExample`). The repeats change nothing
downstream, because `isin` only tests membership.

## Model

| member | source | states |
|---|---|---|
| `Areas.SelectedNames` | app_cliente_integral.py:49 | an area's name is among the names `isin` compares with exactly when the area is selected, and every such name comes from a selected area |
| `Areas.EveryAreaOffered` | app_cliente_integral.py:26 | the picker offers every area, each exactly once |
| `MembershipFilter.AndReduce` | app_cliente_integral.py:36 | the left-to-right AND of the per-area tests `flag == 1` is true exactly when the customer is flagged 1 in every selected area; only defined for a non-empty selection |
| `MembershipFilter.FilterCustomers` | app_cliente_integral.py:36-37 | an id is in the filtered list exactly when some customer row with that id is flagged 1 in every selected area; the list is no longer than the customer table |
| `MembershipFilter.FilterAntitone` | app_cliente_integral.py:36 | under a larger selection every returned id is also returned under the smaller one, and the list is no longer: adding an area can only shrink the result, removing one can only grow it |
| `MembershipFilter.FilterDependsOnSetOnly` | app_cliente_integral.py:36 | two selections with the same areas, in any order or with repeats, give the same list |
| `MembershipFilter.AndNotOrExample` | app_cliente_integral.py:36-37 | with `brilla` and `consumo` selected, a customer of `brilla` only is dropped and a customer of both is kept |
| `MembershipFilter.DuplicateIdsKeptExample` | app_cliente_integral.py:37 | an id in two qualifying customer rows appears twice in the list |
| `DimensionAggregator.KeepAreas` | app_cliente_integral.py:49 | a row survives exactly when it is a row of the table whose `area` is a selected area's name; the result is no longer than the table (multiplicities: `KeepAreasCount`) |
| `DimensionAggregator.KeepCustomers` | app_cliente_integral.py:50 | a row survives exactly when it is a row of the table whose id is in the filtered list; the result is no longer than the table (multiplicities: `KeepCustomersCount`) |
| `DimensionAggregator.KeepAreasCount` | app_cliente_integral.py:49 | the area filter keeps each row of a selected area exactly as often as the table holds it, and drops every other row |
| `DimensionAggregator.KeepCustomersCount` | app_cliente_integral.py:50 | the customer filter keeps each row of a filtered customer exactly as often as the table holds it, and drops every other row |
| `DimensionAggregator.RowsOf` | app_cliente_integral.py:54 | a row is in a customer's group exactly when it is a row of the table with that customer's id (multiplicities: `RowsOfCount`) |
| `DimensionAggregator.RowsOfCount` | app_cliente_integral.py:54 | a customer's group holds each of that customer's rows exactly as often as the table does, and no row of another customer |
| `DimensionAggregator.GroupKeys` | app_cliente_integral.py:54 | the group keys are strictly ascending, so each id appears once, and an id is a key exactly when some row has it |
| `DimensionAggregator.GroupByMean` | app_cliente_integral.py:53-57 | one result row per id that has rows, ids strictly ascending and unique; each row's group is non-empty and the row holds the column means of that group |
| `DimensionAggregator.Aggregate` | app_cliente_integral.py:49-57 | ids are strictly ascending, so none repeats; an id is in the result exactly when it is in the filtered list and has at least one dimension row in a selected area, so a filtered customer without such rows is absent, not zero-filled; each result row holds, per score, the sum of that score over the customer's rows in the selected areas (taken straight from the dimension table) divided by their positive number |
| `DimensionAggregator.RowsOfKept` | app_cliente_integral.py:50 | the customer filter keeps every row of a customer it lets through, in order |
| `DimensionAggregator.AggregateMeanBounds` | app_cliente_integral.py:54-55 | each per-customer score lies between the least and the greatest value of that score over the customer's rows in the selected areas; no range is assumed of the inputs |
| `Stats.MeanDims` | app_cliente_integral.py:55 | each of the four columns is averaged on its own: its sum divided by the number of rows |
| `Stats.MinIndex` | app_cliente_integral.py:54-55 | names a row whose value in the column is at most every other row's |
| `Stats.MaxIndex` | app_cliente_integral.py:54-55 | names a row whose value in the column is at least every other row's |
| `Stats.SumWithin` | app_cliente_integral.py:55 | if every value of a column lies in [lo, hi], the sum of n rows lies in [n * lo, n * hi] |
| `Stats.MeanWithin` | app_cliente_integral.py:55 | if every value of a column lies in [lo, hi], so does the mean |
| `Stats.MeanBetweenMinMax` | app_cliente_integral.py:55 | a column mean lies between the column's least and greatest value |
| `Stats.MeanOfConstant` | app_cliente_integral.py:55 | the mean of a column that holds one value everywhere is that value |
| `ClienteIntegral.GroupAverage` | app_cliente_integral.py:65 | there is no group row (pandas gives NaN) exactly when the per-customer table is empty |
| `ClienteIntegral.GroupAverageBounds` | app_cliente_integral.py:65 | for a non-empty table, each group column is that column's sum over the customers divided by their number, and lies between the least and the greatest customer value |
| `ClienteIntegral.GroupAverageOfOne` | app_cliente_integral.py:65 | the group row of a one-customer table is that customer's row |
| `ClienteIntegral.Run` | app_cliente_integral.py:29-65 | the run is rejected exactly when no area is selected, and stops without a table exactly when no customer is flagged in every selected area; otherwise an id is in the non-empty customer list exactly when some customer row with that id belongs to every selected area; the result ids are unique and ascending, and an id is in the result exactly when such a customer also has a row in a selected area; each result row holds the column means of that customer's rows in the selected areas; the group row is missing exactly when the table is empty and is otherwise the column means of the per-customer rows |
| `ClienteIntegral.EmptySelectionRejected` | app_cliente_integral.py:29-31 | an empty selection is rejected before any filtering or averaging, whatever the tables hold |
| `ClienteIntegral.TwoAreaExample` | app_cliente_integral.py:36-65 | with `brilla` and `consumo` selected, the customer lacking `consumo` is dropped, and the other customer's two rows average to (0.6, 0.5, 0.5, 0.5), which is also the group row |

## Left out

- The Streamlit page: title, text, the area picker, warnings, `st.stop`, the
  count of selected customers, tables and their two-decimal formatting
  (app_cliente_integral.py:20-27, 30-31, 39-43, 59-60, 67-68). These are
  display only. The model replaces the stops with the `SelectionRejected` and
  `NoCustomers` outcomes and takes the selection as a parameter.
- Loading the two CSV files and the framework cache
  (app_cliente_integral.py:12-18). This is file I/O. The tables are
  parameters of `Run`.
- The CSV export and the download button (app_cliente_integral.py:73-79).
  The serialisation is done by pandas, not by this code.
- Floating point. Scores are exact `real`s. The model does not capture
  rounding in sums and divisions.
- Missing values. pandas' `mean()` skips NaN per column, and a NaN flag never
  equals 1. The model assumes every flag and every score is present.
- The widget only offers the three areas and never repeats one. The model
  accepts any sequence of areas. `MembershipFilter.FilterDependsOnSetOnly`
  shows that repeats and order do not matter.
- A global score, percentile cut points and tier labels. The code computes
  none of these, so the model has none.
- Customer ids of other types. pandas may read `id_cliente` as text. The
  model uses integers, whose order is the order in which `groupby` sorts
  the keys.
