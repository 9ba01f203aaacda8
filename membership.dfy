/**
 The membership filter: the ids of the customers that belong to ALL selected
 areas, in the order of the customer table.
 */
module MembershipFilter {
  import opened Areas

  /** What the filter promises of a customer row: it is flagged 1 in every
      selected area. */
  ghost predicate InAllAreas(c: Customer, sel: seq<Area>) {
    forall a :: a in sel ==> c.Member(a)
  }

  /** One entry of the mask built by `np.logical_and.reduce`: the per-area
      comparisons `flag == 1`, combined left to right with AND. The reduction
      has no initial value, so it is only defined for a non-empty selection. */
  function AndReduce(c: Customer, sel: seq<Area>): (b: bool)
    requires sel != []
    ensures b <==> InAllAreas(c, sel)
  {
    if |sel| == 1 then c.Member(sel[0])
    else AndReduce(c, sel[..|sel| - 1]) && c.Member(sel[|sel| - 1])
  }

  /** `df_clientes.loc[filtro, "id_cliente"].tolist()`: the id of every row
      whose mask entry is true, in table order. A customer id that occurs in
      several qualifying rows occurs as often in the result. */
  function FilterCustomers(cs: seq<Customer>, sel: seq<Area>): (ids: seq<int>)
    requires sel != []
    ensures |ids| <= |cs|
    ensures forall id :: id in ids <==> exists c :: c in cs && c.id == id && InAllAreas(c, sel)
  {
    if cs == [] then []
    else
      var rest := FilterCustomers(cs[1..], sel);
      assert forall c :: c in cs[1..] ==> c in cs;
      if AndReduce(cs[0], sel) then [cs[0].id] + rest else rest
  }

  /** Every id the filter returns under a larger selection it also returns
      under a smaller one, and it returns no more ids: adding an area can only
      shrink the result, removing one can only grow it. */
  lemma {:induction false} FilterAntitone(cs: seq<Customer>, sel: seq<Area>, more: seq<Area>)
    requires sel != [] && more != []
    requires forall a :: a in sel ==> a in more
    ensures forall id :: id in FilterCustomers(cs, more) ==> id in FilterCustomers(cs, sel)
    ensures |FilterCustomers(cs, more)| <= |FilterCustomers(cs, sel)|
  {
    if cs != [] {
      FilterAntitone(cs[1..], sel, more);
      assert AndReduce(cs[0], more) ==> AndReduce(cs[0], sel);
    }
  }

  /** Only the set of selected areas matters: neither the order in which
      they were picked nor a repetition changes the result. */
  lemma {:induction false} FilterDependsOnSetOnly(cs: seq<Customer>, s1: seq<Area>, s2: seq<Area>)
    requires s1 != [] && s2 != []
    requires forall a :: a in s1 <==> a in s2
    ensures FilterCustomers(cs, s1) == FilterCustomers(cs, s2)
  {
    if cs != [] {
      FilterDependsOnSetOnly(cs[1..], s1, s2);
      assert AndReduce(cs[0], s1) == AndReduce(cs[0], s2);
    }
  }

  /** The filter is a logical AND, not an OR: a customer of `brilla` without
      `consumo` is dropped when both are selected. */
  lemma AndNotOrExample()
    ensures FilterCustomers([Customer(1, 1, 0, 0), Customer(2, 1, 1, 0)], [Brilla, Consumo]) == [2]
  {
  }

  /** The result is a list, not a set: an id in two qualifying rows appears twice. */
  lemma DuplicateIdsKeptExample()
    ensures FilterCustomers([Customer(7, 1, 1, 0), Customer(7, 1, 0, 1)], [Brilla]) == [7, 7]
  {
  }
}
