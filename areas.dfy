/**
 The business areas a customer can belong to, and the customer table
 (`base_clientes.csv`): one row per customer with an integer membership flag
 per area.
 */
module Areas {

  /** The areas the user may pick from, in the order the application offers them. */
  datatype Area = Brilla | Consumo | Sad
  {
    /** The area's name: the flag column of the customer table and the value
        of the `area` column of the dimension table. */
    function Name(): string {
      match this
      case Brilla => "brilla"
      case Consumo => "consumo"
      case Sad => "sad"
    }
  }

  /** The options of the area picker. */
  const AREAS: seq<Area> := [Brilla, Consumo, Sad]

  /** The picker offers every area, each once, so any selection is a list
      of picker options. */
  lemma EveryAreaOffered(a: Area)
    ensures a in AREAS
    ensures |AREAS| == 3 && AREAS[0] != AREAS[1] && AREAS[1] != AREAS[2] && AREAS[0] != AREAS[2]
  {
    match a
    case Brilla => assert AREAS[0] == a;
    case Consumo => assert AREAS[1] == a;
    case Sad => assert AREAS[2] == a;
  }

  /** Distinct areas have distinct names, so a name identifies its area. */
  lemma NameInjective(a: Area, b: Area)
    ensures a.Name() == b.Name() <==> a == b
  {
    assert "brilla"[0] != "consumo"[0] && "consumo"[0] != "sad"[0] && "brilla"[0] != "sad"[0];
  }

  /** The names a selection stands for: what `isin` compares the `area` column with. */
  function SelectedNames(sel: seq<Area>): (names: set<string>)
    ensures forall a: Area :: a.Name() in names <==> a in sel
    ensures forall n :: n in names ==> exists a: Area :: a in sel && a.Name() == n
  {
    var names := set a | a in sel :: a.Name();
    forall a: Area ensures a.Name() in names ==> a in sel {
      if a.Name() in names {
        var b :| b in sel && b.Name() == a.Name();
        NameInjective(a, b);
      }
    }
    names
  }

  /** A row of the customer table: the customer's id and the flag column of
      each area. */
  datatype Customer = Customer(id: int, brilla: int, consumo: int, sad: int)
  {
    /** The value of the flag column of area `a`. */
    function Flag(a: Area): int {
      match a
      case Brilla => brilla
      case Consumo => consumo
      case Sad => sad
    }

    /** `df_clientes[a] == 1` for this row: only the value 1 marks membership. */
    predicate Member(a: Area) {
      Flag(a) == 1
    }
  }
}
