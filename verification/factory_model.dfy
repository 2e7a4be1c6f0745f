/**
 * `update_factory` of `factory_model.py`: which columns of a factory row an
 * edit rewrites, the update statement it issues and the record it returns.
 * The stored row, the freshly generated numbers and the update's row count
 * are inputs, as they come from the database and from `random`.
 */
module FactoryModel {
  import opened Wrappers
  import opened Python
  import Sql

  /** `select name, min_value, max_value, numbers from factory where id = %s` */
  datatype FactoryRow = FactoryRow(name: string, minValue: int, maxValue: int, numbers: seq<int>)

  /** The dict returned to the caller, broadcast as the updated factory. */
  datatype UpdatedFactory = UpdatedFactory(id: int, name: string, minValue: int, maxValue: int, numbers: seq<int>)

  datatype FactoryError =
    | FactoryNotFound(id: int)     // 'Could not find factory with id %s'
    | NothingToChange              // 'Nothing to change!'
    | UpdateFoundNoRow             // 'Update did not find row to update'

  /** A Python list of ints, as bound to the `numbers` column. */
  function NumbersValue(numbers: seq<int>): (v: Py)
    ensures v.PyList? && |v.items| == |numbers|
    ensures forall i :: 0 <= i < |numbers| ==> v.items[i] == PyInt(numbers[i])
  {
    PyList(seq(|numbers|, i requires 0 <= i < |numbers| => PyInt(numbers[i])))
  }

  /** The set-pairs an edit produces from the stored row: the regenerated
    * numbers and both bounds when the bounds change, then the name when the
    * stripped name differs. */
  function Changes(stored: FactoryRow, name: string, newMin: int, newMax: int, generated: seq<int>): seq<Sql.Clause>
  {
    (if (stored.minValue, stored.maxValue) != (newMin, newMax)
     then [[PyStr("numbers"), NumbersValue(generated)],
           [PyStr("min_value"), PyInt(newMin)],
           [PyStr("max_value"), PyInt(newMax)]]
     else [])
    + (if stored.name != name then [[PyStr("name"), PyStr(name)]] else [])
  }

  function ColumnNames(changes: seq<Sql.Clause>): seq<string>
    requires forall i :: 0 <= i < |changes| ==> |changes[i]| == 2 && changes[i][0].PyStr?
  {
    seq(|changes|, i requires 0 <= i < |changes| && |changes[i]| == 2 && changes[i][0].PyStr? => changes[i][0].s)
  }

  /** `[('id = %s', factory_id)]` */
  function WhereId(factoryId: int): seq<Sql.Clause>
  {
    [[PyStr("id = %s"), PyInt(factoryId)]]
  }

  /** `update_factory(con, factory_id, new_name, new_min_value, new_max_value)`.
    * `oldRow` is what the select returned, `generated` what `generate_numbers`
    * returns, `updateCount` the row count of the update. `issued` is the update
    * statement sent, if any. */
  method UpdateFactory(factoryId: int, newName: string, newMin: int, newMax: int,
                       oldRow: Option<FactoryRow>, generated: seq<int>, updateCount: int)
    returns (issued: Option<Sql.Statement>, result: Result<UpdatedFactory, FactoryError>)
    ensures oldRow.None? ==> issued.None? && result == Err(FactoryNotFound(factoryId))
    ensures oldRow.Some? ==>
              var changes := Changes(oldRow.value, Strip(newName), newMin, newMax, generated);
              && (changes == [] ==> issued.None? && result == Err(NothingToChange))
              && (changes != [] ==>
                    && Sql.Update("factory", WhereId(factoryId), changes).Ok?
                    && issued == Some(Sql.Update("factory", WhereId(factoryId), changes).value)
                    && (updateCount == 0 ==> result == Err(UpdateFoundNoRow))
                    && (updateCount != 0 ==> result.Ok?))
    ensures result.Ok? ==>
              && result.value.id == factoryId
              && result.value.name == Strip(newName)
              && result.value.minValue == newMin && result.value.maxValue == newMax
              && result.value.numbers == (if (oldRow.value.minValue, oldRow.value.maxValue) == (newMin, newMax)
                                          then oldRow.value.numbers else generated)
  {
    var name := Strip(newName);
    var updateColumnsValues: seq<Sql.Clause> := [];
    var returnValues := UpdatedFactory(factoryId, name, newMin, newMax, []);
    if oldRow.None? {
      return None, Err(FactoryNotFound(factoryId));
    }
    var stored := oldRow.value;
    if (stored.minValue, stored.maxValue) != (newMin, newMax) {
      var numbers := generated;
      updateColumnsValues := updateColumnsValues + [[PyStr("numbers"), NumbersValue(numbers)]];
      updateColumnsValues := updateColumnsValues + [[PyStr("min_value"), PyInt(newMin)]];
      updateColumnsValues := updateColumnsValues + [[PyStr("max_value"), PyInt(newMax)]];
      assert updateColumnsValues == [[PyStr("numbers"), NumbersValue(numbers)],
                                     [PyStr("min_value"), PyInt(newMin)],
                                     [PyStr("max_value"), PyInt(newMax)]];
      returnValues := returnValues.(numbers := numbers);
    } else {
      returnValues := returnValues.(numbers := stored.numbers);
    }
    if stored.name != name {
      updateColumnsValues := updateColumnsValues + [[PyStr("name"), PyStr(name)]];
    }
    assert updateColumnsValues == Changes(stored, name, newMin, newMax, generated);
    if updateColumnsValues == [] {
      return None, Err(NothingToChange);
    }
    ChangesAccepted(factoryId, stored, name, newMin, newMax, generated);
    var stmt := Sql.Update("factory", WhereId(factoryId), updateColumnsValues);
    issued := Some(stmt.value);
    if updateCount == 0 {
      return issued, Err(UpdateFoundNoRow);
    }
    result := Ok(returnValues);
  }

  // ---------------------------------------------------------------------
  // Properties of the change list

  /** Nothing changes exactly when both bounds and the stripped name are the
    * stored ones. */
  lemma ChangesEmpty(stored: FactoryRow, name: string, newMin: int, newMax: int, generated: seq<int>)
    ensures Changes(stored, name, newMin, newMax, generated) == [] <==>
              stored.minValue == newMin && stored.maxValue == newMax && stored.name == name
  {
  }

  /** The columns set: `numbers`, `min_value`, `max_value` in that order when
    * the bounds change, then `name` when the name changes; each at most once. */
  lemma ChangesColumns(stored: FactoryRow, name: string, newMin: int, newMax: int, generated: seq<int>)
    ensures var c := Changes(stored, name, newMin, newMax, generated);
            && (forall i :: 0 <= i < |c| ==> |c[i]| == 2 && c[i][0].PyStr?)
            && ColumnNames(c) == (if (stored.minValue, stored.maxValue) != (newMin, newMax)
                                  then ["numbers", "min_value", "max_value"] else [])
                                 + (if stored.name != name then ["name"] else [])
            && Distinct(ColumnNames(c))
  {
    var c := Changes(stored, name, newMin, newMax, generated);
    var names := ColumnNames(c);
    ColumnWordsDistinct();
    var all := ["numbers", "min_value", "max_value", "name"];
    if (stored.minValue, stored.maxValue) != (newMin, newMax) {
      assert names[..3] == all[..3];
      if stored.name != name {
        assert names == all;
      } else {
        assert names == all[..3];
      }
    } else {
      assert names == (if stored.name != name then [all[3]] else []);
    }
  }

  /** The value each changed column is bound to. */
  function NewValue(column: string, name: string, newMin: int, newMax: int, generated: seq<int>): Py
  {
    match column
    case "numbers" => NumbersValue(generated)
    case "min_value" => PyInt(newMin)
    case "max_value" => PyInt(newMax)
    case _ => PyStr(name)
  }

  /** Each column is bound to its new value: the regenerated numbers, the new
    * bounds, the stripped name. */
  lemma ChangesValues(stored: FactoryRow, name: string, newMin: int, newMax: int, generated: seq<int>)
    ensures var c := Changes(stored, name, newMin, newMax, generated);
            forall i :: 0 <= i < |c| ==> |c[i]| == 2 && c[i][0].PyStr? &&
                                         c[i][1] == NewValue(c[i][0].s, name, newMin, newMax, generated)
  {
    ColumnWordsDistinct();
  }

  /** The four column names are pairwise different. */
  lemma ColumnWordsDistinct()
    ensures Distinct(["numbers", "min_value", "max_value", "name"])
  {
    var all := ["numbers", "min_value", "max_value", "name"];
    assert all[0][1] == 'u' && all[1][1] == 'i' && all[2][1] == 'a' && all[3][1] == 'a';
    assert all[2][0] == 'm' && all[3][0] == 'n';
  }

  /** The update builder accepts the change list; the statement sets each
    * changed column and selects the row by id, and binds the new values then
    * the id. */
  lemma ChangesUpdateOk(factoryId: int, stored: FactoryRow, name: string, newMin: int, newMax: int, generated: seq<int>)
    ensures var c := Changes(stored, name, newMin, newMax, generated);
            var r := Sql.Update("factory", WhereId(factoryId), c);
            && r.Ok?
            && r.value.text == "update factory set " + Join(", ", Sql.Assignments(c)) + " where id = %s"
            && r.value.params == Sql.Positional(Sql.SecondItems(c) + [PyInt(factoryId)])
  {
    ChangesAccepted(factoryId, stored, name, newMin, newMax, generated);
    WhereIdOk(factoryId);
  }

  /** The update builder accepts the id condition and the change list. */
  lemma ChangesAccepted(factoryId: int, stored: FactoryRow, name: string, newMin: int, newMax: int, generated: seq<int>)
    ensures Sql.Update("factory", WhereId(factoryId), Changes(stored, name, newMin, newMax, generated)).Ok?
  {
    ChangesSetClausesOk(stored, name, newMin, newMax, generated);
    WhereIdOk(factoryId);
  }

  /** The column names hold no `%s`. */
  lemma ChangesSetClausesOk(stored: FactoryRow, name: string, newMin: int, newMax: int, generated: seq<int>)
    ensures var c := Changes(stored, name, newMin, newMax, generated);
            forall i :: 0 <= i < |c| ==> Sql.SetClauseOk(c[i])
  {
    NoPctS("numbers");
    NoPctS("min_value");
    NoPctS("max_value");
    NoPctS("name");
  }

  lemma WhereIdOk(factoryId: int)
    ensures Sql.WhereClauseOk(WhereId(factoryId)[0])
    ensures Sql.Conditions(WhereId(factoryId)) == ["id = %s"]
    ensures Sql.SecondItems(WhereId(factoryId)) == [PyInt(factoryId)]
  {
    var cond := "id = %s";
    assert Sql.HasPctS(cond) by { assert cond[5] == '%' && cond[6] == 's'; }
  }

  /** A word without '%' holds no `%s`. */
  lemma NoPctS(s: string)
    requires forall i :: 0 <= i < |s| ==> s[i] != '%'
    ensures !Sql.HasPctS(s)
  {
  }
}
