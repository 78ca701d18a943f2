/** The members of DatabaseUtils that read a model through its metadata:
    column values, the select column list and primary-key extraction. */
module ModelValues {
  import opened Wrappers
  import opened Text
  import opened JavaValues
  import opened Metadata
  import opened DatabaseUtils
  import opened DatabaseCache

  // ---------------------------------------------------------------------
  // toColumnValues / toColumnValuesDuplicate
  // ---------------------------------------------------------------------

  /** The values of the given fields in order; a null value is kept as None
      when allowNull holds and skipped otherwise. */
  function ColumnValues(fields: seq<Field>, model: Instance, allowNull: bool): seq<Option<Value>>
  {
    if |fields| == 0 then []
    else
      var v := ValueOf(model, fields[|fields| - 1]);
      ColumnValues(fields[..|fields| - 1], model, allowNull) + (if v.None? && !allowNull then [] else [v])
  }

  /** The fields flagged for ON DUPLICATE KEY UPDATE, in order. */
  function OnDuplicateFields(fields: seq<Field>): seq<Field>
  {
    if |fields| == 0 then []
    else
      var last := fields[|fields| - 1];
      OnDuplicateFields(fields[..|fields| - 1]) + (if UpdateOnDuplicateOf(last) then [last] else [])
  }

  /** The values of the non-null entries, in order. */
  function NonNull(values: seq<Option<Value>>): seq<Option<Value>>
  {
    if |values| == 0 then []
    else NonNull(values[..|values| - 1]) + (if values[|values| - 1].None? then [] else [values[|values| - 1]])
  }

  /** With nulls allowed there is one entry per field, holding its value. */
  lemma {:induction false} ColumnValuesWithNulls(fields: seq<Field>, model: Instance)
    ensures |ColumnValues(fields, model, true)| == |fields|
    ensures forall i :: 0 <= i < |fields| ==> ColumnValues(fields, model, true)[i] == ValueOf(model, fields[i])
  {
    if |fields| > 0 {
      ColumnValuesWithNulls(fields[..|fields| - 1], model);
    }
  }

  /** Without nulls the entries are exactly the non-null values, in field
      order. */
  lemma {:induction false} ColumnValuesWithoutNulls(fields: seq<Field>, model: Instance)
    ensures ColumnValues(fields, model, false) == NonNull(ColumnValues(fields, model, true))
    ensures forall i :: 0 <= i < |ColumnValues(fields, model, false)| ==> ColumnValues(fields, model, false)[i].Some?
  {
    if |fields| > 0 {
      var init := fields[..|fields| - 1];
      ColumnValuesWithoutNulls(init, model);
      var all := ColumnValues(fields, model, true);
      assert all[..|all| - 1] == ColumnValues(init, model, true);
    }
  }

  /** The number of nulls skipped is the number of fields without a value. */
  lemma {:induction false} ColumnValuesLength(fields: seq<Field>, model: Instance)
    ensures |ColumnValues(fields, model, false)| == |fields| - NullCount(fields, model)
  {
    if |fields| > 0 {
      ColumnValuesLength(fields[..|fields| - 1], model);
    }
  }

  function NullCount(fields: seq<Field>, model: Instance): nat
  {
    if |fields| == 0 then 0
    else NullCount(fields[..|fields| - 1], model) + (if ValueOf(model, fields[|fields| - 1]).None? then 1 else 0)
  }

  /** toColumnValues over the persistable fields of the model's class. */
  method ToColumnValues(modelClass: ModelClass, model: Instance, allowNull: bool) returns (r: seq<Option<Value>>)
    ensures r == ColumnValues(ModelFields(modelClass), model, allowNull)
  {
    var fields := ModelFields(modelClass);
    var columnValueList := [];
    for i := 0 to |fields|
      invariant columnValueList == ColumnValues(fields[..i], model, allowNull)
    {
      assert fields[..i + 1][..i] == fields[..i];
      var value := ValueOf(model, fields[i]);
      if value.None? {
        if allowNull {
          columnValueList := columnValueList + [None];
        }
        continue;
      }
      columnValueList := columnValueList + [value];
    }
    assert fields[..|fields|] == fields;
    r := columnValueList;
  }

  /** toColumnValuesDuplicate: the same restricted to the fields flagged
      updateOnDuplicate. */
  method ToColumnValuesDuplicate(modelClass: ModelClass, model: Instance, allowNull: bool) returns (r: seq<Option<Value>>)
    ensures r == ColumnValues(OnDuplicateFields(ModelFields(modelClass)), model, allowNull)
  {
    var fields := ModelFields(modelClass);
    var columnValueList := [];
    for i := 0 to |fields|
      invariant columnValueList == ColumnValues(OnDuplicateFields(fields[..i]), model, allowNull)
    {
      assert fields[..i + 1][..i] == fields[..i];
      var before := OnDuplicateFields(fields[..i]);
      assert OnDuplicateFields(fields[..i + 1]) == before + (if UpdateOnDuplicateOf(fields[i]) then [fields[i]] else []);
      if UpdateOnDuplicateOf(fields[i]) {
        assert (before + [fields[i]])[..|before|] == before;
        var value := ValueOf(model, fields[i]);
        assert ColumnValues(before + [fields[i]], model, allowNull) ==
          columnValueList + (if value.None? && !allowNull then [] else [value]);
        if value.None? {
          if allowNull {
            columnValueList := columnValueList + [None];
          }
          continue;
        }
        columnValueList := columnValueList + [value];
      } else {
        assert before + [] == before;
      }
    }
    assert fields[..|fields|] == fields;
    r := columnValueList;
  }

  // ---------------------------------------------------------------------
  // buildColumns
  // ---------------------------------------------------------------------

  /** The column names that a select lists: not ignored, not excluded, in
      field order. */
  function SelectableColumns(fields: seq<Field>, excluded: seq<string>): seq<string>
  {
    if |fields| == 0 then []
    else
      var f := fields[|fields| - 1];
      var c := ColumnNameOf(f);
      SelectableColumns(fields[..|fields| - 1], excluded) + (if !IsIgnore(f) && c !in excluded then [c] else [])
  }

  /** buildColumns: the selectable columns joined by ',', or "*" when none
      remain. */
  function ColumnList(fields: seq<Field>, excluded: seq<string>): string
  {
    var columns := SelectableColumns(fields, excluded);
    if |columns| == 0 then "*" else Join(columns, ",")
  }

  /** A column is listed exactly when some non-ignored field carries that
      name and the name is not excluded. */
  lemma {:induction false} SelectableColumnsMembers(fields: seq<Field>, excluded: seq<string>)
    ensures forall c :: c in SelectableColumns(fields, excluded) <==>
      c !in excluded && exists i :: 0 <= i < |fields| && !IsIgnore(fields[i]) && ColumnNameOf(fields[i]) == c
  {
    if |fields| > 0 {
      var n := |fields| - 1;
      SelectableColumnsMembers(fields[..n], excluded);
      forall c ensures c in SelectableColumns(fields, excluded) <==>
        c !in excluded && exists i :: 0 <= i < |fields| && !IsIgnore(fields[i]) && ColumnNameOf(fields[i]) == c
      {
        if exists i :: 0 <= i < |fields| && !IsIgnore(fields[i]) && ColumnNameOf(fields[i]) == c {
          var i :| 0 <= i < |fields| && !IsIgnore(fields[i]) && ColumnNameOf(fields[i]) == c;
          if i < n {
            assert fields[..n][i] == fields[i];
          }
        }
        if c in SelectableColumns(fields[..n], excluded) {
          var i :| 0 <= i < n && !IsIgnore(fields[..n][i]) && ColumnNameOf(fields[..n][i]) == c;
          assert fields[..n][i] == fields[i];
        }
      }
    }
  }

  /** Without exclusions every persistable field of a class is listed, one
      column per field. */
  lemma {:induction false} ColumnListNoExclusions(fields: seq<Field>)
    requires forall i :: 0 <= i < |fields| ==> !IsIgnore(fields[i])
    ensures SelectableColumns(fields, []) == seq(|fields|, i requires 0 <= i < |fields| => ColumnNameOf(fields[i]))
  {
    if |fields| > 0 {
      ColumnListNoExclusions(fields[..|fields| - 1]);
    }
  }

  method BuildColumns(excludedColumns: seq<string>, modelClass: ModelClass) returns (r: string)
    ensures r == ColumnList(ModelFields(modelClass), excludedColumns)
  {
    var fields := ModelFields(modelClass);
    var sql := "";
    for i := 0 to |fields|
      invariant sql == Suffixed(SelectableColumns(fields[..i], excludedColumns), ",")
    {
      assert fields[..i + 1][..i] == fields[..i];
      var columnName := ColumnNameOf(fields[i]);
      var before := SelectableColumns(fields[..i], excludedColumns);
      assert SelectableColumns(fields[..i + 1], excludedColumns) ==
        before + (if !IsIgnore(fields[i]) && columnName !in excludedColumns then [columnName] else []);
      if !IsIgnore(fields[i]) && columnName !in excludedColumns {
        assert (before + [columnName])[..|before|] == before;
        sql := sql + columnName + ",";
      } else {
        assert before + [] == before;
      }
    }
    assert fields[..|fields|] == fields;
    var columns := SelectableColumns(fields, excludedColumns);
    if |sql| > 0 {
      if |columns| == 0 {
        assert false;
      }
      SuffixedIsJoinSep(columns, ",");
      assert sql[..|sql| - 1] == Join(columns, ",");
      return sql[..|sql| - 1];
    }
    if |columns| > 0 {
      SuffixedIsJoinSep(columns, ",");
      assert false;
    }
    return "*";
  }

  // ---------------------------------------------------------------------
  // getAndRemovePrimaryKey
  // ---------------------------------------------------------------------

  /** Reads the primary-key field through its getter and, when it is not
      null, sets it to null through its setter. A pk column whose camel
      form fails, or an empty pk field name, throws before anything is
      read. */
  method GetAndRemovePrimaryKey(modelClass: ModelClass, model: ModelInstance) returns (r: Result<Option<Value>, JavaError>)
    modifies model
    ensures PkFieldOf(modelClass).Err? ==> r == Err(PkFieldOf(modelClass).error) && model.values == old(model.values)
    ensures PkFieldOf(modelClass).Ok? && PkFieldOf(modelClass).value == "" ==>
              r == Err(IndexOutOfBounds) && model.values == old(model.values)
    ensures PkFieldOf(modelClass).Ok? && PkFieldOf(modelClass).value != "" ==>
              var pk := PkFieldOf(modelClass).value;
              && r == Ok(if pk in old(model.values) then Some(old(model.values)[pk]) else None)
              && model.values == old(model.values) - {pk}
  {
    var fieldName := PkFieldOf(modelClass);
    if fieldName.Err? {
      return Err(fieldName.error);
    }
    var pk := fieldName.value;
    var getter := GetterName(pk);
    if getter.Err? {
      return Err(getter.error);
    }
    var value := if pk in model.values then Some(model.values[pk]) else None;
    if value.Some? {
      model.values := model.values - {pk};
    }
    r := Ok(value);
  }
}
