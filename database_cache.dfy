/** DatabaseCache: the naming and metadata rules derived from a model type,
    and the memo tables that keep the first value computed for a key. */
module DatabaseCache {
  import opened Wrappers
  import opened Text
  import opened JavaValues
  import opened Metadata
  import opened DatabaseUtils

  // ---------------------------------------------------------------------
  // Persistable fields
  // ---------------------------------------------------------------------

  /** isIgnore: the serialization id and @Ignore fields are not columns. */
  predicate IsIgnore(field: Field)
  {
    field.name == "serialVersionUID" || field.ignoreAnnotated
  }

  /** The declared fields minus the ignored ones, in declaration order. */
  function PersistableFields(fields: seq<Field>): seq<Field>
  {
    if |fields| == 0 then []
    else
      var last := fields[|fields| - 1];
      PersistableFields(fields[..|fields| - 1]) + (if IsIgnore(last) then [] else [last])
  }

  /** computeModelFields of a class. */
  function ModelFields(modelClass: ModelClass): seq<Field>
  {
    PersistableFields(modelClass.declaredFields)
  }

  /** A field is persistable exactly when it is declared and not ignored. */
  lemma {:induction false} PersistableFieldsMembers(fields: seq<Field>)
    ensures forall f :: f in PersistableFields(fields) <==> f in fields && !IsIgnore(f)
    ensures |PersistableFields(fields)| <= |fields|
  {
    if |fields| > 0 {
      var init := fields[..|fields| - 1];
      PersistableFieldsMembers(init);
      assert fields == init + [fields[|fields| - 1]];
    }
  }

  /** The filter keeps order: filtering a concatenation concatenates the
      filtered parts. */
  lemma {:induction false} PersistableFieldsAppend(a: seq<Field>, b: seq<Field>)
    ensures PersistableFields(a + b) == PersistableFields(a) + PersistableFields(b)
  {
    if |b| == 0 {
      assert a + b == a;
    } else {
      assert (a + b)[..|a + b| - 1] == a + b[..|b| - 1];
      PersistableFieldsAppend(a, b[..|b| - 1]);
    }
  }

  // ---------------------------------------------------------------------
  // Column names and flags
  // ---------------------------------------------------------------------

  /** getColumnName: the @Column name, else the snake_case field name. */
  function ColumnNameOf(field: Field): string
  {
    if field.column.Some? then field.column.value.name else Underline(field.name)
  }

  /** An unannotated field's column name is lower snake case and
      camel-cases back to the field name when the name has no '_' and does
      not start with an upper-case letter. */
  lemma {:induction false} ColumnNameOfUnannotated(field: Field)
    requires field.column.None?
    ensures forall i :: 0 <= i < |ColumnNameOf(field)| ==> !IsUpperAscii(ColumnNameOf(field)[i])
    ensures '_' !in field.name && (|field.name| > 0 ==> !IsUpperAscii(field.name[0])) ==>
              CamelName(ColumnNameOf(field)) == Ok(field.name)
  {
    UnderlineIsLowerCase(field.name);
    if '_' !in field.name && (|field.name| > 0 ==> !IsUpperAscii(field.name[0])) {
      CamelUnderlineRoundTrip(field.name);
    }
  }

  /** updateOnDuplicate: the @Column flag, else false. */
  predicate UpdateOnDuplicateOf(field: Field)
  {
    field.column.Some? && field.column.value.updateOnDuplicate
  }

  /** The cache key getColumnName and updateOnDuplicate file a field under. */
  function FieldKey(field: Field): string
  {
    field.ownerSimpleName + "_" + field.name
  }

  // ---------------------------------------------------------------------
  // Accessor names
  // ---------------------------------------------------------------------

  /** prefix + upper-cased first character + the rest; an empty name makes
      charAt(0) throw. */
  function AccessorName(prefix: string, name: string): Result<string, JavaError>
  {
    if |name| == 0 then Err(IndexOutOfBounds) else Ok(prefix + [ToUpper(name[0])] + name[1..])
  }

  function GetterName(fieldName: string): Result<string, JavaError>
  {
    AccessorName("get", fieldName)
  }

  function SetterName(fieldName: string): Result<string, JavaError>
  {
    AccessorName("set", fieldName)
  }

  /** Getter and setter names are "get"/"set" followed by the field name
      with its first character upper-cased. */
  lemma {:induction false} AccessorNamesShape(fieldName: string)
    requires |fieldName| > 0
    ensures GetterName(fieldName).Ok? && SetterName(fieldName).Ok?
    ensures GetterName(fieldName).value[..3] == "get" && SetterName(fieldName).value[..3] == "set"
    ensures GetterName(fieldName).value[3..] == SetterName(fieldName).value[3..]
    ensures GetterName(fieldName).value[4..] == fieldName[1..]
    ensures !IsLowerAscii(GetterName(fieldName).value[3])
  {
  }

  /** The intended getter-to-field rule inverts the getter rule for every
      field name whose first character is not an upper-case letter. */
  lemma {:induction false} GetterToFieldNameRoundTrip(fieldName: string)
    requires |fieldName| > 0 && !IsUpperAscii(fieldName[0])
    ensures GetterToFieldName(GetterName(fieldName).value) == Ok(fieldName)
  {
    var g := GetterName(fieldName).value;
    assert g[3..] == [ToUpper(fieldName[0])] + fieldName[1..];
    CaseInverse(fieldName[0]);
    assert [fieldName[0]] + fieldName[1..] == fieldName;
  }

  /** methodToFieldName as written agrees with the intended rule when "get"
      does not occur in the field name after its first character. */
  lemma {:induction false} MethodToFieldNameOfGetter(fieldName: string)
    requires |fieldName| > 0 && !IsUpperAscii(fieldName[0])
    requires forall j :: !OccursAt(fieldName[1..], "get", j)
    ensures MethodToFieldName(GetterName(fieldName).value) == Ok(fieldName)
  {
    var g := GetterName(fieldName).value;
    var x := g[3..];
    assert x == [ToUpper(fieldName[0])] + fieldName[1..];
    assert x[1..] == fieldName[1..];
    assert forall j :: OccursAt(x, "get", j) && j > 0 ==> OccursAt(fieldName[1..], "get", j - 1);
    assert x[0] != 'g';
    assert !OccursAt(x, "get", 0);
    RemoveAllAbsent(x, "get");
    assert g[..3] == "get";
    assert RemoveAll(g, "get") == RemoveAll(x, "get");
    GetterToFieldNameRoundTrip(fieldName);
  }

  /** The as-written rule loses every inner "get": the getter of field
      "budget" resolves to field "bud". */
  lemma {:induction false} MethodToFieldNameDropsInnerGet()
    ensures GetterName("budget") == Ok("getBudget")
    ensures MethodToFieldName("getBudget") == Ok("bud")
    ensures GetterToFieldName("getBudget") == Ok("budget")
  {
    BudgetGetterName();
    BudgetGetterStripped();
    assert "getBudget"[..3] == "get" && "getBudget"[3..] == "Budget";
    assert ToLower('B') == 'b';
    assert [ToLower("Bud"[0])] + "Bud"[1..] == "bud";
    assert [ToLower("Budget"[0])] + "Budget"[1..] == "budget";
  }

  lemma {:induction false} BudgetGetterName()
    ensures GetterName("budget") == Ok("getBudget")
  {
    assert ToUpper('b') == 'B';
    assert "get" + ['B'] + "budget"[1..] == "getBudget";
  }

  /** Removing every "get" from "getBudget", one position at a time. */
  lemma {:induction false} BudgetGetterStripped()
    ensures RemoveAll("getBudget", "get") == "Bud"
  {
    assert RemoveAll("", "get") == "";
    assert RemoveAll("et", "get") == "et";
    assert RemoveAll("get", "get") == "";
    assert RemoveAll("dget", "get") == "d";
    assert RemoveAll("udget", "get") == "ud";
    assert RemoveAll("Budget", "get") == "Bud";
  }

  // ---------------------------------------------------------------------
  // Table and primary-key names
  // ---------------------------------------------------------------------

  /** getTableName(className, prefix); English.plural, whose source is not
      part of this model, is the parameter plural. */
  function DerivedTableName(className: string, prefix: Option<string>, plural: string -> string): string
  {
    var hasPrefix := prefix.Some? && |Trim(prefix.value)| > 0;
    if hasPrefix then plural(prefix.value + "_" + Underline(className))
    else plural(Underline(className))
  }

  /** The prefix is used exactly when it holds a character above ' '. */
  lemma {:induction false} DerivedTableNamePrefix(className: string, prefix: Option<string>, plural: string -> string)
    ensures (prefix.Some? && exists i :: 0 <= i < |prefix.value| && !IsBlankChar(prefix.value[i])) ==>
              DerivedTableName(className, prefix, plural) == plural(prefix.value + "_" + Underline(className))
    ensures (prefix.None? || forall i :: 0 <= i < |prefix.value| ==> IsBlankChar(prefix.value[i])) ==>
              DerivedTableName(className, prefix, plural) == plural(Underline(className))
  {
    if prefix.Some? {
      TrimNonEmptyIff(prefix.value);
    }
  }

  /** getTableName(Class): a non-empty @Table name wins over the derived one. */
  function TableNameOf(modelClass: ModelClass, prefix: Option<string>, plural: string -> string): string
  {
    var table := modelClass.table;
    if table.Some? && IsNotEmpty(Some(table.value.name)) then table.value.name
    else DerivedTableName(modelClass.simpleName, prefix, plural)
  }

  lemma {:induction false} TableNameOfAnnotated(modelClass: ModelClass, prefix: Option<string>, plural: string -> string)
    ensures modelClass.table.Some? && modelClass.table.value.name != "" ==>
              TableNameOf(modelClass, prefix, plural) == modelClass.table.value.name
    ensures modelClass.table.None? || modelClass.table.value.name == "" ==>
              TableNameOf(modelClass, prefix, plural) == DerivedTableName(modelClass.simpleName, prefix, plural)
  {
  }

  /** getPKColumn: the @Table pk, else "id". */
  function PkColumnOf(modelClass: ModelClass): string
  {
    if modelClass.table.Some? then modelClass.table.value.pk else "id"
  }

  /** getPKField: the camel-case form of the pk column. */
  function PkFieldOf(modelClass: ModelClass): (r: Result<string, JavaError>)
    ensures modelClass.table.None? ==> r == Ok("id")
  {
    var r := CamelName(PkColumnOf(modelClass));
    if modelClass.table.None? then
      CamelUnderlineRoundTrip("id");
      assert Underline("id") == "id";
      r
    else r
  }

  // ---------------------------------------------------------------------
  // Column-to-field mappings
  // ---------------------------------------------------------------------

  /** Collectors.toMap(column name, field name): a repeated column name
      throws IllegalStateException. */
  function ColumnMapping(fields: seq<Field>): Result<map<string, string>, JavaError>
  {
    if |fields| == 0 then Ok(map[])
    else
      match ColumnMapping(fields[..|fields| - 1])
      case Err(e) => Err(e)
      case Ok(m) =>
        var f := fields[|fields| - 1];
        var c := ColumnNameOf(f);
        if c in m then Err(IllegalState("Duplicate key " + m[c])) else Ok(m[c := f.name])
  }

  predicate DistinctColumns(fields: seq<Field>)
  {
    forall i, j :: 0 <= i < j < |fields| ==> ColumnNameOf(fields[i]) != ColumnNameOf(fields[j])
  }

  /** A successful mapping maps every field's column name to that field's
      name and holds no other key. */
  lemma {:induction false} ColumnMappingContents(fields: seq<Field>)
    requires ColumnMapping(fields).Ok?
    ensures var m := ColumnMapping(fields).value;
      (forall i :: 0 <= i < |fields| ==> ColumnNameOf(fields[i]) in m && m[ColumnNameOf(fields[i])] == fields[i].name) &&
      (forall c :: c in m ==> exists i :: 0 <= i < |fields| && ColumnNameOf(fields[i]) == c)
  {
    if |fields| > 0 {
      var n := |fields| - 1;
      var init := fields[..n];
      var f := fields[n];
      assert fields == init + [f];
      ColumnMappingContents(init);
      var m := ColumnMapping(init).value;
      assert ColumnMapping(fields) == Ok(m[ColumnNameOf(f) := f.name]);
      MappingKeysStep(init, f, fields, m, m[ColumnNameOf(f) := f.name]);
      MappingValuesStep(init, f, fields, m);
    }
  }

  /** Every key of the grown mapping names a field of the grown list. */
  lemma {:induction false} MappingKeysStep(init: seq<Field>, f: Field, s: seq<Field>, m: map<string, string>, mm: map<string, string>)
    requires s == init + [f] && mm == m[ColumnNameOf(f) := f.name]
    requires forall c :: c in m ==> exists i :: 0 <= i < |init| && ColumnNameOf(init[i]) == c
    ensures forall c :: c in mm ==> exists i :: 0 <= i < |s| && ColumnNameOf(s[i]) == c
  {
    assert s[|init|] == f;
    forall c | c in mm
      ensures exists i :: 0 <= i < |s| && ColumnNameOf(s[i]) == c
    {
      if c in m {
        var i :| 0 <= i < |init| && ColumnNameOf(init[i]) == c;
        assert s[i] == init[i];
      }
    }
  }

  /** The grown mapping sends every field's column name to the field's name,
      provided the new column name was not a key. */
  lemma {:induction false} MappingValuesStep(init: seq<Field>, f: Field, s: seq<Field>, m: map<string, string>)
    requires s == init + [f]
    requires forall i :: 0 <= i < |init| ==> ColumnNameOf(init[i]) in m && m[ColumnNameOf(init[i])] == init[i].name
    requires ColumnNameOf(f) !in m
    ensures var mm := m[ColumnNameOf(f) := f.name];
      forall i :: 0 <= i < |s| ==> ColumnNameOf(s[i]) in mm && mm[ColumnNameOf(s[i])] == s[i].name
  {
    forall i | 0 <= i < |s|
      ensures ColumnNameOf(s[i]) in m[ColumnNameOf(f) := f.name]
      ensures m[ColumnNameOf(f) := f.name][ColumnNameOf(s[i])] == s[i].name
    {
      if i < |init| {
        assert s[i] == init[i];
      }
    }
  }

  /** Distinct column names after one more field: distinct before, and the
      new field's column name is not among them. */
  lemma {:induction false} DistinctSnoc(init: seq<Field>, f: Field)
    ensures DistinctColumns(init + [f]) <==>
      DistinctColumns(init) && forall i :: 0 <= i < |init| ==> ColumnNameOf(init[i]) != ColumnNameOf(f)
  {
    var s := init + [f];
    assert s[|init|] == f;
    if DistinctColumns(s) {
      forall i, j | 0 <= i < j < |init|
        ensures ColumnNameOf(init[i]) != ColumnNameOf(init[j])
      {
        assert s[i] == init[i] && s[j] == init[j];
      }
      forall i | 0 <= i < |init|
        ensures ColumnNameOf(init[i]) != ColumnNameOf(f)
      {
        assert s[i] == init[i];
      }
    }
    if DistinctColumns(init) && forall i :: 0 <= i < |init| ==> ColumnNameOf(init[i]) != ColumnNameOf(f) {
      forall i, j | 0 <= i < j < |s|
        ensures ColumnNameOf(s[i]) != ColumnNameOf(s[j])
      {
        assert s[i] == init[i];
        if j < |init| {
          assert s[j] == init[j];
        }
      }
    }
  }

  /** The mapping is built exactly when the column names are distinct. */
  lemma {:induction false} ColumnMappingOkIff(fields: seq<Field>)
    ensures ColumnMapping(fields).Ok? <==> DistinctColumns(fields)
  {
    if |fields| > 0 {
      var n := |fields| - 1;
      var init := fields[..n];
      var f := fields[n];
      assert fields == init + [f];
      ColumnMappingOkIff(init);
      DistinctSnoc(init, f);
      if ColumnMapping(init).Ok? {
        ColumnMappingContents(init);
        var m := ColumnMapping(init).value;
        if ColumnNameOf(f) in m {
          var i :| 0 <= i < n && ColumnNameOf(init[i]) == ColumnNameOf(f);
        } else {
          assert forall i :: 0 <= i < n ==> ColumnNameOf(init[i]) in m;
        }
      }
    }
  }

  // ---------------------------------------------------------------------
  // The memo tables
  // ---------------------------------------------------------------------

  /** The static caches of DatabaseCache. Each lookup returns the stored
      value when its key is present and otherwise stores and returns the
      derived one; a stored value never changes. Column names and duplicate
      flags are filed under FieldKey, as the library does. */
  class MetadataCache {
    var tableNames: map<ModelClass, string>
    var pkColumns: map<ModelClass, string>
    var pkFields: map<ModelClass, string>
    var modelFields: map<ModelClass, seq<Field>>
    var columnMappings: map<ModelClass, map<string, string>>
    var getterNames: map<string, string>
    var setterNames: map<string, string>
    var fieldColumnNames: map<string, string>
    var fieldOnDuplicate: map<string, bool>

    /** Every entry keyed by something that determines it holds the derived
        value. Table names depend on the prefix configured when first
        computed, and the field-keyed tables on whichever field first used
        the key, so they carry no such invariant. */
    ghost predicate Valid()
      reads this
    {
      (forall c :: c in pkColumns ==> pkColumns[c] == PkColumnOf(c)) &&
      (forall c :: c in pkFields ==> PkFieldOf(c) == Ok(pkFields[c])) &&
      (forall c :: c in modelFields ==> modelFields[c] == ModelFields(c)) &&
      (forall c :: c in columnMappings ==> ColumnMapping(ModelFields(c)) == Ok(columnMappings[c])) &&
      (forall n :: n in getterNames ==> GetterName(n) == Ok(getterNames[n])) &&
      (forall n :: n in setterNames ==> SetterName(n) == Ok(setterNames[n]))
    }

    constructor ()
      ensures Valid()
      ensures tableNames == map[] && pkColumns == map[] && pkFields == map[] && modelFields == map[]
      ensures columnMappings == map[] && getterNames == map[] && setterNames == map[]
      ensures fieldColumnNames == map[] && fieldOnDuplicate == map[]
    {
      tableNames := map[];
      pkColumns := map[];
      pkFields := map[];
      modelFields := map[];
      columnMappings := map[];
      getterNames := map[];
      setterNames := map[];
      fieldColumnNames := map[];
      fieldOnDuplicate := map[];
    }

    /** computeModelFields. */
    method ComputeModelFields(modelClass: ModelClass) returns (r: seq<Field>)
      requires Valid()
      modifies this
      ensures Valid()
      ensures r == ModelFields(modelClass)
      ensures modelFields == old(modelFields)[modelClass := r]
      ensures tableNames == old(tableNames) && pkColumns == old(pkColumns) && pkFields == old(pkFields)
      ensures columnMappings == old(columnMappings) && getterNames == old(getterNames) && setterNames == old(setterNames)
      ensures fieldColumnNames == old(fieldColumnNames) && fieldOnDuplicate == old(fieldOnDuplicate)
    {
      if modelClass in modelFields {
        r := modelFields[modelClass];
      } else {
        r := ModelFields(modelClass);
        modelFields := modelFields[modelClass := r];
      }
    }

    /** computeModelColumnMappings: a duplicate column name throws and
        stores nothing. */
    method ComputeModelColumnMappings(modelClass: ModelClass) returns (r: Result<map<string, string>, JavaError>)
      requires Valid()
      modifies this
      ensures Valid()
      ensures r == ColumnMapping(ModelFields(modelClass))
      ensures modelClass in old(columnMappings) ==> columnMappings == old(columnMappings)
      ensures modelClass !in old(columnMappings) && r.Ok? ==> columnMappings == old(columnMappings)[modelClass := r.value]
      ensures r.Err? ==> columnMappings == old(columnMappings)
      ensures modelClass in old(columnMappings) ==> modelFields == old(modelFields)
      ensures modelClass !in old(columnMappings) ==> modelFields == old(modelFields)[modelClass := ModelFields(modelClass)]
      ensures tableNames == old(tableNames) && pkColumns == old(pkColumns) && pkFields == old(pkFields)
      ensures getterNames == old(getterNames) && setterNames == old(setterNames)
      ensures fieldColumnNames == old(fieldColumnNames) && fieldOnDuplicate == old(fieldOnDuplicate)
    {
      if modelClass in columnMappings {
        r := Ok(columnMappings[modelClass]);
      } else {
        var fields := ComputeModelFields(modelClass);
        r := ColumnMapping(fields);
        if r.Ok? {
          columnMappings := columnMappings[modelClass := r.value];
        }
      }
    }

    /** getTableName(Class) with the prefix configured at the time of the
        call. */
    method TableName(modelClass: ModelClass, prefix: Option<string>, plural: string -> string) returns (r: string)
      requires Valid()
      modifies this
      ensures Valid()
      ensures modelClass in old(tableNames) ==> r == old(tableNames)[modelClass]
      ensures modelClass !in old(tableNames) ==> r == TableNameOf(modelClass, prefix, plural)
      ensures tableNames == old(tableNames)[modelClass := r]
      ensures pkColumns == old(pkColumns) && pkFields == old(pkFields) && modelFields == old(modelFields)
      ensures columnMappings == old(columnMappings) && getterNames == old(getterNames) && setterNames == old(setterNames)
      ensures fieldColumnNames == old(fieldColumnNames) && fieldOnDuplicate == old(fieldOnDuplicate)
    {
      if modelClass in tableNames {
        r := tableNames[modelClass];
      } else {
        r := TableNameOf(modelClass, prefix, plural);
        tableNames := tableNames[modelClass := r];
      }
    }

    /** getPKColumn. */
    method PkColumn(modelClass: ModelClass) returns (r: string)
      requires Valid()
      modifies this
      ensures Valid()
      ensures r == PkColumnOf(modelClass)
      ensures pkColumns == old(pkColumns)[modelClass := r]
      ensures tableNames == old(tableNames) && pkFields == old(pkFields) && modelFields == old(modelFields)
      ensures columnMappings == old(columnMappings) && getterNames == old(getterNames) && setterNames == old(setterNames)
      ensures fieldColumnNames == old(fieldColumnNames) && fieldOnDuplicate == old(fieldOnDuplicate)
    {
      if modelClass in pkColumns {
        return pkColumns[modelClass];
      }
      r := PkColumnOf(modelClass);
      pkColumns := pkColumns[modelClass := r];
    }

    /** getPKField: toCamelName of the pk column; a malformed pk column
        throws and stores no pk field. */
    method PkField(modelClass: ModelClass) returns (r: Result<string, JavaError>)
      requires Valid()
      modifies this
      ensures Valid()
      ensures r == PkFieldOf(modelClass)
      ensures r.Ok? ==> pkFields == old(pkFields)[modelClass := r.value]
      ensures r.Err? ==> pkFields == old(pkFields)
      ensures modelClass in old(pkFields) ==> pkColumns == old(pkColumns)
      ensures modelClass !in old(pkFields) ==> pkColumns == old(pkColumns)[modelClass := PkColumnOf(modelClass)]
      ensures tableNames == old(tableNames) && modelFields == old(modelFields)
      ensures columnMappings == old(columnMappings) && getterNames == old(getterNames) && setterNames == old(setterNames)
      ensures fieldColumnNames == old(fieldColumnNames) && fieldOnDuplicate == old(fieldOnDuplicate)
    {
      if modelClass in pkFields {
        return Ok(pkFields[modelClass]);
      }
      var pkColumn := PkColumn(modelClass);
      r := ToCamelName(pkColumn);
      if r.Ok? {
        pkFields := pkFields[modelClass := r.value];
      }
    }

    /** getGetterName. */
    method GetterNameFor(fieldName: string) returns (r: Result<string, JavaError>)
      requires Valid()
      modifies this
      ensures Valid()
      ensures r == GetterName(fieldName)
      ensures getterNames == if r.Ok? then old(getterNames)[fieldName := r.value] else old(getterNames)
      ensures tableNames == old(tableNames) && pkColumns == old(pkColumns) && pkFields == old(pkFields)
      ensures modelFields == old(modelFields) && columnMappings == old(columnMappings) && setterNames == old(setterNames)
      ensures fieldColumnNames == old(fieldColumnNames) && fieldOnDuplicate == old(fieldOnDuplicate)
    {
      if fieldName in getterNames {
        return Ok(getterNames[fieldName]);
      }
      r := GetterName(fieldName);
      if r.Ok? {
        getterNames := getterNames[fieldName := r.value];
      }
    }

    /** getSetterName. */
    method SetterNameFor(fieldName: string) returns (r: Result<string, JavaError>)
      requires Valid()
      modifies this
      ensures Valid()
      ensures r == SetterName(fieldName)
      ensures setterNames == if r.Ok? then old(setterNames)[fieldName := r.value] else old(setterNames)
      ensures tableNames == old(tableNames) && pkColumns == old(pkColumns) && pkFields == old(pkFields)
      ensures modelFields == old(modelFields) && columnMappings == old(columnMappings) && getterNames == old(getterNames)
      ensures fieldColumnNames == old(fieldColumnNames) && fieldOnDuplicate == old(fieldOnDuplicate)
    {
      if fieldName in setterNames {
        return Ok(setterNames[fieldName]);
      }
      r := SetterName(fieldName);
      if r.Ok? {
        setterNames := setterNames[fieldName := r.value];
      }
    }

    /** getColumnName as written: the value cached under FieldKey, which two
        different fields can share. */
    method ColumnName(field: Field) returns (r: string)
      requires Valid()
      modifies this
      ensures Valid()
      ensures FieldKey(field) in old(fieldColumnNames) ==> r == old(fieldColumnNames)[FieldKey(field)]
      ensures FieldKey(field) !in old(fieldColumnNames) ==> r == ColumnNameOf(field)
      ensures fieldColumnNames == old(fieldColumnNames)[FieldKey(field) := r]
      ensures tableNames == old(tableNames) && pkColumns == old(pkColumns) && pkFields == old(pkFields)
      ensures modelFields == old(modelFields) && columnMappings == old(columnMappings)
      ensures getterNames == old(getterNames) && setterNames == old(setterNames) && fieldOnDuplicate == old(fieldOnDuplicate)
    {
      var key := FieldKey(field);
      if key in fieldColumnNames {
        return fieldColumnNames[key];
      }
      r := ColumnNameOf(field);
      fieldColumnNames := fieldColumnNames[key := r];
    }

    /** updateOnDuplicate as written, filed under FieldKey like ColumnName. */
    method UpdateOnDuplicate(field: Field) returns (r: bool)
      requires Valid()
      modifies this
      ensures Valid()
      ensures FieldKey(field) in old(fieldOnDuplicate) ==> r == old(fieldOnDuplicate)[FieldKey(field)]
      ensures FieldKey(field) !in old(fieldOnDuplicate) ==> r == UpdateOnDuplicateOf(field)
      ensures fieldOnDuplicate == old(fieldOnDuplicate)[FieldKey(field) := r]
      ensures tableNames == old(tableNames) && pkColumns == old(pkColumns) && pkFields == old(pkFields)
      ensures modelFields == old(modelFields) && columnMappings == old(columnMappings)
      ensures getterNames == old(getterNames) && setterNames == old(setterNames) && fieldColumnNames == old(fieldColumnNames)
    {
      var key := FieldKey(field);
      if key in fieldOnDuplicate {
        return fieldOnDuplicate[key];
      }
      r := UpdateOnDuplicateOf(field);
      fieldOnDuplicate := fieldOnDuplicate[key := r];
    }
  }

  /** Two models named User in different packages, each with a field
      "name": the second one's @Column name is never consulted, because
      both fields are filed under "User_name". */
  method ColumnNameKeyCollision() returns (first: string, second: string)
    ensures first == "user_name" && second == "user_name"
    ensures ColumnNameOf(AccountUserName) == "login"
  {
    var cache := new MetadataCache();
    first := cache.ColumnName(ProfileUserName);
    second := cache.ColumnName(AccountUserName);
  }

  const ProfileUserName: Field :=
    Field("com.example.profile.User", "User", "name", Some(ColumnAnnotation("user_name", false)), false, true)

  const AccountUserName: Field :=
    Field("com.example.account.User", "User", "name", Some(ColumnAnnotation("login", false)), false, true)

  /** The memo table keyed by the field itself: every stored column name is
      the one its field derives. */
  class FieldColumnCache {
    var columnNames: map<Field, string>

    ghost predicate Valid()
      reads this
    {
      forall f :: f in columnNames ==> columnNames[f] == ColumnNameOf(f)
    }

    constructor ()
      ensures Valid() && columnNames == map[]
    {
      columnNames := map[];
    }

    method ColumnName(field: Field) returns (r: string)
      requires Valid()
      modifies this
      ensures Valid()
      ensures r == ColumnNameOf(field)
      ensures columnNames == old(columnNames)[field := r]
    {
      if field in columnNames {
        return columnNames[field];
      }
      r := ColumnNameOf(field);
      columnNames := columnNames[field := r];
    }
  }
}
