/** The Query object: a builder whose methods append to its condition and
    ORDER BY buffers, its bound-value list and its insertion-ordered update
    map, and whose terminal methods render a statement, hand it to the
    driver and clean the builder. Each mutator is stated as the matching
    transition on QueryState; what those transitions promise is proved in
    QueryClauses, QueryOps and QueryProperties. The driver itself is not
    modelled: a terminal method returns the statement it would run, and a
    count the driver would return is a parameter. */
module QueryBuilder {
  import opened Wrappers
  import opened Text
  import opened JavaValues
  import opened Metadata
  import opened DatabaseCache
  import opened ModelValues
  import opened Dialect
  import opened MySQLDialect
  import opened QueryClauses
  import opened NamedParams
  import QueryOps

  /** Appending "?, " k times. */
  function Repeat(s: string, k: nat): string
  {
    if k == 0 then "" else Repeat(s, k - 1) + s
  }

  /** setArguments writes "?, " before every mark but the last, which is
      the separated list of n marks. */
  lemma {:induction false} RepeatThenMark(k: nat)
    ensures Repeat("?, ", k) + "?" == Placeholders(k + 1)
  {
    if k > 0 {
      RepeatThenMark(k - 1);
      assert Marks(k + 1)[..k] == Marks(k);
      calc {
        Repeat("?, ", k) + "?";
        (Repeat("?, ", k - 1) + "?") + ", " + "?";
        Placeholders(k) + ", " + "?";
        Join(Marks(k + 1), ", ");
      }
    }
  }

  lemma {:induction false} AddClausesSnoc(s: QueryState, cs: seq<Clause>, c: Clause)
    ensures AddClauses(s, cs + [c]) == AddClause(AddClauses(s, cs), c)
  {
    assert (cs + [c])[..|cs|] == cs;
  }

  lemma {:induction false} ModelConditionsStep(fields: seq<Field>, model: Instance, i: nat)
    requires i < |fields|
    ensures var v := ValueOf(model, fields[i]);
            ModelConditions(fields[..i + 1], model) ==
              ModelConditions(fields[..i], model) +
                (if SkipsField(fields[i], v) then [] else [Condition(ColumnNameOf(fields[i]), v)])
  {
    assert fields[..i + 1][..i] == fields[..i];
  }

  class Query {
    var modelClass: Option<ModelClass>
    var tableName: Option<string>
    var primaryKeyColumn: Option<string>
    var conditionSql: string
    var orderBySql: string
    var excludedColumns: seq<string>
    var paramValues: seq<Option<Value>>
    var updateColumns: seq<(string, Option<Value>)>
    var isSqlLimit: bool
    var useSql: bool
    var selectColumns: Option<string>
    var dmlType: Option<DmlType>

    /** The builder's fields as a value. */
    function State(): QueryState
      reads this
    {
      QueryState(modelClass, tableName, primaryKeyColumn, conditionSql, orderBySql, excludedColumns,
                 paramValues, updateColumns, isSqlLimit, useSql, selectColumns, dmlType)
    }

    /** The update map is a map: no column is assigned twice. */
    ghost predicate Valid()
      reads this
    {
      DistinctKeys(updateColumns)
    }

    /** new Query(): every buffer and list empty, nothing chosen. */
    constructor ()
      ensures State() == EmptyState && Valid()
    {
      modelClass, tableName, primaryKeyColumn := None, None, None;
      conditionSql, orderBySql := "", "";
      excludedColumns, paramValues, updateColumns := [], [], [];
      isSqlLimit, useSql := false, false;
      selectColumns, dmlType := None, None;
    }

    /** new Query(dmlType), as the Update and Delete entry points make. */
    constructor OfDml(kind: DmlType)
      ensures State() == EmptyState.(dmlType := Some(kind)) && Valid()
    {
      modelClass, tableName, primaryKeyColumn := None, None, None;
      conditionSql, orderBySql := "", "";
      excludedColumns, paramValues, updateColumns := [], [], [];
      isSqlLimit, useSql := false, false;
      selectColumns, dmlType := None, Some(kind);
    }

    /** new Query(modelClass): parse with the table prefix configured at
        the time of the call. */
    constructor OfModel(mc: ModelClass, cache: MetadataCache, prefix: Option<string>, plural: string -> string)
      requires cache.Valid()
      modifies cache
      ensures cache.Valid() && mc in cache.tableNames
      ensures State() == EmptyState.(modelClass := Some(mc),
                                     tableName := Some(cache.tableNames[mc]),
                                     primaryKeyColumn := Some(PkColumnOf(mc)))
      ensures mc !in old(cache.tableNames) ==> tableName == Some(TableNameOf(mc, prefix, plural))
      ensures Valid()
    {
      modelClass, tableName, primaryKeyColumn := None, None, None;
      conditionSql, orderBySql := "", "";
      excludedColumns, paramValues, updateColumns := [], [], [];
      isSqlLimit, useSql := false, false;
      selectColumns, dmlType := None, None;
      new;
      Parse(mc, cache, prefix, plural);
    }

    /** parse(modelClass): the model class, its table name and its
        primary-key column; nothing else changes. */
    method Parse(mc: ModelClass, cache: MetadataCache, prefix: Option<string>, plural: string -> string)
      requires cache.Valid()
      modifies this, cache
      ensures cache.Valid()
      ensures mc in cache.tableNames
      ensures State() == old(State()).(modelClass := Some(mc),
                                       tableName := Some(cache.tableNames[mc]),
                                       primaryKeyColumn := Some(PkColumnOf(mc)))
      ensures mc in old(cache.tableNames) ==> tableName == Some(old(cache.tableNames)[mc])
      ensures mc !in old(cache.tableNames) ==> tableName == Some(TableNameOf(mc, prefix, plural))
    {
      var table := cache.TableName(mc, prefix, plural);
      var pk := cache.PkColumn(mc);
      modelClass, tableName, primaryKeyColumn := Some(mc), Some(table), Some(pk);
    }

    // -------------------------------------------------------------------
    // Builder methods
    // -------------------------------------------------------------------

    /** exclude(columns...). */
    method Exclude(columns: seq<string>)
      modifies this
      ensures State() == QueryClauses.Exclude(old(State()), columns)
    {
      excludedColumns := excludedColumns + columns;
    }

    /** select(columns): throws when select columns were already given. */
    method Select(columns: Option<string>) returns (r: Result<(), JavaError>)
      modifies this
      ensures r.Ok? <==> SelectColumns(old(State()), columns).Ok?
      ensures r.Ok? ==> State() == SelectColumns(old(State()), columns).value
      ensures r.Err? ==> State() == old(State()) && r.error == SelectColumns(old(State()), columns).error
    {
      if selectColumns.Some? {
        return Err(WrapperError(None, "Select method can only be called once."));
      }
      selectColumns := columns;
      r := Ok(());
    }

    /** where(statement) and where(column reference): text, no value. */
    method Where(statement: string)
      modifies this
      ensures State() == AddClause(old(State()), Raw(statement))
    {
      conditionSql := conditionSql + " AND " + statement;
    }

    /** where(statement, value), and(statement, value) and the where of
        a column reference with a value. */
    method WhereValue(statement: string, value: Option<Value>)
      modifies this
      ensures State() == AddClause(old(State()), Condition(statement, value))
    {
      ghost var start := conditionSql;
      conditionSql := conditionSql + " AND " + statement;
      if '?' !in statement {
        conditionSql := conditionSql + " = ?";
      }
      MarkedStatement(start, " AND ", statement);
      paramValues := paramValues + [value];
    }

    /** where(model): one where(column, value) per declared field whose
        value is neither null nor an empty string. */
    method WhereModel(mc: ModelClass, model: Instance)
      modifies this
      ensures State() == AddClauses(old(State()), ModelConditions(mc.declaredFields, model))
    {
      var fields := mc.declaredFields;
      ghost var start := State();
      for i := 0 to |fields|
        invariant State() == AddClauses(start, ModelConditions(fields[..i], model))
      {
        ModelConditionsStep(fields, model, i);
        var value := ValueOf(model, fields[i]);
        if SkipsField(fields[i], value) {
          assert ModelConditions(fields[..i], model) + [] == ModelConditions(fields[..i], model);
          continue;
        }
        var columnName := ColumnNameOf(fields[i]);
        AddClausesSnoc(start, ModelConditions(fields[..i], model), Condition(columnName, value));
        WhereValue(columnName, value);
      }
      assert fields[..|fields|] == fields;
    }

    /** or(statement, value). */
    method Or(statement: string, value: Option<Value>)
      modifies this
      ensures State() == AddClause(old(State()), Alternative(statement, value))
    {
      ghost var start := conditionSql;
      conditionSql := conditionSql + " OR (" + statement;
      if '?' !in statement {
        conditionSql := conditionSql + " = ?";
      }
      MarkedStatement(start, " OR (", statement);
      conditionSql := conditionSql + ")";
      ConcatAssoc(start, " OR (" + statement + EqualsUnlessMarked(statement), ")");
      paramValues := paramValues + [value];
    }

    /** eq, notEq, like, gt, gte, lt, lte: with a column they open a
        predicate, without one they continue the previous one. */
    method Compare(column: Option<string>, op: Comparison, value: Option<Value>)
      modifies this
      ensures State() == AddClause(old(State()), QueryClauses.Compare(column, op, value))
    {
      ghost var start := conditionSql;
      if column.Some? {
        conditionSql := conditionSql + " AND " + column.value;
      }
      conditionSql := conditionSql + ComparisonText(op);
      ColumnClause(start, column, ComparisonText(op));
      paramValues := paramValues + [value];
    }

    /** between(column, a, b) and between(a, b). */
    method Between(column: Option<string>, low: Option<Value>, high: Option<Value>)
      modifies this
      ensures State() == AddClause(old(State()), QueryClauses.Between(column, low, high))
    {
      ghost var start := conditionSql;
      if column.Some? {
        conditionSql := conditionSql + " AND " + column.value;
      }
      conditionSql := conditionSql + " BETWEEN ? and ?";
      ColumnClause(start, column, " BETWEEN ? and ?");
      ghost var bound := paramValues;
      paramValues := paramValues + [low];
      paramValues := paramValues + [high];
      assert paramValues == bound + [low, high];
    }

    /** notEmpty(column) and notEmpty(). */
    method NotEmpty(column: Option<string>)
      modifies this
      ensures State() == AddClause(old(State()), QueryClauses.NotEmpty(column))
    {
      ghost var start := conditionSql;
      if column.Some? {
        conditionSql := conditionSql + " AND " + column.value;
      }
      conditionSql := conditionSql + " != ''";
      ColumnClause(start, column, " != ''");
    }

    /** notNull(column) and notNull(). */
    method NotNull(column: Option<string>)
      modifies this
      ensures State() == AddClause(old(State()), QueryClauses.NotNull(column))
    {
      ghost var start := conditionSql;
      if column.Some? {
        conditionSql := conditionSql + " AND " + column.value;
      }
      conditionSql := conditionSql + " IS NOT NULL";
      ColumnClause(start, column, " IS NOT NULL");
    }

    /** in(column, args...) and in(args...): nothing at all for a null or
        empty argument array. */
    method In(column: Option<string>, args: Option<seq<Option<Value>>>)
      modifies this
      ensures State() == AddClause(old(State()), QueryClauses.In(column, args))
    {
      if args.None? || |args.value| == 0 {
        InWithoutArgsIsNoOp(State(), column, args);
        return;
      }
      ghost var start := conditionSql;
      if column.Some? {
        conditionSql := conditionSql + " AND " + column.value;
      }
      conditionSql := conditionSql + " IN (";
      ColumnClause(start, column, " IN (");
      ghost var inHead := ColumnPrefix(column) + " IN (";
      SetArguments(args.value);
      ConcatAssoc(start, inHead, Placeholders(|args.value|));
      conditionSql := conditionSql + ")";
      ConcatAssoc(start, inHead + Placeholders(|args.value|), ")");
    }

    /** Appending a lead, a statement and, when the statement has no mark,
        " = ?", piece by piece, adds the statement's text in one piece. */
    static lemma {:induction false} MarkedStatement(start: string, lead: string, statement: string)
      ensures (if '?' in statement then start + lead + statement else start + lead + statement + " = ?")
           == start + (lead + statement + EqualsUnlessMarked(statement))
    {
      ConcatAssoc(start, lead, statement);
      if '?' in statement {
        assert lead + statement + "" == lead + statement;
      } else {
        ConcatAssoc(start, lead + statement, " = ?");
      }
    }

    /** Appending the optional column and then a suffix, piece by piece,
        adds the clause text in one piece. */
    static lemma {:induction false} ColumnClause(start: string, column: Option<string>, suffix: string)
      ensures (if column.Some? then start + " AND " + column.value else start) + suffix
           == start + (ColumnPrefix(column) + suffix)
    {
      if column.Some? {
        ConcatAssoc(start, " AND ", column.value);
        ConcatAssoc(start, " AND " + column.value, suffix);
      } else {
        assert "" + suffix == suffix;
      }
    }

    /** setArguments: one mark per argument, separated by ", ", and the
        arguments bound in order. */
    method SetArguments(args: seq<Option<Value>>)
      modifies this
      ensures State() == old(State()).(conditionSql := old(conditionSql) + Placeholders(|args|),
                                       paramValues := old(paramValues) + args)
    {
      ghost var start := State();
      var n := |args|;
      for i := 0 to n
        invariant conditionSql == start.conditionSql + (if i < n then Repeat("?, ", i) else Placeholders(n))
        invariant paramValues == start.paramValues + args[..i]
        invariant State() == start.(conditionSql := conditionSql, paramValues := paramValues)
      {
        if i == n - 1 {
          RepeatThenMark(i);
          conditionSql := conditionSql + "?";
        } else {
          conditionSql := conditionSql + "?, ";
        }
        assert args[..i + 1] == args[..i] + [args[i]];
        paramValues := paramValues + [args[i]];
      }
      assert args[..n] == args;
    }

    /** order(fragment). */
    method Order(fragment: string)
      modifies this
      ensures State() == AddOrder(old(State()), fragment)
    {
      if |orderBySql| > 0 {
        orderBySql := orderBySql + ",";
      }
      orderBySql := orderBySql + " " + fragment;
    }

    /** order(columnName, orderBy), with the direction's text. */
    method OrderBy(column: string, direction: string)
      modifies this
      ensures State() == AddOrder(old(State()), column + " " + direction)
    {
      if |orderBySql| > 0 {
        orderBySql := orderBySql + ",";
      }
      orderBySql := orderBySql + " " + column + " " + direction;
    }

    /** set(column, value): LinkedHashMap.put on the update map. */
    method Set(column: string, value: Option<Value>)
      requires Valid()
      modifies this
      ensures Valid()
      ensures State() == AddUpdateColumn(old(State()), column, value)
      ensures Lookup(updateColumns, column) == Some(value)
      ensures forall k :: k != column ==> Lookup(updateColumns, k) == Lookup(old(updateColumns), k)
    {
      PutSpec(updateColumns, column, value);
      updateColumns := Put(updateColumns, column, value);
    }

    /** useSQL(). */
    method UseSql()
      modifies this
      ensures State() == old(State()).(useSql := true)
    {
      useSql := true;
    }

    /** clean(conn): resets every accumulated part of the query. */
    method Clean()
      modifies this
      ensures State() == Cleaned(old(State())) && Valid()
    {
      selectColumns := None;
      isSqlLimit := false;
      orderBySql := "";
      conditionSql := "";
      paramValues := [];
      excludedColumns := [];
      updateColumns := [];
    }

    // -------------------------------------------------------------------
    // Terminal methods
    // -------------------------------------------------------------------

    /** beforeCheck. */
    method BeforeCheck() returns (r: Result<(), JavaError>)
      ensures r.Ok? <==> modelClass.Some?
      ensures r.Err? ==> r.error == QueryOps.FromNotNullError
    {
      if modelClass.None? {
        return Err(QueryOps.FromNotNullError);
      }
      r := Ok(());
    }

    /** where(primaryKeyColumn, id). */
    method WherePrimaryKey(id: Option<Value>) returns (r: Result<(), JavaError>)
      modifies this
      ensures QueryOps.Transition(r, State()) == QueryOps.WherePk(old(State()), id)
    {
      if primaryKeyColumn.None? {
        conditionSql := conditionSql + " AND null";
        return Err(NullPointer);
      }
      WhereValue(primaryKeyColumn.value, id);
      r := Ok(());
    }

    /** buildSelectSQL, then the query with the accumulated values. */
    method RunSelect(addOrderBy: bool, suffix: string) returns (r: Result<QueryOps.Statement, JavaError>)
      modifies this
      ensures QueryOps.Transition(r, State()) == QueryOps.QueryRows(old(State()), addOrderBy, suffix)
    {
      var sql := Dialect.Select(QueryOps.SelectParams(State(), addOrderBy));
      if sql.Err? {
        return Err(sql.error);
      }
      r := Ok(QueryOps.Statement(sql.value + suffix, paramValues));
      Clean();
    }

    /** all() and maps(). */
    method All() returns (r: Result<QueryOps.Statement, JavaError>)
      modifies this
      ensures QueryOps.Transition(r, State()) == QueryOps.All(old(State()))
    {
      var checked := BeforeCheck();
      if checked.Err? {
        return Err(checked.error);
      }
      r := RunSelect(true, "");
    }

    /** one(). */
    method One(useSqlLimit: bool) returns (r: Result<QueryOps.Statement, JavaError>)
      modifies this
      ensures QueryOps.Transition(r, State()) == QueryOps.One(old(State()), useSqlLimit)
    {
      var checked := BeforeCheck();
      if checked.Err? {
        return Err(checked.error);
      }
      r := RunSelect(true, QueryOps.LimitOne(useSqlLimit));
    }

    /** byId(id). */
    method ById(id: Option<Value>, useSqlLimit: bool) returns (r: Result<QueryOps.Statement, JavaError>)
      modifies this
      ensures QueryOps.Transition(r, State()) == QueryOps.ById(old(State()), id, useSqlLimit)
    {
      var checked := BeforeCheck();
      if checked.Err? {
        return Err(checked.error);
      }
      var added := WherePrimaryKey(id);
      if added.Err? {
        return Err(added.error);
      }
      r := RunSelect(false, QueryOps.LimitOne(useSqlLimit));
    }

    /** byIds(ids). */
    method ByIds(ids: Option<seq<Option<Value>>>) returns (r: Result<QueryOps.Statement, JavaError>)
      modifies this
      ensures QueryOps.Transition(r, State()) == QueryOps.ByIds(old(State()), ids)
    {
      In(Some(NullText(primaryKeyColumn)), ids);
      r := All();
    }

    /** limit(n). With SQL limits the rows are the statement's; without,
        QueryOps.LimitRows cuts the rows all() returns. */
    method Limit(n: Int32, useSqlLimit: bool) returns (r: Result<QueryOps.Statement, JavaError>)
      modifies this
      ensures QueryOps.Transition(r, State()) == QueryOps.Limit(old(State()), n, useSqlLimit)
    {
      if useSqlLimit {
        isSqlLimit := true;
        paramValues := paramValues + [Some(IntegerValue(n))];
      }
      r := All();
    }

    /** count(). */
    method Count(useSqlLimit: bool) returns (r: Result<QueryOps.Statement, JavaError>)
      modifies this
      ensures QueryOps.Transition(r, State()) == QueryOps.CountRows(old(State()), useSqlLimit)
    {
      var checked := BeforeCheck();
      if checked.Err? {
        return Err(checked.error);
      }
      var sql := CountSql(QueryOps.CountParams(State()));
      if sql.Err? {
        return Err(sql.error);
      }
      r := Ok(QueryOps.Statement(sql.value + QueryOps.LimitOne(useSqlLimit), paramValues));
      Clean();
    }

    /** page(sql, params, pageRow) given the total the count returns. */
    method PageOf(sql: string, params: seq<Option<Value>>, row: PageRow, total: int)
      returns (r: Result<QueryOps.PageStatements, JavaError>)
      modifies this
      ensures QueryOps.Transition(r, State()) == QueryOps.PageOf(old(State()), sql, params, row, total)
    {
      var checked := BeforeCheck();
      if checked.Err? {
        return Err(checked.error);
      }
      var countSql := if useSql then Ok("SELECT COUNT(*) FROM (" + sql + ") tmp") else QueryOps.CountFromSql(sql);
      if countSql.Err? {
        Clean();
        return Err(countSql.error);
      }
      var count := QueryOps.Statement(countSql.value, params);
      if total > 0 {
        var pageSql := Paginate(QueryOps.PageParams(State(), sql, row));
        if pageSql.Err? {
          Clean();
          return Err(pageSql.error);
        }
        r := Ok(QueryOps.PageStatements(count, Some(QueryOps.Statement(pageSql.value, params))));
      } else {
        r := Ok(QueryOps.PageStatements(count, None));
      }
      Clean();
    }

    /** page(pageRow): the select without ORDER BY, paged. */
    method Page(row: PageRow, total: int) returns (r: Result<QueryOps.PageStatements, JavaError>)
      modifies this
      ensures QueryOps.Transition(r, State()) == QueryOps.Page(old(State()), row, total)
    {
      var sql := Dialect.Select(QueryOps.SelectParams(State(), false));
      if sql.Err? {
        return Err(sql.error);
      }
      r := PageOf(sql.value, paramValues, row, total);
    }

    /** execute(sql, params) and executeAndGetKey(sql, params): the rewrite
        loop, a null parameter array taken as empty, then clean. */
    method Execute(sql: string, params: Option<seq<Option<Value>>>) returns (r: Result<QueryOps.Statement, JavaError>)
      modifies this
      ensures QueryOps.Transition(r, State()) == QueryOps.Execute(old(State()), sql, params)
    {
      var named := RewritePlaceholders(sql);
      var bound := if params.None? then [] else params.value;
      r := Ok(QueryOps.Statement(named, bound));
      Clean();
    }

    /** save(model). */
    method Save(instanceClass: ModelClass, model: Instance) returns (r: Result<QueryOps.Statement, JavaError>)
      modifies this
      ensures QueryOps.Transition(r, State()) == QueryOps.Save(old(State()), instanceClass, model)
    {
      var columnValues := ToColumnValues(instanceClass, model, true);
      var sql := Insert(QueryOps.InsertParams(State(), model, columnValues));
      if sql.Err? {
        return Err(sql.error);
      }
      var params := NonNull(columnValues);
      var named := RewritePlaceholders(sql.value);
      r := Execute(named, Some(params));
      CleanedResets(State());
      Clean();
    }

    /** saveOrUpdateOnDuplicate(model). */
    method SaveOrUpdateOnDuplicate(instanceClass: ModelClass, model: Instance) returns (r: Result<QueryOps.Statement, JavaError>)
      modifies this
      ensures QueryOps.Transition(r, State()) == QueryOps.SaveOrUpdateOnDuplicate(old(State()), instanceClass, model)
    {
      var columnValues := ToColumnValues(instanceClass, model, true);
      var duplicateColumnValues := ToColumnValuesDuplicate(instanceClass, model, true);
      var sql := InsertOnDuplicate(QueryOps.InsertParams(State(), model, columnValues));
      if sql.Err? {
        return Err(sql.error);
      }
      var params := NonNull(columnValues) + NonNull(duplicateColumnValues);
      var named := RewritePlaceholders(sql.value);
      r := Execute(named, Some(params));
      CleanedResets(State());
      Clean();
    }

    /** delete(). */
    method Delete() returns (r: Result<QueryOps.Statement, JavaError>)
      modifies this
      ensures QueryOps.Transition(r, State()) == QueryOps.Delete(old(State()))
    {
      var sql := Dialect.Delete(QueryOps.DeleteParams(State(), None));
      if sql.Err? {
        return Err(sql.error);
      }
      r := Execute(sql.value, Some(paramValues));
    }

    /** deleteById(id). */
    method DeleteById(id: Option<Value>) returns (r: Result<QueryOps.Statement, JavaError>)
      modifies this
      ensures QueryOps.Transition(r, State()) == QueryOps.DeleteById(old(State()), id)
    {
      var added := WherePrimaryKey(id);
      if added.Err? {
        return Err(added.error);
      }
      r := Delete();
    }

    /** deleteByModel(model). */
    method DeleteByModel(instanceClass: ModelClass, model: Instance) returns (r: Result<QueryOps.Statement, JavaError>)
      modifies this
      ensures QueryOps.Transition(r, State()) == QueryOps.DeleteByModel(old(State()), instanceClass, model)
    {
      var checked := BeforeCheck();
      if checked.Err? {
        return Err(checked.error);
      }
      var sql := Dialect.Delete(QueryOps.DeleteParams(State(), Some(model)));
      if sql.Err? {
        return Err(sql.error);
      }
      var values := ToColumnValues(instanceClass, model, false);
      r := Execute(sql.value, Some(values));
    }

    /** update(): the set values in insertion order, then the condition's. */
    method Update() returns (r: Result<QueryOps.Statement, JavaError>)
      modifies this
      ensures QueryOps.Transition(r, State()) == QueryOps.Update(old(State()))
    {
      var checked := BeforeCheck();
      if checked.Err? {
        return Err(checked.error);
      }
      var sql := Dialect.Update(QueryOps.UpdateParams(State(), None, updateColumns));
      if sql.Err? {
        return Err(sql.error);
      }
      var columnValueList := [];
      for i := 0 to |updateColumns|
        invariant columnValueList == QueryOps.Values(updateColumns[..i])
      {
        columnValueList := columnValueList + [updateColumns[i].1];
      }
      assert updateColumns[..|updateColumns|] == updateColumns;
      columnValueList := columnValueList + paramValues;
      r := Execute(sql.value, Some(columnValueList));
    }

    /** updateById(id). */
    method UpdateById(id: Option<Value>) returns (r: Result<QueryOps.Statement, JavaError>)
      modifies this
      ensures QueryOps.Transition(r, State()) == QueryOps.UpdateById(old(State()), id)
    {
      var added := WherePrimaryKey(id);
      if added.Err? {
        return Err(added.error);
      }
      r := Update();
    }

    /** updateById(model, id), binding every condition value after the
        model's values (see UpdateModelByIdMisbinds for the library's
        binding). */
    method UpdateModelById(instanceClass: ModelClass, model: Instance, id: Option<Value>)
      returns (r: Result<QueryOps.Statement, JavaError>)
      modifies this
      ensures QueryOps.Transition(r, State()) == QueryOps.UpdateModelByIdCorrected(old(State()), instanceClass, model, id)
    {
      var added := WherePrimaryKey(id);
      if added.Err? {
        return Err(added.error);
      }
      var sql := Dialect.Update(QueryOps.UpdateParams(State(), Some(model), []));
      if sql.Err? {
        return Err(sql.error);
      }
      var columnValueList := ToColumnValues(instanceClass, model, false);
      columnValueList := columnValueList + paramValues;
      r := Execute(sql.value, Some(columnValueList));
    }

    /** updateByModel(model): the primary key is read and cleared on the
        model, the rest of its non-null fields are assigned, and a
        non-null key is matched by " WHERE pk = ?". */
    method UpdateByModel(instanceClass: ModelClass, model: ModelInstance) returns (r: Result<QueryOps.Statement, JavaError>)
      modifies this, model
      ensures var (t, after) := QueryOps.UpdateByModel(old(State()), instanceClass, old(model.values));
              QueryOps.Transition(r, State()) == t && model.values == after
    {
      var checked := BeforeCheck();
      if checked.Err? {
        return Err(checked.error);
      }
      var primaryKey := GetAndRemovePrimaryKey(instanceClass, model);
      if primaryKey.Err? {
        return Err(primaryKey.error);
      }
      var sql := Dialect.Update(QueryOps.UpdateParams(State(), Some(model.values), []));
      if sql.Err? {
        return Err(sql.error);
      }
      var text := sql.value;
      var columnValueList := ToColumnValues(instanceClass, model.values, false);
      if primaryKey.value.Some? {
        text := text + " WHERE " + NullText(primaryKeyColumn) + " = ?";
        columnValueList := columnValueList + [primaryKey.value];
      }
      r := Execute(text, Some(columnValueList));
    }

    /** execute(): update() or delete() as the DML type says. */
    method ExecuteDml() returns (r: Result<QueryOps.Statement, JavaError>)
      modifies this
      ensures QueryOps.Transition(r, State()) == QueryOps.ExecuteDml(old(State()))
    {
      if dmlType.None? {
        return Err(NullPointer);
      }
      match dmlType.value
      case UpdateDml =>
        r := Update();
      case DeleteDml =>
        r := Delete();
      case OtherDml =>
        r := Err(WrapperError(None, "Please check if your use is correct."));
    }
  }
}
