/** The terminal operations of a Query, as values: the statement each one
    hands to the driver (SQL text and positional values), the error it
    throws instead, and the state the query is left in. Whatever reaches
    the driver is followed by clean(); an error raised while the SQL is
    still being built leaves the query as it was. */
module QueryOps {
  import opened Wrappers
  import opened Text
  import opened JavaValues
  import opened Metadata
  import opened DatabaseUtils
  import opened DatabaseCache
  import opened ModelValues
  import opened Dialect
  import opened MySQLDialect
  import opened QueryClauses
  import opened NamedParams

  /** What the driver is asked to run. */
  datatype Statement = Statement(sql: string, params: seq<Option<Value>>)

  /** The result of a terminal operation and the query state after it. */
  datatype Transition<T> = Transition(result: Result<T, JavaError>, after: QueryState)

  /** beforeCheck: a query without a model class cannot run. */
  const FromNotNullError: JavaError := CodedError(FromNotNull)

  /** queryOne's " LIMIT 1" when the configuration enables SQL limits. */
  function LimitOne(useSqlLimit: bool): string
  {
    if useSqlLimit then " LIMIT 1" else ""
  }

  // ---------------------------------------------------------------------
  // The SQLParams records the build*SQL helpers fill in
  // ---------------------------------------------------------------------

  function SelectParams(s: QueryState, addOrderBy: bool): SqlParams
  {
    SqlParams(s.modelClass, None, s.selectColumns, s.tableName, s.conditionSql, [], [],
              Some(s.excludedColumns), None, if addOrderBy then Some(s.orderBySql) else None,
              s.isSqlLimit, None)
  }

  function CountParams(s: QueryState): SqlParams
  {
    SqlParams(s.modelClass, None, None, s.tableName, s.conditionSql, [], [], None, None, None, false, None)
  }

  function PageParams(s: QueryState, sql: string, row: PageRow): SqlParams
  {
    SqlParams(s.modelClass, None, s.selectColumns, s.tableName, s.conditionSql, [], [],
              Some(s.excludedColumns), Some(row), Some(s.orderBySql), false, Some(sql))
  }

  function InsertParams(s: QueryState, model: Instance, values: seq<Option<Value>>): SqlParams
  {
    SqlParams(s.modelClass, Some(model), None, s.tableName, "", values, [], None, None, None, false, None)
  }

  function UpdateParams(s: QueryState, model: Option<Instance>, updateColumns: seq<(string, Option<Value>)>): SqlParams
  {
    SqlParams(s.modelClass, model, None, s.tableName, s.conditionSql, [], updateColumns, None, None, None, false, None)
  }

  function DeleteParams(s: QueryState, model: Option<Instance>): SqlParams
  {
    SqlParams(s.modelClass, model, None, s.tableName, s.conditionSql, [], [], None, None, None, false, None)
  }

  // ---------------------------------------------------------------------
  // Primary-key condition
  // ---------------------------------------------------------------------

  /** where(primaryKeyColumn, id). With no primary-key column, " AND null"
      is appended before statement.contains throws. */
  function WherePk(s: QueryState, id: Option<Value>): (t: Transition<()>)
    ensures t.result.Ok? <==> s.primaryKeyColumn.Some?
    ensures t.result.Ok? ==> t.after == AddClause(s, Condition(s.primaryKeyColumn.value, id))
    ensures t.result.Err? ==> t.after.paramValues == s.paramValues && t.result.error == NullPointer
  {
    if s.primaryKeyColumn.None? then Transition(Err(NullPointer), s.(conditionSql := s.conditionSql + " AND null"))
    else Transition(Ok(()), AddClause(s, Condition(s.primaryKeyColumn.value, id)))
  }

  // ---------------------------------------------------------------------
  // Queries: byId, byIds, one, all, maps, limit, count, page
  // ---------------------------------------------------------------------

  /** buildSelectSQL followed by queryList (or queryOne with its suffix):
      the select is run with the accumulated values, then the query is
      cleaned. */
  function QueryRows(s: QueryState, addOrderBy: bool, suffix: string): (t: Transition<Statement>)
    ensures t.result.Ok? <==> Select(SelectParams(s, addOrderBy)).Ok?
    ensures t.result.Ok? ==>
              && t.result.value == Statement(Select(SelectParams(s, addOrderBy)).value + suffix, s.paramValues)
              && t.after == Cleaned(s)
    ensures t.result.Err? ==> t.after == s
  {
    match Select(SelectParams(s, addOrderBy))
    case Err(e) => Transition(Err(e), s)
    case Ok(sql) => Transition(Ok(Statement(sql + suffix, s.paramValues)), Cleaned(s))
  }

  /** all() and maps(). */
  function All(s: QueryState): (t: Transition<Statement>)
    ensures s.modelClass.None? ==> t == Transition(Err(FromNotNullError), s)
  {
    if s.modelClass.None? then Transition(Err(FromNotNullError), s)
    else QueryRows(s, true, "")
  }

  /** one(): the ordered select, limited to one row by queryOne. */
  function One(s: QueryState, useSqlLimit: bool): (t: Transition<Statement>)
    ensures s.modelClass.None? ==> t == Transition(Err(FromNotNullError), s)
  {
    if s.modelClass.None? then Transition(Err(FromNotNullError), s)
    else QueryRows(s, true, LimitOne(useSqlLimit))
  }

  /** byId(id): the primary-key condition is added, then the select
      without ORDER BY runs through queryOne. */
  function ById(s: QueryState, id: Option<Value>, useSqlLimit: bool): (t: Transition<Statement>)
    ensures s.modelClass.None? ==> t == Transition(Err(FromNotNullError), s)
  {
    if s.modelClass.None? then Transition(Err(FromNotNullError), s)
    else
      var w := WherePk(s, id);
      if w.result.Err? then Transition(Err(w.result.error), w.after)
      else QueryRows(w.after, false, LimitOne(useSqlLimit))
  }

  /** byIds(ids): in(primaryKeyColumn, ids) followed by all(). */
  function ByIds(s: QueryState, ids: Option<seq<Option<Value>>>): Transition<Statement>
  {
    All(AddClause(s, In(Some(NullText(s.primaryKeyColumn)), ids)))
  }

  /** limit(n). With SQL limits the select ends in LIMIT ? and n is bound
      last; otherwise all() runs and its rows are cut afterwards. */
  function Limit(s: QueryState, n: Int32, useSqlLimit: bool): Transition<Statement>
  {
    if useSqlLimit then All(s.(isSqlLimit := true, paramValues := s.paramValues + [Some(IntegerValue(n))]))
    else All(s)
  }

  /** Stream.limit(n) applied to the rows all() returned, when there are
      more than n; a negative n makes it throw. */
  function LimitRows<T>(rows: seq<T>, n: Int32): (r: Result<seq<T>, JavaError>)
    ensures n >= 0 ==> r.Ok? && r.value == rows[..if n < |rows| then n else |rows|]
    ensures n < 0 ==> r == Err(IllegalArgument(IntToString(n)))
  {
    if |rows| > n then
      if n < 0 then Err(IllegalArgument(IntToString(n))) else Ok(rows[..n])
    else Ok(rows)
  }

  /** count(): SELECT COUNT(*) with the condition, through queryOne. */
  function CountRows(s: QueryState, useSqlLimit: bool): (t: Transition<Statement>)
    ensures s.modelClass.None? ==> t == Transition(Err(FromNotNullError), s)
    ensures t.result.Ok? ==> t.after == Cleaned(s) && t.result.value.params == s.paramValues
    ensures t.result.Err? ==> t.after == s
  {
    if s.modelClass.None? then Transition(Err(FromNotNullError), s)
    else
      match CountSql(CountParams(s))
      case Err(e) => Transition(Err(e), s)
      case Ok(sql) => Transition(Ok(Statement(sql + LimitOne(useSqlLimit), s.paramValues)), Cleaned(s))
  }

  /** buildCountSQL(sql): SELECT COUNT(*) followed by the statement from
      its first FROM; without one, substring(-1) throws. */
  function CountFromSql(sql: string): (r: Result<string, JavaError>)
    ensures r.Err? <==> IndexOf(sql, "FROM") < 0
    ensures r.Ok? ==> var i := IndexOf(sql, "FROM");
                      r.value == "SELECT COUNT(*) " + sql[i..] && OccursAt(sql, "FROM", i)
  {
    var i := IndexOf(sql, "FROM");
    if i < 0 then Err(IndexOutOfBounds) else Ok("SELECT COUNT(*) " + sql[i..])
  }

  /** The count statement page() runs first: a sub-select when useSQL is
      set, else the statement cut at its FROM. */
  function PageCountSql(useSql: bool, sql: string): Result<string, JavaError>
  {
    if useSql then Ok("SELECT COUNT(*) FROM (" + sql + ") tmp") else CountFromSql(sql)
  }

  /** The statements of one page() call: the count, and the page itself
      when the count was positive. */
  datatype PageStatements = PageStatements(count: Statement, rows: Option<Statement>)

  /** page(sql, params, pageRow) given the total the count statement
      returns. An error after the connection is taken still cleans. */
  function PageOf(s: QueryState, sql: string, params: seq<Option<Value>>, row: PageRow, total: int): (t: Transition<PageStatements>)
    ensures s.modelClass.None? ==> t == Transition(Err(FromNotNullError), s)
    ensures s.modelClass.Some? ==> t.after == Cleaned(s)
    ensures t.result.Ok? ==>
              && PageCountSql(s.useSql, sql).Ok?
              && t.result.value.count == Statement(PageCountSql(s.useSql, sql).value, params)
              && (t.result.value.rows.Some? <==> total > 0)
  {
    if s.modelClass.None? then Transition(Err(FromNotNullError), s)
    else
      match PageCountSql(s.useSql, sql)
      case Err(e) => Transition(Err(e), Cleaned(s))
      case Ok(countSql) =>
        var count := Statement(countSql, params);
        if total > 0 then
          match Paginate(PageParams(s, sql, row))
          case Err(e) => Transition(Err(e), Cleaned(s))
          case Ok(pageSql) => Transition(Ok(PageStatements(count, Some(Statement(pageSql, params)))), Cleaned(s))
        else Transition(Ok(PageStatements(count, None)), Cleaned(s))
  }

  /** page(pageRow): the select without ORDER BY, paged with the
      accumulated values. */
  function Page(s: QueryState, row: PageRow, total: int): (t: Transition<PageStatements>)
    ensures Select(SelectParams(s, false)).Err? ==> t == Transition(Err(Select(SelectParams(s, false)).error), s)
  {
    match Select(SelectParams(s, false))
    case Err(e) => Transition(Err(e), s)
    case Ok(sql) => PageOf(s, sql, s.paramValues, row, total)
  }

  // ---------------------------------------------------------------------
  // Statements: execute, save, delete, update
  // ---------------------------------------------------------------------

  /** execute(sql, params) and executeAndGetKey(sql, params): the
      placeholders are renamed, null params become none, then clean. */
  function Execute(s: QueryState, sql: string, params: Option<seq<Option<Value>>>): (t: Transition<Statement>)
    ensures t.result.Ok? && t.after == Cleaned(s)
    ensures '?' !in t.result.value.sql
    ensures t.result.value.params == if params.None? then [] else params.value
  {
    RewriteRemovesMarks(sql);
    Transition(Ok(Statement(Rewrite(sql, 1), if params.None? then [] else params.value)), Cleaned(s))
  }

  /** save(model): an insert of the model's values under the query's
      model class and table, binding the non-null values. */
  function Save(s: QueryState, instanceClass: ModelClass, model: Instance): (t: Transition<Statement>)
    ensures t.result.Err? ==> t.after == s
    ensures t.result.Ok? ==> t.after == Cleaned(s) && t.result.value.params == ColumnValues(ModelFields(instanceClass), model, false)
  {
    var fields := ModelFields(instanceClass);
    var values := ColumnValues(fields, model, true);
    ColumnValuesWithoutNulls(fields, model);
    match InsertSql(InsertParams(s, model, values))
    case Err(e) => Transition(Err(e), s)
    case Ok(sql) => Execute(s, Rewrite(sql, 1), Some(NonNull(values)))
  }

  /** saveOrUpdateOnDuplicate(model): the insert with its ON DUPLICATE KEY
      UPDATE part, binding the non-null values and then the non-null
      values of the updateOnDuplicate fields. */
  function SaveOrUpdateOnDuplicate(s: QueryState, instanceClass: ModelClass, model: Instance): (t: Transition<Statement>)
    ensures t.result.Err? ==> t.after == s
    ensures t.result.Ok? ==>
              && t.after == Cleaned(s)
              && t.result.value.params ==
                   ColumnValues(ModelFields(instanceClass), model, false) +
                   ColumnValues(OnDuplicateFields(ModelFields(instanceClass)), model, false)
  {
    var fields := ModelFields(instanceClass);
    var values := ColumnValues(fields, model, true);
    var duplicateValues := ColumnValues(OnDuplicateFields(fields), model, true);
    ColumnValuesWithoutNulls(fields, model);
    ColumnValuesWithoutNulls(OnDuplicateFields(fields), model);
    match InsertOnDuplicateSql(InsertParams(s, model, values))
    case Err(e) => Transition(Err(e), s)
    case Ok(sql) => Execute(s, Rewrite(sql, 1), Some(NonNull(values) + NonNull(duplicateValues)))
  }

  /** delete(): the condition with its values; no model-class check. */
  function Delete(s: QueryState): (t: Transition<Statement>)
    ensures t.result.Err? ==> t.after == s
    ensures t.result.Ok? ==> t.after == Cleaned(s) && t.result.value.params == s.paramValues
  {
    match DeleteSql(DeleteParams(s, None))
    case Err(e) => Transition(Err(e), s)
    case Ok(sql) => Execute(s, sql, Some(s.paramValues))
  }

  function DeleteById(s: QueryState, id: Option<Value>): Transition<Statement>
  {
    var w := WherePk(s, id);
    if w.result.Err? then Transition(Err(w.result.error), w.after) else Delete(w.after)
  }

  /** deleteByModel(model): the model's non-null columns, or the
      condition when there is one, bound with the model's non-null values. */
  function DeleteByModel(s: QueryState, instanceClass: ModelClass, model: Instance): (t: Transition<Statement>)
    ensures s.modelClass.None? ==> t == Transition(Err(FromNotNullError), s)
    ensures t.result.Ok? ==> t.after == Cleaned(s) && t.result.value.params == ColumnValues(ModelFields(instanceClass), model, false)
  {
    if s.modelClass.None? then Transition(Err(FromNotNullError), s)
    else
      match DeleteSql(DeleteParams(s, Some(model)))
      case Err(e) => Transition(Err(e), s)
      case Ok(sql) => Execute(s, sql, Some(ColumnValues(ModelFields(instanceClass), model, false)))
  }

  /** The values of an insertion-ordered map, in order. */
  function Values(entries: seq<(string, Option<Value>)>): (r: seq<Option<Value>>)
    ensures |r| == |entries| && forall i :: 0 <= i < |entries| ==> r[i] == entries[i].1
  {
    seq(|entries|, i requires 0 <= i < |entries| => entries[i].1)
  }

  /** update(): the set values in insertion order, then the condition's. */
  function Update(s: QueryState): (t: Transition<Statement>)
    ensures s.modelClass.None? ==> t == Transition(Err(FromNotNullError), s)
    ensures t.result.Err? ==> t.after == s
    ensures t.result.Ok? ==> t.after == Cleaned(s)
  {
    if s.modelClass.None? then Transition(Err(FromNotNullError), s)
    else
      match UpdateSql(UpdateParams(s, None, s.updateColumns))
      case Err(e) => Transition(Err(e), s)
      case Ok(sql) => Execute(s, sql, Some(Values(s.updateColumns) + s.paramValues))
  }

  function UpdateById(s: QueryState, id: Option<Value>): Transition<Statement>
  {
    var w := WherePk(s, id);
    if w.result.Err? then Transition(Err(w.result.error), w.after) else Update(w.after)
  }

  /** updateById(model, id) as written: the model's non-null values and
      then id, whatever values earlier conditions bound. */
  function UpdateModelById(s: QueryState, instanceClass: ModelClass, model: Instance, id: Option<Value>): Transition<Statement>
  {
    var w := WherePk(s, id);
    if w.result.Err? then Transition(Err(w.result.error), w.after)
    else
      match UpdateSql(UpdateParams(w.after, Some(model), []))
      case Err(e) => Transition(Err(e), w.after)
      case Ok(sql) => Execute(w.after, sql, Some(ColumnValues(ModelFields(instanceClass), model, false) + [id]))
  }

  /** updateById(model, id) binding the model's values and then every
      condition value, id last among them. */
  function UpdateModelByIdCorrected(s: QueryState, instanceClass: ModelClass, model: Instance, id: Option<Value>): Transition<Statement>
  {
    var w := WherePk(s, id);
    if w.result.Err? then Transition(Err(w.result.error), w.after)
    else
      match UpdateSql(UpdateParams(w.after, Some(model), []))
      case Err(e) => Transition(Err(e), w.after)
      case Ok(sql) => Execute(w.after, sql, Some(ColumnValues(ModelFields(instanceClass), model, false) + w.after.paramValues))
  }

  /** getAndRemovePrimaryKey as a value: the primary-key field's value
      and the instance with that field null. */
  function PrimaryKeyRemoval(modelClass: ModelClass, model: Instance): Result<(Option<Value>, Instance), JavaError>
  {
    match PkFieldOf(modelClass)
    case Err(e) => Err(e)
    case Ok(pk) =>
      if pk == "" then Err(IndexOutOfBounds)
      else Ok((if pk in model then Some(model[pk]) else None, model - {pk}))
  }

  /** updateByModel once the primary key has been read and cleared: the
      model's remaining non-null columns are assigned, and only a non-null
      key adds " WHERE pk = ?" and is bound last. */
  function UpdateWithKey(s: QueryState, instanceClass: ModelClass, pk: Option<Value>, model: Instance): (t: Transition<Statement>)
    ensures t.result.Err? ==> t.after == s
    ensures t.result.Ok? ==> t.after == Cleaned(s)
  {
    match UpdateSql(UpdateParams(s, Some(model), []))
    case Err(e) => Transition(Err(e), s)
    case Ok(sql) =>
      var values := ColumnValues(ModelFields(instanceClass), model, false);
      if pk.Some? then Execute(s, sql + " WHERE " + NullText(s.primaryKeyColumn) + " = ?", Some(values + [pk]))
      else Execute(s, sql, Some(values))
  }

  /** updateByModel(model): the transition and the model as it is left. */
  function UpdateByModel(s: QueryState, instanceClass: ModelClass, model: Instance): (Transition<Statement>, Instance)
  {
    if s.modelClass.None? then (Transition(Err(FromNotNullError), s), model)
    else
      match PrimaryKeyRemoval(instanceClass, model)
      case Err(e) => (Transition(Err(e), s), model)
      case Ok(removal) => (UpdateWithKey(s, instanceClass, removal.0, removal.1), removal.1)
  }

  /** execute(): the statement the query's DML type selects. */
  function ExecuteDml(s: QueryState): Transition<Statement>
  {
    match s.dmlType
    case None => Transition(Err(NullPointer), s)
    case Some(UpdateDml) => Update(s)
    case Some(DeleteDml) => Delete(s)
    case Some(OtherDml) => Transition(Err(WrapperError(None, "Please check if your use is correct.")), s)
  }
}
