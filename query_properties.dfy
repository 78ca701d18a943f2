/** What the terminal operations of a Query promise about the statements
    they hand to the driver: every '?' of the rendered SQL has exactly one
    bound value, in the order the builder calls bound them, as long as the
    query was built from well-formed predicates and no caller-supplied name
    carries a '?' of its own. */
module QueryProperties {
  import opened Wrappers
  import opened Text
  import opened JavaValues
  import opened Metadata
  import opened DatabaseUtils
  import opened DatabaseCache
  import opened ModelValues
  import opened Dialect
  import opened MySQLDialect
  import opened QueryClauses
  import opened NamedParams
  import opened QueryOps

  // ---------------------------------------------------------------------
  // Well-formed queries
  // ---------------------------------------------------------------------

  /** The renderers drop the first five characters of the condition, which
      for a condition built from whole predicates are " AND " or " OR (". */
  predicate LeadsCleanly(condition: string)
  {
    |condition| == 0 || (|condition| >= 5 && '?' !in condition[..5])
  }

  /** The clauses that open a predicate of their own, as opposed to the
      column-less forms (eq(v), gt(v), between(a, b), ...) that continue
      the previous one. */
  predicate OpensPredicate(c: Clause)
  {
    match c
    case Raw(_) => true
    case Condition(_, _) => true
    case Alternative(_, _) => true
    case Compare(column, _, _) => column.Some?
    case Between(column, _, _) => column.Some?
    case NotEmpty(column) => column.Some?
    case NotNull(column) => column.Some?
    case In(column, args) => column.Some? || |InArgs(args)| == 0
  }

  /** No name the query renders carries a '?'. */
  predicate NamesWithoutMarks(s: QueryState)
  {
    && '?' !in NullText(s.tableName)
    && (s.selectColumns.Some? ==> '?' !in s.selectColumns.value)
    && '?' !in s.orderBySql
    && (s.primaryKeyColumn.Some? ==> '?' !in s.primaryKeyColumn.value)
    && (s.modelClass.Some? ==>
          && ColumnsWithoutMarks(ModelFields(s.modelClass.value))
          && NoMarks(SelectableColumns(ModelFields(s.modelClass.value), s.excludedColumns)))
    && NoMarks(Keys(s.updateColumns))
  }

  lemma {:induction false} LeadingCount(condition: string)
    requires LeadsCleanly(condition)
    ensures ConditionMarks(condition) == Count(condition, '?')
  {
    if |condition| >= 5 {
      ConditionMarksAll(condition);
    }
  }

  lemma {:induction false} ClauseLead(c: Clause)
    requires OpensPredicate(c)
    ensures LeadsCleanly(ClauseText(c))
  {
    var t := ClauseText(c);
    if |t| > 0 {
      assert t[..5] == " AND " || t[..5] == " OR (";
    }
  }

  /** A clause that opens a predicate, or any clause after the first,
      keeps the condition's lead clean. */
  lemma {:induction false} AddClauseLeads(s: QueryState, c: Clause)
    requires LeadsCleanly(s.conditionSql)
    requires |s.conditionSql| > 0 || OpensPredicate(c)
    ensures LeadsCleanly(AddClause(s, c).conditionSql)
  {
    var t := ClauseText(c);
    if |s.conditionSql| > 0 {
      assert (s.conditionSql + t)[..5] == s.conditionSql[..5];
    } else {
      ClauseLead(c);
      assert s.conditionSql + t == t;
    }
  }

  /** The same for a chain of predicates that each open on their own,
      such as the column conditions where(model) adds. */
  lemma {:induction false} AddClausesLead(s: QueryState, cs: seq<Clause>)
    requires LeadsCleanly(s.conditionSql)
    requires forall i :: 0 <= i < |cs| ==> OpensPredicate(cs[i])
    ensures LeadsCleanly(AddClauses(s, cs).conditionSql)
  {
    if |cs| > 0 {
      var init := cs[..|cs| - 1];
      assert forall i :: 0 <= i < |init| ==> init[i] == cs[i];
      AddClausesLead(s, init);
      AddClauseLeads(AddClauses(s, init), cs[|cs| - 1]);
    }
  }

  /** The '?' an aligned, cleanly led condition renders equal its values. */
  lemma {:induction false} AlignedCondition(s: QueryState)
    requires Aligned(s) && LeadsCleanly(s.conditionSql)
    ensures ConditionMarks(s.conditionSql) + (if s.isSqlLimit then 1 else 0) == |s.paramValues|
  {
    LeadingCount(s.conditionSql);
  }

  // ---------------------------------------------------------------------
  // Queries
  // ---------------------------------------------------------------------

  /** A select built from a well-formed query binds one value per '?'. */
  lemma {:induction false} QueryRowsAligned(s: QueryState, addOrderBy: bool, suffix: string)
    requires Aligned(s) && LeadsCleanly(s.conditionSql) && NamesWithoutMarks(s) && '?' !in suffix
    requires QueryRows(s, addOrderBy, suffix).result.Ok?
    ensures var st := QueryRows(s, addOrderBy, suffix).result.value;
            Count(st.sql, '?') == |st.params| && st.params == s.paramValues
  {
    var p := SelectParams(s, addOrderBy);
    SelectCount(p);
    AlignedCondition(s);
    CountZero(suffix, '?');
    CountAppend(Select(p).value, suffix, '?');
  }

  /** all(), one() and maps() on a well-formed query. */
  lemma {:induction false} AllAligned(s: QueryState, useSqlLimit: bool)
    requires Aligned(s) && LeadsCleanly(s.conditionSql) && NamesWithoutMarks(s)
    ensures All(s).result.Ok? ==> Count(All(s).result.value.sql, '?') == |All(s).result.value.params|
    ensures All(s).result.Ok? ==> All(s).after == Cleaned(s) && All(s).result.value.params == s.paramValues
    ensures One(s, useSqlLimit).result.Ok? ==>
              Count(One(s, useSqlLimit).result.value.sql, '?') == |One(s, useSqlLimit).result.value.params|
  {
    if All(s).result.Ok? {
      QueryRowsAligned(s, true, "");
    }
    if One(s, useSqlLimit).result.Ok? {
      QueryRowsAligned(s, true, LimitOne(useSqlLimit));
    }
  }

  /** The primary-key condition byId, deleteById and updateById add keeps
      a well-formed query well formed and binds the id last. */
  lemma {:induction false} WherePkAligned(s: QueryState, id: Option<Value>)
    requires Aligned(s) && LeadsCleanly(s.conditionSql) && NamesWithoutMarks(s)
    requires s.primaryKeyColumn.Some?
    ensures var after := WherePk(s, id).after;
            && Aligned(after) && LeadsCleanly(after.conditionSql) && NamesWithoutMarks(after)
            && after.paramValues == s.paramValues + [id]
            && |after.conditionSql| > 0
  {
    var c := Condition(s.primaryKeyColumn.value, id);
    CountZero(s.primaryKeyColumn.value, '?');
    AddClauseExcess(s, c);
    AddClauseLeads(s, c);
  }

  /** byId(id) selects with the id bound after every earlier value. */
  lemma {:induction false} ByIdAligned(s: QueryState, id: Option<Value>, useSqlLimit: bool)
    requires Aligned(s) && LeadsCleanly(s.conditionSql) && NamesWithoutMarks(s)
    requires ById(s, id, useSqlLimit).result.Ok?
    ensures var st := ById(s, id, useSqlLimit).result.value;
            Count(st.sql, '?') == |st.params| && st.params == s.paramValues + [id]
  {
    WherePkAligned(s, id);
    QueryRowsAligned(WherePk(s, id).after, false, LimitOne(useSqlLimit));
  }

  /** byIds with no ids is all(): in() adds nothing. */
  lemma {:induction false} ByIdsWithoutIds(s: QueryState, ids: Option<seq<Option<Value>>>)
    requires ids.None? || |ids.value| == 0
    ensures ByIds(s, ids) == All(s)
  {
    InWithoutArgsIsNoOp(s, Some(NullText(s.primaryKeyColumn)), ids);
  }

  /** limit(n) with SQL limits: the select ends in LIMIT ?, n is bound
      after every condition value, and each '?' has its value. */
  lemma {:induction false} LimitAligned(s: QueryState, n: Int32)
    requires Aligned(s) && LeadsCleanly(s.conditionSql) && NamesWithoutMarks(s) && !s.isSqlLimit
    requires Limit(s, n, true).result.Ok?
    ensures var st := Limit(s, n, true).result.value;
            && Count(st.sql, '?') == |st.params|
            && st.params == s.paramValues + [Some(IntegerValue(n))]
            && |st.sql| >= 8 && st.sql[|st.sql| - 8..] == " LIMIT ?"
  {
    var limited := s.(isSqlLimit := true, paramValues := s.paramValues + [Some(IntegerValue(n))]);
    assert Aligned(limited);
    QueryRowsAligned(limited, true, "");
    var p := SelectParams(limited, true);
    assert Select(p).value + "" == Select(p).value;
  }

  /** count() on a well-formed query. */
  lemma {:induction false} CountAligned(s: QueryState, useSqlLimit: bool)
    requires Aligned(s) && LeadsCleanly(s.conditionSql) && NamesWithoutMarks(s) && !s.isSqlLimit
    requires CountRows(s, useSqlLimit).result.Ok?
    ensures var st := CountRows(s, useSqlLimit).result.value;
            Count(st.sql, '?') == |st.params|
  {
    var p := CountParams(s);
    CountStatementMarks(p, useSqlLimit);
    AlignedCondition(s);
  }

  lemma {:induction false} CountStatementMarks(p: SqlParams, useSqlLimit: bool)
    requires CountSql(p).Ok? && '?' !in NullText(p.tableName)
    ensures Count(CountSql(p).value + LimitOne(useSqlLimit), '?') == ConditionMarks(p.conditionSql)
  {
    CountSqlCount(p);
    CountZero(LimitOne(useSqlLimit), '?');
    CountAppend(CountSql(p).value, LimitOne(useSqlLimit), '?');
  }

  lemma {:induction false} FromAfterStar(rest: string)
    ensures IndexOf("SELECT * FROM " + rest, "FROM") == 9
  {
    var sql := "SELECT * FROM " + rest;
    assert sql[9..13] == "FROM";
    assert OccursAt(sql, "FROM", 9);
    forall j | 0 <= j < 9 ensures !OccursAt(sql, "FROM", j) {
      assert sql[j..j + 4][0] == sql[j] == "SELECT * "[j];
    }
  }

  /** A star select with no ORDER BY or LIMIT, cut at its FROM, is the
      count statement count() renders. */
  lemma {:induction false} StarSelectCount(s: QueryState)
    requires !IsNotEmpty(s.selectColumns) && |s.excludedColumns| == 0 && !s.isSqlLimit
    requires Select(SelectParams(s, false)).Ok?
    ensures CountFromSql(Select(SelectParams(s, false)).value) == Ok(CountSql(CountParams(s)).value)
  {
    var table := NullText(s.tableName);
    var where := WhereClause(s.conditionSql).value;
    var p := SelectParams(s, false);
    SelectStar(p);
    var star := "SELECT * FROM " + table + where;
    assert OrderByClause(p.orderBy) == "" && LimitClause(p.isSqlLimit) == "";
    assert star + "" + "" == star;
    ConcatAssoc("SELECT * FROM ", table, where);
    CountOfStar(table + where);
    ConcatAssoc("SELECT COUNT(*) FROM ", table, where);
  }

  /** Cutting a star select at its FROM and putting SELECT COUNT(*) in
      front gives the count statement of the same rest. */
  lemma {:induction false} CountOfStar(rest: string)
    ensures CountFromSql("SELECT * FROM " + rest) == Ok("SELECT COUNT(*) FROM " + rest)
  {
    var sql := "SELECT * FROM " + rest;
    FromAfterStar(rest);
    assert sql[9..] == "FROM " + rest;
    ConcatAssoc("SELECT COUNT(*) ", "FROM ", rest);
    assert "SELECT COUNT(*) " + "FROM " == "SELECT COUNT(*) FROM ";
  }

  /** page(pageRow) on a plain select: its count statement is exactly what
      count() renders, and the page statement is the select followed by
      the ORDER BY and the LIMIT offset,size suffix, both with the same
      values. */
  lemma {:induction false} PageStatementsOfSelect(s: QueryState, row: PageRow, total: int)
    requires s.modelClass.Some? && !s.useSql && !s.isSqlLimit
    requires !IsNotEmpty(s.selectColumns) && |s.excludedColumns| == 0
    requires Select(SelectParams(s, false)).Ok?
    ensures Page(s, row, total).result.Ok?
    ensures Page(s, row, total).after == Cleaned(s)
    ensures Page(s, row, total).result.value.count == Statement(CountSql(CountParams(s)).value, s.paramValues)
    ensures total > 0 ==>
              Page(s, row, total).result.value.rows ==
                Some(Statement(Select(SelectParams(s, false)).value + OrderByClause(Some(s.orderBySql)) + LimitSuffix(row),
                               s.paramValues))
    ensures total <= 0 ==> Page(s, row, total).result.value.rows.None?
  {
    var sql := Select(SelectParams(s, false)).value;
    StarSelectCount(s);
    if total > 0 {
      var p := PageParams(s, sql, row);
      SelectCustomWins(p);
      assert Select(p).value == sql + OrderByClause(Some(s.orderBySql));
    }
  }

  // ---------------------------------------------------------------------
  // Statements
  // ---------------------------------------------------------------------

  /** update() binds the set values in insertion order and then the
      condition values, one per '?' of the rendered UPDATE. */
  lemma {:induction false} UpdateBindOrder(s: QueryState)
    requires QueryOps.Update(s).result.Ok?
    ensures QueryOps.Update(s).result.value.params == Values(s.updateColumns) + s.paramValues
    ensures |s.updateColumns| > 0
    ensures Aligned(s) && LeadsCleanly(s.conditionSql) && NamesWithoutMarks(s) && !s.isSqlLimit ==>
              Count(UpdateSql(UpdateParams(s, None, s.updateColumns)).value, '?') == |QueryOps.Update(s).result.value.params|
  {
    var p := UpdateParams(s, None, s.updateColumns);
    if Aligned(s) && LeadsCleanly(s.conditionSql) && NamesWithoutMarks(s) && !s.isSqlLimit {
      UpdateCount(p);
      AlignedCondition(s);
    }
  }

  /** updateById(id): the id is the last condition value, bound after the
      set values. */
  lemma {:induction false} UpdateByIdBindOrder(s: QueryState, id: Option<Value>)
    requires UpdateById(s, id).result.Ok?
    ensures UpdateById(s, id).result.value.params == Values(s.updateColumns) + s.paramValues + [id]
  {
    UpdateBindOrder(WherePk(s, id).after);
  }

  /** delete() with a condition binds one value per '?'; without one it
      renders a DELETE with no WHERE at all. */
  lemma {:induction false} DeleteAligned(s: QueryState)
    requires QueryOps.Delete(s).result.Ok?
    ensures Aligned(s) && LeadsCleanly(s.conditionSql) && NamesWithoutMarks(s) && !s.isSqlLimit ==>
              Count(DeleteSql(DeleteParams(s, None)).value, '?') == |QueryOps.Delete(s).result.value.params|
    ensures s.conditionSql == "" ==>
              QueryOps.Delete(s).result.value.sql == Rewrite("DELETE FROM " + NullText(s.tableName), 1)
  {
    var p := DeleteParams(s, None);
    if Aligned(s) && LeadsCleanly(s.conditionSql) && NamesWithoutMarks(s) && !s.isSqlLimit {
      DeleteCount(p);
      AlignedCondition(s);
      if |s.conditionSql| == 0 {
        CountZero("DELETE FROM " + NullText(s.tableName), '?');
      }
    }
  }

  /** save and saveOrUpdateOnDuplicate on a model of the query's own class
      render one '?' per value they bind. */
  lemma {:induction false} SaveBindsEveryMark(s: QueryState, model: Instance)
    requires s.modelClass.Some? && NamesWithoutMarks(s)
    ensures var mc := s.modelClass.value;
            var p := InsertParams(s, model, ColumnValues(ModelFields(mc), model, true));
            && Save(s, mc, model).result.Ok?
            && SaveOrUpdateOnDuplicate(s, mc, model).result.Ok?
            && Count(InsertSql(p).value, '?') == |Save(s, mc, model).result.value.params|
            && Count(InsertOnDuplicateSql(p).value, '?') == |SaveOrUpdateOnDuplicate(s, mc, model).result.value.params|
  {
    var mc := s.modelClass.value;
    SaveAligned(InsertParams(s, model, ColumnValues(ModelFields(mc), model, true)), model);
  }

  /** updateByModel once the key is read: a non-null key is bound last
      behind " WHERE pk = ?"; a null one leaves the update without WHERE.
      With no earlier condition, each '?' has its value. */
  lemma {:induction false} UpdateWithKeyShape(s: QueryState, pk: Option<Value>, model: Instance)
    requires s.modelClass.Some? && s.conditionSql == "" && NamesWithoutMarks(s)
    requires UpdateWithKey(s, s.modelClass.value, pk, model).result.Ok?
    ensures var st := UpdateWithKey(s, s.modelClass.value, pk, model).result.value;
            var values := ColumnValues(ModelFields(s.modelClass.value), model, false);
            var update := UpdateSql(UpdateParams(s, Some(model), [])).value;
            && (pk.Some? ==> st == Statement(Rewrite(update + " WHERE " + NullText(s.primaryKeyColumn) + " = ?", 1), values + [pk]))
            && (pk.None? ==> st == Statement(Rewrite(update, 1), values))
            && Count(update, '?') + (if pk.Some? then 1 else 0) == |st.params|
  {
    var fields := ModelFields(s.modelClass.value);
    var p := UpdateParams(s, Some(model), []);
    var update := UpdateSql(p).value;
    NonNullColumnsNoMarks(fields, model);
    NonNullColumnsCount(fields, model);
    UpdateCount(p);
  }

  // ---------------------------------------------------------------------
  // updateById(model, id)
  // ---------------------------------------------------------------------

  /** As written, updateById(model, id) binds the model's values and id but
      not the values of conditions added before it, so the statement has
      one '?' too many for each of them. */
  lemma {:induction false} UpdateModelByIdMisbinds(s: QueryState, model: Instance, id: Option<Value>)
    requires s.modelClass.Some? && s.primaryKeyColumn.Some?
    requires Aligned(s) && LeadsCleanly(s.conditionSql) && NamesWithoutMarks(s) && !s.isSqlLimit
    requires UpdateModelById(s, s.modelClass.value, model, id).result.Ok?
    ensures var w := WherePk(s, id).after;
            Count(UpdateSql(UpdateParams(w, Some(model), [])).value, '?') ==
              |UpdateModelById(s, s.modelClass.value, model, id).result.value.params| + |s.paramValues|
  {
    var w := WherePk(s, id).after;
    WherePkAligned(s, id);
    var fields := ModelFields(s.modelClass.value);
    NonNullColumnsNoMarks(fields, model);
    NonNullColumnsCount(fields, model);
    UpdateCount(UpdateParams(w, Some(model), []));
    AlignedCondition(w);
  }

  /** where("age", 3).updateById(model, 7) on a model with one non-null
      column: three '?' and two values. */
  lemma {:induction false} UpdateModelByIdCounterexample(s: QueryState, model: Instance)
    requires s.modelClass.Some? && s.primaryKeyColumn.Some? && s.conditionSql == "" && s.paramValues == []
    requires !s.isSqlLimit && NamesWithoutMarks(s)
    requires |ColumnValues(ModelFields(s.modelClass.value), model, false)| == 1
    ensures var q := AddClause(s, Condition("age", Some(IntegerValue(3))));
            var t := UpdateModelById(q, s.modelClass.value, model, Some(IntegerValue(7)));
            && t.result.Ok?
            && |t.result.value.params| == 2
            && Count(UpdateSql(UpdateParams(WherePk(q, Some(IntegerValue(7))).after, Some(model), [])).value, '?') == 3
  {
    var q := AddClause(s, Condition("age", Some(IntegerValue(3))));
    AgeCondition(s);
    OneColumnUpdate(q, model, Some(IntegerValue(7)));
    UpdateModelByIdMisbinds(q, model, Some(IntegerValue(7)));
  }

  /** updateById(model, id) after one condition, on a model with one
      non-null column, succeeds and binds two values. */
  lemma {:induction false} OneColumnUpdate(q: QueryState, model: Instance, id: Option<Value>)
    requires q.modelClass.Some? && q.primaryKeyColumn.Some? && |q.conditionSql| >= 5
    requires |ColumnValues(ModelFields(q.modelClass.value), model, false)| == 1
    ensures UpdateModelById(q, q.modelClass.value, model, id).result.Ok?
    ensures |UpdateModelById(q, q.modelClass.value, model, id).result.value.params| == 2
  {
    NonNullColumnsCount(ModelFields(q.modelClass.value), model);
  }

  /** where("age", 3) on an empty condition: one aligned predicate. */
  lemma {:induction false} AgeCondition(s: QueryState)
    requires s.conditionSql == "" && s.paramValues == [] && !s.isSqlLimit && NamesWithoutMarks(s)
    ensures var q := AddClause(s, Condition("age", Some(IntegerValue(3))));
            && Aligned(q) && LeadsCleanly(q.conditionSql) && NamesWithoutMarks(q)
            && |q.conditionSql| >= 5 && q.paramValues == [Some(IntegerValue(3))]
  {
    CountZero("age", '?');
    CountZero("", '?');
    AddClauseExcess(s, Condition("age", Some(IntegerValue(3))));
    AddClauseLeads(s, Condition("age", Some(IntegerValue(3))));
  }

  /** Binding every condition value instead restores one value per '?',
      with id last. */
  lemma {:induction false} UpdateModelByIdCorrectedAligned(s: QueryState, model: Instance, id: Option<Value>)
    requires s.modelClass.Some? && s.primaryKeyColumn.Some?
    requires Aligned(s) && LeadsCleanly(s.conditionSql) && NamesWithoutMarks(s) && !s.isSqlLimit
    requires UpdateModelByIdCorrected(s, s.modelClass.value, model, id).result.Ok?
    ensures var w := WherePk(s, id).after;
            var st := UpdateModelByIdCorrected(s, s.modelClass.value, model, id).result.value;
            && Count(UpdateSql(UpdateParams(w, Some(model), [])).value, '?') == |st.params|
            && st.params == ColumnValues(ModelFields(s.modelClass.value), model, false) + s.paramValues + [id]
  {
    var w := WherePk(s, id).after;
    WherePkAligned(s, id);
    var fields := ModelFields(s.modelClass.value);
    NonNullColumnsNoMarks(fields, model);
    NonNullColumnsCount(fields, model);
    UpdateCount(UpdateParams(w, Some(model), []));
    AlignedCondition(w);
  }

  // ---------------------------------------------------------------------
  // execute()
  // ---------------------------------------------------------------------

  /** execute() runs update() or delete() as the DML type says; any other
      type, or none, throws before anything is built. */
  lemma {:induction false} ExecuteDmlDispatch(s: QueryState)
    ensures s.dmlType == Some(UpdateDml) ==> ExecuteDml(s) == QueryOps.Update(s)
    ensures s.dmlType == Some(DeleteDml) ==> ExecuteDml(s) == QueryOps.Delete(s)
    ensures s.dmlType.None? ==> ExecuteDml(s) == Transition(Err(NullPointer), s)
    ensures s.dmlType == Some(OtherDml) ==>
              ExecuteDml(s) == Transition(Err(WrapperError(None, "Please check if your use is correct.")), s)
  {
  }
}
