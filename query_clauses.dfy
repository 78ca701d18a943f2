/** The state a Query accumulates, as a value, and the transitions its
    builder methods make: condition text with its bound values, ORDER BY
    fragments, update assignments in insertion order, exclusions, the
    select columns, and clean(). The Query class states each of its
    mutators as one of these transitions. */
module QueryClauses {
  import opened Wrappers
  import opened Text
  import opened JavaValues
  import opened Metadata
  import opened DatabaseCache
  import opened Dialect

  /** The DML kinds execute() dispatches on; only UPDATE and DELETE are
      distinguished by it. */
  datatype DmlType = UpdateDml | DeleteDml | OtherDml

  /** Every field of a Query except its join list. A null select-column
      string is None; the buffers and lists start empty. */
  datatype QueryState = QueryState(
    modelClass: Option<ModelClass>,
    tableName: Option<string>,
    primaryKeyColumn: Option<string>,
    conditionSql: string,
    orderBySql: string,
    excludedColumns: seq<string>,
    paramValues: seq<Option<Value>>,
    updateColumns: seq<(string, Option<Value>)>,
    isSqlLimit: bool,
    useSql: bool,
    selectColumns: Option<string>,
    dmlType: Option<DmlType>)

  /** A Query as the no-argument constructor leaves it. */
  const EmptyState: QueryState :=
    QueryState(None, None, None, "", "", [], [], [], false, false, None, None)

  // ---------------------------------------------------------------------
  // Conditions
  // ---------------------------------------------------------------------

  datatype Comparison = Equal | NotEqual | Like | Greater | GreaterOrEqual | Less | LessOrEqual

  function ComparisonText(op: Comparison): string
  {
    match op
    case Equal => " = ?"
    case NotEqual => " != ?"
    case Like => " LIKE ?"
    case Greater => " > ?"
    case GreaterOrEqual => " >= ?"
    case Less => " < ?"
    case LessOrEqual => " <= ?"
  }

  /** One call of a condition builder. A column of None is the column-less
      form that continues the previous predicate (eq(value), gt(value),
      between(a, b), notNull(), ...). */
  datatype Clause =
    | Raw(statement: string)
    | Condition(statement: string, value: Option<Value>)
    | Alternative(statement: string, value: Option<Value>)
    | Compare(column: Option<string>, op: Comparison, value: Option<Value>)
    | Between(column: Option<string>, low: Option<Value>, high: Option<Value>)
    | NotEmpty(column: Option<string>)
    | NotNull(column: Option<string>)
    | In(column: Option<string>, args: Option<seq<Option<Value>>>)

  function ColumnPrefix(column: Option<string>): string
  {
    if column.Some? then " AND " + column.value else ""
  }

  /** " = ?" is added after a statement only when it has no '?' of its own. */
  function EqualsUnlessMarked(statement: string): string
  {
    if '?' in statement then "" else " = ?"
  }

  function InArgs(args: Option<seq<Option<Value>>>): seq<Option<Value>>
  {
    if args.None? then [] else args.value
  }

  /** The text a clause appends to the condition buffer. */
  function ClauseText(c: Clause): string
  {
    match c
    case Raw(statement) => " AND " + statement
    case Condition(statement, _) => " AND " + statement + EqualsUnlessMarked(statement)
    case Alternative(statement, _) => " OR (" + statement + EqualsUnlessMarked(statement) + ")"
    case Compare(column, op, _) => ColumnPrefix(column) + ComparisonText(op)
    case Between(column, _, _) => ColumnPrefix(column) + " BETWEEN ? and ?"
    case NotEmpty(column) => ColumnPrefix(column) + " != ''"
    case NotNull(column) => ColumnPrefix(column) + " IS NOT NULL"
    case In(column, args) =>
      if |InArgs(args)| == 0 then "" else ColumnPrefix(column) + " IN (" + Placeholders(|InArgs(args)|) + ")"
  }

  /** The values a clause binds, in order. */
  function ClauseValues(c: Clause): seq<Option<Value>>
  {
    match c
    case Raw(_) => []
    case Condition(_, v) => [v]
    case Alternative(_, v) => [v]
    case Compare(_, _, v) => [v]
    case Between(_, a, b) => [a, b]
    case NotEmpty(_) => []
    case NotNull(_) => []
    case In(_, args) => InArgs(args)
  }

  function AddClause(s: QueryState, c: Clause): QueryState
  {
    s.(conditionSql := s.conditionSql + ClauseText(c), paramValues := s.paramValues + ClauseValues(c))
  }

  /** The '?' a caller-supplied statement or column name brings beyond the
      ones the clause binds. */
  function ExtraMarks(c: Clause): nat
  {
    match c
    case Raw(statement) => Count(statement, '?')
    case Condition(statement, _) => if Count(statement, '?') == 0 then 0 else Count(statement, '?') - 1
    case Alternative(statement, _) => if Count(statement, '?') == 0 then 0 else Count(statement, '?') - 1
    case Compare(column, _, _) => ColumnMarks(column)
    case Between(column, _, _) => ColumnMarks(column)
    case NotEmpty(column) => ColumnMarks(column)
    case NotNull(column) => ColumnMarks(column)
    case In(column, args) => if |InArgs(args)| == 0 then 0 else ColumnMarks(column)
  }

  function ColumnMarks(column: Option<string>): nat
  {
    if column.Some? then Count(column.value, '?') else 0
  }

  lemma {:induction false} ColumnPrefixCount(column: Option<string>)
    ensures Count(ColumnPrefix(column), '?') == ColumnMarks(column)
  {
    if column.Some? {
      CountZero(" AND ", '?');
      CountAppend(" AND ", column.value, '?');
    } else {
      CountZero("", '?');
    }
  }

  lemma {:induction false} ComparisonCount(op: Comparison)
    ensures Count(ComparisonText(op), '?') == 1
  {
    var t := ComparisonText(op);
    var n := |t| - 1;
    assert t[n] == '?';
    CountZero(t[..n], '?');
    assert t == t[..n] + "?";
    OneMark(t[..n], "");
    assert t[..n] + "?" + "" == t;
  }

  lemma {:induction false} StatementCount(statement: string)
    ensures Count(statement + EqualsUnlessMarked(statement), '?') ==
              if Count(statement, '?') == 0 then 1 else Count(statement, '?')
  {
    CountZero(statement, '?');
    if '?' in statement {
      assert statement + EqualsUnlessMarked(statement) == statement;
    } else {
      ComparisonCount(Equal);
      CountAppend(statement, " = ?", '?');
    }
  }

  lemma {:induction false} PrefixedCount(column: Option<string>, suffix: string)
    ensures Count(ColumnPrefix(column) + suffix, '?') == ColumnMarks(column) + Count(suffix, '?')
  {
    ColumnPrefixCount(column);
    CountAppend(ColumnPrefix(column), suffix, '?');
  }

  lemma {:induction false} BetweenTextCount()
    ensures Count(" BETWEEN ? and ?", '?') == 2
  {
    OneMark(" BETWEEN ", " and ");
    OneMark("", "");
    assert " BETWEEN ? and ?" == (" BETWEEN " + "?" + " and ") + ("" + "?" + "");
    CountAppend(" BETWEEN " + "?" + " and ", "" + "?" + "", '?');
  }

  lemma {:induction false} ConditionTextCount(statement: string)
    ensures Count(" AND " + statement + EqualsUnlessMarked(statement), '?') ==
              if Count(statement, '?') == 0 then 1 else Count(statement, '?')
  {
    StatementCount(statement);
    CountZero(" AND ", '?');
    CountAppend(" AND ", statement + EqualsUnlessMarked(statement), '?');
    assert " AND " + statement + EqualsUnlessMarked(statement) == " AND " + (statement + EqualsUnlessMarked(statement));
  }

  lemma {:induction false} AlternativeTextCount(statement: string)
    ensures Count(" OR (" + statement + EqualsUnlessMarked(statement) + ")", '?') ==
              if Count(statement, '?') == 0 then 1 else Count(statement, '?')
  {
    var body := statement + EqualsUnlessMarked(statement);
    StatementCount(statement);
    CountZero(" OR (", '?');
    CountZero(")", '?');
    CountAppend(" OR (", body, '?');
    CountAppend(" OR (" + body, ")", '?');
    assert " OR (" + statement + EqualsUnlessMarked(statement) + ")" == " OR (" + body + ")";
  }

  lemma {:induction false} InTextCount(column: Option<string>, n: nat)
    ensures Count(ColumnPrefix(column) + " IN (" + Placeholders(n) + ")", '?') == ColumnMarks(column) + n
  {
    var prefix := ColumnPrefix(column);
    ColumnPrefixCount(column);
    PlaceholdersCount(n);
    CountZero(" IN (", '?');
    CountZero(")", '?');
    CountAppend(prefix, " IN (", '?');
    CountAppend(prefix + " IN (", Placeholders(n), '?');
    CountAppend(prefix + " IN (" + Placeholders(n), ")", '?');
  }

  /** Each clause appends exactly one '?' per value it binds, plus any
      '?' the caller wrote into its statement or column beyond the one a
      marked statement binds. */
  lemma {:induction false} ClauseCount(c: Clause)
    ensures Count(ClauseText(c), '?') == |ClauseValues(c)| + ExtraMarks(c)
  {
    match c
    case Raw(statement) => RawCount(statement);
    case Condition(statement, _) => ConditionTextCount(statement);
    case Alternative(statement, _) => AlternativeTextCount(statement);
    case Compare(column, op, _) => CompareCount(column, op);
    case Between(column, _, _) => BetweenCount(column);
    case NotEmpty(column) => NotEmptyCount(column);
    case NotNull(column) => NotNullCount(column);
    case In(column, args) =>
      if |InArgs(args)| == 0 {
        CountZero("", '?');
      } else {
        InTextCount(column, |InArgs(args)|);
      }
  }

  lemma {:induction false} RawCount(statement: string)
    ensures Count(" AND " + statement, '?') == Count(statement, '?')
  {
    CountZero(" AND ", '?');
    CountAppend(" AND ", statement, '?');
  }

  lemma {:induction false} CompareCount(column: Option<string>, op: Comparison)
    ensures Count(ColumnPrefix(column) + ComparisonText(op), '?') == 1 + ColumnMarks(column)
  {
    ComparisonCount(op);
    PrefixedCount(column, ComparisonText(op));
  }

  lemma {:induction false} BetweenCount(column: Option<string>)
    ensures Count(ColumnPrefix(column) + " BETWEEN ? and ?", '?') == 2 + ColumnMarks(column)
  {
    BetweenTextCount();
    PrefixedCount(column, " BETWEEN ? and ?");
  }

  lemma {:induction false} NotEmptyCount(column: Option<string>)
    ensures Count(ColumnPrefix(column) + " != ''", '?') == ColumnMarks(column)
  {
    CountZero(" != ''", '?');
    PrefixedCount(column, " != ''");
  }

  lemma {:induction false} NotNullCount(column: Option<string>)
    ensures Count(ColumnPrefix(column) + " IS NOT NULL", '?') == ColumnMarks(column)
  {
    CountZero(" IS NOT NULL", '?');
    PrefixedCount(column, " IS NOT NULL");
  }

  /** in() with a null or empty argument list changes nothing. */
  lemma {:induction false} InWithoutArgsIsNoOp(s: QueryState, column: Option<string>, args: Option<seq<Option<Value>>>)
    requires args.None? || |args.value| == 0
    ensures AddClause(s, In(column, args)) == s
  {
    assert s.conditionSql + "" == s.conditionSql;
    assert s.paramValues + [] == s.paramValues;
  }

  // ---------------------------------------------------------------------
  // Placeholder/value alignment
  // ---------------------------------------------------------------------

  /** The '?' in the condition (and the LIMIT ? once limit(n) has run) less
      the values bound so far. */
  function Excess(s: QueryState): int
  {
    Count(s.conditionSql, '?') + (if s.isSqlLimit then 1 else 0) - |s.paramValues|
  }

  predicate Aligned(s: QueryState)
  {
    Excess(s) == 0
  }

  /** A clause keeps an aligned query aligned exactly when its statement or
      column brings no '?' of its own beyond the one it binds. */
  lemma {:induction false} AddClauseExcess(s: QueryState, c: Clause)
    ensures Excess(AddClause(s, c)) == Excess(s) + ExtraMarks(c)
    ensures Aligned(s) ==> (Aligned(AddClause(s, c)) <==> ExtraMarks(c) == 0)
  {
    ClauseCount(c);
    CountAppend(s.conditionSql, ClauseText(c), '?');
  }

  function AddClauses(s: QueryState, cs: seq<Clause>): QueryState
  {
    if |cs| == 0 then s else AddClause(AddClauses(s, cs[..|cs| - 1]), cs[|cs| - 1])
  }

  lemma {:induction false} AddClausesAligned(s: QueryState, cs: seq<Clause>)
    requires Aligned(s)
    requires forall i :: 0 <= i < |cs| ==> ExtraMarks(cs[i]) == 0
    ensures Aligned(AddClauses(s, cs))
  {
    if |cs| > 0 {
      AddClausesAligned(s, cs[..|cs| - 1]);
      AddClauseExcess(AddClauses(s, cs[..|cs| - 1]), cs[|cs| - 1]);
    }
  }

  /** where(model) passes over a field whose value is null, and a field
      declared String whose value is the empty string. */
  predicate SkipsField(f: Field, v: Option<Value>)
  {
    v.None? || (f.stringTyped && v == Some(StringValue("")))
  }

  /** where(model): one Condition per declared field it does not skip, in
      declaration order. */
  function ModelConditions(fields: seq<Field>, model: Instance): seq<Clause>
  {
    if |fields| == 0 then []
    else
      var f := fields[|fields| - 1];
      var v := ValueOf(model, f);
      ModelConditions(fields[..|fields| - 1], model) +
        (if SkipsField(f, v) then [] else [Condition(ColumnNameOf(f), v)])
  }

  /** A model condition binds the field's value under its column name, and
      every such condition leaves the query aligned when no column name
      carries a '?'. */
  lemma {:induction false} ModelConditionsShape(fields: seq<Field>, model: Instance)
    requires ColumnsWithoutMarks(fields)
    ensures forall i :: 0 <= i < |ModelConditions(fields, model)| ==> ExtraMarks(ModelConditions(fields, model)[i]) == 0
    ensures |ModelConditions(fields, model)| <= |fields|
  {
    if |fields| > 0 {
      var n := |fields| - 1;
      var init := fields[..n];
      assert ColumnsWithoutMarks(init) by {
        forall i | 0 <= i < n ensures '?' !in ColumnNameOf(init[i]) {
          assert init[i] == fields[i];
        }
      }
      ModelConditionsShape(init, model);
      var prev := ModelConditions(init, model);
      var v := ValueOf(model, fields[n]);
      var last := if SkipsField(fields[n], v) then [] else [Condition(ColumnNameOf(fields[n]), v)];
      assert ModelConditions(fields, model) == prev + last;
      CountZero(ColumnNameOf(fields[n]), '?');
      forall i | 0 <= i < |prev + last| ensures ExtraMarks((prev + last)[i]) == 0 {
        if i < |prev| {
          assert (prev + last)[i] == prev[i];
        }
      }
    }
  }

  // ---------------------------------------------------------------------
  // ORDER BY, set, select, exclude, clean
  // ---------------------------------------------------------------------

  /** order(fragment): ',' before every fragment but the first, then a space. */
  function AddOrder(s: QueryState, fragment: string): QueryState
  {
    s.(orderBySql := s.orderBySql + (if |s.orderBySql| > 0 then "," else "") + " " + fragment)
  }

  /** The ORDER BY text of a list of fragments. */
  function OrderText(fragments: seq<string>): string
  {
    Join(SpacedFragments(fragments), ",")
  }

  function SpacedFragments(fragments: seq<string>): (r: seq<string>)
    ensures |r| == |fragments| && forall i :: 0 <= i < |r| ==> r[i] == " " + fragments[i]
  {
    seq(|fragments|, i requires 0 <= i < |fragments| => " " + fragments[i])
  }

  /** order() calls accumulate in call order, without de-duplication. */
  lemma {:induction false} AddOrderAppends(s: QueryState, fragments: seq<string>, fragment: string)
    requires s.orderBySql == OrderText(fragments)
    ensures AddOrder(s, fragment).orderBySql == OrderText(fragments + [fragment])
  {
    var n := |fragments|;
    var spaced := SpacedFragments(fragments);
    var grown := SpacedFragments(fragments + [fragment]);
    assert grown[..n] == spaced;
    assert grown[n] == " " + fragment;
    JoinEmptyIff(spaced, ",");
    if n > 0 {
      assert |spaced[0]| > 0;
      ConcatAssoc(s.orderBySql + ",", " ", fragment);
    } else {
      assert "" + "" + " " + fragment == " " + fragment;
    }
  }

  /** The position of a key in an insertion-ordered map, or -1. */
  function KeyIndex(entries: seq<(string, Option<Value>)>, key: string): (r: int)
    ensures -1 <= r < |entries|
    ensures r == -1 <==> forall i :: 0 <= i < |entries| ==> entries[i].0 != key
    ensures r >= 0 ==> entries[r].0 == key
  {
    if |entries| == 0 then -1
    else if entries[|entries| - 1].0 == key then |entries| - 1
    else KeyIndex(entries[..|entries| - 1], key)
  }

  predicate DistinctKeys(entries: seq<(string, Option<Value>)>)
  {
    forall i, j :: 0 <= i < j < |entries| ==> entries[i].0 != entries[j].0
  }

  /** LinkedHashMap.put: an existing key keeps its position and takes the
      new value, a new key goes last. */
  function Put(entries: seq<(string, Option<Value>)>, key: string, value: Option<Value>): seq<(string, Option<Value>)>
  {
    var i := KeyIndex(entries, key);
    if i < 0 then entries + [(key, value)] else entries[i := (key, value)]
  }

  function Lookup(entries: seq<(string, Option<Value>)>, key: string): Option<Option<Value>>
  {
    var i := KeyIndex(entries, key);
    if i < 0 then None else Some(entries[i].1)
  }

  lemma {:induction false} KeyIndexDistinct(entries: seq<(string, Option<Value>)>, key: string, j: int)
    requires DistinctKeys(entries) && 0 <= j < |entries| && entries[j].0 == key
    ensures KeyIndex(entries, key) == j
  {
  }

  lemma {:induction false} PutDistinct(entries: seq<(string, Option<Value>)>, key: string, value: Option<Value>)
    requires DistinctKeys(entries)
    ensures DistinctKeys(Put(entries, key, value))
  {
  }

  lemma {:induction false} PutKeys(entries: seq<(string, Option<Value>)>, key: string, value: Option<Value>)
    ensures Keys(Put(entries, key, value)) ==
              if KeyIndex(entries, key) < 0 then Keys(entries) + [key] else Keys(entries)
  {
  }

  lemma {:induction false} PutLookup(entries: seq<(string, Option<Value>)>, key: string, value: Option<Value>, k: string)
    requires DistinctKeys(entries)
    ensures Lookup(Put(entries, key, value), k) == if k == key then Some(value) else Lookup(entries, k)
  {
    var r := Put(entries, key, value);
    PutDistinct(entries, key, value);
    var m := KeyIndex(entries, key);
    if k == key {
      KeyIndexDistinct(r, key, if m < 0 then |entries| else m);
    } else {
      var j := KeyIndex(entries, k);
      if j >= 0 {
        assert r[j] == entries[j];
        KeyIndexDistinct(r, k, j);
      } else {
        assert forall i :: 0 <= i < |r| ==> r[i].0 != k;
      }
    }
  }

  /** After put the key maps to the new value, every other key keeps its
      value, keys stay distinct, and the key order changes only by a new
      key going last. */
  lemma {:induction false} PutSpec(entries: seq<(string, Option<Value>)>, key: string, value: Option<Value>)
    requires DistinctKeys(entries)
    ensures DistinctKeys(Put(entries, key, value))
    ensures Lookup(Put(entries, key, value), key) == Some(value)
    ensures forall k :: k != key ==> Lookup(Put(entries, key, value), k) == Lookup(entries, k)
    ensures Keys(Put(entries, key, value)) ==
              if KeyIndex(entries, key) < 0 then Keys(entries) + [key] else Keys(entries)
  {
    PutDistinct(entries, key, value);
    PutKeys(entries, key, value);
    PutLookup(entries, key, value, key);
    forall k | k != key ensures Lookup(Put(entries, key, value), k) == Lookup(entries, k) {
      PutLookup(entries, key, value, k);
    }
  }

  function AddUpdateColumn(s: QueryState, column: string, value: Option<Value>): QueryState
  {
    s.(updateColumns := Put(s.updateColumns, column, value))
  }

  /** select(columns): a second call throws and leaves the query as it was. */
  function SelectColumns(s: QueryState, columns: Option<string>): Result<QueryState, JavaError>
  {
    if s.selectColumns.Some? then Err(WrapperError(None, "Select method can only be called once."))
    else Ok(s.(selectColumns := columns))
  }

  lemma {:induction false} SelectOnce(s: QueryState, first: string, second: Option<string>)
    requires s.selectColumns.None?
    ensures SelectColumns(s, Some(first)).Ok?
    ensures SelectColumns(SelectColumns(s, Some(first)).value, second).Err?
  {
  }

  function Exclude(s: QueryState, columns: seq<string>): QueryState
  {
    s.(excludedColumns := s.excludedColumns + columns)
  }

  /** clean(): every clause, value, exclusion, assignment and the select
      columns and SQL limit are reset; the model, table, primary key, the
      useSQL flag and the DML type stay. */
  function Cleaned(s: QueryState): QueryState
  {
    s.(selectColumns := None, isSqlLimit := false, orderBySql := "", conditionSql := "",
       paramValues := [], excludedColumns := [], updateColumns := [])
  }

  lemma {:induction false} CleanedResets(s: QueryState)
    ensures Aligned(Cleaned(s)) && DistinctKeys(Cleaned(s).updateColumns)
    ensures Cleaned(Cleaned(s)) == Cleaned(s)
    ensures Cleaned(s) == EmptyState.(modelClass := s.modelClass, tableName := s.tableName,
                                       primaryKeyColumn := s.primaryKeyColumn, useSql := s.useSql,
                                       dmlType := s.dmlType)
  {
    assert Count("", '?') == 0;
  }
}
