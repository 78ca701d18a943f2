/** The SQL renderers of the Dialect interface. Each one depends only on the
    SqlParams record it is given. Select and count are single
    concatenations; insert, insert-on-duplicate, update and delete fill
    builders in loops over the persistable fields and are proved against
    the functions that describe their output. */
module Dialect {
  import opened Wrappers
  import opened Text
  import opened JavaValues
  import opened Metadata
  import opened DatabaseUtils
  import opened DatabaseCache
  import opened ModelValues

  /** A requested page: page number and rows per page, both Java ints. */
  datatype PageRow = PageRow(pageNum: Int32, pageSize: Int32)

  /** The SQLParams record. A null update-column map and an empty one are
      rendered alike, so both are the empty sequence. pkName is carried by
      the record but read by no renderer, so it is not modelled. */
  datatype SqlParams = SqlParams(
    modelClass: Option<ModelClass>,
    model: Option<Instance>,
    selectColumns: Option<string>,
    tableName: Option<string>,
    conditionSql: string,
    columnValues: seq<Option<Value>>,
    updateColumns: seq<(string, Option<Value>)>,
    excludedColumns: Option<seq<string>>,
    pageRow: Option<PageRow>,
    orderBy: Option<string>,
    isSqlLimit: bool,
    customSql: Option<string>)

  /** StringBuilder.append of a possibly null string. */
  function NullText(s: Option<string>): string
  {
    if s.None? then "null" else s.value
  }

  // ---------------------------------------------------------------------
  // Placeholder lists
  // ---------------------------------------------------------------------

  function Marks(n: nat): (r: seq<string>)
    ensures |r| == n && forall i :: 0 <= i < n ==> r[i] == "?"
  {
    seq(n, _ => "?")
  }

  /** n question marks separated by ", ". */
  function Placeholders(n: nat): string
  {
    Join(Marks(n), ", ")
  }

  /** "col = ?" for every column. */
  function Bound(columns: seq<string>): (r: seq<string>)
    ensures |r| == |columns| && forall i :: 0 <= i < |columns| ==> r[i] == columns[i] + " = ?"
  {
    seq(|columns|, i requires 0 <= i < |columns| => columns[i] + " = ?")
  }

  /** "col =  ? " for every column: the assignment text the ON DUPLICATE
      KEY UPDATE clause uses. */
  function DuplicateBound(columns: seq<string>): (r: seq<string>)
    ensures |r| == |columns| && forall i :: 0 <= i < |columns| ==> r[i] == columns[i] + " =  ? "
  {
    seq(|columns|, i requires 0 <= i < |columns| => columns[i] + " =  ? ")
  }

  predicate NoMarks(columns: seq<string>)
  {
    forall i :: 0 <= i < |columns| ==> '?' !in columns[i]
  }

  /** A text with exactly one '?' between two texts without any. */
  lemma {:induction false} OneMark(a: string, b: string)
    requires '?' !in a && '?' !in b
    ensures Count(a + "?" + b, '?') == 1
  {
    CountZero(a, '?');
    CountZero(b, '?');
    assert Count("?", '?') == 1 by {
      assert "?"[..0] == "";
    }
    CountAppend(a, "?", '?');
    CountAppend(a + "?", b, '?');
  }

  lemma {:induction false} PlaceholdersCount(n: nat)
    ensures Count(Placeholders(n), '?') == n
  {
    OneMark("", "");
    assert "" + "?" + "" == "?";
    CountJoin(Marks(n), ", ", '?');
    CountAllEachOne(Marks(n), '?');
  }

  lemma {:induction false} BoundCount(columns: seq<string>, sep: string)
    requires NoMarks(columns) && '?' !in sep
    ensures Count(Join(Bound(columns), sep), '?') == |columns|
    ensures Count(Join(DuplicateBound(columns), sep), '?') == |columns|
  {
    forall i | 0 <= i < |columns|
      ensures Count(Bound(columns)[i], '?') == 1 && Count(DuplicateBound(columns)[i], '?') == 1
    {
      OneMark(columns[i] + " = ", "");
      assert columns[i] + " = " + "?" + "" == Bound(columns)[i];
      OneMark(columns[i] + " =  ", " ");
      assert columns[i] + " =  " + "?" + " " == DuplicateBound(columns)[i];
    }
    CountJoin(Bound(columns), sep, '?');
    CountAllEachOne(Bound(columns), '?');
    CountJoin(DuplicateBound(columns), sep, '?');
    CountAllEachOne(DuplicateBound(columns), '?');
  }

  lemma {:induction false} BoundSnoc(columns: seq<string>, c: string)
    ensures Bound(columns + [c]) == Bound(columns) + [c + " = ?"]
    ensures DuplicateBound(columns + [c]) == DuplicateBound(columns) + [c + " =  ? "]
  {
  }

  lemma {:induction false} MarksSnoc(n: nat)
    ensures Marks(n + 1) == Marks(n) + ["?"]
  {
  }

  lemma {:induction false} PrefixedSnoc(parts: seq<string>, p: string, sep: string)
    ensures Prefixed(parts + [p], sep) == Prefixed(parts, sep) + sep + p
    ensures Suffixed(parts + [p], sep) == Suffixed(parts, sep) + p + sep
  {
    assert (parts + [p])[..|parts|] == parts;
  }

  /** Dropping the separator a builder loop wrote in front of (or behind)
      every part leaves the joined parts. */
  lemma {:induction false} PrefixedDrop(parts: seq<string>, sep: string)
    requires |parts| > 0
    ensures |Prefixed(parts, sep)| >= |sep| && Prefixed(parts, sep)[|sep|..] == Join(parts, sep)
    ensures |Suffixed(parts, sep)| >= |sep| &&
            Suffixed(parts, sep)[..|Suffixed(parts, sep)| - |sep|] == Join(parts, sep)
  {
    PrefixedIsSepJoin(parts, sep);
    SuffixedIsJoinSep(parts, sep);
  }

  lemma {:induction false} PrefixedEmptyIff(parts: seq<string>, sep: string)
    requires |sep| > 0
    ensures |Prefixed(parts, sep)| == 0 <==> |parts| == 0
    ensures |Suffixed(parts, sep)| == 0 <==> |parts| == 0
  {
    if |parts| > 0 {
      PrefixedDrop(parts, sep);
    }
  }

  // ---------------------------------------------------------------------
  // WHERE, ORDER BY and LIMIT parts
  // ---------------------------------------------------------------------

  /** " WHERE " and the condition without its leading five characters (the
      " AND " of the first predicate); a non-empty condition shorter than
      five characters makes substring(5) throw. */
  function WhereClause(conditionSql: string): Result<string, JavaError>
  {
    if |conditionSql| == 0 then Ok("")
    else if |conditionSql| < 5 then Err(IndexOutOfBounds)
    else Ok(" WHERE " + conditionSql[5..])
  }

  function OrderByClause(orderBy: Option<string>): string
  {
    if IsNotEmpty(orderBy) then " ORDER BY" + orderBy.value else ""
  }

  function LimitClause(isSqlLimit: bool): string
  {
    if isSqlLimit then " LIMIT ?" else ""
  }

  /** The number of '?' the condition contributes once rendered. */
  function ConditionMarks(conditionSql: string): nat
  {
    if |conditionSql| < 5 then 0 else Count(conditionSql[5..], '?')
  }

  lemma {:induction false} WhereClauseCount(conditionSql: string)
    requires WhereClause(conditionSql).Ok?
    ensures Count(WhereClause(conditionSql).value, '?') == ConditionMarks(conditionSql)
    ensures WhereClause(conditionSql).value == "" <==> conditionSql == ""
  {
    if |conditionSql| >= 5 {
      CountZero(" WHERE ", '?');
      CountAppend(" WHERE ", conditionSql[5..], '?');
    } else {
      CountZero("", '?');
    }
  }

  /** Dropping five leading characters without '?' loses no placeholder. */
  lemma {:induction false} ConditionMarksAll(conditionSql: string)
    requires |conditionSql| >= 5 && '?' !in conditionSql[..5]
    ensures ConditionMarks(conditionSql) == Count(conditionSql, '?')
  {
    assert conditionSql == conditionSql[..5] + conditionSql[5..];
    CountAppend(conditionSql[..5], conditionSql[5..], '?');
    CountZero(conditionSql[..5], '?');
  }

  // ---------------------------------------------------------------------
  // select / count
  // ---------------------------------------------------------------------

  /** The column list part of a select: the select columns, else the
      column list left by the exclusions, else "*". */
  function SelectColumnsPart(p: SqlParams): Result<string, JavaError>
  {
    if IsNotEmpty(p.selectColumns) then Ok(" " + p.selectColumns.value + " ")
    else if IsNotEmptyCollection(p.excludedColumns) then
      if p.modelClass.None? then Err(NullPointer)
      else Ok(" " + ColumnList(ModelFields(p.modelClass.value), p.excludedColumns.value) + " ")
    else Ok(" * ")
  }

  /** select: the custom SQL verbatim when present, else SELECT ... FROM
      table [WHERE ...]; then [ORDER BY ...] and [LIMIT ?]. */
  function Select(p: SqlParams): Result<string, JavaError>
  {
    var head :=
      if IsNotEmpty(p.customSql) then Ok(p.customSql.value)
      else
        match SelectColumnsPart(p)
        case Err(e) => Err(e)
        case Ok(columns) =>
          match WhereClause(p.conditionSql)
          case Err(e) => Err(e)
          case Ok(where) => Ok("SELECT" + columns + "FROM " + NullText(p.tableName) + where);
    match head
    case Err(e) => Err(e)
    case Ok(h) => Ok(h + OrderByClause(p.orderBy) + LimitClause(p.isSqlLimit))
  }

  /** count: SELECT COUNT(*) FROM table [WHERE ...]. */
  function CountSql(p: SqlParams): Result<string, JavaError>
  {
    match WhereClause(p.conditionSql)
    case Err(e) => Err(e)
    case Ok(where) => Ok("SELECT COUNT(*) FROM " + NullText(p.tableName) + where)
  }

  /** Custom SQL makes the table, condition, select columns and exclusions
      irrelevant. */
  lemma {:induction false} SelectCustomWins(p: SqlParams)
    requires IsNotEmpty(p.customSql)
    ensures Select(p) == Select(p.(tableName := None, conditionSql := "", selectColumns := None,
                                   excludedColumns := None, modelClass := None))
    ensures Select(p) == Ok(p.customSql.value + OrderByClause(p.orderBy) + LimitClause(p.isSqlLimit))
  {
  }

  /** Select columns make the exclusions irrelevant. */
  lemma {:induction false} SelectColumnsWin(p: SqlParams)
    requires IsNotEmpty(p.selectColumns)
    ensures Select(p) == Select(p.(excludedColumns := None, modelClass := None))
  {
  }

  /** Without select columns or exclusions a select lists every column. */
  lemma {:induction false} SelectStar(p: SqlParams)
    requires !IsNotEmpty(p.customSql) && !IsNotEmpty(p.selectColumns) && !IsNotEmptyCollection(p.excludedColumns)
    requires WhereClause(p.conditionSql).Ok?
    ensures Select(p) == Ok("SELECT * FROM " + NullText(p.tableName) + WhereClause(p.conditionSql).value +
                            OrderByClause(p.orderBy) + LimitClause(p.isSqlLimit))
  {
    StarHead();
  }

  lemma {:induction false} StarHead()
    ensures "SELECT" + " * " + "FROM " == "SELECT * FROM "
  {
  }

  /** Every '?' of a rendered select comes from the condition, and one more
      from LIMIT ? when the SQL limit is on. */
  lemma {:induction false} SelectCount(p: SqlParams)
    requires Select(p).Ok? && !IsNotEmpty(p.customSql)
    requires '?' !in NullText(p.tableName)
    requires p.selectColumns.Some? ==> '?' !in p.selectColumns.value
    requires p.modelClass.Some? && IsNotEmptyCollection(p.excludedColumns) ==>
               NoMarks(SelectableColumns(ModelFields(p.modelClass.value), p.excludedColumns.value))
    requires p.orderBy.Some? ==> '?' !in p.orderBy.value
    ensures Count(Select(p).value, '?') == ConditionMarks(p.conditionSql) + (if p.isSqlLimit then 1 else 0)
  {
    var columns := SelectColumnsPart(p).value;
    var table := NullText(p.tableName);
    var where := WhereClause(p.conditionSql).value;
    var order := OrderByClause(p.orderBy);
    var limit := LimitClause(p.isSqlLimit);
    assert Select(p).value == "SELECT" + columns + "FROM " + table + where + order + limit;
    ColumnsPartUnmarked(p);
    WhereClauseCount(p.conditionSql);
    CountZero(columns, '?');
    CountZero(table, '?');
    OrderByUnmarked(p.orderBy);
    LimitClauseCount(p.isSqlLimit);
    SelectTextCount(columns, table, where, order, limit);
  }

  lemma {:induction false} ColumnsPartUnmarked(p: SqlParams)
    requires SelectColumnsPart(p).Ok?
    requires p.selectColumns.Some? ==> '?' !in p.selectColumns.value
    requires p.modelClass.Some? && IsNotEmptyCollection(p.excludedColumns) ==>
               NoMarks(SelectableColumns(ModelFields(p.modelClass.value), p.excludedColumns.value))
    ensures '?' !in SelectColumnsPart(p).value
  {
    if !IsNotEmpty(p.selectColumns) && IsNotEmptyCollection(p.excludedColumns) {
      var cs := SelectableColumns(ModelFields(p.modelClass.value), p.excludedColumns.value);
      if |cs| > 0 {
        CountJoin(cs, ",", '?');
        forall i | 0 <= i < |cs| ensures Count(cs[i], '?') == 0 {
          CountZero(cs[i], '?');
        }
        CountAllZero(cs, '?');
        CountZero(Join(cs, ","), '?');
      }
    }
  }

  lemma {:induction false} OrderByUnmarked(orderBy: Option<string>)
    requires orderBy.Some? ==> '?' !in orderBy.value
    ensures Count(OrderByClause(orderBy), '?') == 0
  {
    CountZero(OrderByClause(orderBy), '?');
  }

  lemma {:induction false} LimitClauseCount(isSqlLimit: bool)
    ensures Count(LimitClause(isSqlLimit), '?') == if isSqlLimit then 1 else 0
  {
    if isSqlLimit {
      OneMark(" LIMIT ", "");
      assert " LIMIT " + "?" + "" == LimitClause(isSqlLimit);
    } else {
      CountZero(LimitClause(isSqlLimit), '?');
    }
  }

  lemma {:induction false} SelectTextCount(columns: string, table: string, where: string, order: string, limit: string)
    ensures Count("SELECT" + columns + "FROM " + table + where + order + limit, '?') ==
              Count(columns, '?') + Count(table, '?') + Count(where, '?') + Count(order, '?') + Count(limit, '?')
  {
    CountZero("SELECT", '?');
    CountZero("FROM ", '?');
    CountAppend("SELECT", columns, '?');
    CountAppend("SELECT" + columns, "FROM ", '?');
    CountAppend("SELECT" + columns + "FROM ", table, '?');
    var head := "SELECT" + columns + "FROM " + table;
    CountAppend(head, where, '?');
    CountAppend(head + where, order, '?');
    CountAppend(head + where + order, limit, '?');
  }

  lemma {:induction false} CountAllZero(parts: seq<string>, c: char)
    requires forall i :: 0 <= i < |parts| ==> Count(parts[i], c) == 0
    ensures CountAll(parts, c) == 0
  {
    if |parts| > 0 {
      CountAllZero(parts[..|parts| - 1], c);
    }
  }

  lemma {:induction false} CountSqlCount(p: SqlParams)
    requires CountSql(p).Ok? && '?' !in NullText(p.tableName)
    ensures Count(CountSql(p).value, '?') == ConditionMarks(p.conditionSql)
  {
    WhereClauseCount(p.conditionSql);
    CountZero(NullText(p.tableName), '?');
    CountZero("SELECT COUNT(*) FROM ", '?');
    CountAppend("SELECT COUNT(*) FROM ", NullText(p.tableName), '?');
    CountAppend("SELECT COUNT(*) FROM " + NullText(p.tableName), WhereClause(p.conditionSql).value, '?');
  }

  // ---------------------------------------------------------------------
  // insert / insertOnDuplicate
  // ---------------------------------------------------------------------

  /** The column names of the fields whose value is non-null, in order. */
  function InsertColumns(fields: seq<Field>, values: seq<Option<Value>>): seq<string>
    requires |values| >= |fields|
  {
    if |fields| == 0 then []
    else
      var n := |fields| - 1;
      InsertColumns(fields[..n], values) + (if values[n].Some? then [ColumnNameOf(fields[n])] else [])
  }

  /** The same restricted to fields flagged updateOnDuplicate. */
  function DuplicateColumns(fields: seq<Field>, values: seq<Option<Value>>): seq<string>
    requires |values| >= |fields|
  {
    if |fields| == 0 then []
    else
      var n := |fields| - 1;
      DuplicateColumns(fields[..n], values) +
        (if values[n].Some? && UpdateOnDuplicateOf(fields[n]) then [ColumnNameOf(fields[n])] else [])
  }

  function InsertText(table: string, columns: seq<string>): string
  {
    "INSERT INTO " + table + ValuesText(columns)
  }

  /** "(columns) VALUES (placeholders)", or nothing without a column. */
  function ValuesText(columns: seq<string>): string
  {
    if |columns| > 0 then "(" + Join(columns, ", ") + ") VALUES (" + Placeholders(|columns|) + ")" else ""
  }

  function DuplicateText(columns: seq<string>): string
  {
    if |columns| > 0 then " ON DUPLICATE KEY UPDATE " + Join(DuplicateBound(columns), ", ") else ""
  }

  /** insert: a missing model class makes computeModelFields throw, fewer
      values than fields make the list lookup throw. */
  function InsertSql(p: SqlParams): Result<string, JavaError>
  {
    if p.modelClass.None? then Err(NullPointer)
    else
      var fields := ModelFields(p.modelClass.value);
      if |p.columnValues| < |fields| then Err(IndexOutOfBounds)
      else Ok(InsertText(NullText(p.tableName), InsertColumns(fields, p.columnValues)))
  }

  function InsertOnDuplicateSql(p: SqlParams): Result<string, JavaError>
  {
    if p.modelClass.None? then Err(NullPointer)
    else
      var fields := ModelFields(p.modelClass.value);
      if |p.columnValues| < |fields| then Err(IndexOutOfBounds)
      else Ok(InsertText(NullText(p.tableName), InsertColumns(fields, p.columnValues)) +
              DuplicateText(DuplicateColumns(fields, p.columnValues)))
  }

  lemma {:induction false} InsertColumnsPrefix(fields: seq<Field>, values: seq<Option<Value>>, i: nat)
    requires i < |fields| && i < |values|
    ensures InsertColumns(fields[..i + 1], values) ==
      InsertColumns(fields[..i], values) + (if values[i].Some? then [ColumnNameOf(fields[i])] else [])
    ensures DuplicateColumns(fields[..i + 1], values) ==
      DuplicateColumns(fields[..i], values) +
        (if values[i].Some? && UpdateOnDuplicateOf(fields[i]) then [ColumnNameOf(fields[i])] else [])
  {
    assert fields[..i + 1][..i] == fields[..i];
  }

  /** One step of the insert loops: the builders grow by exactly the
      column (and placeholder, and duplicate assignment) of field i. */
  lemma {:induction false} InsertStep(fields: seq<Field>, values: seq<Option<Value>>, i: nat)
    requires i < |fields| && i < |values|
    ensures var before := InsertColumns(fields[..i], values);
            var after := InsertColumns(fields[..i + 1], values);
            && (values[i].Some? ==>
                  && Prefixed(after, ", ") == Prefixed(before, ", ") + ", " + ColumnNameOf(fields[i])
                  && Prefixed(Marks(|after|), ", ") == Prefixed(Marks(|before|), ", ") + ", ?")
            && (values[i].None? ==> after == before)
    ensures var before := DuplicateColumns(fields[..i], values);
            var after := DuplicateColumns(fields[..i + 1], values);
            && (values[i].Some? && UpdateOnDuplicateOf(fields[i]) ==>
                  Prefixed(DuplicateBound(after), ", ") ==
                    Prefixed(DuplicateBound(before), ", ") + ", " + ColumnNameOf(fields[i]) + " = " + " ? ")
            && (!(values[i].Some? && UpdateOnDuplicateOf(fields[i])) ==> after == before)
  {
    InsertColumnsPrefix(fields, values, i);
    var c := ColumnNameOf(fields[i]);
    InsertedStep(InsertColumns(fields[..i], values), c, values[i].Some?);
    DuplicateStep(DuplicateColumns(fields[..i], values), c, values[i].Some? && UpdateOnDuplicateOf(fields[i]));
  }

  /** The column and placeholder builders after one more column, or none. */
  lemma {:induction false} InsertedStep(before: seq<string>, c: string, added: bool)
    ensures var after := before + (if added then [c] else []);
            && (added ==>
                  && Prefixed(after, ", ") == Prefixed(before, ", ") + ", " + c
                  && Prefixed(Marks(|after|), ", ") == Prefixed(Marks(|before|), ", ") + ", ?")
            && (!added ==> after == before)
  {
    if added {
      PrefixedSnoc(before, c, ", ");
      MarksSnoc(|before|);
      PrefixedSnoc(Marks(|before|), "?", ", ");
      assert |before + [c]| == |before| + 1;
    } else {
      assert before + [] == before;
    }
  }

  /** The duplicate-update builder after one more column, or none. */
  lemma {:induction false} DuplicateStep(before: seq<string>, c: string, added: bool)
    ensures var after := before + (if added then [c] else []);
            && (added ==>
                  Prefixed(DuplicateBound(after), ", ") == Prefixed(DuplicateBound(before), ", ") + ", " + c + " = " + " ? ")
            && (!added ==> after == before)
  {
    if added {
      BoundSnoc(before, c);
      var x := Prefixed(DuplicateBound(before), ", ") + ", ";
      PrefixedSnoc(DuplicateBound(before), c + " =  ? ", ", ");
      SpacedAssignment();
      ConcatAssoc(c, " = ", " ? ");
      ConcatAssoc(x, c + " = ", " ? ");
      ConcatAssoc(x, c, " = ");
    } else {
      assert before + [] == before;
    }
  }

  lemma {:induction false} SpacedAssignment()
    ensures " = " + " ? " == " =  ? "
  {
  }

  method Insert(p: SqlParams) returns (r: Result<string, JavaError>)
    ensures r == InsertSql(p)
  {
    var sql := "INSERT INTO " + NullText(p.tableName);
    if p.modelClass.None? {
      return Err(NullPointer);
    }
    var fields := ModelFields(p.modelClass.value);
    var columnNames := "";
    var placeholder := "";
    for i := 0 to |fields|
      invariant |p.columnValues| >= i
      invariant columnNames == Prefixed(InsertColumns(fields[..i], p.columnValues), ", ")
      invariant placeholder == Prefixed(Marks(|InsertColumns(fields[..i], p.columnValues)|), ", ")
    {
      if i >= |p.columnValues| {
        return Err(IndexOutOfBounds);
      }
      InsertStep(fields, p.columnValues, i);
      if p.columnValues[i].Some? {
        columnNames := columnNames + ", " + ColumnNameOf(fields[i]);
        placeholder := placeholder + ", ?";
      }
    }
    assert fields[..|fields|] == fields;
    sql := sql + InsertTail(InsertColumns(fields, p.columnValues), columnNames, placeholder);
    r := Ok(sql);
  }

  /** The "(columns) VALUES (placeholders)" part the insert loops finish
      with, cutting the leading ", " off both builders. */
  function InsertTail(columns: seq<string>, columnNames: string, placeholder: string): (r: string)
    requires columnNames == Prefixed(columns, ", ") && placeholder == Prefixed(Marks(|columns|), ", ")
    ensures r == ValuesText(columns)
  {
    PrefixedEmptyIff(columns, ", ");
    PrefixedEmptyIff(Marks(|columns|), ", ");
    if |columnNames| > 0 && |placeholder| > 0 then
      PrefixedDrop(columns, ", ");
      PrefixedDrop(Marks(|columns|), ", ");
      ValuesLiteral("(" + columnNames[2..]);
      "(" + columnNames[2..] + ")" + " VALUES (" + placeholder[2..] + ")"
    else ""
  }

  /** The " ON DUPLICATE KEY UPDATE assignments" part, cutting the leading
      ", " off the builder; nothing when no column is updated. */
  function DuplicateTail(columns: seq<string>, duplicateColumnNames: string): (r: string)
    requires duplicateColumnNames == Prefixed(DuplicateBound(columns), ", ")
    ensures r == DuplicateText(columns)
  {
    PrefixedEmptyIff(DuplicateBound(columns), ", ");
    if |duplicateColumnNames| > 0 then
      PrefixedDrop(DuplicateBound(columns), ", ");
      " ON DUPLICATE KEY UPDATE " + duplicateColumnNames[2..]
    else ""
  }

  lemma {:induction false} ValuesLiteral(head: string)
    ensures head + ")" + " VALUES (" == head + ") VALUES ("
  {
    ConcatAssoc(head, ")", " VALUES (");
    assert ")" + " VALUES (" == ") VALUES (";
  }

  method InsertOnDuplicate(p: SqlParams) returns (r: Result<string, JavaError>)
    ensures r == InsertOnDuplicateSql(p)
  {
    var sql := "INSERT INTO " + NullText(p.tableName);
    if p.modelClass.None? {
      return Err(NullPointer);
    }
    var fields := ModelFields(p.modelClass.value);
    var columnNames := "";
    var placeholder := "";
    var duplicateColumnNames := "";
    for i := 0 to |fields|
      invariant |p.columnValues| >= i
      invariant columnNames == Prefixed(InsertColumns(fields[..i], p.columnValues), ", ")
      invariant placeholder == Prefixed(Marks(|InsertColumns(fields[..i], p.columnValues)|), ", ")
      invariant duplicateColumnNames == Prefixed(DuplicateBound(DuplicateColumns(fields[..i], p.columnValues)), ", ")
    {
      if i >= |p.columnValues| {
        return Err(IndexOutOfBounds);
      }
      InsertStep(fields, p.columnValues, i);
      if p.columnValues[i].Some? {
        var field := fields[i];
        columnNames := columnNames + ", " + ColumnNameOf(field);
        placeholder := placeholder + ", ?";
        if UpdateOnDuplicateOf(field) {
          duplicateColumnNames := duplicateColumnNames + ", " + ColumnNameOf(field) + " = " + " ? ";
        }
      }
    }
    assert fields[..|fields|] == fields;
    sql := sql + InsertTail(InsertColumns(fields, p.columnValues), columnNames, placeholder);
    sql := sql + DuplicateTail(DuplicateColumns(fields, p.columnValues), duplicateColumnNames);
    r := Ok(sql);
  }

  /** A column is inserted exactly when its field's value is non-null. */
  lemma {:induction false} InsertColumnsMembers(fields: seq<Field>, values: seq<Option<Value>>)
    requires |values| >= |fields|
    ensures forall c :: c in InsertColumns(fields, values) <==>
      exists i :: 0 <= i < |fields| && values[i].Some? && ColumnNameOf(fields[i]) == c
    ensures |InsertColumns(fields, values)| <= |fields|
  {
    if |fields| > 0 {
      var n := |fields| - 1;
      var prev := InsertColumns(fields[..n], values);
      var last := if values[n].Some? then [ColumnNameOf(fields[n])] else [];
      InsertColumnsMembers(fields[..n], values);
      assert InsertColumns(fields, values) == prev + last;
      forall c ensures c in prev + last <==>
        exists i :: 0 <= i < |fields| && values[i].Some? && ColumnNameOf(fields[i]) == c
      {
        if c in prev {
          var i :| 0 <= i < n && values[i].Some? && ColumnNameOf(fields[..n][i]) == c;
          assert fields[..n][i] == fields[i];
        } else if c in last {
          assert values[n].Some? && ColumnNameOf(fields[n]) == c;
        }
        if exists i :: 0 <= i < |fields| && values[i].Some? && ColumnNameOf(fields[i]) == c {
          var i :| 0 <= i < |fields| && values[i].Some? && ColumnNameOf(fields[i]) == c;
          if i < n {
            assert fields[..n][i] == fields[i];
            assert c in prev;
          } else {
            assert c == last[0];
          }
        }
      }
    }
  }

  /** An insert carries one '?' per inserted column; with no non-null value
      it is the bare INSERT INTO table. */
  lemma {:induction false} InsertTextCount(table: string, columns: seq<string>)
    requires '?' !in table && NoMarks(columns)
    ensures Count(InsertText(table, columns), '?') == |columns|
    ensures |columns| == 0 ==> InsertText(table, columns) == "INSERT INTO " + table
  {
    var head := "INSERT INTO " + table;
    assert Count(head, '?') == 0 by {
      CountZero(head, '?');
    }
    if |columns| > 0 {
      InsertValuesCount(columns);
      CountAppend(head, ValuesText(columns), '?');
    } else {
      assert head + "" == head;
    }
  }

  lemma {:induction false} InsertValuesCount(columns: seq<string>)
    requires NoMarks(columns)
    ensures Count("(" + Join(columns, ", ") + ") VALUES (" + Placeholders(|columns|) + ")", '?') == |columns|
  {
    var joined := Join(columns, ", ");
    assert Count(joined, '?') == 0 by {
      CountJoin(columns, ", ", '?');
      forall i | 0 <= i < |columns| ensures Count(columns[i], '?') == 0 {
        CountZero(columns[i], '?');
      }
      CountAllZero(columns, '?');
    }
    PlaceholdersCount(|columns|);
    ValuesPartCount(joined, Placeholders(|columns|));
  }

  lemma {:induction false} ValuesPartCount(joined: string, marks: string)
    ensures Count("(" + joined + ") VALUES (" + marks + ")", '?') == Count(joined, '?') + Count(marks, '?')
  {
    CountZero("(", '?');
    CountZero(") VALUES (", '?');
    CountZero(")", '?');
    CountFive("(", joined, ") VALUES (", marks, ")");
  }

  lemma {:induction false} CountFive(a: string, b: string, c: string, d: string, e: string)
    ensures Count(a + b + c + d + e, '?') == Count(a, '?') + Count(b, '?') + Count(c, '?') + Count(d, '?') + Count(e, '?')
  {
    CountAppend(a, b, '?');
    CountAppend(a + b, c, '?');
    CountAppend(a + b + c, d, '?');
    CountAppend(a + b + c + d, e, '?');
  }

  lemma {:induction false} DuplicateTextCount(columns: seq<string>)
    requires NoMarks(columns)
    ensures Count(DuplicateText(columns), '?') == |columns|
  {
    if |columns| > 0 {
      BoundCount(columns, ", ");
      CountZero(" ON DUPLICATE KEY UPDATE ", '?');
      CountAppend(" ON DUPLICATE KEY UPDATE ", Join(DuplicateBound(columns), ", "), '?');
    }
  }

  // ---------------------------------------------------------------------
  // update / delete
  // ---------------------------------------------------------------------

  /** The column names of the fields whose value in the model is non-null. */
  function NonNullColumns(fields: seq<Field>, model: Instance): seq<string>
  {
    if |fields| == 0 then []
    else
      var n := |fields| - 1;
      NonNullColumns(fields[..n], model) + (if ValueOf(model, fields[n]).Some? then [ColumnNameOf(fields[n])] else [])
  }

  function Keys(entries: seq<(string, Option<Value>)>): (r: seq<string>)
    ensures |r| == |entries| && forall i :: 0 <= i < |entries| ==> r[i] == entries[i].0
  {
    seq(|entries|, i requires 0 <= i < |entries| => entries[i].0)
  }

  /** The columns an update assigns: the update-column keys in insertion
      order when there are any, else the model's non-null columns. */
  function AssignedColumns(p: SqlParams): Result<seq<string>, JavaError>
  {
    if |p.updateColumns| > 0 then Ok(Keys(p.updateColumns))
    else if p.model.Some? then
      if p.modelClass.None? then Err(NullPointer)
      else Ok(NonNullColumns(ModelFields(p.modelClass.value), p.model.value))
    else Ok([])
  }

  /** update: with nothing to assign, substring(0, -2) throws. */
  function UpdateSql(p: SqlParams): Result<string, JavaError>
  {
    match AssignedColumns(p)
    case Err(e) => Err(e)
    case Ok(columns) =>
      if |columns| == 0 then Err(IndexOutOfBounds)
      else
        match WhereClause(p.conditionSql)
        case Err(e) => Err(e)
        case Ok(where) => Ok("UPDATE " + NullText(p.tableName) + " SET " + Join(Bound(columns), ", ") + where)
  }

  /** delete: the condition when there is one, else the model's non-null
      columns joined by " and ", else no WHERE at all. */
  function DeleteSql(p: SqlParams): Result<string, JavaError>
  {
    var head := "DELETE FROM " + NullText(p.tableName);
    if |p.conditionSql| > 0 then
      match WhereClause(p.conditionSql)
      case Err(e) => Err(e)
      case Ok(where) => Ok(head + where)
    else if p.model.Some? then
      if p.modelClass.None? then Err(NullPointer)
      else
        var columns := NonNullColumns(ModelFields(p.modelClass.value), p.model.value);
        Ok(head + (if |columns| > 0 then " WHERE " + Join(Bound(columns), " and ") else ""))
    else Ok(head)
  }

  lemma {:induction false} NonNullColumnsPrefix(fields: seq<Field>, model: Instance, i: nat)
    requires i < |fields|
    ensures NonNullColumns(fields[..i + 1], model) ==
      NonNullColumns(fields[..i], model) + (if ValueOf(model, fields[i]).Some? then [ColumnNameOf(fields[i])] else [])
  {
    assert fields[..i + 1][..i] == fields[..i];
  }

  /** The "col = ?, " items for the model's non-null fields, as the update
      and delete loops write them. */
  method ModelAssignments(fields: seq<Field>, model: Instance, sep: string) returns (items: string)
    ensures items == Suffixed(Bound(NonNullColumns(fields, model)), sep)
  {
    items := "";
    for i := 0 to |fields|
      invariant items == Suffixed(Bound(NonNullColumns(fields[..i], model)), sep)
    {
      NonNullColumnsPrefix(fields, model, i);
      var value := ValueOf(model, fields[i]);
      var cols := NonNullColumns(fields[..i], model);
      if value.None? {
        assert cols + [] == cols;
        continue;
      }
      var c := ColumnNameOf(fields[i]);
      BoundSnoc(cols, c);
      PrefixedSnoc(Bound(cols), c + " = ?", sep);
      assert items + (c + " = ?") + sep == items + c + " = ?" + sep;
      items := items + c + " = ?" + sep;
    }
    assert fields[..|fields|] == fields;
  }

  method Update(p: SqlParams) returns (r: Result<string, JavaError>)
    ensures r == UpdateSql(p)
  {
    var sql := "UPDATE " + NullText(p.tableName) + " SET ";
    var setSql := "";
    ghost var columns: seq<string> := [];
    if |p.updateColumns| > 0 {
      setSql := UpdateAssignments(p.updateColumns);
      columns := Keys(p.updateColumns);
    } else if p.model.Some? {
      if p.modelClass.None? {
        return Err(NullPointer);
      }
      setSql := ModelAssignments(ModelFields(p.modelClass.value), p.model.value, ", ");
      columns := NonNullColumns(ModelFields(p.modelClass.value), p.model.value);
    }
    assert AssignedColumns(p) == Ok(columns);
    PrefixedEmptyIff(Bound(columns), ", ");
    if |setSql| < 2 {
      return Err(IndexOutOfBounds);
    }
    PrefixedDrop(Bound(columns), ", ");
    sql := sql + setSql[..|setSql| - 2];
    if |p.conditionSql| > 0 {
      if |p.conditionSql| < 5 {
        return Err(IndexOutOfBounds);
      }
      ConcatAssoc(sql, " WHERE ", p.conditionSql[5..]);
      sql := sql + " WHERE " + p.conditionSql[5..];
    } else {
      assert sql + "" == sql;
    }
    r := Ok(sql);
  }

  /** The forEach over the update columns: "key = ?, " for each entry, in
      insertion order. */
  method UpdateAssignments(entries: seq<(string, Option<Value>)>) returns (setSql: string)
    ensures setSql == Suffixed(Bound(Keys(entries)), ", ")
  {
    setSql := "";
    for i := 0 to |entries|
      invariant setSql == Suffixed(Bound(Keys(entries[..i])), ", ")
    {
      UpdateAssignmentStep(entries, i);
      setSql := setSql + entries[i].0 + " = ?" + ", ";
    }
    assert entries[..|entries|] == entries;
  }

  lemma {:induction false} UpdateAssignmentStep(entries: seq<(string, Option<Value>)>, i: nat)
    requires i < |entries|
    ensures Suffixed(Bound(Keys(entries[..i + 1])), ", ") ==
              Suffixed(Bound(Keys(entries[..i])), ", ") + entries[i].0 + " = ?" + ", "
  {
    var keys := Keys(entries[..i]);
    var key := entries[i].0;
    assert Keys(entries[..i + 1]) == keys + [key];
    BoundSnoc(keys, key);
    PrefixedSnoc(Bound(keys), key + " = ?", ", ");
    ConcatAssoc(Suffixed(Bound(keys), ", "), key, " = ?");
  }

  method Delete(p: SqlParams) returns (r: Result<string, JavaError>)
    ensures r == DeleteSql(p)
  {
    var sql := "DELETE FROM " + NullText(p.tableName);
    if |p.conditionSql| > 0 {
      if |p.conditionSql| < 5 {
        return Err(IndexOutOfBounds);
      }
      sql := sql + " WHERE " + p.conditionSql[5..];
      assert sql == "DELETE FROM " + NullText(p.tableName) + WhereClause(p.conditionSql).value;
    } else if p.model.Some? {
      if p.modelClass.None? {
        return Err(NullPointer);
      }
      var columnNames := ModelAssignments(ModelFields(p.modelClass.value), p.model.value, " and ");
      var columns := NonNullColumns(ModelFields(p.modelClass.value), p.model.value);
      PrefixedEmptyIff(Bound(columns), " and ");
      if |columnNames| > 0 {
        PrefixedDrop(Bound(columns), " and ");
        assert |" and "| == 5;
        assert columnNames[..|columnNames| - 5] == Join(Bound(columns), " and ");
        sql := sql + " WHERE " + columnNames[..|columnNames| - 5];
        assert sql == "DELETE FROM " + NullText(p.tableName) + (" WHERE " + Join(Bound(columns), " and "));
      } else {
        assert sql == "DELETE FROM " + NullText(p.tableName) + "";
      }
    }
    r := Ok(sql);
  }

  /** An update carries one '?' per assigned column followed by the
      condition's. */
  lemma {:induction false} UpdateCount(p: SqlParams)
    requires UpdateSql(p).Ok? && '?' !in NullText(p.tableName)
    requires NoMarks(AssignedColumns(p).value)
    ensures Count(UpdateSql(p).value, '?') == |AssignedColumns(p).value| + ConditionMarks(p.conditionSql)
  {
    var columns := AssignedColumns(p).value;
    var table := NullText(p.tableName);
    var assignments := Join(Bound(columns), ", ");
    var head := "UPDATE " + table + " SET ";
    var where := WhereClause(p.conditionSql).value;
    BoundCount(columns, ", ");
    WhereClauseCount(p.conditionSql);
    CountZero(head, '?');
    assert UpdateSql(p).value == head + assignments + where;
    CountAppend(head, assignments, '?');
    CountAppend(head + assignments, where, '?');
  }

  /** A delete's '?' come from the condition when there is one, else one
      per non-null model column; with neither it has no WHERE. */
  lemma {:induction false} DeleteCount(p: SqlParams)
    requires DeleteSql(p).Ok? && '?' !in NullText(p.tableName)
    requires p.model.Some? && p.modelClass.Some? ==> NoMarks(NonNullColumns(ModelFields(p.modelClass.value), p.model.value))
    ensures |p.conditionSql| > 0 ==> Count(DeleteSql(p).value, '?') == ConditionMarks(p.conditionSql)
    ensures |p.conditionSql| == 0 && p.model.Some? ==>
              Count(DeleteSql(p).value, '?') == |NonNullColumns(ModelFields(p.modelClass.value), p.model.value)|
    ensures |p.conditionSql| == 0 && p.model.None? ==> DeleteSql(p) == Ok("DELETE FROM " + NullText(p.tableName))
  {
    var table := NullText(p.tableName);
    var head := "DELETE FROM " + table;
    CountZero(head, '?');
    if |p.conditionSql| > 0 {
      WhereClauseCount(p.conditionSql);
      CountAppend(head, WhereClause(p.conditionSql).value, '?');
    } else if p.model.Some? {
      var columns := NonNullColumns(ModelFields(p.modelClass.value), p.model.value);
      if |columns| > 0 {
        var joined := Join(Bound(columns), " and ");
        BoundCount(columns, " and ");
        CountZero(" WHERE ", '?');
        CountAppend(" WHERE ", joined, '?');
        CountAppend(head, " WHERE " + joined, '?');
      } else {
        assert DeleteSql(p).value == head + "";
        assert head + "" == head;
      }
    }
  }

  // ---------------------------------------------------------------------
  // Renderers against the value lists bound with them
  // ---------------------------------------------------------------------

  /** No column name of the fields contains a '?'. */
  predicate ColumnsWithoutMarks(fields: seq<Field>)
  {
    forall i :: 0 <= i < |fields| ==> '?' !in ColumnNameOf(fields[i])
  }

  lemma {:induction false} NonNullColumnsSnoc(fields: seq<Field>, f: Field, model: Instance)
    ensures NonNullColumns(fields + [f], model) ==
      NonNullColumns(fields, model) + (if ValueOf(model, f).Some? then [ColumnNameOf(f)] else [])
  {
    assert (fields + [f])[..|fields|] == fields;
  }

  /** Rendering with the null-keeping value list of a model lists exactly
      the model's non-null columns, and the duplicate clause exactly the
      non-null columns of the fields flagged updateOnDuplicate. */
  lemma {:induction false} InsertColumnsOfModel(fields: seq<Field>, model: Instance, values: seq<Option<Value>>)
    requires |values| >= |fields|
    requires forall i :: 0 <= i < |fields| ==> values[i] == ValueOf(model, fields[i])
    ensures InsertColumns(fields, values) == NonNullColumns(fields, model)
    ensures DuplicateColumns(fields, values) == NonNullColumns(OnDuplicateFields(fields), model)
  {
    if |fields| > 0 {
      var n := |fields| - 1;
      var init := fields[..n];
      assert forall i :: 0 <= i < |init| ==> values[i] == ValueOf(model, init[i]);
      InsertColumnsOfModel(init, model, values);
      assert fields == init + [fields[n]];
      var dupInit := OnDuplicateFields(init);
      if UpdateOnDuplicateOf(fields[n]) {
        NonNullColumnsSnoc(dupInit, fields[n], model);
      } else {
        assert dupInit + [] == dupInit;
      }
    }
  }

  /** Each non-null column is one value of the null-skipping value list. */
  lemma {:induction false} NonNullColumnsCount(fields: seq<Field>, model: Instance)
    ensures |NonNullColumns(fields, model)| == |ColumnValues(fields, model, false)|
  {
    if |fields| > 0 {
      NonNullColumnsCount(fields[..|fields| - 1], model);
    }
  }

  lemma {:induction false} NonNullColumnsNoMarks(fields: seq<Field>, model: Instance)
    requires ColumnsWithoutMarks(fields)
    ensures NoMarks(NonNullColumns(fields, model))
  {
    if |fields| > 0 {
      var n := |fields| - 1;
      assert forall i :: 0 <= i < n ==> fields[..n][i] == fields[i];
      NonNullColumnsNoMarks(fields[..n], model);
    }
  }

  lemma {:induction false} OnDuplicateFieldsNoMarks(fields: seq<Field>)
    requires ColumnsWithoutMarks(fields)
    ensures ColumnsWithoutMarks(OnDuplicateFields(fields))
  {
    if |fields| > 0 {
      var n := |fields| - 1;
      assert forall i :: 0 <= i < n ==> fields[..n][i] == fields[i];
      OnDuplicateFieldsNoMarks(fields[..n]);
    }
  }

  /** Saving a model renders one '?' per value that save binds: the insert
      built from the null-keeping value list has as many placeholders as
      the null-skipping list has values, and the duplicate variant adds one
      per non-null updateOnDuplicate value. */
  lemma {:induction false} SaveAligned(p: SqlParams, model: Instance)
    requires p.modelClass.Some? && '?' !in NullText(p.tableName)
    requires ColumnsWithoutMarks(ModelFields(p.modelClass.value))
    requires p.columnValues == ColumnValues(ModelFields(p.modelClass.value), model, true)
    ensures InsertSql(p).Ok? && InsertOnDuplicateSql(p).Ok?
    ensures Count(InsertSql(p).value, '?') == |ColumnValues(ModelFields(p.modelClass.value), model, false)|
    ensures Count(InsertOnDuplicateSql(p).value, '?') ==
              |ColumnValues(ModelFields(p.modelClass.value), model, false)| +
              |ColumnValues(OnDuplicateFields(ModelFields(p.modelClass.value)), model, false)|
  {
    var fields := ModelFields(p.modelClass.value);
    ColumnValuesWithNulls(fields, model);
    InsertColumnsOfModel(fields, model, p.columnValues);
    NonNullColumnsCount(fields, model);
    NonNullColumnsCount(OnDuplicateFields(fields), model);
    NonNullColumnsNoMarks(fields, model);
    OnDuplicateFieldsNoMarks(fields);
    NonNullColumnsNoMarks(OnDuplicateFields(fields), model);
    var columns := NonNullColumns(fields, model);
    var dups := NonNullColumns(OnDuplicateFields(fields), model);
    InsertTextCount(NullText(p.tableName), columns);
    DuplicateTextCount(dups);
    CountAppend(InsertText(NullText(p.tableName), columns), DuplicateText(dups), '?');
  }
}
