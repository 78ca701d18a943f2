/** MySQL pagination: the select of the Dialect interface followed by a
    LIMIT offset,size suffix whose offset is computed in Java int
    arithmetic. */
module MySQLDialect {
  import opened Wrappers
  import opened Text
  import opened JavaValues
  import opened Dialect

  /** pageSize * (pageNum - 1), both operations wrapping at 32 bits. */
  function Offset(row: PageRow): (r: Int32)
    ensures (r - row.pageSize * (row.pageNum - 1)) % TwoTo32 == 0
  {
    var previous := ToInt32(row.pageNum - 1);
    OffsetCongruent(row.pageSize, row.pageNum - 1, previous);
    ToInt32(row.pageSize * previous)
  }

  lemma {:induction false} OffsetCongruent(size: int, n: int, m: int)
    requires (m - n) % TwoTo32 == 0
    ensures (ToInt32(size * m) - size * n) % TwoTo32 == 0
  {
    var k := (m - n) / TwoTo32;
    assert m == n + k * TwoTo32;
    assert size * m == size * n + (size * k) * TwoTo32;
    var r := ToInt32(size * m);
    var j := (r - size * m) / TwoTo32;
    assert r - size * n == (j + size * k) * TwoTo32;
  }

  /** The " LIMIT offset,size" suffix. */
  function LimitSuffix(row: PageRow): string
  {
    " LIMIT " + IntToString(Offset(row)) + "," + IntToString(row.pageSize)
  }

  /** paginate: a missing page row throws before anything is rendered. */
  function Paginate(p: SqlParams): Result<string, JavaError>
  {
    if p.pageRow.None? then Err(NullPointer)
    else
      match Select(p)
      case Err(e) => Err(e)
      case Ok(select) => Ok(select + LimitSuffix(p.pageRow.value))
  }

  /** The first page starts at row 0. */
  lemma {:induction false} FirstPageOffset(row: PageRow)
    requires row.pageNum == 1
    ensures Offset(row) == 0
  {
    assert ToInt32(0) == 0;
  }

  /** Without overflow the offset is the number of rows on earlier pages,
      never negative for page numbers from 1 and non-negative sizes. */
  lemma {:induction false} OffsetWithoutOverflow(row: PageRow)
    requires row.pageNum >= 1 && row.pageSize >= 0
    requires row.pageSize * (row.pageNum - 1) < TwoTo31
    ensures Offset(row) == row.pageSize * (row.pageNum - 1)
    ensures Offset(row) >= 0
  {
    ToInt32Identity(row.pageNum - 1);
    assert 0 <= row.pageSize * (row.pageNum - 1);
    ToInt32Identity(row.pageSize * (row.pageNum - 1));
  }

  /** Pages far enough out wrap to a negative offset: 65536 rows per page
      on page 32769 gives -2147483648. */
  lemma {:induction false} OffsetOverflows()
    ensures Offset(PageRow(32769, 65536)) == -TwoTo31
  {
    var row := PageRow(32769, 65536);
    ToInt32Identity(32768);
    assert 65536 * 32768 == TwoTo31;
    assert TwoTo31 % TwoTo32 == TwoTo31;
  }

  /** The page statement is the select, unchanged, with the LIMIT suffix
      after it: any ORDER BY and the bound-placeholder count of the select
      carry over. */
  lemma {:induction false} PaginateExtendsSelect(p: SqlParams)
    ensures Paginate(p).Ok? <==> p.pageRow.Some? && Select(p).Ok?
    ensures Paginate(p).Ok? ==>
              var s := Select(p).value;
              && |Paginate(p).value| > |s|
              && Paginate(p).value[..|s|] == s
              && Paginate(p).value[|s|..] == LimitSuffix(p.pageRow.value)
              && Count(Paginate(p).value, '?') == Count(s, '?')
  {
    if Paginate(p).Ok? {
      var s := Select(p).value;
      var suffix := LimitSuffix(p.pageRow.value);
      assert Paginate(p).value == s + suffix;
      CountZero(suffix, '?');
      CountAppend(s, suffix, '?');
    }
  }
}
