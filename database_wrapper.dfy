/** DatabaseWrapper: the global configuration (driver handle, table prefix,
    dialect, rollback trigger, statistics and SQL-limit switches), the
    registry that of() reads and open() replaces, and the atomic
    transaction protocol over the transaction slot. */
module DatabaseWrappers {
  import opened Wrappers
  import opened JavaValues
  import opened Transactions
  import opened Atomics

  /** The Sql2o instance, as a token. */
  datatype Sql2o = Sql2o(id: nat)

  /** The dialects available; MySQL is the only one the library ships. */
  datatype DialectChoice = MySQL

  datatype WrapperConfig = WrapperConfig(
    sql2o: Option<Sql2o>,
    tablePrefix: Option<string>,
    dialect: DialectChoice,
    rollbackException: string,
    enableSqlStatistic: bool,
    useSqlLimit: bool)

  /** A freshly constructed wrapper: no driver, no prefix, MySQL, roll back
      on RuntimeException, statistics and SQL limits on. */
  const DefaultConfig: WrapperConfig :=
    WrapperConfig(None, None, MySQL, RuntimeExceptionClass, true, true)

  class DatabaseWrapper {
    var sql2o: Option<Sql2o>
    var tablePrefix: Option<string>
    var dialect: DialectChoice
    var rollbackException: string
    var enableSqlStatistic: bool
    var useSqlLimit: bool

    function Config(): WrapperConfig
      reads this
    {
      WrapperConfig(sql2o, tablePrefix, dialect, rollbackException, enableSqlStatistic, useSqlLimit)
    }

    /** The private no-argument constructor: the defaults. */
    constructor ()
      ensures Config() == DefaultConfig
    {
      sql2o := None;
      tablePrefix := None;
      dialect := MySQL;
      rollbackException := RuntimeExceptionClass;
      enableSqlStatistic := true;
      useSqlLimit := true;
    }

    /** setSql2o. */
    method SetSql2o(handle: Option<Sql2o>)
      modifies this
      ensures Config() == old(Config()).(sql2o := handle)
    {
      sql2o := handle;
    }

    /** rollbackException(cls). */
    method RollbackException(cls: string) returns (self: DatabaseWrapper)
      modifies this
      ensures self == this && Config() == old(Config()).(rollbackException := cls)
    {
      rollbackException := cls;
      self := this;
    }

    /** tablePrefix(prefix). */
    method TablePrefix(prefix: Option<string>) returns (self: DatabaseWrapper)
      modifies this
      ensures self == this && Config() == old(Config()).(tablePrefix := prefix)
    {
      tablePrefix := prefix;
      self := this;
    }

    /** dialect(dialect). */
    method Dialect(choice: DialectChoice) returns (self: DatabaseWrapper)
      modifies this
      ensures self == this && Config() == old(Config()).(dialect := choice)
    {
      dialect := choice;
      self := this;
    }

    /** enableSQLStatistic(enabled). */
    method EnableSqlStatistic(enabled: bool) returns (self: DatabaseWrapper)
      modifies this
      ensures self == this && Config() == old(Config()).(enableSqlStatistic := enabled)
    {
      enableSqlStatistic := enabled;
      self := this;
    }

    /** useSQLLimit(enabled). */
    method UseSqlLimit(enabled: bool) returns (self: DatabaseWrapper)
      modifies this
      ensures self == this && Config() == old(Config()).(useSqlLimit := enabled)
    {
      useSqlLimit := enabled;
      self := this;
    }

    /** addConverter(converters...): a null or empty array throws; the
        converters are otherwise not registered anywhere. */
    method AddConverter(converters: Option<seq<string>>) returns (r: Result<DatabaseWrapper, JavaError>)
      ensures r.Err? <==> converters.None? || |converters.value| == 0
      ensures r.Err? ==> r.error == WrapperError(None, "converters not be null.")
      ensures r.Ok? ==> r.value == this
    {
      if converters.None? || |converters.value| == 0 {
        return Err(WrapperError(None, "converters not be null."));
      }
      r := Ok(this);
    }
  }

  /** The static instance of() returns and open() replaces. */
  class Registry {
    var instance: Option<DatabaseWrapper>

    constructor ()
      ensures instance.None?
    {
      instance := None;
    }

    /** of(): the instance when it exists and has a driver, else the
        SQL2O_IS_NULL error. */
    method Of() returns (r: Result<DatabaseWrapper, JavaError>)
      ensures r.Ok? <==> instance.Some? && instance.value.sql2o.Some?
      ensures r.Ok? ==> r.value == instance.value
      ensures r.Err? ==> r.error == CodedError(Sql2oIsNull)
    {
      if instance.None? || instance.value.sql2o.None? {
        return Err(CodedError(Sql2oIsNull));
      }
      r := Ok(instance.value);
    }

    /** open(sql2o): a new wrapper with the default configuration and this
        driver replaces the instance. */
    method Open(handle: Sql2o) returns (w: DatabaseWrapper)
      modifies this
      ensures fresh(w) && instance == Some(w)
      ensures w.Config() == DefaultConfig.(sql2o := Some(handle))
    {
      w := new DatabaseWrapper();
      w.SetSql2o(Some(handle));
      instance := Some(w);
    }
  }

  // ---------------------------------------------------------------------
  // atomic(runnable)
  // ---------------------------------------------------------------------

  /** What the runnable handed to atomic does: return, throw, or run a
      nested atomic (whose outcome it ignores) and carry on. A nested atomic
      carries what the driver answers if its begin has to open a connection,
      so atomics run one after another each get their own. */
  datatype Work = Done | Throw(e: JavaError) | RunAtomic(opening: Result<Connection, JavaError>, inner: Work, next: Work)

  /** The Atomic atomic returns, as a value. */
  datatype AtomicOutcome = AtomicOutcome(e: Option<JavaError>, isRollback: bool)

  /** The slot and the exception, if any, after the runnable ran. */
  function RunWork(s: SlotState, w: Work, rollbackClass: string): (SlotState, Option<JavaError>)
    decreases w, 0
  {
    match w
    case Done => (s, None)
    case Throw(e) => (s, Some(e))
    case RunAtomic(opening, inner, next) => RunWork(AtomicRun(s, opening, inner, rollbackClass).0, next, rollbackClass)
  }

  /** atomic: begin, run, commit; an exception from any of them is caught,
      rolls back when it is an instance of the configured class, and is
      reported; the slot is ended in every case. */
  function AtomicRun(s: SlotState, opening: Result<Connection, JavaError>, w: Work, rollbackClass: string): (r: (SlotState, AtomicOutcome))
    ensures r.0.bound.None?
    ensures r.1.e.None? ==> !r.1.isRollback
    ensures r.1.e.Some? ==> r.1.isRollback == r.1.e.value.IsInstanceOf(rollbackClass)
    decreases w, 1
  {
    var (begun, beginError) := Begin(s, opening);
    var (ran, thrown) :=
      if beginError.Some? then (begun, beginError)
      else
        var (worked, workError) := RunWork(begun, w, rollbackClass);
        if workError.Some? then (worked, workError) else Commit(worked);
    if thrown.None? then (End(ran), AtomicOutcome(None, false))
    else
      var rollback := thrown.value.IsInstanceOf(rollbackClass);
      (End(if rollback then Rollback(ran) else ran), AtomicOutcome(thrown, rollback))
  }

  /** A runnable that completes commits the connection atomic opened and
      reports success. */
  lemma {:induction false} AtomicCommits(s: SlotState, c: Connection, rollbackClass: string)
    requires s.bound.None?
    ensures AtomicRun(s, Ok(c), Done, rollbackClass) ==
              (SlotState(None, s.events + [Began(c), Committed(c)] + (if c.rollbackOnClose then [Closed(c)] else [])),
               AtomicOutcome(None, false))
  {
    var b := SlotState(Some(c), s.events + [Began(c)]);
    assert Begin(s, Ok(c)) == (b, None);
    assert b.events + [Committed(c)] == s.events + [Began(c), Committed(c)];
  }

  /** A runnable that throws e is reported with e, and rolled back exactly
      when e is an instance of the configured class; nothing is committed. */
  lemma {:induction false} AtomicRollsBackIff(s: SlotState, c: Connection, e: JavaError, rollbackClass: string)
    requires s.bound.None?
    ensures var rollback := e.IsInstanceOf(rollbackClass);
            AtomicRun(s, Ok(c), Throw(e), rollbackClass) ==
              (SlotState(None, s.events + [Began(c)] + (if rollback then [RolledBack(c)] else [])
                                 + (if c.rollbackOnClose then [Closed(c)] else [])),
               AtomicOutcome(Some(e), rollback))
  {
    var b := SlotState(Some(c), s.events + [Began(c)]);
    assert Begin(s, Ok(c)) == (b, None);
    assert RunWork(b, Throw(e), rollbackClass) == (b, Some(e));
    var rolled := if e.IsInstanceOf(rollbackClass) then Rollback(b) else b;
    assert rolled.events == s.events + [Began(c)] + (if e.IsInstanceOf(rollbackClass) then [RolledBack(c)] else []);
  }

  /** A nested atomic commits and ends the outer transaction's connection,
      so the outer commit finds the slot empty and throws: the outer atomic
      reports a NullPointerException, and with the default configuration
      counts it as rolled back although there is nothing left to roll back. */
  lemma {:induction false} NestedAtomicEndsOuter(s: SlotState, c: Connection)
    requires s.bound.None?
    ensures AtomicRun(s, Ok(c), RunAtomic(Ok(c), Done, Done), DefaultConfig.rollbackException) ==
              (SlotState(None, s.events + [Began(c), Committed(c)] + (if c.rollbackOnClose then [Closed(c)] else [])),
               AtomicOutcome(Some(NullPointer), true))
  {
    var b := SlotState(Some(c), s.events + [Began(c)]);
    var closed := if c.rollbackOnClose then [Closed(c)] else [];
    var ended := SlotState(None, b.events + [Committed(c)] + closed);
    assert Begin(s, Ok(c)) == (b, None);
    assert Begin(b, Ok(c)) == (b, None);
    assert AtomicRun(b, Ok(c), Done, DefaultConfig.rollbackException) == (ended, AtomicOutcome(None, false));
    assert RunWork(b, RunAtomic(Ok(c), Done, Done), DefaultConfig.rollbackException) == (ended, None);
    assert Commit(ended) == (ended, Some(NullPointer));
    assert NullPointer.IsInstanceOf(DefaultConfig.rollbackException);
    assert ended.events == s.events + [Began(c), Committed(c)] + closed;
  }

  /** Two nested atomics in a row: the first commits and ends the outer
      connection, so the second opens a connection of its own and commits
      it; the outer commit then finds the slot empty and throws. */
  lemma {:induction false} SuccessiveAtomicsOpenAgain(s: SlotState, c: Connection, d: Connection, e: Connection)
    requires s.bound.None?
    ensures var closeC := if c.rollbackOnClose then [Closed(c)] else [];
            var closeE := if e.rollbackOnClose then [Closed(e)] else [];
            AtomicRun(s, Ok(c), RunAtomic(Ok(d), Done, RunAtomic(Ok(e), Done, Done)), DefaultConfig.rollbackException) ==
              (SlotState(None, s.events + [Began(c), Committed(c)] + closeC + [Began(e), Committed(e)] + closeE),
               AtomicOutcome(Some(NullPointer), true))
  {
    var b := SlotState(Some(c), s.events + [Began(c)]);
    var closeC := if c.rollbackOnClose then [Closed(c)] else [];
    var closeE := if e.rollbackOnClose then [Closed(e)] else [];
    var first := SlotState(None, b.events + [Committed(c)] + closeC);
    var rebound := SlotState(Some(e), first.events + [Began(e)]);
    var second := SlotState(None, rebound.events + [Committed(e)] + closeE);
    assert Begin(s, Ok(c)) == (b, None);
    assert Begin(b, Ok(d)) == (b, None);
    assert AtomicRun(b, Ok(d), Done, DefaultConfig.rollbackException) == (first, AtomicOutcome(None, false));
    assert Begin(first, Ok(e)) == (rebound, None);
    assert AtomicRun(first, Ok(e), Done, DefaultConfig.rollbackException) == (second, AtomicOutcome(None, false));
    assert RunWork(first, RunAtomic(Ok(e), Done, Done), DefaultConfig.rollbackException) == (second, None);
    assert RunWork(b, RunAtomic(Ok(d), Done, RunAtomic(Ok(e), Done, Done)), DefaultConfig.rollbackException) == (second, None);
    assert Commit(second) == (second, Some(NullPointer));
    assert NullPointer.IsInstanceOf(DefaultConfig.rollbackException);
    assert second.events == s.events + [Began(c), Committed(c)] + closeC + [Began(e), Committed(e)] + closeE;
  }

  /** When the driver cannot open a transaction the error is reported, the
      runnable does not run, and the slot is left as it was. */
  lemma {:induction false} AtomicWithoutConnection(s: SlotState, error: JavaError, w: Work, rollbackClass: string)
    requires s.bound.None?
    ensures AtomicRun(s, Err(error), w, rollbackClass) ==
              (s, AtomicOutcome(Some(error), error.IsInstanceOf(rollbackClass)))
  {
  }

  /** atomic(runnable) against the slot. */
  method Atomic(slot: TransactionSlot, opening: Result<Connection, JavaError>, w: Work, rollbackClass: string) returns (a: Atomic)
    modifies slot
    ensures fresh(a)
    ensures (slot.State(), AtomicOutcome(a.e, a.isRollback)) == AtomicRun(old(slot.State()), opening, w, rollbackClass)
    decreases w, 1
  {
    var thrown := slot.BeginTransaction(opening);
    if thrown.None? {
      thrown := Run(slot, w, rollbackClass);
      if thrown.None? {
        thrown := slot.CommitTransaction();
      }
    }
    if thrown.None? {
      a := new Atomic.Ok();
    } else {
      var rollback := thrown.value.IsInstanceOf(rollbackClass);
      if rollback {
        slot.RollbackTransaction();
      }
      a := new Atomic.Error(thrown.value);
      a := a.Rollback(rollback);
    }
    slot.EndTransaction();
  }

  /** runnable.run(). */
  method Run(slot: TransactionSlot, w: Work, rollbackClass: string) returns (thrown: Option<JavaError>)
    modifies slot
    ensures (slot.State(), thrown) == RunWork(old(slot.State()), w, rollbackClass)
    decreases w, 0
  {
    match w
    case Done =>
      thrown := None;
    case Throw(e) =>
      thrown := Some(e);
    case RunAtomic(opening, inner, next) =>
      var _ := Atomic(slot, opening, inner, rollbackClass);
      thrown := Run(slot, next, rollbackClass);
  }
}
