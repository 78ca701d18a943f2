/** The transaction slot Query keeps per thread: the connection of the
    transaction in progress, if any, and the static steps that begin,
    commit, roll back and end it. Connections are tokens; what the driver
    does with them is recorded as a list of events. */
module Transactions {
  import opened Wrappers
  import opened JavaValues

  /** A connection the driver opened, and whether closing it rolls back. */
  datatype Connection = Connection(id: nat, rollbackOnClose: bool)

  /** What the slot asked the driver to do, in order. */
  datatype Event = Began(c: Connection) | Committed(c: Connection) | RolledBack(c: Connection) | Closed(c: Connection)

  datatype SlotState = SlotState(bound: Option<Connection>, events: seq<Event>)

  /** beginTransaction: only an empty slot opens a transaction; opening it
      may fail (opening is what the driver returned). */
  function Begin(s: SlotState, opening: Result<Connection, JavaError>): (r: (SlotState, Option<JavaError>))
    ensures s.bound.Some? ==> r == (s, None)
    ensures s.bound.None? && opening.Ok? ==> r.0.bound == Some(opening.value) && r.1.None?
    ensures s.bound.None? && opening.Err? ==> r == (s, Some(opening.error))
  {
    if s.bound.Some? then (s, None)
    else if opening.Err? then (s, Some(opening.error))
    else (SlotState(Some(opening.value), s.events + [Began(opening.value)]), None)
  }

  /** commit: the bound connection commits; with none bound the lookup
      is null and the call throws. */
  function Commit(s: SlotState): (r: (SlotState, Option<JavaError>))
    ensures r.1.None? <==> s.bound.Some?
    ensures r.1.Some? ==> r == (s, Some(NullPointer))
    ensures r.0.bound == s.bound
  {
    if s.bound.None? then (s, Some(NullPointer))
    else (s.(events := s.events + [Committed(s.bound.value)]), None)
  }

  /** rollback: rolls the bound connection back, if there is one. */
  function Rollback(s: SlotState): (r: SlotState)
    ensures r.bound == s.bound
    ensures s.bound.None? ==> r == s
  {
    if s.bound.None? then s else s.(events := s.events + [RolledBack(s.bound.value)])
  }

  /** endTransaction: closes the bound connection when closing rolls back,
      and always leaves the slot empty. */
  function End(s: SlotState): (r: SlotState)
    ensures r.bound.None?
    ensures s.bound.None? ==> r == s
  {
    if s.bound.None? then s
    else
      var c := s.bound.value;
      SlotState(None, s.events + (if c.rollbackOnClose then [Closed(c)] else []))
  }

  /** A begun transaction is the one committed, rolled back and ended. */
  lemma {:induction false} BeginBindsOnce(s: SlotState, c: Connection, other: Result<Connection, JavaError>)
    requires s.bound.None?
    ensures var (b, _) := Begin(s, Ok(c));
            && Begin(b, other) == (b, None)
            && Commit(b).0.events == s.events + [Began(c), Committed(c)]
            && End(b) == SlotState(None, s.events + [Began(c)] + (if c.rollbackOnClose then [Closed(c)] else []))
  {
  }

  /** Query's static transaction slot. */
  class TransactionSlot {
    var bound: Option<Connection>
    var events: seq<Event>

    function State(): SlotState
      reads this
    {
      SlotState(bound, events)
    }

    constructor ()
      ensures State() == SlotState(None, [])
    {
      bound, events := None, [];
    }

    /** beginTransaction(). */
    method BeginTransaction(opening: Result<Connection, JavaError>) returns (thrown: Option<JavaError>)
      modifies this
      ensures (State(), thrown) == Begin(old(State()), opening)
    {
      thrown := None;
      if bound.None? {
        if opening.Err? {
          return Some(opening.error);
        }
        bound := Some(opening.value);
        events := events + [Began(opening.value)];
      }
    }

    /** endTransaction(). */
    method EndTransaction()
      modifies this
      ensures State() == End(old(State()))
    {
      if bound.Some? {
        var c := bound.value;
        if c.rollbackOnClose {
          events := events + [Closed(c)];
        }
        bound := None;
      }
    }

    /** commit(). */
    method CommitTransaction() returns (thrown: Option<JavaError>)
      modifies this
      ensures (State(), thrown) == Commit(old(State()))
    {
      if bound.None? {
        return Some(NullPointer);
      }
      events := events + [Committed(bound.value)];
      thrown := None;
    }

    /** rollback(). */
    method RollbackTransaction()
      modifies this
      ensures State() == Rollback(old(State()))
    {
      if bound.Some? {
        events := events + [RolledBack(bound.value)];
      }
    }
  }
}
