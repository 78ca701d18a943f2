/** Atomic: the outcome of a transaction run by DatabaseWrapper.atomic, the
    exception that ended it if any, and whether it was rolled back. */
module Atomics {
  import opened Wrappers
  import opened JavaValues

  class Atomic {
    var e: Option<JavaError>
    var isRollback: bool

    /** Atomic.ok(): no exception, not rolled back. */
    constructor Ok()
      ensures e.None? && !isRollback
    {
      e := None;
      isRollback := false;
    }

    /** Atomic.error(e). */
    constructor Error(thrown: JavaError)
      ensures e == Some(thrown) && !isRollback
    {
      e := Some(thrown);
      isRollback := false;
    }

    /** rollback(b): records the decision and returns this. */
    method Rollback(b: bool) returns (self: Atomic)
      modifies this
      ensures self == this
      ensures isRollback == b && e == old(e)
    {
      isRollback := b;
      self := this;
    }

    function IsRollback(): bool
      reads this
    {
      isRollback
    }

    /** catchException(consumer): the consumer receives the stored
        exception once when there is one, and never otherwise. The
        exceptions handed to it are returned in order. */
    method CatchException() returns (self: Atomic, consumed: seq<JavaError>)
      ensures self == this
      ensures |consumed| == (if e.Some? then 1 else 0)
      ensures e.Some? ==> consumed == [e.value]
    {
      consumed := [];
      if e.Some? {
        consumed := consumed + [e.value];
      }
      self := this;
    }

    /** catchAndReturn(function): function(e) when there is an exception,
        else null. */
    function CatchAndReturn<R>(f: JavaError -> R): (r: Option<R>)
      reads this
      ensures r.Some? <==> e.Some?
      ensures e.Some? ==> r == Some(f(e.value))
    {
      if e.Some? then Some(f(e.value)) else None
    }
  }
}
