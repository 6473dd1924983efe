/**
 * The logger of the importer and its error latch. The console output is the list of records
 * logged so far; the latch is a handler that prints nothing and only remembers whether an
 * ERROR record went through it. The importer reads the latch to decide between commit and
 * rollback.
 */
module Logs {

  const DEBUG: int := 10
  const INFO: int := 20
  const WARNING: int := 30
  const ERROR: int := 40
  const CRITICAL: int := 50

  datatype LogRecord<M> = LogRecord(levelno: int, msg: M)

  /** True when some record in the list is at level ERROR exactly. */
  predicate HasError<M>(records: seq<LogRecord<M>>)
  {
    exists i :: 0 <= i < |records| && records[i].levelno == ERROR
  }

  lemma HasErrorAppend<M>(a: seq<LogRecord<M>>, b: seq<LogRecord<M>>)
    ensures HasError(a + b) <==> HasError(a) || HasError(b)
  {
    if HasError(b) {
      var i :| 0 <= i < |b| && b[i].levelno == ERROR;
      assert (a + b)[|a| + i] == b[i];
    }
    if HasError(a) {
      var i :| 0 <= i < |a| && a[i].levelno == ERROR;
      assert (a + b)[i] == a[i];
    }
    if HasError(a + b) {
      var i :| 0 <= i < |a + b| && (a + b)[i].levelno == ERROR;
      if i >= |a| { assert b[i - |a|] == (a + b)[i]; }
    }
  }

  /** Every flag of the list set when `b` holds; a flag already set stays set. */
  function Raise(f: seq<bool>, b: bool): (r: seq<bool>)
    ensures |r| == |f| && forall i :: 0 <= i < |f| ==> r[i] == (f[i] || b)
  {
    seq(|f|, i requires 0 <= i < |f| => f[i] || b)
  }

  predicate Any(f: seq<bool>)
  {
    exists i :: 0 <= i < |f| && f[i]
  }

  /** Some flag is set after raising exactly when one was set before or `b` raised a non-empty list. */
  lemma AnyRaise(f: seq<bool>, b: bool)
    ensures Any(Raise(f, b)) == (Any(f) || (b && |f| > 0))
  {
    if Any(f) {
      var i :| 0 <= i < |f| && f[i];
      assert Raise(f, b)[i];
    }
    if b && |f| > 0 {
      assert Raise(f, b)[0];
    }
  }

  /**
   * The latch never clears: logging `a` and then `b` sets the flags exactly as logging `a + b`
   * at once, so the flags after a run of records depend only on whether an ERROR was among them.
   */
  lemma ErrorLatch<M>(f: seq<bool>, a: seq<LogRecord<M>>, b: seq<LogRecord<M>>)
    ensures Raise(Raise(f, HasError(a)), HasError(b)) == Raise(f, HasError(a + b))
  {
    HasErrorAppend(a, b);
  }

  /** One more record: the flags after `log + [r]` are the flags after `log`, raised by `r` alone. */
  lemma LatchStep<M>(f: seq<bool>, log: seq<LogRecord<M>>, r: LogRecord<M>)
    ensures Raise(Raise(f, HasError(log)), r.levelno == ERROR) == Raise(f, HasError(log + [r]))
  {
    assert HasError([r]) == (r.levelno == ERROR) by {
      if r.levelno == ERROR {
        assert [r][0] == r;
      }
    }
    ErrorLatch(f, log, [r]);
  }

  /** A handler that records whether an ERROR record was emitted and prints nothing. */
  class ErrorCheckHandler {
    var errorOccurred: bool

    constructor ()
      ensures !errorOccurred
    {
      errorOccurred := false;
    }

    /** Latch on a record at level ERROR; every other level, CRITICAL included, leaves the flag. */
    method Emit<M>(record: LogRecord<M>)
      modifies this
      ensures errorOccurred == (old(errorOccurred) || record.levelno == ERROR)
    {
      if record.levelno == ERROR {
        errorOccurred := true;
      }
    }
  }

  /**
   * The named logger: what it has printed, and the handlers attached to it. Only the
   * ErrorCheckHandlers matter to the importer, so they are the only handlers represented.
   */
  class Logger<M> {
    var records: seq<LogRecord<M>>
    const handlers: seq<ErrorCheckHandler>

    /** The module-level logger: one ErrorCheckHandler attached, nothing printed yet. */
    constructor ()
      ensures records == [] && |handlers| == 1 && fresh(handlers[0])
      ensures !ErrorOccurred()
    {
      var h := new ErrorCheckHandler();
      records := [];
      handlers := [h];
    }

    /** The flag of every attached handler, in attachment order. */
    function Flags(): (f: seq<bool>)
      reads this, handlers
      ensures |f| == |handlers| && forall i :: 0 <= i < |handlers| ==> f[i] == handlers[i].errorOccurred
    {
      FlagsOf(handlers)
    }

    /** `logger.error_occurred`: any attached handler has latched; False when none is attached. */
    predicate ErrorOccurred()
      reads this, handlers
    {
      Any(Flags())
    }

    /** Print a record and pass it to every handler. */
    method Log(level: int, msg: M)
      modifies this, handlers
      ensures records == old(records) + [LogRecord(level, msg)]
      ensures Flags() == Raise(old(Flags()), level == ERROR)
      ensures ErrorOccurred() == (old(ErrorOccurred()) || (level == ERROR && |handlers| > 0))
    {
      records := records + [LogRecord(level, msg)];
      var record := LogRecord(level, msg);
      var k := 0;
      while k < |handlers|
        invariant 0 <= k <= |handlers|
        invariant records == old(records) + [record]
        invariant forall i :: 0 <= i < |handlers| ==>
          handlers[i].errorOccurred == (old(handlers[i].errorOccurred) || (level == ERROR && handlers[i] in handlers[..k]))
      {
        handlers[k].Emit(record);
        assert handlers[..k + 1] == handlers[..k] + [handlers[k]];
        k := k + 1;
      }
      assert handlers[..k] == handlers;
      AnyRaise(old(Flags()), level == ERROR);
    }
  }

  function FlagsOf(hs: seq<ErrorCheckHandler>): (f: seq<bool>)
    reads hs
    ensures |f| == |hs| && forall i :: 0 <= i < |hs| ==> f[i] == hs[i].errorOccurred
  {
    if |hs| == 0 then [] else FlagsOf(hs[..|hs| - 1]) + [hs[|hs| - 1].errorOccurred]
  }

  /** Proof helper: a log extended in two steps is the log extended by both at once. */
  lemma Regrouped<T>(a: seq<T>, b: seq<T>, c: seq<T>)
    ensures a + b + c == a + (b + c)
  {
  }
}
