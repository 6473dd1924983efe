/**
 * What the three import commands share: the messages they log, the outcome of one row, the
 * logging of a validation error's entries, and the end of a batch, where the error latch
 * decides between rollback and commit.
 */
module Batch {
  import opened Outcomes
  import opened Logs
  import opened UploadModels
  import opened Models
  import opened Store

  /** Where a row came from: a sheet of the workbook, or one of the two CSV files. */
  datatype Sheet = Runs | Specimens | Samples | Storage | Summary | Mutation

  /** The entity a message is about, named by its natural key. */
  datatype Subject =
    | RunCode(code: Value)
    | OwnerNamed(owner: OwnerKey)
    | SpecimenNamed(specimen: SpecimenKey)
    | SampleGuid(guid: Value)
    | StorageCode(qrCode: Value)
    | AnalysisNamed(analysis: AnalysisKey)
    | SpeciationOf(analysis: AnalysisKey)
    | DrugOf(analysis: AnalysisKey, antibiotic: string)
    | MutationNamed(mutation: MutationKey)

  /** The messages the importers log; `line` is the spreadsheet line, the row index plus 2. */
  datatype Event =
    | Verifying(source: string)
    | Upserted(sheet: Sheet, line: int, subject: Subject, existed: bool, dryrun: bool)
    | FieldFailed(sheet: Sheet, line: int, loc: string, cause: Cause)
    | RowFailed(sheet: Sheet, line: int, cause: Cause)
    | SpikeNameMissing(line: int, suffix: nat)
    | SpeciationNotFound(line: int, analysis: AnalysisKey)
    | ResistanceEmpty(line: int, analysis: AnalysisKey)
    | ResistanceAdded(line: int, analysis: AnalysisKey)
    | Failed(cause: Cause)
    | UploadFailed
    | DryRun
    | Uploaded

  type Log = seq<LogRecord<Event>>

  function InfoRecord(e: Event): LogRecord<Event>
  {
    LogRecord(INFO, e)
  }

  function ErrorRecord(e: Event): LogRecord<Event>
  {
    LogRecord(ERROR, e)
  }

  /**
   * What one row, or a run of rows, did: the tables as the session then sees them, what was
   * logged, and the exception that escaped the row handlers, if one did.
   */
  datatype Step = Step(db: Db, log: Log, escaped: Option<Cause>)

  /** A logger that started from `r0` with flags `f0` has since logged exactly `log`. */
  predicate Trace(records: Log, flags: seq<bool>, r0: Log, f0: seq<bool>, log: Log)
  {
    records == r0 + log && flags == Raise(f0, HasError(log))
  }

  /** Log one record, extending the trace by it. */
  method Emit(logger: Logger<Event>, r: LogRecord<Event>, ghost r0: Log, ghost f0: seq<bool>, ghost log: Log)
    modifies logger, logger.handlers
    requires Trace(logger.records, logger.Flags(), r0, f0, log)
    ensures Trace(logger.records, logger.Flags(), r0, f0, log + [r])
  {
    logger.Log(r.levelno, r.msg);
    LatchStep(f0, log, r);
  }

  // ---------------------------------------------------------------------------------------
  // Validation errors
  // ---------------------------------------------------------------------------------------

  /** One ERROR record per entry of a validation error, in order. */
  function FieldErrorLog(sheet: Sheet, line: int, errors: seq<FieldError>): (r: Log)
    ensures |r| == |errors|
  {
    if |errors| == 0 then []
    else
      var e := errors[|errors| - 1];
      FieldErrorLog(sheet, line, errors[..|errors| - 1]) + [ErrorRecord(FieldFailed(sheet, line, e.loc, e.cause))]
  }

  /** A validation error with at least one entry logs at least one error, and every record is one. */
  lemma {:induction false} FieldErrorLogErrors(sheet: Sheet, line: int, errors: seq<FieldError>)
    ensures HasError(FieldErrorLog(sheet, line, errors)) <==> |errors| > 0
    ensures forall i :: 0 <= i < |errors| ==> FieldErrorLog(sheet, line, errors)[i].levelno == ERROR
  {
    if |errors| > 0 {
      var init := errors[..|errors| - 1];
      FieldErrorLogErrors(sheet, line, init);
      var r := FieldErrorLog(sheet, line, errors);
      assert r[|errors| - 1].levelno == ERROR;
      forall i | 0 <= i < |errors| ensures r[i].levelno == ERROR {
        if i < |errors| - 1 {
          assert r[i] == FieldErrorLog(sheet, line, init)[i];
        }
      }
    }
  }

  /** `for error in err.errors(): logger.error(...)`. */
  method LogFieldErrors(logger: Logger<Event>, sheet: Sheet, line: int, errors: seq<FieldError>,
                        ghost r0: Log, ghost f0: seq<bool>, ghost log: Log)
    modifies logger, logger.handlers
    requires Trace(logger.records, logger.Flags(), r0, f0, log)
    ensures Trace(logger.records, logger.Flags(), r0, f0, log + FieldErrorLog(sheet, line, errors))
  {
    var i := 0;
    assert errors[..0] == [] && log + [] == log;
    while i < |errors|
      invariant 0 <= i <= |errors|
      invariant Trace(logger.records, logger.Flags(), r0, f0, log + FieldErrorLog(sheet, line, errors[..i]))
    {
      var e := errors[i];
      ghost var done := log + FieldErrorLog(sheet, line, errors[..i]);
      Emit(logger, ErrorRecord(FieldFailed(sheet, line, e.loc, e.cause)), r0, f0, done);
      assert errors[..i + 1][..i] == errors[..i];
      assert done + [ErrorRecord(FieldFailed(sheet, line, e.loc, e.cause))] ==
        log + FieldErrorLog(sheet, line, errors[..i + 1]);
      i := i + 1;
    }
    assert errors[..i] == errors;
  }

  // ---------------------------------------------------------------------------------------
  // The end of a batch
  // ---------------------------------------------------------------------------------------

  /** The result of an import command, the stored tables after it, and what its end logged. */
  datatype Finished = Finished(ok: bool, db: Db, log: Log)

  /**
   * What the latch, read once the rows are done, decides: a latched error rolls back and
   * returns False, a dry run rolls back and returns True, and otherwise the session commits
   * and returns True.
   */
  function Settled(stored: Db, pending: Db, latched: bool, dryrun: bool): Finished
  {
    if latched then Finished(false, stored, [ErrorRecord(UploadFailed)])
    else if dryrun then Finished(true, stored, [InfoRecord(DryRun)])
    else Finished(true, pending, [InfoRecord(Uploaded)])
  }

  /**
   * The end of an import: an escaped exception is logged as "Failed to upload data", and then
   * the latch decides as `Settled` says. `flags` are the latch flags once the rows are done.
   */
  function Finish(stored: Db, pending: Db, escaped: Option<Cause>, flags: seq<bool>, dryrun: bool): Finished
  {
    var failed := if escaped.Some? then [ErrorRecord(Failed(escaped.value))] else [];
    var s := Settled(stored, pending, Any(Raise(flags, HasError(failed))), dryrun);
    Finished(s.ok, s.db, failed + s.log)
  }

  /**
   * The outcome rule. The batch fails when a handler had already latched before it (the
   * latch is never reset) or, with a handler attached, when the rows logged an error or an
   * exception escaped them; a failed batch leaves the stored tables as they were and returns
   * False, dry run or not. Otherwise a dry run also leaves them as they were and returns True,
   * and a real run stores what the session holds and returns True.
   */
  lemma {:induction false} FinishOutcome(stored: Db, pending: Db, escaped: Option<Cause>, f0: seq<bool>, log: Log, dryrun: bool)
    ensures var fin := Finish(stored, pending, escaped, Raise(f0, HasError(log)), dryrun);
      var failed := Any(f0) || (|f0| > 0 && (HasError(log) || escaped.Some?));
      fin.ok == !failed &&
      (failed ==> fin.db == stored && HasError(fin.log)) &&
      (!failed && dryrun ==> fin.db == stored) &&
      (!failed && !dryrun ==> fin.db == pending)
  {
    var failed := if escaped.Some? then [ErrorRecord(Failed(escaped.value))] else [];
    assert HasError(failed) == escaped.Some? by {
      if escaped.Some? {
        assert failed[0].levelno == ERROR;
      }
    }
    ErrorLatch(f0, log, failed);
    HasErrorAppend(log, failed);
    AnyRaise(f0, HasError(log + failed));
    var upload := [ErrorRecord(UploadFailed)];
    assert (failed + upload)[|failed|] == ErrorRecord(UploadFailed);
  }

  /** `logger.error("Failed to upload data")` for an exception that left the rows, and nothing otherwise. */
  method LogEscaped(logger: Logger<Event>, escaped: Option<Cause>, ghost r0: Log, ghost f0: seq<bool>, ghost log: Log)
    modifies logger, logger.handlers
    requires Trace(logger.records, logger.Flags(), r0, f0, log)
    ensures var failed: Log := if escaped.Some? then [ErrorRecord(Failed(escaped.value))] else [];
      Trace(logger.records, logger.Flags(), r0, f0, log + failed) &&
      logger.Flags() == Raise(old(logger.Flags()), HasError(failed))
  {
    ghost var failed: Log := if escaped.Some? then [ErrorRecord(Failed(escaped.value))] else [];
    if escaped.Some? {
      Emit(logger, ErrorRecord(Failed(escaped.value)), r0, f0, log);
    } else {
      assert log + failed == log;
    }
    ErrorLatch(f0, log, failed);
  }

  /** Lines 42 to 53 of the excel importer: read the latch, then roll back or commit. */
  method Settle(session: Session, logger: Logger<Event>, dryrun: bool,
                ghost r0: Log, ghost f0: seq<bool>, ghost log: Log) returns (ok: bool)
    modifies session, session.database, logger, logger.handlers
    requires Trace(logger.records, logger.Flags(), r0, f0, log)
    ensures var s := Settled(old(session.database.db), old(session.db), old(logger.ErrorOccurred()), dryrun);
      ok == s.ok && session.database.db == s.db && session.db == session.database.db &&
      Trace(logger.records, logger.Flags(), r0, f0, log + s.log)
  {
    if logger.ErrorOccurred() {
      session.Rollback();
      Emit(logger, ErrorRecord(UploadFailed), r0, f0, log);
      ok := false;
    } else if dryrun {
      Emit(logger, InfoRecord(DryRun), r0, f0, log);
      session.Rollback();
      ok := true;
    } else {
      Emit(logger, InfoRecord(Uploaded), r0, f0, log);
      session.Commit();
      ok := true;
    }
  }

  /**
   * The end of an import, lines 40 to 55 of the excel importer: log an escaped exception,
   * read the latch, roll back or commit, and then the commit the session context manager
   * always performs on exit, which after a rollback writes nothing.
   */
  method Conclude(session: Session, logger: Logger<Event>, escaped: Option<Cause>, dryrun: bool,
                  ghost r0: Log, ghost f0: seq<bool>, ghost log: Log) returns (ok: bool)
    modifies session, session.database, logger, logger.handlers
    requires Trace(logger.records, logger.Flags(), r0, f0, log)
    ensures var fin := Finish(old(session.database.db), old(session.db), escaped, old(logger.Flags()), dryrun);
      ok == fin.ok && session.database.db == fin.db &&
      Trace(logger.records, logger.Flags(), r0, f0, log + fin.log)
  {
    ghost var flags := logger.Flags();
    ghost var failed: Log := if escaped.Some? then [ErrorRecord(Failed(escaped.value))] else [];
    ghost var s := Settled(session.database.db, session.db, Any(Raise(flags, HasError(failed))), dryrun);
    LogEscaped(logger, escaped, r0, f0, log);
    ok := Settle(session, logger, dryrun, r0, f0, log + failed);
    Regrouped(log, failed, s.log);
    session.Commit();
  }
}
