/**
 * The workbook importer: the Runs, Specimens, Samples and Storage sheets, read in that order,
 * each row validated and upserted by its natural key into the session, and the batch then
 * committed or rolled back by the error latch. Each row is specified by a function of the
 * tables it starts from; the methods that perform the import are proved to end in the state
 * and the log those functions give.
 */
module Importer {
  import opened Outcomes
  import opened Tables
  import opened Constants
  import opened Logs
  import opened UploadModels
  import opened Schemas
  import opened Models
  import opened Store
  import opened Batch
  import opened Spikes

  /** The sheets of the workbook by name; a sheet the file lacks is absent. */
  type Workbook = map<string, seq<Row>>

  predicate IsWorkbookSheet(sheet: Sheet)
  {
    sheet.Runs? || sheet.Specimens? || sheet.Samples? || sheet.Storage?
  }

  function SheetName(sheet: Sheet): string
    requires IsWorkbookSheet(sheet)
  {
    match sheet
    case Runs => "Runs"
    case Specimens => "Specimens"
    case Samples => "Samples"
    case Storage => "Storage"
  }

  /** The specimen a record names by its natural key. */
  function SpecimenKeyOf(rec: Record): SpecimenKey
  {
    SpecimenKey(Item(rec, "accession"), Item(rec, "collection_date"))
  }

  /** The owner a validated specimen record names. */
  function OwnerOf(rec: Record): OwnerKey
  {
    OwnerKey(Item(rec, "owner_site"), Item(rec, "owner_user"))
  }

  /** The columns a lookup found, or those of a newly constructed entity (all None). */
  function Existing(found: Option<Cols>): Cols
  {
    if found.Some? then found.value else map[]
  }

  function SchemaOf(sheet: Sheet): Schema
    requires IsWorkbookSheet(sheet)
  {
    match sheet
    case Runs => RunImport()
    case Specimens => SpecimensImport()
    case Samples => SamplesImport()
    case Storage => StoragesImport()
  }

  // ---------------------------------------------------------------------------------------
  // Runs
  // ---------------------------------------------------------------------------------------

  /** A valid run is copied into the run with the same code, or into a new one, and the upsert is logged. */
  function RunUpsert(db: Db, line: int, rec: Record, dryrun: bool): Step
  {
    var code := Item(rec, "code");
    var found := Get(db.runs, code);
    match Copied(RunKind, Existing(found), rec.names, rec)
    case Err(c) => Step(db, [], Some(c))
    case Ok(cols) =>
      Step(db.(runs := Put(db.runs, code, cols)),
           [InfoRecord(Upserted(Runs, line, RunCode(code), found.Some?, dryrun))], None)
  }

  method UpsertRun(session: Session, logger: Logger<Event>, line: int, rec: Record, dryrun: bool,
                   ghost r0: Log, ghost f0: seq<bool>, ghost log: Log) returns (escaped: Option<Cause>)
    modifies session, logger, logger.handlers
    requires Trace(logger.records, logger.Flags(), r0, f0, log)
    ensures var s := RunUpsert(old(session.db), line, rec, dryrun);
      session.db == s.db && escaped == s.escaped && Trace(logger.records, logger.Flags(), r0, f0, log + s.log)
  {
    var code := Item(rec, "code");
    var found := First(session.db.runs, code);
    var run := new Entity(RunKind, Existing(found));
    escaped := run.UpdateFromImportModel(rec);
    if escaped.Some? {
      assert log + [] == log;
      return;
    }
    session.db := session.db.(runs := Put(session.db.runs, code, run.cols));
    Emit(logger, InfoRecord(Upserted(Runs, line, RunCode(code), found.Some?, dryrun)), r0, f0, log);
  }

  // ---------------------------------------------------------------------------------------
  // Specimens and owners
  // ---------------------------------------------------------------------------------------

  datatype Owned = Owned(owners: Table<OwnerKey, ()>, log: Log)

  /** `owner()`: the owner with this site and user is reused, or created and the creation logged. */
  function OwnerStep(owners: Table<OwnerKey, ()>, key: OwnerKey, line: int, dryrun: bool): Owned
  {
    if Get(owners, key).Some? then Owned(owners, [])
    else Owned(Put(owners, key, ()), [InfoRecord(Upserted(Specimens, line, OwnerNamed(key), false, dryrun))])
  }

  method Owner(session: Session, logger: Logger<Event>, key: OwnerKey, line: int, dryrun: bool,
               ghost r0: Log, ghost f0: seq<bool>, ghost log: Log)
    modifies session, logger, logger.handlers
    requires Trace(logger.records, logger.Flags(), r0, f0, log)
    ensures var o := OwnerStep(old(session.db.owners), key, line, dryrun);
      session.db == old(session.db).(owners := o.owners) && Trace(logger.records, logger.Flags(), r0, f0, log + o.log)
  {
    var found := First(session.db.owners, key);
    if found.None? {
      session.db := session.db.(owners := Put(session.db.owners, key, ()));
      Emit(logger, InfoRecord(Upserted(Specimens, line, OwnerNamed(key), false, dryrun)), r0, f0, log);
    } else {
      assert log + [] == log;
    }
  }

  /**
   * A valid specimen gets its owner (found or created), is copied into the specimen with the
   * same accession and collection date or into a new one, and its catalog details are
   * synchronised.
   */
  function SpecimenUpsert(db: Db, line: int, rec: Record, dryrun: bool): Step
  {
    var o := OwnerStep(db.owners, OwnerOf(rec), line, dryrun);
    var s := SpecimenSave(db.(owners := o.owners), line, rec, dryrun);
    Step(s.db, o.log + s.log, s.escaped)
  }

  /** The specimen half of the upsert, once its owner is in the session. */
  function SpecimenSave(db: Db, line: int, rec: Record, dryrun: bool): Step
  {
    var key := SpecimenKeyOf(rec);
    var found := Get(db.specimens, key);
    var before := if found.Some? then found.value.cols else map[];
    match Copied(SpecimenKind, before, rec.names, rec)
    case Err(c) => Step(db, [], Some(c))
    case Ok(cols) =>
      Step(db.(specimens := Put(db.specimens, key, SpecimenRow(OwnerOf(rec), cols)),
               specimenDetails := SyncDetails(db.specimenDetails, key, db.specimenDetailTypes, rec)),
           [InfoRecord(Upserted(Specimens, line, SpecimenNamed(key), found.Some?, dryrun))], None)
  }

  method UpsertSpecimen(session: Session, logger: Logger<Event>, line: int, rec: Record, dryrun: bool,
                        ghost r0: Log, ghost f0: seq<bool>, ghost log: Log) returns (escaped: Option<Cause>)
    modifies session, logger, logger.handlers
    requires Trace(logger.records, logger.Flags(), r0, f0, log)
    ensures var s := SpecimenUpsert(old(session.db), line, rec, dryrun);
      session.db == s.db && escaped == s.escaped && Trace(logger.records, logger.Flags(), r0, f0, log + s.log)
  {
    ghost var o := OwnerStep(session.db.owners, OwnerOf(rec), line, dryrun);
    Owner(session, logger, OwnerOf(rec), line, dryrun, r0, f0, log);
    ghost var s := SpecimenSave(session.db, line, rec, dryrun);
    escaped := SaveSpecimen(session, logger, line, rec, dryrun, r0, f0, log + o.log);
    Regrouped(log, o.log, s.log);
  }

  method SaveSpecimen(session: Session, logger: Logger<Event>, line: int, rec: Record, dryrun: bool,
                      ghost r0: Log, ghost f0: seq<bool>, ghost log: Log) returns (escaped: Option<Cause>)
    modifies session, logger, logger.handlers
    requires Trace(logger.records, logger.Flags(), r0, f0, log)
    ensures var s := SpecimenSave(old(session.db), line, rec, dryrun);
      session.db == s.db && escaped == s.escaped && Trace(logger.records, logger.Flags(), r0, f0, log + s.log)
  {
    var key := SpecimenKeyOf(rec);
    var found := First(session.db.specimens, key);
    var specimen := new Entity(SpecimenKind, if found.Some? then found.value.cols else map[]);
    escaped := specimen.UpdateFromImportModel(rec);
    if escaped.Some? {
      assert log + [] == log;
      return;
    }
    session.db := session.db.(specimens := Put(session.db.specimens, key, SpecimenRow(OwnerOf(rec), specimen.cols)));
    Emit(logger, InfoRecord(Upserted(Specimens, line, SpecimenNamed(key), found.Some?, dryrun)), r0, f0, log);
    var details := SyncDetailTable(session.db.specimenDetails, key, session.db.specimenDetailTypes, rec);
    session.db := session.db.(specimenDetails := details);
  }

  // ---------------------------------------------------------------------------------------
  // Samples
  // ---------------------------------------------------------------------------------------

  /** `find_run`: the run with this code, or the ValueError. */
  method FindRun(session: Session, code: Value) returns (r: Result<Cols, Cause>)
    ensures Get(session.db.runs, code).Some? ==> r == Ok(Get(session.db.runs, code).value)
    ensures Get(session.db.runs, code).None? ==> r == Err(RunMissing(code))
  {
    var found := First(session.db.runs, code);
    if found.Some? {
      return Ok(found.value);
    }
    return Err(RunMissing(code));
  }

  /** `find_specimen`: the specimen with this accession and collection date, or the ValueError. */
  method FindSpecimen(session: Session, key: SpecimenKey) returns (r: Result<SpecimenRow, Cause>)
    ensures Get(session.db.specimens, key).Some? ==> r == Ok(Get(session.db.specimens, key).value)
    ensures Get(session.db.specimens, key).None? ==> r == Err(SpecimenMissing(key.accession, key.collectionDate))
  {
    var found := First(session.db.specimens, key);
    if found.Some? {
      return Ok(found.value);
    }
    return Err(SpecimenMissing(key.accession, key.collectionDate));
  }

  /**
   * The run and then the specimen must exist (a missing one is a row error and nothing is
   * written); the sample is then saved.
   */
  function SampleUpsert(db: Db, line: int, rec: Record, dryrun: bool): Step
  {
    var run := Item(rec, "run_code");
    var specimen := SpecimenKeyOf(rec);
    if Get(db.runs, run).None? then
      Step(db, [ErrorRecord(RowFailed(Samples, line, RunMissing(run)))], None)
    else if Get(db.specimens, specimen).None? then
      Step(db, [ErrorRecord(RowFailed(Samples, line, SpecimenMissing(specimen.accession, specimen.collectionDate)))], None)
    else SampleSave(db, line, rec, dryrun)
  }

  /**
   * The sample is copied into the one with the same guid or into a new one, linked to its run
   * and specimen, and its catalog details and spikes are synchronised.
   */
  function SampleSave(db: Db, line: int, rec: Record, dryrun: bool): Step
  {
    var guid := Item(rec, "guid");
    var found := Get(db.samples, guid);
    var before := if found.Some? then found.value.cols else map[];
    match Copied(SampleKind, before, rec.names, rec)
    case Err(c) => Step(db, [], Some(c))
    case Ok(cols) =>
      var spiked := SpikesStep(db.spikes, guid, rec, line);
      Step(db.(samples := Put(db.samples, guid, SampleRow(Item(rec, "run_code"), SpecimenKeyOf(rec), cols)),
               sampleDetails := SyncDetails(db.sampleDetails, guid, db.sampleDetailTypes, rec),
               spikes := spiked.spikes),
           [InfoRecord(Upserted(Samples, line, SampleGuid(guid), found.Some?, dryrun))] + spiked.log, None)
  }

  method UpsertSample(session: Session, logger: Logger<Event>, line: int, rec: Record, dryrun: bool,
                      ghost r0: Log, ghost f0: seq<bool>, ghost log: Log) returns (escaped: Option<Cause>)
    modifies session, logger, logger.handlers
    requires Trace(logger.records, logger.Flags(), r0, f0, log)
    ensures var s := SampleUpsert(old(session.db), line, rec, dryrun);
      session.db == s.db && escaped == s.escaped && Trace(logger.records, logger.Flags(), r0, f0, log + s.log)
  {
    var run := FindRun(session, Item(rec, "run_code"));
    if run.Err? {
      Emit(logger, ErrorRecord(RowFailed(Samples, line, run.error)), r0, f0, log);
      return None;
    }
    var specimen := FindSpecimen(session, SpecimenKeyOf(rec));
    if specimen.Err? {
      Emit(logger, ErrorRecord(RowFailed(Samples, line, specimen.error)), r0, f0, log);
      return None;
    }
    escaped := SaveSample(session, logger, line, rec, dryrun, r0, f0, log);
  }

  method SaveSample(session: Session, logger: Logger<Event>, line: int, rec: Record, dryrun: bool,
                    ghost r0: Log, ghost f0: seq<bool>, ghost log: Log) returns (escaped: Option<Cause>)
    modifies session, logger, logger.handlers
    requires Trace(logger.records, logger.Flags(), r0, f0, log)
    ensures var s := SampleSave(old(session.db), line, rec, dryrun);
      session.db == s.db && escaped == s.escaped && Trace(logger.records, logger.Flags(), r0, f0, log + s.log)
  {
    var guid := Item(rec, "guid");
    var found := First(session.db.samples, guid);
    var sample := new Entity(SampleKind, if found.Some? then found.value.cols else map[]);
    escaped := sample.UpdateFromImportModel(rec);
    if escaped.Some? {
      assert log + [] == log;
      return;
    }
    session.db := session.db.(samples := Put(session.db.samples, guid, SampleRow(Item(rec, "run_code"), SpecimenKeyOf(rec), sample.cols)));
    var added := InfoRecord(Upserted(Samples, line, SampleGuid(guid), found.Some?, dryrun));
    Emit(logger, added, r0, f0, log);
    ghost var spiked := SpikesStep(session.db.spikes, guid, rec, line);
    SampleChildren(session, logger, guid, rec, line, r0, f0, log + [added]);
    Regrouped(log, [added], spiked.log);
  }

  /** `sample_detail` and then `spikes` for a saved sample. */
  method SampleChildren(session: Session, logger: Logger<Event>, guid: Value, rec: Record, line: int,
                        ghost r0: Log, ghost f0: seq<bool>, ghost log: Log)
    modifies session, logger, logger.handlers
    requires Trace(logger.records, logger.Flags(), r0, f0, log)
    ensures var s := SpikesStep(old(session.db.spikes), guid, rec, line);
      session.db == old(session.db).(sampleDetails := SyncDetails(old(session.db.sampleDetails), guid, old(session.db.sampleDetailTypes), rec),
                                     spikes := s.spikes) &&
      Trace(logger.records, logger.Flags(), r0, f0, log + s.log)
  {
    var details := SyncDetailTable(session.db.sampleDetails, guid, session.db.sampleDetailTypes, rec);
    session.db := session.db.(sampleDetails := details);
    SyncSpikes(session, logger, guid, rec, line, r0, f0, log);
  }

  // ---------------------------------------------------------------------------------------
  // Storage
  // ---------------------------------------------------------------------------------------

  /**
   * The specimen must exist (a missing one is a row error and nothing is written); the
   * storage is copied into the one with the same QR code or into a new one.
   */
  function StorageUpsert(db: Db, line: int, rec: Record, dryrun: bool): Step
  {
    var specimen := SpecimenKeyOf(rec);
    if Get(db.specimens, specimen).None? then
      Step(db, [ErrorRecord(RowFailed(Storage, line, SpecimenMissing(specimen.accession, specimen.collectionDate)))], None)
    else
      var qrCode := Item(rec, "storage_qr_code");
      var found := Get(db.storages, qrCode);
      var before := if found.Some? then found.value.cols else map[];
      match Copied(StorageKind, before, rec.names, rec)
      case Err(c) => Step(db, [], Some(c))
      case Ok(cols) =>
        Step(db.(storages := Put(db.storages, qrCode, StorageRow(specimen, cols))),
             [InfoRecord(Upserted(Storage, line, StorageCode(qrCode), found.Some?, dryrun))], None)
  }

  method UpsertStorage(session: Session, logger: Logger<Event>, line: int, rec: Record, dryrun: bool,
                       ghost r0: Log, ghost f0: seq<bool>, ghost log: Log) returns (escaped: Option<Cause>)
    modifies session, logger, logger.handlers
    requires Trace(logger.records, logger.Flags(), r0, f0, log)
    ensures var s := StorageUpsert(old(session.db), line, rec, dryrun);
      session.db == s.db && escaped == s.escaped && Trace(logger.records, logger.Flags(), r0, f0, log + s.log)
  {
    var specimen := SpecimenKeyOf(rec);
    var parent := FindSpecimen(session, specimen);
    if parent.Err? {
      Emit(logger, ErrorRecord(RowFailed(Storage, line, parent.error)), r0, f0, log);
      return None;
    }
    var qrCode := Item(rec, "storage_qr_code");
    var found := First(session.db.storages, qrCode);
    ghost var copied := Copied(StorageKind, if found.Some? then found.value.cols else map[], rec.names, rec);
    var storage := new Entity(StorageKind, if found.Some? then found.value.cols else map[]);
    escaped := storage.UpdateFromImportModel(rec);
    if escaped.Some? {
      assert copied.Err? && log + [] == log;
      return;
    }
    assert copied == Ok(storage.cols);
    session.db := session.db.(storages := Put(session.db.storages, qrCode, StorageRow(specimen, storage.cols)));
    Emit(logger, InfoRecord(Upserted(Storage, line, StorageCode(qrCode), found.Some?, dryrun)), r0, f0, log);
  }

  // ---------------------------------------------------------------------------------------
  // One row, one sheet, the workbook
  // ---------------------------------------------------------------------------------------

  /** The upsert of a validated record on its sheet. */
  function Upsert(sheet: Sheet, db: Db, line: int, rec: Record, dryrun: bool): Step
    requires IsWorkbookSheet(sheet)
  {
    match sheet
    case Runs => RunUpsert(db, line, rec, dryrun)
    case Specimens => SpecimenUpsert(db, line, rec, dryrun)
    case Samples => SampleUpsert(db, line, rec, dryrun)
    case Storage => StorageUpsert(db, line, rec, dryrun)
  }

  /**
   * One row of a sheet (index counted from 0, so the spreadsheet line is index + 2): an
   * exception that is not a validation error escapes; a validation error logs one error per
   * failing field and writes nothing; a valid record is upserted.
   */
  function RowStep(sheet: Sheet, db: Db, index: int, row: Row, env: Env, dryrun: bool): Step
    requires IsWorkbookSheet(sheet)
  {
    match Validate(SchemaOf(sheet), row, env)
    case Raised(c) => Step(db, [], Some(c))
    case Invalid(errors) => Step(db, FieldErrorLog(sheet, index + 2, errors), None)
    case Valid(rec) => Upsert(sheet, db, index + 2, rec, dryrun)
  }

  method UpsertRecord(session: Session, logger: Logger<Event>, sheet: Sheet, line: int, rec: Record, dryrun: bool,
                      ghost r0: Log, ghost f0: seq<bool>, ghost log: Log) returns (escaped: Option<Cause>)
    modifies session, logger, logger.handlers
    requires IsWorkbookSheet(sheet)
    requires Trace(logger.records, logger.Flags(), r0, f0, log)
    ensures var s := Upsert(sheet, old(session.db), line, rec, dryrun);
      session.db == s.db && escaped == s.escaped && Trace(logger.records, logger.Flags(), r0, f0, log + s.log)
  {
    match sheet {
      case Runs => escaped := UpsertRun(session, logger, line, rec, dryrun, r0, f0, log);
      case Specimens => escaped := UpsertSpecimen(session, logger, line, rec, dryrun, r0, f0, log);
      case Samples => escaped := UpsertSample(session, logger, line, rec, dryrun, r0, f0, log);
      case Storage => escaped := UpsertStorage(session, logger, line, rec, dryrun, r0, f0, log);
    }
  }

  /** The body of a sheet's row loop: build the import model, then upsert or log its errors. */
  method ImportRow(session: Session, logger: Logger<Event>, sheet: Sheet, index: int, row: Row, env: Env, dryrun: bool,
                   ghost r0: Log, ghost f0: seq<bool>, ghost log: Log) returns (escaped: Option<Cause>)
    modifies session, logger, logger.handlers
    requires IsWorkbookSheet(sheet)
    requires Trace(logger.records, logger.Flags(), r0, f0, log)
    ensures var s := RowStep(sheet, old(session.db), index, row, env, dryrun);
      session.db == s.db && escaped == s.escaped && Trace(logger.records, logger.Flags(), r0, f0, log + s.log)
  {
    var checked := Construct(SchemaOf(sheet), row, env);
    match checked {
      case Raised(c) =>
        escaped := Some(c);
        assert log + [] == log;
      case Invalid(errors) =>
        LogFieldErrors(logger, sheet, index + 2, errors, r0, f0, log);
        escaped := None;
      case Valid(rec) =>
        escaped := UpsertRecord(session, logger, sheet, index + 2, rec, dryrun, r0, f0, log);
    }
  }

  /** The rows of a sheet in order, up to and including the first row an exception escapes. */
  function SheetStep(sheet: Sheet, db: Db, rows: seq<Row>, env: Env, dryrun: bool): Step
    requires IsWorkbookSheet(sheet)
  {
    if |rows| == 0 then Step(db, [], None)
    else
      var s := SheetStep(sheet, db, rows[..|rows| - 1], env, dryrun);
      if s.escaped.Some? then s
      else
        var r := RowStep(sheet, s.db, |rows| - 1, rows[|rows| - 1], env, dryrun);
        Step(r.db, s.log + r.log, r.escaped)
  }

  /** Once an exception has escaped, the rows after it change nothing: the loop was left. */
  lemma {:induction false} SheetStopsAtEscape(sheet: Sheet, db: Db, rows: seq<Row>, env: Env, dryrun: bool, n: nat)
    requires IsWorkbookSheet(sheet)
    requires n <= |rows| && SheetStep(sheet, db, rows[..n], env, dryrun).escaped.Some?
    ensures SheetStep(sheet, db, rows, env, dryrun) == SheetStep(sheet, db, rows[..n], env, dryrun)
    decreases |rows| - n
  {
    if n < |rows| {
      assert rows[..n + 1][..n] == rows[..n];
      SheetStopsAtEscape(sheet, db, rows, env, dryrun, n + 1);
    } else {
      assert rows[..n] == rows;
    }
  }

  /** A sheet's function: every row in order; an escaping exception leaves the loop. */
  method ImportSheet(session: Session, logger: Logger<Event>, sheet: Sheet, rows: seq<Row>, env: Env, dryrun: bool,
                     ghost r0: Log, ghost f0: seq<bool>, ghost log: Log) returns (escaped: Option<Cause>)
    modifies session, logger, logger.handlers
    requires IsWorkbookSheet(sheet)
    requires Trace(logger.records, logger.Flags(), r0, f0, log)
    ensures var s := SheetStep(sheet, old(session.db), rows, env, dryrun);
      session.db == s.db && escaped == s.escaped && Trace(logger.records, logger.Flags(), r0, f0, log + s.log)
  {
    ghost var db0 := session.db;
    var index := 0;
    assert rows[..0] == [] && log + [] == log;
    while index < |rows|
      invariant 0 <= index <= |rows|
      invariant var s := SheetStep(sheet, db0, rows[..index], env, dryrun);
        s.escaped.None? && session.db == s.db && Trace(logger.records, logger.Flags(), r0, f0, log + s.log)
    {
      escaped := ImportSheetPass(session, logger, sheet, rows, env, dryrun, index, db0, r0, f0, log);
      if escaped.Some? {
        return;
      }
      index := index + 1;
    }
    assert rows[..index] == rows;
    escaped := None;
  }

  /** One pass of a sheet's row loop: the row at `index`, after a prefix no exception escaped. */
  method ImportSheetPass(session: Session, logger: Logger<Event>, sheet: Sheet, rows: seq<Row>, env: Env, dryrun: bool,
                         index: nat, ghost db0: Db, ghost r0: Log, ghost f0: seq<bool>, ghost log: Log)
    returns (escaped: Option<Cause>)
    modifies session, logger, logger.handlers
    requires IsWorkbookSheet(sheet) && index < |rows|
    requires var s := SheetStep(sheet, db0, rows[..index], env, dryrun);
      s.escaped.None? && session.db == s.db && Trace(logger.records, logger.Flags(), r0, f0, log + s.log)
    ensures escaped.None? ==> var s := SheetStep(sheet, db0, rows[..index + 1], env, dryrun);
      s.escaped.None? && session.db == s.db && Trace(logger.records, logger.Flags(), r0, f0, log + s.log)
    ensures escaped.Some? ==> var s := SheetStep(sheet, db0, rows, env, dryrun);
      escaped == s.escaped && session.db == s.db && Trace(logger.records, logger.Flags(), r0, f0, log + s.log)
  {
    ghost var s := SheetStep(sheet, db0, rows[..index], env, dryrun);
    ghost var r := RowStep(sheet, session.db, index, rows[index], env, dryrun);
    escaped := ImportRow(session, logger, sheet, index, rows[index], env, dryrun, r0, f0, log + s.log);
    SheetStepSnoc(sheet, db0, rows, env, dryrun, index);
    Regrouped(log, s.log, r.log);
    if escaped.Some? {
      SheetStopsAtEscape(sheet, db0, rows, env, dryrun, index + 1);
    }
  }

  /** One more row, after a prefix no exception escaped, is one more row step. */
  lemma SheetStepSnoc(sheet: Sheet, db: Db, rows: seq<Row>, env: Env, dryrun: bool, i: nat)
    requires IsWorkbookSheet(sheet) && i < |rows| && SheetStep(sheet, db, rows[..i], env, dryrun).escaped.None?
    ensures var s := SheetStep(sheet, db, rows[..i], env, dryrun);
      var r := RowStep(sheet, s.db, i, rows[i], env, dryrun);
      SheetStep(sheet, db, rows[..i + 1], env, dryrun) == Step(r.db, s.log + r.log, r.escaped)
  {
    assert rows[..i + 1][..i] == rows[..i];
  }

  /** `pd.read_excel(excel_wb, sheet_name=...)`: a sheet the workbook lacks is an exception. */
  function ReadSheetStep(sheet: Sheet, wb: Workbook, db: Db, env: Env, dryrun: bool): Step
    requires IsWorkbookSheet(sheet)
  {
    if SheetName(sheet) !in wb then Step(db, [], Some(SheetMissing(SheetName(sheet))))
    else SheetStep(sheet, db, wb[SheetName(sheet)], env, dryrun)
  }

  method ReadSheet(session: Session, logger: Logger<Event>, sheet: Sheet, wb: Workbook, env: Env, dryrun: bool,
                   ghost r0: Log, ghost f0: seq<bool>, ghost log: Log) returns (escaped: Option<Cause>)
    modifies session, logger, logger.handlers
    requires IsWorkbookSheet(sheet)
    requires Trace(logger.records, logger.Flags(), r0, f0, log)
    ensures var s := ReadSheetStep(sheet, wb, old(session.db), env, dryrun);
      session.db == s.db && escaped == s.escaped && Trace(logger.records, logger.Flags(), r0, f0, log + s.log)
  {
    var name := SheetName(sheet);
    if name !in wb {
      assert log + [] == log;
      return Some(SheetMissing(name));
    }
    escaped := ImportSheet(session, logger, sheet, wb[name], env, dryrun, r0, f0, log);
  }

  /** The next sheet, unless an exception has already left the try block. */
  function Then(s: Step, sheet: Sheet, wb: Workbook, env: Env, dryrun: bool): Step
    requires IsWorkbookSheet(sheet)
  {
    if s.escaped.Some? then s
    else
      var r := ReadSheetStep(sheet, wb, s.db, env, dryrun);
      Step(r.db, s.log + r.log, r.escaped)
  }

  /** The four sheets in the order the import reads them. */
  function SheetsStep(db: Db, wb: Workbook, env: Env, dryrun: bool): Step
  {
    Then(Then(Then(ReadSheetStep(Runs, wb, db, env, dryrun), Specimens, wb, env, dryrun), Samples, wb, env, dryrun),
         Storage, wb, env, dryrun)
  }

  /** One sheet after the ones before it, as the try block runs it. */
  method NextSheet(session: Session, logger: Logger<Event>, sheet: Sheet, wb: Workbook, env: Env, dryrun: bool,
                   ghost s: Step, ghost r0: Log, ghost f0: seq<bool>, ghost log: Log) returns (escaped: Option<Cause>)
    modifies session, logger, logger.handlers
    requires IsWorkbookSheet(sheet) && s.escaped.None? && session.db == s.db
    requires Trace(logger.records, logger.Flags(), r0, f0, log + s.log)
    ensures var t := Then(s, sheet, wb, env, dryrun);
      session.db == t.db && escaped == t.escaped && Trace(logger.records, logger.Flags(), r0, f0, log + t.log)
  {
    ghost var r := ReadSheetStep(sheet, wb, s.db, env, dryrun);
    escaped := ReadSheet(session, logger, sheet, wb, env, dryrun, r0, f0, log + s.log);
    Regrouped(log, s.log, r.log);
  }

  // ---------------------------------------------------------------------------------------
  // The import
  // ---------------------------------------------------------------------------------------

  /**
   * `import_data`: the stored tables before, the latch flags before, the workbook, and the
   * answer of the schema-revision check. A mismatch answers False before any sheet is read;
   * otherwise the four sheets run and the end of the batch decides.
   */
  function ImportDataOutcome(db: Db, f0: seq<bool>, path: string, wb: Workbook, env: Env, dryrun: bool, revisionOk: bool): Finished
  {
    var start := [InfoRecord(Verifying(path))];
    if !revisionOk then Finished(false, db, start)
    else
      var s := SheetsStep(db, wb, env, dryrun);
      var fin := Finish(db, s.db, s.escaped, Raise(f0, HasError(start + s.log)), dryrun);
      Finished(fin.ok, fin.db, start + s.log + fin.log)
  }

  /** The try block: the four sheets in order, until an exception leaves it. */
  method ImportSheets(session: Session, logger: Logger<Event>, wb: Workbook, env: Env, dryrun: bool,
                      ghost r0: Log, ghost f0: seq<bool>, ghost log: Log) returns (escaped: Option<Cause>)
    modifies session, logger, logger.handlers
    requires Trace(logger.records, logger.Flags(), r0, f0, log)
    ensures var s := SheetsStep(old(session.db), wb, env, dryrun);
      session.db == s.db && escaped == s.escaped && Trace(logger.records, logger.Flags(), r0, f0, log + s.log)
  {
    ghost var s := ReadSheetStep(Runs, wb, session.db, env, dryrun);
    escaped := ReadSheet(session, logger, Runs, wb, env, dryrun, r0, f0, log);
    if escaped.None? {
      escaped := NextSheet(session, logger, Specimens, wb, env, dryrun, s, r0, f0, log);
    }
    s := Then(s, Specimens, wb, env, dryrun);
    if escaped.None? {
      escaped := NextSheet(session, logger, Samples, wb, env, dryrun, s, r0, f0, log);
    }
    s := Then(s, Samples, wb, env, dryrun);
    if escaped.None? {
      escaped := NextSheet(session, logger, Storage, wb, env, dryrun, s, r0, f0, log);
    }
  }

  method ImportData(database: Database, logger: Logger<Event>, path: string, wb: Workbook, env: Env, dryrun: bool, revisionOk: bool)
    returns (ok: bool)
    modifies database, logger, logger.handlers
    ensures var out := ImportDataOutcome(old(database.db), old(logger.Flags()), path, wb, env, dryrun, revisionOk);
      ok == out.ok && database.db == out.db &&
      Trace(logger.records, logger.Flags(), old(logger.records), old(logger.Flags()), out.log)
  {
    ghost var r0 := logger.records;
    ghost var f0 := logger.Flags();
    ghost var db0 := database.db;
    assert Raise(f0, HasError<Event>([])) == f0;
    var start := InfoRecord(Verifying(path));
    Emit(logger, start, r0, f0, []);
    var session := new Session(database);
    if !revisionOk {
      session.Commit();
      return false;
    }
    ghost var s := SheetsStep(db0, wb, env, dryrun);
    var escaped := ImportSheets(session, logger, wb, env, dryrun, r0, f0, [start]);
    ghost var fin := Finish(db0, s.db, s.escaped, Raise(f0, HasError([start] + s.log)), dryrun);
    ok := Conclude(session, logger, escaped, dryrun, r0, f0, [start] + s.log);
    Regrouped([start], s.log, fin.log);
  }

  // ---------------------------------------------------------------------------------------
  // What the import guarantees
  // ---------------------------------------------------------------------------------------

  /**
   * The outcome of `import_data`. A schema-revision mismatch answers False and writes nothing.
   * Otherwise the batch fails when the latch was already set before it, or, with a handler
   * attached, when a row logged an error or an exception escaped; a failed batch answers False
   * and stores nothing, dry run or not, and logs an error. Otherwise a dry run answers True and
   * stores nothing, and a real run answers True and stores what the four sheets produced.
   */
  lemma ImportDataOutcomeRule(db: Db, f0: seq<bool>, path: string, wb: Workbook, env: Env, dryrun: bool, revisionOk: bool)
    ensures var out := ImportDataOutcome(db, f0, path, wb, env, dryrun, revisionOk);
      var s := SheetsStep(db, wb, env, dryrun);
      var failed := Any(f0) || (|f0| > 0 && (HasError(s.log) || s.escaped.Some?));
      (!revisionOk ==> !out.ok && out.db == db) &&
      (revisionOk ==>
        out.ok == !failed &&
        (failed ==> out.db == db && HasError(out.log)) &&
        (!failed && dryrun ==> out.db == db) &&
        (!failed && !dryrun ==> out.db == s.db))
  {
    if revisionOk {
      var start := [InfoRecord(Verifying(path))];
      var s := SheetsStep(db, wb, env, dryrun);
      var fin := Finish(db, s.db, s.escaped, Raise(f0, HasError(start + s.log)), dryrun);
      assert !HasError(start);
      HasErrorAppend(start, s.log);
      FinishOutcome(db, s.db, s.escaped, f0, start + s.log, dryrun);
      HasErrorAppend(start + s.log, fin.log);
    }
  }

  /** A workbook without a Runs sheet reads no sheet at all, writes nothing and fails. */
  lemma NoRunsSheet(db: Db, f0: seq<bool>, path: string, wb: Workbook, env: Env, dryrun: bool)
    requires "Runs" !in wb && |f0| > 0
    ensures SheetsStep(db, wb, env, dryrun) == Step(db, [], Some(SheetMissing("Runs")))
    ensures var out := ImportDataOutcome(db, f0, path, wb, env, dryrun, true);
      !out.ok && out.db == db
  {
    ImportDataOutcomeRule(db, f0, path, wb, env, dryrun, true);
  }

  // ---------------------------------------------------------------------------------------
  // The natural keys stay unique
  // ---------------------------------------------------------------------------------------

  lemma SpikesStepUnique(t: SpikeTable, guid: Value, rec: Record, line: int)
    requires Unique(t)
    ensures Unique(SpikesStep(t, guid, rec, line).spikes)
  {
    var order := Ascending(SuffixesOf(Dump(rec).Keys));
    SpikeUpsertsFrame(t, guid, rec, line, order);
    KeepKeepsUnique(SpikeUpserts(t, guid, rec, line, order).spikes, Kept(guid, CleanNames(rec)));
  }

  /** Every upsert keeps one row per natural key in every table and leaves the catalogs alone. */
  lemma UpsertKeepsValid(sheet: Sheet, db: Db, line: int, rec: Record, dryrun: bool)
    requires IsWorkbookSheet(sheet) && ValidDb(db)
    ensures ValidDb(Upsert(sheet, db, line, rec, dryrun).db)
  {
    match sheet
    case Runs =>
      var code := Item(rec, "code");
      if Copied(RunKind, Existing(Get(db.runs, code)), rec.names, rec).Ok? {
        PutKeepsUnique(db.runs, code, Copied(RunKind, Existing(Get(db.runs, code)), rec.names, rec).value);
      }
    case Specimens =>
      var o := OwnerStep(db.owners, OwnerOf(rec), line, dryrun);
      if Get(db.owners, OwnerOf(rec)).None? {
        PutKeepsUnique(db.owners, OwnerOf(rec), ());
      }
      var d := db.(owners := o.owners);
      var key := SpecimenKeyOf(rec);
      var found := Get(d.specimens, key);
      var c := Copied(SpecimenKind, if found.Some? then found.value.cols else map[], rec.names, rec);
      if c.Ok? {
        PutKeepsUnique(d.specimens, key, SpecimenRow(OwnerOf(rec), c.value));
        SyncDetailsUnique(d.specimenDetails, key, d.specimenDetailTypes, rec);
      }
    case Samples =>
      var guid := Item(rec, "guid");
      var found := Get(db.samples, guid);
      var c := Copied(SampleKind, if found.Some? then found.value.cols else map[], rec.names, rec);
      if c.Ok? {
        PutKeepsUnique(db.samples, guid, SampleRow(Item(rec, "run_code"), SpecimenKeyOf(rec), c.value));
        SyncDetailsUnique(db.sampleDetails, guid, db.sampleDetailTypes, rec);
        SpikesStepUnique(db.spikes, guid, rec, line);
      }
    case Storage =>
      var qrCode := Item(rec, "storage_qr_code");
      var found := Get(db.storages, qrCode);
      var c := Copied(StorageKind, if found.Some? then found.value.cols else map[], rec.names, rec);
      if c.Ok? {
        PutKeepsUnique(db.storages, qrCode, StorageRow(SpecimenKeyOf(rec), c.value));
      }
  }

  lemma RowKeepsValid(sheet: Sheet, db: Db, index: int, row: Row, env: Env, dryrun: bool)
    requires IsWorkbookSheet(sheet) && ValidDb(db)
    ensures ValidDb(RowStep(sheet, db, index, row, env, dryrun).db)
  {
    match Validate(SchemaOf(sheet), row, env)
    case Raised(_) =>
    case Invalid(_) =>
    case Valid(rec) => UpsertKeepsValid(sheet, db, index + 2, rec, dryrun);
  }

  lemma {:induction false} SheetKeepsValid(sheet: Sheet, db: Db, rows: seq<Row>, env: Env, dryrun: bool)
    requires IsWorkbookSheet(sheet) && ValidDb(db)
    ensures ValidDb(SheetStep(sheet, db, rows, env, dryrun).db)
  {
    if |rows| > 0 {
      SheetKeepsValid(sheet, db, rows[..|rows| - 1], env, dryrun);
      var s := SheetStep(sheet, db, rows[..|rows| - 1], env, dryrun);
      RowKeepsValid(sheet, s.db, |rows| - 1, rows[|rows| - 1], env, dryrun);
    }
  }

  lemma ThenKeepsValid(s: Step, sheet: Sheet, wb: Workbook, env: Env, dryrun: bool)
    requires IsWorkbookSheet(sheet) && ValidDb(s.db)
    ensures ValidDb(Then(s, sheet, wb, env, dryrun).db)
  {
    if s.escaped.None? && SheetName(sheet) in wb {
      SheetKeepsValid(sheet, s.db, wb[SheetName(sheet)], env, dryrun);
    }
  }

  /**
   * Whatever the workbook holds and however the batch ends, the stored tables keep one row per
   * natural key: the reconciler never inserts a key it could have found.
   */
  lemma ImportKeepsValid(db: Db, f0: seq<bool>, path: string, wb: Workbook, env: Env, dryrun: bool, revisionOk: bool)
    requires ValidDb(db)
    ensures ValidDb(ImportDataOutcome(db, f0, path, wb, env, dryrun, revisionOk).db)
  {
    var s1 := ReadSheetStep(Runs, wb, db, env, dryrun);
    if "Runs" in wb {
      SheetKeepsValid(Runs, db, wb["Runs"], env, dryrun);
    }
    var s2 := Then(s1, Specimens, wb, env, dryrun);
    ThenKeepsValid(s1, Specimens, wb, env, dryrun);
    var s3 := Then(s2, Samples, wb, env, dryrun);
    ThenKeepsValid(s2, Samples, wb, env, dryrun);
    ThenKeepsValid(s3, Storage, wb, env, dryrun);
  }

  // ---------------------------------------------------------------------------------------
  // What each upsert does
  // ---------------------------------------------------------------------------------------

  /**
   * A valid run row updates the run with its code, or adds exactly one run: the key set gains
   * the code and nothing else, the table grows by one row only when the code was new, the run
   * holds the row's values in every shared column and its other columns as they were, and no
   * other run and no other table changes.
   */
  lemma RunUpsertGet(db: Db, line: int, rec: Record, dryrun: bool)
    requires Unique(db.runs)
    ensures var s := RunUpsert(db, line, rec, dryrun);
      var code := Item(rec, "code");
      var before := Existing(Get(db.runs, code));
      s.escaped.None? && s.db == db.(runs := s.db.runs) && Unique(s.db.runs) &&
      Tables.Keys(s.db.runs) == Tables.Keys(db.runs) + {code} &&
      |s.db.runs| == (if code in Tables.Keys(db.runs) then |db.runs| else |db.runs| + 1) &&
      Get(s.db.runs, code).Some? &&
      (forall a :: Column(Get(s.db.runs, code).value, a) == CopiedColumn(RunKind, before, rec.names, rec, a)) &&
      (forall k :: k != code ==> Get(s.db.runs, k) == Get(db.runs, k)) &&
      s.log == [InfoRecord(Upserted(Runs, line, RunCode(code), code in Tables.Keys(db.runs), dryrun))]
  {
    var code := Item(rec, "code");
    var before := Existing(Get(db.runs, code));
    CopiedPlain(RunKind, before, rec.names, rec);
    var cols := Copied(RunKind, before, rec.names, rec).value;
    PutKeepsUnique(db.runs, code, cols);
    GetSomeIffKey(db.runs, code);
    forall k ensures Get(Put(db.runs, code, cols), k) == if k == code then Some(cols) else Get(db.runs, k) {
      PutGet(db.runs, code, cols, k);
    }
  }

  /** Importing the same run row twice leaves the runs as importing it once: no duplicate, no change. */
  lemma RunUpsertIdempotent(db: Db, line: int, line': int, rec: Record, dryrun: bool, dryrun': bool)
    ensures var once := RunUpsert(db, line, rec, dryrun).db;
      RunUpsert(once, line', rec, dryrun').db == once
  {
    var code := Item(rec, "code");
    var before := Existing(Get(db.runs, code));
    CopiedIdempotent(RunKind, before, rec.names, rec);
    var cols := Copied(RunKind, before, rec.names, rec).value;
    PutGet(db.runs, code, cols, code);
    PutIdempotent(db.runs, code, cols);
  }

  /**
   * The specimen half, once the owner is in the session: the specimen with its accession and
   * collection date is updated or created once, the table growing by one row only when it was
   * new; it gets the row's owner and holds the row's values in every shared column and its
   * other columns as they were; no other specimen changes, its details are synchronised, no
   * other table changes, and the upsert is logged.
   */
  lemma SpecimenSaveGet(db: Db, line: int, rec: Record, dryrun: bool)
    requires Unique(db.specimens)
    ensures var s := SpecimenSave(db, line, rec, dryrun);
      var key := SpecimenKeyOf(rec);
      var found := Get(db.specimens, key);
      var before := if found.Some? then found.value.cols else map[];
      s.escaped.None? && Unique(s.db.specimens) &&
      s.db == db.(specimens := s.db.specimens, specimenDetails := s.db.specimenDetails) &&
      Tables.Keys(s.db.specimens) == Tables.Keys(db.specimens) + {key} &&
      |s.db.specimens| == (if key in Tables.Keys(db.specimens) then |db.specimens| else |db.specimens| + 1) &&
      Get(s.db.specimens, key).Some? && Get(s.db.specimens, key).value.owner == OwnerOf(rec) &&
      (forall a :: Column(Get(s.db.specimens, key).value.cols, a) == CopiedColumn(SpecimenKind, before, rec.names, rec, a)) &&
      (forall k :: k != key ==> Get(s.db.specimens, k) == Get(db.specimens, k)) &&
      s.db.specimenDetails == SyncDetails(db.specimenDetails, key, db.specimenDetailTypes, rec) &&
      s.log == [InfoRecord(Upserted(Specimens, line, SpecimenNamed(key), found.Some?, dryrun))]
  {
    var key := SpecimenKeyOf(rec);
    var found := Get(db.specimens, key);
    GetSomeIffKey(db.specimens, key);
    var before := if found.Some? then found.value.cols else map[];
    CopiedPlain(SpecimenKind, before, rec.names, rec);
    var row := SpecimenRow(OwnerOf(rec), Copied(SpecimenKind, before, rec.names, rec).value);
    PutKeepsUnique(db.specimens, key, row);
    forall k ensures Get(Put(db.specimens, key, row), k) == if k == key then Some(row) else Get(db.specimens, k) {
      PutGet(db.specimens, key, row, k);
    }
  }

  /**
   * A valid specimen row: its owner (site, user) is reused when present and created once
   * otherwise, and then the specimen half does what `SpecimenSaveGet` says; no other table
   * changes and no error is logged.
   */
  lemma SpecimenUpsertGet(db: Db, line: int, rec: Record, dryrun: bool)
    requires Unique(db.owners) && Unique(db.specimens)
    ensures var s := SpecimenUpsert(db, line, rec, dryrun);
      var owner := OwnerOf(rec);
      var key := SpecimenKeyOf(rec);
      var found := Get(db.specimens, key);
      var before := if found.Some? then found.value.cols else map[];
      s.escaped.None? && Unique(s.db.owners) && Unique(s.db.specimens) &&
      s.db == db.(owners := s.db.owners, specimens := s.db.specimens, specimenDetails := s.db.specimenDetails) &&
      Tables.Keys(s.db.owners) == Tables.Keys(db.owners) + {owner} &&
      |s.db.owners| == (if owner in Tables.Keys(db.owners) then |db.owners| else |db.owners| + 1) &&
      Tables.Keys(s.db.specimens) == Tables.Keys(db.specimens) + {key} &&
      |s.db.specimens| == (if key in Tables.Keys(db.specimens) then |db.specimens| else |db.specimens| + 1) &&
      Get(s.db.specimens, key).Some? && Get(s.db.specimens, key).value.owner == owner &&
      (forall a :: Column(Get(s.db.specimens, key).value.cols, a) == CopiedColumn(SpecimenKind, before, rec.names, rec, a)) &&
      (forall k :: k != key ==> Get(s.db.specimens, k) == Get(db.specimens, k)) &&
      s.db.specimenDetails == SyncDetails(db.specimenDetails, key, db.specimenDetailTypes, rec) &&
      !HasError(s.log)
  {
    var owner := OwnerOf(rec);
    var o := OwnerStep(db.owners, owner, line, dryrun);
    GetSomeIffKey(db.owners, owner);
    if Get(db.owners, owner).None? {
      PutKeepsUnique(db.owners, owner, ());
    }
    var db1 := db.(owners := o.owners);
    SpecimenSaveGet(db1, line, rec, dryrun);
    var s := SpecimenSave(db1, line, rec, dryrun);
    HasErrorAppend(o.log, s.log);
  }

  /**
   * A samples row whose run, or else whose specimen, is not in the session is a row error:
   * exactly one ERROR naming the missing parent is logged, nothing is written, and the loop
   * goes on.
   */
  lemma SampleParentMissing(db: Db, line: int, rec: Record, dryrun: bool)
    requires Get(db.runs, Item(rec, "run_code")).None? || Get(db.specimens, SpecimenKeyOf(rec)).None?
    ensures var s := SampleUpsert(db, line, rec, dryrun);
      var key := SpecimenKeyOf(rec);
      s.db == db && s.escaped.None? && |s.log| == 1 && HasError(s.log) &&
      s.log[0].msg == RowFailed(Samples, line,
        if Get(db.runs, Item(rec, "run_code")).None? then RunMissing(Item(rec, "run_code"))
        else SpecimenMissing(key.accession, key.collectionDate))
  {
    var s := SampleUpsert(db, line, rec, dryrun);
    assert s.log[0].levelno == ERROR;
  }

  /**
   * A samples row whose run and specimen exist: the sample with its guid is updated or created
   * once, the table growing by one row only when it was new, and linked to them; it holds the
   * row's values in every shared column, its nucleic acid types as the setter stores them, and
   * its other columns as they were; its details are synchronised, its spikes are replaced as
   * the spike rule says, and no other table changes; the log holds the upsert and then one
   * error per unnamed spike quantity.
   */
  lemma SampleUpsertGet(db: Db, line: int, rec: Record, dryrun: bool)
    requires Unique(db.samples)
    requires Get(db.runs, Item(rec, "run_code")).Some? && Get(db.specimens, SpecimenKeyOf(rec)).Some?
    requires var v := Item(rec, "nucleic_acid_type"); v.List? || v == Null
    ensures var s := SampleUpsert(db, line, rec, dryrun);
      var guid := Item(rec, "guid");
      var found := Get(db.samples, guid);
      var before := if found.Some? then found.value.cols else map[];
      s.escaped.None? && Unique(s.db.samples) &&
      s.db == db.(samples := s.db.samples, sampleDetails := s.db.sampleDetails, spikes := s.db.spikes) &&
      Tables.Keys(s.db.samples) == Tables.Keys(db.samples) + {guid} &&
      |s.db.samples| == (if guid in Tables.Keys(db.samples) then |db.samples| else |db.samples| + 1) &&
      Get(s.db.samples, guid).Some? &&
      (forall a :: a != "nucleic_acid_type" ==>
        Column(Get(s.db.samples, guid).value.cols, a) == CopiedColumn(SampleKind, before, rec.names, rec, a)) &&
      ("nucleic_acid_type" in rec.names ==>
        Column(Get(s.db.samples, guid).value.cols, "nucleic_acid_type") == NucleicSetter(Item(rec, "nucleic_acid_type")).value) &&
      Get(s.db.samples, guid).value.run == Item(rec, "run_code") &&
      Get(s.db.samples, guid).value.specimen == SpecimenKeyOf(rec) &&
      (forall k :: k != guid ==> Get(s.db.samples, k) == Get(db.samples, k)) &&
      s.db.sampleDetails == SyncDetails(db.sampleDetails, guid, db.sampleDetailTypes, rec) &&
      s.db.spikes == SpikesStep(db.spikes, guid, rec, line).spikes &&
      s.log == [InfoRecord(Upserted(Samples, line, SampleGuid(guid), guid in Tables.Keys(db.samples), dryrun))] +
        SpikesStep(db.spikes, guid, rec, line).log
  {
    var guid := Item(rec, "guid");
    var found := Get(db.samples, guid);
    GetSomeIffKey(db.samples, guid);
    var before := if found.Some? then found.value.cols else map[];
    CopiedSample(before, rec.names, rec);
    var row := SampleRow(Item(rec, "run_code"), SpecimenKeyOf(rec), Copied(SampleKind, before, rec.names, rec).value);
    PutKeepsUnique(db.samples, guid, row);
    forall k ensures Get(Put(db.samples, guid, row), k) == if k == guid then Some(row) else Get(db.samples, k) {
      PutGet(db.samples, guid, row, k);
    }
  }

  /**
   * A storage row whose specimen is missing is a row error and writes nothing; otherwise the
   * storage with its QR code is updated or created once, the table growing by one row only
   * when it was new, linked to the specimen, holding the row's values in every shared column
   * and its other columns as they were.
   */
  lemma StorageUpsertGet(db: Db, line: int, rec: Record, dryrun: bool)
    requires Unique(db.storages)
    ensures var s := StorageUpsert(db, line, rec, dryrun);
      var key := SpecimenKeyOf(rec);
      var qrCode := Item(rec, "storage_qr_code");
      var found := Get(db.storages, qrCode);
      var before := if found.Some? then found.value.cols else map[];
      s.escaped.None? &&
      (Get(db.specimens, key).None? ==>
        s.db == db && s.log == [ErrorRecord(RowFailed(Storage, line, SpecimenMissing(key.accession, key.collectionDate)))]) &&
      (Get(db.specimens, key).Some? ==>
        s.db == db.(storages := s.db.storages) && Unique(s.db.storages) &&
        Tables.Keys(s.db.storages) == Tables.Keys(db.storages) + {qrCode} &&
        |s.db.storages| == (if qrCode in Tables.Keys(db.storages) then |db.storages| else |db.storages| + 1) &&
        Get(s.db.storages, qrCode).Some? && Get(s.db.storages, qrCode).value.specimen == key &&
        (forall a :: Column(Get(s.db.storages, qrCode).value.cols, a) == CopiedColumn(StorageKind, before, rec.names, rec, a)) &&
        (forall k :: k != qrCode ==> Get(s.db.storages, k) == Get(db.storages, k)) &&
        s.log == [InfoRecord(Upserted(Storage, line, StorageCode(qrCode), qrCode in Tables.Keys(db.storages), dryrun))])
  {
    var key := SpecimenKeyOf(rec);
    if Get(db.specimens, key).Some? {
      var qrCode := Item(rec, "storage_qr_code");
      var found := Get(db.storages, qrCode);
      GetSomeIffKey(db.storages, qrCode);
      var before := if found.Some? then found.value.cols else map[];
      CopiedPlain(StorageKind, before, rec.names, rec);
      var row := StorageRow(key, Copied(StorageKind, before, rec.names, rec).value);
      PutKeepsUnique(db.storages, qrCode, row);
      forall k ensures Get(Put(db.storages, qrCode, row), k) == if k == qrCode then Some(row) else Get(db.storages, k) {
        PutGet(db.storages, qrCode, row, k);
      }
    }
  }

  // ---------------------------------------------------------------------------------------
  // The owner lookup as written
  // ---------------------------------------------------------------------------------------

  /**
   * The owner as the specimens loop writes it: `owner(session, index, row, dryrun)` is handed
   * the raw spreadsheet row, where its signature declares the validated `SpecimensImport`, so
   * the site and user it looks up and stores are the cells as read, untrimmed.
   */
  function OwnerKeyAsWritten(row: Row): OwnerKey
    requires "owner_site" in row && "owner_user" in row
  {
    OwnerKey(row["owner_site"], row["owner_user"])
  }

  function OwnerStepAsWritten(db: Db, row: Row, line: int, dryrun: bool): Owned
    requires "owner_site" in row && "owner_user" in row
  {
    OwnerStep(db.owners, OwnerKeyAsWritten(row), line, dryrun)
  }

  /**
   * The discrepancy: a valid specimen row whose site cell carries surrounding blanks names,
   * once validated, an owner that is already stored; the corrected lookup reuses it, while the
   * lookup as written misses it and adds a second owner row with the untrimmed site.
   */
  lemma OwnerAsWrittenDuplicates(db: Db, row: Row, env: Env, line: int, dryrun: bool)
    requires Validate(SpecimensImport(), row, env).Valid?
    requires "owner_site" in row && "owner_user" in row && row["owner_site"].Str? && !Trimmed(row["owner_site"].s)
    requires var rec := Validate(SpecimensImport(), row, env).rec;
      Get(db.owners, OwnerOf(rec)).Some? && Get(db.owners, OwnerKeyAsWritten(row)).None?
    ensures var rec := Validate(SpecimensImport(), row, env).rec;
      OwnerKeyAsWritten(row) != OwnerOf(rec) &&
      OwnerStep(db.owners, OwnerOf(rec), line, dryrun).owners == db.owners &&
      |OwnerStepAsWritten(db, row, line, dryrun).owners| == |db.owners| + 1
  {
    var rec := Validate(SpecimensImport(), row, env).rec;
    SpecimenNamesDistinct();
    ValidField(SpecimensImport(), row, env, 0);
    assert Trimmed(Item(rec, "owner_site").s);
    assert Find(db.owners, OwnerKeyAsWritten(row)).None?;
  }
}
