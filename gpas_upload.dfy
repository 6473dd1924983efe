/**
 * The GPAS uploader: the rows of a GPAS summary or mutation CSV, already joined to the sample
 * mapping, each reconciled against the samples the workbook importer stored. A summary row
 * upserts the analysis of its sample and batch, that analysis's first speciation, one drug
 * resistance per antibiotic of the drug table and the catalog-driven details; a mutation row
 * upserts the analysis and one mutation. The batch then ends as the workbook import does.
 */
module GpasUpload {
  import opened Outcomes
  import opened Tables
  import opened Constants
  import opened Logs
  import opened UploadModels
  import opened Schemas
  import opened Models
  import opened Store
  import opened Batch

  /**
   * What the uploader takes besides the rows: the validation environment, the validation of
   * a mutation row (the mutation model is not part of this model), and the drug table, each
   * antibiotic with the position of its code in a resistance prediction, in table order.
   */
  datatype Inputs = Inputs(env: Env, checkMutation: Row -> Checked, tbDrugs: seq<(int, string)>)

  predicate IsCsvSheet(sheet: Sheet)
  {
    sheet.Summary? || sheet.Mutation?
  }

  /** The analysis a row names: its sample's guid and its batch. */
  function AnalysisKeyOf(rec: Record): AnalysisKey
  {
    AnalysisKey(Item(rec, "sample_name"), Item(rec, "batch"))
  }

  /** The assay system a new analysis is created with. */
  const GpasTb: Value := Str("GPAS TB")

  // ---------------------------------------------------------------------------------------
  // Samples and analyses
  // ---------------------------------------------------------------------------------------

  /** `find_sample`: the sample with this guid, or the ValueError. */
  method FindSample(session: Session, guid: Value) returns (r: Result<SampleRow, Cause>)
    ensures Get(session.db.samples, guid).Some? ==> r == Ok(Get(session.db.samples, guid).value)
    ensures Get(session.db.samples, guid).None? ==> r == Err(SampleMissing(guid))
  {
    var found := First(session.db.samples, guid);
    if found.Some? {
      return Ok(found.value);
    }
    return Err(SampleMissing(guid));
  }

  datatype Analysed = Analysed(analyses: Table<AnalysisKey, Value>, log: Log)

  /**
   * `analysis()` once the sample is found: the analysis of this sample and batch is reused as
   * it is (the assay system is compared, not assigned), or created for the GPAS TB assay and
   * its creation logged.
   */
  function AnalysisStep(analyses: Table<AnalysisKey, Value>, key: AnalysisKey, sheet: Sheet, line: int, dryrun: bool): Analysed
  {
    if Get(analyses, key).Some? then Analysed(analyses, [])
    else Analysed(Put(analyses, key, GpasTb), [InfoRecord(Upserted(sheet, line, AnalysisNamed(key), false, dryrun))])
  }

  method UpsertAnalysis(session: Session, logger: Logger<Event>, key: AnalysisKey, sheet: Sheet, line: int, dryrun: bool,
                        ghost r0: Log, ghost f0: seq<bool>, ghost log: Log)
    modifies session, logger, logger.handlers
    requires Trace(logger.records, logger.Flags(), r0, f0, log)
    ensures var a := AnalysisStep(old(session.db.analyses), key, sheet, line, dryrun);
      session.db == old(session.db).(analyses := a.analyses) && Trace(logger.records, logger.Flags(), r0, f0, log + a.log)
  {
    var found := First(session.db.analyses, key);
    if found.None? {
      session.db := session.db.(analyses := Put(session.db.analyses, key, GpasTb));
      Emit(logger, InfoRecord(Upserted(sheet, line, AnalysisNamed(key), false, dryrun)), r0, f0, log);
    } else {
      assert log + [] == log;
    }
  }

  // ---------------------------------------------------------------------------------------
  // Speciation
  // ---------------------------------------------------------------------------------------

  /**
   * `speciation()`: no species logs that none was found and writes nothing. Otherwise the
   * analysis's speciation number 1 is found or created, the upsert logged, and its species and
   * sub-species overwritten; its analysis date is then read from the row's `run_date`
   * attribute, and a row without that column raises, leaving the speciation half written.
   */
  function SpeciationStep(db: Db, line: int, key: AnalysisKey, rec: Record, dryrun: bool): Step
  {
    var species := Item(rec, "species");
    if species == Null then Step(db, [InfoRecord(SpeciationNotFound(line, key))], None)
    else
      var k := (key, 1);
      var found := Get(db.speciations, k);
      var before := if found.Some? then found.value else SpeciationRow(Null, Null, Null);
      var named := before.(species := species, subSpecies := Item(rec, "sub_species"));
      var logged := [InfoRecord(Upserted(Summary, line, SpeciationOf(key), found.Some?, dryrun))];
      match Attr(rec, "run_date")
      case None => Step(db.(speciations := Put(db.speciations, k, named)), logged, Some(AttributeMissing("run_date")))
      case Some(date) => Step(db.(speciations := Put(db.speciations, k, named.(analysisDate := date))), logged, None)
  }

  method UpsertSpeciation(session: Session, logger: Logger<Event>, line: int, key: AnalysisKey, rec: Record, dryrun: bool,
                          ghost r0: Log, ghost f0: seq<bool>, ghost log: Log) returns (escaped: Option<Cause>)
    modifies session, logger, logger.handlers
    requires Trace(logger.records, logger.Flags(), r0, f0, log)
    ensures var s := SpeciationStep(old(session.db), line, key, rec, dryrun);
      session.db == s.db && escaped == s.escaped && Trace(logger.records, logger.Flags(), r0, f0, log + s.log)
  {
    var species := Item(rec, "species");
    if species == Null {
      Emit(logger, InfoRecord(SpeciationNotFound(line, key)), r0, f0, log);
      return None;
    }
    var k := (key, 1);
    var found := First(session.db.speciations, k);
    var speciation := if found.Some? then found.value else SpeciationRow(Null, Null, Null);
    Emit(logger, InfoRecord(Upserted(Summary, line, SpeciationOf(key), found.Some?, dryrun)), r0, f0, log);
    speciation := speciation.(species := species, subSpecies := Item(rec, "sub_species"));
    ghost var t := session.db.speciations;
    session.db := session.db.(speciations := Put(session.db.speciations, k, speciation));
    var date := Attr(rec, "run_date");
    if date.None? {
      return Some(AttributeMissing("run_date"));
    }
    session.db := session.db.(speciations := Put(session.db.speciations, k, speciation.(analysisDate := date.value)));
    PutOverwrites(t, k, speciation, speciation.(analysisDate := date.value));
    escaped := None;
  }

  // ---------------------------------------------------------------------------------------
  // Drug resistance
  // ---------------------------------------------------------------------------------------

  /**
   * `prediction[i]` in Python: a string gives its i-th character and a list its i-th item,
   * a negative i counting from the end; an index out of range raises IndexError and any other
   * value (a float NaN among them) is not subscriptable.
   */
  function Subscript(v: Value, i: int): (r: Result<Value, Cause>)
    ensures r.Ok? ==> r.value.Str?
    ensures (v.Str? || v.List?) ==> (r.Err? <==> r == Err(IndexOutOfRange(i)))
    ensures !(v.Str? || v.List?) ==> r == Err(NotSubscriptable)
  {
    match v
    case Str(s) => if -|s| <= i < |s| then Ok(Str([s[if i < 0 then i + |s| else i]])) else Err(IndexOutOfRange(i))
    case List(items) => if -|items| <= i < |items| then Ok(Str(items[if i < 0 then i + |items| else i])) else Err(IndexOutOfRange(i))
    case _ => Err(NotSubscriptable)
  }

  datatype Resisted = Resisted(drugs: Table<(AnalysisKey, string), Value>, log: Log, escaped: Option<Cause>)

  /**
   * One antibiotic of the drug table: its resistance row for the analysis is found (and the
   * update logged) or created empty, and then gets the code at its position in the prediction;
   * a subscript that raises leaves the created row without a code.
   */
  function DrugRow(t: Table<(AnalysisKey, string), Value>, line: int, key: AnalysisKey, prediction: Value,
                   drug: (int, string), dryrun: bool): Resisted
  {
    var k := (key, drug.1);
    var found := Get(t, k);
    var created := if found.Some? then t else Put(t, k, Null);
    var logged := if found.Some? then [InfoRecord(Upserted(Summary, line, DrugOf(key, drug.1), true, dryrun))] else [];
    match Subscript(prediction, drug.0)
    case Err(c) => Resisted(created, logged, Some(c))
    case Ok(code) => Resisted(Put(created, k, code), logged, None)
  }

  /** The drug loop over the table in order, up to and including the first antibiotic that raises. */
  function DrugRows(t: Table<(AnalysisKey, string), Value>, line: int, key: AnalysisKey, prediction: Value,
                    drugs: seq<(int, string)>, dryrun: bool): Resisted
  {
    if |drugs| == 0 then Resisted(t, [], None)
    else
      var r := DrugRows(t, line, key, prediction, drugs[..|drugs| - 1], dryrun);
      if r.escaped.Some? then r
      else
        var d := DrugRow(r.drugs, line, key, prediction, drugs[|drugs| - 1], dryrun);
        Resisted(d.drugs, r.log + d.log, d.escaped)
  }

  /**
   * `drugs()`: the prediction is read as an attribute (a row without that column raises); None
   * logs that it is empty and writes nothing; otherwise the drug loop runs and, when it
   * completes, logs that the resistances were added.
   */
  function DrugsStep(db: Db, line: int, key: AnalysisKey, rec: Record, drugs: seq<(int, string)>, dryrun: bool): Step
  {
    match Attr(rec, "resistance_prediction")
    case None => Step(db, [], Some(AttributeMissing("resistance_prediction")))
    case Some(prediction) =>
      if prediction == Null then Step(db, [InfoRecord(ResistanceEmpty(line, key))], None)
      else
        var r := DrugRows(db.drugResistances, line, key, prediction, drugs, dryrun);
        Step(db.(drugResistances := r.drugs),
             if r.escaped.Some? then r.log else r.log + [InfoRecord(ResistanceAdded(line, key))], r.escaped)
  }

  method UpsertDrug(session: Session, logger: Logger<Event>, line: int, key: AnalysisKey, prediction: Value,
                    drug: (int, string), dryrun: bool,
                    ghost r0: Log, ghost f0: seq<bool>, ghost log: Log) returns (escaped: Option<Cause>)
    modifies session, logger, logger.handlers
    requires Trace(logger.records, logger.Flags(), r0, f0, log)
    ensures var d := DrugRow(old(session.db.drugResistances), line, key, prediction, drug, dryrun);
      session.db == old(session.db).(drugResistances := d.drugs) && escaped == d.escaped &&
      Trace(logger.records, logger.Flags(), r0, f0, log + d.log)
  {
    var k := (key, drug.1);
    var found := First(session.db.drugResistances, k);
    if found.Some? {
      Emit(logger, InfoRecord(Upserted(Summary, line, DrugOf(key, drug.1), true, dryrun)), r0, f0, log);
    } else {
      session.db := session.db.(drugResistances := Put(session.db.drugResistances, k, Null));
      assert log + [] == log;
    }
    var code := Subscript(prediction, drug.0);
    if code.Err? {
      return Some(code.error);
    }
    session.db := session.db.(drugResistances := Put(session.db.drugResistances, k, code.value));
    escaped := None;
  }

  /** Once an antibiotic has raised, the ones after it change nothing: the loop was left. */
  lemma {:induction false} DrugRowsStopAtEscape(t: Table<(AnalysisKey, string), Value>, line: int, key: AnalysisKey,
                                                prediction: Value, drugs: seq<(int, string)>, dryrun: bool, n: nat)
    requires n <= |drugs| && DrugRows(t, line, key, prediction, drugs[..n], dryrun).escaped.Some?
    ensures DrugRows(t, line, key, prediction, drugs, dryrun) == DrugRows(t, line, key, prediction, drugs[..n], dryrun)
    decreases |drugs| - n
  {
    if n < |drugs| {
      assert drugs[..n + 1][..n] == drugs[..n];
      DrugRowsStopAtEscape(t, line, key, prediction, drugs, dryrun, n + 1);
    } else {
      assert drugs[..n] == drugs;
    }
  }

  /** `for key, value in tb_drugs.items()`: every antibiotic in table order, until one raises. */
  method UpsertDrugs(session: Session, logger: Logger<Event>, line: int, key: AnalysisKey, prediction: Value,
                     drugs: seq<(int, string)>, dryrun: bool,
                     ghost r0: Log, ghost f0: seq<bool>, ghost log: Log) returns (escaped: Option<Cause>)
    modifies session, logger, logger.handlers
    requires Trace(logger.records, logger.Flags(), r0, f0, log)
    ensures var r := DrugRows(old(session.db.drugResistances), line, key, prediction, drugs, dryrun);
      session.db == old(session.db).(drugResistances := r.drugs) && escaped == r.escaped &&
      Trace(logger.records, logger.Flags(), r0, f0, log + r.log)
  {
    ghost var db0 := session.db;
    var i := 0;
    assert drugs[..0] == [] && log + [] == log;
    while i < |drugs|
      invariant 0 <= i <= |drugs|
      invariant var r := DrugRows(db0.drugResistances, line, key, prediction, drugs[..i], dryrun);
        r.escaped.None? && session.db == db0.(drugResistances := r.drugs) &&
        Trace(logger.records, logger.Flags(), r0, f0, log + r.log)
    {
      escaped := UpsertDrugsPass(session, logger, line, key, prediction, drugs, dryrun, i, db0, r0, f0, log);
      if escaped.Some? {
        return;
      }
      i := i + 1;
    }
    assert drugs[..i] == drugs;
    escaped := None;
  }

  /** One pass of the drug loop: the antibiotic at position `i`, after a prefix that did not raise. */
  method UpsertDrugsPass(session: Session, logger: Logger<Event>, line: int, key: AnalysisKey, prediction: Value,
                         drugs: seq<(int, string)>, dryrun: bool, i: nat,
                         ghost db0: Db, ghost r0: Log, ghost f0: seq<bool>, ghost log: Log) returns (escaped: Option<Cause>)
    modifies session, logger, logger.handlers
    requires i < |drugs|
    requires var r := DrugRows(db0.drugResistances, line, key, prediction, drugs[..i], dryrun);
      r.escaped.None? && session.db == db0.(drugResistances := r.drugs) &&
      Trace(logger.records, logger.Flags(), r0, f0, log + r.log)
    ensures escaped.None? ==> var r := DrugRows(db0.drugResistances, line, key, prediction, drugs[..i + 1], dryrun);
      r.escaped.None? && session.db == db0.(drugResistances := r.drugs) &&
      Trace(logger.records, logger.Flags(), r0, f0, log + r.log)
    ensures escaped.Some? ==> var r := DrugRows(db0.drugResistances, line, key, prediction, drugs, dryrun);
      escaped == r.escaped && session.db == db0.(drugResistances := r.drugs) &&
      Trace(logger.records, logger.Flags(), r0, f0, log + r.log)
  {
    ghost var r := DrugRows(db0.drugResistances, line, key, prediction, drugs[..i], dryrun);
    ghost var d := DrugRow(r.drugs, line, key, prediction, drugs[i], dryrun);
    escaped := UpsertDrug(session, logger, line, key, prediction, drugs[i], dryrun, r0, f0, log + r.log);
    DrugRowsSnoc(db0.drugResistances, line, key, prediction, drugs, dryrun, i);
    Regrouped(log, r.log, d.log);
    if escaped.Some? {
      DrugRowsStopAtEscape(db0.drugResistances, line, key, prediction, drugs, dryrun, i + 1);
    }
  }

  /** One more antibiotic, after a prefix that did not raise, is one more `DrugRow`. */
  lemma DrugRowsSnoc(t: Table<(AnalysisKey, string), Value>, line: int, key: AnalysisKey, prediction: Value,
                     drugs: seq<(int, string)>, dryrun: bool, i: nat)
    requires i < |drugs| && DrugRows(t, line, key, prediction, drugs[..i], dryrun).escaped.None?
    ensures var r := DrugRows(t, line, key, prediction, drugs[..i], dryrun);
      var d := DrugRow(r.drugs, line, key, prediction, drugs[i], dryrun);
      DrugRows(t, line, key, prediction, drugs[..i + 1], dryrun) == Resisted(d.drugs, r.log + d.log, d.escaped)
  {
    assert drugs[..i + 1][..i] == drugs[..i];
  }

  method SyncDrugs(session: Session, logger: Logger<Event>, line: int, key: AnalysisKey, rec: Record,
                   drugs: seq<(int, string)>, dryrun: bool,
                   ghost r0: Log, ghost f0: seq<bool>, ghost log: Log) returns (escaped: Option<Cause>)
    modifies session, logger, logger.handlers
    requires Trace(logger.records, logger.Flags(), r0, f0, log)
    ensures var s := DrugsStep(old(session.db), line, key, rec, drugs, dryrun);
      session.db == s.db && escaped == s.escaped && Trace(logger.records, logger.Flags(), r0, f0, log + s.log)
  {
    var prediction := Attr(rec, "resistance_prediction");
    if prediction.None? {
      assert log + [] == log;
      return Some(AttributeMissing("resistance_prediction"));
    }
    if prediction.value == Null {
      Emit(logger, InfoRecord(ResistanceEmpty(line, key)), r0, f0, log);
      return None;
    }
    ghost var r := DrugRows(session.db.drugResistances, line, key, prediction.value, drugs, dryrun);
    escaped := UpsertDrugs(session, logger, line, key, prediction.value, drugs, dryrun, r0, f0, log);
    if escaped.None? {
      Emit(logger, InfoRecord(ResistanceAdded(line, key)), r0, f0, log + r.log);
      Regrouped(log, r.log, [InfoRecord(ResistanceAdded(line, key))]);
    }
  }

  // ---------------------------------------------------------------------------------------
  // A summary row
  // ---------------------------------------------------------------------------------------

  /** `drugs()` and then `details()`, the catalog of other types applied to the analysis. */
  function SummaryFinish(db: Db, line: int, key: AnalysisKey, rec: Record, drugs: seq<(int, string)>, dryrun: bool): Step
  {
    var d := DrugsStep(db, line, key, rec, drugs, dryrun);
    if d.escaped.Some? then d
    else Step(d.db.(others := SyncDetails(d.db.others, key, d.db.otherTypes, rec)), d.log, None)
  }

  /** A summary row whose sample exists: analysis, speciation, drugs and details in that order. */
  function SummarySave(db: Db, line: int, rec: Record, drugs: seq<(int, string)>, dryrun: bool): Step
  {
    var key := AnalysisKeyOf(rec);
    var a := AnalysisStep(db.analyses, key, Summary, line, dryrun);
    var s := SpeciationStep(db.(analyses := a.analyses), line, key, rec, dryrun);
    if s.escaped.Some? then Step(s.db, a.log + s.log, s.escaped)
    else
      var f := SummaryFinish(s.db, line, key, rec, drugs, dryrun);
      Step(f.db, a.log + s.log + f.log, f.escaped)
  }

  /** A valid summary row: a sample missing from the database is a row error and nothing is written. */
  function SummaryUpsert(db: Db, line: int, rec: Record, drugs: seq<(int, string)>, dryrun: bool): Step
  {
    var guid := Item(rec, "sample_name");
    if Get(db.samples, guid).None? then Step(db, [ErrorRecord(RowFailed(Summary, line, SampleMissing(guid)))], None)
    else SummarySave(db, line, rec, drugs, dryrun)
  }

  method FinishSummary(session: Session, logger: Logger<Event>, line: int, key: AnalysisKey, rec: Record,
                       drugs: seq<(int, string)>, dryrun: bool,
                       ghost r0: Log, ghost f0: seq<bool>, ghost log: Log) returns (escaped: Option<Cause>)
    modifies session, logger, logger.handlers
    requires Trace(logger.records, logger.Flags(), r0, f0, log)
    ensures var s := SummaryFinish(old(session.db), line, key, rec, drugs, dryrun);
      session.db == s.db && escaped == s.escaped && Trace(logger.records, logger.Flags(), r0, f0, log + s.log)
  {
    escaped := SyncDrugs(session, logger, line, key, rec, drugs, dryrun, r0, f0, log);
    if escaped.None? {
      var others := SyncDetailTable(session.db.others, key, session.db.otherTypes, rec);
      session.db := session.db.(others := others);
    }
  }

  method SaveSummary(session: Session, logger: Logger<Event>, line: int, rec: Record, drugs: seq<(int, string)>, dryrun: bool,
                     ghost r0: Log, ghost f0: seq<bool>, ghost log: Log) returns (escaped: Option<Cause>)
    modifies session, logger, logger.handlers
    requires Trace(logger.records, logger.Flags(), r0, f0, log)
    ensures var s := SummarySave(old(session.db), line, rec, drugs, dryrun);
      session.db == s.db && escaped == s.escaped && Trace(logger.records, logger.Flags(), r0, f0, log + s.log)
  {
    var key := AnalysisKeyOf(rec);
    ghost var a := AnalysisStep(session.db.analyses, key, Summary, line, dryrun);
    UpsertAnalysis(session, logger, key, Summary, line, dryrun, r0, f0, log);
    ghost var s := SpeciationStep(session.db, line, key, rec, dryrun);
    escaped := UpsertSpeciation(session, logger, line, key, rec, dryrun, r0, f0, log + a.log);
    Regrouped(log, a.log, s.log);
    if escaped.Some? {
      return;
    }
    ghost var f := SummaryFinish(session.db, line, key, rec, drugs, dryrun);
    escaped := FinishSummary(session, logger, line, key, rec, drugs, dryrun, r0, f0, log + (a.log + s.log));
    Regrouped(log, a.log + s.log, f.log);
  }

  method UpsertSummary(session: Session, logger: Logger<Event>, line: int, rec: Record, drugs: seq<(int, string)>, dryrun: bool,
                       ghost r0: Log, ghost f0: seq<bool>, ghost log: Log) returns (escaped: Option<Cause>)
    modifies session, logger, logger.handlers
    requires Trace(logger.records, logger.Flags(), r0, f0, log)
    ensures var s := SummaryUpsert(old(session.db), line, rec, drugs, dryrun);
      session.db == s.db && escaped == s.escaped && Trace(logger.records, logger.Flags(), r0, f0, log + s.log)
  {
    var sample := FindSample(session, Item(rec, "sample_name"));
    if sample.Err? {
      Emit(logger, ErrorRecord(RowFailed(Summary, line, sample.error)), r0, f0, log);
      return None;
    }
    escaped := SaveSummary(session, logger, line, rec, drugs, dryrun, r0, f0, log);
  }

  // ---------------------------------------------------------------------------------------
  // A mutation row
  // ---------------------------------------------------------------------------------------

  function MutationKeyOf(key: AnalysisKey, rec: Record): MutationKey
  {
    MutationKey(key, Item(rec, "species"), Item(rec, "drug"), Item(rec, "gene"), Item(rec, "mutation"))
  }

  function MutationDataOf(rec: Record): MutationData
  {
    MutationData(Item(rec, "position"), Item(rec, "ref"), Item(rec, "alt"), Item(rec, "coverage"),
                 Item(rec, "prediction"), Item(rec, "evidence"), Item(rec, "evidence_json"))
  }

  /**
   * `mutation()` after `analysis()`: the mutation with this analysis, species, drug, gene and
   * mutation is found or created, the upsert logged, and its seven data columns overwritten.
   */
  function MutationSave(db: Db, line: int, rec: Record, dryrun: bool): Step
  {
    var key := AnalysisKeyOf(rec);
    var a := AnalysisStep(db.analyses, key, Mutation, line, dryrun);
    var k := MutationKeyOf(key, rec);
    var found := Get(db.mutations, k);
    Step(db.(analyses := a.analyses, mutations := Put(db.mutations, k, MutationDataOf(rec))),
         a.log + [InfoRecord(Upserted(Mutation, line, MutationNamed(k), found.Some?, dryrun))], None)
  }

  /** A valid mutation row: a sample missing from the database is a row error and nothing is written. */
  function MutationUpsert(db: Db, line: int, rec: Record, dryrun: bool): Step
  {
    var guid := Item(rec, "sample_name");
    if Get(db.samples, guid).None? then Step(db, [ErrorRecord(RowFailed(Mutation, line, SampleMissing(guid)))], None)
    else MutationSave(db, line, rec, dryrun)
  }

  method UpsertMutation(session: Session, logger: Logger<Event>, line: int, rec: Record, dryrun: bool,
                        ghost r0: Log, ghost f0: seq<bool>, ghost log: Log) returns (escaped: Option<Cause>)
    modifies session, logger, logger.handlers
    requires Trace(logger.records, logger.Flags(), r0, f0, log)
    ensures var s := MutationUpsert(old(session.db), line, rec, dryrun);
      session.db == s.db && escaped == s.escaped && Trace(logger.records, logger.Flags(), r0, f0, log + s.log)
  {
    var sample := FindSample(session, Item(rec, "sample_name"));
    if sample.Err? {
      Emit(logger, ErrorRecord(RowFailed(Mutation, line, sample.error)), r0, f0, log);
      return None;
    }
    escaped := SaveMutation(session, logger, line, rec, dryrun, r0, f0, log);
  }

  method SaveMutation(session: Session, logger: Logger<Event>, line: int, rec: Record, dryrun: bool,
                      ghost r0: Log, ghost f0: seq<bool>, ghost log: Log) returns (escaped: Option<Cause>)
    modifies session, logger, logger.handlers
    requires Trace(logger.records, logger.Flags(), r0, f0, log)
    ensures var s := MutationSave(old(session.db), line, rec, dryrun);
      session.db == s.db && escaped == s.escaped && Trace(logger.records, logger.Flags(), r0, f0, log + s.log)
  {
    var key := AnalysisKeyOf(rec);
    ghost var a := AnalysisStep(session.db.analyses, key, Mutation, line, dryrun);
    UpsertAnalysis(session, logger, key, Mutation, line, dryrun, r0, f0, log);
    var k := MutationKeyOf(key, rec);
    var found := First(session.db.mutations, k);
    session.db := session.db.(mutations := Put(session.db.mutations, k, MutationDataOf(rec)));
    var added := InfoRecord(Upserted(Mutation, line, MutationNamed(k), found.Some?, dryrun));
    Emit(logger, added, r0, f0, log + a.log);
    Regrouped(log, a.log, [added]);
    escaped := None;
  }

  // ---------------------------------------------------------------------------------------
  // Rows, the batch
  // ---------------------------------------------------------------------------------------

  /** Building the row's model: the GpasSummary model for a summary row, the given validation for a mutation row. */
  function CheckRow(sheet: Sheet, row: Row, inputs: Inputs): Checked
    requires IsCsvSheet(sheet)
  {
    if sheet.Summary? then Validate(GpasSummary(), row, inputs.env) else inputs.checkMutation(row)
  }

  function CsvUpsert(sheet: Sheet, db: Db, line: int, rec: Record, inputs: Inputs, dryrun: bool): Step
    requires IsCsvSheet(sheet)
  {
    if sheet.Summary? then SummaryUpsert(db, line, rec, inputs.tbDrugs, dryrun) else MutationUpsert(db, line, rec, dryrun)
  }

  /**
   * One CSV row (index counted from 0, the line is index + 2): an exception that is not a
   * validation error escapes; a validation error logs one error per failing field and writes
   * nothing; a valid model is upserted.
   */
  function CsvRowStep(sheet: Sheet, db: Db, index: int, row: Row, inputs: Inputs, dryrun: bool): Step
    requires IsCsvSheet(sheet)
  {
    match CheckRow(sheet, row, inputs)
    case Raised(c) => Step(db, [], Some(c))
    case Invalid(errors) => Step(db, FieldErrorLog(sheet, index + 2, errors), None)
    case Valid(rec) => CsvUpsert(sheet, db, index + 2, rec, inputs, dryrun)
  }

  method ImportCsvRow(session: Session, logger: Logger<Event>, sheet: Sheet, index: int, row: Row, inputs: Inputs, dryrun: bool,
                      ghost r0: Log, ghost f0: seq<bool>, ghost log: Log) returns (escaped: Option<Cause>)
    modifies session, logger, logger.handlers
    requires IsCsvSheet(sheet)
    requires Trace(logger.records, logger.Flags(), r0, f0, log)
    ensures var s := CsvRowStep(sheet, old(session.db), index, row, inputs, dryrun);
      session.db == s.db && escaped == s.escaped && Trace(logger.records, logger.Flags(), r0, f0, log + s.log)
  {
    var checked: Checked;
    if sheet.Summary? {
      checked := Construct(GpasSummary(), row, inputs.env);
    } else {
      checked := inputs.checkMutation(row);
    }
    match checked {
      case Raised(c) =>
        escaped := Some(c);
        assert log + [] == log;
      case Invalid(errors) =>
        LogFieldErrors(logger, sheet, index + 2, errors, r0, f0, log);
        escaped := None;
      case Valid(rec) =>
        if sheet.Summary? {
          escaped := UpsertSummary(session, logger, index + 2, rec, inputs.tbDrugs, dryrun, r0, f0, log);
        } else {
          escaped := UpsertMutation(session, logger, index + 2, rec, dryrun, r0, f0, log);
        }
    }
  }

  /** The rows in order, up to and including the first row an exception escapes. */
  function CsvStep(sheet: Sheet, db: Db, rows: seq<Row>, inputs: Inputs, dryrun: bool): Step
    requires IsCsvSheet(sheet)
  {
    if |rows| == 0 then Step(db, [], None)
    else
      var s := CsvStep(sheet, db, rows[..|rows| - 1], inputs, dryrun);
      if s.escaped.Some? then s
      else
        var r := CsvRowStep(sheet, s.db, |rows| - 1, rows[|rows| - 1], inputs, dryrun);
        Step(r.db, s.log + r.log, r.escaped)
  }

  /** Once an exception has escaped, the rows after it change nothing: the loop was left. */
  lemma {:induction false} CsvStopsAtEscape(sheet: Sheet, db: Db, rows: seq<Row>, inputs: Inputs, dryrun: bool, n: nat)
    requires IsCsvSheet(sheet)
    requires n <= |rows| && CsvStep(sheet, db, rows[..n], inputs, dryrun).escaped.Some?
    ensures CsvStep(sheet, db, rows, inputs, dryrun) == CsvStep(sheet, db, rows[..n], inputs, dryrun)
    decreases |rows| - n
  {
    if n < |rows| {
      assert rows[..n + 1][..n] == rows[..n];
      CsvStopsAtEscape(sheet, db, rows, inputs, dryrun, n + 1);
    } else {
      assert rows[..n] == rows;
    }
  }

  /** The row loop of an upload. */
  method ImportCsvRows(session: Session, logger: Logger<Event>, sheet: Sheet, rows: seq<Row>, inputs: Inputs, dryrun: bool,
                       ghost r0: Log, ghost f0: seq<bool>, ghost log: Log) returns (escaped: Option<Cause>)
    modifies session, logger, logger.handlers
    requires IsCsvSheet(sheet)
    requires Trace(logger.records, logger.Flags(), r0, f0, log)
    ensures var s := CsvStep(sheet, old(session.db), rows, inputs, dryrun);
      session.db == s.db && escaped == s.escaped && Trace(logger.records, logger.Flags(), r0, f0, log + s.log)
  {
    ghost var db0 := session.db;
    var index := 0;
    assert rows[..0] == [] && log + [] == log;
    while index < |rows|
      invariant 0 <= index <= |rows|
      invariant var s := CsvStep(sheet, db0, rows[..index], inputs, dryrun);
        s.escaped.None? && session.db == s.db && Trace(logger.records, logger.Flags(), r0, f0, log + s.log)
    {
      escaped := ImportCsvPass(session, logger, sheet, rows, inputs, dryrun, index, db0, r0, f0, log);
      assert rows[..index + 1][..index] == rows[..index];
      if escaped.Some? {
        return;
      }
      index := index + 1;
    }
    assert rows[..index] == rows;
    escaped := None;
  }

  /** One pass of the upload's row loop: the row at `index`, after a prefix no exception escaped. */
  method ImportCsvPass(session: Session, logger: Logger<Event>, sheet: Sheet, rows: seq<Row>, inputs: Inputs, dryrun: bool,
                       index: nat, ghost db0: Db, ghost r0: Log, ghost f0: seq<bool>, ghost log: Log)
    returns (escaped: Option<Cause>)
    modifies session, logger, logger.handlers
    requires IsCsvSheet(sheet) && index < |rows|
    requires var s := CsvStep(sheet, db0, rows[..index], inputs, dryrun);
      s.escaped.None? && session.db == s.db && Trace(logger.records, logger.Flags(), r0, f0, log + s.log)
    ensures escaped.None? ==> var s := CsvStep(sheet, db0, rows[..index + 1], inputs, dryrun);
      s.escaped.None? && session.db == s.db && Trace(logger.records, logger.Flags(), r0, f0, log + s.log)
    ensures escaped.Some? ==> var s := CsvStep(sheet, db0, rows, inputs, dryrun);
      escaped == s.escaped && session.db == s.db && Trace(logger.records, logger.Flags(), r0, f0, log + s.log)
  {
    ghost var s := CsvStep(sheet, db0, rows[..index], inputs, dryrun);
    ghost var r := CsvRowStep(sheet, session.db, index, rows[index], inputs, dryrun);
    escaped := ImportCsvRow(session, logger, sheet, index, rows[index], inputs, dryrun, r0, f0, log + s.log);
    CsvStepSnoc(sheet, db0, rows, inputs, dryrun, index);
    Regrouped(log, s.log, r.log);
    if escaped.Some? {
      CsvStopsAtEscape(sheet, db0, rows, inputs, dryrun, index + 1);
    }
  }

  /** One more row, after a prefix no exception escaped, is one more row step. */
  lemma CsvStepSnoc(sheet: Sheet, db: Db, rows: seq<Row>, inputs: Inputs, dryrun: bool, i: nat)
    requires IsCsvSheet(sheet) && i < |rows| && CsvStep(sheet, db, rows[..i], inputs, dryrun).escaped.None?
    ensures var s := CsvStep(sheet, db, rows[..i], inputs, dryrun);
      var r := CsvRowStep(sheet, s.db, i, rows[i], inputs, dryrun);
      CsvStep(sheet, db, rows[..i + 1], inputs, dryrun) == Step(r.db, s.log + r.log, r.escaped)
  {
    assert rows[..i + 1][..i] == rows[..i];
  }

  /**
   * `import_summary` and `import_mutation`: the stored tables and latch flags before, the CSV
   * rows already joined to the mapping, and the answer of the schema-revision check. A
   * mismatch answers False before any row is read; otherwise the rows run and the end of the
   * batch decides.
   */
  function UploadOutcome(sheet: Sheet, db: Db, f0: seq<bool>, path: string, rows: seq<Row>, inputs: Inputs,
                         dryrun: bool, revisionOk: bool): Finished
    requires IsCsvSheet(sheet)
  {
    var start := [InfoRecord(Verifying(path))];
    if !revisionOk then Finished(false, db, start)
    else
      var s := CsvStep(sheet, db, rows, inputs, dryrun);
      var fin := Finish(db, s.db, s.escaped, Raise(f0, HasError(start + s.log)), dryrun);
      Finished(fin.ok, fin.db, start + s.log + fin.log)
  }

  method Upload(sheet: Sheet, database: Database, logger: Logger<Event>, path: string, rows: seq<Row>, inputs: Inputs,
                dryrun: bool, revisionOk: bool) returns (ok: bool)
    modifies database, logger, logger.handlers
    requires IsCsvSheet(sheet)
    ensures var out := UploadOutcome(sheet, old(database.db), old(logger.Flags()), path, rows, inputs, dryrun, revisionOk);
      ok == out.ok && database.db == out.db &&
      Trace(logger.records, logger.Flags(), old(logger.records), old(logger.Flags()), out.log)
  {
    ghost var r0 := logger.records;
    ghost var f0 := logger.Flags();
    ghost var db0 := database.db;
    assert Raise(f0, HasError<Event>([])) == f0;
    var start := InfoRecord(Verifying(path));
    Emit(logger, start, r0, f0, []);
    var session := new Session(database);
    if !revisionOk {
      session.Commit();
      return false;
    }
    ghost var s := CsvStep(sheet, db0, rows, inputs, dryrun);
    var escaped := ImportCsvRows(session, logger, sheet, rows, inputs, dryrun, r0, f0, [start]);
    ghost var fin := Finish(db0, s.db, s.escaped, Raise(f0, HasError([start] + s.log)), dryrun);
    ok := Conclude(session, logger, escaped, dryrun, r0, f0, [start] + s.log);
    Regrouped([start], s.log, fin.log);
  }

  method ImportSummary(database: Database, logger: Logger<Event>, summaryCsv: string, rows: seq<Row>, inputs: Inputs,
                       dryrun: bool, revisionOk: bool) returns (ok: bool)
    modifies database, logger, logger.handlers
    ensures var out := UploadOutcome(Summary, old(database.db), old(logger.Flags()), summaryCsv, rows, inputs, dryrun, revisionOk);
      ok == out.ok && database.db == out.db &&
      Trace(logger.records, logger.Flags(), old(logger.records), old(logger.Flags()), out.log)
  {
    ok := Upload(Summary, database, logger, summaryCsv, rows, inputs, dryrun, revisionOk);
  }

  method ImportMutation(database: Database, logger: Logger<Event>, mutationCsv: string, rows: seq<Row>, inputs: Inputs,
                        dryrun: bool, revisionOk: bool) returns (ok: bool)
    modifies database, logger, logger.handlers
    ensures var out := UploadOutcome(Mutation, old(database.db), old(logger.Flags()), mutationCsv, rows, inputs, dryrun, revisionOk);
      ok == out.ok && database.db == out.db &&
      Trace(logger.records, logger.Flags(), old(logger.records), old(logger.Flags()), out.log)
  {
    ok := Upload(Mutation, database, logger, mutationCsv, rows, inputs, dryrun, revisionOk);
  }

  // ---------------------------------------------------------------------------------------
  // What the uploads guarantee
  // ---------------------------------------------------------------------------------------

  /**
   * The outcome of `import_summary` and `import_mutation`. A schema-revision mismatch answers
   * False and writes nothing. Otherwise the batch fails when the latch was already set before
   * it, or, with a handler attached, when a row logged an error or an exception escaped; a
   * failed batch answers False, stores nothing and logs an error, dry run or not. Otherwise a
   * dry run answers True and stores nothing, and a real run answers True and stores the rows.
   */
  lemma UploadOutcomeRule(sheet: Sheet, db: Db, f0: seq<bool>, path: string, rows: seq<Row>, inputs: Inputs,
                          dryrun: bool, revisionOk: bool)
    requires IsCsvSheet(sheet)
    ensures var out := UploadOutcome(sheet, db, f0, path, rows, inputs, dryrun, revisionOk);
      var s := CsvStep(sheet, db, rows, inputs, dryrun);
      var failed := Any(f0) || (|f0| > 0 && (HasError(s.log) || s.escaped.Some?));
      (!revisionOk ==> !out.ok && out.db == db) &&
      (revisionOk ==>
        out.ok == !failed &&
        (failed ==> out.db == db && HasError(out.log)) &&
        (!failed && dryrun ==> out.db == db) &&
        (!failed && !dryrun ==> out.db == s.db))
  {
    if revisionOk {
      var start := [InfoRecord(Verifying(path))];
      var s := CsvStep(sheet, db, rows, inputs, dryrun);
      var fin := Finish(db, s.db, s.escaped, Raise(f0, HasError(start + s.log)), dryrun);
      assert !HasError(start);
      HasErrorAppend(start, s.log);
      FinishOutcome(db, s.db, s.escaped, f0, start + s.log, dryrun);
      HasErrorAppend(start + s.log, fin.log);
    }
  }

  /**
   * A summary row the mapping left without a sample name fails validation: it logs an error
   * and writes nothing, so the batch it is in is rolled back.
   */
  lemma SummaryRowUnmapped(db: Db, index: int, row: Row, inputs: Inputs, dryrun: bool)
    requires "Main Species" in row && (IsNull(row["Main Species"]) || row["Main Species"].Str?)
    requires "sample_name" in row && IsNull(row["sample_name"])
    ensures var s := CsvRowStep(Summary, db, index, row, inputs, dryrun);
      s.db == db && s.escaped.None? && HasError(s.log)
  {
    GpasSummaryUnmapped(row, inputs.env);
    var errors := Validate(GpasSummary(), row, inputs.env).errors;
    FieldErrorLogErrors(Summary, index + 2, errors);
  }

  /** A row whose sample is not in the database is a row error: it logs an error and writes nothing. */
  lemma CsvSampleMissing(sheet: Sheet, db: Db, line: int, rec: Record, inputs: Inputs, dryrun: bool)
    requires IsCsvSheet(sheet) && Get(db.samples, Item(rec, "sample_name")).None?
    ensures var s := CsvUpsert(sheet, db, line, rec, inputs, dryrun);
      s.db == db && s.escaped.None? && HasError(s.log) &&
      s.log == [ErrorRecord(RowFailed(sheet, line, SampleMissing(Item(rec, "sample_name"))))]
  {
    var s := CsvUpsert(sheet, db, line, rec, inputs, dryrun);
    assert s.log[0].levelno == ERROR;
  }

  /**
   * The analysis of a sample and batch: afterwards there is exactly one, an existing one is left
   * as it was and nothing is logged, a new one is created for the GPAS TB assay and its creation
   * logged; no other analysis changes and no error is logged.
   */
  lemma AnalysisStepGet(analyses: Table<AnalysisKey, Value>, key: AnalysisKey, sheet: Sheet, line: int, dryrun: bool)
    requires Unique(analyses)
    ensures var a := AnalysisStep(analyses, key, sheet, line, dryrun);
      Unique(a.analyses) && Tables.Keys(a.analyses) == Tables.Keys(analyses) + {key} && !HasError(a.log) &&
      (Get(analyses, key).Some? ==> a.analyses == analyses && a.log == []) &&
      (Get(analyses, key).None? ==>
        Get(a.analyses, key) == Some(GpasTb) && |a.analyses| == |analyses| + 1 &&
        a.log == [InfoRecord(Upserted(sheet, line, AnalysisNamed(key), false, dryrun))]) &&
      (forall k :: k != key ==> Get(a.analyses, k) == Get(analyses, k))
  {
    GetSomeIffKey(analyses, key);
    if Get(analyses, key).None? {
      PutKeepsUnique(analyses, key, GpasTb);
      forall k ensures Get(Put(analyses, key, GpasTb), k) == if k == key then Some(GpasTb) else Get(analyses, k) {
        PutGet(analyses, key, GpasTb, k);
      }
    }
  }

  /**
   * Speciation: without a species nothing is written. With one, the analysis has exactly one
   * speciation number 1, holding the row's species and sub-species; it also holds the row's
   * run date unless the row has no such column, in which case the attribute error escapes. No
   * other speciation and no other table changes, and no error is logged.
   */
  lemma SpeciationStepGet(db: Db, line: int, key: AnalysisKey, rec: Record, dryrun: bool)
    requires Unique(db.speciations)
    ensures var s := SpeciationStep(db, line, key, rec, dryrun);
      var k := (key, 1);
      s.db == db.(speciations := s.db.speciations) && Unique(s.db.speciations) && !HasError(s.log) &&
      (Item(rec, "species") == Null ==> s.db == db && s.escaped.None?) &&
      (Item(rec, "species") != Null ==>
        Get(s.db.speciations, k).Some? &&
        Get(s.db.speciations, k).value.species == Item(rec, "species") &&
        Get(s.db.speciations, k).value.subSpecies == Item(rec, "sub_species") &&
        ("run_date" in Dump(rec) ==> s.escaped.None? && Get(s.db.speciations, k).value.analysisDate == Item(rec, "run_date")) &&
        ("run_date" !in Dump(rec) ==> s.escaped == Some(AttributeMissing("run_date"))) &&
        (forall k' :: k' != k ==> Get(s.db.speciations, k') == Get(db.speciations, k')))
  {
    var s := SpeciationStep(db, line, key, rec, dryrun);
    assert s.log[0].levelno == INFO;
    if Item(rec, "species") != Null {
      var k := (key, 1);
      var row := Get(s.db.speciations, k);
      var v :| s.db.speciations == Put(db.speciations, k, v);
      PutKeepsUnique(db.speciations, k, v);
      forall k' ensures Get(s.db.speciations, k') == if k' == k then Some(v) else Get(db.speciations, k') {
        PutGet(db.speciations, k, v, k');
      }
    }
  }

  /** A negative index counts from the end of the prediction; an index in range gives that code. */
  lemma SubscriptFromEnd(v: Value, i: int)
    requires v.Str? || v.List?
    requires 0 <= i < (if v.Str? then |v.s| else |v.items|)
    ensures Subscript(v, i - (if v.Str? then |v.s| else |v.items|)) == Subscript(v, i)
    ensures Subscript(v, i) == Ok(if v.Str? then Str([v.s[i]]) else Str(v.items[i]))
  {
  }

  /** Some antibiotic of the drug table has this name. */
  predicate Antibiotic(drugs: seq<(int, string)>, name: string)
  {
    exists j :: 0 <= j < |drugs| && drugs[j].1 == name
  }

  /** No antibiotic appears twice in the drug table. */
  predicate DistinctAntibiotics(drugs: seq<(int, string)>)
  {
    forall i, j :: 0 <= i < j < |drugs| ==> drugs[i].1 != drugs[j].1
  }

  /** The prediction has a code at the position of every antibiotic. */
  predicate Predicts(prediction: Value, drugs: seq<(int, string)>)
  {
    forall j :: 0 <= j < |drugs| ==> Subscript(prediction, drugs[j].0).Ok?
  }

  /**
   * One antibiotic: afterwards the analysis has exactly one row for it, holding its code when
   * the prediction has one; nothing else changes and no error is logged.
   */
  lemma DrugRowGet(t: Table<(AnalysisKey, string), Value>, line: int, key: AnalysisKey, prediction: Value,
                   drug: (int, string), dryrun: bool)
    requires Unique(t)
    ensures var d := DrugRow(t, line, key, prediction, drug, dryrun);
      var k := (key, drug.1);
      Unique(d.drugs) && !HasError(d.log) && Get(d.drugs, k).Some? &&
      (d.escaped.None? <==> Subscript(prediction, drug.0).Ok?) &&
      (d.escaped.None? ==> Get(d.drugs, k) == Some(Subscript(prediction, drug.0).value)) &&
      (forall k' :: k' != k ==> Get(d.drugs, k') == Get(t, k'))
  {
    var k := (key, drug.1);
    var d := DrugRow(t, line, key, prediction, drug, dryrun);
    var created := if Get(t, k).Some? then t else Put(t, k, Null);
    if Get(t, k).None? {
      PutKeepsUnique(t, k, Null);
      forall k' ensures Get(created, k') == if k' == k then Some(Null) else Get(t, k') {
        PutGet(t, k, Null, k');
      }
    }
    if Get(t, k).Some? {
      assert d.log[0].levelno == INFO;
    }
    match Subscript(prediction, drug.0)
    case Err(_) =>
    case Ok(code) =>
      PutKeepsUnique(created, k, code);
      forall k' ensures Get(Put(created, k, code), k') == if k' == k then Some(code) else Get(created, k') {
        PutGet(created, k, code, k');
      }
  }

  /**
   * The drug loop keeps one row per analysis and antibiotic, touches only the rows of this
   * analysis for antibiotics of the table, logs no error, and completes exactly when the
   * prediction has a code for every antibiotic.
   */
  lemma {:induction false} DrugRowsFrame(t: Table<(AnalysisKey, string), Value>, line: int, key: AnalysisKey,
                                         prediction: Value, drugs: seq<(int, string)>, dryrun: bool)
    requires Unique(t)
    ensures var r := DrugRows(t, line, key, prediction, drugs, dryrun);
      Unique(r.drugs) && !HasError(r.log) &&
      (r.escaped.None? <==> Predicts(prediction, drugs)) &&
      (forall k: (AnalysisKey, string) :: (k.0 != key || !Antibiotic(drugs, k.1)) ==> Get(r.drugs, k) == Get(t, k))
  {
    if |drugs| > 0 {
      var init := drugs[..|drugs| - 1];
      var last := drugs[|drugs| - 1];
      DrugRowsFrame(t, line, key, prediction, init, dryrun);
      var r := DrugRows(t, line, key, prediction, init, dryrun);
      forall name | Antibiotic(init, name) ensures Antibiotic(drugs, name) {
        var j :| 0 <= j < |init| && init[j].1 == name;
        assert drugs[j] == init[j];
      }
      if r.escaped.Some? {
        var j :| 0 <= j < |init| && Subscript(prediction, init[j].0).Err?;
        assert drugs[j] == init[j];
      } else {
        DrugRowGet(r.drugs, line, key, prediction, last, dryrun);
        var d := DrugRow(r.drugs, line, key, prediction, last, dryrun);
        HasErrorAppend(r.log, d.log);
        forall k: (AnalysisKey, string) | k.0 != key || !Antibiotic(drugs, k.1) ensures k != (key, last.1) {
          if k.0 == key {
            assert drugs[|drugs| - 1].1 == last.1;
          }
        }
        if Predicts(prediction, drugs) {
          assert Subscript(prediction, drugs[|drugs| - 1].0).Ok?;
        }
        if Predicts(prediction, init) && Subscript(prediction, last.0).Ok? {
          forall j | 0 <= j < |drugs| ensures Subscript(prediction, drugs[j].0).Ok? {
            if j < |drugs| - 1 {
              assert drugs[j] == init[j];
            }
          }
        }
      }
    }
  }

  /**
   * When the loop completes over a table without repeated antibiotics, the analysis has, for
   * every antibiotic, the code at that antibiotic's position in the prediction.
   */
  lemma {:induction false} DrugRowsCodes(t: Table<(AnalysisKey, string), Value>, line: int, key: AnalysisKey,
                                         prediction: Value, drugs: seq<(int, string)>, dryrun: bool)
    requires Unique(t) && DistinctAntibiotics(drugs) && Predicts(prediction, drugs)
    ensures var r := DrugRows(t, line, key, prediction, drugs, dryrun);
      forall j :: 0 <= j < |drugs| ==> Get(r.drugs, (key, drugs[j].1)) == Some(Subscript(prediction, drugs[j].0).value)
  {
    if |drugs| > 0 {
      var init := drugs[..|drugs| - 1];
      var last := drugs[|drugs| - 1];
      assert Predicts(prediction, init) by {
        forall j | 0 <= j < |init| ensures Subscript(prediction, init[j].0).Ok? {
          assert init[j] == drugs[j];
        }
      }
      assert DistinctAntibiotics(init);
      DrugRowsCodes(t, line, key, prediction, init, dryrun);
      DrugRowsFrame(t, line, key, prediction, init, dryrun);
      var r := DrugRows(t, line, key, prediction, init, dryrun);
      DrugRowGet(r.drugs, line, key, prediction, last, dryrun);
      var d := DrugRow(r.drugs, line, key, prediction, last, dryrun);
      forall j | 0 <= j < |drugs| ensures Get(d.drugs, (key, drugs[j].1)) == Some(Subscript(prediction, drugs[j].0).value) {
        if j < |drugs| - 1 {
          assert drugs[j] == init[j];
          assert drugs[j].1 != last.1;
        }
      }
    }
  }

  /**
   * `drugs()`: a row without a prediction column raises and writes nothing; a None prediction
   * writes nothing. Otherwise every antibiotic of the table gets exactly one row for the
   * analysis holding its code, and the step completes, exactly when the prediction has a code
   * at every antibiotic's position; rows of other analyses and other antibiotics stay as they
   * were, no other table changes and no error is logged.
   */
  lemma DrugsStepGet(db: Db, line: int, key: AnalysisKey, rec: Record, drugs: seq<(int, string)>, dryrun: bool)
    requires Unique(db.drugResistances) && DistinctAntibiotics(drugs)
    ensures var s := DrugsStep(db, line, key, rec, drugs, dryrun);
      var p := Item(rec, "resistance_prediction");
      s.db == db.(drugResistances := s.db.drugResistances) && Unique(s.db.drugResistances) && !HasError(s.log) &&
      ("resistance_prediction" !in Dump(rec) ==> s.db == db && s.escaped == Some(AttributeMissing("resistance_prediction"))) &&
      ("resistance_prediction" in Dump(rec) && p == Null ==> s.db == db && s.escaped.None?) &&
      ("resistance_prediction" in Dump(rec) && p != Null ==>
        (s.escaped.None? <==> Predicts(p, drugs)) &&
        (s.escaped.None? ==>
          forall j :: 0 <= j < |drugs| ==> Get(s.db.drugResistances, (key, drugs[j].1)) == Some(Subscript(p, drugs[j].0).value)) &&
        (forall k: (AnalysisKey, string) :: (k.0 != key || !Antibiotic(drugs, k.1)) ==> Get(s.db.drugResistances, k) == Get(db.drugResistances, k)))
  {
    var s := DrugsStep(db, line, key, rec, drugs, dryrun);
    var p := Item(rec, "resistance_prediction");
    if "resistance_prediction" in Dump(rec) {
      if p == Null {
        assert s.log[0].levelno == INFO;
      } else {
        DrugRowsFrame(db.drugResistances, line, key, p, drugs, dryrun);
        var r := DrugRows(db.drugResistances, line, key, p, drugs, dryrun);
        if r.escaped.None? {
          DrugRowsCodes(db.drugResistances, line, key, p, drugs, dryrun);
          var added := [InfoRecord(ResistanceAdded(line, key))];
          assert added[0].levelno == INFO;
          HasErrorAppend(r.log, added);
        }
      }
    }
  }

  /**
   * An empty prediction cell reaches the model as a float NaN, not None: the check for None
   * lets it through, the first antibiotic's subscript raises, and the exception leaves the
   * row loop, so the rest of the batch is not read.
   */
  lemma EmptyPredictionRaises(db: Db, line: int, key: AnalysisKey, rec: Record, drugs: seq<(int, string)>, dryrun: bool)
    requires Attr(rec, "resistance_prediction") == Some(NaN) && |drugs| > 0
    ensures DrugsStep(db, line, key, rec, drugs, dryrun).escaped == Some(NotSubscriptable)
  {
    assert drugs[..1][..0] == [];
    DrugRowsStopAtEscape(db.drugResistances, line, key, NaN, drugs, dryrun, 1);
  }

  /**
   * A mutation row: afterwards the analysis exists and exactly one mutation has the row's
   * analysis, species, drug, gene and mutation, holding the row's seven data values whatever it
   * held before; no other mutation and no table other than analyses and mutations changes.
   */
  lemma MutationSaveGet(db: Db, line: int, rec: Record, dryrun: bool)
    requires Unique(db.analyses) && Unique(db.mutations)
    ensures var s := MutationSave(db, line, rec, dryrun);
      var key := AnalysisKeyOf(rec);
      var k := MutationKeyOf(key, rec);
      s.escaped.None? && !HasError(s.log) &&
      s.db == db.(analyses := s.db.analyses, mutations := s.db.mutations) &&
      Unique(s.db.analyses) && Get(s.db.analyses, key).Some? &&
      Unique(s.db.mutations) && Tables.Keys(s.db.mutations) == Tables.Keys(db.mutations) + {k} &&
      Get(s.db.mutations, k) == Some(MutationDataOf(rec)) &&
      (forall k' :: k' != k ==> Get(s.db.mutations, k') == Get(db.mutations, k'))
  {
    var key := AnalysisKeyOf(rec);
    var k := MutationKeyOf(key, rec);
    var a := AnalysisStep(db.analyses, key, Mutation, line, dryrun);
    AnalysisStepGet(db.analyses, key, Mutation, line, dryrun);
    GetSomeIffKey(a.analyses, key);
    var added := [InfoRecord(Upserted(Mutation, line, MutationNamed(k), Get(db.mutations, k).Some?, dryrun))];
    assert added[0].levelno == INFO;
    HasErrorAppend(a.log, added);
    PutKeepsUnique(db.mutations, k, MutationDataOf(rec));
    forall k' ensures Get(Put(db.mutations, k, MutationDataOf(rec)), k') == if k' == k then Some(MutationDataOf(rec)) else Get(db.mutations, k') {
      PutGet(db.mutations, k, MutationDataOf(rec), k');
    }
  }

  /** Uploading the same mutation row a second time leaves the tables as the first time did. */
  lemma MutationSaveIdempotent(db: Db, line: int, line': int, rec: Record, dryrun: bool, dryrun': bool)
    requires Unique(db.analyses) && Unique(db.mutations)
    ensures var once := MutationSave(db, line, rec, dryrun).db;
      MutationSave(once, line', rec, dryrun').db == once
  {
    MutationSaveGet(db, line, rec, dryrun);
    var once := MutationSave(db, line, rec, dryrun).db;
    var k := MutationKeyOf(AnalysisKeyOf(rec), rec);
    PutSame(once.mutations, k, MutationDataOf(rec));
  }

  // ---------------------------------------------------------------------------------------
  // Uploading the same summary row again
  // ---------------------------------------------------------------------------------------

  /**
   * A speciation that was written completely is written again unchanged: whatever tables
   * surround it, the same row finds its own speciation and overwrites it with the same values.
   */
  lemma SpeciationStepIdempotent(db: Db, other: Db, line: int, line': int, key: AnalysisKey, rec: Record, dryrun: bool, dryrun': bool)
    requires Unique(db.speciations) && SpeciationStep(db, line, key, rec, dryrun).escaped.None?
    requires other.speciations == SpeciationStep(db, line, key, rec, dryrun).db.speciations
    ensures var s := SpeciationStep(other, line', key, rec, dryrun');
      s.db == other && s.escaped.None?
  {
    SpeciationStepGet(db, line, key, rec, dryrun);
    if Item(rec, "species") != Null {
      var k := (key, 1);
      var row := Get(other.speciations, k).value;
      assert row == SpeciationRow(Item(rec, "species"), Item(rec, "sub_species"), Item(rec, "run_date"));
      PutSame(other.speciations, k, row);
    }
  }

  /** Once every antibiotic's row holds its code, the drug loop writes every row back unchanged. */
  lemma {:induction false} DrugRowsFixed(t: Table<(AnalysisKey, string), Value>, line: int, key: AnalysisKey,
                                         prediction: Value, drugs: seq<(int, string)>, dryrun: bool)
    requires Predicts(prediction, drugs)
    requires forall j :: 0 <= j < |drugs| ==> Get(t, (key, drugs[j].1)) == Some(Subscript(prediction, drugs[j].0).value)
    ensures var r := DrugRows(t, line, key, prediction, drugs, dryrun);
      r.drugs == t && r.escaped.None?
  {
    if |drugs| > 0 {
      var init := drugs[..|drugs| - 1];
      var last := drugs[|drugs| - 1];
      forall j | 0 <= j < |init|
        ensures Subscript(prediction, init[j].0).Ok? && Get(t, (key, init[j].1)) == Some(Subscript(prediction, init[j].0).value)
      {
        assert init[j] == drugs[j];
      }
      DrugRowsFixed(t, line, key, prediction, init, dryrun);
      assert Get(t, (key, last.1)) == Some(Subscript(prediction, last.0).value);
      PutSame(t, (key, last.1), Subscript(prediction, last.0).value);
    }
  }

  /** A drug step that completed is repeated without change, whatever tables surround it. */
  lemma DrugsStepIdempotent(db: Db, other: Db, line: int, line': int, key: AnalysisKey, rec: Record,
                            drugs: seq<(int, string)>, dryrun: bool, dryrun': bool)
    requires Unique(db.drugResistances) && DistinctAntibiotics(drugs)
    requires DrugsStep(db, line, key, rec, drugs, dryrun).escaped.None?
    requires other.drugResistances == DrugsStep(db, line, key, rec, drugs, dryrun).db.drugResistances
    ensures var s := DrugsStep(other, line', key, rec, drugs, dryrun');
      s.db == other && s.escaped.None?
  {
    DrugsStepGet(db, line, key, rec, drugs, dryrun);
    var p := Item(rec, "resistance_prediction");
    if p != Null {
      DrugRowsFixed(other.drugResistances, line', key, p, drugs, dryrun');
    }
  }

  /**
   * Uploading a summary row a second time, after it went through completely, leaves the tables
   * exactly as the first upload did: no second analysis, speciation, drug resistance or
   * detail, and no changed value.
   */
  lemma SummarySaveIdempotent(db: Db, line: int, line': int, rec: Record, drugs: seq<(int, string)>, dryrun: bool, dryrun': bool)
    requires ValidDb(db) && DistinctAntibiotics(drugs)
    requires SummarySave(db, line, rec, drugs, dryrun).escaped.None?
    ensures var once := SummarySave(db, line, rec, drugs, dryrun).db;
      var twice := SummarySave(once, line', rec, drugs, dryrun');
      twice.db == once && twice.escaped.None?
  {
    var key := AnalysisKeyOf(rec);
    var a := AnalysisStep(db.analyses, key, Summary, line, dryrun);
    AnalysisStepGet(db.analyses, key, Summary, line, dryrun);
    var d1 := db.(analyses := a.analyses);
    var s := SpeciationStep(d1, line, key, rec, dryrun);
    SpeciationStepGet(d1, line, key, rec, dryrun);
    var d := DrugsStep(s.db, line, key, rec, drugs, dryrun);
    DrugsStepGet(s.db, line, key, rec, drugs, dryrun);
    var once := SummarySave(db, line, rec, drugs, dryrun).db;
    assert once == d.db.(others := SyncDetails(d.db.others, key, d.db.otherTypes, rec));
    GetSomeIffKey(a.analyses, key);
    assert AnalysisStep(once.analyses, key, Summary, line', dryrun').analyses == once.analyses;
    assert once.(analyses := once.analyses) == once;
    SpeciationStepIdempotent(d1, once, line, line', key, rec, dryrun, dryrun');
    DrugsStepIdempotent(s.db, once, line, line', key, rec, drugs, dryrun, dryrun');
    SyncDetailsIdempotent(d.db.others, key, d.db.otherTypes, rec);
  }

  // ---------------------------------------------------------------------------------------
  // The natural keys stay unique
  // ---------------------------------------------------------------------------------------

  /** Every CSV upsert keeps one row per natural key in every table and leaves the catalogs alone. */
  lemma CsvUpsertKeepsValid(sheet: Sheet, db: Db, line: int, rec: Record, inputs: Inputs, dryrun: bool)
    requires IsCsvSheet(sheet) && ValidDb(db)
    ensures ValidDb(CsvUpsert(sheet, db, line, rec, inputs, dryrun).db)
  {
    if Get(db.samples, Item(rec, "sample_name")).Some? {
      var key := AnalysisKeyOf(rec);
      if sheet.Summary? {
        var a := AnalysisStep(db.analyses, key, Summary, line, dryrun);
        AnalysisStepGet(db.analyses, key, Summary, line, dryrun);
        var d1 := db.(analyses := a.analyses);
        var s := SpeciationStep(d1, line, key, rec, dryrun);
        SpeciationStepGet(d1, line, key, rec, dryrun);
        if s.escaped.None? {
          var p := Item(rec, "resistance_prediction");
          if "resistance_prediction" in Dump(rec) && p != Null {
            DrugRowsFrame(s.db.drugResistances, line, key, p, inputs.tbDrugs, dryrun);
          }
          var d := DrugsStep(s.db, line, key, rec, inputs.tbDrugs, dryrun);
          if d.escaped.None? {
            SyncDetailsUnique(d.db.others, key, d.db.otherTypes, rec);
          }
        }
      } else {
        MutationSaveGet(db, line, rec, dryrun);
      }
    }
  }

  lemma CsvRowKeepsValid(sheet: Sheet, db: Db, index: int, row: Row, inputs: Inputs, dryrun: bool)
    requires IsCsvSheet(sheet) && ValidDb(db)
    ensures ValidDb(CsvRowStep(sheet, db, index, row, inputs, dryrun).db)
  {
    match CheckRow(sheet, row, inputs)
    case Raised(_) =>
    case Invalid(_) =>
    case Valid(rec) => CsvUpsertKeepsValid(sheet, db, index + 2, rec, inputs, dryrun);
  }

  lemma {:induction false} CsvKeepsValid(sheet: Sheet, db: Db, rows: seq<Row>, inputs: Inputs, dryrun: bool)
    requires IsCsvSheet(sheet) && ValidDb(db)
    ensures ValidDb(CsvStep(sheet, db, rows, inputs, dryrun).db)
  {
    if |rows| > 0 {
      CsvKeepsValid(sheet, db, rows[..|rows| - 1], inputs, dryrun);
      var s := CsvStep(sheet, db, rows[..|rows| - 1], inputs, dryrun);
      CsvRowKeepsValid(sheet, s.db, |rows| - 1, rows[|rows| - 1], inputs, dryrun);
    }
  }

  /**
   * Whatever the CSV holds and however the batch ends, the stored tables keep one row per
   * natural key: one analysis per sample and batch, one speciation number 1 per analysis, one
   * resistance per analysis and antibiotic, one detail per analysis and code, one mutation per
   * five-part key.
   */
  lemma UploadKeepsValid(sheet: Sheet, db: Db, f0: seq<bool>, path: string, rows: seq<Row>, inputs: Inputs,
                         dryrun: bool, revisionOk: bool)
    requires IsCsvSheet(sheet) && ValidDb(db)
    ensures ValidDb(UploadOutcome(sheet, db, f0, path, rows, inputs, dryrun, revisionOk).db)
  {
    CsvKeepsValid(sheet, db, rows, inputs, dryrun);
  }
}
