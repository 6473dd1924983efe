/**
 * The database the importers reconcile against, as tables keyed by natural key, and the
 * session they work through. A session's queries see its own pending changes (autoflush), a
 * commit makes them the stored state and a rollback discards them.
 */
module Store {
  import opened Outcomes
  import opened Tables
  import opened Models

  /** One value per table the importers read or write; the detail-type catalogs are read only. */
  datatype Db = Db(
    owners: Table<OwnerKey, ()>,
    runs: Table<Value, Cols>,
    specimens: Table<SpecimenKey, SpecimenRow>,
    specimenDetailTypes: seq<DetailType>,
    specimenDetails: Table<(SpecimenKey, string), Cols>,
    samples: Table<Value, SampleRow>,
    sampleDetailTypes: seq<DetailType>,
    sampleDetails: Table<(Value, string), Cols>,
    spikes: Table<(Value, Value), Value>,
    storages: Table<Value, StorageRow>,
    analyses: Table<AnalysisKey, Value>,
    speciations: Table<(AnalysisKey, int), SpeciationRow>,
    otherTypes: seq<DetailType>,
    others: Table<(AnalysisKey, string), Cols>,
    drugResistances: Table<(AnalysisKey, string), Value>,
    mutations: Table<MutationKey, MutationData>)

  /**
   * The unique constraints the models declare: one row per natural key in every table, and
   * one catalog entry per detail code (the code is the catalog's primary key).
   */
  ghost predicate ValidDb(db: Db)
  {
    Unique(db.owners) && Unique(db.runs) && Unique(db.specimens) && Unique(db.specimenDetails) &&
    Unique(db.samples) && Unique(db.sampleDetails) && Unique(db.spikes) && Unique(db.storages) &&
    Unique(db.analyses) && Unique(db.speciations) && Unique(db.others) &&
    Unique(db.drugResistances) && Unique(db.mutations) &&
    DistinctCodes(db.specimenDetailTypes) && DistinctCodes(db.sampleDetailTypes) && DistinctCodes(db.otherTypes)
  }

  /** The stored state of the database. */
  class Database {
    var db: Db

    constructor (db: Db)
      ensures this.db == db
    {
      this.db := db;
    }
  }

  /**
   * A session on a database: `db` is what its queries see, the stored state plus every
   * pending add, change and delete.
   */
  class Session {
    const database: Database
    var db: Db

    /** A new session has nothing pending. */
    constructor (database: Database)
      ensures this.database == database && db == database.db
    {
      this.database := database;
      db := database.db;
    }

    /** Write the pending changes to the database. */
    method Commit()
      modifies database
      ensures database.db == db
    {
      database.db := db;
    }

    /** Discard the pending changes. */
    method Rollback()
      modifies this
      ensures db == database.db
    {
      db := database.db;
    }
  }
}
