/**
 * The ORM entities the importer writes: which attributes each mapped class has, how an entity
 * takes its column values from a validated import record, the Sample nucleic-acid hybrid
 * property, the natural keys the importer looks rows up by, and the catalog-driven detail
 * rows (specimen details, sample details and analysis "others").
 */
module Models {
  import opened Outcomes
  import opened Tables
  import opened Constants
  import opened UploadModels

  /** Column values of one row by attribute name; an attribute never set reads as None. */
  type Cols = map<string, Value>

  function Column(c: Cols, name: string): Value
  {
    if name in c then c[name] else Null
  }

  // ---------------------------------------------------------------------------------------
  // Entities and update_from_importmodel
  // ---------------------------------------------------------------------------------------

  /** The entities an import record is copied into. */
  datatype EntityKind = RunKind | SpecimenKind | SampleKind | StorageKind

  const Audit: set<string> := {"created_by", "created_at", "updated_by", "updated_at"}

  /** The attributes `hasattr` finds on each mapped class: columns, relationships and audit columns. */
  function Attributes(k: EntityKind): set<string>
  {
    match k
    case RunKind =>
      {"id", "code", "run_date", "site", "sequencing_method", "machine", "user", "number_samples",
       "flowcell", "passed_qc", "comment", "samples"} + Audit
    case SpecimenKind =>
      {"id", "owner_id", "accession", "collection_date", "country_sample_taken_code", "specimen_type",
       "specimen_qr_code", "bar_code", "owner", "samples", "storages", "country_sample_taken", "details"} + Audit
    case SampleKind =>
      {"id", "specimen_id", "run_id", "guid", "sample_category", "_nucleic_acid_type", "nucleic_acid_type",
       "run", "specimen", "details", "spikes", "analyses"} + Audit
    case StorageKind =>
      {"id", "specimen_id", "freezer", "shelf", "rack", "tray", "box", "box_location", "storage_qr_code",
       "date_into_storage", "notes", "specimen"} + Audit
  }

  /** The characters of a string, each as a one-character string (Python's `list(s)`). */
  function Chars(s: string): (r: seq<string>)
    ensures |r| == |s| && forall i :: 0 <= i < |s| ==> r[i] == [s[i]]
  {
    if |s| == 0 then [] else Chars(s[..|s| - 1]) + [[s[|s| - 1]]]
  }

  /** The Sample.nucleic_acid_type setter: a list as it is, None as [], another iterable as a list. */
  function NucleicSetter(v: Value): (r: Result<Value, Cause>)
    ensures r.Ok? <==> v.List? || v == Null || v.Str?
    ensures r.Ok? ==> r.value.List?
    ensures v.List? ==> r == Ok(v)
    ensures v == Null ==> r == Ok(List([]))
    ensures v.Str? ==> r.Ok? && |r.value.items| == |v.s|
  {
    match v
    case List(_) => Ok(v)
    case Null => Ok(List([]))
    case Str(s) => Ok(List(Chars(s)))
    case _ => Err(NotIterable)
  }

  /** The `@validates` hook on Sample: a list with its duplicates removed; anything else is refused. */
  function ValidateNucleicAcidType(v: Value): (r: Result<Value, Cause>)
    ensures r.Ok? <==> v.List?
    ensures r.Ok? ==> r.value.List? && Distinct(r.value.items)
  {
    if v.List? then Ok(List(Dedup(v.items))) else Err(NotAList)
  }

  /** The hook keeps every member of the list, and adds none. */
  lemma ValidateNucleicMembers(v: Value)
    requires v.List?
    ensures forall x :: x in ValidateNucleicAcidType(v).value.items <==> x in v.items
  {
    DedupMembers(v.items);
  }

  /** `setattr(entity, key, v)`: the nucleic hybrid goes through its setter, any other key is stored. */
  function Assign(k: EntityKind, c: Cols, key: string, v: Value): Result<Cols, Cause>
  {
    if k == SampleKind && key == "nucleic_acid_type" then
      (match NucleicSetter(v)
       case Ok(w) => Ok(c[key := w])
       case Err(e) => Err(e))
    else Ok(c[key := v])
  }

  /**
   * `update_from_importmodel` over the first fields of the record: each field the entity has an
   * attribute for is assigned the record's value; the first failing assignment stops the copy.
   */
  function Copied(k: EntityKind, c: Cols, names: seq<string>, rec: Record): Result<Cols, Cause>
  {
    if |names| == 0 then Ok(c)
    else
      match Copied(k, c, names[..|names| - 1], rec)
      case Err(e) => Err(e)
      case Ok(c') =>
        var n := names[|names| - 1];
        if n in Attributes(k) then Assign(k, c', n, Item(rec, n)) else Ok(c')
  }

  /** What a copy leaves in a column: the last shared field's value, or the column as it was. */
  function CopiedColumn(k: EntityKind, c: Cols, names: seq<string>, rec: Record, a: string): Value
  {
    if a in names && a in Attributes(k) then Item(rec, a) else Column(c, a)
  }

  /**
   * Copying into an entity without a setter never fails, and afterwards every attribute the
   * record shares with the entity holds the record's value while every other column is as it was.
   */
  lemma {:induction false} CopiedPlain(k: EntityKind, c: Cols, names: seq<string>, rec: Record)
    requires k != SampleKind || "nucleic_acid_type" !in names
    ensures Copied(k, c, names, rec).Ok?
    ensures forall a :: Column(Copied(k, c, names, rec).value, a) == CopiedColumn(k, c, names, rec, a)
  {
    if |names| > 0 {
      var init := names[..|names| - 1];
      var n := names[|names| - 1];
      assert names == init + [n];
      CopiedPlain(k, c, init, rec);
      var c' := Copied(k, c, init, rec).value;
      forall a ensures Column(Copied(k, c, names, rec).value, a) == CopiedColumn(k, c, names, rec, a) {
        if a != n {
          assert Column(Copied(k, c, names, rec).value, a) == Column(c', a);
        }
      }
    }
  }

  /**
   * Copying a validated sample record: its nucleic acid types (a list, or None) are stored as a
   * list, [] for None, and every other shared attribute holds the record's value.
   */
  lemma {:induction false} CopiedSample(c: Cols, names: seq<string>, rec: Record)
    requires var v := Item(rec, "nucleic_acid_type"); v.List? || v == Null
    ensures Copied(SampleKind, c, names, rec).Ok?
    ensures forall a :: a != "nucleic_acid_type" ==>
      Column(Copied(SampleKind, c, names, rec).value, a) == CopiedColumn(SampleKind, c, names, rec, a)
    ensures "nucleic_acid_type" in names ==>
      Column(Copied(SampleKind, c, names, rec).value, "nucleic_acid_type") ==
      NucleicSetter(Item(rec, "nucleic_acid_type")).value
  {
    if |names| > 0 {
      var init := names[..|names| - 1];
      var n := names[|names| - 1];
      assert names == init + [n];
      CopiedSample(c, init, rec);
      var c' := Copied(SampleKind, c, init, rec).value;
      forall a | a != "nucleic_acid_type"
        ensures Column(Copied(SampleKind, c, names, rec).value, a) == CopiedColumn(SampleKind, c, names, rec, a)
      {
        if a != n {
          assert Column(Copied(SampleKind, c, names, rec).value, a) == Column(c', a);
        }
      }
    }
  }

  /**
   * A mapped object: its kind and its column values. `GetItem` and `SetItem` are the
   * subscript operators every entity inherits; `UpdateFromImportModel` copies a record in.
   */
  class Entity {
    const kind: EntityKind
    var cols: Cols

    constructor (kind: EntityKind, cols: Cols)
      ensures this.kind == kind && this.cols == cols
    {
      this.kind := kind;
      this.cols := cols;
    }

    function GetItem(key: string): Value
      reads this
    {
      Column(cols, key)
    }

    method SetItem(key: string, v: Value) returns (raised: Option<Cause>)
      modifies this
      ensures Assign(kind, old(cols), key, v).Ok? ==> raised == None && cols == Assign(kind, old(cols), key, v).value
      ensures Assign(kind, old(cols), key, v).Err? ==> raised == Some(Assign(kind, old(cols), key, v).error) && cols == old(cols)
    {
      if kind == SampleKind && key == "nucleic_acid_type" {
        var w := NucleicSetter(v);
        if w.Err? {
          return Some(w.error);
        }
        cols := cols[key := w.value];
      } else {
        cols := cols[key := v];
      }
      raised := None;
    }

    method UpdateFromImportModel(rec: Record) returns (raised: Option<Cause>)
      modifies this
      ensures Copied(kind, old(cols), rec.names, rec).Ok? ==>
        raised == None && cols == Copied(kind, old(cols), rec.names, rec).value
      ensures Copied(kind, old(cols), rec.names, rec).Err? ==>
        raised == Some(Copied(kind, old(cols), rec.names, rec).error)
    {
      ghost var c0 := cols;
      var i := 0;
      while i < |rec.names|
        invariant 0 <= i <= |rec.names|
        invariant Copied(kind, c0, rec.names[..i], rec) == Ok(cols)
      {
        var n := rec.names[i];
        CopiedSnoc(kind, c0, rec.names, rec, i);
        if n in Attributes(kind) {
          raised := SetItem(n, Item(rec, n));
          if raised.Some? {
            CopiedStopsAtError(kind, c0, rec.names, rec, i + 1);
            return;
          }
        }
        i := i + 1;
      }
      assert rec.names[..i] == rec.names;
      raised := None;
    }
  }

  /** One more field, after a prefix that copied, is one more assignment when the entity has that attribute. */
  lemma CopiedSnoc(k: EntityKind, c: Cols, names: seq<string>, rec: Record, i: nat)
    requires i < |names| && Copied(k, c, names[..i], rec).Ok?
    ensures var c' := Copied(k, c, names[..i], rec).value;
      Copied(k, c, names[..i + 1], rec) ==
        if names[i] in Attributes(k) then Assign(k, c', names[i], Item(rec, names[i])) else Ok(c')
  {
    assert names[..i + 1][..i] == names[..i];
  }

  /** Once a copy has failed, copying further fields keeps the same failure. */
  lemma {:induction false} CopiedStopsAtError(k: EntityKind, c: Cols, names: seq<string>, rec: Record, n: nat)
    requires n <= |names| && Copied(k, c, names[..n], rec).Err?
    ensures Copied(k, c, names, rec) == Copied(k, c, names[..n], rec)
    decreases |names| - n
  {
    if n < |names| {
      assert names[..n + 1][..n] == names[..n];
      CopiedStopsAtError(k, c, names, rec, n + 1);
    } else {
      assert names[..n] == names;
    }
  }

  /** After a successful copy, every attribute the record shares (other than the hybrid) holds the record's value. */
  lemma {:induction false} CopiedHas(k: EntityKind, c: Cols, names: seq<string>, rec: Record, a: string)
    requires Copied(k, c, names, rec).Ok?
    requires a in names && a in Attributes(k) && (k != SampleKind || a != "nucleic_acid_type")
    ensures a in Copied(k, c, names, rec).value && Copied(k, c, names, rec).value[a] == Item(rec, a)
  {
    var init := names[..|names| - 1];
    var n := names[|names| - 1];
    if n != a {
      assert a in init;
      CopiedHas(k, c, init, rec, a);
    }
  }

  /**
   * Copying the same record again into what a copy produced changes nothing: the second
   * `update_from_importmodel` of a re-imported row finds every column already set.
   */
  lemma CopiedIdempotent(k: EntityKind, c: Cols, names: seq<string>, rec: Record)
    requires k != SampleKind || "nucleic_acid_type" !in names
    ensures Copied(k, c, names, rec).Ok?
    ensures Copied(k, Copied(k, c, names, rec).value, names, rec) == Copied(k, c, names, rec)
  {
    CopiedPlain(k, c, names, rec);
    CopiedFixed(k, c, names, rec, |names|);
    assert names[..|names|] == names;
  }

  lemma {:induction false} CopiedFixed(k: EntityKind, c: Cols, names: seq<string>, rec: Record, n: nat)
    requires k != SampleKind || "nucleic_acid_type" !in names
    requires n <= |names| && Copied(k, c, names, rec).Ok?
    ensures Copied(k, Copied(k, c, names, rec).value, names[..n], rec) == Copied(k, c, names, rec)
  {
    var u := Copied(k, c, names, rec).value;
    if n > 0 {
      CopiedFixed(k, c, names, rec, n - 1);
      assert names[..n][..n - 1] == names[..n - 1];
      var m := names[n - 1];
      if m in Attributes(k) {
        CopiedHas(k, c, names, rec, m);
        assert u[m := Item(rec, m)] == u;
      }
    }
  }

  // ---------------------------------------------------------------------------------------
  // Natural keys and rows
  // ---------------------------------------------------------------------------------------

  datatype OwnerKey = OwnerKey(site: Value, user: Value)
  datatype SpecimenKey = SpecimenKey(accession: Value, collectionDate: Value)
  datatype AnalysisKey = AnalysisKey(sample: Value, batch: Value)
  datatype MutationKey = MutationKey(analysis: AnalysisKey, species: Value, drug: Value, gene: Value, mutation: Value)

  datatype SpecimenRow = SpecimenRow(owner: OwnerKey, cols: Cols)
  datatype SampleRow = SampleRow(run: Value, specimen: SpecimenKey, cols: Cols)
  datatype StorageRow = StorageRow(specimen: SpecimenKey, cols: Cols)
  datatype SpeciationRow = SpeciationRow(species: Value, subSpecies: Value, analysisDate: Value)

  /** The seven columns a mutation row overwrites. */
  datatype MutationData = MutationData(
    position: Value, ref: Value, alt: Value, coverage: Value,
    prediction: Value, evidence: Value, evidenceJson: Value)

  // ---------------------------------------------------------------------------------------
  // Catalog-driven details
  // ---------------------------------------------------------------------------------------

  /** A row of a detail-type catalog: a code (the column to read) and the type of its value. */
  datatype DetailType = DetailType(code: string, valueType: ValueType)

  /** The detail column a value of this type is written to. */
  function ValueColumn(t: ValueType): (c: string)
    ensures c == "value_" + ValueTypeName(t)
  {
    "value_" + ValueTypeName(t)
  }

  predicate DistinctCodes(types: seq<DetailType>)
  {
    forall i, j :: 0 <= i < j < |types| ==> types[i].code != types[j].code
  }

  /** The catalog entry with this code, if any. */
  function TypeOf(types: seq<DetailType>, code: string): (r: Option<DetailType>)
    ensures r.Some? ==> r.value in types && r.value.code == code
    ensures r.None? ==> forall i :: 0 <= i < |types| ==> types[i].code != code
  {
    if |types| == 0 then None
    else if types[|types| - 1].code == code then Some(types[|types| - 1])
    else TypeOf(types[..|types| - 1], code)
  }

  /** One catalog entry applied to one detail row: None deletes it, a value sets its typed column. */
  function Synced(before: Option<Cols>, dt: DetailType, v: Value): Option<Cols>
  {
    if v == Null then None
    else Some((if before.Some? then before.value else map[])[ValueColumn(dt.valueType) := v])
  }

  function SyncDetail<P(==)>(t: Table<(P, string), Cols>, parent: P, dt: DetailType, v: Value): Table<(P, string), Cols>
  {
    var key := (parent, dt.code);
    if v == Null then Remove(t, key) else Put(t, key, Synced(Get(t, key), dt, v).value)
  }

  /** The detail loop: every catalog entry in catalog order, reading its code from the record. */
  function SyncDetails<P(==)>(t: Table<(P, string), Cols>, parent: P, types: seq<DetailType>, rec: Record): Table<(P, string), Cols>
  {
    if |types| == 0 then t
    else
      var dt := types[|types| - 1];
      SyncDetail(SyncDetails(t, parent, types[..|types| - 1], rec), parent, dt, Item(rec, dt.code))
  }

  /** The detail loop keeps the natural key (parent, code) unique. */
  lemma {:induction false} SyncDetailsUnique<P>(t: Table<(P, string), Cols>, parent: P, types: seq<DetailType>, rec: Record)
    requires Unique(t)
    ensures Unique(SyncDetails(t, parent, types, rec))
  {
    if |types| > 0 {
      var dt := types[|types| - 1];
      var u := SyncDetails(t, parent, types[..|types| - 1], rec);
      SyncDetailsUnique(t, parent, types[..|types| - 1], rec);
      if Item(rec, dt.code) == Null {
        RemoveKeepsUnique(u, (parent, dt.code));
      } else {
        PutKeepsUnique(u, (parent, dt.code), Synced(Get(u, (parent, dt.code)), dt, Item(rec, dt.code)).value);
      }
    }
  }

  /**
   * After the detail loop, the parent has a detail for a catalog code exactly when the record's
   * value for that code is not None, and it holds the value in the column its type names;
   * details of other parents and of codes outside the catalog are untouched.
   */
  lemma {:induction false} SyncDetailsGet<P>(t: Table<(P, string), Cols>, parent: P, types: seq<DetailType>, rec: Record, k: (P, string))
    requires Unique(t) && DistinctCodes(types)
    ensures Get(SyncDetails(t, parent, types, rec), k) ==
      if k.0 == parent && TypeOf(types, k.1).Some?
      then Synced(Get(t, k), TypeOf(types, k.1).value, Item(rec, k.1))
      else Get(t, k)
  {
    if |types| > 0 {
      var init := types[..|types| - 1];
      var dt := types[|types| - 1];
      var key := (parent, dt.code);
      var u := SyncDetails(t, parent, init, rec);
      assert DistinctCodes(init);
      SyncDetailsGet(t, parent, init, rec, k);
      SyncDetailsUnique(t, parent, init, rec);
      if Item(rec, dt.code) == Null {
        RemoveGet(u, key, k);
      } else {
        PutGet(u, key, Synced(Get(u, key), dt, Item(rec, dt.code)).value, k);
      }
      if k == key {
        SyncDetailsGet(t, parent, init, rec, key);
        assert TypeOf(init, dt.code).None?;
      }
    }
  }

  /**
   * The detail loop as written (lines 166 and 276 of the excel importer): `import[code]` goes
   * through `__getitem__`, which sees the declared fields only.
   */
  function SyncDetailsAsWritten<P(==)>(t: Table<(P, string), Cols>, parent: P, types: seq<DetailType>, rec: Record): Table<(P, string), Cols>
  {
    SyncDetails(t, parent, types, Declared(rec))
  }

  /**
   * As written, a catalog code the import model does not declare never has a detail after the
   * loop, so a detail kept in an extra column is deleted; the corrected loop stores it.
   */
  lemma DetailsAsWrittenDropExtras<P>(t: Table<(P, string), Cols>, parent: P, types: seq<DetailType>, rec: Record, code: string)
    requires Unique(t) && DistinctCodes(types) && TypeOf(types, code).Some? && code !in rec.fields
    ensures Get(SyncDetailsAsWritten(t, parent, types, rec), (parent, code)).None?
    ensures code in rec.extra && rec.extra[code] != Null ==>
      Get(SyncDetails(t, parent, types, rec), (parent, code)) ==
        Synced(Get(t, (parent, code)), TypeOf(types, code).value, rec.extra[code]) &&
      Get(SyncDetails(t, parent, types, rec), (parent, code)).Some?
  {
    SyncDetailsGet(t, parent, types, Declared(rec), (parent, code));
    DeclaredReadsAsWritten(rec, code);
    SyncDetailsGet(t, parent, types, rec, (parent, code));
  }

  /** Running the detail loop a second time with the same record changes nothing. */
  lemma SyncDetailsIdempotent<P>(t: Table<(P, string), Cols>, parent: P, types: seq<DetailType>, rec: Record)
    requires Unique(t) && DistinctCodes(types)
    ensures SyncDetails(SyncDetails(t, parent, types, rec), parent, types, rec) == SyncDetails(t, parent, types, rec)
  {
    var u := SyncDetails(t, parent, types, rec);
    SyncDetailsUnique(t, parent, types, rec);
    SyncDetailsFixed(u, t, parent, types, rec, |types|);
    assert types[..|types|] == types;
  }

  lemma {:induction false} SyncDetailsFixed<P>(u: Table<(P, string), Cols>, t: Table<(P, string), Cols>, parent: P, types: seq<DetailType>, rec: Record, n: nat)
    requires Unique(t) && DistinctCodes(types) && n <= |types|
    requires u == SyncDetails(t, parent, types, rec)
    ensures SyncDetails(u, parent, types[..n], rec) == u
  {
    if n > 0 {
      SyncDetailsFixed(u, t, parent, types, rec, n - 1);
      assert types[..n][..n - 1] == types[..n - 1];
      var dt := types[n - 1];
      SyncDetailsGet(t, parent, types, rec, (parent, dt.code));
      TypeOfDistinct(types, n - 1);
      SyncDetailSame(u, parent, dt, Item(rec, dt.code), Get(t, (parent, dt.code)));
    }
  }

  /** A detail row that already holds what a catalog entry would write is left as it is. */
  lemma SyncDetailSame<P>(u: Table<(P, string), Cols>, parent: P, dt: DetailType, v: Value, before: Option<Cols>)
    requires Get(u, (parent, dt.code)) == Synced(before, dt, v)
    ensures SyncDetail(u, parent, dt, v) == u
  {
    var key := (parent, dt.code);
    if v == Null {
      RemoveAbsent(u, key);
    } else {
      var c := Get(u, key).value;
      assert c[ValueColumn(dt.valueType) := v] == c;
      PutSame(u, key, c);
    }
  }

  lemma {:induction false} TypeOfDistinct(types: seq<DetailType>, i: nat)
    requires DistinctCodes(types) && i < |types|
    ensures TypeOf(types, types[i].code) == Some(types[i])
  {
    if i < |types| - 1 {
      TypeOfDistinct(types[..|types| - 1], i);
    }
  }

  /** The detail loop as it runs: catalog entries one at a time, each looked up, then deleted or written. */
  method SyncDetailTable<P(==)>(t: Table<(P, string), Cols>, parent: P, types: seq<DetailType>, rec: Record)
    returns (r: Table<(P, string), Cols>)
    ensures r == SyncDetails(t, parent, types, rec)
  {
    r := t;
    var i := 0;
    while i < |types|
      invariant 0 <= i <= |types|
      invariant r == SyncDetails(t, parent, types[..i], rec)
    {
      var dt := types[i];
      var value := Item(rec, dt.code);
      var key := (parent, dt.code);
      var existing := First(r, key);
      assert types[..i + 1][..i] == types[..i];
      if value == Null {
        if existing.Some? {
          r := Remove(r, key);
        } else {
          RemoveAbsent(r, key);
        }
      } else {
        var c: Cols := if existing.Some? then existing.value else map[];
        r := Put(r, key, c[ValueColumn(dt.valueType) := value]);
      }
      i := i + 1;
    }
    assert types[..i] == types;
  }
}
