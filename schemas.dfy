/**
 * The five import models of the uploader: the runs, specimens, samples and storage sheets,
 * and the GPAS summary file, each as a schema, and what a valid record of each guarantees.
 */
module Schemas {
  import opened Outcomes
  import opened Constants
  import opened UploadModels

  function RunImport(): Schema
  {
    Schema([
      Field("code", None, ExcelStr(Some(20)), false),
      Field("run_date", None, ExcelDate, false),
      Field("site", None, ExcelStr(Some(20)), false),
      Field("sequencing_method", None, Choice(SequencingMethods), false),
      Field("machine", None, ExcelStr(Some(20)), false),
      Field("user", None, NoneOrNan(ExcelStr(Some(5))), true),
      Field("number_samples", None, NoneOrNan(PositiveInt), true),
      Field("flowcell", None, NoneOrNan(ExcelStr(Some(20))), true),
      Field("passed_qc", None, NoneOrNan(Boolean), true),
      Field("comment", None, NoneOrNan(ExcelStr(None)), true)
    ], false, NoBefore)
  }

  function SpecimensImport(): Schema
  {
    Schema([
      Field("owner_site", None, ExcelStr(Some(50)), false),
      Field("owner_user", None, ExcelStr(Some(50)), false),
      Field("accession", None, ExcelStr(Some(20)), false),
      Field("collection_date", None, ExcelDate, false),
      Field("country_sample_taken_code", None, CountryCode, false),
      Field("specimen_type", None, NoneOrNan(ExcelStr(Some(50))), true),
      Field("specimen_qr_code", None, NoneOrNan(ExcelStr(None)), true),
      Field("bar_code", None, NoneOrNan(ExcelStr(None)), true),
      Field("organism", None, NoneOrNan(ExcelStr(Some(50))), true),
      Field("host", None, NoneOrNan(ExcelStr(Some(50))), true),
      Field("host_diseases", None, NoneOrNan(ExcelStr(Some(50))), true),
      Field("isolation_source", None, NoneOrNan(ExcelStr(Some(50))), true),
      Field("lat", None, NoneOrNan(Real), true),
      Field("lon", None, NoneOrNan(Real), true)
    ], true, NoBefore)
  }

  function SamplesImport(): Schema
  {
    Schema([
      Field("run_code", None, ExcelStr(Some(20)), false),
      Field("accession", None, ExcelStr(Some(20)), false),
      Field("collection_date", None, ExcelDate, false),
      Field("guid", None, ExcelStr(Some(64)), false),
      Field("sample_category", None, NoneOrNan(Choice(SampleCategories)), true),
      Field("nucleic_acid_type", None, NoneOrNan(NucleicList), true),
      Field("dilution_post_initial_concentration", None, NoneOrNan(Boolean), true),
      Field("extraction_date", None, OptionalExcelDate, true),
      Field("extraction_method", None, NoneOrNan(ExcelStr(Some(50))), true),
      Field("extraction_protocol", None, NoneOrNan(ExcelStr(Some(50))), true),
      Field("extraction_user", None, NoneOrNan(ExcelStr(Some(50))), true),
      Field("illumina_index", None, NoneOrNan(ExcelStr(Some(50))), true),
      Field("input_volume", None, NoneOrNan(Real), true),
      Field("library_pool_concentration", None, NoneOrNan(Real), true),
      Field("ont_barcode", None, NoneOrNan(ExcelStr(Some(50))), true),
      Field("dna_amplification", None, NoneOrNan(Boolean), true),
      Field("pre_sequence_concentration", None, NoneOrNan(Real), true),
      Field("prep_kit", None, NoneOrNan(ExcelStr(Some(50))), true),
      Field("comment", None, NoneOrNan(ExcelStr(None)), true)
    ], true, SplitNucleicAcidType)
  }

  function StoragesImport(): Schema
  {
    Schema([
      Field("accession", None, PlainStr(0, Some(20)), false),
      Field("collection_date", None, ExcelDate, false),
      Field("freezer", None, ExcelStr(Some(50)), false),
      Field("shelf", None, ExcelStr(Some(50)), false),
      Field("rack", None, ExcelStr(Some(50)), false),
      Field("tray", None, ExcelStr(Some(50)), false),
      Field("box", None, ExcelStr(Some(50)), false),
      Field("box_location", None, ExcelStr(Some(50)), false),
      Field("storage_qr_code", None, ExcelStr(None), false),
      Field("date_into_storage", None, ExcelDate, false),
      Field("notes", None, NoneOrNan(ExcelStr(None)), true)
    ], false, NoBefore)
  }

  function GpasSummary(): Schema
  {
    Schema([
      Field("sample_name", None, SampleName, false),
      Field("batch", Some("Batch"), ExcelStr(Some(20)), false),
      Field("main_species", Some("Main Species"), ExcelStr(Some(50)), false),
      Field("species", None, Optional(PlainStr(0, None)), false),
      Field("sub_species", None, Optional(PlainStr(0, None)), false)
    ], true, SplitSpecies)
  }

  // ---------------------------------------------------------------------------------------
  // What a valid record guarantees
  // ---------------------------------------------------------------------------------------

  /** No two fields of the run model share a name. */
  lemma RunNamesDistinct()
    ensures forall i :: 0 <= i < |RunImport().fields| ==> LastOfName(RunImport().fields, i)
  {
  }

  /** No two fields of the specimen model share a name. */
  lemma SpecimenNamesDistinct()
    ensures forall i :: 0 <= i < |SpecimensImport().fields| ==> LastOfName(SpecimensImport().fields, i)
  {
  }

  /** No two fields of the sample model share a name. */
  lemma SampleNamesDistinct()
    ensures forall i :: 0 <= i < |SamplesImport().fields| ==> LastOfName(SamplesImport().fields, i)
  {
  }

  /**
   * A valid run row has a trimmed code of at most 20 characters, a date, a known sequencing
   * method, a user of at most 5 characters or None, and a positive sample count or None.
   */
  ghost predicate RunBounds(f: map<string, Value>)
  {
    "code" in f && "run_date" in f && "sequencing_method" in f && "user" in f && "number_samples" in f &&
      f["code"].Str? && Trimmed(f["code"].s) && |f["code"].s| <= 20 &&
      f["run_date"].Day? &&
      f["sequencing_method"].Str? && f["sequencing_method"].s in SequencingMethods &&
      (f["user"] == Null || (f["user"].Str? && |f["user"].s| <= 5)) &&
      (f["number_samples"] == Null || (f["number_samples"].Int? && f["number_samples"].i > 0))
  }

  /** A record mapping in which the code, date, method, user and sample count fields hold meets the run bounds. */
  lemma RunBoundsOf(f: map<string, Value>, env: Env)
    requires FieldHolds(Field("code", None, ExcelStr(Some(20)), false), f, env)
    requires FieldHolds(Field("run_date", None, ExcelDate, false), f, env)
    requires FieldHolds(Field("sequencing_method", None, Choice(SequencingMethods), false), f, env)
    requires FieldHolds(Field("user", None, NoneOrNan(ExcelStr(Some(5))), true), f, env)
    requires FieldHolds(Field("number_samples", None, NoneOrNan(PositiveInt), true), f, env)
    ensures RunBounds(f)
  {
    var w := f["user"];
    assert w == Null || Conforms(NoneOrNan(ExcelStr(Some(5))), w, env);
    var n := f["number_samples"];
    assert n == Null || Conforms(NoneOrNan(PositiveInt), n, env);
  }

  lemma RunImportBounds(row: Row, env: Env)
    requires Validate(RunImport(), row, env).Valid?
    ensures RunBounds(Validate(RunImport(), row, env).rec.fields)
  {
    var fs := RunImport().fields;
    var f := Validate(RunImport(), row, env).rec.fields;
    RunNamesDistinct();
    ValidField(RunImport(), row, env, 0);
    ValidField(RunImport(), row, env, 1);
    ValidField(RunImport(), row, env, 3);
    ValidField(RunImport(), row, env, 5);
    ValidField(RunImport(), row, env, 6);
    RunBoundsOf(f, env);
  }

  /** A valid specimen row names a country by a three-letter code that ISO 3166 knows. */
  ghost predicate SpecimenBounds(f: map<string, Value>, countries: set<string>)
  {
    "country_sample_taken_code" in f && "accession" in f && "collection_date" in f &&
      f["country_sample_taken_code"].Str? && |f["country_sample_taken_code"].s| == 3 &&
      f["country_sample_taken_code"].s in countries &&
      f["accession"].Str? && |f["accession"].s| <= 20 && f["collection_date"].Day?
  }

  /** A record mapping in which the accession, date and country fields hold meets the specimen bounds. */
  lemma SpecimenBoundsOf(f: map<string, Value>, env: Env)
    requires FieldHolds(Field("accession", None, ExcelStr(Some(20)), false), f, env)
    requires FieldHolds(Field("collection_date", None, ExcelDate, false), f, env)
    requires FieldHolds(Field("country_sample_taken_code", None, CountryCode, false), f, env)
    ensures SpecimenBounds(f, env.countries)
  {
  }

  lemma SpecimensImportCountry(row: Row, env: Env)
    requires Validate(SpecimensImport(), row, env).Valid?
    ensures SpecimenBounds(Validate(SpecimensImport(), row, env).rec.fields, env.countries)
  {
    var fs := SpecimensImport().fields;
    var f := Validate(SpecimensImport(), row, env).rec.fields;
    SpecimenNamesDistinct();
    ValidField(SpecimensImport(), row, env, 2);
    ValidField(SpecimensImport(), row, env, 3);
    ValidField(SpecimensImport(), row, env, 4);
    SpecimenBoundsOf(f, env);
  }

  /**
   * A valid sample row has a guid of at most 64 characters, and its nucleic acid types, when
   * present, are distinct members of the vocabulary.
   */
  ghost predicate SampleBounds(f: map<string, Value>)
  {
    "guid" in f && "nucleic_acid_type" in f &&
      f["guid"].Str? && |f["guid"].s| <= 64 &&
      (f["nucleic_acid_type"] == Null ||
       (f["nucleic_acid_type"].List? && Distinct(f["nucleic_acid_type"].items) &&
        forall i :: 0 <= i < |f["nucleic_acid_type"].items| ==> f["nucleic_acid_type"].items[i] in NucleicAcidTypes))
  }

  /** A record mapping in which the guid and nucleic acid type fields hold meets the sample bounds. */
  lemma SampleBoundsOf(f: map<string, Value>, env: Env)
    requires FieldHolds(Field("guid", None, ExcelStr(Some(64)), false), f, env)
    requires FieldHolds(Field("nucleic_acid_type", None, NoneOrNan(NucleicList), true), f, env)
    requires f["nucleic_acid_type"].List? ==> Distinct(f["nucleic_acid_type"].items)
    ensures SampleBounds(f)
  {
    var w := f["nucleic_acid_type"];
    assert w == Null || Conforms(NoneOrNan(NucleicList), w, env);
  }

  lemma SamplesImportBounds(row: Row, env: Env)
    requires Validate(SamplesImport(), row, env).Valid?
    ensures SampleBounds(Validate(SamplesImport(), row, env).rec.fields)
  {
    var fs := SamplesImport().fields;
    var f := Validate(SamplesImport(), row, env).rec.fields;
    SampleNamesDistinct();
    ValidField(SamplesImport(), row, env, 3);
    ValidField(SamplesImport(), row, env, 5);
    SampleNucleicDistinct(row, env);
    SampleBoundsOf(f, env);
  }

  /** The nucleic acid types a valid sample row holds are the distinct tokens of its cell. */
  lemma SampleNucleicDistinct(row: Row, env: Env)
    requires Validate(SamplesImport(), row, env).Valid?
    ensures var f := Validate(SamplesImport(), row, env).rec.fields;
      "nucleic_acid_type" in f && (f["nucleic_acid_type"].List? ==> Distinct(f["nucleic_acid_type"].items))
  {
    assert SamplesImport().fields[5] == Field("nucleic_acid_type", None, NoneOrNan(NucleicList), true);
    SampleNamesDistinct();
    ValidFieldIs(SamplesImport(), row, env, 5);
    NucleicFieldDistinct(row, env, Validate(SamplesImport(), row, env).rec.fields["nucleic_acid_type"]);
  }

  /** A summary row whose sample name the mapping could not resolve is rejected. */
  lemma GpasSummaryUnmapped(row: Row, env: Env)
    requires "Main Species" in row && (IsNull(row["Main Species"]) || row["Main Species"].Str?)
    requires "sample_name" in row && IsNull(row["sample_name"])
    ensures Validate(GpasSummary(), row, env).Invalid?
    ensures FieldError("sample_name", SampleNameNotMapped) in Validate(GpasSummary(), row, env).errors
  {
    var values := SplitSpeciesOf(row).values;
    assert Prepare(GpasSummary().before, row) == Passed(values);
    var fs := GpasSummary().fields;
    assert values["sample_name"] == row["sample_name"];
    assert CheckField(fs[0], values, env) == Err(SampleNameNotMapped);
    assert fs[..1][..0] == [];
    assert CheckFields(fs[..1], values, env).errors == [FieldError("sample_name", SampleNameNotMapped)];
    CheckFieldsGrow(fs, 1, values, env);
    var e := CheckFields(fs, values, env).errors;
    assert e[0] == FieldError("sample_name", SampleNameNotMapped);
  }
}
