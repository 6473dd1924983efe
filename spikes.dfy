/**
 * The spikes of a sample: the columns `spike_name_<i>` and `spike_quantity_<i>` of a samples
 * row, paired by their numeric suffix, become one spike per named pair, and the sample's spikes
 * whose name the row no longer lists are deleted.
 */
module Spikes {
  import opened Outcomes
  import opened Tables
  import opened Constants
  import opened Logs
  import opened UploadModels
  import opened Schemas
  import opened Store
  import opened Batch

  const SpikeName: string := "spike_name_"
  const SpikeQuantity: string := "spike_quantity_"

  /** A sample's spike, by (sample guid, spike name); the row holds the quantity. */
  type SpikeTable = Table<(Value, Value), Value>

  predicate HasPrefix(s: string, p: string)
  {
    |p| <= |s| && s[..|p|] == p
  }

  /** What `re.search(r"\d+$", k)` matches: the longest run of digits that ends the key. */
  function TrailingDigits(s: string): (r: string)
    ensures |r| <= |s| && s[|s| - |r|..] == r && AllDigits(r)
    ensures |r| < |s| ==> !IsDigit(s[|s| - |r| - 1])
  {
    if |s| == 0 || !IsDigit(s[|s| - 1]) then []
    else TrailingDigits(s[..|s| - 1]) + [s[|s| - 1]]
  }

  /** The suffix a spike column contributes, if it is a spike column that ends in digits. */
  function SuffixOf(k: string): Option<nat>
  {
    var d := TrailingDigits(k);
    if (HasPrefix(k, SpikeName) || HasPrefix(k, SpikeQuantity)) && |d| > 0 then Some(ParseDigits(d)) else None
  }

  /** The distinct suffixes of the spike columns among `keys`. */
  function SuffixesOf(keys: set<string>): set<nat>
  {
    set k | k in keys && SuffixOf(k).Some? :: SuffixOf(k).value
  }

  /** `spike_name_<i>` for a suffix, as an f-string prints it. */
  function NameKey(i: nat): string
  {
    SpikeName + Natural(i)
  }

  function QuantityKey(i: nat): string
  {
    SpikeQuantity + Natural(i)
  }

  /** A column named `spike_name_<i>` or `spike_quantity_<i>` contributes exactly `i`. */
  lemma SuffixOfKey(i: nat)
    ensures SuffixOf(NameKey(i)) == Some(i) && SuffixOf(QuantityKey(i)) == Some(i)
  {
    SuffixOfPrinted(SpikeName, i);
    SuffixOfPrinted(SpikeQuantity, i);
  }

  lemma SuffixOfPrinted(p: string, i: nat)
    requires p == SpikeName || p == SpikeQuantity
    ensures SuffixOf(p + Natural(i)) == Some(i)
  {
    var k := p + Natural(i);
    assert k[..|p|] == p;
    TrailingDigitsOf(p, Natural(i));
    ParseNatural(i);
  }

  /** Digits appended to a key that ends in a non-digit are exactly its trailing digits. */
  lemma {:induction false} TrailingDigitsOf(p: string, d: string)
    requires |p| > 0 && !IsDigit(p[|p| - 1]) && AllDigits(d)
    ensures TrailingDigits(p + d) == d
    decreases |d|
  {
    if |d| == 0 {
      assert p + d == p;
    } else {
      assert (p + d)[..|p + d| - 1] == p + d[..|d| - 1];
      TrailingDigitsOf(p, d[..|d| - 1]);
    }
  }

  // ---------------------------------------------------------------------------------------
  // The suffixes, in the order they are processed
  // ---------------------------------------------------------------------------------------

  /** `m` is the least element of `s`. */
  predicate IsLeast(m: nat, s: set<nat>)
  {
    m in s && forall x :: x in s ==> m <= x
  }

  /** The least element of a non-empty set of naturals. */
  function Least(s: set<nat>): (m: nat)
    requires s != {}
    ensures m in s && forall x :: x in s ==> m <= x
  {
    LeastExists(s);
    var m :| IsLeast(m, s);
    m
  }

  lemma {:induction false} LeastExists(s: set<nat>)
    requires s != {}
    ensures exists m :: IsLeast(m, s)
    decreases |s|
  {
    var y :| y in s;
    var rest := s - {y};
    if rest == {} {
      assert IsLeast(y, s) by {
        forall x | x in s ensures y <= x {
          assert x !in rest;
        }
      }
    } else {
      LeastExists(rest);
      var m :| IsLeast(m, rest);
      var least := if y < m then y else m;
      assert IsLeast(least, s) by {
        forall x | x in s ensures least <= x {
          if x != y {
            assert x in rest;
          }
        }
      }
    }
  }

  /** The elements of a set of suffixes in ascending order, each once. */
  function Ascending(s: set<nat>): (r: seq<nat>)
    ensures |r| == |s| && forall x :: x in r <==> x in s
    ensures forall i, j :: 0 <= i < j < |r| ==> r[i] < r[j]
    decreases |s|
  {
    if s == {} then []
    else
      var m := Least(s);
      [m] + Ascending(s - {m})
  }

  /** The loop over the spike columns that gathers their suffixes into a set. */
  method CollectSuffixes(columns: map<string, Value>) returns (suffixes: set<nat>)
    ensures suffixes == SuffixesOf(columns.Keys)
  {
    suffixes := {};
    var rest := columns.Keys;
    while rest != {}
      invariant rest <= columns.Keys
      invariant suffixes == SuffixesOf(columns.Keys - rest)
      decreases |rest|
    {
      var k :| k in rest;
      ghost var seen := columns.Keys - rest;
      var suffix := SuffixOf(k);
      if suffix.Some? {
        suffixes := suffixes + {suffix.value};
      }
      rest := rest - {k};
      assert columns.Keys - rest == seen + {k};
      SuffixesOfAdd(seen, k);
    }
  }

  lemma SuffixesOfAdd(keys: set<string>, k: string)
    ensures SuffixesOf(keys + {k}) == SuffixesOf(keys) + (if SuffixOf(k).Some? then {SuffixOf(k).value} else {})
  {
  }

  // ---------------------------------------------------------------------------------------
  // Upserting and deleting
  // ---------------------------------------------------------------------------------------

  datatype Spiked = Spiked(spikes: SpikeTable, log: Log)

  /**
   * The loop over the suffixes: a pair with neither name nor quantity is skipped, a quantity
   * without a name is an error, and a named pair is written to the spike with that name.
   */
  function SpikeUpserts(t: SpikeTable, guid: Value, rec: Record, line: int, order: seq<nat>): Spiked
  {
    if |order| == 0 then Spiked(t, [])
    else
      var s := SpikeUpserts(t, guid, rec, line, order[..|order| - 1]);
      var i := order[|order| - 1];
      var name := Item(rec, NameKey(i));
      var quantity := Item(rec, QuantityKey(i));
      if IsNull(name) && IsNull(quantity) then s
      else if IsNull(name) then Spiked(s.spikes, s.log + [ErrorRecord(SpikeNameMissing(line, i))])
      else Spiked(Put(s.spikes, (guid, name), quantity), s.log)
  }

  /** The names the row gives in its `spike_name_` columns, the nulls left out. */
  function CleanNames(rec: Record): set<Value>
  {
    var columns := Dump(rec);
    set k | k in columns && HasPrefix(k, SpikeName) && !IsNull(columns[k]) :: columns[k]
  }

  /** Whether a spike row survives the final delete for this sample. */
  function Kept(guid: Value, clean: set<Value>): ((Value, Value)) -> bool
  {
    (k: (Value, Value)) => k.0 != guid || k.1 in clean
  }

  /** `spikes()`: the upserts over the suffixes in ascending order, then the delete of unlisted names. */
  function SpikesStep(t: SpikeTable, guid: Value, rec: Record, line: int): Spiked
  {
    var s := SpikeUpserts(t, guid, rec, line, Ascending(SuffixesOf(Dump(rec).Keys)));
    Spiked(Keep(s.spikes, Kept(guid, CleanNames(rec))), s.log)
  }

  /** A named pair among the suffixes processed so far. */
  predicate Named(rec: Record, order: seq<nat>, j: nat)
  {
    j in order && !IsNull(Item(rec, NameKey(j)))
  }

  /** The upsert loop keeps the key unique and touches no other sample's spikes. */
  lemma {:induction false} SpikeUpsertsFrame(t: SpikeTable, guid: Value, rec: Record, line: int, order: seq<nat>)
    requires Unique(t)
    ensures var s := SpikeUpserts(t, guid, rec, line, order);
      Unique(s.spikes) && forall k: (Value, Value) :: k.0 != guid ==> Get(s.spikes, k) == Get(t, k)
  {
    if |order| > 0 {
      var init := order[..|order| - 1];
      var i := order[|order| - 1];
      SpikeUpsertsFrame(t, guid, rec, line, init);
      var s := SpikeUpserts(t, guid, rec, line, init);
      var name := Item(rec, NameKey(i));
      var quantity := Item(rec, QuantityKey(i));
      if !IsNull(name) {
        PutKeepsUnique(s.spikes, (guid, name), quantity);
        forall k: (Value, Value) | k.0 != guid ensures Get(Put(s.spikes, (guid, name), quantity), k) == Get(s.spikes, k) {
          PutGet(s.spikes, (guid, name), quantity, k);
        }
      }
    }
  }

  /**
   * After the upsert loop every named pair has a spike under its name, holding the quantity
   * of some pair with that name: the last one, when two pairs share a name.
   */
  lemma {:induction false} SpikeUpsertsNamed(t: SpikeTable, guid: Value, rec: Record, line: int, order: seq<nat>, j: nat)
    requires Named(rec, order, j)
    ensures exists j' :: (Named(rec, order, j') && Item(rec, NameKey(j')) == Item(rec, NameKey(j)) &&
      Get(SpikeUpserts(t, guid, rec, line, order).spikes, (guid, Item(rec, NameKey(j)))) == Some(Item(rec, QuantityKey(j'))))
  {
    var init := order[..|order| - 1];
    var i := order[|order| - 1];
    assert j in init || j == i;
    var s := SpikeUpserts(t, guid, rec, line, init);
    var name := Item(rec, NameKey(i));
    var quantity := Item(rec, QuantityKey(i));
    var key := (guid, Item(rec, NameKey(j)));
    if !IsNull(name) {
      PutGet(s.spikes, (guid, name), quantity, key);
    }
    if !IsNull(name) && name == Item(rec, NameKey(j)) {
      assert Named(rec, order, i);
    } else {
      SpikeUpsertsNamed(t, guid, rec, line, init, j);
      var j' :| Named(rec, init, j') && Item(rec, NameKey(j')) == Item(rec, NameKey(j)) &&
        Get(s.spikes, key) == Some(Item(rec, QuantityKey(j')));
      assert Named(rec, order, j');
    }
  }

  /** A pair with a quantity but no name. */
  predicate Nameless(rec: Record, order: seq<nat>, j: nat)
  {
    j in order && IsNull(Item(rec, NameKey(j))) && !IsNull(Item(rec, QuantityKey(j)))
  }

  /** The upsert loop logs an error exactly when some pair has a quantity but no name. */
  lemma {:induction false} SpikeUpsertsErrors(t: SpikeTable, guid: Value, rec: Record, line: int, order: seq<nat>)
    ensures HasError(SpikeUpserts(t, guid, rec, line, order).log) <==> exists j :: Nameless(rec, order, j)
  {
    if |order| > 0 {
      var init := order[..|order| - 1];
      var i := order[|order| - 1];
      assert forall j :: Nameless(rec, order, j) <==> Nameless(rec, init, j) || (j == i && Nameless(rec, order, i));
      SpikeUpsertsErrors(t, guid, rec, line, init);
      var s := SpikeUpserts(t, guid, rec, line, init);
      if IsNull(Item(rec, NameKey(i))) && !IsNull(Item(rec, QuantityKey(i))) {
        var e := [ErrorRecord(SpikeNameMissing(line, i))];
        HasErrorAppend(s.log, e);
        assert e[0].levelno == ERROR;
        assert SpikeUpserts(t, guid, rec, line, order).log == s.log + e;
        assert Nameless(rec, order, i);
      }
    }
  }

  /** A spike column that holds a name puts that name among the names the delete keeps. */
  lemma NamedIsClean(rec: Record, j: nat)
    requires rec.fields.Keys !! rec.extra.Keys
    requires !IsNull(Item(rec, NameKey(j)))
    ensures Item(rec, NameKey(j)) in CleanNames(rec)
  {
    ItemAgreesWithDump(rec, NameKey(j));
    assert HasPrefix(NameKey(j), SpikeName) by {
      assert NameKey(j)[..|SpikeName|] == SpikeName;
    }
  }

  /**
   * What a sample's spikes are after `spikes()`: other samples' spikes are untouched; the
   * sample keeps a spike only under a name its row lists; every named pair of the row has its
   * spike, holding the quantity of a pair with that name; the key stays unique; and an error
   * is logged exactly when some pair has a quantity but no name.
   */
  lemma SpikesStepGet(t: SpikeTable, guid: Value, rec: Record, line: int)
    requires Unique(t) && rec.fields.Keys !! rec.extra.Keys
    ensures var s := SpikesStep(t, guid, rec, line);
      var order := Ascending(SuffixesOf(Dump(rec).Keys));
      Unique(s.spikes) &&
      (forall k: (Value, Value) :: k.0 != guid ==> Get(s.spikes, k) == Get(t, k)) &&
      (forall n :: Get(s.spikes, (guid, n)).Some? ==> n in CleanNames(rec)) &&
      (forall j :: Named(rec, order, j) ==>
        exists j' :: (Named(rec, order, j') && Item(rec, NameKey(j')) == Item(rec, NameKey(j)) &&
          Get(s.spikes, (guid, Item(rec, NameKey(j)))) == Some(Item(rec, QuantityKey(j'))))) &&
      (HasError(s.log) <==> exists j :: Nameless(rec, order, j))
  {
    var order := Ascending(SuffixesOf(Dump(rec).Keys));
    forall j | Named(rec, order, j) ensures Item(rec, NameKey(j)) in CleanNames(rec) {
      NamedIsClean(rec, j);
    }
    KeptUpserts(t, guid, rec, line, order, CleanNames(rec));
    SpikeUpsertsErrors(t, guid, rec, line, order);
  }

  /** The upsert loop followed by a delete that keeps at least every name the loop wrote. */
  lemma KeptUpserts(t: SpikeTable, guid: Value, rec: Record, line: int, order: seq<nat>, clean: set<Value>)
    requires Unique(t)
    requires forall j :: Named(rec, order, j) ==> Item(rec, NameKey(j)) in clean
    ensures var r := Keep(SpikeUpserts(t, guid, rec, line, order).spikes, Kept(guid, clean));
      Unique(r) &&
      (forall k: (Value, Value) :: k.0 != guid ==> Get(r, k) == Get(t, k)) &&
      (forall n :: Get(r, (guid, n)).Some? ==> n in clean) &&
      (forall j :: Named(rec, order, j) ==>
        exists j' :: (Named(rec, order, j') && Item(rec, NameKey(j')) == Item(rec, NameKey(j)) &&
          Get(r, (guid, Item(rec, NameKey(j)))) == Some(Item(rec, QuantityKey(j')))))
  {
    var u := SpikeUpserts(t, guid, rec, line, order);
    var keep := Kept(guid, clean);
    var r := Keep(u.spikes, keep);
    SpikeUpsertsFrame(t, guid, rec, line, order);
    KeepKeepsUnique(u.spikes, keep);
    forall k ensures Get(r, k) == if keep(k) then Get(u.spikes, k) else None {
      KeepGet(u.spikes, keep, k);
    }
    forall j | Named(rec, order, j)
      ensures exists j' :: (Named(rec, order, j') && Item(rec, NameKey(j')) == Item(rec, NameKey(j)) &&
        Get(r, (guid, Item(rec, NameKey(j)))) == Some(Item(rec, QuantityKey(j'))))
    {
      SpikeUpsertsNamed(t, guid, rec, line, order, j);
    }
  }

  /** The loop over the suffixes as it runs. */
  method UpsertSpikes(t: SpikeTable, guid: Value, rec: Record, line: int, order: seq<nat>,
                      logger: Logger<Event>, ghost r0: Log, ghost f0: seq<bool>, ghost log: Log)
    returns (spikes: SpikeTable)
    modifies logger, logger.handlers
    requires Trace(logger.records, logger.Flags(), r0, f0, log)
    ensures var s := SpikeUpserts(t, guid, rec, line, order);
      spikes == s.spikes && Trace(logger.records, logger.Flags(), r0, f0, log + s.log)
  {
    spikes := t;
    var k := 0;
    assert order[..0] == [] && log + [] == log;
    while k < |order|
      invariant 0 <= k <= |order|
      invariant var s := SpikeUpserts(t, guid, rec, line, order[..k]);
        spikes == s.spikes && Trace(logger.records, logger.Flags(), r0, f0, log + s.log)
    {
      var i := order[k];
      ghost var s := SpikeUpserts(t, guid, rec, line, order[..k]);
      assert order[..k + 1][..k] == order[..k];
      var name := Item(rec, NameKey(i));
      var quantity := Item(rec, QuantityKey(i));
      if IsNull(name) && IsNull(quantity) {
      } else if IsNull(name) {
        Emit(logger, ErrorRecord(SpikeNameMissing(line, i)), r0, f0, log + s.log);
        Regrouped(log, s.log, [ErrorRecord(SpikeNameMissing(line, i))]);
      } else {
        spikes := Put(spikes, (guid, name), quantity);
      }
      k := k + 1;
    }
    assert order[..k] == order;
  }

  /** `spikes()` on the session: the pairs of the row, then the bulk delete of unlisted names. */
  method SyncSpikes(session: Session, logger: Logger<Event>, guid: Value, rec: Record, line: int,
                    ghost r0: Log, ghost f0: seq<bool>, ghost log: Log)
    modifies session, logger, logger.handlers
    requires Trace(logger.records, logger.Flags(), r0, f0, log)
    ensures var s := SpikesStep(old(session.db.spikes), guid, rec, line);
      session.db == old(session.db).(spikes := s.spikes) && Trace(logger.records, logger.Flags(), r0, f0, log + s.log)
  {
    var columns := Dump(rec);
    var suffixes := CollectSuffixes(columns);
    var spikes := UpsertSpikes(session.db.spikes, guid, rec, line, Ascending(suffixes), logger, r0, f0, log);
    session.db := session.db.(spikes := Keep(spikes, Kept(guid, CleanNames(rec))));
  }

  // ---------------------------------------------------------------------------------------
  // The lookup as written
  // ---------------------------------------------------------------------------------------

  /** The declared fields of the samples model, by name. */
  function SampleFieldNames(): seq<string>
  {
    ["run_code", "accession", "collection_date", "guid", "sample_category", "nucleic_acid_type",
     "dilution_post_initial_concentration", "extraction_date", "extraction_method",
     "extraction_protocol", "extraction_user", "illumina_index", "input_volume",
     "library_pool_concentration", "ont_barcode", "dna_amplification", "pre_sequence_concentration",
     "prep_kit", "comment"]
  }

  lemma SampleNames()
    ensures Names(SamplesImport().fields) == SampleFieldNames()
  {
  }

  /** No declared field of the samples model is a spike column: none has 'p' as its second letter. */
  lemma SpikeColumnsUndeclared(i: nat)
    ensures NameKey(i) !in SampleFieldNames() && QuantityKey(i) !in SampleFieldNames()
  {
    var ns := SampleFieldNames();
    forall m | 0 <= m < |ns| ensures |ns[m]| >= 2 && ns[m][1] != 'p' {
    }
    assert NameKey(i)[1] == 'p' && QuantityKey(i)[1] == 'p';
  }

  /**
   * The upsert loop as written: `sample_import[...]` reads the declared fields only, so every
   * name and quantity of a spike column, which pydantic keeps among the extras, reads as None.
   */
  function SpikeUpsertsAsWritten(t: SpikeTable, guid: Value, rec: Record, line: int, order: seq<nat>): Spiked
  {
    if |order| == 0 then Spiked(t, [])
    else
      var s := SpikeUpsertsAsWritten(t, guid, rec, line, order[..|order| - 1]);
      var i := order[|order| - 1];
      var name := ItemAsWritten(rec, NameKey(i));
      var quantity := ItemAsWritten(rec, QuantityKey(i));
      if IsNull(name) && IsNull(quantity) then s
      else if IsNull(name) then Spiked(s.spikes, s.log + [ErrorRecord(SpikeNameMissing(line, i))])
      else Spiked(Put(s.spikes, (guid, name), quantity), s.log)
  }

  /** On a valid samples record, the lookup as written reads None for every spike column. */
  lemma SpikesAsWrittenNeverRead(row: Row, env: Env, i: nat)
    requires Validate(SamplesImport(), row, env).Valid?
    ensures var rec := Validate(SamplesImport(), row, env).rec;
      ItemAsWritten(rec, NameKey(i)) == Null && ItemAsWritten(rec, QuantityKey(i)) == Null
  {
    ValidNames(SamplesImport(), row, env);
    SampleNames();
    SpikeColumnsUndeclared(i);
  }

  /** So, as written, the loop over the suffixes neither writes a spike nor logs anything. */
  lemma {:induction false} SpikeUpsertsAsWrittenInert(row: Row, env: Env, t: SpikeTable, guid: Value, line: int, order: seq<nat>)
    requires Validate(SamplesImport(), row, env).Valid?
    ensures SpikeUpsertsAsWritten(t, guid, Validate(SamplesImport(), row, env).rec, line, order) == Spiked(t, [])
  {
    if |order| > 0 {
      SpikeUpsertsAsWrittenInert(row, env, t, guid, line, order[..|order| - 1]);
      SpikesAsWrittenNeverRead(row, env, order[|order| - 1]);
    }
  }

  /**
   * The discrepancy: a valid samples row that names a spike the sample does not have yet gets
   * it from the corrected loop, holding a quantity the row gives for that name, and does not get
   * it as written.
   */
  lemma SpikesAsWrittenMissesNamed(row: Row, env: Env, t: SpikeTable, guid: Value, line: int, order: seq<nat>, j: nat)
    requires Validate(SamplesImport(), row, env).Valid?
    requires var rec := Validate(SamplesImport(), row, env).rec;
      Named(rec, order, j) && Get(t, (guid, Item(rec, NameKey(j)))).None?
    ensures var rec := Validate(SamplesImport(), row, env).rec;
      Get(SpikeUpsertsAsWritten(t, guid, rec, line, order).spikes, (guid, Item(rec, NameKey(j)))).None? &&
      Get(SpikeUpserts(t, guid, rec, line, order).spikes, (guid, Item(rec, NameKey(j)))).Some?
  {
    var rec := Validate(SamplesImport(), row, env).rec;
    SpikeUpsertsAsWrittenInert(row, env, t, guid, line, order);
    SpikeUpsertsNamed(t, guid, rec, line, order, j);
  }
}
