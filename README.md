# gpas_local_db import reconciliation, in Dafny

gpas_local_db keeps a local PostgreSQL database of tuberculosis sequencing work.
- Laboratory metadata arrives as an Excel workbook with four sheets: Runs, Specimens, Samples and Storage.
- GPAS results arrive as two CSV files: a per-sample summary and a per-mutation table. Each is joined to a mapping file that turns GPAS sample ids back into local sample guids.

This project models how the importers reconcile those rows with the database. Each step is described below.

**Validating a row.**
- Every row is validated by a pydantic import model. This covers string trimming, the date coercions, the vocabularies, the ISO 3166 country code and the nucleic-acid-type and species splitters.
- A valid row is upserted by its natural key. The keys are:
  - a run's code;
  - a specimen's accession and collection date;
  - an owner's site and user;
  - a sample's guid;
  - a storage's QR code;
  - an analysis's sample and batch;
  - speciation number 1 of an analysis;
  - one drug resistance per analysis and antibiotic;
  - one mutation per analysis, species, drug, gene and mutation.
- In the model nothing is ever inserted twice, because every insert follows a lookup by the natural key.

**Child rows.**
- A specimen, a sample or an analysis also synchronises its *details*. These are the catalog-driven key/value rows: one per detail type whose column the row fills, each stored in the typed `value_<type>` column. A detail whose value is None is deleted.
- A sample also synchronises its *spikes*. The `spike_name_<i>` / `spike_quantity_<i>` columns are paired by suffix. A quantity without a name is an error. Spikes whose name the row no longer lists are deleted.

**Row errors and escaping exceptions.**
- A validation error, a database error, or a ValueError from a lookup (an unknown run, specimen or sample) is logged as an ERROR, and the loop goes on.
  - The Runs and Specimens loops do not catch ValueError.
- Any other exception leaves the sheet loop. It is logged as "Failed to upload data".

**The batch outcome.**
- The logger carries an error latch: an `ErrorCheckHandler` whose flag is set by the first ERROR record and never reset.
- At the end of a batch the latch decides the outcome:
  - a latched error rolls the whole batch back and answers False;
  - a dry run rolls back and answers True;
  - otherwise the session commits and answers True.
- A database whose schema revision is not the expected one answers False before reading anything.

**How the model is organised.**
- The database session is a `Store.Session` class. Its tables are association lists keyed by the natural keys (`Tables`). Flushes are not modelled: the session's view is the tables themselves.
- The logger is a `Logs.Logger` class over `ErrorCheckHandler` objects.
- Every importer procedure is a method that updates the session and the logger. It is proved equal to a specification function that returns the new tables, the records logged and the exception that escaped, if any (`Batch.Step`). The lemmas about those functions state what each step promises:
  - what the row leaves under its key;
  - that nothing else changes;
  - idempotence of a re-import;
  - uniqueness of every natural key;
  - the commit/rollback rule.
- Where the Findings table shows that the code differs from what its authors evidently intended, the importer methods and their specification functions follow the intended behaviour:
  - the owner is looked up by the validated specimen row;
  - details and spikes read the declared and the extra columns alike.
  Each finding also has a member that models the code as written and shows the difference.

## Model

| member | source | states |
|---|---|---|
| Logs.ErrorCheckHandler.constructor | gpaslocal/logs.py:8-10 | A new handler has not seen an error. |
| Logs.ErrorCheckHandler.Emit | gpaslocal/logs.py:12-17 | The flag becomes set exactly when the record is an ERROR, and stays set once set. |
| Logs.Logger.constructor | gpaslocal/logs.py:35-41 | The package logger starts with no records and one fresh error-check handler, so the latch is down. |
| Logs.Logger.Flags | gpaslocal/logs.py:21-27 | The flags are the error flags of the attached handlers, handler by handler. |
| Logs.Logger.Log | gpaslocal/logs.py:12-17 | Logging appends the record. Every handler's flag is raised by an ERROR and kept otherwise. `error_occurred` becomes true exactly when it was already true, or the record is an ERROR and a handler is attached. |
| Logs.FlagsOf | gpaslocal/logs.py:21-27 | One flag per handler, each equal to that handler's `error_occurred`. |
| Logs.Raise | gpaslocal/logs.py:12-14 | Raising keeps the number of flags. Each flag becomes the old flag or the new error. |
| Logs.AnyRaise | gpaslocal/logs.py:21-27 | After an ERROR the latch is up exactly when it was already up or some handler is attached. |
| Logs.HasErrorAppend | gpaslocal/logs.py:12-14 | A log has an error exactly when one of its two parts has. |
| Logs.ErrorLatch | gpaslocal/logs.py:12-14 | Latching two logs one after the other equals latching their concatenation: the flag is never reset. |
| Logs.LatchStep | gpaslocal/logs.py:12-14 | One emitted record extends the latch of the log before it. |
| Batch.Emit | gpaslocal/logs.py:12-17 | Logging one record extends the logger's trace by exactly that record. |
| Batch.FieldErrorLog | src/gpaslocal/importer.py:84-87 | One record per validation-error entry. |
| Batch.FieldErrorLogErrors | src/gpaslocal/importer.py:84-87 | Logging a ValidationError's entries latches an error exactly when it has at least one entry, and every record is an ERROR. |
| Batch.LogFieldErrors | src/gpaslocal/importer.py:84-87 | The loop over `err.errors()` logs those records in order. |
| Batch.FinishOutcome | src/gpaslocal/importer.py:40-55 | A batch fails when the latch was up before it, or when a handler is attached and a row logged an error or an exception escaped. A failed batch stores nothing, logs an error and answers False. A dry run stores nothing and answers True. A real run stores the session's tables and answers True. |
| Batch.LogEscaped | src/gpaslocal/importer.py:39-40 | An exception that left the rows adds exactly one ERROR record, which raises every flag; without one nothing is logged. |
| Batch.Settle | src/gpaslocal/importer.py:42-53 | A latched error rolls back, logs one ERROR and answers False; otherwise a dry run rolls back and a real run commits, each logging its INFO record and answering True. |
| Batch.Conclude | src/gpaslocal/importer.py:40-55 | The end of a batch stores and answers what `Finish` says, and logs exactly its records. |
| Store.Database.constructor | src/gpaslocal/importer.py:23 | The database holds the given tables. |
| Store.Session.constructor | src/gpaslocal/importer.py:23 | A new session sees the stored tables. |
| Store.Session.Commit | src/gpaslocal/importer.py:53 | After a commit the database holds what the session sees. |
| Store.Session.Rollback | src/gpaslocal/importer.py:44 | After a rollback the session sees the stored tables again. |
| Tables.Find | src/gpaslocal/importer.py:246-250 | The index found holds the key and no earlier row does; no index means no row holds it. |
| Tables.FindIsFirst | src/gpaslocal/importer.py:246-250 | The first row holding the key is the one found. |
| Tables.First | src/gpaslocal/importer.py:246-250 | `query(...).filter(key).first()` gives the row stored under the key, or None. |
| Tables.Keep | src/gpaslocal/importer.py:357-360 | A bulk delete leaves only rows whose key passes the filter, all of them rows that were there. |
| Tables.GetSomeIffKey | src/gpaslocal/importer.py:246-250 | A lookup finds a row exactly when the key is among the table's keys. |
| Tables.CountZeroIffAbsent | src/gpaslocal/models.py:60 | A key has no row exactly when it is not among the keys. |
| Tables.CountAtMostOne | src/gpaslocal/models.py:60 | In a table with unique keys each key has at most one row, and exactly one when present. |
| Tables.PutGet | src/gpaslocal/importer.py:66-83 | After an upsert the key reads the new value, and every other key reads as before. |
| Tables.PutKeepsUnique | src/gpaslocal/models.py:155 | An upsert keeps the keys unique. The key set gains the key. The table grows by one row only when the key was new. |
| Tables.PutOverwrites | src/gpaslocal/gpas_upload.py:146-148 | Writing a key twice leaves the second value. |
| Tables.PutIdempotent | src/gpaslocal/importer.py:66-83 | Upserting the same value twice equals upserting it once. |
| Tables.RemoveGet | src/gpaslocal/gpas_upload.py:211-214 | After a delete the key has no row, and every other key reads as before. |
| Tables.RemoveKeepsUnique | src/gpaslocal/gpas_upload.py:211-214 | A delete keeps the keys unique and removes exactly that key. |
| Tables.KeepGet | src/gpaslocal/importer.py:357-360 | After a bulk delete a key reads as before when it passes the filter, and has no row otherwise. |
| Tables.KeepKeepsUnique | src/gpaslocal/importer.py:357-360 | A bulk delete keeps the keys unique. |
| Tables.PutSame | src/gpaslocal/importer.py:66-83 | Writing back the value a unique key already holds changes nothing. |
| Tables.RemoveAbsent | src/gpaslocal/gpas_upload.py:211-214 | Deleting a missing key changes nothing. |
| Constants.ValueTypeName | src/gpaslocal/constants.py:22 | Every value type prints as a member of the ValueType vocabulary. |
| Constants.ParseValueType | src/gpaslocal/constants.py:22 | A string parses as a value type exactly when it is in the vocabulary. |
| Constants.ValueTypeRoundTrip | src/gpaslocal/constants.py:22 | Printing and parsing a value type are inverse, both ways. |
| Constants.Natural | src/gpaslocal/importer.py:327-328 | An f-string integer is a non-empty digit string, with no leading zero unless it is "0". |
| Constants.ParseNatural | src/gpaslocal/importer.py:320-322 | `int()` of a printed natural gives it back. |
| Constants.NaturalParse | src/gpaslocal/importer.py:320-322 | A digit string with no leading zero prints back to itself after `int()`. |
| Constants.ParseLeadingNonZero | src/gpaslocal/importer.py:320-322 | A digit string starting with a non-zero digit parses to a positive number. |
| Constants.Pad | src/gpaslocal/constants.py:40-41 | Padding reaches at least the width asked for. |
| Constants.StripLeft | src/gpaslocal/constants.py:40-41 | `lstrip()` removes a whitespace-only prefix and stops at a non-space. |
| Constants.StripRight | src/gpaslocal/constants.py:40-41 | `rstrip()` removes a whitespace-only suffix and stops at a non-space. |
| Constants.Strip | src/gpaslocal/constants.py:40-41 | `strip()` gives a trimmed string no longer than its input. |
| Constants.StripInfix | src/gpaslocal/constants.py:40-41 | What `strip()` keeps is an infix of the string, and everything it cuts off at either end is whitespace. |
| Constants.StripTrimmed | src/gpaslocal/constants.py:40-41 | Stripping a trimmed string leaves it unchanged. |
| Constants.StripIdempotent | src/gpaslocal/constants.py:40-41 | Stripping twice equals stripping once. |
| Constants.CoerceNanToNone | src/gpaslocal/constants.py:28-29 | NaN becomes None. Every other value passes through, so nullness is preserved. |
| Constants.CoerceNatToNone | src/gpaslocal/constants.py:32-37 | A blank string becomes None. Another string becomes its parsed date, or an error when the parser fails. A pandas null becomes None. Anything else passes. No result is a string, NaN or NaT. |
| Constants.CoerceNatIdempotent | src/gpaslocal/constants.py:32-37 | Coercing an already coerced value changes nothing. |
| Constants.CoerceToStr | src/gpaslocal/constants.py:40-41 | The result is trimmed, and a text value becomes its own stripped text. |
| Constants.CoerceToStrIdempotent | src/gpaslocal/constants.py:40-41 | Coercing to a string twice equals coercing once. |
| UploadModels.Names | src/gpaslocal/upload_models.py:34-44 | The declared field names, in declaration order. |
| UploadModels.Keys | src/gpaslocal/upload_models.py:34-44 | The input keys are exactly the fields' aliases or names. |
| UploadModels.Item | src/gpaslocal/upload_models.py:26-27 | A declared field reads its value, and an extra column reads its cell. A column the model does not hold reads as None. |
| UploadModels.Attr | src/gpaslocal/gpas_upload.py:148 | Attribute access succeeds exactly for a column the model holds, and then agrees with `Item`. |
| UploadModels.ItemAgreesWithDump | src/gpaslocal/upload_models.py:26-27 | The corrected lookup agrees with `dict()`. The lookup as written differs only on extra columns. |
| UploadModels.ItemAsWrittenMissesExtras | src/gpaslocal/upload_models.py:26-27 | As written, an extra column reads as None whatever it holds. |
| UploadModels.Assigned | src/gpaslocal/upload_models.py:29-31 | An assignment keeps the model's field set, its declared names and its extras. |
| UploadModels.AssignedThenItem | src/gpaslocal/upload_models.py:29-31 | Reading after an assignment gives the value for a key the model holds, and every other key as before. Assigning an unknown key changes nothing. |
| UploadModels.ImportModel.constructor | src/gpaslocal/upload_models.py:25-31 | The model holds the record it was built from. |
| UploadModels.ImportModel.SetItem | src/gpaslocal/upload_models.py:29-31 | `model[k] = v` writes only a key the model already holds, and reading it back gives `v`. |
| UploadModels.CheckExcelStr | src/gpaslocal/constants.py:48 | An ExcelStr accepts exactly the values whose stripped text fits the length bound, and yields that text. |
| UploadModels.CheckPlainStr | src/gpaslocal/upload_models.py:52 | A plain str field accepts exactly strings within its length bounds, unchanged. |
| UploadModels.FirstInvalid | src/gpaslocal/upload_models.py:95-107 | No token is reported exactly when every token is a nucleic acid type. A reported token is outside the vocabulary. |
| UploadModels.FindInvalid | src/gpaslocal/upload_models.py:103-105 | The loop over the tokens reports the first one outside the vocabulary, as `FirstInvalid` says. |
| UploadModels.LaxBoolText | src/gpaslocal/upload_models.py:43 | A bool field reads text in pydantic's lax mode: one of "1", "on", "t", "true", "y", "yes" in any ASCII case gives True, one of "0", "off", "f", "false", "n", "no" gives False, and any other text is an error; "Yes" gives True. |
| UploadModels.LaxNumbers | src/gpaslocal/upload_models.py:41 | A positive-int field takes text exactly when the int parser reads a positive int from it, and a float field takes text exactly when the float parser reads it. A bool reads as 1 or 0: True is a valid positive int and False is not. A float is a valid positive int exactly when it is integral and positive, and then gives its integer value. |
| UploadModels.CheckSound | src/gpaslocal/constants.py:46-49 | Every value a field kind accepts conforms to that kind, stated independently of the checks. |
| UploadModels.NoneOrNanAcceptsNull | src/gpaslocal/constants.py:46 | A NoneOrNan field takes None and NaN as None. |
| UploadModels.CountryCodeIff | src/gpaslocal/upload_models.py:65-69 | The country is accepted exactly when it is a three-character string ISO 3166 knows. |
| UploadModels.SampleNameIff | src/gpaslocal/upload_models.py:133-137 | The sample name fails with "not found in mapping file" exactly when the mapping join left it null. |
| UploadModels.IndexOf | src/gpaslocal/upload_models.py:101 | A position found holds the separator. |
| UploadModels.FindFirst | src/gpaslocal/upload_models.py:101 | No position found means the separator does not occur; a position found is its first occurrence. |
| UploadModels.SplitOn | src/gpaslocal/upload_models.py:101 | `split(c)` gives at least one piece. |
| UploadModels.SplitOnPieces | src/gpaslocal/upload_models.py:101 | No piece of `split(c)` contains the separator. |
| UploadModels.SplitJoin | src/gpaslocal/upload_models.py:101 | Joining the pieces back gives the original string. |
| UploadModels.StripAll | src/gpaslocal/upload_models.py:101 | Each piece is stripped, and the pieces keep their number and order. |
| UploadModels.Dedup | src/gpaslocal/upload_models.py:100-101 | Duplicates are removed: the result is distinct, no longer than its input, and non-empty when the input is. |
| UploadModels.DedupMembers | src/gpaslocal/upload_models.py:100-101 | Removing duplicates keeps exactly the same members. |
| UploadModels.NucleicTokens | src/gpaslocal/upload_models.py:100-101 | The tokens are distinct and there is at least one. |
| UploadModels.NucleicTokensMembers | src/gpaslocal/upload_models.py:100-101 | The tokens are exactly the stripped comma-separated pieces. |
| UploadModels.SplitNucleic | src/gpaslocal/upload_models.py:95-107 | A validator that passes keeps the mapping's keys and every entry other than the nucleic acid type. |
| UploadModels.SplitNucleicTokens | src/gpaslocal/upload_models.py:95-107 | A nucleic acid type cell that passes becomes a list of distinct members of the vocabulary. |
| UploadModels.WithNucleic | src/gpaslocal/upload_models.py:106 | The assignment replaces the nucleic acid type cell by the token list and keeps every other entry and the key set. |
| UploadModels.SplitOnce | src/gpaslocal/upload_models.py:139-148 | `split(" ", 1)` gives a head without spaces and, when there is a space, a tail such that head, space and tail form the string. |
| UploadModels.SplitSpeciesOf | src/gpaslocal/upload_models.py:139-148 | The species validator never refuses a row. It adds `species` and `sub_species` and keeps every other entry. |
| UploadModels.SplitSpeciesRoundTrip | src/gpaslocal/upload_models.py:139-148 | Species and sub-species are "Main Species" split at its first space, and joining them back gives it. |
| UploadModels.RawInput.constructor | src/gpaslocal/upload_models.py:95-96 | The raw input holds the row's cells. |
| UploadModels.RawInput.SplitNucleicAcidType | src/gpaslocal/upload_models.py:95-107 | The in-place validator gives the outcome of `SplitNucleic` and leaves the rewritten mapping. |
| UploadModels.RawInput.SplitSpecies | src/gpaslocal/upload_models.py:139-148 | The in-place validator gives the outcome of `SplitSpeciesOf` and leaves the rewritten mapping. |
| UploadModels.CheckFieldsSound | src/gpaslocal/upload_models.py:34-44 | When no field fails, every declared field is present and holds a conforming value, or None when it has a default and the row left it out. |
| UploadModels.CheckFieldsKeys | src/gpaslocal/upload_models.py:34-44 | Only declared fields are stored as fields. |
| UploadModels.ValidNames | src/gpaslocal/upload_models.py:34-44 | A valid record's fields are exactly the declared names, in order. |
| UploadModels.ValidField | src/gpaslocal/upload_models.py:34-44 | In a valid record each field holds a value of its kind, or None by default. |
| UploadModels.Construct | src/gpaslocal/importer.py:64 | Building a model by copying the mapping, running the before validator and checking each field gives `Validate`. |
| UploadModels.CheckFieldsGrow | src/gpaslocal/upload_models.py:34-44 | Errors are collected in field order: those of a prefix stay at the front. |
| Schemas.RunNamesDistinct | src/gpaslocal/upload_models.py:34-44 | No two fields of the run model share a name. |
| Schemas.SpecimenNamesDistinct | src/gpaslocal/upload_models.py:47-69 | No two fields of the specimen model share a name. |
| Schemas.SampleNamesDistinct | src/gpaslocal/upload_models.py:72-107 | No two fields of the sample model share a name. |
| Schemas.RunBoundsOf | src/gpaslocal/upload_models.py:34-44 | Fields holding a run's code, date, sequencing method, user and sample count give the run bounds. |
| Schemas.SpecimenBoundsOf | src/gpaslocal/upload_models.py:47-69 | Fields holding a specimen's accession, collection date and country give the specimen bounds. |
| Schemas.SampleBoundsOf | src/gpaslocal/upload_models.py:72-107 | Fields holding a sample's guid and distinct nucleic acid types give the sample bounds. |
| Schemas.RunImportBounds | src/gpaslocal/upload_models.py:34-44 | A valid run has a trimmed code of at most 20 characters, a date, a known sequencing method, a user of at most 5 characters or None, and a positive sample count or None. |
| Schemas.SpecimensImportCountry | src/gpaslocal/upload_models.py:47-69 | A valid specimen has an accession of at most 20 characters, a collection date, and an ISO 3166 three-letter country. |
| Schemas.SamplesImportBounds | src/gpaslocal/upload_models.py:72-107 | A valid sample has a guid of at most 64 characters, and its nucleic acid types, when present, are distinct members of the vocabulary. |
| Schemas.SampleNucleicDistinct | src/gpaslocal/upload_models.py:95-107 | The nucleic acid types of a valid sample hold no repeated entry. |
| UploadModels.ValidFieldIs | src/gpaslocal/upload_models.py:25-27 | In a valid record each field holds exactly what validating its cell of the prepared mapping gave. |
| UploadModels.NucleicFieldDistinct | src/gpaslocal/upload_models.py:95-107 | The nucleic acid type field validated after the split holds None or a list with no repeated entry. |
| Schemas.GpasSummaryUnmapped | src/gpaslocal/upload_models.py:124-137 | A summary row the mapping left without a sample name is invalid with "not found in mapping file". |
| Models.Chars | src/gpaslocal/models.py:189-196 | `list(s)` gives one one-character string per character. |
| Models.NucleicSetter | src/gpaslocal/models.py:189-196 | The hybrid setter stores a list as it is, None as [], and a string as its characters. Anything else is a TypeError. |
| Models.ValidateNucleicAcidType | src/gpaslocal/models.py:208-213 | The `@validates` hook accepts exactly a list and stores it without duplicates. |
| Models.ValidateNucleicMembers | src/gpaslocal/models.py:208-213 | The stored list has the same members as the list given. |
| Models.CopiedPlain | src/gpaslocal/models.py:42-45 | Copying a record into an entity without a setter never fails. Each shared attribute holds the record's value, and every other column is unchanged. |
| Models.CopiedSample | src/gpaslocal/models.py:42-45 | Copying a validated sample stores its nucleic acid types as a list ([] for None) and every other shared attribute as given. |
| Models.Entity.constructor | src/gpaslocal/models.py:28-45 | A new entity holds the given columns. |
| Models.Entity.SetItem | src/gpaslocal/models.py:39-40 | `entity[k] = v` stores the assignment or reports its error and changes nothing. |
| Models.Entity.UpdateFromImportModel | src/gpaslocal/models.py:42-45 | The copy stores `Copied`, or stops at the first failing assignment with the columns written before it. |
| Models.CopiedStopsAtError | src/gpaslocal/models.py:42-45 | Once an assignment fails, copying further fields gives the same failure. |
| Models.CopiedSnoc | src/gpaslocal/models.py:43-45 | One more field name copies that field when the entity has the attribute, and changes nothing otherwise. |
| Models.CopiedHas | src/gpaslocal/models.py:42-45 | After a successful copy every shared attribute holds the record's value. |
| Models.CopiedIdempotent | src/gpaslocal/models.py:42-45 | Copying the same record twice equals copying it once. |
| Models.CopiedFixed | src/gpaslocal/models.py:42-45 | Copying a prefix of the fields again into a copied entity changes nothing, except that a sample's nucleic acid type, which the setter rewrites, is left out. |
| Models.ValueColumn | src/gpaslocal/models.py:121-128 | A detail's value goes to the column `value_` plus its type name. |
| Models.TypeOf | src/gpaslocal/importer.py:164-166 | The catalog entry found has the code, and none is found only when no entry has it. |
| Models.SyncDetailsUnique | src/gpaslocal/importer.py:159-191 | The detail loop keeps one detail per parent and code. |
| Models.SyncDetailsGet | src/gpaslocal/importer.py:159-191 | The parent has a detail for a catalog code exactly when the record's value for it is not None, and it holds that value in its type's column. Other parents' details and codes outside the catalog are untouched. |
| Models.DetailsAsWrittenDropExtras | src/gpaslocal/importer.py:166 | As written, the detail loop reads the declared fields only: a detail type whose code is an extra column is never written, while the corrected loop stores the column's value. |
| Models.SyncDetailsIdempotent | src/gpaslocal/importer.py:159-191 | Running the detail loop twice with the same record equals running it once. |
| Models.SyncDetailsFixed | src/gpaslocal/importer.py:159-191 | After the detail loop, running any prefix of it again with the same record changes nothing. |
| Models.SyncDetailSame | src/gpaslocal/importer.py:173-191 | One detail step that finds what it would write already in place changes nothing. |
| Models.TypeOfDistinct | src/gpaslocal/models.py:115-128 | In a catalog with distinct codes, each entry is found by its code. |
| Models.SyncDetailTable | src/gpaslocal/importer.py:269-300 | The loop over the catalog produces `SyncDetails`. |
| Spikes.TrailingDigits | src/gpaslocal/importer.py:320 | `\d+$` matches the longest run of digits ending the key. |
| Spikes.SuffixOfKey | src/gpaslocal/importer.py:317-324 | The columns `spike_name_<i>` and `spike_quantity_<i>` both contribute suffix `i`. |
| Spikes.SuffixOfPrinted | src/gpaslocal/importer.py:317-324 | A prefix ending in a non-digit, followed by a printed number, contributes that number. |
| Spikes.TrailingDigitsOf | src/gpaslocal/importer.py:320 | Digits appended to a non-digit are exactly the trailing digits matched. |
| Spikes.Least | src/gpaslocal/importer.py:324 | The least member of a non-empty set of suffixes. |
| Spikes.LeastExists | src/gpaslocal/importer.py:324 | A non-empty set of suffixes has a least member. |
| Spikes.Ascending | src/gpaslocal/importer.py:324-326 | The suffixes visited each once, in ascending order. |
| Spikes.CollectSuffixes | src/gpaslocal/importer.py:317-324 | The loop over the spike columns collects exactly their suffixes. |
| Spikes.SuffixesOfAdd | src/gpaslocal/importer.py:319-322 | One more column adds its suffix, if it has one. |
| Spikes.SpikeUpsertsFrame | src/gpaslocal/importer.py:326-353 | The upsert loop keeps (sample, name) unique and touches no other sample's spikes. |
| Spikes.SpikeUpsertsNamed | src/gpaslocal/importer.py:326-353 | Every named pair has a spike under its name, holding the quantity of a pair with that name. |
| Spikes.SpikeUpsertsErrors | src/gpaslocal/importer.py:329-337 | The loop logs an error exactly when some pair has a quantity but no name. |
| Spikes.NamedIsClean | src/gpaslocal/importer.py:356 | A spike column holding a name puts that name among the names the delete keeps. |
| Spikes.SpikesStepGet | src/gpaslocal/importer.py:303-360 | After `spikes()`, other samples' spikes are untouched, and the sample keeps spikes only under names the row lists. Every named pair has its spike. The key stays unique. An error is logged exactly when a quantity has no name. |
| Spikes.KeptUpserts | src/gpaslocal/importer.py:355-360 | The delete after the upserts keeps every spike the loop wrote and removes the unlisted ones. |
| Spikes.UpsertSpikes | src/gpaslocal/importer.py:326-353 | The loop over the suffixes produces `SpikeUpserts` and logs its records. |
| Spikes.SyncSpikes | src/gpaslocal/importer.py:303-360 | `spikes()` on the session replaces the sample's spikes as `SpikesStep` says and leaves the other tables alone. |
| Spikes.SampleNames | src/gpaslocal/upload_models.py:72-93 | The samples model declares these fields, in order. |
| Spikes.SpikeColumnsUndeclared | src/gpaslocal/upload_models.py:72-93 | No declared field of the samples model is a spike column, so spike columns are extras. |
| Spikes.SpikesAsWrittenNeverRead | src/gpaslocal/importer.py:327-328 | As written, every spike name and quantity of a valid samples row reads as None. |
| Spikes.SpikeUpsertsAsWrittenInert | src/gpaslocal/importer.py:326-353 | As written, the loop over the suffixes writes no spike and logs nothing. |
| Spikes.SpikesAsWrittenMissesNamed | src/gpaslocal/importer.py:327-328 | A named spike the sample lacks is added by the corrected loop and not by the loop as written. |
| Importer.UpsertRun | src/gpaslocal/importer.py:66-83 | The run upsert on the session does what `RunUpsert` says. |
| Importer.Owner | src/gpaslocal/importer.py:137-156 | The owner lookup reuses or creates the owner and logs a creation. |
| Importer.UpsertSpecimen | src/gpaslocal/importer.py:100-126 | The specimen upsert on the session does what `SpecimenUpsert` says. |
| Importer.SaveSpecimen | src/gpaslocal/importer.py:104-126 | The specimen copy and detail sync do what `SpecimenSave` says. |
| Importer.FindRun | src/gpaslocal/importer.py:246-250 | The run with the code, or the ValueError naming the missing run. |
| Importer.FindSpecimen | src/gpaslocal/importer.py:253-266 | The specimen with the accession and date, or the ValueError naming them. |
| Importer.UpsertSample | src/gpaslocal/importer.py:194-243 | The sample upsert on the session does what `SampleUpsert` says. |
| Importer.SaveSample | src/gpaslocal/importer.py:208-235 | The sample copy, details and spikes do what `SampleSave` says. |
| Importer.SampleChildren | src/gpaslocal/importer.py:231-235 | The sample's details are synchronised as `SyncDetails` says and its spikes as `SpikesStep` says; no other table changes. |
| Importer.UpsertStorage | src/gpaslocal/importer.py:363-402 | The storage upsert on the session does what `StorageUpsert` says. |
| Importer.UpsertRecord | src/gpaslocal/importer.py:58-402 | The upsert of one valid record does what `Upsert` says for its sheet. |
| Importer.ImportRow | src/gpaslocal/importer.py:62-90 | One row validates, upserts or logs its error as `RowStep` says, and the Runs and Specimens loops let ValueError escape. |
| Importer.SheetStopsAtEscape | src/gpaslocal/importer.py:40-41 | Rows after an escaped exception are never read. |
| Importer.ImportSheet | src/gpaslocal/importer.py:58-90 | The row loop over a sheet does what `SheetStep` says. |
| Importer.ImportSheetPass | src/gpaslocal/importer.py:58-90 | One pass of the row loop: the next row runs as `RowStep` says, and a row whose exception escapes ends the sheet as `SheetStep` says. |
| Importer.SheetStepSnoc | src/gpaslocal/importer.py:58-90 | One more row, after a prefix no exception escaped, is one more row step. |
| Importer.ReadSheet | src/gpaslocal/importer.py:59 | Reading a sheet that is missing escapes. Otherwise its rows are imported. |
| Importer.NextSheet | src/gpaslocal/importer.py:28-38 | A sheet runs only when no exception escaped the ones before it. |
| Importer.ImportSheets | src/gpaslocal/importer.py:28-38 | Runs, Specimens, Samples, then Storage, each after the previous one completed. |
| Importer.ImportData | src/gpaslocal/importer.py:19-55 | `import_data` answers and stores what `ImportDataOutcome` says. |
| Importer.ImportDataOutcomeRule | src/gpaslocal/importer.py:19-55 | A revision mismatch answers False and stores nothing. A failed batch stores nothing, logs an error and answers False. A dry run stores nothing and answers True. A real run stores the four sheets' result and answers True. |
| Importer.NoRunsSheet | src/gpaslocal/importer.py:28-59 | A workbook without a Runs sheet reads nothing, stores nothing and fails. |
| Importer.SpikesStepUnique | src/gpaslocal/importer.py:303-360 | `spikes()` keeps one spike per sample and name. |
| Importer.UpsertKeepsValid | src/gpaslocal/models.py:60 | Every upsert keeps one row per natural key in every table and leaves the catalogs alone. |
| Importer.RowKeepsValid | src/gpaslocal/models.py:60 | So does every row, valid or not. |
| Importer.SheetKeepsValid | src/gpaslocal/models.py:60 | So does every sheet. |
| Importer.ThenKeepsValid | src/gpaslocal/models.py:60 | So does the next sheet. |
| Importer.ImportKeepsValid | src/gpaslocal/models.py:60 | Whatever the workbook holds, the stored tables keep their natural keys unique. |
| Importer.RunUpsertGet | src/gpaslocal/importer.py:66-83 | A valid run updates the run with its code or adds exactly one. Its shared columns hold the row's values and its other columns are kept. No other run or table changes, and the log says whether the run existed. |
| Importer.RunUpsertIdempotent | src/gpaslocal/importer.py:66-83 | Importing the same run row twice equals importing it once. |
| Importer.SpecimenUpsertGet | src/gpaslocal/importer.py:93-134 | The owner is reused or created once. The specimen is updated or created once and gets that owner; every column holds the record's value when the record has it and keeps its old value otherwise. The specimen count grows by one exactly when the key was new. No other specimen changes, its details are synchronised, no table but owners, specimens and specimen details changes, and no error is logged. |
| Importer.SpecimenSaveGet | src/gpaslocal/importer.py:104-126 | The specimen is stored under its key with the record's owner and the record's columns over the old ones, the count grows only for a new key, other specimens and every table but specimens and their details are unchanged, and one upsert message is logged. |
| Importer.SampleParentMissing | src/gpaslocal/importer.py:203-243 | A sample whose run, or else whose specimen, is missing logs exactly one ERROR naming it and writes nothing. |
| Importer.SampleUpsertGet | src/gpaslocal/importer.py:194-243 | The sample is updated or created once and linked to its run and specimen. Every column holds the record's value when the record has it and keeps its old value otherwise, and the nucleic acid type column holds what the setter makes of the record's list. The sample count grows by one exactly when the guid was new. No other sample changes, no table but samples, sample details and spikes changes, its details and spikes are synchronised, and the log holds the upsert then the spike errors. |
| Importer.StorageUpsertGet | src/gpaslocal/importer.py:363-402 | A storage whose specimen is missing is one ERROR and writes nothing. Otherwise the storage is updated or created once and linked to the specimen, every column holds the record's value when the record has it and keeps its old value otherwise, and the storage count grows by one exactly when the QR code was new. |
| Importer.OwnerAsWrittenDuplicates | src/gpaslocal/importer.py:102 | A valid specimen row whose site has surrounding blanks reuses its stored owner through the corrected lookup. As written it adds a second owner. |
| GpasUpload.FindSample | src/gpaslocal/gpas_upload.py:75-81 | The sample with the guid, or the ValueError naming it. |
| GpasUpload.UpsertAnalysis | src/gpaslocal/gpas_upload.py:84-106 | The analysis lookup on the session does what `AnalysisStep` says. |
| GpasUpload.AnalysisStepGet | src/gpaslocal/gpas_upload.py:84-106 | Afterwards there is exactly one analysis for the sample and batch. An existing one is left as it was, with nothing logged. A new one is created for GPAS TB and logged. No other analysis changes. |
| GpasUpload.UpsertSpeciation | src/gpaslocal/gpas_upload.py:109-150 | The speciation on the session does what `SpeciationStep` says. |
| GpasUpload.SpeciationStepGet | src/gpaslocal/gpas_upload.py:109-150 | With no species nothing is written. Otherwise speciation 1 holds the species, the sub-species and the run date, or the missing run-date attribute escapes. Nothing else changes. |
| GpasUpload.Subscript | src/gpaslocal/gpas_upload.py:184-186 | Indexing a string or list succeeds or raises IndexError. Indexing anything else raises TypeError. |
| GpasUpload.SubscriptFromEnd | src/gpaslocal/gpas_upload.py:184-186 | A negative index counts from the end, and an index in range gives that code. |
| GpasUpload.UpsertDrug | src/gpaslocal/gpas_upload.py:167-186 | One antibiotic's row on the session is what `DrugRow` says. |
| GpasUpload.DrugRowGet | src/gpaslocal/gpas_upload.py:167-186 | The antibiotic gets exactly one row, holding its code when the prediction has one. Nothing else changes. |
| GpasUpload.DrugRowsStopAtEscape | src/gpaslocal/gpas_upload.py:166-186 | Antibiotics after a failed subscript are not visited. |
| GpasUpload.UpsertDrugs | src/gpaslocal/gpas_upload.py:166-186 | The loop over the drug table does what `DrugRows` says. |
| GpasUpload.UpsertDrugsPass | src/gpaslocal/gpas_upload.py:166-186 | One pass of the drug loop: the next antibiotic runs as `DrugRow` says, and one whose subscript raises ends the loop as `DrugRows` says. |
| GpasUpload.DrugRowsSnoc | src/gpaslocal/gpas_upload.py:166-186 | One more antibiotic, after a prefix that did not raise, is one more `DrugRow`. |
| GpasUpload.DrugRowsFrame | src/gpaslocal/gpas_upload.py:166-186 | The loop keeps one row per analysis and antibiotic and touches only this analysis's antibiotics. It completes exactly when the prediction has a code for every antibiotic. |
| GpasUpload.DrugRowsCodes | src/gpaslocal/gpas_upload.py:166-186 | A completed loop leaves every antibiotic with the code at its position. |
| GpasUpload.SyncDrugs | src/gpaslocal/gpas_upload.py:153-190 | `drugs()` on the session does what `DrugsStep` says. |
| GpasUpload.DrugsStepGet | src/gpaslocal/gpas_upload.py:153-190 | A missing prediction column escapes, and None writes nothing. Otherwise every antibiotic gets its code, and the step completes exactly when the prediction has all of them. Others are untouched. |
| GpasUpload.EmptyPredictionRaises | src/gpaslocal/gpas_upload.py:160-186 | An empty prediction cell is NaN, passes the None check, and its first subscript raises a TypeError that escapes. |
| GpasUpload.FinishSummary | src/gpaslocal/gpas_upload.py:40-44 | Drugs then details, as `SummaryFinish` says. |
| GpasUpload.SaveSummary | src/gpaslocal/gpas_upload.py:34-44 | Analysis, speciation, drugs, details, as `SummarySave` says. |
| GpasUpload.UpsertSummary | src/gpaslocal/gpas_upload.py:32-55 | A summary record finds its sample or logs its ValueError, as `SummaryUpsert` says. |
| GpasUpload.UpsertMutation | src/gpaslocal/gpas_upload.py:247-262 | A mutation record finds its sample or logs its ValueError, as `MutationUpsert` says. |
| GpasUpload.SaveMutation | src/gpaslocal/gpas_upload.py:247-251 | Analysis then mutation, as `MutationSave` says. |
| GpasUpload.MutationSaveGet | src/gpaslocal/gpas_upload.py:282-324 | The analysis exists. Exactly one mutation has the row's five-part key and holds its seven values. Nothing else changes. |
| GpasUpload.MutationSaveIdempotent | src/gpaslocal/gpas_upload.py:282-324 | Uploading the same mutation row twice equals uploading it once. |
| GpasUpload.SpeciationStepIdempotent | src/gpaslocal/gpas_upload.py:109-150 | A completed speciation is written again unchanged. |
| GpasUpload.DrugRowsFixed | src/gpaslocal/gpas_upload.py:166-186 | Once every antibiotic holds its code, the loop writes every row back unchanged. |
| GpasUpload.DrugsStepIdempotent | src/gpaslocal/gpas_upload.py:153-190 | A completed drug step is repeated without change. |
| GpasUpload.SummarySaveIdempotent | src/gpaslocal/gpas_upload.py:34-44 | A summary row uploaded again after it went through leaves the tables unchanged: no second analysis, speciation, resistance or detail. |
| GpasUpload.ImportCsvRow | src/gpaslocal/gpas_upload.py:31-55 | One CSV row validates, upserts or logs its error as `CsvRowStep` says. |
| GpasUpload.CsvStopsAtEscape | src/gpaslocal/gpas_upload.py:57-58 | Rows after an escaped exception are never read. |
| GpasUpload.ImportCsvRows | src/gpaslocal/gpas_upload.py:30-55 | The row loop does what `CsvStep` says. |
| GpasUpload.ImportCsvPass | src/gpaslocal/gpas_upload.py:30-55 | One pass of the row loop: the next row runs as `CsvRowStep` says, and a row whose exception escapes ends the file as `CsvStep` says. |
| GpasUpload.CsvStepSnoc | src/gpaslocal/gpas_upload.py:30-55 | One more row, after a prefix no exception escaped, is one more row step. |
| GpasUpload.Upload | src/gpaslocal/gpas_upload.py:14-72 | An upload answers and stores what `UploadOutcome` says. |
| GpasUpload.ImportSummary | src/gpaslocal/gpas_upload.py:14-72 | `import_summary` is the upload of the summary rows. |
| GpasUpload.ImportMutation | src/gpaslocal/gpas_upload.py:225-279 | `import_mutation` is the upload of the mutation rows. |
| GpasUpload.UploadOutcomeRule | src/gpaslocal/gpas_upload.py:14-72 | A revision mismatch answers False and stores nothing. A failed batch stores nothing, logs an error and answers False. A dry run stores nothing. A real run stores the rows. |
| GpasUpload.SummaryRowUnmapped | src/gpaslocal/gpas_upload.py:32-50 | A summary row without a mapped sample logs an error and writes nothing, so its batch fails. |
| GpasUpload.CsvSampleMissing | src/gpaslocal/gpas_upload.py:75-81 | A row whose sample is not stored logs exactly one ERROR naming it and writes nothing. |
| GpasUpload.CsvUpsertKeepsValid | src/gpaslocal/models.py:305 | Every CSV upsert keeps one row per natural key and leaves the catalogs alone. |
| GpasUpload.CsvRowKeepsValid | src/gpaslocal/models.py:305 | So does every CSV row. |
| GpasUpload.CsvKeepsValid | src/gpaslocal/models.py:362 | So does every run of CSV rows. |
| GpasUpload.UploadKeepsValid | src/gpaslocal/models.py:362 | Whatever the CSV holds, the stored tables keep their natural keys unique. |

## Left out

- Database constraints and `DBAPIError`: the tables are association lists with no column widths and no foreign keys, so no write in the model can fail. In the database some writes can fail:
  - a spike name or quantity longer than 20 characters (src/gpaslocal/models.py:264-265);
  - a text detail longer than 50 characters in `value_str` (src/gpaslocal/models.py:102, 225, 315);
  - a drug result code missing from `drug_resistance_result_types` (src/gpaslocal/models.py:351-353);
  - an ISO country code missing from `countries` (src/gpaslocal/models.py:73).
  Such a write raises `DataError` or `IntegrityError`, a `DBAPIError`. The row's handler logs it as an ERROR, and later queries in the same session raise `PendingRollbackError`. None of this is modelled; the model's handlers for `DBAPIError` never fire.
- pandas `read_excel`, `read_csv` and `merge` are not modelled. A workbook is a map from sheet name to rows, and a CSV is its merged rows, taken as given.
- `ProgressBar`, the click command line, the configuration files, the Alembic migrations and the database connection are not modelled.
- `db_revision_ok` is a boolean parameter of the batch.
- The iteration order of a Python set is not modelled. Spike suffixes are visited in ascending order, which is what CPython does for small integers.
- Regular-expression details: `\d` is taken as the ASCII digits. The case where `$` matches before a trailing newline is left out.
- Floating-point arithmetic: floats are opaque values. Only NaN is distinguished.
- The drug table `tb_drugs` is a parameter: a sequence of (index, antibiotic) pairs.
- The `Mutations` import model is not part of this model. Its validation is a parameter, and its fields are read by name.
- Audit columns, versioning and timestamps are not modelled.
- Sample's `@validates` hook is modelled as `Models.ValidateNucleicAcidType`. The setter path that the importer uses is `Models.NucleicSetter`.
- `session.flush()` has no effect in the model: the session's view is always up to date.
- A summary row without a "Main Species" column raises KeyError in the species splitter, which reads `self['Main Species']` (src/gpaslocal/upload_models.py:141); the model lets that exception escape.
- Partial writes before an escaped exception stay in the session. They reach the database only when no error-check handler is attached.
- ISO 3166 is an opaque set of country codes, and `dateutil.parser.parse` is an opaque function. pydantic's lax parsing of numeric text into an int or a float is two opaque functions too. All four are parameters (`UploadModels.Env`). An integral float in an int field is accepted as its integer value, as pydantic does; a float with a fractional part is refused.
- UploadModels.AsDate: a date field refuses every int and float. pydantic's lax `date` also accepts a Unix timestamp, as an int or a float, that falls on midnight; that case is not modelled. A pandas Timestamp is modelled only at midnight (`Stamp`), so a Timestamp with a time of day, which pydantic refuses, cannot be expressed.
- GpasUpload.DrugRowsCodes, GpasUpload.DrugsStepGet: both require that no antibiotic appears twice in the drug table. With a repeated antibiotic the last code wins; that case is not stated.
- The details loops of the specimen, sample and summary imports read each column with the corrected lookup (`UploadModels.Item`). As written they read the same `__getitem__` as the spike loop, so every extra-column detail reads as None (Finding 3, shown by `Models.DetailsAsWrittenDropExtras`).
- Importer.OwnerOf, Importer.SpecimenSave, Importer.SampleSave, Models.SyncDetails: these specify the corrected program, not the code as written. The owner is taken from the validated row (Finding 2), spikes read extra columns (Finding 1), and so do details (Finding 3).
- Importer.UpsertSpecimen, Importer.SaveSpecimen, Importer.UpsertSample, Importer.SaveSample, Importer.SampleChildren: they are proved against those corrected functions, so they state the corrected behaviour.
- Importer.ImportData, Importer.ImportDataOutcomeRule, Importer.ImportKeepsValid: they build on the corrected specimen and sample steps, so they too state the corrected behaviour.
- Log message texts are not modelled. A message is an `Event` carrying the values its text interpolates.

## Findings

| source | as written | input that shows it | evidently intended | confidence | as-written member | corrected member |
|---|---|---|---|---|---|---|
| src/gpaslocal/importer.py:327-328 | `sample_import[f"spike_name_{i}"]` goes through `ImportModel.__getitem__` (src/gpaslocal/upload_models.py:26-27). That reads `self.__dict__`, which pydantic fills with the declared fields only; undeclared columns kept by `extra="allow"` are stored apart. So every spike name and quantity reads as None, and no spike is ever written. | A valid samples row with `spike_name_1 = "ERCC"` and `spike_quantity_1 = 5` for a sample that has no spikes: the row is reported as uploaded, but no spike is stored. | Read the column the model holds, declared or extra (`model.dict()[k]`), so that named spikes are upserted. | not executed | Spikes.SpikesAsWrittenMissesNamed | Spikes.SpikesStepGet |
| src/gpaslocal/importer.py:102 | The specimens loop calls `owner(session, index, row, dryrun)` with the raw pandas row instead of the validated `specimen_import`. The owner's site and user are looked up and stored untrimmed. | A specimen row with `owner_site = "SiteC "` when owner (SiteC, User3) exists: validation trims the site, but the lookup misses the stored owner and adds a second one, ("SiteC ", User3). | Pass the validated model, so that the owner is looked up by its trimmed site and user. | not executed | Importer.OwnerAsWrittenDuplicates | Importer.SpecimenUpsertGet |
| src/gpaslocal/importer.py:166 (and 276; src/gpaslocal/gpas_upload.py:200) | The detail loops read `import[detail_type.code]` through the same `__getitem__`. A detail type whose code is not a declared field, such as a catalog column kept as an extra, always reads as None. So its detail is deleted, or never added. | A specimen detail catalog holding a code `c` that `SpecimensImport` does not declare, and a valid specimens row with an extra column `c` holding "x": the row is reported as uploaded, but no detail is stored for `c`. | Read the column the model holds, declared or extra, so that every catalog column the row fills is stored. | not executed | Models.DetailsAsWrittenDropExtras | Models.SyncDetailsGet |
