/**
 * Row validation: how one spreadsheet or CSV row becomes a validated import record, or a list
 * of per-field errors, or an exception that is not a validation error.
 *
 * A schema lists the declared fields in declaration order, each with the key it is read from
 * (its alias when it has one), the kind of value it accepts, and whether it has a default
 * (every default in these models is None). A model may run a "before" validator on the raw
 * input mapping first, and may keep undeclared columns as extras.
 */
module UploadModels {
  import opened Outcomes
  import opened Constants

  /** One input row: column name to cell. */
  type Row = map<string, Value>

  /**
   * What the validators consult but the model does not define: ISO 3166, the date parser, and
   * pydantic's parsers of numeric text (an int, or a float as its repr and its integral value).
   */
  datatype Env = Env(countries: set<string>, parseDate: string -> Option<Date>,
                     parseInt: string -> Option<int>, parseFloat: string -> Option<(string, Option<int>)>)

  /** The annotated field types used by the import models. */
  datatype Kind =
    | ExcelStr(maxLength: Option<nat>)              // str(x).strip(), then the length bound
    | PlainStr(minLength: nat, maxLength: Option<nat>)  // a str as given, with length bounds
    | ExcelDate                                     // the date coercion, then a date
    | OptionalExcelDate                             // the date coercion, then a date or None
    | Choice(allowed: seq<string>)                  // a Literal vocabulary
    | Boolean
    | Real
    | PositiveInt
    | NucleicList                                   // List[NucleicAcidType]
    | Optional(inner: Kind)                         // None, or the inner kind
    | NoneOrNan(inner: Kind)                        // NaN to None first, then Optional
    | CountryCode                                   // str of length 3 that ISO 3166 knows
    | SampleName                                    // not null, then an ExcelStr of at most 20

  datatype Field = Field(name: string, alias: Option<string>, kind: Kind, hasDefault: bool)

  /** The model-level validator that runs on the raw input before the fields are validated. */
  datatype Before = NoBefore | SplitNucleicAcidType | SplitSpecies

  datatype Schema = Schema(fields: seq<Field>, allowExtra: bool, before: Before)

  /**
   * A validated import model: its declared field names in declaration order, the validated
   * field values by name, and the undeclared columns kept as they came (models with extras).
   */
  datatype Record = Record(names: seq<string>, fields: map<string, Value>, extra: map<string, Value>)

  datatype FieldError = FieldError(loc: string, cause: Cause)

  /** Outcome of constructing a model: valid, a ValidationError, or another exception. */
  datatype Checked = Valid(rec: Record) | Invalid(errors: seq<FieldError>) | Raised(cause: Cause)

  /** Outcome of a before validator: the (rewritten) input, a ValueError, or another exception. */
  datatype Prepared = Passed(values: Row) | Refused(cause: Cause) | Escaped(cause: Cause)

  function FieldKey(f: Field): string
  {
    if f.alias.Some? then f.alias.value else f.name
  }

  function Names(fs: seq<Field>): (r: seq<string>)
    ensures |r| == |fs| && forall i :: 0 <= i < |fs| ==> r[i] == fs[i].name
  {
    if |fs| == 0 then [] else Names(fs[..|fs| - 1]) + [fs[|fs| - 1].name]
  }

  function Keys(fs: seq<Field>): (r: set<string>)
    ensures forall i :: 0 <= i < |fs| ==> FieldKey(fs[i]) in r
    ensures forall k :: k in r ==> exists i :: 0 <= i < |fs| && FieldKey(fs[i]) == k
  {
    set i | 0 <= i < |fs| :: FieldKey(fs[i])
  }

  predicate Distinct(s: seq<string>)
  {
    forall i, j :: 0 <= i < j < |s| ==> s[i] != s[j]
  }

  // ---------------------------------------------------------------------------------------
  // Reading a validated model
  // ---------------------------------------------------------------------------------------

  /**
   * `ImportModel[k]` as written: it looks in the instance `__dict__`, which holds the declared
   * fields only (the extras of a model with extra="allow" are kept apart), so an undeclared
   * column always reads as None.
   */
  function ItemAsWritten(r: Record, k: string): Value
  {
    if k in r.fields then r.fields[k] else Null
  }

  /** `model.dict()`: the declared fields and the extras. */
  function Dump(r: Record): map<string, Value>
  {
    r.fields + r.extra
  }

  /** `ImportModel[k]` as evidently intended: any column the model holds, else None; never raises. */
  function Item(r: Record, k: string): (v: Value)
    ensures k in r.fields ==> v == r.fields[k]
    ensures k !in r.fields && k in r.extra ==> v == r.extra[k]
    ensures k !in Dump(r) ==> v == Null
  {
    if k in r.fields then r.fields[k] else if k in r.extra then r.extra[k] else Null
  }

  /** Attribute access on the model: declared fields, then extras, else AttributeError. */
  function Attr(r: Record, k: string): (v: Option<Value>)
    ensures v.Some? <==> k in Dump(r)
    ensures v.Some? ==> v.value == Item(r, k)
  {
    if k in r.fields then Some(r.fields[k]) else if k in r.extra then Some(r.extra[k]) else None
  }

  /** The corrected lookup agrees with the dump whenever no extra shadows a declared field. */
  lemma ItemAgreesWithDump(r: Record, k: string)
    requires r.fields.Keys !! r.extra.Keys
    ensures Item(r, k) == if k in Dump(r) then Dump(r)[k] else Null
    ensures ItemAsWritten(r, k) == Item(r, k) || (k !in r.fields && k in r.extra)
  {
  }

  /** As written, an extra column is invisible: it reads as None whatever it holds. */
  lemma ItemAsWrittenMissesExtras(r: Record, k: string)
    requires k !in r.fields && k in r.extra
    ensures ItemAsWritten(r, k) == Null
    ensures Item(r, k) == r.extra[k]
  {
  }

  /** The record as `__dict__` holds it: the declared fields without the extras. */
  function Declared(r: Record): (d: Record)
    ensures d.names == r.names && d.fields == r.fields && d.extra == map[]
  {
    r.(extra := map[])
  }

  /** The corrected lookup on the declared part is the lookup as written. */
  lemma DeclaredReadsAsWritten(r: Record, k: string)
    ensures Item(Declared(r), k) == ItemAsWritten(r, k)
  {
  }

  /** `ImportModel[k] = v`: only a key the model already holds is written; others are ignored. */
  function Assigned(r: Record, k: string, v: Value): (r': Record)
    ensures r'.names == r.names && r'.extra == r.extra && r'.fields.Keys == r.fields.Keys
  {
    if k in r.fields then r.(fields := r.fields[k := v]) else r
  }

  /** Reading back after an assignment: the assigned key gives the value, every other key is as before. */
  lemma AssignedThenItem(r: Record, k: string, v: Value, k': string)
    ensures ItemAsWritten(Assigned(r, k, v), k') ==
      if k' == k && k in r.fields then v else ItemAsWritten(r, k')
    ensures k !in r.fields ==> Assigned(r, k, v) == r
  {
  }

  /** An import model object whose `__dict__` can be read and written by key. */
  class ImportModel {
    var record: Record

    constructor (r: Record)
      ensures record == r
    {
      record := r;
    }

    function GetItem(k: string): Value
      reads this
    {
      ItemAsWritten(record, k)
    }

    method SetItem(k: string, v: Value)
      modifies this
      ensures record == Assigned(old(record), k, v)
      ensures GetItem(k) == if k in old(record.fields) then v else Null
    {
      if k in record.fields {
        record := record.(fields := record.fields[k := v]);
      }
    }
  }

  // ---------------------------------------------------------------------------------------
  // Field kinds
  // ---------------------------------------------------------------------------------------

  function CheckExcelStr(maxLength: Option<nat>, v: Value): (r: Result<Value, Cause>)
    ensures r.Ok? <==> maxLength.None? || |CoerceToStr(v)| <= maxLength.value
    ensures r.Ok? ==> r.value == Str(CoerceToStr(v))
  {
    var s := CoerceToStr(v);
    if maxLength.Some? && |s| > maxLength.value then Err(TooLong(maxLength.value)) else Ok(Str(s))
  }

  function CheckPlainStr(minLength: nat, maxLength: Option<nat>, v: Value): (r: Result<Value, Cause>)
    ensures r.Ok? <==> v.Str? && minLength <= |v.s| && (maxLength.None? || |v.s| <= maxLength.value)
    ensures r.Ok? ==> r.value == v
  {
    if !v.Str? then Err(NotAString)
    else if |v.s| < minLength then Err(TooShort(minLength))
    else if maxLength.Some? && |v.s| > maxLength.value then Err(TooLong(maxLength.value))
    else Ok(v)
  }

  /** The date validator after the coercion: a date, or a timestamp at midnight taken as its date. */
  function AsDate(w: Value): Result<Value, Cause>
  {
    match w
    case Day(d) => Ok(Day(d))
    case Stamp(t) => Ok(Day(t))
    case _ => Err(NotADate)
  }

  function FirstInvalid(tokens: seq<string>): (r: Option<string>)
    ensures r.None? <==> forall i :: 0 <= i < |tokens| ==> tokens[i] in NucleicAcidTypes
    ensures r.Some? ==> r.value in tokens && r.value !in NucleicAcidTypes
  {
    if |tokens| == 0 then None
    else if tokens[0] !in NucleicAcidTypes then Some(tokens[0])
    else FirstInvalid(tokens[1..])
  }

  /** The loop over the tokens that stops at the first one outside the vocabulary. */
  method FindInvalid(tokens: seq<string>) returns (r: Option<string>)
    ensures r == FirstInvalid(tokens)
  {
    var i := 0;
    while i < |tokens|
      invariant 0 <= i <= |tokens|
      invariant FirstInvalid(tokens) == FirstInvalid(tokens[i..])
    {
      if tokens[i] !in NucleicAcidTypes {
        return Some(tokens[i]);
      }
      assert tokens[i..][1..] == tokens[i + 1..];
      i := i + 1;
    }
    return None;
  }

  /** The text pydantic reads as True or as False in lax mode, compared ignoring ASCII case. */
  const TrueWords: seq<string> := ["1", "on", "t", "true", "y", "yes"]
  const FalseWords: seq<string> := ["0", "off", "f", "false", "n", "no"]

  /** ASCII upper-case letters lowered, everything else kept. */
  function LowerAscii(s: string): string
  {
    seq(|s|, i requires 0 <= i < |s| => if 'A' <= s[i] <= 'Z' then (s[i] as int + 32) as char else s[i])
  }

  /** Validate one value against one field kind. */
  function Check(k: Kind, v: Value, env: Env): Result<Value, Cause>
  {
    match k
    case ExcelStr(maxLength) => CheckExcelStr(maxLength, v)
    case PlainStr(minLength, maxLength) => CheckPlainStr(minLength, maxLength, v)
    case ExcelDate =>
      (match CoerceNatToNone(v, env.parseDate)
       case Err(c) => Err(c)
       case Ok(w) => AsDate(w))
    case OptionalExcelDate =>
      (match CoerceNatToNone(v, env.parseDate)
       case Err(c) => Err(c)
       case Ok(w) => if w == Null then Ok(Null) else AsDate(w))
    case Choice(allowed) =>
      if v.Str? && v.s in allowed then Ok(v) else Err(NotInVocabulary(allowed))
    case Boolean =>
      (match v
       case Bool(_) => Ok(v)
       case Int(i) => if i == 0 || i == 1 then Ok(Bool(i == 1)) else Err(NotABool)
       case Float(_, w) => if w == Some(0) || w == Some(1) then Ok(Bool(w == Some(1))) else Err(NotABool)
       case Str(t) =>
         if LowerAscii(t) in TrueWords then Ok(Bool(true))
         else if LowerAscii(t) in FalseWords then Ok(Bool(false))
         else Err(NotABool)
       case _ => Err(NotABool))
    case Real =>
      (match v
       case Float(_, _) => Ok(v)
       case Int(i) => Ok(Float(Decimal(i) + ".0", Some(i)))
       case Bool(b) => Ok(if b then Float("1.0", Some(1)) else Float("0.0", Some(0)))
       case Str(t) =>
         (match env.parseFloat(t)
          case Some(f) => Ok(Float(f.0, f.1))
          case None => Err(NotAFloat))
       case _ => Err(NotAFloat))
    case PositiveInt =>
      (match v
       case Int(i) => if i > 0 then Ok(v) else Err(NotPositive)
       case Float(_, w) =>
         if w.None? then Err(NotAnInt) else if w.value > 0 then Ok(Int(w.value)) else Err(NotPositive)
       case Bool(b) => if b then Ok(Int(1)) else Err(NotPositive)
       case Str(t) =>
         (match env.parseInt(t)
          case Some(i) => if i > 0 then Ok(Int(i)) else Err(NotPositive)
          case None => Err(NotAnInt))
       case _ => Err(NotAnInt))
    case NucleicList =>
      if !v.List? then Err(NotAList)
      else (match FirstInvalid(v.items)
            case Some(t) => Err(NotNucleicAcidType(t))
            case None => Ok(v))
    case Optional(inner) => if v == Null then Ok(Null) else Check(inner, v, env)
    case NoneOrNan(inner) =>
      var w := CoerceNanToNone(v);
      if w == Null then Ok(Null) else Check(inner, w, env)
    case CountryCode =>
      (match CheckPlainStr(3, Some(3), v)
       case Err(c) => Err(c)
       case Ok(w) => if w.s in env.countries then Ok(w) else Err(CountryUnknown(w.s)))
    case SampleName => if IsNull(v) then Err(SampleNameNotMapped) else CheckExcelStr(Some(20), v)
  }

  /** What a validated value of each kind is, stated independently of how it is checked. */
  ghost predicate Conforms(k: Kind, w: Value, env: Env)
  {
    match k
    case ExcelStr(maxLength) => w.Str? && Trimmed(w.s) && (maxLength.None? || |w.s| <= maxLength.value)
    case PlainStr(minLength, maxLength) =>
      w.Str? && minLength <= |w.s| && (maxLength.None? || |w.s| <= maxLength.value)
    case ExcelDate => w.Day?
    case OptionalExcelDate => w.Day? || w == Null
    case Choice(allowed) => w.Str? && w.s in allowed
    case Boolean => w.Bool?
    case Real => w.Float?
    case PositiveInt => w.Int? && w.i > 0
    case NucleicList => w.List? && forall i :: 0 <= i < |w.items| ==> w.items[i] in NucleicAcidTypes
    case Optional(inner) => w == Null || Conforms(inner, w, env)
    case NoneOrNan(inner) => w == Null || Conforms(inner, w, env)
    case CountryCode => w.Str? && |w.s| == 3 && w.s in env.countries
    case SampleName => w.Str? && Trimmed(w.s) && |w.s| <= 20
  }

  /** Every value that passes a kind's check conforms to that kind. */
  lemma {:induction false} CheckSound(k: Kind, v: Value, env: Env)
    requires Check(k, v, env).Ok?
    ensures Conforms(k, Check(k, v, env).value, env)
  {
    match k
    case Optional(inner) =>
      if v != Null { CheckSound(inner, v, env); }
    case NoneOrNan(inner) =>
      if CoerceNanToNone(v) != Null { CheckSound(inner, CoerceNanToNone(v), env); }
    case _ =>
  }

  /** Nullable kinds accept exactly the null-like cells as None (NaT is not NaN, so it is not). */
  lemma NoneOrNanAcceptsNull(inner: Kind, v: Value, env: Env)
    ensures v == Null || v == NaN ==> Check(NoneOrNan(inner), v, env) == Ok(Null)
  {
  }

  /** The country code is accepted exactly when it is a three-character string ISO 3166 knows. */
  lemma CountryCodeIff(v: Value, env: Env)
    ensures Check(CountryCode, v, env).Ok? <==> v.Str? && |v.s| == 3 && v.s in env.countries
  {
  }

  /**
   * Lax mode reads a text cell as a bool exactly when it is one of pydantic's words, in any
   * ASCII case: a "Yes" cell is True.
   */
  lemma LaxBoolText(t: string, env: Env)
    ensures Check(Boolean, Str(t), env) == Ok(Bool(true)) <==> LowerAscii(t) in TrueWords
    ensures Check(Boolean, Str(t), env) == Ok(Bool(false)) <==> LowerAscii(t) in FalseWords
    ensures Check(Boolean, Str(t), env).Err? <==> LowerAscii(t) !in TrueWords + FalseWords
    ensures Check(Boolean, Str("Yes"), env) == Ok(Bool(true))
  {
    assert LowerAscii("Yes") == "yes";
  }

  /**
   * Lax mode reads numeric text through the parser and a bool as 1 or 0: a positive int field
   * takes the text of a positive int, and a float field any text the parser reads. A positive
   * int field takes a float exactly when it is integral and positive, as its integer value.
   */
  lemma LaxNumbers(v: Value, env: Env)
    ensures v.Str? ==> (Check(PositiveInt, v, env).Ok? <==> env.parseInt(v.s).Some? && env.parseInt(v.s).value > 0)
    ensures v.Str? ==> (Check(Real, v, env).Ok? <==> env.parseFloat(v.s).Some?)
    ensures v.Bool? ==> Check(PositiveInt, v, env) == (if v.b then Ok(Int(1)) else Err(NotPositive))
    ensures v.Bool? ==> Check(Real, v, env).Ok? && Check(Real, v, env).value.whole == Some(if v.b then 1 else 0)
    ensures v.Float? ==> (Check(PositiveInt, v, env).Ok? <==> v.whole.Some? && v.whole.value > 0)
    ensures v.Float? && v.whole.Some? && v.whole.value > 0 ==> Check(PositiveInt, v, env) == Ok(Int(v.whole.value))
  {
  }

  /** The sample name fails with "not found in mapping file" exactly when the mapping join left it null. */
  lemma SampleNameIff(v: Value, env: Env)
    ensures Check(SampleName, v, env) == Err(SampleNameNotMapped) <==> IsNull(v)
  {
  }

  // ---------------------------------------------------------------------------------------
  // Before validators
  // ---------------------------------------------------------------------------------------

  /** The position of the first occurrence of `c` in `s`, if there is one. */
  function IndexOf(s: string, c: char): (r: Option<nat>)
    ensures r.Some? ==> r.value < |s| && s[r.value] == c
  {
    if |s| == 0 then None
    else if s[0] == c then Some(0)
    else
      match IndexOf(s[1..], c)
      case None => None
      case Some(i) => Some(i + 1)
  }

  /** `IndexOf` gives the first occurrence: there is none before it, and none at all when it finds nothing. */
  lemma {:induction false} FindFirst(s: string, c: char)
    ensures IndexOf(s, c).None? ==> c !in s
    ensures IndexOf(s, c).Some? ==> c !in s[..IndexOf(s, c).value]
  {
    if |s| > 0 && s[0] != c {
      FindFirst(s[1..], c);
      assert s == [s[0]] + s[1..];
      if IndexOf(s[1..], c).Some? {
        var i := IndexOf(s[1..], c).value;
        assert s[..i + 1] == [s[0]] + s[1..][..i];
      }
    }
  }

  /** `s.split(c)`: the pieces between occurrences of `c`, always at least one. */
  function SplitOn(s: string, c: char): (r: seq<string>)
    ensures |r| >= 1
    decreases |s|
  {
    match IndexOf(s, c)
    case None => [s]
    case Some(i) => [s[..i]] + SplitOn(s[i + 1..], c)
  }

  /** No piece of a split contains the separator. */
  lemma {:induction false} SplitOnPieces(s: string, c: char)
    ensures forall k :: 0 <= k < |SplitOn(s, c)| ==> c !in SplitOn(s, c)[k]
    decreases |s|
  {
    FindFirst(s, c);
    if IndexOf(s, c).Some? {
      var i := IndexOf(s, c).value;
      SplitOnPieces(s[i + 1..], c);
      var rest := SplitOn(s[i + 1..], c);
      assert SplitOn(s, c) == [s[..i]] + rest;
      forall k | 0 <= k < |SplitOn(s, c)|
        ensures c !in SplitOn(s, c)[k]
      {
        if k > 0 {
          assert SplitOn(s, c)[k] == rest[k - 1];
        }
      }
    }
  }

  /** `c.join(parts)`: the pieces with `c` between consecutive ones. */
  function Join(parts: seq<string>, c: char): string
    requires |parts| >= 1
  {
    if |parts| == 1 then parts[0] else parts[0] + [c] + Join(parts[1..], c)
  }

  /** Splitting and joining back with the same separator gives the original string. */
  lemma {:induction false} SplitJoin(s: string, c: char)
    ensures Join(SplitOn(s, c), c) == s
    decreases |s|
  {
    if IndexOf(s, c).Some? {
      var i := IndexOf(s, c).value;
      var rest := SplitOn(s[i + 1..], c);
      SplitJoin(s[i + 1..], c);
      assert ([s[..i]] + rest)[1..] == rest;
      assert s == s[..i] + [c] + s[i + 1..];
    }
  }

  function StripAll(parts: seq<string>): (r: seq<string>)
    ensures |r| == |parts| && forall i :: 0 <= i < |parts| ==> r[i] == Strip(parts[i])
  {
    seq(|parts|, i requires 0 <= i < |parts| => Strip(parts[i]))
  }

  /** Duplicates removed, first occurrences kept. */
  function Dedup(s: seq<string>): (r: seq<string>)
    ensures Distinct(r)
    ensures |r| <= |s| && (|s| >= 1 ==> |r| >= 1)
  {
    if |s| == 0 then []
    else
      var d := Dedup(s[..|s| - 1]);
      if s[|s| - 1] in d then d else d + [s[|s| - 1]]
  }

  /** Removing duplicates keeps exactly the members. */
  lemma {:induction false} DedupMembers(s: seq<string>)
    ensures forall x :: x in Dedup(s) <==> x in s
  {
    if |s| > 0 {
      DedupMembers(s[..|s| - 1]);
      assert s == s[..|s| - 1] + [s[|s| - 1]];
    }
  }

  /** The tokens of a nucleic acid type cell: split on commas, each trimmed, duplicates dropped. */
  function NucleicTokens(s: string): (r: seq<string>)
    ensures Distinct(r) && |r| >= 1
  {
    Dedup(StripAll(SplitOn(s, ',')))
  }

  /** The tokens are exactly the trimmed comma-separated pieces of the cell, each kept once. */
  lemma NucleicTokensMembers(s: string)
    ensures forall x :: x in NucleicTokens(s) <==> x in StripAll(SplitOn(s, ','))
  {
    DedupMembers(StripAll(SplitOn(s, ',')));
  }

  /** `SamplesImport.split_nucleic_acid_type` as a function of the input mapping. */
  function SplitNucleic(values: Row): (r: Prepared)
    ensures r.Passed? ==> r.values.Keys == values.Keys
    ensures forall k :: k in values && k != "nucleic_acid_type" && r.Passed? ==> r.values[k] == values[k]
  {
    var v := if "nucleic_acid_type" in values then values["nucleic_acid_type"] else Null;
    if IsNull(v) then Passed(values)
    else if !v.Str? then Escaped(AttributeMissing("split"))
    else
      var tokens := NucleicTokens(v.s);
      match FirstInvalid(tokens)
      case Some(t) => Refused(NotNucleicAcidType(t))
      case None => Passed(WithNucleic(values, tokens))
  }

  /** A nucleic acid type cell that passes becomes a list of distinct members of the vocabulary. */
  lemma SplitNucleicTokens(values: Row)
    requires SplitNucleic(values).Passed? && "nucleic_acid_type" in values && !IsNull(values["nucleic_acid_type"])
    ensures var v := SplitNucleic(values).values["nucleic_acid_type"];
      v.List? && Distinct(v.items) && forall i :: 0 <= i < |v.items| ==> v.items[i] in NucleicAcidTypes
  {
    var tokens := NucleicTokens(values["nucleic_acid_type"].s);
    assert SplitNucleic(values).values["nucleic_acid_type"] == List(tokens);
  }

  /** The input mapping with its nucleic acid type cell replaced by the list of tokens. */
  function WithNucleic(values: Row, tokens: seq<string>): (r: Row)
    requires "nucleic_acid_type" in values
    ensures r.Keys == values.Keys && r["nucleic_acid_type"] == List(tokens)
    ensures forall k :: k in values && k != "nucleic_acid_type" ==> r[k] == values[k]
  {
    values["nucleic_acid_type" := List(tokens)]
  }

  /** `s.split(" ", 1)`: the text before the first space, and the rest when there is a space. */
  function SplitOnce(s: string): (r: (string, Option<string>))
    ensures ' ' !in r.0
    ensures r.1.None? ==> r.0 == s
    ensures r.1.Some? ==> s == r.0 + " " + r.1.value
  {
    if |s| == 0 then (s, None)
    else if s[0] == ' ' then ("", Some(s[1..]))
    else
      var rest := SplitOnce(s[1..]);
      ([s[0]] + rest.0, rest.1)
  }

  /** `GpasSummary.split_species` as a function of the input mapping. */
  function SplitSpeciesOf(values: Row): (r: Prepared)
    ensures !r.Refused?
    ensures r.Passed? ==> r.values.Keys == values.Keys + {"species", "sub_species"}
    ensures forall k :: k in values && k != "species" && k != "sub_species" && r.Passed? ==> r.values[k] == values[k]
  {
    if "Main Species" !in values then Escaped(KeyMissing("Main Species"))
    else
      var m := values["Main Species"];
      if IsNull(m) then Passed(values["species" := Null]["sub_species" := Null])
      else if !m.Str? then Escaped(AttributeMissing("split"))
      else
        var parts := SplitOnce(m.s);
        Passed(values["species" := Str(parts.0)]["sub_species" := if parts.1.Some? then Str(parts.1.value) else Null])
  }

  /**
   * "Main Species" split at its first space: species is the text before it, sub_species the
   * text after it (None when there is no space), and joining them back gives the original;
   * a null "Main Species" gives two Nones.
   */
  lemma SplitSpeciesRoundTrip(values: Row, main: string)
    requires "Main Species" in values && values["Main Species"] == Str(main)
    ensures SplitSpeciesOf(values).Passed?
    ensures var w := SplitSpeciesOf(values).values;
      w["species"].Str? && ' ' !in w["species"].s &&
      (if ' ' in main
       then w["sub_species"].Str? && main == w["species"].s + " " + w["sub_species"].s
       else w["sub_species"] == Null && w["species"].s == main)
  {
    var parts := SplitOnce(main);
    if parts.1.Some? {
      assert main[|parts.0|] == ' ';
    }
  }

  function Prepare(b: Before, values: Row): Prepared
  {
    match b
    case NoBefore => Passed(values)
    case SplitNucleicAcidType => SplitNucleic(values)
    case SplitSpecies => SplitSpeciesOf(values)
  }

  /**
   * The raw keyword mapping handed to the model constructor; the before validators rewrite
   * its entries in place.
   */
  class RawInput {
    var values: Row

    constructor (row: Row)
      ensures values == row
    {
      values := row;
    }

    method SplitNucleicAcidType() returns (p: Prepared)
      modifies this
      ensures p == SplitNucleic(old(values))
      ensures p.Passed? ==> values == p.values
    {
      var v := if "nucleic_acid_type" in values then values["nucleic_acid_type"] else Null;
      if IsNull(v) {
        return Passed(values);
      }
      if !v.Str? {
        return Escaped(AttributeMissing("split"));
      }
      var tokens := NucleicTokens(v.s);
      var bad := FindInvalid(tokens);
      if bad.Some? {
        return Refused(NotNucleicAcidType(bad.value));
      }
      values := WithNucleic(values, tokens);
      p := Passed(values);
    }

    method SplitSpecies() returns (p: Prepared)
      modifies this
      ensures p == SplitSpeciesOf(old(values))
      ensures p.Passed? ==> values == p.values
    {
      if "Main Species" !in values {
        return Escaped(KeyMissing("Main Species"));
      }
      var m := values["Main Species"];
      if IsNull(m) {
        values := values["species" := Null];
        values := values["sub_species" := Null];
      } else if !m.Str? {
        return Escaped(AttributeMissing("split"));
      } else {
        var parts := SplitOnce(m.s);
        values := values["species" := Str(parts.0)];
        values := values["sub_species" := if parts.1.Some? then Str(parts.1.value) else Null];
      }
      p := Passed(values);
    }
  }

  // ---------------------------------------------------------------------------------------
  // Model construction
  // ---------------------------------------------------------------------------------------

  /** A declared field read from the input: missing with a default is None, missing without is an error. */
  function CheckField(f: Field, values: Row, env: Env): Result<Value, Cause>
  {
    var key := FieldKey(f);
    if key !in values then (if f.hasDefault then Ok(Null) else Err(FieldRequired))
    else Check(f.kind, values[key], env)
  }

  datatype Collected = Collected(fields: map<string, Value>, errors: seq<FieldError>)

  /** Every field is validated, in declaration order, and every failure is collected. */
  function CheckFields(fs: seq<Field>, values: Row, env: Env): Collected
  {
    if |fs| == 0 then Collected(map[], [])
    else
      var c := CheckFields(fs[..|fs| - 1], values, env);
      var f := fs[|fs| - 1];
      match CheckField(f, values, env)
      case Ok(w) => c.(fields := c.fields[f.name := w])
      case Err(e) => c.(errors := c.errors + [FieldError(FieldKey(f), e)])
  }

  function Extras(s: Schema, values: Row): map<string, Value>
  {
    if s.allowExtra then map k | k in values && k !in Keys(s.fields) :: values[k] else map[]
  }

  /** `Model(**row)`: the before validator, then every field, then the extras. */
  function Validate(s: Schema, row: Row, env: Env): Checked
  {
    match Prepare(s.before, row)
    case Escaped(c) => Raised(c)
    case Refused(c) => Invalid([FieldError("", c)])
    case Passed(values) =>
      var c := CheckFields(s.fields, values, env);
      if |c.errors| > 0 then Invalid(c.errors)
      else Valid(Record(Names(s.fields), c.fields, Extras(s, values)))
  }

  /** No later field has the same name, so the value stored under that name is this field's. */
  predicate LastOfName(fs: seq<Field>, i: nat)
    requires i < |fs|
  {
    forall j :: i < j < |fs| ==> fs[j].name != fs[i].name
  }

  /** With no errors collected, every declared field is present and holds a conforming value. */
  lemma {:induction false} CheckFieldsSound(fs: seq<Field>, values: Row, env: Env, i: nat)
    requires CheckFields(fs, values, env).errors == []
    requires i < |fs| && LastOfName(fs, i)
    ensures fs[i].name in CheckFields(fs, values, env).fields
    ensures var w := CheckFields(fs, values, env).fields[fs[i].name];
      CheckField(fs[i], values, env) == Ok(w) &&
      (FieldKey(fs[i]) in values ==> Conforms(fs[i].kind, w, env)) &&
      (FieldKey(fs[i]) !in values ==> w == Null)
  {
    var init := fs[..|fs| - 1];
    var f := fs[|fs| - 1];
    match CheckField(f, values, env)
    case Err(e) =>
      assert false;
    case Ok(w) =>
      if i < |init| {
        assert init[i] == fs[i];
        CheckFieldsSound(init, values, env, i);
        assert f.name != fs[i].name;
      } else if FieldKey(f) in values {
        CheckSound(f.kind, values[FieldKey(f)], env);
      }
  }

  /** Every name in the collected fields is a declared field's name. */
  lemma {:induction false} CheckFieldsKeys(fs: seq<Field>, values: Row, env: Env)
    ensures forall n :: n in CheckFields(fs, values, env).fields ==> n in Names(fs)
  {
    if |fs| > 0 {
      CheckFieldsKeys(fs[..|fs| - 1], values, env);
    }
  }

  /** A valid record holds the declared field names in order, and no other field. */
  lemma ValidNames(s: Schema, row: Row, env: Env)
    requires Validate(s, row, env).Valid?
    ensures var r := Validate(s, row, env).rec;
      r.names == Names(s.fields) && forall n :: n in r.fields ==> n in r.names
  {
    CheckFieldsKeys(s.fields, Prepare(s.before, row).values, env);
  }

  /**
   * In a valid record each field holds a value of its kind, or None when it has a default and
   * the row left it out.
   */
  lemma ValidField(s: Schema, row: Row, env: Env, i: nat)
    requires Validate(s, row, env).Valid?
    requires i < |s.fields| && LastOfName(s.fields, i)
    ensures var r := Validate(s, row, env).rec;
      s.fields[i].name in r.fields &&
      ((s.fields[i].hasDefault && r.fields[s.fields[i].name] == Null) ||
       Conforms(s.fields[i].kind, r.fields[s.fields[i].name], env))
  {
    CheckFieldsSound(s.fields, Prepare(s.before, row).values, env, i);
  }

  /** In a valid record each field holds what validating its own cell of the prepared mapping gave. */
  lemma ValidFieldIs(s: Schema, row: Row, env: Env, i: nat)
    requires Validate(s, row, env).Valid?
    requires i < |s.fields| && LastOfName(s.fields, i)
    ensures s.fields[i].name in Validate(s, row, env).rec.fields
    ensures CheckField(s.fields[i], Prepare(s.before, row).values, env) == Ok(Validate(s, row, env).rec.fields[s.fields[i].name])
  {
    CheckFieldsSound(s.fields, Prepare(s.before, row).values, env, i);
  }

  /**
   * The nucleic acid type field, validated after the split, holds None or the distinct tokens of
   * the cell.
   */
  lemma NucleicFieldDistinct(row: Row, env: Env, w: Value)
    requires SplitNucleic(row).Passed?
    requires CheckField(Field("nucleic_acid_type", None, NoneOrNan(NucleicList), true), SplitNucleic(row).values, env) == Ok(w)
    ensures w.List? ==> Distinct(w.items)
  {
    var values := SplitNucleic(row).values;
    if w.List? {
      assert "nucleic_acid_type" in values;
      NucleicListKeeps(values["nucleic_acid_type"], env);
      if "nucleic_acid_type" in row && !IsNull(row["nucleic_acid_type"]) {
        SplitNucleicTokens(row);
      }
    }
  }

  /** A list the nucleic acid type kind accepts is kept as it is. */
  lemma NucleicListKeeps(v: Value, env: Env)
    ensures Check(NoneOrNan(NucleicList), v, env).Ok? && Check(NoneOrNan(NucleicList), v, env).value.List? ==>
      Check(NoneOrNan(NucleicList), v, env).value == v
  {
  }

  /** A field's entry in a record's mapping: present, and None by default or conforming to its kind. */
  ghost predicate FieldHolds(fl: Field, f: map<string, Value>, env: Env)
  {
    fl.name in f && ((fl.hasDefault && f[fl.name] == Null) || Conforms(fl.kind, f[fl.name], env))
  }

  /**
   * Build a model the way pydantic does: copy the keyword mapping, run the before validator on
   * it, then validate the declared fields one by one, collecting every error.
   */
  method Construct(s: Schema, row: Row, env: Env) returns (c: Checked)
    ensures c == Validate(s, row, env)
  {
    var input := new RawInput(row);
    var p: Prepared;
    match s.before {
      case NoBefore => p := Passed(row);
      case SplitNucleicAcidType => p := input.SplitNucleicAcidType();
      case SplitSpecies => p := input.SplitSpecies();
    }
    match p {
      case Escaped(cause) => return Raised(cause);
      case Refused(cause) => return Invalid([FieldError("", cause)]);
      case Passed(values) =>
        var fields: map<string, Value> := map[];
        var errors: seq<FieldError> := [];
        var i := 0;
        while i < |s.fields|
          invariant 0 <= i <= |s.fields|
          invariant Collected(fields, errors) == CheckFields(s.fields[..i], values, env)
        {
          var f := s.fields[i];
          assert s.fields[..i + 1][..i] == s.fields[..i];
          match CheckField(f, values, env) {
            case Ok(w) => fields := fields[f.name := w];
            case Err(e) => errors := errors + [FieldError(FieldKey(f), e)];
          }
          i := i + 1;
        }
        assert s.fields[..i] == s.fields;
        if |errors| > 0 {
          c := Invalid(errors);
        } else {
          c := Valid(Record(Names(s.fields), fields, Extras(s, values)));
        }
    }
  }

  /** Errors are only ever added: the errors of a prefix of the fields stay at the front. */
  lemma {:induction false} CheckFieldsGrow(fs: seq<Field>, n: nat, values: Row, env: Env)
    requires n <= |fs|
    ensures var e := CheckFields(fs, values, env).errors;
      var p := CheckFields(fs[..n], values, env).errors;
      |p| <= |e| && e[..|p|] == p
    decreases |fs| - n
  {
    if n < |fs| {
      CheckFieldsGrow(fs, n + 1, values, env);
      assert fs[..n + 1][..n] == fs[..n];
    } else {
      assert fs[..n] == fs;
    }
  }
}
