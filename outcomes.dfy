/**
 * The values that flow from a spreadsheet cell, through validation, into a database column,
 * and the causes of the failures the reconciler reports or raises.
 */
module Outcomes {

  datatype Option<+T> = None | Some(value: T)

  datatype Result<+T, +E> = Ok(value: T) | Err(error: E)

  /** Calendar date; whether it is a real date is the date parser's concern. */
  datatype Date = Date(year: int, month: int, day: int)

  /**
   * A Python value as pandas hands it over or as validation produces it.
   * `Null` is Python's None, `NaN` a float NaN (pandas' empty numeric cell), `NaT` pandas'
   * missing timestamp. A float is kept opaque: its printed form and, when it has no fractional
   * part, its integer value. `Stamp` is a pandas Timestamp at midnight (an Excel date cell),
   * `Day` a `datetime.date`, `List` a Python list of strings.
   */
  datatype Value =
    | Null
    | NaN
    | NaT
    | Str(s: string)
    | Int(i: int)
    | Float(repr: string, whole: Option<int>)
    | Bool(b: bool)
    | Day(d: Date)
    | Stamp(t: Date)
    | List(items: seq<string>)

  /** Why a field, a row or a whole batch failed. */
  datatype Cause =
    // per-field validation messages
    | FieldRequired
    | NotAString
    | TooShort(minLength: nat)
    | TooLong(maxLength: nat)
    | NotADate
    | DateUnparseable(text: string)
    | NotABool
    | NotAFloat
    | NotAnInt
    | NotPositive
    | NotAList
    | NotInVocabulary(allowed: seq<string>)
    | NotNucleicAcidType(token: string)
    | CountryUnknown(code: string)
    | SampleNameNotMapped
    // a required parent is not in the database (the ValueError of the find helpers)
    | RunMissing(runCode: Value)
    | SpecimenMissing(accession: Value, collectionDate: Value)
    | SampleMissing(guid: Value)
    // exceptions that are not ValueError: they leave the row loop
    | SheetMissing(sheet: string)
    | KeyMissing(key: string)
    | AttributeMissing(name: string)
    | NotIterable
    | NotSubscriptable
    | IndexOutOfRange(index: int)
}
