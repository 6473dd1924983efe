/**
 * The closed vocabularies and the three cell coercions applied before a field is validated:
 * NaN to None, blank-or-date-text to None or a date, and anything to its trimmed string form.
 * Python's `str()` and `str.strip()` are written out here because the coercions depend on them.
 */
module Constants {
  import opened Outcomes

  // ---------------------------------------------------------------------------------------
  // Vocabularies (Literal types)
  // ---------------------------------------------------------------------------------------

  /** The type of a catalog detail value; it names the column `value_<type>` the value goes to. */
  datatype ValueType = StrType | IntType | FloatType | BoolType | DateType | TextType

  const ValueTypes: seq<string> := ["str", "int", "float", "bool", "date", "text"]
  const SampleCategories: seq<string> := ["culture", "unclutured"]
  const NucleicAcidTypes: seq<string> := ["DNA", "RNA", "cDNA"]
  const SequencingMethods: seq<string> := ["illumina", "ont", "pacbio"]

  function ValueTypeName(t: ValueType): (name: string)
    ensures name in ValueTypes
  {
    match t
    case StrType => "str"
    case IntType => "int"
    case FloatType => "float"
    case BoolType => "bool"
    case DateType => "date"
    case TextType => "text"
  }

  /** The enum check on `value_type`: a string is accepted exactly when it is in the vocabulary. */
  function ParseValueType(s: string): (r: Option<ValueType>)
    ensures r.Some? <==> s in ValueTypes
  {
    if s == "str" then Some(StrType)
    else if s == "int" then Some(IntType)
    else if s == "float" then Some(FloatType)
    else if s == "bool" then Some(BoolType)
    else if s == "date" then Some(DateType)
    else if s == "text" then Some(TextType)
    else None
  }

  /** Names and parsing are inverse, so each value type has one column and each column one type. */
  lemma ValueTypeRoundTrip(t: ValueType, s: string)
    ensures ParseValueType(ValueTypeName(t)) == Some(t)
    ensures ParseValueType(s) == Some(t) ==> ValueTypeName(t) == s
  {
  }

  // ---------------------------------------------------------------------------------------
  // Python's str() of the values a cell can hold
  // ---------------------------------------------------------------------------------------

  predicate IsDigit(c: char)
  {
    '0' <= c <= '9'
  }

  predicate AllDigits(s: string)
  {
    forall i :: 0 <= i < |s| ==> IsDigit(s[i])
  }

  function DigitChar(d: nat): char
    requires d < 10
  {
    ('0' as int + d) as char
  }

  /** Decimal digits of a natural number, most significant first, no leading zero. */
  function Natural(n: nat): (s: string)
    ensures |s| >= 1 && AllDigits(s)
    ensures n > 0 ==> s[0] != '0'
    ensures n == 0 ==> s == "0"
    decreases n
  {
    if n < 10 then [DigitChar(n)] else Natural(n / 10) + [DigitChar(n % 10)]
  }

  /** `str(i)` for a Python int. */
  function Decimal(i: int): string
  {
    if i < 0 then "-" + Natural(-i) else Natural(i)
  }

  /** `int(s)` for a string of ASCII digits. */
  function ParseDigits(s: string): nat
    requires AllDigits(s)
  {
    if |s| == 0 then 0 else 10 * ParseDigits(s[..|s| - 1]) + (s[|s| - 1] as int - '0' as int)
  }

  /** Digit strings without a leading zero are exactly the printed naturals. */
  predicate Canonical(s: string)
  {
    |s| >= 1 && AllDigits(s) && (s[0] == '0' ==> |s| == 1)
  }

  lemma {:induction false} ParseNatural(n: nat)
    ensures ParseDigits(Natural(n)) == n
    decreases n
  {
    if n >= 10 {
      ParseNatural(n / 10);
      var s := Natural(n);
      assert s[..|s| - 1] == Natural(n / 10);
    }
  }

  lemma {:induction false} NaturalParse(s: string)
    requires Canonical(s)
    ensures Natural(ParseDigits(s)) == s
    decreases |s|
  {
    var n := ParseDigits(s);
    if |s| == 1 {
      assert s[..0] == [];
      assert n == s[0] as int - '0' as int;
    } else {
      var p := s[..|s| - 1];
      assert p[0] == s[0];
      ParseLeadingNonZero(p);
      NaturalParse(p);
      assert n / 10 == ParseDigits(p) && n % 10 == s[|s| - 1] as int - '0' as int;
    }
  }

  lemma {:induction false} ParseLeadingNonZero(s: string)
    requires |s| >= 1 && AllDigits(s) && s[0] != '0'
    ensures ParseDigits(s) >= 1
    decreases |s|
  {
    if |s| > 1 {
      ParseLeadingNonZero(s[..|s| - 1]);
    }
  }

  function Pad(s: string, width: nat): (r: string)
    ensures |r| >= width
    decreases width - |s|
  {
    if |s| >= width then s else Pad("0" + s, width)
  }

  /** `str(date)`: YYYY-MM-DD. */
  function DateText(d: Date): string
  {
    Pad(Decimal(d.year), 4) + "-" + Pad(Decimal(d.month), 2) + "-" + Pad(Decimal(d.day), 2)
  }

  function Quoted(items: seq<string>): string
  {
    if |items| == 0 then ""
    else if |items| == 1 then "'" + items[0] + "'"
    else "'" + items[0] + "', " + Quoted(items[1..])
  }

  /** `str(x)` for every value a row can hold. */
  function Text(v: Value): string
  {
    match v
    case Null => "None"
    case NaN => "nan"
    case NaT => "NaT"
    case Str(s) => s
    case Int(i) => Decimal(i)
    case Float(repr, _) => repr
    case Bool(b) => if b then "True" else "False"
    case Day(d) => DateText(d)
    case Stamp(t) => DateText(t) + " 00:00:00"
    case List(items) => "[" + Quoted(items) + "]"
  }

  // ---------------------------------------------------------------------------------------
  // str.strip()
  // ---------------------------------------------------------------------------------------

  /** Python's `str.isspace` for one character. */
  predicate IsSpace(c: char)
  {
    c == ' ' || '\t' <= c <= '\r' || '\U{1C}' <= c <= '\U{1F}' || c == '\U{85}' || c == '\U{A0}'
    || c == '\U{1680}' || '\U{2000}' <= c <= '\U{200A}' || c == '\U{2028}' || c == '\U{2029}'
    || c == '\U{202F}' || c == '\U{205F}' || c == '\U{3000}'
  }

  predicate Trimmed(s: string)
  {
    |s| == 0 || (!IsSpace(s[0]) && !IsSpace(s[|s| - 1]))
  }

  predicate AllSpace(s: string)
  {
    forall i :: 0 <= i < |s| ==> IsSpace(s[i])
  }

  function StripLeft(s: string): (r: string)
    ensures |r| <= |s| && r == s[|s| - |r|..]
    ensures AllSpace(s[..|s| - |r|])
    ensures |r| == 0 || !IsSpace(r[0])
  {
    if |s| > 0 && IsSpace(s[0]) then StripLeft(s[1..]) else s
  }

  function StripRight(s: string): (r: string)
    ensures |r| <= |s| && r == s[..|r|]
    ensures AllSpace(s[|r|..])
    ensures |r| == 0 || !IsSpace(r[|r| - 1])
  {
    if |s| > 0 && IsSpace(s[|s| - 1]) then StripRight(s[..|s| - 1]) else s
  }

  /** `str.strip()`: the text between the leading and the trailing whitespace. */
  function Strip(s: string): (r: string)
    ensures Trimmed(r) && |r| <= |s|
  {
    StripRight(StripLeft(s))
  }

  /** What `strip()` keeps is an infix of the string, and everything it cuts off is whitespace. */
  lemma StripInfix(s: string)
    ensures exists i, j :: 0 <= i <= j <= |s| && Strip(s) == s[i..j] && AllSpace(s[..i]) && AllSpace(s[j..])
  {
    var l := StripLeft(s);
    var r := StripRight(l);
    var i := |s| - |l|;
    var j := i + |r|;
    assert r == s[i..j];
    assert s[j..] == l[|r|..];
  }

  /** Stripping a string that has no surrounding whitespace changes nothing. */
  lemma StripTrimmed(s: string)
    requires Trimmed(s)
    ensures Strip(s) == s
  {
  }

  lemma StripIdempotent(s: string)
    ensures Strip(Strip(s)) == Strip(s)
  {
    StripTrimmed(Strip(s));
  }

  // ---------------------------------------------------------------------------------------
  // The coercions
  // ---------------------------------------------------------------------------------------

  /** `pd.isnull` / `pd.isna` on a scalar. */
  predicate IsNull(v: Value)
  {
    v == Null || v == NaN || v == NaT
  }

  /** NaN becomes None; every other value is left as it is. */
  function CoerceNanToNone(v: Value): (r: Value)
    ensures r != NaN
    ensures IsNull(r) == IsNull(v)
    ensures v != NaN ==> r == v
  {
    if v == NaN then Null else v
  }

  /**
   * Blank text is None, other text is handed to the date parser (which may fail), a null is
   * None, and anything else passes through untouched for the date validator to judge.
   */
  function CoerceNatToNone(v: Value, parse: string -> Option<Date>): (r: Result<Value, Cause>)
    ensures v.Str? && Strip(v.s) == "" ==> r == Ok(Null)
    ensures v.Str? && Strip(v.s) != "" ==> (r.Ok? <==> parse(v.s).Some?)
    ensures v.Str? && r.Ok? && r.value != Null ==> r.value == Day(parse(v.s).value)
    ensures IsNull(v) ==> r == Ok(Null)
    ensures !v.Str? && !IsNull(v) ==> r == Ok(v)
    ensures r.Ok? ==> !r.value.Str? && r.value != NaN && r.value != NaT
  {
    match v
    case Str(s) =>
      if Strip(s) == "" then Ok(Null)
      else (match parse(s)
        case Some(d) => Ok(Day(d))
        case None => Err(DateUnparseable(s)))
    case _ => if IsNull(v) then Ok(Null) else Ok(v)
  }

  /** Applying the date coercion to its own output changes nothing. */
  lemma CoerceNatIdempotent(v: Value, parse: string -> Option<Date>)
    requires CoerceNatToNone(v, parse).Ok?
    ensures CoerceNatToNone(CoerceNatToNone(v, parse).value, parse) == CoerceNatToNone(v, parse)
  {
  }

  /** `str(x).strip()`. */
  function CoerceToStr(v: Value): (r: string)
    ensures Trimmed(r)
    ensures v.Str? ==> r == Strip(v.s)
  {
    Strip(Text(v))
  }

  /** The string coercion is idempotent: a coerced string coerces to itself. */
  lemma CoerceToStrIdempotent(v: Value)
    ensures CoerceToStr(Str(CoerceToStr(v))) == CoerceToStr(v)
  {
    StripIdempotent(Text(v));
  }
}
