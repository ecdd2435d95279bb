/**
 * The closed set of field types, their names, and the coercion of a raw
 * logfmt value string to a typed value (schema.go, lines 11-72).
 */
module Types {
  import opened Wrappers

  /** Go's int64, the representation of time.Duration (nanoseconds). */
  newtype int64 = x: int | -0x8000_0000_0000_0000 <= x < 0x8000_0000_0000_0000

  /** A float64 as its IEEE-754 bit pattern; no arithmetic on it is modelled. */
  type Float64 = bv64

  /** The field types, in the order of their iota values. */
  datatype Type = NumberType | DurationType | StringType | TimeType | BoolType
  {
    /** The textual name of a type; TimeType has none and falls to "invalid". */
    function String(): (s: string)
      ensures s == "invalid" <==> this == TimeType
    {
      match this
      case NumberType => "number"
      case DurationType => "duration"
      case StringType => "string"
      case BoolType => "bool"
      case TimeType => "invalid"
    }
  }

  /** The names ParseType accepts. */
  const TypeNames: set<string> := {"number", "duration", "string", "bool"}

  /** The errors the core can report. */
  datatype Error =
    | InvalidType(text: string)          // ParseType: unknown type name
    | InvalidSyntax                      // Set: no ':' in a declaration
    | InvalidNumber(text: string)        // the float parser rejected the text
    | InvalidDuration(text: string)      // the duration parser rejected the text
    | InvalidBool(text: string)          // strconv.ParseBool rejected the text
    | UnsupportedType                    // ParseValue on a type without a parser
    | KeyError(key: string, cause: Error) // a field of a record failed to parse
    | DecodeError(msg: string)           // reported by the logfmt decoder
    | EncodeError(msg: string)           // reported by the JSON encoder
    | EOF                                // io.EOF: the input ended cleanly

  /** A typed field value: what ParseValue stores in the record's map. */
  datatype Value =
    | Number(bits: Float64)
    | Duration(nanos: int64)
    | Str(s: string)
    | Bool(b: bool)
  {
    /** The value has the dynamic type that a field declared with `t` produces. */
    predicate Is(t: Type) {
      match this
      case Number(_) => t == NumberType
      case Duration(_) => t == DurationType
      case Str(_) => t == StringType
      case Bool(_) => t == BoolType
    }
  }

  /**
   * The library grammars the core delegates to and that are not modelled:
   * strconv.ParseFloat(s, 64) and time.ParseDuration, each as a partial function.
   */
  datatype Parsers = Parsers(float: string -> Option<Float64>, duration: string -> Option<int64>)

  /** Inverse of String on the four named types; every other string is an InvalidType error. */
  function ParseType(s: string): (r: Result<Type, Error>)
    ensures r.Success? <==> s in TypeNames
    ensures r.Success? ==> r.value.String() == s && r.value != TimeType
    ensures r.Failure? ==> r.error == InvalidType(s)
  {
    match s
    case "number" => Success(NumberType)
    case "duration" => Success(DurationType)
    case "string" => Success(StringType)
    case "bool" => Success(BoolType)
    case _ => Failure(InvalidType(s))
  }

  /** Every type with a name survives the name round trip; TimeType's name is rejected. */
  lemma {:induction false} TypeNameRoundTrip(t: Type)
    ensures t != TimeType ==> ParseType(t.String()) == Success(t)
    ensures t == TimeType ==> ParseType(t.String()) == Failure(InvalidType("invalid"))
  {
    match t
    case NumberType =>
    case DurationType =>
    case StringType =>
    case BoolType =>
    case TimeType =>
  }

  /** The spellings strconv.ParseBool reads as true and as false. */
  const TrueWords: set<string> := {"1", "t", "T", "TRUE", "true", "True"}
  const FalseWords: set<string> := {"0", "f", "F", "FALSE", "false", "False"}

  /** strconv.ParseBool. */
  function ParseBool(s: string): (r: Result<bool, Error>)
    ensures r.Success? <==> s in TrueWords + FalseWords
    ensures r.Success? ==> (r.value <==> s in TrueWords)
    ensures r.Failure? ==> r.error == InvalidBool(s)
  {
    if s in TrueWords then Success(true)
    else if s in FalseWords then Success(false)
    else Failure(InvalidBool(s))
  }

  /** Coerces the text of a field to the type declared for it. */
  function ParseValue(p: Parsers, t: Type, s: string): (r: Result<Value, Error>)
    ensures r.Success? ==> r.value.Is(t)
    ensures t == StringType ==> r == Success(Str(s))
    ensures t == TimeType ==> r == Failure(UnsupportedType)
    ensures t == BoolType ==> (r.Success? <==> s in TrueWords + FalseWords)
    ensures t == BoolType && r.Success? ==> r.value == Bool(s in TrueWords)
    ensures t == BoolType && r.Failure? ==> r.error == InvalidBool(s)
    ensures t == NumberType ==> (r.Success? <==> p.float(s).Some?)
    ensures t == NumberType && r.Success? ==> r.value == Number(p.float(s).value)
    ensures t == NumberType && r.Failure? ==> r.error == InvalidNumber(s)
    ensures t == DurationType ==> (r.Success? <==> p.duration(s).Some?)
    ensures t == DurationType && r.Success? ==> r.value == Duration(p.duration(s).value)
    ensures t == DurationType && r.Failure? ==> r.error == InvalidDuration(s)
  {
    match t
    case NumberType =>
      (match p.float(s)
       case Some(f) => Success(Number(f))
       case None => Failure(InvalidNumber(s)))
    case DurationType =>
      (match p.duration(s)
       case Some(d) => Success(Duration(d))
       case None => Failure(InvalidDuration(s)))
    case BoolType =>
      (match ParseBool(s)
       case Success(b) => Success(Bool(b))
       case Failure(e) => Failure(e))
    case StringType => Success(Str(s))
    case TimeType => Failure(UnsupportedType)
  }
}
