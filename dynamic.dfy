/**
 * Runtime-typed values as they cross the bridge: Swift's `Any` (with the
 * runtime type each value carries) and Nitro's `AnyValue` / `AnyMap`.
 *
 * Swift `Double` is modelled by its mathematical value (`real`); rounding,
 * NaN and infinities are not represented. Swift `Int` and `Int64` are both
 * signed 64-bit integers but distinct runtime types, so a cast from one to
 * the other fails.
 */
module Dynamic {
  import opened Wrappers
  import opened Numbers

  /** Foundation `Date`, by its `timeIntervalSince1970` in seconds. */
  datatype Date = Date(sinceEpoch: real)

  /** Nitro's `AnyValue`: the values a JavaScript object can hold. */
  datatype AnyValue =
    | NullValue
    | NumberValue(number: real)
    | BoolValue(boolean: bool)
    | BigIntValue(bigint: int64)
    | StringValue(text: string)
    | ArrayValue(items: seq<AnyValue>)
    | ObjectValue(fields: map<string, AnyValue>)

  /** Nitro's `AnyMap`: a JavaScript object passed by key. */
  type AnyMap = map<string, AnyValue>

  /**
   * A Swift `Any`, tagged with its dynamic type.
   *   Int / Int64        Swift `Int` and `Int64`
   *   NSNumber           a Foundation number, as `JSONSerialization` produces
   *   List / Dict        `[Any]` and `[String: Any]`
   *   Boxed              a Nitro `AnyValue` enum value held in an `Any`
   *   Unsupported        anything else (closures, class instances, ...)
   */
  datatype Dyn =
    | Str(s: string)
    | Int(i: int64)
    | Int64(i64: int64)
    | Double(d: real)
    | Bool(b: bool)
    | NSNull
    | NSNumber(n: real)
    | DateValue(date: Date)
    | List(elems: seq<Dyn>)
    | Dict(entries: map<string, Dyn>)
    | Boxed(any: AnyValue)
    | Unsupported

  // Swift's conditional casts `value as? T`. A Foundation number converts to
  // a Swift number type only when the conversion is exact, and to `Bool`
  // only when it is 0 or 1.

  function AsString(v: Dyn): (r: Option<string>)
    ensures r.Some? <==> v.Str?
  {
    if v.Str? then Some(v.s) else None
  }

  function AsInt(v: Dyn): (r: Option<int64>)
    ensures r.Some? <==> v.Int? || (v.NSNumber? && FitsInt64(v.n))
    ensures r.Some? && v.NSNumber? ==> r.value as real == v.n
  {
    match v
    case Int(i) => Some(i)
    case NSNumber(n) => if FitsInt64(n) then Some(n.Floor) else None
    case _ => None
  }

  function AsInt64(v: Dyn): (r: Option<int64>)
    ensures r.Some? <==> v.Int64? || (v.NSNumber? && FitsInt64(v.n))
    ensures r.Some? && v.NSNumber? ==> r.value as real == v.n
  {
    match v
    case Int64(i) => Some(i)
    case NSNumber(n) => if FitsInt64(n) then Some(n.Floor) else None
    case _ => None
  }

  function AsDouble(v: Dyn): (r: Option<real>)
    ensures r.Some? <==> v.Double? || v.NSNumber?
  {
    match v
    case Double(d) => Some(d)
    case NSNumber(n) => Some(n)
    case _ => None
  }

  function AsBool(v: Dyn): (r: Option<bool>)
    ensures r.Some? <==> v.Bool? || (v.NSNumber? && (v.n == 0.0 || v.n == 1.0))
    ensures r.Some? && v.NSNumber? ==> (r.value <==> v.n == 1.0)
  {
    match v
    case Bool(b) => Some(b)
    case NSNumber(n) => if n == 0.0 then Some(false) else if n == 1.0 then Some(true) else None
    case _ => None
  }

  function AsDate(v: Dyn): (r: Option<Date>)
    ensures r.Some? <==> v.DateValue?
  {
    if v.DateValue? then Some(v.date) else None
  }

  /** `as? [String: AnyValue]`: a dictionary every value of which is a Nitro `AnyValue`. */
  function AsAnyValueDict(v: Dyn): (r: Option<map<string, AnyValue>>)
    ensures r.Some? <==> v.Dict? && forall k :: k in v.entries ==> v.entries[k].Boxed?
    ensures r.Some? ==> r.value.Keys == v.entries.Keys
  {
    if v.Dict? && forall k :: k in v.entries ==> v.entries[k].Boxed? then
      Some(map k | k in v.entries :: v.entries[k].any)
    else None
  }
}
