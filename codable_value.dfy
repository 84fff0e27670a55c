/**
 * `CodableValue`, the closed JSON-like union that carries Live Activity
 * attributes and content state, and its `Codable` conformance.
 *
 * The wire is a JSON value `Json`; a JSON number is its mathematical value,
 * so the decoder cannot tell a whole `Double` from an `Int`.
 */
module CodableValues {
  import opened Wrappers
  import opened Numbers

  datatype CodableValue =
    | String(s: string)
    | Int(i: int64)
    | Double(d: real)
    | Bool(b: bool)
    | Null
    | Array(items: seq<CodableValue>)
    | Dictionary(entries: map<string, CodableValue>)

  /** A JSON value as an `Encoder`/`Decoder` single-value container sees it. */
  datatype Json =
    | JNull
    | JBool(b: bool)
    | JNumber(n: real)
    | JString(s: string)
    | JArray(items: seq<Json>)
    | JObject(fields: map<string, Json>)

  /** `encode(to:)`: each case writes its payload; `.null` writes `nil`. */
  function Encode(v: CodableValue): (j: Json)
    ensures j.JNull? <==> v.Null?
    ensures j.JBool? <==> v.Bool?
    ensures j.JString? <==> v.String?
    ensures j.JNumber? <==> v.Int? || v.Double?
    ensures j.JArray? <==> v.Array?
    ensures v.Array? ==> |j.items| == |v.items|
    ensures j.JObject? <==> v.Dictionary?
    ensures v.Dictionary? ==> j.fields.Keys == v.entries.Keys
  {
    match v
    case String(s) => JString(s)
    case Int(i) => JNumber(i as real)
    case Double(d) => JNumber(d)
    case Bool(b) => JBool(b)
    case Null => JNull
    case Array(items) => JArray(seq(|items|, k requires 0 <= k < |items| => Encode(items[k])))
    case Dictionary(entries) => JObject(map key | key in entries :: Encode(entries[key]))
  }

  // What `try? container.decode(T.self)` yields for each scalar type.

  function TryBool(j: Json): Option<bool> {
    if j.JBool? then Some(j.b) else None
  }

  function TryInt(j: Json): Option<int64> {
    if j.JNumber? && FitsInt64(j.n) then Some(j.n.Floor) else None
  }

  function TryDouble(j: Json): Option<real> {
    if j.JNumber? then Some(j.n) else None
  }

  function TryString(j: Json): Option<string> {
    if j.JString? then Some(j.s) else None
  }

  /**
   * `init(from:)`: try nil, Bool, Int, Double, String, array, dictionary in
   * that order and take the first that succeeds; `None` is the thrown
   * "Unsupported value" error.
   */
  function Decode(j: Json): (r: Option<CodableValue>)
    ensures r.Some? ==> (r.value.Null? <==> j.JNull?)
    ensures r.Some? ==> (r.value.Bool? <==> j.JBool?)
    ensures r.Some? ==> (r.value.String? <==> j.JString?)
    ensures r.Some? ==> (r.value.Int? || r.value.Double? <==> j.JNumber?)
    ensures r.Some? ==> (r.value.Array? <==> j.JArray?)
    ensures r.Some? && r.value.Array? ==> |r.value.items| == |j.items|
    ensures r.Some? ==> (r.value.Dictionary? <==> j.JObject?)
    ensures r.Some? && r.value.Dictionary? ==> r.value.entries.Keys == j.fields.Keys
  {
    if j.JNull? then Some(Null)
    else if TryBool(j).Some? then Some(Bool(TryBool(j).value))
    else if TryInt(j).Some? then Some(Int(TryInt(j).value))
    else if TryDouble(j).Some? then Some(Double(TryDouble(j).value))
    else if TryString(j).Some? then Some(String(TryString(j).value))
    else if j.JArray? && forall k :: 0 <= k < |j.items| ==> Decode(j.items[k]).Some? then
      Some(Array(seq(|j.items|, k requires 0 <= k < |j.items| => Decode(j.items[k]).value)))
    else if j.JObject? && forall key :: key in j.fields ==> Decode(j.fields[key]).Some? then
      Some(Dictionary(map key | key in j.fields :: Decode(j.fields[key]).value))
    else None
  }

  /** What a decoder reads back after `Encode`: a whole `Double` in `Int` range comes back as `.int`. */
  function Normalized(v: CodableValue): CodableValue
  {
    match v
    case Double(d) => if FitsInt64(d) then Int(d.Floor) else v
    case Array(items) => Array(seq(|items|, k requires 0 <= k < |items| => Normalized(items[k])))
    case Dictionary(entries) => Dictionary(map key | key in entries :: Normalized(entries[key]))
    case _ => v
  }

  /** No `.double` anywhere inside holds a whole number that fits an `Int`. */
  predicate NoWholeDoubles(v: CodableValue)
  {
    match v
    case Double(d) => !FitsInt64(d)
    case Array(items) => forall k :: 0 <= k < |items| ==> NoWholeDoubles(items[k])
    case Dictionary(entries) => forall key :: key in entries ==> NoWholeDoubles(entries[key])
    case _ => true
  }

  /** Decoding never throws on a JSON value: every shape matches one of the tried types. */
  lemma {:induction false} DecodeTotal(j: Json)
    ensures Decode(j).Some?
  {
    match j
    case JArray(items) =>
      forall k | 0 <= k < |items| ensures Decode(items[k]).Some? { DecodeTotal(items[k]); }
    case JObject(fields) =>
      forall key | key in fields ensures Decode(fields[key]).Some? { DecodeTotal(fields[key]); }
    case _ =>
  }

  /** The trial order decides numbers: one that fits an `Int` is read as `.int`, never as `.double`. */
  lemma DecodeNumber(n: real)
    ensures Decode(JNumber(n)) == Some(if FitsInt64(n) then Int(n.Floor) else Double(n))
  {
  }

  /** Decoding a JSON array whose elements decode to the normalized items. */
  lemma DecodeArrayOf(js: seq<Json>, items: seq<CodableValue>)
    requires |js| == |items|
    requires forall k :: 0 <= k < |js| ==> Decode(js[k]) == Some(Normalized(items[k]))
    ensures Decode(JArray(js)) == Some(Normalized(Array(items)))
  {
    assert seq(|js|, k requires 0 <= k < |js| => Decode(js[k]).value)
        == seq(|items|, k requires 0 <= k < |items| => Normalized(items[k]));
  }

  /** Decoding a JSON object whose fields decode to the normalized entries. */
  lemma DecodeObjectOf(js: map<string, Json>, entries: map<string, CodableValue>)
    requires js.Keys == entries.Keys
    requires forall key :: key in js ==> Decode(js[key]) == Some(Normalized(entries[key]))
    ensures Decode(JObject(js)) == Some(Normalized(Dictionary(entries)))
  {
    var ds := map key | key in js :: Decode(js[key]).value;
    var ns := map key | key in entries :: Normalized(entries[key]);
    assert ds == ns;
    assert Decode(JObject(js)) == Some(Dictionary(ds));
  }

  /** Encoding then decoding gives back the value up to `Normalized`. */
  lemma {:induction false} DecodeEncode(v: CodableValue)
    ensures Decode(Encode(v)) == Some(Normalized(v))
  {
    match v
    case Int(i) =>
      assert FitsInt64(i as real);
    case Array(items) =>
      var js := seq(|items|, k requires 0 <= k < |items| => Encode(items[k]));
      forall k | 0 <= k < |items| ensures Decode(js[k]) == Some(Normalized(items[k])) {
        DecodeEncode(items[k]);
      }
      DecodeArrayOf(js, items);
    case Dictionary(entries) =>
      var js := map key | key in entries :: Encode(entries[key]);
      forall key | key in entries ensures Decode(js[key]) == Some(Normalized(entries[key])) {
        DecodeEncode(entries[key]);
      }
      DecodeObjectOf(js, entries);
    case _ =>
  }

  /** `Normalized` changes nothing when no whole `Double` occurs. */
  lemma {:induction false} NormalizedIdentity(v: CodableValue)
    requires NoWholeDoubles(v)
    ensures Normalized(v) == v
  {
    match v
    case Array(items) =>
      forall k | 0 <= k < |items| ensures Normalized(items[k]) == items[k] {
        NormalizedIdentity(items[k]);
      }
    case Dictionary(entries) =>
      forall key | key in entries ensures Normalized(entries[key]) == entries[key] {
        NormalizedIdentity(entries[key]);
      }
    case _ =>
  }

  /** Exact round trip for every value without whole doubles. */
  lemma RoundTrip(v: CodableValue)
    requires NoWholeDoubles(v)
    ensures Decode(Encode(v)) == Some(v)
  {
    DecodeEncode(v);
    NormalizedIdentity(v);
  }

  /** The other direction holds for every JSON value: decoding loses nothing that encoding writes. */
  lemma {:induction false} EncodeDecode(j: Json)
    ensures Decode(j).Some? && Encode(Decode(j).value) == j
  {
    DecodeTotal(j);
    match j
    case JNumber(n) =>
      if FitsInt64(n) { assert n.Floor as real == n; }
    case JArray(items) =>
      forall k | 0 <= k < |items| ensures Decode(items[k]).Some? && Encode(Decode(items[k]).value) == items[k] {
        EncodeDecode(items[k]);
      }
    case JObject(fields) =>
      forall key | key in fields ensures Decode(fields[key]).Some? && Encode(Decode(fields[key]).value) == fields[key] {
        EncodeDecode(fields[key]);
      }
    case _ =>
  }

  /** A whole double in range is the one value the round trip changes: it comes back as `.int`. */
  lemma WholeDoubleComesBackAsInt()
    ensures Decode(Encode(Double(2.0))) == Some(Int(2))
  {
    DecodeEncode(Double(2.0));
  }

  /**
   * The wrappers encode their optional `codable` field: `nil` is written as
   * JSON null, so it is read back as `.null`.
   */
  function EncodeOptional(c: Option<CodableValue>): (j: Json)
    ensures c.None? ==> Decode(j) == Some(Null)
    ensures c.Some? ==> Decode(j) == Some(Normalized(c.value))
  {
    match c
    case None => JNull
    case Some(v) => DecodeEncode(v); Encode(v)
  }
}
