/**
 * The Nitro `AnyMap` adapter, `HashableDict`, `serializeAnyMap` and push-token
 * formatting from the ActivityKit module's native utilities.
 */
module ActivityKitUtils {
  import opened Wrappers
  import opened Numbers
  import opened Dynamic

  // `AnyMap.isBool(key:)` and its siblings: false when the key is absent.

  predicate IsBool(m: AnyMap, key: string) { key in m && m[key].BoolValue? }
  predicate IsArray(m: AnyMap, key: string) { key in m && m[key].ArrayValue? }
  predicate IsDouble(m: AnyMap, key: string) { key in m && m[key].NumberValue? }
  predicate IsObject(m: AnyMap, key: string) { key in m && m[key].ObjectValue? }
  predicate IsString(m: AnyMap, key: string) { key in m && m[key].StringValue? }
  predicate IsBigInt(m: AnyMap, key: string) { key in m && m[key].BigIntValue? }
  predicate IsNull(m: AnyMap, key: string) { key in m && m[key].NullValue? }

  /** `getArray(key:)` hands back an `[AnyValue]`: its elements stay Nitro enum values. */
  function BoxedList(items: seq<AnyValue>): (r: Dyn)
    ensures r.List? && |r.elems| == |items|
    ensures forall k :: 0 <= k < |items| ==> r.elems[k] == Boxed(items[k])
  {
    List(seq(|items|, k requires 0 <= k < |items| => Boxed(items[k])))
  }

  /** `getObject(key:)` hands back a `[String: AnyValue]`. */
  function BoxedDict(fields: map<string, AnyValue>): (r: Dyn)
    ensures r.Dict? && r.entries.Keys == fields.Keys
    ensures forall key :: key in fields ==> r.entries[key] == Boxed(fields[key])
  {
    Dict(map key | key in fields :: Boxed(fields[key]))
  }

  /**
   * `getAnyMapValue`: the first of the checks bool, array, double, object,
   * string, bigint that holds picks the getter; null and an absent key give
   * nil. The tags exclude each other, so the order of the checks does not
   * change the result.
   */
  function GetAnyMapValue(m: AnyMap, key: string): (r: Option<Dyn>)
    ensures r.None? <==> key !in m || m[key].NullValue?
    ensures key in m && m[key].BoolValue? ==> r == Some(Dyn.Bool(m[key].boolean))
    ensures key in m && m[key].ArrayValue? ==> r == Some(BoxedList(m[key].items))
    ensures key in m && m[key].NumberValue? ==> r == Some(Dyn.Double(m[key].number))
    ensures key in m && m[key].ObjectValue? ==> r == Some(BoxedDict(m[key].fields))
    ensures key in m && m[key].StringValue? ==> r == Some(Str(m[key].text))
    ensures key in m && m[key].BigIntValue? ==> r == Some(Int64(m[key].bigint))
  {
    if IsBool(m, key) then Some(Dyn.Bool(m[key].boolean))
    else if IsArray(m, key) then Some(BoxedList(m[key].items))
    else if IsDouble(m, key) then Some(Dyn.Double(m[key].number))
    else if IsObject(m, key) then Some(BoxedDict(m[key].fields))
    else if IsString(m, key) then Some(Str(m[key].text))
    else if IsBigInt(m, key) then Some(Int64(m[key].bigint))
    else if IsNull(m, key) then None
    else None
  }

  /** The dictionary `anyMapToDictionary` builds. */
  function DictionaryOf(m: AnyMap): (r: map<string, Dyn>)
    ensures forall key :: key in r <==> key in m && !m[key].NullValue?
    ensures forall key :: key in r ==> GetAnyMapValue(m, key) == Some(r[key])
  {
    map key | key in m && GetAnyMapValue(m, key).Some? :: GetAnyMapValue(m, key).value
  }

  /** `anyMapToDictionary`: `dict[key] = getAnyMapValue(...)` for every key; assigning nil removes the key. */
  method AnyMapToDictionary(m: AnyMap) returns (dict: map<string, Dyn>)
    ensures dict == DictionaryOf(m)
  {
    dict := map[];
    var todo := m.Keys;
    while todo != {}
      invariant todo <= m.Keys
      invariant dict == map key | key in m.Keys - todo && GetAnyMapValue(m, key).Some? :: GetAnyMapValue(m, key).value
      decreases todo
    {
      var key :| key in todo;
      var value := GetAnyMapValue(m, key);
      if value.Some? {
        dict := dict[key := value.value];
      } else {
        dict := dict - {key};
      }
      todo := todo - {key};
    }
  }

  /** The keys of the result are exactly the keys whose value is not null. */
  lemma DictionaryOfKeys(m: AnyMap)
    ensures DictionaryOf(m).Keys == set key | key in m && !m[key].NullValue?
  {
  }

  /**
   * `HashableDict.init?`: fails as soon as a value cannot be boxed as
   * `AnyHashable`, otherwise keeps every entry. Whether a dynamic type is
   * hashable is Swift's conformance lookup, given here as `hashable`.
   */
  method HashableDictInit(original: map<string, Dyn>, hashable: Dyn -> bool) returns (r: Option<map<string, Dyn>>)
    ensures r.None? <==> exists key :: key in original && !hashable(original[key])
    ensures r.Some? ==> r.value == original
  {
    var newDict: map<string, Dyn> := map[];
    var todo := original.Keys;
    while todo != {}
      invariant todo <= original.Keys
      invariant forall key :: key in original.Keys - todo ==> hashable(original[key])
      invariant newDict == map key | key in original.Keys - todo :: original[key]
      decreases todo
    {
      var key :| key in todo;
      if !hashable(original[key]) {
        return None;
      }
      newDict := newDict[key := original[key]];
      todo := todo - {key};
    }
    return Some(newDict);
  }

  /**
   * What the five independent `if`s of `serializeAnyMap` leave for one entry:
   * each check that holds overwrites the previous write, so the LAST check
   * that holds (Bool, String, Double, Int64, `[String: AnyValue]`) wins.
   */
  function SerializedValue(v: Dyn): (r: Option<AnyValue>)
    ensures r.None? <==> AsBool(v).None? && AsString(v).None? && AsDouble(v).None? &&
                          AsInt64(v).None? && AsAnyValueDict(v).None?
    ensures r.Some? ==> !r.value.NullValue? && !r.value.ArrayValue?
    ensures r.Some? && r.value.ObjectValue? ==> AsAnyValueDict(v) == Some(r.value.fields)
    ensures r.Some? && r.value.BigIntValue? ==>
              AsInt64(v) == Some(r.value.bigint) && AsAnyValueDict(v).None?
    ensures r.Some? && r.value.NumberValue? ==>
              AsDouble(v) == Some(r.value.number) && AsInt64(v).None? && AsAnyValueDict(v).None?
    ensures r.Some? && r.value.StringValue? ==>
              AsString(v) == Some(r.value.text) && AsDouble(v).None? && AsInt64(v).None? && AsAnyValueDict(v).None?
    ensures r.Some? && r.value.BoolValue? ==>
              AsBool(v) == Some(r.value.boolean) && AsString(v).None? && AsDouble(v).None? &&
              AsInt64(v).None? && AsAnyValueDict(v).None?
  {
    if AsAnyValueDict(v).Some? then Some(ObjectValue(AsAnyValueDict(v).value))
    else if AsInt64(v).Some? then Some(BigIntValue(AsInt64(v).value))
    else if AsDouble(v).Some? then Some(NumberValue(AsDouble(v).value))
    else if AsString(v).Some? then Some(StringValue(AsString(v).value))
    else if AsBool(v).Some? then Some(BoolValue(AsBool(v).value))
    else None
  }

  /** The `AnyMap` `serializeAnyMap` returns. */
  function Serialized(metadata: Option<map<string, Dyn>>): (r: AnyMap)
    ensures metadata.None? ==> r == map[]
    ensures metadata.Some? ==> forall key :: key in r <==> key in metadata.value && SerializedValue(metadata.value[key]).Some?
    ensures metadata.Some? ==> forall key :: key in r ==> SerializedValue(metadata.value[key]) == Some(r[key])
  {
    match metadata
    case None => map[]
    case Some(m) => map key | key in m && SerializedValue(m[key]).Some? :: SerializedValue(m[key]).value
  }

  /** `serializeAnyMap`: for every entry, five independent type checks, each writing through its setter. */
  method SerializeAnyMap(metadata: Option<map<string, Dyn>>) returns (serialized: AnyMap)
    ensures serialized == Serialized(metadata)
  {
    serialized := map[];
    if metadata.Some? {
      var m := metadata.value;
      var todo := m.Keys;
      while todo != {}
        invariant todo <= m.Keys
        invariant serialized == map key | key in m.Keys - todo && SerializedValue(m[key]).Some? :: SerializedValue(m[key]).value
        decreases todo
      {
        var key :| key in todo;
        var value := m[key];
        if AsBool(value).Some? {
          serialized := serialized[key := BoolValue(AsBool(value).value)];
        }
        if AsString(value).Some? {
          serialized := serialized[key := StringValue(AsString(value).value)];
        }
        if AsDouble(value).Some? {
          serialized := serialized[key := NumberValue(AsDouble(value).value)];
        }
        if AsInt64(value).Some? {
          serialized := serialized[key := BigIntValue(AsInt64(value).value)];
        }
        if AsAnyValueDict(value).Some? {
          serialized := serialized[key := ObjectValue(AsAnyValueDict(value).value)];
        }
        todo := todo - {key};
      }
    }
  }

  /** `serializeAnyMap(nil)` is an empty map. */
  lemma SerializeNil()
    ensures Serialized(None) == map[]
  {
  }

  /**
   * Only Bool, String, Double, Int64, Foundation numbers and dictionaries of
   * Nitro values are written; a Swift `Int`, a list, NSNull, a date or any
   * other value leaves its key out.
   */
  lemma SerializedValueWritten(v: Dyn)
    ensures SerializedValue(v).Some? <==>
      v.Bool? || v.Str? || v.Double? || v.Int64? || v.NSNumber? || AsAnyValueDict(v).Some?
  {
  }

  /**
   * A Foundation number matches several checks; the later writes win, so a
   * whole number is written as a bigint (even 0 and 1, which also passed the
   * Bool check) and any other number as a double.
   */
  lemma SerializedNSNumber(n: real)
    ensures SerializedValue(NSNumber(n)) == Some(if FitsInt64(n) then BigIntValue(n.Floor) else NumberValue(n))
  {
  }

  /** One entry of the round trip below. */
  lemma SerializedAfterGet(m: AnyMap, key: string)
    requires key in m && !m[key].NullValue?
    ensures SerializedValue(GetAnyMapValue(m, key).value) == if m[key].ArrayValue? then None else Some(m[key])
  {
    match m[key]
    case ObjectValue(fields) =>
      assert AsAnyValueDict(BoxedDict(fields)).value == fields;
    case _ =>
  }

  /** One key of the round trip below. */
  lemma BridgeEntry(m: AnyMap, key: string)
    ensures key in Serialized(Some(DictionaryOf(m))) <==> key in m && !m[key].NullValue? && !m[key].ArrayValue?
    ensures key in Serialized(Some(DictionaryOf(m))) ==> Serialized(Some(DictionaryOf(m)))[key] == m[key]
  {
    var d := DictionaryOf(m);
    if key in m && !m[key].NullValue? {
      assert key in d && d[key] == GetAnyMapValue(m, key).value;
      SerializedAfterGet(m, key);
    }
  }

  /**
   * JavaScript to native and back: `serializeAnyMap(anyMapToDictionary(m))`
   * gives back every entry of `m` except nulls and arrays (an `[AnyValue]`
   * matches none of the five checks).
   */
  lemma BridgeRoundTrip(m: AnyMap)
    ensures Serialized(Some(DictionaryOf(m))) == map key | key in m && !m[key].NullValue? && !m[key].ArrayValue? :: m[key]
  {
    var got := Serialized(Some(DictionaryOf(m)));
    var expected := map key | key in m && !m[key].NullValue? && !m[key].ArrayValue? :: m[key];
    forall key
      ensures (key in got <==> key in expected) && (key in got ==> got[key] == expected[key])
    {
      BridgeEntry(m, key);
    }
    assert got == expected;
  }

  type byte = x: int | 0 <= x < 256

  predicate IsLowerHex(c: char) {
    '0' <= c <= '9' || 'a' <= c <= 'f'
  }

  /** One lowercase hexadecimal digit. */
  function HexDigit(d: nat): (c: char)
    requires d < 16
    ensures IsLowerHex(c)
  {
    if d < 10 then ('0' as int + d) as char else ('a' as int + d - 10) as char
  }

  /** `String(format: "%02x", byte)`. */
  function HexByte(b: byte): (s: string)
    ensures |s| == 2
  {
    [HexDigit(b / 16), HexDigit(b % 16)]
  }

  /** The bytes' two-digit forms, joined without a separator. */
  function HexString(bytes: seq<byte>): (s: string)
    ensures |s| == 2 * |bytes|
    ensures forall k :: 0 <= k < |s| ==> IsLowerHex(s[k])
  {
    if bytes == [] then "" else HexByte(bytes[0]) + HexString(bytes[1..])
  }

  /** `parsePushToken`: nil stays nil; a token becomes its lowercase hex text. */
  function ParsePushToken(token: Option<seq<byte>>): (r: Option<string>)
    ensures r.None? <==> token.None?
  {
    match token
    case None => None
    case Some(bytes) => Some(HexString(bytes))
  }

  /** The value of a lowercase hexadecimal digit. */
  function DigitValue(c: char): Option<nat>
  {
    if '0' <= c <= '9' then Some(c as nat - '0' as nat)
    else if 'a' <= c <= 'f' then Some(c as nat - 'a' as nat + 10)
    else None
  }

  /** Reads lowercase hex text back into bytes: the inverse of `HexString`. */
  function ParseHex(s: string): Option<seq<byte>>
    decreases |s|
  {
    if s == [] then Some([])
    else if |s| == 1 || DigitValue(s[0]).None? || DigitValue(s[1]).None? then None
    else
      match ParseHex(s[2..])
      case None => None
      case Some(rest) => Some([(DigitValue(s[0]).value * 16 + DigitValue(s[1]).value) as byte] + rest)
  }

  lemma HexByteDigits(b: byte)
    ensures DigitValue(HexByte(b)[0]) == Some(b / 16)
    ensures DigitValue(HexByte(b)[1]) == Some(b % 16)
  {
  }

  /** The token text is twice as long as the token and decodes back to its bytes. */
  lemma {:induction false} PushTokenRoundTrip(bytes: seq<byte>)
    ensures ParsePushToken(Some(bytes)).Some?
    ensures |ParsePushToken(Some(bytes)).value| == 2 * |bytes|
    ensures ParseHex(ParsePushToken(Some(bytes)).value) == Some(bytes)
  {
    if bytes != [] {
      PushTokenRoundTrip(bytes[1..]);
      var s := HexString(bytes);
      HexByteDigits(bytes[0]);
      assert s[..2] == HexByte(bytes[0]);
      assert s[2..] == HexString(bytes[1..]);
      assert [bytes[0]] + bytes[1..] == bytes;
    }
  }

  /** Different tokens give different texts. */
  lemma PushTokenInjective(a: seq<byte>, b: seq<byte>)
    requires ParsePushToken(Some(a)) == ParsePushToken(Some(b))
    ensures a == b
  {
    PushTokenRoundTrip(a);
    PushTokenRoundTrip(b);
  }
}
