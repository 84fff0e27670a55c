/**
 * `GenericDictionary` and `GenericDictionaryStruct`: a `CodableValue?` that
 * normally holds a `.dictionary`, read and written by key through
 * `convertToCodableValue` and `extractValue`, plus the typed getters the
 * Live Activity views use.
 *
 * The class and the struct have the same fields and the same code; both are
 * modelled by the one class below. The specification functions over the
 * stored `codable` come first, then the class, then what is proved.
 */
module GenericDictionaries {
  import opened Wrappers
  import opened Numbers
  import opened Dynamic
  import opened CodableValues
  import opened Conversion
  import opened ActivityKitUtils

  predicate IsDictionary(s: Option<CodableValue>) {
    s.Some? && s.value.Dictionary?
  }

  /** The stored entry for `key`: present only when `codable` is a dictionary holding the key. */
  function EntryAt(s: Option<CodableValue>, key: string): (r: Option<CodableValue>)
    ensures r.Some? <==> IsDictionary(s) && key in s.value.entries
  {
    if IsDictionary(s) && key in s.value.entries then Some(s.value.entries[key]) else None
  }

  /**
   * The subscript getter: nil unless `codable` is a dictionary, otherwise
   * `extractValue` of the entry. A stored `.null` and a missing key both read
   * as nil.
   */
  function Lookup(s: Option<CodableValue>, key: string): (r: Option<Dyn>)
    ensures r.None? <==> EntryAt(s, key).None? || EntryAt(s, key).value.Null?
    ensures r.Some? ==> r == Extract(EntryAt(s, key).value)
  {
    if IsDictionary(s) && key in s.value.entries then Extract(s.value.entries[key]) else None
  }

  /** What the subscript setter stores for `newValue`: its conversion, or `.null` for nil and for what does not convert. */
  function Stored(newValue: Option<Dyn>): (c: CodableValue)
    ensures c.Null? <==> newValue.None? || ToCodable(newValue.value).None? || ToCodable(newValue.value).value.Null?
    ensures newValue.Some? && ToCodable(newValue.value).Some? ==> c == ToCodable(newValue.value).value
  {
    if newValue.Some? then ToCodable(newValue.value).GetOr(Null) else Null
  }

  /**
   * The `codable` after the subscript setter: a value that is not a
   * dictionary is left alone; a dictionary gains (or replaces) `key` and
   * keeps every other entry.
   */
  function Assigned(s: Option<CodableValue>, key: string, newValue: Option<Dyn>): (r: Option<CodableValue>)
    ensures !IsDictionary(s) ==> r == s
    ensures IsDictionary(s) ==> IsDictionary(r) && r.value.entries.Keys == s.value.entries.Keys + {key}
    ensures IsDictionary(s) ==> r.value.entries[key] == Stored(newValue)
    ensures IsDictionary(s) ==> forall other :: other in s.value.entries && other != key ==>
              r.value.entries[other] == s.value.entries[other]
  {
    if IsDictionary(s) then Some(Dictionary(s.value.entries[key := Stored(newValue)])) else s
  }

  /** `keys`, as a set: the dictionary's keys, including those that hold `.null`; none for anything else. */
  function KeysOf(s: Option<CodableValue>): (ks: set<string>)
    ensures forall key :: key in ks <==> EntryAt(s, key).Some?
  {
    if IsDictionary(s) then s.value.entries.Keys else {}
  }

  /** `toDictionary`: the entries whose value is not `.null`, each through `extractValue`. */
  function Materialized(s: Option<CodableValue>): (r: map<string, Dyn>)
    ensures !IsDictionary(s) ==> r == map[]
    ensures r.Keys <= KeysOf(s)
    ensures forall key :: key in r <==> Lookup(s, key).Some?
    ensures forall key :: key in r ==> Lookup(s, key) == Some(r[key])
  {
    if IsDictionary(s) then ExtractedEntries(s.value.entries) else map[]
  }

  /** Joins texts with a separator, as Swift's `joined(separator:)`. */
  function Join(parts: seq<string>, separator: string): (r: string)
    ensures parts == [] ==> r == ""
    ensures |parts| == 1 ==> r == parts[0]
  {
    if parts == [] then ""
    else if |parts| == 1 then parts[0]
    else parts[0] + separator + Join(parts[1..], separator)
  }

  /**
   * The Foundation text formatting `getAsString` relies on, which the model
   * takes as given: `String(Double)`, `String(describing:)`, and the order
   * in which a Swift dictionary enumerates its keys.
   */
  datatype TextFormat = TextFormat(
    doubleText: real -> string,
    describe: Dyn -> string,
    keyOrder: map<string, Dyn> -> seq<string>)

  /** `String(describing:)` of each element. */
  function Described(elems: seq<Dyn>, f: TextFormat): (r: seq<string>)
    ensures |r| == |elems|
  {
    seq(|elems|, k requires 0 <= k < |elems| => f.describe(elems[k]))
  }

  /** `order` names every key of `m` exactly once, as the enumeration of a Swift dictionary does. */
  predicate ListsKeysOnce(order: seq<string>, m: map<string, Dyn>)
  {
    && (forall key :: key in order ==> key in m)
    && (forall key :: key in m ==> key in order)
    && (forall i, j :: 0 <= i < j < |order| ==> order[i] != order[j])
  }

  /** A key order that enumerates every dictionary. */
  ghost predicate EnumeratesKeys(f: TextFormat)
  {
    forall m: map<string, Dyn> :: ListsKeysOnce(f.keyOrder(m), m)
  }

  /** An enumeration that names each key once has one element per entry. */
  lemma KeysListedOnceCount(order: seq<string>, m: map<string, Dyn>)
    requires ListsKeysOnce(order, m)
    ensures |order| == |m|
  {
    DistinctCount(order, m.Keys);
  }

  lemma {:induction false} DistinctCount(order: seq<string>, keys: set<string>)
    requires forall key :: key in order <==> key in keys
    requires forall i, j :: 0 <= i < j < |order| ==> order[i] != order[j]
    ensures |order| == |keys|
  {
    if order == [] {
      assert keys == {};
    } else {
      var tail := order[1..];
      forall key ensures key in tail <==> key in keys - {order[0]} {
        TailMember(order, key);
      }
      forall i, j | 0 <= i < j < |tail| ensures tail[i] != tail[j] {
        assert tail[i] == order[i + 1] && tail[j] == order[j + 1];
      }
      DistinctCount(tail, keys - {order[0]});
    }
  }

  lemma TailMember(order: seq<string>, key: string)
    requires order != []
    requires forall i, j :: 0 <= i < j < |order| ==> order[i] != order[j]
    ensures key in order[1..] <==> key in order && key != order[0]
  {
    if key in order[1..] {
      var j :| 0 <= j < |order| - 1 && order[1..][j] == key;
      assert order[j + 1] == key;
    }
    if key in order && key != order[0] {
      var i :| 0 <= i < |order| && order[i] == key;
      assert order[1..][i - 1] == key;
    }
  }

  /** The keys of a set, in some order, each once. */
  ghost function KeyList(keys: set<string>): (order: seq<string>)
    ensures forall key :: key in order <==> key in keys
    ensures forall i, j :: 0 <= i < j < |order| ==> order[i] != order[j]
  {
    if keys == {} then []
    else
      var key :| key in keys;
      [key] + KeyList(keys - {key})
  }

  /** Key orders that enumerate every dictionary exist, so `getAsString` can be called. */
  lemma SomeFormatEnumeratesKeys(doubleText: real -> string, describe: Dyn -> string)
    ensures EnumeratesKeys(TextFormat(doubleText, describe, (m: map<string, Dyn>) => KeyList(m.Keys)))
  {
  }

  /** The `"key: value"` texts, one per key of `order`. */
  function EntryTexts(m: map<string, Dyn>, order: seq<string>, f: TextFormat): (r: seq<string>)
    requires forall key :: key in order ==> key in m
    ensures |r| == |order|
  {
    seq(|order|, i requires 0 <= i < |order| => order[i] + ": " + f.describe(m[order[i]]))
  }

  /**
   * `getAsString` on the stored `codable`: the empty text for a missing or
   * null entry; a string as itself, an Int in decimal, a Double as Swift
   * prints it, a boolean as `true`/`false`; a list and a dictionary as their
   * described elements separated by `", "`.
   */
  function TextAt(s: Option<CodableValue>, key: string, f: TextFormat): (r: string)
    requires EnumeratesKeys(f)
    ensures Lookup(s, key).None? ==> r == ""
    ensures var e := EntryAt(s, key);
      && (e.Some? && e.value.String? ==> r == e.value.s)
      && (e.Some? && e.value.Int? ==> r == IntText(e.value.i))
      && (e.Some? && e.value.Double? ==> r == f.doubleText(e.value.d))
      && (e.Some? && e.value.Bool? ==> r == if e.value.b then "true" else "false")
      && (e.Some? && e.value.Array? ==> r == Join(Described(ExtractedItems(e.value.items), f), ", "))
      && (e.Some? && e.value.Dictionary? ==>
            var m := ExtractedEntries(e.value.entries);
            var order := f.keyOrder(m);
            && ListsKeysOnce(order, m)
            && |EntryTexts(m, order, f)| == |m|
            && r == Join(EntryTexts(m, order, f), ", "))
  {
    var value := Lookup(s, key);
    if value.None? then ""
    else
      var v := value.value;
      if AsString(v).Some? then AsString(v).value
      else if AsInt(v).Some? then IntText(AsInt(v).value)
      else if AsDouble(v).Some? then f.doubleText(AsDouble(v).value)
      else if AsBool(v).Some? then (if AsBool(v).value then "true" else "false")
      else if v.List? then Join(Described(v.elems, f), ", ")
      else if v.Dict? then
        KeysListedOnceCount(f.keyOrder(v.entries), v.entries);
        Join(EntryTexts(v.entries, f.keyOrder(v.entries), f), ", ")
      else f.describe(v)
  }

  /**
   * `getDate` on the stored `codable`: a number is taken as milliseconds
   * since 1970 (a Double or an Int), a string is parsed as ISO 8601 by
   * `iso8601`, anything else is nil. The `as? Date` branch is never taken:
   * `extractValue` produces no dates.
   */
  function DateAt(s: Option<CodableValue>, key: string, iso8601: string -> Option<Date>): (r: Option<Date>)
    ensures EntryAt(s, key).None? ==> r.None?
    ensures var e := EntryAt(s, key);
      && (e.Some? && e.value.Int? ==> r == Some(Date(e.value.i as real / 1000.0)))
      && (e.Some? && e.value.Double? ==> r == Some(Date(e.value.d / 1000.0)))
      && (e.Some? && e.value.String? ==> r == iso8601(e.value.s))
      && (e.Some? && !(e.value.Int? || e.value.Double? || e.value.String?) ==> r.None?)
  {
    var value := Lookup(s, key);
    if value.None? then None
    else
      var v := value.value;
      if AsDate(v).Some? then AsDate(v)
      else if AsDouble(v).Some? then Some(Date(AsDouble(v).value / 1000.0))
      else if AsInt(v).Some? then Some(Date(AsInt(v).value as real / 1000.0))
      else if AsString(v).Some? then iso8601(AsString(v).value)
      else None
  }

  /**
   * The stored value and its accessors. Every accessor reads the current
   * `codable` and answers what the specification function of the same
   * name above answers for it (`Get` is `Lookup`, `Keys` is `KeysOf`,
   * `GetAsString` is `TextAt`, `GetDate` is `DateAt`); what the answers
   * mean is stated on those functions and proved in the lemmas below, so
   * the lemmas hold of every state the object passes through.
   */
  class GenericDictionary {
    var codable: Option<CodableValue>

    /** `init(state: [String: Any])` and `init(data:)`: the state converted as a whole. */
    constructor (state: map<string, Dyn>)
      ensures codable == ToCodable(Dict(state))
      ensures IsDictionary(codable)
    {
      var converted := ConvertToCodableValue(Dict(state));
      codable := converted;
    }

    /** `init(state: AnyMap)` and `init(data: AnyMap)`: through `anyMapToDictionary`, then converted. */
    constructor FromAnyMap(state: AnyMap)
      ensures codable == ToCodable(Dict(DictionaryOf(state)))
      ensures IsDictionary(codable)
    {
      var dict := AnyMapToDictionary(state);
      var converted := ConvertToCodableValue(Dict(dict));
      codable := converted;
    }

    /** `init(from decoder:)`: the decoded value; a JSON text always decodes. */
    constructor FromDecoder(j: Json)
      ensures codable == Decode(j)
      ensures codable.Some?
    {
      DecodeTotal(j);
      codable := Decode(j);
    }

    /** `encode(to:)`: the stored value, `null` when there is none. */
    function Encoded(): (j: Json)
      reads this
      ensures codable.None? ==> Decode(j) == Some(Null)
      ensures codable.Some? ==> Decode(j) == Some(Normalized(codable.value))
    {
      EncodeOptional(codable)
    }

    /** The subscript getter. */
    function Get(key: string): (r: Option<Dyn>)
      reads this
      ensures r == Lookup(codable, key)
    {
      Lookup(codable, key)
    }

    /** The subscript setter. */
    method Set(key: string, newValue: Option<Dyn>)
      modifies this
      ensures codable == Assigned(old(codable), key, newValue)
    {
      if !IsDictionary(codable) {
        return;
      }
      var dict := codable.value.entries;
      if newValue.Some? {
        var converted := ConvertToCodableValue(newValue.value);
        dict := dict[key := converted.GetOr(Null)];
      } else {
        dict := dict[key := Null];
      }
      codable := Some(Dictionary(dict));
    }

    /** `keys`. */
    function Keys(): (ks: set<string>)
      reads this
      ensures ks == KeysOf(codable)
    {
      KeysOf(codable)
    }

    /** `toDictionary`: a loop over the stored entries, each through `extractValue`; a nil result leaves the key out. */
    method ToDictionary() returns (result: map<string, Dyn>)
      ensures result == Materialized(codable)
    {
      if !IsDictionary(codable) {
        return map[];
      }
      var dict := codable.value.entries;
      result := map[];
      var todo := dict.Keys;
      while todo != {}
        invariant todo <= dict.Keys
        invariant result == map key | key in dict.Keys - todo && Extract(dict[key]).Some? :: Extract(dict[key]).value
        decreases todo
      {
        var key :| key in todo;
        var value := ExtractValue(Some(dict[key]));
        if value.Some? {
          result := result[key := value.value];
        } else {
          result := result - {key};
        }
        todo := todo - {key};
      }
    }

    /** `getString`: the text when the entry holds a string, otherwise the empty text. */
    function GetString(key: string): (r: string)
      reads this
      ensures EntryAt(codable, key).Some? && EntryAt(codable, key).value.String? ==> r == EntryAt(codable, key).value.s
      ensures !(EntryAt(codable, key).Some? && EntryAt(codable, key).value.String?) ==> r == ""
    {
      var value := Lookup(codable, key);
      if value.Some? && AsString(value.value).Some? then AsString(value.value).value else ""
    }

    /** `getBool`: the flag when the entry holds a boolean, otherwise false. */
    function GetBool(key: string): (r: bool)
      reads this
      ensures r <==> EntryAt(codable, key) == Some(CodableValue.Bool(true))
    {
      var value := Lookup(codable, key);
      if value.Some? && AsBool(value.value).Some? then AsBool(value.value).value else false
    }

    /** `getAsString`. */
    function GetAsString(key: string, f: TextFormat): (r: string)
      reads this
      requires EnumeratesKeys(f)
      ensures r == TextAt(codable, key, f)
    {
      TextAt(codable, key, f)
    }

    /** `getDate`. */
    function GetDate(key: string, iso8601: string -> Option<Date>): (r: Option<Date>)
      reads this
      ensures r == DateAt(codable, key, iso8601)
    {
      DateAt(codable, key, iso8601)
    }
  }

  /** A value written through the subscript reads back unchanged, when it is made of strings, Ints, Doubles, Bools, lists and dictionaries. */
  lemma SetThenGet(s: Option<CodableValue>, key: string, v: Dyn)
    requires IsDictionary(s) && Plain(v)
    ensures Lookup(Assigned(s, key, Some(v)), key) == Some(v)
    ensures key in KeysOf(Assigned(s, key, Some(v)))
  {
    ExtractAfterConvert(v);
  }

  /** Writing nil (or a value that does not convert) keeps the key, holding `.null`, which reads back as nil and is left out of `toDictionary`. */
  lemma SetNilKeepsKey(s: Option<CodableValue>, key: string, newValue: Option<Dyn>)
    requires IsDictionary(s)
    requires newValue.None? || ToCodable(newValue.value).None?
    ensures key in KeysOf(Assigned(s, key, newValue))
    ensures Lookup(Assigned(s, key, newValue), key).None?
    ensures key !in Materialized(Assigned(s, key, newValue))
  {
  }

  /** Writing one key changes neither the value nor the presence of any other key. */
  lemma SetLeavesOtherKeys(s: Option<CodableValue>, key: string, other: string, newValue: Option<Dyn>)
    requires other != key
    ensures Lookup(Assigned(s, key, newValue), other) == Lookup(s, other)
    ensures other in KeysOf(Assigned(s, key, newValue)) <==> other in KeysOf(s)
  {
  }

  /** `toDictionary` agrees with the subscript getter key by key. */
  lemma MaterializedAgreesWithGet(s: Option<CodableValue>, key: string)
    ensures key in Materialized(s) <==> Lookup(s, key).Some?
    ensures key in Materialized(s) ==> Materialized(s)[key] == Lookup(s, key).value
    ensures Materialized(s).Keys <= KeysOf(s)
  {
    if IsDictionary(s) {
      ExtractedDictionaryKeys(s.value.entries);
    }
  }

  /** Without a dictionary inside, the subscript reads nil, writes nothing, and there are no keys and no entries. */
  lemma NotADictionary(s: Option<CodableValue>, key: string, newValue: Option<Dyn>)
    requires !IsDictionary(s)
    ensures Lookup(s, key).None?
    ensures Assigned(s, key, newValue) == s
    ensures KeysOf(s) == {} && Materialized(s) == map[]
  {
  }

  /** `extractValue` produces only strings, Ints, Doubles, Bools, lists and dictionaries of those. */
  lemma {:induction false} ExtractIsPlain(c: CodableValue)
    ensures Extract(c).Some? ==> Plain(Extract(c).value)
  {
    match c
    case Array(items) =>
      var xs := seq(|items|, k requires 0 <= k < |items| => Extract(items[k]));
      forall k | 0 <= k < |xs| && xs[k].Some? ensures Plain(xs[k].value) {
        ExtractIsPlain(items[k]);
      }
      SomesPlain(xs);
    case Dictionary(entries) =>
      forall key | key in ExtractedEntries(entries) ensures Plain(ExtractedEntries(entries)[key]) {
        ExtractIsPlain(entries[key]);
      }
    case _ =>
  }

  lemma {:induction false} SomesPlain(xs: seq<Option<Dyn>>)
    requires forall k :: 0 <= k < |xs| && xs[k].Some? ==> Plain(xs[k].value)
    ensures forall k :: 0 <= k < |Somes(xs)| ==> Plain(Somes(xs)[k])
  {
    if xs != [] {
      SomesPlain(xs[..|xs| - 1]);
      assert xs == xs[..|xs| - 1] + [xs[|xs| - 1]];
      SomesSnoc(xs[..|xs| - 1], xs[|xs| - 1]);
    }
  }

  /** A value read through the subscript, written back under any key of a dictionary, reads back the same. */
  lemma GetSetGet(s: Option<CodableValue>, key: string, other: string)
    requires IsDictionary(s) && Lookup(s, key).Some?
    ensures Lookup(Assigned(s, other, Lookup(s, key)), other) == Lookup(s, key)
  {
    ExtractIsPlain(EntryAt(s, key).value);
    SetThenGet(s, other, Lookup(s, key).value);
  }

  /** `getAsString` extends `getString` and `getBool`: same text for a string, `"true"` for a true flag. */
  lemma GetAsStringAgrees(d: GenericDictionary, key: string, f: TextFormat)
    requires EnumeratesKeys(f)
    ensures d.GetString(key) != "" ==> d.GetAsString(key, f) == d.GetString(key)
    ensures d.GetBool(key) ==> d.GetAsString(key, f) == "true"
  {
  }

  /**
   * A millisecond timestamp stored as a number reads back through `getDate`
   * as that instant, whether it is still a Double or came back from JSON as
   * an Int.
   */
  lemma TimestampReadsBack(s: Option<CodableValue>, key: string, ms: real, iso8601: string -> Option<Date>)
    requires EntryAt(s, key) == Some(CodableValue.Double(ms)) || EntryAt(s, key) == Some(Normalized(CodableValue.Double(ms)))
    ensures DateAt(s, key, iso8601) == Some(Date(ms / 1000.0))
  {
  }

  /** What `init(state: AnyMap)` stores for one JavaScript value, as written: nested arrays and objects lose their contents, and bigints and nulls are left out. */
  function StateEntry(v: AnyValue): Option<CodableValue>
  {
    match v
    case NullValue => None
    case NumberValue(n) => Some(CodableValue.Double(n))
    case BoolValue(b) => Some(CodableValue.Bool(b))
    case BigIntValue(_) => None
    case StringValue(t) => Some(CodableValue.String(t))
    case ArrayValue(_) => Some(Array([]))
    case ObjectValue(_) => Some(Dictionary(map[]))
  }

  lemma {:induction false} SomesAllNone<T>(xs: seq<Option<T>>)
    requires forall k :: 0 <= k < |xs| ==> xs[k].None?
    ensures Somes(xs) == []
  {
    if xs != [] {
      SomesAllNone(xs[..|xs| - 1]);
      assert xs == xs[..|xs| - 1] + [xs[|xs| - 1]];
      SomesSnoc(xs[..|xs| - 1], xs[|xs| - 1]);
    }
  }

  lemma {:induction false} BoxedListConvertsEmpty(items: seq<AnyValue>)
    ensures ToCodable(BoxedList(items)) == Some(Array([]))
  {
    var elems := BoxedList(items).elems;
    var cs := seq(|elems|, k requires 0 <= k < |elems| => ToCodable(elems[k]));
    SomesAllNone(cs);
  }

  lemma BoxedDictConvertsEmpty(fields: map<string, AnyValue>)
    ensures ToCodable(BoxedDict(fields)) == Some(Dictionary(map[]))
  {
    var d := BoxedDict(fields);
    forall key | key in d.entries ensures ToCodable(d.entries[key]).None? {
      assert d.entries[key] == Boxed(fields[key]);
    }
    ConvertedDictionaryKeys(d.entries);
    assert ConvertedEntries(d.entries) == map[];
    assert d == Dict(d.entries);
  }

  lemma StateEntryOfValue(m: AnyMap, key: string)
    requires key in m && !m[key].NullValue?
    ensures ToCodable(GetAnyMapValue(m, key).value) == StateEntry(m[key])
  {
    match m[key]
    case ArrayValue(items) => BoxedListConvertsEmpty(items);
    case ObjectValue(fields) => BoxedDictConvertsEmpty(fields);
    case _ =>
  }

  /** `init(state: AnyMap)` as written: each JavaScript value is stored as `StateEntry` gives it. */
  lemma AnyMapState(m: AnyMap)
    ensures ToCodable(Dict(DictionaryOf(m)))
         == Some(Dictionary(map key | key in m && StateEntry(m[key]).Some? :: StateEntry(m[key]).value))
  {
    var d := DictionaryOf(m);
    var target := map key | key in m && StateEntry(m[key]).Some? :: StateEntry(m[key]).value;
    ConvertedDictionaryKeys(d);
    DictionaryOfKeys(m);
    forall key | key in d ensures ToCodable(d[key]) == StateEntry(m[key]) {
      StateEntryOfValue(m, key);
    }
    assert ConvertedEntries(d).Keys == target.Keys;
    assert ConvertedEntries(d) == target;
  }

  /** A JavaScript list passed inside live activity state arrives empty. */
  lemma NestedListIsEmptied()
    ensures ToCodable(Dict(DictionaryOf(map["tags" := ArrayValue([StringValue("a")])])))
         == Some(Dictionary(map["tags" := Array([])]))
  {
    var m := map["tags" := ArrayValue([StringValue("a")])];
    AnyMapState(m);
    assert StateEntry(m["tags"]) == Some(Array([]));
    assert (map key | key in m && StateEntry(m[key]).Some? :: StateEntry(m[key]).value) == map["tags" := Array([])];
  }

  /** The conversion the AnyMap initializer evidently intends: every JavaScript value, nested ones included. */
  function ValueOf(v: AnyValue): (c: CodableValue)
  {
    match v
    case NullValue => Null
    case NumberValue(n) => CodableValue.Double(n)
    case BoolValue(b) => CodableValue.Bool(b)
    case BigIntValue(i) => CodableValue.Int(i)
    case StringValue(t) => CodableValue.String(t)
    case ArrayValue(items) => Array(seq(|items|, k requires 0 <= k < |items| => ValueOf(items[k])))
    case ObjectValue(fields) => Dictionary(map key | key in fields :: ValueOf(fields[key]))
  }

  /** The way back to JavaScript values, for stating that `ValueOf` loses nothing. */
  function JsValueOf(c: CodableValue): AnyValue
  {
    match c
    case String(s) => StringValue(s)
    case Int(i) => BigIntValue(i)
    case Double(d) => NumberValue(d)
    case Bool(b) => BoolValue(b)
    case Null => NullValue
    case Array(items) => ArrayValue(seq(|items|, k requires 0 <= k < |items| => JsValueOf(items[k])))
    case Dictionary(entries) => ObjectValue(map key | key in entries :: JsValueOf(entries[key]))
  }

  lemma {:induction false} ValueOfLosesNothing(v: AnyValue)
    ensures JsValueOf(ValueOf(v)) == v
  {
    match v
    case ArrayValue(items) =>
      var cs := seq(|items|, k requires 0 <= k < |items| => ValueOf(items[k]));
      forall k | 0 <= k < |items| ensures JsValueOf(cs[k]) == items[k] {
        ValueOfLosesNothing(items[k]);
      }
      assert seq(|cs|, k requires 0 <= k < |cs| => JsValueOf(cs[k])) == items;
    case ObjectValue(fields) =>
      var cs := map key | key in fields :: ValueOf(fields[key]);
      forall key | key in fields ensures JsValueOf(cs[key]) == fields[key] {
        ValueOfLosesNothing(fields[key]);
      }
      assert (map key | key in cs :: JsValueOf(cs[key])) == fields;
    case _ =>
  }

  /** The corrected AnyMap state: a top-level null still leaves its key out, every other value is kept whole. */
  function CorrectedAnyMapState(m: AnyMap): (c: CodableValue)
    ensures c.Dictionary? && c.entries.Keys == set key | key in m && !m[key].NullValue?
  {
    Dictionary(map key | key in m && !m[key].NullValue? :: ValueOf(m[key]))
  }

  /** Every non-null JavaScript value in the state can be recovered from the corrected state. */
  lemma CorrectedStateKeepsValues(m: AnyMap, key: string)
    requires key in m && !m[key].NullValue?
    ensures JsValueOf(CorrectedAnyMapState(m).entries[key]) == m[key]
  {
    ValueOfLosesNothing(m[key]);
  }
}
