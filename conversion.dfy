/**
 * `convertToCodableValue` and `extractValue`: the two directions between a
 * runtime-typed Swift `Any` and a `CodableValue`. Both drop what they
 * cannot represent instead of failing.
 */
module Conversion {
  import opened Wrappers
  import opened Numbers
  import opened Dynamic
  import opened CodableValues

  /**
   * `convertToCodableValue`: the `switch` tries String, Int, Double, Bool,
   * NSNull, `[Any]`, `[String: Any]` in that order; list elements and
   * dictionary entries that do not convert are left out; anything else is nil.
   */
  function ToCodable(v: Dyn): (r: Option<CodableValue>)
    ensures v.Str? ==> r == Some(CodableValue.String(v.s))
    ensures v.Int? ==> r == Some(CodableValue.Int(v.i))
    ensures v.Double? ==> r == Some(CodableValue.Double(v.d))
    ensures v.Bool? ==> r == Some(CodableValue.Bool(v.b))
    ensures (r.Some? && r.value.Null?) <==> v.NSNull?
    ensures v.List? ==> r.Some? && r.value.Array? && |r.value.items| <= |v.elems|
    ensures v.Dict? ==> r.Some? && r.value.Dictionary? && r.value.entries.Keys <= v.entries.Keys
    decreases v, 1
  {
    if AsString(v).Some? then Some(CodableValue.String(AsString(v).value))
    else if AsInt(v).Some? then Some(CodableValue.Int(AsInt(v).value))
    else if AsDouble(v).Some? then Some(CodableValue.Double(AsDouble(v).value))
    else if AsBool(v).Some? then Some(CodableValue.Bool(AsBool(v).value))
    else if v.NSNull? then Some(Null)
    else if v.List? then Some(Array(ConvertedElements(v.elems)))
    else if v.Dict? then Some(Dictionary(ConvertedEntries(v.entries)))
    else None
  }

  function ConvertedElements(elems: seq<Dyn>): seq<CodableValue>
    decreases List(elems), 0
  {
    Somes(seq(|elems|, k requires 0 <= k < |elems| => ToCodable(elems[k])))
  }

  function ConvertedEntries(entries: map<string, Dyn>): map<string, CodableValue>
    decreases Dict(entries), 0
  {
    map key | key in entries && ToCodable(entries[key]).Some? :: ToCodable(entries[key]).value
  }

  /**
   * `extractValue`: each scalar case gives its payload, `.null` gives nil,
   * a list keeps the elements that are not nil, and a dictionary keeps the
   * keys whose value is not nil.
   */
  function Extract(c: CodableValue): (r: Option<Dyn>)
    ensures c.String? ==> r == Some(Str(c.s))
    ensures c.Int? ==> r == Some(Dyn.Int(c.i))
    ensures c.Double? ==> r == Some(Dyn.Double(c.d))
    ensures c.Bool? ==> r == Some(Dyn.Bool(c.b))
    ensures r.None? <==> c.Null?
    ensures c.Array? ==> r.Some? && r.value.List? && |r.value.elems| <= |c.items|
    ensures c.Dictionary? ==> r.Some? && r.value.Dict? && r.value.entries.Keys <= c.entries.Keys
    decreases c, 1
  {
    match c
    case String(s) => Some(Str(s))
    case Int(i) => Some(Dyn.Int(i))
    case Double(d) => Some(Dyn.Double(d))
    case Bool(b) => Some(Dyn.Bool(b))
    case Null => None
    case Array(items) => Some(List(ExtractedItems(items)))
    case Dictionary(entries) => Some(Dict(ExtractedEntries(entries)))
  }

  function ExtractedItems(items: seq<CodableValue>): seq<Dyn>
    decreases Array(items), 0
  {
    Somes(seq(|items|, k requires 0 <= k < |items| => Extract(items[k])))
  }

  function ExtractedEntries(entries: map<string, CodableValue>): map<string, Dyn>
    decreases Dictionary(entries), 0
  {
    map key | key in entries && Extract(entries[key]).Some? :: Extract(entries[key]).value
  }

  /** A null-free value built from strings, Ints, Doubles, Bools, lists and dictionaries. */
  predicate Plain(v: Dyn)
  {
    match v
    case Str(_) => true
    case Int(_) => true
    case Double(_) => true
    case Bool(_) => true
    case List(elems) => forall k :: 0 <= k < |elems| ==> Plain(elems[k])
    case Dict(entries) => forall key :: key in entries ==> Plain(entries[key])
    case _ => false
  }

  /** The list case of `convertToCodableValue`: `compactMap` over the elements. */
  method ConvertElements(elems: seq<Dyn>) returns (r: seq<CodableValue>)
    ensures r == ConvertedElements(elems)
    decreases List(elems), 0
  {
    ghost var converted := seq(|elems|, k requires 0 <= k < |elems| => ToCodable(elems[k]));
    r := [];
    var i := 0;
    while i < |elems|
      invariant 0 <= i <= |elems|
      invariant r == Somes(converted[..i])
    {
      var c := ConvertToCodableValue(elems[i]);
      assert converted[..i + 1] == converted[..i] + [c];
      SomesSnoc(converted[..i], c);
      if c.Some? {
        r := r + [c.value];
      }
      i := i + 1;
    }
    assert converted[..i] == converted;
  }

  /** The dictionary case of `convertToCodableValue`: the `for` loop over the entries. */
  method ConvertEntries(entries: map<string, Dyn>) returns (dict: map<string, CodableValue>)
    ensures dict == ConvertedEntries(entries)
    decreases Dict(entries), 0
  {
    dict := map[];
    var todo := entries.Keys;
    while todo != {}
      invariant todo <= entries.Keys
      invariant dict == map key | key in entries.Keys - todo && ToCodable(entries[key]).Some? :: ToCodable(entries[key]).value
      decreases todo
    {
      var key :| key in todo;
      var c := ConvertToCodableValue(entries[key]);
      if c.Some? {
        dict := dict[key := c.value];
      }
      todo := todo - {key};
    }
  }

  /** `convertToCodableValue(_:)`. */
  method ConvertToCodableValue(v: Dyn) returns (r: Option<CodableValue>)
    ensures r == ToCodable(v)
    decreases v, 1
  {
    if v.Str? {
      r := Some(CodableValue.String(v.s));
    } else if AsInt(v).Some? {
      r := Some(CodableValue.Int(AsInt(v).value));
    } else if AsDouble(v).Some? {
      r := Some(CodableValue.Double(AsDouble(v).value));
    } else if AsBool(v).Some? {
      r := Some(CodableValue.Bool(AsBool(v).value));
    } else if v.NSNull? {
      r := Some(Null);
    } else if v.List? {
      var items := ConvertElements(v.elems);
      r := Some(Array(items));
    } else if v.Dict? {
      var dict := ConvertEntries(v.entries);
      r := Some(Dictionary(dict));
    } else {
      r := None;
    }
  }

  /** The list case of `extractValue`: `compactMap` over the elements. */
  method ExtractElements(items: seq<CodableValue>) returns (r: seq<Dyn>)
    ensures r == ExtractedItems(items)
    decreases Array(items), 0
  {
    ghost var extracted := seq(|items|, k requires 0 <= k < |items| => Extract(items[k]));
    r := [];
    var i := 0;
    while i < |items|
      invariant 0 <= i <= |items|
      invariant r == Somes(extracted[..i])
    {
      var x := ExtractValue(Some(items[i]));
      assert extracted[..i + 1] == extracted[..i] + [x];
      SomesSnoc(extracted[..i], x);
      if x.Some? {
        r := r + [x.value];
      }
      i := i + 1;
    }
    assert extracted[..i] == extracted;
  }

  /**
   * The dictionary case of `extractValue`: `result[key] = extractValue(...)`
   * for every entry; assigning nil to a Swift dictionary removes the key.
   */
  method ExtractEntries(entries: map<string, CodableValue>) returns (result: map<string, Dyn>)
    ensures result == ExtractedEntries(entries)
    decreases Dictionary(entries), 0
  {
    result := map[];
    var todo := entries.Keys;
    while todo != {}
      invariant todo <= entries.Keys
      invariant result == map key | key in entries.Keys - todo && Extract(entries[key]).Some? :: Extract(entries[key]).value
      decreases todo
    {
      var key :| key in todo;
      var x := ExtractValue(Some(entries[key]));
      if x.Some? {
        result := result[key := x.value];
      } else {
        result := result - {key};
      }
      todo := todo - {key};
    }
  }

  /** `extractValue(from:)`: nil in, nil out. */
  method ExtractValue(c: Option<CodableValue>) returns (r: Option<Dyn>)
    ensures c.None? ==> r.None?
    ensures c.Some? ==> r == Extract(c.value)
    decreases if c.Some? then c.value else Null, 1
  {
    if c.None? {
      return None;
    }
    match c.value
    case String(s) => r := Some(Str(s));
    case Int(i) => r := Some(Dyn.Int(i));
    case Double(d) => r := Some(Dyn.Double(d));
    case Bool(b) => r := Some(Dyn.Bool(b));
    case Null => r := None;
    case Array(items) =>
      var elems := ExtractElements(items);
      r := Some(List(elems));
    case Dictionary(entries) =>
      var result := ExtractEntries(entries);
      r := Some(Dict(result));
  }

  /** Round trip: a plain value comes back unchanged from `extractValue(convertToCodableValue(v))`. */
  lemma {:induction false} ExtractAfterConvert(v: Dyn)
    requires Plain(v)
    ensures ToCodable(v).Some? && !ToCodable(v).value.Null?
    ensures Extract(ToCodable(v).value) == Some(v)
  {
    match v
    case List(elems) =>
      var cs := seq(|elems|, k requires 0 <= k < |elems| => ToCodable(elems[k]));
      forall k | 0 <= k < |elems|
        ensures cs[k].Some? && !cs[k].value.Null? && Extract(cs[k].value) == Some(elems[k])
      {
        ExtractAfterConvert(elems[k]);
      }
      SomesKeepsAll(cs);
      var items := ConvertedElements(elems);
      assert items == seq(|cs|, k requires 0 <= k < |cs| => cs[k].value);
      var xs := seq(|items|, k requires 0 <= k < |items| => Extract(items[k]));
      SomesKeepsAll(xs);
      assert Somes(xs) == elems;
    case Dict(entries) =>
      forall key | key in entries
        ensures ToCodable(entries[key]).Some? && !ToCodable(entries[key]).value.Null?
        ensures Extract(ToCodable(entries[key]).value) == Some(entries[key])
      {
        ExtractAfterConvert(entries[key]);
      }
      var dict := ConvertedEntries(entries);
      assert dict.Keys == entries.Keys;
      assert ExtractedEntries(dict) == entries;
    case _ =>
  }

  /** Exactly Int64, Date, Nitro `AnyValue` and unsupported values convert to nil. */
  lemma ConvertNilCases(v: Dyn)
    ensures ToCodable(v).None? <==> v.Int64? || v.DateValue? || v.Boxed? || v.Unsupported?
  {
  }

  /** A Foundation number is read as `.int` when it is whole and fits, otherwise as `.double`; never as `.bool`. */
  lemma ConvertNSNumber(n: real)
    ensures ToCodable(NSNumber(n)) == Some(if FitsInt64(n) then CodableValue.Int(n.Floor) else CodableValue.Double(n))
  {
  }

  /** Unconvertible list elements are dropped, so the list shrinks unless every element converts. */
  lemma ConvertedListLength(elems: seq<Dyn>)
    ensures |ConvertedElements(elems)| <= |elems|
    ensures |ConvertedElements(elems)| == |elems| <==> forall k :: 0 <= k < |elems| ==> ToCodable(elems[k]).Some?
  {
    var cs := seq(|elems|, k requires 0 <= k < |elems| => ToCodable(elems[k]));
    assert ConvertedElements(elems) == Somes(cs);
    SomesKeepsAll(cs);
    forall k | 0 <= k < |elems| ensures cs[k] == ToCodable(elems[k]) {
    }
  }

  /** A dictionary keeps exactly the keys whose values convert. */
  lemma ConvertedDictionaryKeys(entries: map<string, Dyn>)
    ensures ToCodable(Dict(entries)) == Some(Dictionary(ConvertedEntries(entries)))
    ensures ConvertedEntries(entries).Keys == set key | key in entries && ToCodable(entries[key]).Some?
  {
  }

  /** `extractValue` gives nil for `.null` and for nothing else. */
  lemma ExtractNilCases(c: CodableValue)
    ensures Extract(c).None? <==> c.Null?
  {
  }

  /** The number of `.null` elements of a list. */
  function NullCount(items: seq<CodableValue>): (n: nat)
    ensures n <= |items|
  {
    if items == [] then 0 else (if items[0].Null? then 1 else 0) + NullCount(items[1..])
  }

  /** The extracted list, element by element from the front: the first element is kept unless it is `.null`. */
  lemma ExtractedItemsCons(items: seq<CodableValue>)
    requires items != []
    ensures ExtractedItems(items) ==
      (if items[0].Null? then [] else [Extract(items[0]).value]) + ExtractedItems(items[1..])
  {
    var xs := seq(|items|, k requires 0 <= k < |items| => Extract(items[k]));
    var rest := items[1..];
    var ys := seq(|rest|, k requires 0 <= k < |rest| => Extract(rest[k]));
    assert xs[1..] == ys;
    assert ExtractedItems(items) == Somes(xs);
    assert ExtractedItems(rest) == Somes(ys);
  }

  /** A list loses its null elements and nothing else: one element fewer for each `.null`. */
  lemma {:induction false} ExtractedListLength(items: seq<CodableValue>)
    ensures |ExtractedItems(items)| == |items| - NullCount(items)
    ensures |ExtractedItems(items)| == |items| <==> forall k :: 0 <= k < |items| ==> !items[k].Null?
  {
    var xs := seq(|items|, k requires 0 <= k < |items| => Extract(items[k]));
    assert ExtractedItems(items) == Somes(xs);
    SomesKeepsAll(xs);
    forall k | 0 <= k < |items| ensures xs[k].Some? <==> !items[k].Null? {
      ExtractNilCases(items[k]);
    }
    if items != [] {
      ExtractedItemsCons(items);
      ExtractedListLength(items[1..]);
    }
  }

  /** A key whose value is `.null` is absent from the extracted dictionary; every other key is kept. */
  lemma ExtractedDictionaryKeys(entries: map<string, CodableValue>)
    ensures ExtractedEntries(entries).Keys == set key | key in entries && !entries[key].Null?
  {
  }
}
