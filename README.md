# react-native-activity-kit: the marshalling layer, in Dafny

This project models the part of react-native-activity-kit that moves data
between JavaScript, Swift and the JSON that iOS stores for a Live Activity:

- `CodableValue`, the JSON-like union that carries activity attributes and
  content state, with its `Codable` decoding order and its encoding
  (`codable_value.dfy`);
- `convertToCodableValue` and `extractValue`, between a runtime-typed
  Swift `Any` and `CodableValue` (`conversion.dfy`);
- the `GenericDictionary` / `GenericDictionaryStruct` wrapper: its
  initializers, subscript get and set, `keys`, `toDictionary`, and the
  typed getters `getString`, `getBool`, `getAsString` and `getDate`
  (`generic_dictionary.dfy`);
- the Nitro `AnyMap` adapters `getAnyMapValue`, `anyMapToDictionary` and
  `serializeAnyMap`, `HashableDict.init` and `parsePushToken`
  (`activity_kit_utils.dfy`), and `convertActivityState`
  (`activity_state.dfy`);
- AlarmKit's `convertAuthStatus` and `convertAlarmState`
  (`alarm_kit_utils.dfy`);
- the JavaScript AlarmKit facade: `checkPlatformSupport`, `createError`,
  the error wrapping of `requestAuthorization`, and the argument
  `createCountdown` builds (`alarm_kit_js.dfy`).

Swift's `Any` is the datatype `Dynamic.Dyn`: every value carries its
runtime type, and Swift's conditional casts (`as? String`, `as? Int`, ...)
are functions on it. A Foundation number (`NSNumber`, as `JSONSerialization`
produces) casts to every numeric type that holds it exactly. A Nitro
`AnyValue` held in an `Any` is its own case, `Boxed`; no cast other than
`as? [String: AnyValue]` sees through it. Swift `Double` is a `real`, and
Swift `Int` and `Int64` are the 64-bit subset type `int64`. They are still
different runtime types, so a cast from one to the other fails. A JSON
number on the wire is its mathematical value.

The wrapper object is a Dafny class whose `codable` field the subscript
setter replaces. The specification functions over that field are `Lookup`,
`Assigned`, `KeysOf`, `Materialized`, `TextAt` and `DateAt`. The
loops of the source (`convertToCodableValue`, `extractValue`,
`toDictionary`, `anyMapToDictionary`, `serializeAnyMap`,
`HashableDict.init`) are methods with loop invariants. All but the last
are proved equal to the functions the lemmas talk about; `HashableDict.init`
is proved against its own contract (nil exactly when some value is not
hashable, otherwise the same dictionary).

The main results:

- `extractValue(convertToCodableValue(v)) == v` for every null-free value
  built from strings, Ints, Doubles, Bools, lists and dictionaries.
- Decoding an encoded value gives it back, except that a whole Double comes
  back as an Int. Encoding a decoded JSON value gives the JSON back.
- A value written through the subscript reads back. Writing nil keeps the
  key but reads nil. No other key is touched.
- `serializeAnyMap` writes, for each entry, what the last of its five
  independent checks that holds writes.
- A push token's hex text has two lowercase digits per byte and decodes
  back to the token.

## Model

| member | source | states |
|---|---|---|
| CodableValues.DecodeTotal | packages/react-native-activity-kit/ios/ActivityKitCore.swift:15-38 | decoding never throws on a JSON value: null, Bool, Int, Double, String, array and object cover every shape |
| CodableValues.Decode | packages/react-native-activity-kit/ios/ActivityKitCore.swift:15-38 | `init(from:)` keeps the JSON shape: null, bool, string, number (as `.int` or `.double`), array of the same length, object with the same keys; an undecodable element fails the whole value |
| CodableValues.Encode | packages/react-native-activity-kit/ios/ActivityKitCore.swift:40-51 | `encode(to:)` writes each case as the JSON shape of the same kind: numbers for `.int` and `.double`, `nil` for `.null`, arrays of the same length and objects with the same keys |
| CodableValues.DecodeNumber | packages/react-native-activity-kit/ios/ActivityKitCore.swift:22-25 | a JSON number decodes as `.int` when it is whole and fits 64 bits (Int is tried before Double), otherwise as `.double` |
| CodableValues.DecodeEncode | packages/react-native-activity-kit/ios/ActivityKitCore.swift:15-51 | decoding the encoding of any value gives the value with every whole in-range Double turned into an Int |
| CodableValues.RoundTrip | packages/react-native-activity-kit/ios/ActivityKitCore.swift:15-51 | a value with no whole Doubles survives encode then decode exactly |
| CodableValues.EncodeDecode | packages/react-native-activity-kit/ios/ActivityKitCore.swift:15-51 | every JSON value decodes, and re-encoding the result gives the same JSON |
| CodableValues.WholeDoubleComesBackAsInt | packages/react-native-activity-kit/ios/ActivityKitCore.swift:22-25 | `.double(2.0)` comes back as `.int(2)` after a round trip |
| CodableValues.NormalizedIdentity | packages/react-native-activity-kit/ios/ActivityKitCore.swift:40-51 | the decoder's normalization changes nothing in a value without whole Doubles |
| CodableValues.EncodeOptional | packages/react-native-activity-kit/ios/ActivityKitCore.swift:122-125 | the wrappers' optional `codable` is written so that nil reads back as `.null` and a value reads back normalized |
| Conversion.ConvertToCodableValue | packages/react-native-activity-kit/ios/ActivityKitCore.swift:54-75 | the conversion computed with the source's loops equals the specification `ToCodable` (String, Int, Double, Bool, NSNull, list, dictionary, else nil) |
| Conversion.ToCodable | packages/react-native-activity-kit/ios/ActivityKitCore.swift:54-75 | Strings, Ints, Doubles and Bools become the case of the same name; only NSNull becomes `.null`; a list becomes an array no longer than it, a dictionary one with a subset of its keys |
| Conversion.Extract | packages/react-native-activity-kit/ios/ActivityKitCore.swift:77-100 | each scalar case gives its Swift value; nil exactly for `.null`; an array gives a list no longer than it, a dictionary one with a subset of its keys |
| Conversion.ConvertElements | packages/react-native-activity-kit/ios/ActivityKitCore.swift:61-63 | `compactMap` keeps, in order, the converted elements that are not nil |
| Conversion.ConvertEntries | packages/react-native-activity-kit/ios/ActivityKitCore.swift:64-71 | the loop stores exactly the keys whose value converts, each with its conversion |
| Conversion.ExtractValue | packages/react-native-activity-kit/ios/ActivityKitCore.swift:77-100 | nil gives nil; otherwise the result is the specification `Extract` of the value |
| Conversion.ExtractElements | packages/react-native-activity-kit/ios/ActivityKitCore.swift:91-92 | `compactMap` keeps, in order, the extracted elements that are not nil |
| Conversion.ExtractEntries | packages/react-native-activity-kit/ios/ActivityKitCore.swift:93-98 | assigning nil removes the key, so the loop keeps exactly the non-null entries, each extracted |
| Conversion.ExtractAfterConvert | packages/react-native-activity-kit/ios/ActivityKitCore.swift:54-100 | every null-free value of strings, Ints, Doubles, Bools, lists and dictionaries converts (not to `.null`) and extracts back to itself |
| Conversion.ConvertNilCases | packages/react-native-activity-kit/ios/ActivityKitCore.swift:54-75 | the conversion is nil exactly for an Int64, a Date, a Nitro value and any unsupported value |
| Conversion.ConvertNSNumber | packages/react-native-activity-kit/ios/ActivityKitCore.swift:56-59 | a Foundation number becomes `.int` when whole and in range, else `.double`; it never reaches the Bool case |
| Conversion.ConvertedListLength | packages/react-native-activity-kit/ios/ActivityKitCore.swift:61-63 | a converted list is never longer, and keeps its length exactly when every element converts |
| Conversion.ConvertedDictionaryKeys | packages/react-native-activity-kit/ios/ActivityKitCore.swift:64-71 | a converted dictionary holds exactly the keys whose value converts |
| Conversion.ExtractNilCases | packages/react-native-activity-kit/ios/ActivityKitCore.swift:89-90 | extraction is nil exactly for `.null` |
| Conversion.ExtractedItemsCons | packages/react-native-activity-kit/ios/ActivityKitCore.swift:91-92 | `compactMap` keeps the first element, extracted, unless it is `.null`, followed by the rest of the list extracted |
| Conversion.ExtractedListLength | packages/react-native-activity-kit/ios/ActivityKitCore.swift:91-92 | an extracted list is shorter by exactly the number of `.null` elements, so it keeps its length exactly when it holds none |
| Conversion.ExtractedDictionaryKeys | packages/react-native-activity-kit/ios/ActivityKitCore.swift:93-98 | an extracted dictionary holds exactly the keys whose value is not `.null` |
| GenericDictionaries.Lookup | packages/react-native-activity-kit/ios/ActivityKitCore.swift:129-132 | the subscript reads nil when `codable` is not a dictionary, when the key is missing and when it holds `.null`; otherwise the extracted entry |
| GenericDictionaries.Stored | packages/react-native-activity-kit/ios/ActivityKitCore.swift:134-139 | the setter stores `.null` exactly for nil, an unconvertible value or NSNull, and the conversion otherwise |
| GenericDictionaries.Assigned | packages/react-native-activity-kit/ios/ActivityKitCore.swift:133-141 | a non-dictionary `codable` is left alone; a dictionary gains the key with the stored value and keeps every other entry |
| GenericDictionaries.KeysOf | packages/react-native-activity-kit/ios/ActivityKitCore.swift:145-148 | the keys are those of the stored dictionary, `.null` entries included, and none for anything else |
| GenericDictionaries.Materialized | packages/react-native-activity-kit/ios/ActivityKitCore.swift:151-158 | `toDictionary` is empty without a dictionary, and holds exactly the keys the subscript reads as non-nil, with the values it reads |
| GenericDictionaries.KeysListedOnceCount | packages/react-native-activity-kit/ios/ActivityKitCore.swift:240 | an enumeration that lists every key of a dictionary once has one element per entry |
| GenericDictionaries.SomeFormatEnumeratesKeys | packages/react-native-activity-kit/ios/ActivityKitCore.swift:240 | key orders that enumerate every dictionary exist, so the requirement on `getAsString` can be met |
| GenericDictionaries.TextAt | packages/react-native-activity-kit/ios/ActivityKitCore.swift:225-244 | `getAsString`: empty for a missing or null entry; a string as itself, an Int in decimal, a Double and list elements through the given formatting, a boolean as `true`/`false`; a dictionary as one `"key: value"` text per non-null entry, every key once, joined by `", "` |
| GenericDictionaries.DateAt | packages/react-native-activity-kit/ios/ActivityKitCore.swift:252-273 | `getDate`: an Int or Double entry is milliseconds, giving `entry / 1000` seconds since 1970; a string goes to the ISO 8601 parser; anything else or nothing is nil |
| GenericDictionaries.GenericDictionary.constructor | packages/react-native-activity-kit/ios/ActivityKitCore.swift:118-120 | `init(state:)` stores the conversion of the state, which is always a dictionary |
| GenericDictionaries.GenericDictionary.FromAnyMap | packages/react-native-activity-kit/ios/Utils.swift:171-173 | `init(state: AnyMap)` stores the conversion of `anyMapToDictionary(state)`, always a dictionary |
| GenericDictionaries.GenericDictionary.FromDecoder | packages/react-native-activity-kit/ios/ActivityKitCore.swift:113-116 | `init(from:)` stores the decoded value, which always exists |
| GenericDictionaries.GenericDictionary.Encoded | packages/react-native-activity-kit/ios/ActivityKitCore.swift:122-125 | `encode(to:)` writes what reads back as the stored value, normalized, or `.null` when there is none |
| GenericDictionaries.GenericDictionary.Get | packages/react-native-activity-kit/ios/ActivityKitCore.swift:129-132 | the subscript getter on the current `codable` is `Lookup` |
| GenericDictionaries.GenericDictionary.Set | packages/react-native-activity-kit/ios/ActivityKitCore.swift:133-141 | the subscript setter replaces `codable` by `Assigned(old codable, key, newValue)` |
| GenericDictionaries.GenericDictionary.Keys | packages/react-native-activity-kit/ios/ActivityKitCore.swift:145-148 | `keys` is `KeysOf` the current `codable` |
| GenericDictionaries.GenericDictionary.ToDictionary | packages/react-native-activity-kit/ios/ActivityKitCore.swift:151-158 | the loop returns `[:]` without a dictionary, and otherwise every non-null entry, extracted |
| GenericDictionaries.GenericDictionary.GetString | packages/react-native-activity-kit/ios/ActivityKitCore.swift:220-222 | the stored string when the entry is a string, and `""` for anything else |
| GenericDictionaries.GenericDictionary.GetBool | packages/react-native-activity-kit/ios/ActivityKitCore.swift:247-249 | true exactly when the entry is `.bool(true)` |
| GenericDictionaries.GenericDictionary.GetAsString | packages/react-native-activity-kit/ios/ActivityKitCore.swift:225-244 | `getAsString` on the current `codable` is `TextAt` |
| GenericDictionaries.GenericDictionary.GetDate | packages/react-native-activity-kit/ios/ActivityKitCore.swift:252-273 | `getDate` on the current `codable` is `DateAt` |
| GenericDictionaries.SetThenGet | packages/react-native-activity-kit/ios/ActivityKitCore.swift:128-141 | on a dictionary, a null-free plain value written under a key reads back unchanged, and the key is listed |
| GenericDictionaries.SetNilKeepsKey | packages/react-native-activity-kit/ios/ActivityKitCore.swift:133-148 | after writing nil or an unconvertible value the key is still in `keys`, reads nil, and is absent from `toDictionary` |
| GenericDictionaries.SetLeavesOtherKeys | packages/react-native-activity-kit/ios/ActivityKitCore.swift:133-141 | writing one key changes neither the value nor the presence of any other key |
| GenericDictionaries.MaterializedAgreesWithGet | packages/react-native-activity-kit/ios/ActivityKitCore.swift:151-158 | `toDictionary` holds a key exactly when the subscript reads it as non-nil, with the same value, and only listed keys |
| GenericDictionaries.NotADictionary | packages/react-native-activity-kit/ios/ActivityKitCore.swift:128-158 | without a dictionary the getter reads nil, the setter is a no-op, `keys` is empty and `toDictionary` is empty |
| GenericDictionaries.ExtractIsPlain | packages/react-native-activity-kit/ios/ActivityKitCore.swift:77-100 | extraction yields only strings, Ints, Doubles, Bools and lists and dictionaries of those, so the `as? Date` branch of `getDate` is never taken |
| GenericDictionaries.GetSetGet | packages/react-native-activity-kit/ios/ActivityKitCore.swift:128-141 | a value read through the subscript and written under any key reads back the same |
| GenericDictionaries.GetAsStringAgrees | packages/react-native-activity-kit/ios/ActivityKitCore.swift:220-249 | `getAsString` gives the same text as a non-empty `getString`, and `"true"` where `getBool` is true |
| GenericDictionaries.TimestampReadsBack | packages/react-native-activity-kit/ios/ActivityKitCore.swift:256-265 | a millisecond timestamp stored as a Double, or read back from JSON as an Int, gives the date `ms / 1000` |
| GenericDictionaries.AnyMapState | packages/react-native-activity-kit/ios/Utils.swift:171-173 | as written, the AnyMap initializer keeps numbers, bools and strings, stores nested arrays and objects empty, and drops bigints and nulls |
| GenericDictionaries.NestedListIsEmptied | packages/react-native-activity-kit/ios/Utils.swift:171-173 | a state `{tags: ["a"]}` is stored as `{tags: []}` |
| GenericDictionaries.ValueOfLosesNothing | packages/react-native-activity-kit/ios/Utils.swift:171-173 | the corrected conversion of a JavaScript value can be turned back into that value |
| GenericDictionaries.CorrectedAnyMapState | packages/react-native-activity-kit/ios/Utils.swift:171-173 | the corrected state holds exactly the keys whose value is not null |
| GenericDictionaries.CorrectedStateKeepsValues | packages/react-native-activity-kit/ios/Utils.swift:171-173 | every non-null value of the JavaScript state can be recovered from the corrected state |
| ActivityKitUtils.GetAnyMapValue | packages/react-native-activity-kit/ios/Utils.swift:24-47 | nil exactly for a missing key and for null; a bool, number or string comes back as the Swift value, a bigint as an `Int64`, and an array or object as a list or dictionary of the Nitro values themselves (boxed, not converted); the tags are disjoint, so the order of the checks does not change the result |
| ActivityKitUtils.DictionaryOf | packages/react-native-activity-kit/ios/Utils.swift:49-55 | `anyMapToDictionary` holds exactly the keys whose value is not null, each with what `getAnyMapValue` reads |
| ActivityKitUtils.AnyMapToDictionary | packages/react-native-activity-kit/ios/Utils.swift:49-55 | the loop yields `getAnyMapValue` for every key, with nil results removed |
| ActivityKitUtils.DictionaryOfKeys | packages/react-native-activity-kit/ios/Utils.swift:49-55 | the keys of the result are exactly the keys whose value is not null |
| ActivityKitUtils.HashableDictInit | packages/react-native-activity-kit/ios/Utils.swift:60-69 | nil exactly when some value is not hashable; otherwise the same dictionary |
| ActivityKitUtils.SerializedValue | packages/react-native-activity-kit/ios/Utils.swift:211-231 | an entry is written exactly when one of the five checks holds, and what is written is the payload of the last check that holds |
| ActivityKitUtils.Serialized | packages/react-native-activity-kit/ios/Utils.swift:208-234 | `serializeAnyMap` is empty for nil metadata, and otherwise holds exactly the keys whose value some check accepts, each with its written value |
| ActivityKitUtils.SerializeAnyMap | packages/react-native-activity-kit/ios/Utils.swift:208-234 | the loop of five independent `if`s yields, per entry, the write of the last check that holds |
| ActivityKitUtils.SerializeNil | packages/react-native-activity-kit/ios/Utils.swift:208-210 | no metadata gives an empty map |
| ActivityKitUtils.SerializedValueWritten | packages/react-native-activity-kit/ios/Utils.swift:211-231 | an entry is written exactly when it is a Bool, String, Double, Int64, Foundation number or `[String: AnyValue]` |
| ActivityKitUtils.SerializedNSNumber | packages/react-native-activity-kit/ios/Utils.swift:211-226 | a Foundation number passes several checks and the last write wins: whole numbers become bigints, even 0 and 1, others doubles |
| ActivityKitUtils.SerializedAfterGet | packages/react-native-activity-kit/ios/Utils.swift:211-231 | one value read by `getAnyMapValue` serializes back to itself, except an array, which is dropped |
| ActivityKitUtils.BridgeRoundTrip | packages/react-native-activity-kit/ios/Utils.swift:208-234 | serializing `anyMapToDictionary(m)` gives back `m` without its null and array entries |
| ActivityKitUtils.HexString | packages/react-native-activity-kit/ios/Utils.swift:266 | two lowercase hex digits per byte |
| ActivityKitUtils.ParsePushToken | packages/react-native-activity-kit/ios/Utils.swift:264-269 | nil exactly for a nil token |
| ActivityKitUtils.HexByteDigits | packages/react-native-activity-kit/ios/Utils.swift:266 | `%02x` writes the high then the low nibble |
| ActivityKitUtils.PushTokenRoundTrip | packages/react-native-activity-kit/ios/Utils.swift:264-269 | a token's text has length twice the byte count and parses back to the token |
| ActivityKitUtils.PushTokenInjective | packages/react-native-activity-kit/ios/Utils.swift:264-269 | different tokens give different texts |
| ActivityStates.ConvertActivityState | packages/react-native-activity-kit/ios/Utils.swift:249-262 | active, dismissed, ended and stale map to their namesakes (both directions), every other state to `.none` |
| ActivityStates.ConvertActivityStateInjective | packages/react-native-activity-kit/ios/Utils.swift:249-258 | the four known states stay distinct |
| AlarmKitUtils.ConvertAuthStatus | packages/react-native-alarm-kit/ios/Utils.swift:5-16 | authorized and denied carry over; not-determined and any unknown case become not-determined |
| AlarmKitUtils.ConvertAlarmState | packages/react-native-alarm-kit/ios/Utils.swift:19-32 | each of the four known states maps to its namesake (both directions); an unknown state is excluded, as it is a fatal error |
| AlarmKitUtils.ConvertAlarmStateInjective | packages/react-native-alarm-kit/ios/Utils.swift:19-28 | distinct known states give distinct results |
| AlarmKitUtils.ConvertAlarmStateOnto | packages/react-native-alarm-kit/ios/Utils.swift:19-28 | every bridged state is produced by some known state |
| AlarmKitJs.CreateError | packages/react-native-activity-kit/src/AlarmKit.ts:39-50 | the error carries the given code and message, and `userInfo` exactly when one is given |
| AlarmKitJs.CheckPlatformSupport | packages/react-native-activity-kit/src/AlarmKit.ts:19-37 | off iOS it always throws `UnsupportedPlatform`; on iOS it throws exactly for a version string whose parsed major version is below 16 |
| AlarmKitJs.MajorVersion | packages/react-native-activity-kit/src/AlarmKit.ts:29 | an empty segment before the first dot reads as `'0'`, giving 0; the result is NaN exactly when the segment has no digits after white space and a sign |
| AlarmKitJs.MajorVersionOfDotted | packages/react-native-activity-kit/src/AlarmKit.ts:29 | the major version of "N.rest" is N, whatever follows the first dot |
| AlarmKitJs.ParseIntDecimal | packages/react-native-activity-kit/src/AlarmKit.ts:29 | `parseInt` reads the decimal text of a number back as that number |
| AlarmKitJs.CheckDottedVersion | packages/react-native-activity-kit/src/AlarmKit.ts:27-35 | a version "N.rest" fails exactly when N < 16 |
| AlarmKitJs.CheckNonNumericVersion | packages/react-native-activity-kit/src/AlarmKit.ts:29-30 | a major segment without leading digits parses to NaN, and the check passes |
| AlarmKitJs.CheckEmptyMajor | packages/react-native-activity-kit/src/AlarmKit.ts:29-30 | an empty major segment counts as `'0'`, and the check fails |
| AlarmKitJs.CheckNumericVersion | packages/react-native-activity-kit/src/AlarmKit.ts:28 | a numeric version is not checked |
| AlarmKitJs.OriginalError | packages/react-native-activity-kit/src/AlarmKit.ts:70 | the original message when it is present and non-empty, else `'Unknown error'` |
| AlarmKitJs.RequestAuthorization | packages/react-native-activity-kit/src/AlarmKit.ts:62-74 | a status passes through; a failure becomes `PermissionDenied`, "Failed to request alarm permissions", with `userInfo.originalError` |
| AlarmKitJs.CreateCountdown | packages/react-native-activity-kit/src/AlarmKit.ts:76-100 | `preAlert` is the duration or 60, `timerFiringAt` is `now + preAlert * 1000` and the only metadata key, and the titles, colours and stop icon are those given |
| AlarmKitJs.GateAdmitsIos17 | packages/react-native-activity-kit/src/AlarmKit.ts:17 | as written, iOS "17.0" passes the gate although the native module needs iOS 26 |
| AlarmKitJs.CheckAlarmKitSupport | packages/react-native-activity-kit/src/AlarmKit.ts:19-37 | the gate with minimum 26: on iOS it throws exactly for a version string whose parsed major version is below 26 |
| AlarmKitJs.CorrectedGateDottedVersion | packages/react-native-activity-kit/src/AlarmKit.ts:27-35 | with the corrected minimum, "N.rest" passes exactly when N >= 26 |

## Left out

- Foundation's number handling: `Double` is a real number, with no rounding, NaN or infinities. JSON numbers are their exact values, so a decoder cannot tell `2.0` from `2`.
- `JSONEncoder`, `JSONDecoder` and `JSONSerialization` are reduced to the `Json` value they read and write. Text syntax and `serializeContentState` are not part of this model.
- `ISO8601DateFormatter`, `String(Double)`, `String(describing:)` and a Swift dictionary's enumeration order are parameters (`iso8601`, `TextFormat`). The enumeration order is required to list every key exactly once, as Swift's does; which order it picks is not modelled.
- `HashableDict`'s test of whether a value conforms to `Hashable` is a parameter (`hashable`). Its `hash(into:)` and `==` are not part of this model.
- The hash-based `==` and `hash(into:)` of both wrappers are not part of this model: they depend on Swift's `Hasher`.
- `GenericDictionary` and `GenericDictionaryStruct` are one class. The struct's value semantics (copy on assignment) and the class's reference semantics are not distinguished.
- `keys` returns an array in hash order. The model gives the set of keys.
- Dictionary keys are compared as sequences of code points. Swift's `String` equality is Unicode canonical equivalence, so two `AnyMap` keys that differ only in normalization (NFC and NFD) merge into one entry in `anyMapToDictionary`'s `[String: Any]`, the last one enumerated winning. `DictionaryOf` and `BridgeRoundTrip` keep both; that merging is not modelled.
- `GenericDictionaries.GenericDictionary.Get`, `Keys`, `GetAsString` and `GetDate` only state that they read the current `codable` through `Lookup`, `KeysOf`, `TextAt` and `DateAt`. What those functions mean is stated on them and in the lemmas, which therefore hold in every state of the object.
- `ConvertAlarmState` requires a known state. The `fatalError` for an unknown state is not modelled as a crash.
- The `AnyMap` initializer is modelled as written. The evidently intended conversion (`ValueOf`, `CorrectedAnyMapState`) stands beside it, and the wrapper does not use it.
- The Nitro module plumbing, async functions, activity and alarm streams, and the native ActivityKit and AlarmKit calls are not part of this model. Neither is the SwiftUI widget nor the Expo configuration.
- `Platform.OS`, `Platform.Version` and `Date.now()` are parameters of `CheckPlatformSupport` and `CreateCountdown`.
- JavaScript numbers are exact integers and reals. `Date.now() + preAlert * 1000` and `parseInt` are computed without IEEE 754 rounding, NaN arithmetic, infinities or the loss of precision above 2^53; only `parseInt`'s NaN for text without digits is modelled.
- `parseInt` skips the ASCII white space, the no-break space, the line and paragraph separators and the byte-order mark. Other Unicode space separators are not modelled.
- The commented-out part of `AlarmKit.ts` is not part of this model: it is dead code.

## Findings

| source | as written | input that shows it | evidently intended | confidence | as-written member | corrected member |
|---|---|---|---|---|---|---|
| packages/react-native-activity-kit/ios/Utils.swift:171-173 | `init(state: AnyMap)` goes through `anyMapToDictionary`. Its nested arrays and objects hold Nitro `AnyValue` elements, which `convertToCodableValue` does not recognise. Bigints arrive as `Int64`, which it does not recognise either. | state `{tags: ["a"]}` is stored as `{tags: []}`; a bigint entry disappears | every JavaScript value is kept, nested ones included | medium, not executed | GenericDictionaries.NestedListIsEmptied | GenericDictionaries.CorrectedAnyMapState |
| packages/react-native-activity-kit/src/AlarmKit.ts:17 | `MIN_IOS_VERSION = 16`, while the native AlarmKit functions are `@available(iOS 26.0, *)` | `Platform.Version` "17.0" passes the gate | the gate admits only iOS 26 and later | medium, not executed | AlarmKitJs.GateAdmitsIos17 | AlarmKitJs.CheckAlarmKitSupport |
