/**
 * The JavaScript facade of AlarmKit: the platform and version gate, error
 * construction, the error wrapping of `requestAuthorization`, and the
 * arguments `createCountdown` builds.
 */
module AlarmKitJs {
  import opened Wrappers
  import opened Numbers

  /** `MIN_IOS_VERSION`. */
  const MinIosVersion: int := 16

  /** `AlarmErrorCode`. */
  datatype AlarmErrorCode =
    | PermissionDenied
    | AlarmNotFound
    | InvalidConfiguration
    | SystemError
    | UnsupportedPlatform
    | AlarmLimitExceeded

  /** A `userInfo` value: `string | number | boolean`. */
  datatype InfoValue = InfoString(s: string) | InfoNumber(n: real) | InfoBool(b: bool)

  /** `AlarmKitError`: an `Error` with a code and, optionally, `userInfo`. */
  datatype AlarmKitError = AlarmKitError(message: string, code: AlarmErrorCode, userInfo: Option<map<string, InfoValue>>)

  /** `createError`: `userInfo` is attached only when the caller passes one (an object is always truthy). */
  function CreateError(code: AlarmErrorCode, message: string, userInfo: Option<map<string, InfoValue>>): (e: AlarmKitError)
    ensures e.code == code && e.message == message
    ensures e.userInfo.Some? <==> userInfo.Some?
    ensures e.userInfo.Some? ==> e.userInfo == userInfo
  {
    var error := AlarmKitError(message, code, None);
    if userInfo.Some? then error.(userInfo := userInfo) else error
  }

  /** `Platform.Version`: a string on iOS, a number elsewhere. */
  datatype PlatformVersion = VersionString(s: string) | VersionNumber(n: real)

  /** The result of `Number.parseInt`. */
  datatype JsInt = NaN | Finite(value: int)

  /** The white space `parseInt` skips (the ASCII and line-separator characters, no-break space and BOM). */
  predicate IsJsSpace(c: char) {
    c == ' ' || c == '\t' || c == '\n' || c == '\r' || c == '\U{000B}' || c == '\U{000C}'
    || c == '\U{00A0}' || c == '\U{FEFF}' || c == '\U{2028}' || c == '\U{2029}'
  }

  function TrimStart(s: string): (r: string)
    ensures |r| <= |s|
    ensures r == [] || !IsJsSpace(r[0])
  {
    if s != [] && IsJsSpace(s[0]) then TrimStart(s[1..]) else s
  }

  /** The longest prefix of decimal digits. */
  function LeadingDigits(s: string): (r: string)
    ensures |r| <= |s| && r == s[..|r|]
    ensures forall k :: 0 <= k < |r| ==> IsDigit(r[k])
  {
    if s == [] || !IsDigit(s[0]) then "" else [s[0]] + LeadingDigits(s[1..])
  }

  /** The value of a string of decimal digits. */
  function DigitsValue(ds: string): (n: nat)
    requires forall k :: 0 <= k < |ds| ==> IsDigit(ds[k])
  {
    if ds == [] then 0
    else
      var last := ds[|ds| - 1];
      assert IsDigit(last);
      DigitsValue(ds[..|ds| - 1]) * 10 + (last as int - '0' as int)
  }

  /** The text after an optional leading sign. */
  function Unsigned(t: string): (r: string)
    ensures |t| - 1 <= |r| <= |t| && r == t[|t| - |r|..]
  {
    if t != [] && (t[0] == '-' || t[0] == '+') then t[1..] else t
  }

  /** `Number.parseInt(s, 10)`: skip white space, read an optional sign and then as many digits as there are. */
  function ParseInt(s: string): JsInt
  {
    var t := TrimStart(s);
    var negative := t != [] && t[0] == '-';
    var body := Unsigned(t);
    var digits := LeadingDigits(body);
    if digits == [] then NaN
    else if negative then Finite(-(DigitsValue(digits) as int))
    else Finite(DigitsValue(digits))
  }

  /** `s.split('.')[0]`: the text before the first `.`, or all of it. */
  function BeforeFirstDot(s: string): (r: string)
    ensures |r| <= |s| && r == s[..|r|]
    ensures '.' !in r
  {
    if s == [] || s[0] == '.' then "" else [s[0]] + BeforeFirstDot(s[1..])
  }

  /** `Number.parseInt(version.split('.')[0] || '0', 10)`. */
  function MajorVersion(version: string): (r: JsInt)
    ensures BeforeFirstDot(version) == "" ==> r == Finite(0)
    ensures r.NaN? <==> BeforeFirstDot(version) != "" && LeadingDigits(Unsigned(TrimStart(BeforeFirstDot(version)))) == ""
  {
    var segment := BeforeFirstDot(version);
    if segment == "" then
      ParseIntDecimal(0);
      assert Decimal(0) == "0";
      ParseInt("0")
    else ParseInt(segment)
  }

  /** `majorVersion < MIN_IOS_VERSION`: NaN compares false. */
  predicate BelowMinimum(major: JsInt) {
    major.Finite? && major.value < MinIosVersion
  }

  /**
   * `checkPlatformSupport`: `Some(e)` is the error it throws, `None` a normal
   * return. Off iOS it always throws; on iOS it throws only for a version
   * string whose major version parses below 16.
   */
  function CheckPlatformSupport(os: string, version: PlatformVersion): (r: Option<AlarmKitError>)
    ensures r.Some? ==> r.value.code == UnsupportedPlatform && r.value.userInfo.None?
    ensures os != "ios" ==> r.Some?
    ensures os == "ios" ==> (r.Some? <==> version.VersionString? && BelowMinimum(MajorVersion(version.s)))
  {
    if os != "ios" then
      Some(CreateError(UnsupportedPlatform, "AlarmKit is only supported on iOS 16.0+", None))
    else if version.VersionString? && BelowMinimum(MajorVersion(version.s)) then
      Some(CreateError(UnsupportedPlatform, "AlarmKit requires iOS 16.0 or later. Current version: " + version.s, None))
    else None
  }

  lemma {:induction false} DigitsValueOfDecimal(n: nat)
    ensures DigitsValue(Decimal(n)) == n
  {
    if n >= 10 {
      var s := Decimal(n);
      assert s[..|s| - 1] == Decimal(n / 10);
      DigitsValueOfDecimal(n / 10);
    }
  }

  lemma {:induction false} LeadingDigitsOfDigits(ds: string)
    requires forall k :: 0 <= k < |ds| ==> IsDigit(ds[k])
    ensures LeadingDigits(ds) == ds
  {
    if ds != [] {
      LeadingDigitsOfDigits(ds[1..]);
    }
  }

  lemma {:induction false} BeforeFirstDotOf(a: string, rest: string)
    requires '.' !in a
    ensures BeforeFirstDot(a + "." + rest) == a
  {
    if a != [] {
      assert (a + "." + rest)[1..] == a[1..] + "." + rest;
      BeforeFirstDotOf(a[1..], rest);
    }
  }

  /** `parseInt` reads the decimal text of a number back as that number. */
  lemma ParseIntDecimal(n: nat)
    ensures ParseInt(Decimal(n)) == Finite(n)
  {
    var s := Decimal(n);
    assert IsDigit(s[0]);
    assert TrimStart(s) == s;
    assert Unsigned(s) == s;
    LeadingDigitsOfDigits(s);
    DigitsValueOfDecimal(n);
  }

  /** The major version of "N.rest" is N, whatever follows the dot. */
  lemma MajorVersionOfDotted(major: nat, rest: string)
    ensures MajorVersion(Decimal(major) + "." + rest) == Finite(major)
  {
    var a := Decimal(major);
    assert forall k :: 0 <= k < |a| ==> a[k] != '.';
    BeforeFirstDotOf(a, rest);
    ParseIntDecimal(major);
  }

  /** On iOS, a version "N.rest" fails the check exactly when N is below 16. */
  lemma CheckDottedVersion(major: nat, rest: string)
    ensures CheckPlatformSupport("ios", VersionString(Decimal(major) + "." + rest)).Some? <==> major < MinIosVersion
  {
    MajorVersionOfDotted(major, rest);
  }

  /** A version text whose major segment has no leading digits parses to NaN, which passes the check. */
  lemma CheckNonNumericVersion(version: string)
    requires BeforeFirstDot(version) != ""
    requires LeadingDigits(Unsigned(TrimStart(BeforeFirstDot(version)))) == ""
    ensures MajorVersion(version) == NaN
    ensures CheckPlatformSupport("ios", VersionString(version)).None?
  {
  }

  /** An empty major segment counts as "0", which is below 16. */
  lemma CheckEmptyMajor(rest: string)
    ensures MajorVersion("." + rest) == Finite(0)
    ensures CheckPlatformSupport("ios", VersionString("." + rest)).Some?
  {
    assert BeforeFirstDot("." + rest) == "";
    ParseIntDecimal(0);
    assert Decimal(0) == "0";
  }

  /** A numeric `Platform.Version` is never checked. */
  lemma CheckNumericVersion(n: real)
    ensures CheckPlatformSupport("ios", VersionNumber(n)).None?
  {
  }

  /** The first iOS release with AlarmKit: the native module is compiled `@available(iOS 26.0, *)`. */
  const AlarmKitIosVersion: int := 26

  /** As written, the gate lets iOS 17 through, where the native AlarmKit module is unavailable. */
  lemma GateAdmitsIos17()
    ensures CheckPlatformSupport("ios", VersionString("17.0")).None?
    ensures 17 < AlarmKitIosVersion
  {
    assert Decimal(1) == "1";
    assert Decimal(17) == "17";
    assert Decimal(17) + "." + "0" == "17.0";
    CheckDottedVersion(17, "0");
  }

  /** The gate with the minimum the native module actually needs. */
  function CheckAlarmKitSupport(os: string, version: PlatformVersion): (r: Option<AlarmKitError>)
    ensures r.Some? ==> r.value.code == UnsupportedPlatform && r.value.userInfo.None?
    ensures os != "ios" ==> r.Some?
    ensures os == "ios" ==> (r.Some? <==>
              version.VersionString? && MajorVersion(version.s).Finite? && MajorVersion(version.s).value < AlarmKitIosVersion)
  {
    if os != "ios" then
      Some(CreateError(UnsupportedPlatform, "AlarmKit is only supported on iOS 26.0+", None))
    else if version.VersionString? && MajorVersion(version.s).Finite? && MajorVersion(version.s).value < AlarmKitIosVersion then
      Some(CreateError(UnsupportedPlatform, "AlarmKit requires iOS 26.0 or later. Current version: " + version.s, None))
    else None
  }

  /** With the corrected minimum, a version "N.rest" passes exactly when AlarmKit exists on iOS N. */
  lemma CorrectedGateDottedVersion(major: nat, rest: string)
    ensures CheckAlarmKitSupport("ios", VersionString(Decimal(major) + "." + rest)).None? <==> major >= AlarmKitIosVersion
  {
    var a := Decimal(major);
    assert forall k :: 0 <= k < |a| ==> a[k] != '.';
    BeforeFirstDotOf(a, rest);
    ParseIntDecimal(major);
  }

  /** A failure of the native call: `Thrown(m)` with `m` the error's `message`, or `None` when it has none. */
  datatype NativeFailure = Thrown(message: Option<string>)

  /** `AuthStatus` as the JavaScript side receives it. */
  datatype AuthStatus = Authorized | Denied | NotDetermined

  /** `error?.message || 'Unknown error'`: a missing or empty message falls back. */
  function OriginalError(f: NativeFailure): (s: string)
    ensures s != ""
    ensures f.message.Some? && f.message.value != "" ==> s == f.message.value
    ensures !(f.message.Some? && f.message.value != "") ==> s == "Unknown error"
  {
    if f.message.Some? && f.message.value != "" then f.message.value else "Unknown error"
  }

  /**
   * `requestAuthorization`: a result passes through; a failure is rethrown
   * as `PermissionDenied` with the original message under `originalError`.
   */
  function RequestAuthorization(native: Result<AuthStatus, NativeFailure>): (r: Result<AuthStatus, AlarmKitError>)
    ensures native.Success? ==> r == Success(native.value)
    ensures native.Failure? ==>
              && r.Failure?
              && r.error.code == PermissionDenied
              && r.error.message == "Failed to request alarm permissions"
              && r.error.userInfo == Some(map["originalError" := InfoString(OriginalError(native.error))])
  {
    match native
    case Success(status) => Success(status)
    case Failure(f) =>
      Failure(CreateError(PermissionDenied, "Failed to request alarm permissions",
                          Some(map["originalError" := InfoString(OriginalError(f))])))
  }

  /** A colour as `{ red, green, blue, alpha }`. */
  datatype Color = Color(red: real, green: real, blue: real, alpha: real)

  datatype StopButton = StopButton(text: string, systemImageName: string, textColor: Color)
  datatype Alert = Alert(title: string, stopButton: StopButton)
  datatype Countdown = Countdown(title: string)

  /** The argument `createCountdown` passes to the native module. */
  datatype CountdownProps = CountdownProps(
    tintColor: Color,
    alert: Alert,
    countdown: Countdown,
    preAlert: real,
    metadata: map<string, real>)

  /** `countdownDurationInSeconds: number = 60`. */
  const DefaultCountdownSeconds: real := 60.0

  /**
   * `createCountdown`'s argument: `duration` is `None` when the caller omits
   * it and `now` is `Date.now()` in milliseconds.
   */
  function CreateCountdown(alertTitle: string, stopText: string, countdownTitle: string,
                           duration: Option<real>, now: real): (p: CountdownProps)
    ensures p.preAlert == duration.GetOr(DefaultCountdownSeconds)
    ensures p.metadata.Keys == {"timerFiringAt"}
    ensures p.metadata["timerFiringAt"] - now == p.preAlert * 1000.0
    ensures p.alert.title == alertTitle && p.alert.stopButton.text == stopText && p.countdown.title == countdownTitle
    ensures p.tintColor == Color(0.0, 0.478, 1.0, 1.0)
    ensures p.alert.stopButton.systemImageName == "stop.fill" && p.alert.stopButton.textColor == Color(1.0, 1.0, 1.0, 1.0)
  {
    var seconds := if duration.Some? then duration.value else DefaultCountdownSeconds;
    CountdownProps(
      Color(0.0, 0.478, 1.0, 1.0),
      Alert(alertTitle, StopButton(stopText, "stop.fill", Color(1.0, 1.0, 1.0, 1.0))),
      Countdown(countdownTitle),
      seconds,
      map["timerFiringAt" := now + seconds * 1000.0])
  }
}
