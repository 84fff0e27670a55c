/** The AlarmKit package's conversions from AlarmKit's enums to the bridged ones. */
module AlarmKitUtils {

  /** `AlarmManager.AuthorizationState`; `Unknown` is a case added by a later SDK. */
  datatype AuthorizationState = Authorized | Denied | NotDetermined | Unknown(name: string)

  /** The bridged `AuthStatus` enum. */
  datatype AuthStatus = Authorized | Denied | NotDetermined

  /** `Alarm.State`; `Unknown` is a case added by a later SDK. */
  datatype KitAlarmState = Alerting | Countdown | Paused | Scheduled | Unknown(name: string)

  /** The bridged `AlarmState` enum. */
  datatype AlarmState = Alerting | Countdown | Paused | Scheduled

  /** `convertAuthStatus`: authorized and denied carry over; not-determined and any unknown case become not-determined. */
  function ConvertAuthStatus(s: AuthorizationState): (r: AuthStatus)
    ensures r.Authorized? <==> s.Authorized?
    ensures r.Denied? <==> s.Denied?
    ensures r.NotDetermined? <==> s.NotDetermined? || s.Unknown?
  {
    match s
    case Authorized => AuthStatus.Authorized
    case Denied => AuthStatus.Denied
    case NotDetermined => AuthStatus.NotDetermined
    case Unknown(_) => AuthStatus.NotDetermined
  }

  /**
   * `convertAlarmState`: each known state maps to its namesake. An unknown
   * state is a `fatalError`, so callers must pass a known one.
   */
  function ConvertAlarmState(s: KitAlarmState): (r: AlarmState)
    requires !s.Unknown?
    ensures r.Alerting? <==> s.Alerting?
    ensures r.Countdown? <==> s.Countdown?
    ensures r.Paused? <==> s.Paused?
    ensures r.Scheduled? <==> s.Scheduled?
  {
    match s
    case Alerting => AlarmState.Alerting
    case Countdown => AlarmState.Countdown
    case Paused => AlarmState.Paused
    case Scheduled => AlarmState.Scheduled
  }

  /** Distinct known alarm states give distinct bridged states. */
  lemma ConvertAlarmStateInjective(a: KitAlarmState, b: KitAlarmState)
    requires !a.Unknown? && !b.Unknown?
    requires ConvertAlarmState(a) == ConvertAlarmState(b)
    ensures a == b
  {
  }

  /** Every bridged alarm state is produced by exactly its namesake. */
  lemma ConvertAlarmStateOnto(r: AlarmState)
    ensures exists s: KitAlarmState :: !s.Unknown? && ConvertAlarmState(s) == r
  {
    var s := match r
      case Alerting => KitAlarmState.Alerting
      case Countdown => KitAlarmState.Countdown
      case Paused => KitAlarmState.Paused
      case Scheduled => KitAlarmState.Scheduled;
    assert ConvertAlarmState(s) == r;
  }
}
