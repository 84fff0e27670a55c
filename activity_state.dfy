/** `convertActivityState`: ActivityKit's activity state to the state the JavaScript side sees. */
module ActivityStates {

  /** `ActivityKit.ActivityState`; `Other` stands for every further case an SDK defines. */
  datatype KitActivityState = Active | Dismissed | Ended | Stale | Other(name: string)

  /** The bridged `ActivityState` enum. */
  datatype ActivityState = Active | Dismissed | Ended | Stale | None

  predicate IsKnown(s: KitActivityState) {
    !s.Other?
  }

  /** Same-named cases map to each other; every other state becomes `.none`. */
  function ConvertActivityState(s: KitActivityState): (r: ActivityState)
    ensures r.None? <==> !IsKnown(s)
    ensures s.Active? <==> r.Active?
    ensures s.Dismissed? <==> r.Dismissed?
    ensures s.Ended? <==> r.Ended?
    ensures s.Stale? <==> r.Stale?
  {
    match s
    case Active => ActivityState.Active
    case Dismissed => ActivityState.Dismissed
    case Ended => ActivityState.Ended
    case Stale => ActivityState.Stale
    case Other(_) => ActivityState.None
  }

  /** The four known states stay distinguishable after conversion. */
  lemma ConvertActivityStateInjective(a: KitActivityState, b: KitActivityState)
    requires IsKnown(a) && IsKnown(b)
    requires ConvertActivityState(a) == ConvertActivityState(b)
    ensures a == b
  {
  }
}
