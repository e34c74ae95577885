/**
 * The dance flag, which selects the dance threshold profile. It starts from
 * the StopGCDuringDance setting and reacts to scene loads and to the start
 * and end of a free dance.
 */
module DanceMode {
  import SceneNames

  /**
   * The flag after a scene load. A dance scene sets it when the setting is on
   * and otherwise leaves it; any other scene sets it as well, whatever the
   * setting, so a scene load never clears the flag.
   */
  function AfterSceneLoaded(flag: bool, danceToggle: bool, sceneName: string): (next: bool)
    ensures next <==> flag || danceToggle || !SceneNames.IsDanceScene(sceneName)
  {
    if SceneNames.IsDanceScene(sceneName) then
      if danceToggle then true else flag
    else
      true
  }

  /** The flag after a free dance starts: set when the setting is on, otherwise unchanged. */
  function AfterStartFreeDance(flag: bool, danceToggle: bool): (next: bool)
    ensures next <==> flag || danceToggle
  {
    if danceToggle then true else flag
  }

  /** The flag after a free dance ends: always cleared. */
  function AfterEndFreeDance(flag: bool): (next: bool)
    ensures !next
  {
    false
  }

  datatype ModeEvent = SceneLoaded(name: string) | StartFreeDance | EndFreeDance

  function Step(flag: bool, danceToggle: bool, e: ModeEvent): bool
  {
    match e
    case SceneLoaded(name) => AfterSceneLoaded(flag, danceToggle, name)
    case StartFreeDance => AfterStartFreeDance(flag, danceToggle)
    case EndFreeDance => AfterEndFreeDance(flag)
  }

  /** The flag after a sequence of events, in order. */
  function RunEvents(flag: bool, danceToggle: bool, events: seq<ModeEvent>): bool
    decreases |events|
  {
    if events == [] then flag
    else RunEvents(Step(flag, danceToggle, events[0]), danceToggle, events[1..])
  }

  /**
   * With the setting on, the flag is set after any event except the end of a
   * free dance: the dance profile is active unless the last event ended a dance.
   */
  lemma {:induction false} ToggleOnFollowsLastEvent(flag: bool, events: seq<ModeEvent>)
    ensures RunEvents(flag, true, events)
        == if events == [] then flag else !events[|events| - 1].EndFreeDance?
    decreases |events|
  {
    if events != [] {
      var rest := events[1..];
      ToggleOnFollowsLastEvent(Step(flag, true, events[0]), rest);
      if rest != [] {
        assert rest[|rest| - 1] == events[|events| - 1];
      }
    }
  }

  predicate LoadsNonDanceScene(e: ModeEvent)
  {
    e.SceneLoaded? && !SceneNames.IsDanceScene(e.name)
  }

  /**
   * With the setting off, the flag only becomes set by loading a scene that
   * is not a dance scene; starting a dance or loading a dance scene never sets it.
   */
  lemma {:induction false} ToggleOffSetOnlyByNonDanceScene(flag: bool, events: seq<ModeEvent>)
    requires RunEvents(flag, false, events)
    ensures flag || exists i :: 0 <= i < |events| && LoadsNonDanceScene(events[i])
    decreases |events|
  {
    if events != [] {
      var next := Step(flag, false, events[0]);
      ToggleOffSetOnlyByNonDanceScene(next, events[1..]);
      if !flag && !next {
        var i :| 0 <= i < |events[1..]| && LoadsNonDanceScene(events[1..][i]);
        assert LoadsNonDanceScene(events[i + 1]);
      } else if !flag {
        assert LoadsNonDanceScene(events[0]);
      }
    }
  }
}
