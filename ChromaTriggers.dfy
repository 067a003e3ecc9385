/** The one hard-coded colour trigger and its event handler
    (ChromaTriggers.cs). The trigger library itself (choosing the active
    trigger, calling the handler) is outside the model: the handler is taken
    as called with a trigger and the current time. */
module Triggers {
  import opened Outcomes
  import opened HslColors
  import opened Lanes
  import opened Registry

  /** `ChromaTrigger`: a blend from `startColor` to `endColor` over
      `duration` seconds starting at `time`. */
  datatype ChromaTrigger = ChromaTrigger(
    time: real,
    duration: real,
    startColor: HslColor,
    endColor: HslColor,
    negative: bool)

  /** The event name the trigger is loaded and handled under. */
  const ChromaNoteAEvent: string := "ChromaNoteA"

  /** The trigger built on every chart load: lane NoteA from hue 0.3 to hue
      0.7 between seconds 2 and 6, fully saturated, half lightness. */
  const BuiltInTrigger: ChromaTrigger := ChromaTrigger(
    2.0, 4.0, HslColor(0.3, 1.0, 0.5), HslColor(0.7, 1.0, 0.5), false)

  /** The colour the handler computes: the blend at the fraction of the
      trigger's duration elapsed at `now`, held at the ends. */
  function TriggerColorAt(trigger: ChromaTrigger, now: real): (c: HslColor)
    requires trigger.duration != 0.0
    ensures now <= trigger.time && trigger.duration > 0.0 ==> c == trigger.startColor
    ensures now >= trigger.time + trigger.duration && trigger.duration > 0.0 ==> c == trigger.endColor
    ensures Between(trigger.startColor.hue, trigger.endColor.hue, c.hue)
    ensures Between(trigger.startColor.saturation, trigger.endColor.saturation, c.saturation)
    ensures Between(trigger.startColor.lightness, trigger.endColor.lightness, c.lightness)
  {
    ElapsedFraction(now - trigger.time, trigger.duration);
    Lerp(trigger.startColor, trigger.endColor, (now - trigger.time) / trigger.duration)
  }

  lemma ElapsedFraction(elapsed: real, duration: real)
    requires duration > 0.0 || duration < 0.0
    ensures duration > 0.0 && elapsed <= 0.0 ==> elapsed / duration <= 0.0
    ensures duration > 0.0 && elapsed >= duration ==> elapsed / duration >= 1.0
  {
    var q := elapsed / duration;
    assert q * duration == elapsed;
    if duration > 0.0 && q < 1.0 {
      assert (1.0 - q) * duration > 0.0;
    }
    if duration > 0.0 && q > 0.0 {
      assert q * duration > 0.0;
    }
  }

  /** The built-in trigger divides by 4, so the handler is always defined;
      it holds hue 0.3 up to second 2, reaches 0.5 at second 4, holds 0.7
      from second 6, and keeps saturation 1 and lightness 0.5 throughout. */
  lemma BuiltInTriggerColors(now: real)
    ensures BuiltInTrigger.duration == 4.0
    ensures now <= 2.0 ==> TriggerColorAt(BuiltInTrigger, now).hue == 0.3
    ensures now >= 6.0 ==> TriggerColorAt(BuiltInTrigger, now).hue == 0.7
    ensures TriggerColorAt(BuiltInTrigger, 4.0).hue == 0.5
    ensures TriggerColorAt(BuiltInTrigger, now).saturation == 1.0
    ensures TriggerColorAt(BuiltInTrigger, now).lightness == 0.5
  {
  }

  /** The trigger library's store of loaded triggers, by event name. */
  class TriggerStore {
    var loaded: map<string, seq<ChromaTrigger>>

    constructor ()
      ensures loaded == map[]
    {
      loaded := map[];
    }

    /** The chart-load callback registered by `Setup`: exactly one trigger,
        the built-in one, is loaded under "ChromaNoteA". The chart path is
        not used. */
    method OnChartLoad(path: string)
      modifies this
      ensures loaded == old(loaded)[ChromaNoteAEvent := [BuiltInTrigger]]
    {
      loaded := loaded[ChromaNoteAEvent := [BuiltInTrigger]];
    }

    /** Removes every loaded trigger. */
    method ClearAll()
      modifies this
      ensures loaded == map[]
    {
      loaded := map[];
    }
  }

  /** The "ChromaNoteA" event handler: the trigger's colour at `now`, written
      through the registry to lane NoteA and to no other lane. */
  method OnChromaNoteA(manager: ChromaManager, trigger: ChromaTrigger, now: real) returns (r: Outcome)
    requires manager.Valid()
    requires trigger.duration != 0.0
    modifies manager.colorBlenders.Values
    ensures manager.Valid()
    ensures r.Fail? ==> r.error == KeyNotFound && unchanged(manager.colorBlenders.Values)
    ensures r == Fail(KeyNotFound) <==> manager.enableChroma && NoteColorType.NoteA !in manager.colorBlenders
    ensures NoteColorType.NoteA !in manager.colorBlenders ==> unchanged(manager.colorBlenders.Values)
    ensures NoteColorType.NoteA in manager.colorBlenders ==>
              && r == Pass
              && unchanged(manager.colorBlenders.Values - {manager.colorBlenders[NoteColorType.NoteA]})
    ensures manager.enableChroma && NoteColorType.NoteA in manager.colorBlenders &&
            !old(manager.colorBlenders[NoteColorType.NoteA].MatchesColor(TriggerColorAt(trigger, now), manager.approximately)) ==>
              && manager.colorBlenders[NoteColorType.NoteA].Color() == manager.wrapAndClamp(TriggerColorAt(trigger, now))
              && manager.colorBlenders[NoteColorType.NoteA].dirty
    ensures !manager.enableChroma ||
            (NoteColorType.NoteA in manager.colorBlenders &&
             old(manager.colorBlenders[NoteColorType.NoteA].MatchesColor(TriggerColorAt(trigger, now), manager.approximately))) ==>
              unchanged(manager.colorBlenders.Values)
  {
    var col := TriggerColorAt(trigger, now);
    r := manager.SetColorForNoteType(NoteColorType.NoteA, col);
  }
}
