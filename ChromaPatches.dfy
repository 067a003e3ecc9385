/** The hooks into the game's lifecycle (ChromaPatches.cs): blender
    registration, the in-game/restarting flags that decide when effects are
    cleared, and the per-frame rainbow hue advance. The frame time
    (`Time.deltaTime`) is a parameter. */
module Patches {
  import opened Outcomes
  import opened HslColors
  import opened Lanes
  import opened Blenders
  import opened Registry
  import opened Triggers

  /** One rainbow step on a hue: advance by `step`, then wrap once, down by 1
      above 1 and up by 1 below 0. The result differs from `hue + step` by a
      whole turn at most. */
  function RainbowHue(hue: real, step: real): (h: real)
    ensures h == hue + step || h == hue + step - 1.0 || h == hue + step + 1.0
    ensures hue + step > 1.0 ==> h == hue + step - 1.0
    ensures hue + step < 0.0 ==> h == hue + step + 1.0
    ensures 0.0 <= hue + step <= 1.0 ==> h == hue + step
  {
    var advanced := hue + step;
    var wrapped := if advanced > 1.0 then advanced - 1.0 else advanced;
    if wrapped < 0.0 then wrapped + 1.0 else wrapped
  }

  /** A hue in [0, 1] advanced by at most a whole turn either way stays in
      [0, 1]; a hue landing exactly on 1 is kept, the test being strict. */
  lemma RainbowHueInRange(hue: real, step: real)
    requires 0.0 <= hue <= 1.0
    requires -1.0 <= step <= 1.0
    ensures 0.0 <= RainbowHue(hue, step) <= 1.0
    ensures hue + step == 1.0 ==> RainbowHue(hue, step) == 1.0
  {
  }

  /** The hue advance of one frame: a tenth of the rainbow speed per second. */
  function RainbowStep(speed: real, deltaTime: real): (step: real)
    ensures step * 10.0 == speed * deltaTime
    ensures 0.0 <= speed && 0.0 <= deltaTime ==> 0.0 <= step
  {
    speed * 0.1 * deltaTime
  }

  /** The advance does not depend on how time is cut into frames: two frames
      advance the hue by as much as one frame of their combined length. */
  lemma RainbowStepAdditive(speed: real, dt1: real, dt2: real)
    ensures RainbowStep(speed, dt1 + dt2) == RainbowStep(speed, dt1) + RainbowStep(speed, dt2)
  {
  }

  /** Blender state `was` after one rainbow step: hue advanced, one write,
      the blender dirty, nothing regenerated. */
  ghost function Stepped(was: Snapshot, step: real): Snapshot {
    was.(color := was.color.(hue := RainbowHue(was.color.hue, step)), dirty := true, writes := was.writes + 1)
  }

  /** Position of the first lane in `notes` that has no blender, or |notes|. */
  function FirstUnregistered(notes: seq<NoteColorType>, registered: set<NoteColorType>): (i: nat)
    ensures i <= |notes|
    ensures forall j :: 0 <= j < i ==> notes[j] in registered
    ensures i < |notes| ==> notes[i] !in registered
  {
    if notes == [] || notes[0] !in registered then 0
    else 1 + FirstUnregistered(notes[1..], registered)
  }

  /** A registered lane at or before the first unregistered one lies
      strictly before it. */
  lemma StopNotReached(notes: seq<NoteColorType>, registered: set<NoteColorType>, i: nat)
    requires i < |notes| && i <= FirstUnregistered(notes, registered)
    requires notes[i] in registered
    ensures i < FirstUnregistered(notes, registered)
  {
  }

  /** Extending a prefix by one position adds exactly that element. */
  lemma PrefixGrows(notes: seq<NoteColorType>, i: nat)
    requires i < |notes|
    ensures forall x :: x in notes[..i + 1] <==> x in notes[..i] || x == notes[i]
  {
    assert notes[..i + 1] == notes[..i] + [notes[i]];
  }

  class ChromaPatches {
    var currentlyIngame: bool
    var restarting: bool
    const manager: ChromaManager
    const triggers: TriggerStore

    constructor (manager: ChromaManager, triggers: TriggerStore)
      ensures this.manager == manager && this.triggers == triggers
      ensures !currentlyIngame && !restarting
    {
      this.manager := manager;
      this.triggers := triggers;
      currentlyIngame, restarting := false, false;
    }

    /** Postfix of the host's colour-value constructor: only colour profile 0
        registers a new blender wrapping the host's blender for that lane. */
    method ColorValueWrapperConstructorPostfix(noteType: NoteColorType, colorProfileIndex: int, hostColor: HslColor)
      returns (r: Outcome)
      requires manager.Valid()
      modifies manager`colorBlenders
      ensures manager.Valid()
      ensures colorProfileIndex != 0 ==> r == Pass && manager.colorBlenders == old(manager.colorBlenders)
      ensures colorProfileIndex == 0 && noteType in old(manager.colorBlenders) ==>
                r == Fail(DuplicateKey) && manager.colorBlenders == old(manager.colorBlenders)
      ensures colorProfileIndex == 0 && noteType !in old(manager.colorBlenders) ==>
                && r == Pass
                && manager.colorBlenders.Keys == old(manager.colorBlenders.Keys) + {noteType}
                && fresh(manager.colorBlenders[noteType])
                && manager.colorBlenders[noteType].Color() == hostColor
                && !manager.colorBlenders[noteType].dirty
                && (forall k :: k in old(manager.colorBlenders) ==> manager.colorBlenders[k] == old(manager.colorBlenders[k]))
    {
      if colorProfileIndex != 0 {
        return Pass;
      }
      var blender := new ChromaBlender(hostColor);
      r := manager.AddColorBlender(noteType, blender);
    }

    /** Postfix of `PlayTrack`. */
    method UpdateStateWhenGaming()
      modifies this`currentlyIngame, this`restarting
      ensures currentlyIngame && !restarting
    {
      currentlyIngame := true;
      if restarting {
        restarting := false;
      }
    }

    /** Postfix of `RestartTrack`. */
    method PreventRestartBug()
      modifies this`restarting
      ensures restarting
    {
      restarting := true;
    }

    /** Prefix of `StopTrack`. */
    method LeaveGame()
      modifies this`currentlyIngame
      ensures !currentlyIngame
    {
      currentlyIngame := false;
    }

    /** Postfix of `StopTrack` and of the menu's back button: while a track
        is playing or restarting nothing happens; otherwise the loaded
        triggers are dropped and every blender is reset to its default. */
    method ClearEffects()
      requires manager.Valid()
      modifies triggers, manager`areTriggersLoaded, manager.colorBlenders.Values
      ensures manager.Valid()
      ensures currentlyIngame || restarting ==>
                && unchanged(triggers)
                && manager.areTriggersLoaded == old(manager.areTriggersLoaded)
                && unchanged(manager.colorBlenders.Values)
      ensures !currentlyIngame && !restarting ==>
                && triggers.loaded == map[]
                && !manager.areTriggersLoaded
                && forall k :: k in manager.colorBlenders ==>
                     && manager.colorBlenders[k].Color() == manager.GetDefaultColorForNoteType(k)
                     && !manager.colorBlenders[k].dirty
    {
      if currentlyIngame || restarting {
        return;
      }
      triggers.ClearAll();
      manager.areTriggersLoaded := false;
      manager.ResetColorBlenders();
    }

    /** The two hooks on `StopTrack` in order: the prefix leaves the game,
        so the postfix clears every effect unless a restart is under way. */
    method StopTrack()
      requires manager.Valid()
      modifies this`currentlyIngame, triggers, manager`areTriggersLoaded, manager.colorBlenders.Values
      ensures manager.Valid()
      ensures !currentlyIngame && restarting == old(restarting)
      ensures restarting ==>
                && unchanged(triggers)
                && manager.areTriggersLoaded == old(manager.areTriggersLoaded)
                && unchanged(manager.colorBlenders.Values)
      ensures !restarting ==>
                && triggers.loaded == map[]
                && !manager.areTriggersLoaded
                && forall k :: k in manager.colorBlenders ==>
                     && manager.colorBlenders[k].Color() == manager.GetDefaultColorForNoteType(k)
                     && !manager.colorBlenders[k].dirty
    {
      LeaveGame();
      ClearEffects();
    }

    /** Whether the rainbow step runs this frame. */
    predicate RainbowActive(): (active: bool)
      reads manager
      ensures !manager.enableChroma || !manager.enableRainbow ==> !active
      ensures manager.areTriggersLoaded ==> !active
      ensures manager.enableChroma && manager.enableRainbow && !manager.areTriggersLoaded ==> active
    {
      manager.enableChroma && manager.enableRainbow && !manager.areTriggersLoaded
    }

    /** Postfix of `Track.Update`: each lane in the rainbow list, in order,
        has its hue advanced by `RainbowSpeed * 0.1 * deltaTime` and wrapped
        once; saturation and lightness are left alone. A lane without a
        blender stops the step there with `KeyNotFound`, the lanes before it
        already advanced. */
    method TrackUpdatePostfix(deltaTime: real) returns (r: Outcome)
      requires manager.Valid()
      modifies manager.colorBlenders.Values
      ensures manager.Valid()
      ensures !RainbowActive() ==> r == Pass && unchanged(manager.colorBlenders.Values)
      ensures RainbowActive() ==>
                var notes := manager.affectedNotesRainbow;
                var stop := FirstUnregistered(notes, manager.colorBlenders.Keys);
                && (r == Pass <==> stop == |notes|)
                && (r.Fail? ==> r.error == KeyNotFound)
                && forall k :: k in manager.colorBlenders ==>
                     if k in notes[..stop] then
                       manager.colorBlenders[k].State() ==
                         Stepped(old(manager.colorBlenders[k].State()), RainbowStep(manager.rainbowSpeed, deltaTime))
                     else manager.colorBlenders[k].State() == old(manager.colorBlenders[k].State())
    {
      if !manager.enableChroma || !manager.enableRainbow || manager.areTriggersLoaded {
        return Pass;
      }
      r := AdvanceRainbow(RainbowStep(manager.rainbowSpeed, deltaTime));
    }

    /** The rainbow step proper: every lane of the rainbow list, in order,
        advanced by `step`, up to the first lane without a blender. */
    method AdvanceRainbow(step: real) returns (r: Outcome)
      requires manager.Valid()
      modifies manager.colorBlenders.Values
      ensures manager.Valid()
      ensures var notes := manager.affectedNotesRainbow;
              var stop := FirstUnregistered(notes, manager.colorBlenders.Keys);
              && (r == Pass <==> stop == |notes|)
              && (r.Fail? ==> r.error == KeyNotFound)
              && forall k :: k in manager.colorBlenders ==>
                   if k in notes[..stop] then
                     manager.colorBlenders[k].State() == Stepped(old(manager.colorBlenders[k].State()), step)
                   else manager.colorBlenders[k].State() == old(manager.colorBlenders[k].State())
    {
      var notes := manager.affectedNotesRainbow;
      ghost var blenders := manager.colorBlenders;
      ghost var stop := FirstUnregistered(notes, blenders.Keys);
      ghost var done: set<NoteColorType> := {};
      var i := 0;
      while i < |notes|
        invariant i <= stop
        invariant manager.colorBlenders == blenders
        invariant manager.BlendersValid()
        invariant forall x :: x in done <==> x in notes[..i]
        invariant forall k :: k in blenders ==>
                    blenders[k].State() ==
                      if k in done then Stepped(old(blenders[k].State()), step) else old(blenders[k].State())
      {
        var found := manager.GetBlenderForNoteType(notes[i]);
        if found.Failure? {
          assert i == stop;
          return Fail(found.error);
        }
        StopNotReached(notes, blenders.Keys, i);
        PrefixGrows(notes, i);
        assert notes[i] !in done;
        AdvanceHue(found.value, step);
        done := done + {notes[i]};
        i := i + 1;
      }
      assert notes[..i] == notes[..stop];
      r := Pass;
    }

    /** The loop body of the rainbow step on one blender. */
    static method AdvanceHue(blender: ChromaBlender, step: real)
      requires blender.Valid()
      modifies blender
      ensures blender.Valid()
      ensures blender.State() == Stepped(old(blender.State()), step)
    {
      var hue := blender.hue;
      hue := hue + step;
      if hue > 1.0 {
        hue := hue - 1.0;
      }
      if hue < 0.0 {
        hue := hue + 1.0;
      }
      blender.SetHue(hue);
    }

    /** Postfix of `Track.LateUpdate`: the once-per-frame propagation. */
    method PropagateChromaEffects()
      requires manager.Valid()
      modifies manager.colorBlenders.Values
      ensures manager.Valid()
      ensures forall k :: k in manager.colorBlenders ==>
                && !manager.colorBlenders[k].dirty
                && manager.colorBlenders[k].Color() == old(manager.colorBlenders[k].Color())
                && manager.colorBlenders[k].generated ==
                     old(manager.colorBlenders[k].generated) + (if old(manager.colorBlenders[k].dirty) then 1 else 0)
    {
      manager.PropagateAllColors();
    }
  }
}
