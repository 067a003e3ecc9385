/** The plugin's settings (Main.cs): five persisted configuration entries
    and the setters the in-game menu calls. Every setter writes the entry
    and the matching runtime switch of the registry together, so the two
    never disagree; turning an effect off, or changing the rainbow lanes,
    resets every blender to the engine's default colour. */
module Plugin {
  import opened Outcomes
  import NT = NoteTypes
  import opened Lanes
  import opened AffectedNotes
  import opened Blenders
  import opened Registry

  datatype Option<T> = None | Some(value: T)

  /** `ConfigFile.Bind`: the value stored in the configuration file when
      there is one, the declared default otherwise. */
  function Bind<T>(stored: Option<T>, default: T): T
  {
    if stored.Some? then stored.value else default
  }

  class ChromaPlugin {
    var enableChromaEntry: bool
    var enableChromaTriggersEntry: bool
    var enableRainbowEntry: bool
    var affectedNotesRainbowEntry: NT.ChromaNoteType
    var rainbowSpeedEntry: real
    const manager: ChromaManager

    /** The runtime switches mirror the configuration entries; the rainbow
        list is the entry's lanes, in lane order. */
    ghost predicate Synced()
      reads this, manager`enableChroma, manager`enableTriggers, manager`enableRainbow,
            manager`affectedNotesRainbow, manager`rainbowSpeed
    {
      SwitchesSynced() && ListSynced()
    }

    ghost predicate SwitchesSynced()
      reads this`enableChromaEntry, this`enableChromaTriggersEntry, this`enableRainbowEntry,
            this`rainbowSpeedEntry,
            manager`enableChroma, manager`enableTriggers, manager`enableRainbow, manager`rainbowSpeed
    {
      && manager.enableChroma == enableChromaEntry
      && manager.enableTriggers == enableChromaTriggersEntry
      && manager.enableRainbow == enableRainbowEntry
      && manager.rainbowSpeed == rainbowSpeedEntry
    }

    ghost predicate ListSynced()
      reads this`affectedNotesRainbowEntry, manager`affectedNotesRainbow
    {
      manager.affectedNotesRainbow == ParseAffectedNotes(affectedNotesRainbowEntry)
    }

    /** The settings part of `Awake`: each entry is bound (stored value or
        default: on, on, on, every lane, speed 1) and copied to the
        registry. */
    constructor (manager: ChromaManager,
                 storedChroma: Option<bool>, storedTriggers: Option<bool>, storedRainbow: Option<bool>,
                 storedNotes: Option<NT.ChromaNoteType>, storedSpeed: Option<real>)
      requires manager.Valid()
      modifies manager`enableChroma, manager`enableTriggers, manager`enableRainbow,
               manager`affectedNotesRainbow, manager`rainbowSpeed
      ensures this.manager == manager
      ensures manager.Valid() && Synced()
      ensures enableChromaEntry == Bind(storedChroma, true)
      ensures enableChromaTriggersEntry == Bind(storedTriggers, true)
      ensures enableRainbowEntry == Bind(storedRainbow, true)
      ensures affectedNotesRainbowEntry == Bind(storedNotes, NT.All)
      ensures rainbowSpeedEntry == Bind(storedSpeed, 1.0)
      ensures manager.colorBlenders == old(manager.colorBlenders)
      ensures unchanged(manager.colorBlenders.Values)
    {
      this.manager := manager;
      enableChromaEntry := Bind(storedChroma, true);
      enableChromaTriggersEntry := Bind(storedTriggers, true);
      enableRainbowEntry := Bind(storedRainbow, true);
      affectedNotesRainbowEntry := Bind(storedNotes, NT.All);
      rainbowSpeedEntry := Bind(storedSpeed, 1.0);
      new;
      CopyToRegistry();
    }

    /** The assignments of `Awake` that copy each entry into the registry. */
    method CopyToRegistry()
      requires manager.Valid()
      modifies manager`enableChroma, manager`enableTriggers, manager`enableRainbow,
               manager`affectedNotesRainbow, manager`rainbowSpeed
      ensures manager.Valid() && Synced()
    {
      manager.enableChroma := enableChromaEntry;
      manager.enableTriggers := enableChromaTriggersEntry;
      manager.enableRainbow := enableRainbowEntry;
      var notes := ParseAffectedNotes(affectedNotesRainbowEntry);
      OrderedHasNoRepeats(notes);
      manager.affectedNotesRainbow := notes;
      manager.rainbowSpeed := rainbowSpeedEntry;
    }

    /** `SetChromaEnabled`: store the switch; switching off resets every
        blender, switching on leaves them alone. */
    method SetChromaEnabled(enabled: bool)
      requires manager.Valid() && Synced()
      modifies this`enableChromaEntry, manager`enableChroma, manager.colorBlenders.Values
      ensures manager.Valid() && Synced()
      ensures enableChromaEntry == enabled
      ensures enabled ==> unchanged(manager.colorBlenders.Values)
      ensures !enabled ==> forall k :: k in manager.colorBlenders ==>
                manager.colorBlenders[k].Color() == manager.GetDefaultColorForNoteType(k)
                && !manager.colorBlenders[k].dirty
    {
      manager.enableChroma := enabled;
      enableChromaEntry := enabled;
      if !enabled {
        manager.ResetColorBlenders();
      }
    }

    /** `SetChromaTriggersEnabled`: as `SetChromaEnabled`, for chart
        triggers. */
    method SetChromaTriggersEnabled(enabled: bool)
      requires manager.Valid() && Synced()
      modifies this`enableChromaTriggersEntry, manager`enableTriggers, manager.colorBlenders.Values
      ensures manager.Valid() && Synced()
      ensures enableChromaTriggersEntry == enabled
      ensures enabled ==> unchanged(manager.colorBlenders.Values)
      ensures !enabled ==> forall k :: k in manager.colorBlenders ==>
                manager.colorBlenders[k].Color() == manager.GetDefaultColorForNoteType(k)
                && !manager.colorBlenders[k].dirty
    {
      manager.enableTriggers := enabled;
      enableChromaTriggersEntry := enabled;
      if !enabled {
        manager.ResetColorBlenders();
      }
    }

    /** `SetRainbowEnabled`: as `SetChromaEnabled`, for the rainbow. */
    method SetRainbowEnabled(enabled: bool)
      requires manager.Valid() && Synced()
      modifies this`enableRainbowEntry, manager`enableRainbow, manager.colorBlenders.Values
      ensures manager.Valid() && Synced()
      ensures enableRainbowEntry == enabled
      ensures enabled ==> unchanged(manager.colorBlenders.Values)
      ensures !enabled ==> forall k :: k in manager.colorBlenders ==>
                manager.colorBlenders[k].Color() == manager.GetDefaultColorForNoteType(k)
                && !manager.colorBlenders[k].dirty
    {
      manager.enableRainbow := enabled;
      enableRainbowEntry := enabled;
      if !enabled {
        manager.ResetColorBlenders();
      }
    }

    /** `SetNoteTypeRainbowEnabled`: set or clear the lanes' bits in the
        entry, re-derive the rainbow list from it and reset every blender.
        The lanes named by `noteType` end up listed (or not) as asked; every
        other lane keeps its listing. */
    method SetNoteTypeRainbowEnabled(noteType: NT.ChromaNoteType, enabled: bool)
      requires manager.Valid() && Synced()
      modifies this`affectedNotesRainbowEntry, manager`affectedNotesRainbow, manager.colorBlenders.Values
      ensures manager.Valid() && Synced()
      ensures affectedNotesRainbowEntry ==
                if enabled then EnableFlags(old(affectedNotesRainbowEntry), noteType)
                else DisableFlags(old(affectedNotesRainbowEntry), noteType)
      ensures forall i :: 0 <= i < 7 ==>
                (LaneOrder[i] in manager.affectedNotesRainbow <==>
                   if NT.HasFlag(noteType, NT.Members[i]) then enabled
                   else LaneOrder[i] in old(manager.affectedNotesRainbow))
      ensures forall k :: k in manager.colorBlenders ==>
                manager.colorBlenders[k].Color() == manager.GetDefaultColorForNoteType(k)
                && !manager.colorBlenders[k].dirty
    {
      UpdateRainbowLanes(noteType, enabled);
      manager.ResetColorBlenders();
    }

    /** The first two statements of `SetNoteTypeRainbowEnabled`: the bit
        update of the entry and the re-derived rainbow list. */
    method UpdateRainbowLanes(noteType: NT.ChromaNoteType, enabled: bool)
      requires manager.Valid() && Synced()
      modifies this`affectedNotesRainbowEntry, manager`affectedNotesRainbow
      ensures manager.Valid() && Synced()
      ensures affectedNotesRainbowEntry ==
                if enabled then EnableFlags(old(affectedNotesRainbowEntry), noteType)
                else DisableFlags(old(affectedNotesRainbowEntry), noteType)
      ensures forall i :: 0 <= i < 7 ==>
                (LaneOrder[i] in manager.affectedNotesRainbow <==>
                   if NT.HasFlag(noteType, NT.Members[i]) then enabled
                   else LaneOrder[i] in old(manager.affectedNotesRainbow))
    {
      var mask := affectedNotesRainbowEntry;
      ghost var before := manager.affectedNotesRainbow;
      if enabled {
        affectedNotesRainbowEntry := EnableFlags(mask, noteType);
      } else {
        affectedNotesRainbowEntry := DisableFlags(mask, noteType);
      }
      var notes := ParseAffectedNotes(affectedNotesRainbowEntry);
      RelistLanes(mask, noteType, enabled, before, notes);
      OrderedHasNoRepeats(notes);
      manager.affectedNotesRainbow := notes;
    }

    /** `SetRainbowSpeed`: the menu's integer slider in tenths; the entry
        and the registry both get `speed / 10`. */
    method SetRainbowSpeed(speed: int)
      requires Synced()
      modifies this`rainbowSpeedEntry, manager`rainbowSpeed
      ensures Synced()
      ensures rainbowSpeedEntry * 10.0 == speed as real
    {
      rainbowSpeedEntry := speed as real / 10.0;
      manager.rainbowSpeed := speed as real / 10.0;
    }
  }
}
