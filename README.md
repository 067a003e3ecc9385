# SpeenChroma2 in Dafny

SpeenChroma2 is a mod for a rhythm game. It recolours the game's note lanes
at run time. Each lane's host colour blender is wrapped in a `ChromaBlender`.
Writes to a wrapper's hue, saturation and lightness mark it dirty, and the
host regenerates the blend once per frame, only for dirty wrappers.
`ChromaManager` keeps one wrapper per lane plus the global switches.
A "rainbow" step turns the hue of the configured lanes a little every frame.
A hard-coded colour trigger fades lane NoteA from hue 0.3 to hue 0.7.
The plugin's settings are a `[Flags]` enum of lanes and a few switches.
Each setter keeps the configuration entry and the runtime switch in step.

The model follows the source file by file:

| file | module | form |
|---|---|---|
| `HslColor.dfy` | `HslColors` | the colour value and `Lerp`, as functions and lemmas |
| `ChromaNoteType.dfy` | `NoteTypes` | the flags enum as `bv32` constants; members are disjoint single bits |
| `Util.dfy` | `Lanes` | the host lane enum and the three conversions of `Util` |
| `AffectedNotes.dfy` | `AffectedNotes` | `ParseAffectedNotes` and the two bit updates of `SetNoteTypeRainbowEnabled` |
| `ChromaBlender.dfy` | `Blenders` | the wrapper as a class whose setters change its fields |
| `ChromaManager.dfy` | `Registry` | the static registry as a class over a map of blenders |
| `ChromaTriggers.dfy` | `Triggers` | the trigger record, its colour at a given time and the event handler |
| `ChromaPatches.dfy` | `Patches` | the game hooks as methods on a class holding the two state flags |
| `Plugin.dfy` | `Plugin` | the configuration entries and their setters |
| `Outcomes.dfy` | `Outcomes` | the exceptions the source throws, as `Result`/`Outcome` values |

Throws become values:
- a missing dictionary key is `KeyNotFound`;
- a duplicate `Dictionary.Add` is `DuplicateKey`;
- an `ArgumentOutOfRangeException` is `ArgumentOutOfRange`;
- the unknown-lane-name exception is `NoNoteTypeForString`.

Each method returns the error that the source throws, and its contract says
what state was already changed when the exception left.

Host blenders also carry two ghost counters:
- `writes` counts channel writes;
- `generated` counts calls to the host's `GenerateBlend`.

The wrapper's invariant `Valid()` says every regeneration, and the one still
pending while the wrapper is dirty, was paid for by a distinct write.
`PropagateColors` leaves the wrapper clean and regenerates only when it was
dirty, so a second propagation in the same frame, with no write in between,
regenerates nothing.

## Model

| member | source | states |
|---|---|---|
| HslColors.Lerp | SpeenChroma2/HslColor.cs:9-21 | Returns `col1` for `t <= 0` and `col2` for `t >= 1`. Each channel of the result lies between the two endpoints' channels. |
| HslColors.LerpInterior | SpeenChroma2/HslColor.cs:15-20 | Strictly between 0 and 1, each channel is `c1 + t * (c2 - c1)`. |
| HslColors.LerpSame | SpeenChroma2/HslColor.cs:9-21 | Blending a colour with itself gives that colour, for any `t`. |
| HslColors.LerpReverse | SpeenChroma2/HslColor.cs:9-21 | The blend from `col1` to `col2` at `t` equals the blend from `col2` to `col1` at `1 - t`. |
| HslColors.LerpHueMonotone | SpeenChroma2/HslColor.cs:9-21 | When the hue rises from `col1` to `col2`, the blended hue never decreases as `t` grows. |
| HslColors.LerpHueDoesNotWrap | SpeenChroma2/HslColor.cs:17 | Hue is blended linearly, not around the colour circle: from 0.9 to 0.1 at 0.5 it gives 0.5. |
| NoteTypes.MembersAreDisjointBits | SpeenChroma2/ChromaNoteType.cs:8-15 | The seven members are the single bits 0x01 to 0x40, no two share a bit, and `All` is exactly 0x7F. |
| NoteTypes.MembersDisjoint | SpeenChroma2/ChromaNoteType.cs:8-14 | Two different members share no bit. |
| NoteTypes.FlagsOf | SpeenChroma2/ChromaNoteType.cs:5-15 | Gives one flag per member, in declaration order. A flag is set exactly when the mask has that member's bit. |
| NoteTypes.Compose | SpeenChroma2/ChromaNoteType.cs:5-15 | The mask built from a choice of members has no bit outside `All`. |
| NoteTypes.DecomposeMask | SpeenChroma2/ChromaNoteType.cs:5-15 | Every mask within `All` is the union of the members whose bits it sets. |
| NoteTypes.DecompositionIsUnique | SpeenChroma2/ChromaNoteType.cs:5-15 | Reading the flags back from a composed mask gives the same choice of members. |
| Lanes.LaneIndex | SpeenChroma2/Main.cs:75-88 | Gives each lane its position in the order `ParseAffectedNotes` uses. The position is below 7 exactly for the seven lanes, so not for `Default`. |
| Lanes.GetName | SpeenChroma2/Util.cs:7-30 | Succeeds exactly for a single member or `All`. Any other value, including a combination of members, fails with `ArgumentOutOfRange` carrying the value. |
| Lanes.GetNameInjective | SpeenChroma2/Util.cs:9-26 | No two enum values share a display name. |
| Lanes.LowerChar | SpeenChroma2/Util.cs:34 | Maps an upper-case ASCII letter to its lower-case letter and leaves any other character alone. The result is never an upper-case letter. |
| Lanes.ToLower | SpeenChroma2/Util.cs:34 | Has the same length as its input and lowers it character by character. |
| Lanes.GetNoteTypeForString | SpeenChroma2/Util.cs:32-56 | Succeeds exactly when the lower-cased name is one of the ten accepted names, and never gives `Default`. Otherwise it fails with `NoNoteTypeForString` carrying the original string. |
| Lanes.GetNoteTypeForStringIgnoresCase | SpeenChroma2/Util.cs:34 | A name and its lower-case form resolve to the same lane, or both fail. |
| Lanes.GetNoteTypeForStringExamples | SpeenChroma2/Util.cs:36-54 | Mixed and lower case agree, the aliases "leftspin", "rightspin" and "highlights" resolve like the canonical names, and "all" is refused. |
| Lanes.ToNoteColorType | SpeenChroma2/Util.cs:58-81 | Succeeds exactly for a single member or `All`, and gives `Default` exactly for `All`. Otherwise it fails with `ArgumentOutOfRange`. |
| Lanes.MembersMatchLaneNames | SpeenChroma2/Util.cs:58-77 | The i-th member converts to the i-th lane. Typing the member's own identifier names the same lane. |
| AffectedNotes.ParseFrom | SpeenChroma2/Main.cs:74-89 | From position `from` on, lists exactly the lanes whose flag is set, in strictly increasing lane order. |
| AffectedNotes.ParseAffectedNotes | SpeenChroma2/Main.cs:72-90 | A lane is listed exactly when the mask has its member's bit. Lanes are listed in enum order, at most seven, never `Default`. |
| AffectedNotes.OrderedHasNoRepeats | SpeenChroma2/Main.cs:74-89 | A list in strictly increasing lane order, such as the one parsed, has no repeated lane. |
| AffectedNotes.ParseFromAllSet | SpeenChroma2/Main.cs:74-89 | With every flag set, every lane from `from` on is listed, in order. |
| AffectedNotes.ParseFromNoneSet | SpeenChroma2/Main.cs:74-89 | With no flag set, no lane from `from` on is listed. |
| AffectedNotes.ParseAffectedNotesExtremes | SpeenChroma2/Main.cs:72-90 | `All` (the configuration default) lists all seven lanes in order, and the zero mask lists none. |
| AffectedNotes.EnableFlags | SpeenChroma2/Main.cs:118-121 | The bits of `noteType` become set, and every other bit of the mask is kept. |
| AffectedNotes.DisableFlags | SpeenChroma2/Main.cs:122-125 | The bits of `noteType` become clear, and every other bit of the mask is kept. |
| AffectedNotes.FlagUpdatesIdempotent | SpeenChroma2/Main.cs:116-125 | Enabling, or disabling, the same lanes twice is the same as once. |
| AffectedNotes.EnableFlagsBit | SpeenChroma2/Main.cs:118-121 | After enabling, a single bit is set exactly when it was set before or `noteType` sets it. |
| AffectedNotes.DisableFlagsBit | SpeenChroma2/Main.cs:122-125 | After disabling, a single bit is set exactly when it was set before and `noteType` does not set it. |
| AffectedNotes.EnableFlagsLanes | SpeenChroma2/Main.cs:116-127 | After enabling, the lanes `noteType` names are listed, and every other lane keeps its listing. |
| AffectedNotes.DisableFlagsLanes | SpeenChroma2/Main.cs:116-127 | After disabling, the lanes `noteType` names are no longer listed, and every other lane keeps its listing. |
| AffectedNotes.RelistLanes | SpeenChroma2/Main.cs:116-127 | Either update, as the flag `enabled` picks: a lane `noteType` names is listed exactly when enabling, and every other lane is listed exactly when it was listed before. |
| Blenders.ChromaBlender.constructor | SpeenChroma2/ChromaBlender.cs:10-14 | A new wrapper holds the host blender's colour, is clean, and has nothing written or generated. |
| Blenders.ChromaBlender.SetHue | SpeenChroma2/ChromaBlender.cs:16-24 | Only the hue changes, to `value`. The wrapper becomes dirty, one write is counted, and nothing is regenerated. |
| Blenders.ChromaBlender.SetSaturation | SpeenChroma2/ChromaBlender.cs:26-34 | Only the saturation changes, to `value`. The wrapper becomes dirty, one write is counted, and nothing is regenerated. |
| Blenders.ChromaBlender.SetLightness | SpeenChroma2/ChromaBlender.cs:36-44 | Only the lightness changes, to `value`. The wrapper becomes dirty, one write is counted, and nothing is regenerated. |
| Blenders.ChromaBlender.PropagateColors | SpeenChroma2/ChromaBlender.cs:46-51 | Ends clean with the colour unchanged. It regenerates once if the wrapper was dirty and not at all if it was clean, so a second call in a row regenerates nothing. |
| Blenders.ChromaBlender.MatchesColor | SpeenChroma2/ChromaBlender.cs:53-56 | When `Approximately` is exact equality, a colour matches exactly when it is the blender's colour. Under any reflexive `Approximately`, the blender's own colour matches. |
| Registry.ChromaManager.constructor | SpeenChroma2/ChromaManager.cs:7-16 | Starts with every switch off, no blender registered, no lane in the rainbow list and speed 0. |
| Registry.ChromaManager.GetDefaultColorForNoteType | SpeenChroma2/ChromaManager.cs:23-27 | The colour's three channels are the default table's three components for that lane. |
| Registry.ChromaManager.AddColorBlender | SpeenChroma2/ChromaManager.cs:42-45 | Registers the blender under a new lane. A lane that is already registered fails with `DuplicateKey` and changes nothing. |
| Registry.ChromaManager.GetBlenderForNoteType | SpeenChroma2/ChromaManager.cs:47-50 | Gives the lane's registered blender. An unregistered lane fails with `KeyNotFound`. |
| Registry.ChromaManager.SetColorForNoteType | SpeenChroma2/ChromaManager.cs:52-63 | Does nothing while chroma is off, and does nothing when the blender already matches the colour. An unregistered lane fails with `KeyNotFound`. Otherwise exactly that lane's blender gets the wrapped-and-clamped colour and becomes dirty. |
| Registry.ChromaManager.ResetColorBlenders | SpeenChroma2/ChromaManager.cs:29-40 | Every registered blender ends holding its lane's default colour, clean. Each one took exactly three channel writes and was regenerated exactly once, even when it already held its default. |
| Registry.ChromaManager.ResetBlender | SpeenChroma2/ChromaManager.cs:35-38 | One blender of the reset loop ends holding the given colour, clean and still valid. It took exactly three writes and one regeneration. |
| Registry.ChromaManager.PropagateAllColors | SpeenChroma2/ChromaManager.cs:65-71 | Every blender ends clean with its colour unchanged. Exactly the dirty ones regenerate, once each. |
| Triggers.TriggerColorAt | SpeenChroma2/ChromaTriggers.cs:46-47 | For a positive duration: the start colour up to the trigger's time, and the end colour from time plus duration on. Each channel always lies between the two colours' channels. |
| Triggers.BuiltInTriggerColors | SpeenChroma2/ChromaTriggers.cs:20-39 | The built-in trigger has duration 4. Its hue holds at 0.3 up to second 2, is 0.5 at second 4, and holds at 0.7 from second 6. Saturation stays 1 and lightness 0.5. |
| Triggers.TriggerStore.OnChartLoad | SpeenChroma2/ChromaTriggers.cs:18-41 | Every chart load puts exactly the built-in trigger under "ChromaNoteA". The chart path is ignored. |
| Triggers.TriggerStore.ClearAll | SpeenChroma2/ChromaPatches.cs:76 | No trigger stays loaded. |
| Triggers.OnChromaNoteA | SpeenChroma2/ChromaTriggers.cs:43-49 | Writes the trigger's colour at `now` through `SetColorForNoteType` to lane NoteA and to no other blender. With chroma on and a colour that does not already match, NoteA ends holding the normalised colour and dirty. With chroma off, or a colour that already matches, no blender changes. Without a NoteA blender nothing changes. The call fails with `KeyNotFound` exactly when chroma is on and NoteA has no blender; otherwise it returns normally. |
| Patches.RainbowHue | SpeenChroma2/ChromaPatches.cs:90-94 | The hue advanced by `step` and wrapped once: down by 1 above 1, up by 1 below 0, unchanged inside [0, 1]. |
| Patches.RainbowHueInRange | SpeenChroma2/ChromaPatches.cs:90-94 | A hue in [0, 1] advanced by at most one turn stays in [0, 1]. A hue landing exactly on 1 stays 1. |
| Patches.RainbowStep | SpeenChroma2/ChromaPatches.cs:90 | One frame advances the hue by a tenth of the speed per second of `deltaTime`. The advance is never negative for a non-negative speed. |
| Patches.RainbowStepAdditive | SpeenChroma2/ChromaPatches.cs:90 | Two frames advance the hue, before wrapping, as much as one frame of their combined length. |
| Patches.FirstUnregistered | SpeenChroma2/ChromaPatches.cs:86-88 | The position of the first listed lane without a blender: every lane before it has one. |
| Patches.ChromaPatches.constructor | SpeenChroma2/ChromaPatches.cs:10-11 | Starts neither in game nor restarting. |
| Patches.ChromaPatches.ColorValueWrapperConstructorPostfix | SpeenChroma2/ChromaPatches.cs:25-38 | Only colour profile 0 registers a fresh wrapper, holding the host colour, for the lane. A lane that is already registered fails with `DuplicateKey` and changes nothing. |
| Patches.ChromaPatches.UpdateStateWhenGaming | SpeenChroma2/ChromaPatches.cs:49-54 | Afterwards the game is in play and not restarting. |
| Patches.ChromaPatches.PreventRestartBug | SpeenChroma2/ChromaPatches.cs:58-61 | Afterwards a restart is under way. |
| Patches.ChromaPatches.LeaveGame | SpeenChroma2/ChromaPatches.cs:65-68 | Afterwards the game is not in play. |
| Patches.ChromaPatches.ClearEffects | SpeenChroma2/ChromaPatches.cs:73-79 | While in game or restarting, nothing changes. Otherwise the triggers are dropped, the triggers-loaded switch is cleared, and every blender is back at its default colour and clean. |
| Patches.ChromaPatches.StopTrack | SpeenChroma2/ChromaPatches.cs:63-79 | Stopping leaves the game. During a restart the triggers, the triggers-loaded switch and the blenders are untouched. Otherwise the triggers are dropped, the switch is cleared, and every blender is back at its default colour and clean. |
| Patches.ChromaPatches.RainbowActive | SpeenChroma2/ChromaPatches.cs:85 | The rainbow runs exactly when chroma and the rainbow are both on and no chart triggers are loaded. Either switch off, or loaded triggers, stops it. |
| Patches.ChromaPatches.TrackUpdatePostfix | SpeenChroma2/ChromaPatches.cs:83-97 | Changes nothing unless chroma and the rainbow are on and no triggers are loaded. Otherwise every listed lane up to the first unregistered one has its hue advanced by `RainbowSpeed * 0.1 * deltaTime` and wrapped, and is dirty. Every other blender is unchanged. The call fails with `KeyNotFound` exactly when a listed lane is unregistered. |
| Patches.ChromaPatches.AdvanceRainbow | SpeenChroma2/ChromaPatches.cs:86-96 | The loop over the rainbow list: as above, for a given step. |
| Patches.ChromaPatches.AdvanceHue | SpeenChroma2/ChromaPatches.cs:88-95 | One lane's hue becomes `RainbowHue` of its hue. The blender becomes dirty and nothing is regenerated. |
| Patches.ChromaPatches.PropagateChromaEffects | SpeenChroma2/ChromaPatches.cs:101-104 | Every blender ends clean with its colour unchanged. Exactly the blenders that were dirty are regenerated, once each, so there is one regeneration per dirty lane per frame. |
| Plugin.ChromaPlugin.constructor | SpeenChroma2/Main.cs:34-62 | Binds the five entries with defaults on, on, on, every lane and speed 1, then copies them into the registry, so entries and registry agree. Blenders are untouched. |
| Plugin.ChromaPlugin.CopyToRegistry | SpeenChroma2/Main.cs:38-62 | Afterwards the registry's switches, rainbow list and speed mirror the entries. |
| Plugin.ChromaPlugin.SetChromaEnabled | SpeenChroma2/Main.cs:92-98 | The entry and the registry switch both take the new value. Switching off resets every blender to its default; switching on leaves them untouched. |
| Plugin.ChromaPlugin.SetChromaTriggersEnabled | SpeenChroma2/Main.cs:100-106 | The same, for chart triggers. |
| Plugin.ChromaPlugin.SetRainbowEnabled | SpeenChroma2/Main.cs:108-114 | The same, for the rainbow. |
| Plugin.ChromaPlugin.SetNoteTypeRainbowEnabled | SpeenChroma2/Main.cs:116-129 | The entry gets the bits of `noteType` set or cleared. The rainbow list is re-derived from the entry: the lanes `noteType` names are listed as asked, and every other lane keeps its listing. Every blender is reset. |
| Plugin.ChromaPlugin.UpdateRainbowLanes | SpeenChroma2/Main.cs:118-127 | The bit update and the re-derived list on their own: entry and registry stay in step, and the lanes are listed as for `SetNoteTypeRainbowEnabled`. No blender is touched. |
| Plugin.ChromaPlugin.SetRainbowSpeed | SpeenChroma2/Main.cs:131-135 | Both the entry and the registry get `speed / 10`, so entries and registry stay in agreement. |

## Left out

- Colours and times are `real`, not 32-bit floats. Rounding is not modelled. The constants `0.1f`, `0.3f` and `0.7f` are taken as the exact decimals.
- Triggers.TriggerColorAt requires a non-zero duration. With duration 0, the source's float division gives infinity or NaN, which `real` cannot represent. The built-in trigger has duration 4.
- `HslColor.WrapAndClamp` and `Mathf.Approximately` are host routines whose bodies are not part of this model. They are parameters of the registry, so the contracts hold for any implementation of them. `MatchesColor` is the conjunction of three `Approximately` calls over those parameters.
- `SetColorForNoteType` (ChromaManager.cs:60-62) and `MatchesColor` (ChromaBlender.cs:55) read `color.H`, `color.S` and `color.L`, and `GetDefaultColorForNoteType` (ChromaManager.cs:26) builds a colour with the three-argument `new HslColor(h, s, l)`. The `HslColor` struct in HslColor.cs:3-22 declares neither: only the fields `Hue`, `Saturation` and `Lightness`. The accessors are taken to be those three fields, and the constructor to store its three arguments unchanged as `Hue`, `Saturation` and `Lightness`.
- `TriggerManager.LoadTriggers(triggers, "ChromaNoteA")` (ChromaTriggers.cs:40) is a call into the trigger library. `TriggerStore.OnChartLoad` assumes it replaces the event's trigger list with the given one, rather than appending to it.
- `AffectedNotesRainbow` is a `null` array until the settings are copied into the registry (ChromaManager.cs:9). The registry's constructor starts it as the empty list instead; until `Awake` copies the settings every switch is off, so the rainbow step never reads the list while it is `null`.
- Plugin.Bind: BepInEx's `ConfigFile.Bind` is a library routine whose body is not part of this model. It is taken to return the value stored in the configuration file when there is one, and the declared default otherwise.
- `GenerateBlend` is recorded only as a count of regenerations (the ghost `generated` counter); what the host draws is not modelled.
- `ChromaManager.GetDefaultColors` reads the host's table `ColorValueWrapper.colorDefaults`. The registry takes that table as a constructor argument and assumes it has an entry for every lane.
- Registry.ChromaManager.AddColorBlender requires the blender object not to be registered under another lane already. The source always passes a fresh wrapper (ChromaPatches.cs:36).
- Each wrapper and the host blender it wraps are modelled as one object: the wrapper's `hue`, `saturation` and `lightness` stand for the host blender's channels (ChromaBlender.cs:7, 21). So the model assumes that each registered lane's host blender, returned by `ColorBlenderForNoteColorType(noteType, 0)` (ChromaPatches.cs:35), is a separate object, and that its channels change only through its wrapper. That host routine is not part of this model, and nothing in the modelled files guarantees either point. If two lanes shared a host blender, a write to one lane would also recolour the other. `SetColorForNoteType`'s promise that no other blender changes, and `ResetColorBlenders`'s per-lane defaults, would then not hold for that pair.
- Lanes.ToLower lowers ASCII letters only. Culture-specific and non-ASCII case mapping is not modelled. Every accepted name is ASCII.
- The host's lane enum is modelled with the seven lanes and `Default` only. `ColorValueWrapperConstructorPostfix` (ChromaPatches.cs:25-36) registers whatever lane the host passes. The model assumes the host builds profile-0 colour values only for these lanes.
- The bodies of `ChromaTriggers.ClearAll` and `ChromaTriggers.LoadTriggers(trackData)` are not part of this model. `ClearAll` is modelled as emptying the trigger store. `ConstructorPatch` (ChromaPatches.cs:106-112) loads triggers from track data through that missing routine and is left out.
- `TriggerManager` (the trigger library) is left out: its event registry, how it picks the active trigger and when it calls the handler. The handler is modelled as called with a trigger and the current time.
- `AreTriggersLoaded` is never set to true in the modelled files; the model keeps it as a switch that only `ClearEffects` clears.
- `ChromaUI` (the menu and copy buttons), `InsertCopyColorButton`, `Log`, the logger and the Harmony patching in `Awake` are left out. They are UI, I/O and runtime patching.
- `Awake` calls `GetDefaultColors` and `ChromaTriggers.Setup`, which are left out here; only its configuration binding is modelled.
- `ConfigFile` persistence is left out: saving on set, and the `AcceptableValueRange(0, 10)` clamp on the speed entry. The speed entry is modelled as holding `speed / 10` exactly as assigned.
- `Time.deltaTime` is a parameter of `TrackUpdatePostfix`.
- Static classes are modelled as objects passed by reference. The patches hold the registry and the trigger store they act on.
