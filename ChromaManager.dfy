/** The lane registry and global switches (ChromaManager.cs): one blender per
    registered lane, the engine's default colours, and the settings the
    rainbow step reads. */
module Registry {
  import opened Outcomes
  import opened HslColors
  import opened Lanes
  import opened Blenders

  /** A default colour as the host's table stores it. */
  type ColorTuple = (real, real, real)

  class ChromaManager {
    var enableChroma: bool
    var enableTriggers: bool
    var affectedNotesRainbow: seq<NoteColorType>
    var enableRainbow: bool
    var rainbowSpeed: real
    var areTriggersLoaded: bool

    /** The host's default colour per lane (`ColorValueWrapper.colorDefaults`). */
    const defaultColors: map<NoteColorType, ColorTuple>
    var colorBlenders: map<NoteColorType, ChromaBlender>

    /** The host's `Mathf.Approximately`. */
    const approximately: (real, real) -> bool
    /** `HslColor.WrapAndClamp`, whose body is not part of this model. */
    const wrapAndClamp: HslColor -> HslColor

    /** Every lane has a default colour, no blender is registered under two
        lanes, every blender is valid, and no lane is listed twice for the
        rainbow. */
    ghost predicate Valid()
      reads this`colorBlenders, this`affectedNotesRainbow, colorBlenders.Values
    {
      Wellformed() && BlendersValid()
    }

    /** The part of `Valid` that depends on the registry's own fields only. */
    ghost predicate Wellformed()
      reads this`colorBlenders, this`affectedNotesRainbow
    {
      && (forall l: NoteColorType :: l in defaultColors)
      && (forall k1, k2 :: k1 in colorBlenders && k2 in colorBlenders && k1 != k2 ==>
            colorBlenders[k1] != colorBlenders[k2])
      && (forall j, k :: 0 <= j < k < |affectedNotesRainbow| ==>
            affectedNotesRainbow[j] != affectedNotesRainbow[k])
    }

    ghost predicate BlendersValid()
      reads this`colorBlenders, colorBlenders.Values
    {
      forall k :: k in colorBlenders ==> colorBlenders[k].Valid()
    }

    /** The static class as the runtime first sees it: every switch off, no
        lane registered, no lane in the rainbow list. */
    constructor (defaults: map<NoteColorType, ColorTuple>,
                 approximately: (real, real) -> bool,
                 wrapAndClamp: HslColor -> HslColor)
      requires forall l: NoteColorType :: l in defaults
      ensures Valid()
      ensures defaultColors == defaults && colorBlenders == map[]
      ensures this.approximately == approximately && this.wrapAndClamp == wrapAndClamp
      ensures !enableChroma && !enableTriggers && !enableRainbow && !areTriggersLoaded
      ensures affectedNotesRainbow == [] && rainbowSpeed == 0.0
    {
      defaultColors := defaults;
      this.approximately := approximately;
      this.wrapAndClamp := wrapAndClamp;
      colorBlenders := map[];
      enableChroma, enableTriggers, enableRainbow, areTriggersLoaded := false, false, false, false;
      affectedNotesRainbow := [];
      rainbowSpeed := 0.0;
    }

    /** `GetDefaultColorForNoteType`: the table's three components as a colour. */
    function GetDefaultColorForNoteType(colorType: NoteColorType): (c: HslColor)
      requires colorType in defaultColors
      ensures c.hue == defaultColors[colorType].0
      ensures c.saturation == defaultColors[colorType].1
      ensures c.lightness == defaultColors[colorType].2
    {
      var col := defaultColors[colorType];
      HslColor(col.0, col.1, col.2)
    }

    /** `AddColorBlender`: `Dictionary.Add`, which refuses a lane that is
        already registered and then changes nothing. */
    method AddColorBlender(color: NoteColorType, blender: ChromaBlender) returns (r: Outcome)
      requires Valid() && blender.Valid()
      requires blender !in colorBlenders.Values
      modifies this`colorBlenders
      ensures Valid()
      ensures color in old(colorBlenders) ==> r == Fail(DuplicateKey) && colorBlenders == old(colorBlenders)
      ensures color !in old(colorBlenders) ==> r == Pass && colorBlenders == old(colorBlenders)[color := blender]
    {
      if color in colorBlenders {
        return Fail(DuplicateKey);
      }
      colorBlenders := colorBlenders[color := blender];
      r := Pass;
    }

    /** `GetBlenderForNoteType`: the dictionary lookup, failing for a lane
        that was never registered. */
    method GetBlenderForNoteType(color: NoteColorType) returns (r: Result<ChromaBlender>)
      ensures r.Success? <==> color in colorBlenders
      ensures r.Success? ==> r.value == colorBlenders[color]
      ensures r.Failure? ==> r.error == KeyNotFound
    {
      if color !in colorBlenders {
        return Failure(KeyNotFound);
      }
      r := Success(colorBlenders[color]);
    }

    /** `SetColorForNoteType`: nothing happens while chroma is off (even for
        an unregistered lane) or when the lane's blender already matches the
        colour as given; otherwise the wrapped-and-clamped colour is written
        to that lane's blender and to no other. */
    method SetColorForNoteType(colorType: NoteColorType, color: HslColor) returns (r: Outcome)
      requires Valid()
      modifies colorBlenders.Values
      ensures Valid()
      ensures !enableChroma ==> r == Pass && unchanged(colorBlenders.Values)
      ensures enableChroma && colorType !in colorBlenders ==>
                r == Fail(KeyNotFound) && unchanged(colorBlenders.Values)
      ensures enableChroma && colorType in colorBlenders &&
              old(colorBlenders[colorType].MatchesColor(color, approximately)) ==>
                r == Pass && unchanged(colorBlenders.Values)
      ensures enableChroma && colorType in colorBlenders &&
              !old(colorBlenders[colorType].MatchesColor(color, approximately)) ==>
                && r == Pass
                && colorBlenders[colorType].Color() == wrapAndClamp(color)
                && colorBlenders[colorType].dirty
                && colorBlenders[colorType].generated == old(colorBlenders[colorType].generated)
                && unchanged(colorBlenders.Values - {colorBlenders[colorType]})
    {
      if !enableChroma {
        return Pass;
      }
      if colorType !in colorBlenders {
        return Fail(KeyNotFound);
      }
      var blender := colorBlenders[colorType];
      if blender.MatchesColor(color, approximately) {
        return Pass;
      }
      var normalized := wrapAndClamp(color);
      blender.SetHue(normalized.hue);
      blender.SetSaturation(normalized.saturation);
      blender.SetLightness(normalized.lightness);
      r := Pass;
    }

    /** `ResetColorBlenders`: every registered blender gets its lane's
        default colour and is propagated, so each ends clean. */
    method ResetColorBlenders()
      requires Valid()
      modifies colorBlenders.Values
      ensures Valid()
      ensures forall k :: k in colorBlenders ==>
                colorBlenders[k].Color() == GetDefaultColorForNoteType(k) && !colorBlenders[k].dirty
      ensures forall k :: k in colorBlenders ==>
                colorBlenders[k].State() == ResetTo(old(colorBlenders[k].State()), GetDefaultColorForNoteType(k))
    {
      var pending := colorBlenders.Keys;
      while pending != {}
        invariant pending <= colorBlenders.Keys
        invariant BlendersValid()
        invariant forall k :: k in colorBlenders ==>
                    colorBlenders[k].State() ==
                      if k in pending then old(colorBlenders[k].State())
                      else ResetTo(old(colorBlenders[k].State()), GetDefaultColorForNoteType(k))
        decreases pending
      {
        var k :| k in pending;
        ResetBlender(colorBlenders[k], GetDefaultColorForNoteType(k));
        pending := pending - {k};
      }
    }

    /** The body of the reset loop for one blender: the three channel writes
        of the default colour, then a propagation. */
    static method ResetBlender(b: ChromaBlender, d: HslColor)
      requires b.Valid()
      modifies b
      ensures b.Valid()
      ensures b.State() == ResetTo(old(b.State()), d)
    {
      b.SetHue(d.hue);
      b.SetSaturation(d.saturation);
      b.SetLightness(d.lightness);
      b.PropagateColors();
    }

    /** `PropagateAllColors`: every registered blender ends clean with its
        colour as it was, and exactly the dirty ones regenerate, once each. */
    method PropagateAllColors()
      requires Valid()
      modifies colorBlenders.Values
      ensures Valid()
      ensures forall k :: k in colorBlenders ==>
                && !colorBlenders[k].dirty
                && colorBlenders[k].Color() == old(colorBlenders[k].Color())
                && colorBlenders[k].generated == old(colorBlenders[k].generated) + (if old(colorBlenders[k].dirty) then 1 else 0)
    {
      var pending := colorBlenders.Keys;
      while pending != {}
        invariant pending <= colorBlenders.Keys
        invariant BlendersValid()
        invariant forall k :: k in colorBlenders ==>
                    colorBlenders[k].State() ==
                      if k in pending then old(colorBlenders[k].State()) else Propagated(old(colorBlenders[k].State()))
        decreases pending
      {
        var k :| k in pending;
        colorBlenders[k].PropagateColors();
        pending := pending - {k};
      }
    }
  }
}
