/** The wrapper around one host colour blender (ChromaBlender.cs). Channel
    writes go straight to the host blender's fields and mark the wrapper
    dirty; `PropagateColors` asks the host to regenerate the blend only when
    something was written since the last time. */
module Blenders {
  import opened HslColors

  /** Everything a blender holds, the ghost counters included. */
  datatype Snapshot = Snapshot(color: HslColor, dirty: bool, generated: nat, writes: nat)

  /** A snapshot after `PropagateColors`: clean, and one more regeneration
      exactly when it was dirty. */
  ghost function Propagated(s: Snapshot): Snapshot {
    s.(dirty := false, generated := s.generated + (if s.dirty then 1 else 0))
  }

  /** A snapshot after writing colour `c` channel by channel and then
      propagating: three writes, clean, and exactly one regeneration. */
  ghost function ResetTo(s: Snapshot, c: HslColor): Snapshot {
    s.(color := c, dirty := false, generated := s.generated + 1, writes := s.writes + 3)
  }

  class ChromaBlender {
    // The host blender's hue, saturation and lightness fields.
    var hue: real
    var saturation: real
    var lightness: real
    var dirty: bool
    /** Number of `GenerateBlend` calls made on the host blender. */
    ghost var generated: nat
    /** Number of channel writes made through this wrapper. */
    ghost var writes: nat

    /** Batching invariant: every regeneration, and the one still pending
        while dirty, is paid for by a distinct earlier write. */
    ghost predicate Valid()
      reads this
    {
      generated + (if dirty then 1 else 0) <= writes
    }

    /** The colour the host blender currently holds. */
    function Color(): HslColor
      reads this
    {
      HslColor(hue, saturation, lightness)
    }

    ghost function State(): Snapshot
      reads this
    {
      Snapshot(Color(), dirty, generated, writes)
    }

    /** Wraps a host blender holding `current`; nothing is pending. */
    constructor (current: HslColor)
      ensures Valid()
      ensures Color() == current && !dirty
      ensures generated == 0 && writes == 0
    {
      hue, saturation, lightness := current.hue, current.saturation, current.lightness;
      dirty := false;
      generated, writes := 0, 0;
    }

    method SetHue(value: real)
      requires Valid()
      modifies this
      ensures Valid()
      ensures Color() == old(Color()).(hue := value) && dirty
      ensures generated == old(generated) && writes == old(writes) + 1
    {
      hue := value;
      dirty := true;
      writes := writes + 1;
    }

    method SetSaturation(value: real)
      requires Valid()
      modifies this
      ensures Valid()
      ensures Color() == old(Color()).(saturation := value) && dirty
      ensures generated == old(generated) && writes == old(writes) + 1
    {
      saturation := value;
      dirty := true;
      writes := writes + 1;
    }

    method SetLightness(value: real)
      requires Valid()
      modifies this
      ensures Valid()
      ensures Color() == old(Color()).(lightness := value) && dirty
      ensures generated == old(generated) && writes == old(writes) + 1
    {
      lightness := value;
      dirty := true;
      writes := writes + 1;
    }

    /** Regenerates the host blend once if anything was written, and never
        otherwise; afterwards the wrapper is clean, so a second call in a row
        regenerates nothing. */
    method PropagateColors()
      requires Valid()
      modifies this
      ensures Valid()
      ensures !dirty && Color() == old(Color())
      ensures generated == old(generated) + (if old(dirty) then 1 else 0)
      ensures writes == old(writes)
    {
      if !dirty {
        return;
      }
      dirty := false;
      generated := generated + 1;  // GenerateBlend on the host blender
    }

    /** Per-channel approximate equality, with the host's `Mathf.Approximately`
        passed in as `approximately`: under an exact test it is equality with
        the blender's colour, and under any reflexive test the blender's own
        colour matches. */
    function MatchesColor(color: HslColor, approximately: (real, real) -> bool): (m: bool)
      reads this
      ensures (forall x: real, y: real :: approximately(x, y) <==> x == y) ==> (m <==> color == Color())
      ensures (forall x: real :: approximately(x, x)) && color == Color() ==> m
    {
      approximately(color.hue, hue) && approximately(color.saturation, saturation)
        && approximately(color.lightness, lightness)
    }
  }
}
