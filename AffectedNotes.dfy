/** The mask-to-lanes decoding and the mask update used by the rainbow
    settings (Main.cs). */
module AffectedNotes {
  import NT = NoteTypes
  import opened Lanes

  /** The lanes whose flag is set, taken from position `from` of the member
      table onwards: the chain of seven `HasFlag` tests of
      `ParseAffectedNotes`, each appending its lane when it passes. */
  function ParseFrom(flags: seq<bool>, from: nat): (r: seq<NoteColorType>)
    requires |flags| == 7 && from <= 7
    ensures |r| <= 7 - from
    ensures forall j :: 0 <= j < |r| ==> from <= LaneIndex(r[j]) < 7 && flags[LaneIndex(r[j])]
    ensures forall i {:trigger LaneOrder[i]} :: from <= i < 7 && flags[i] ==> LaneOrder[i] in r
    ensures forall j, k :: 0 <= j < k < |r| ==> LaneIndex(r[j]) < LaneIndex(r[k])
    decreases 7 - from
  {
    if from == 7 then []
    else
      var rest := ParseFrom(flags, from + 1);
      LaneOrderIndexed();
      if flags[from] then [LaneOrder[from]] + rest else rest
  }

  /** `ParseAffectedNotes`: a lane is listed exactly when its flag bit is set;
      the list follows the member order and so has no repeats. */
  function ParseAffectedNotes(value: NT.ChromaNoteType): (r: seq<NoteColorType>)
    ensures |r| <= 7
    ensures forall i {:trigger LaneOrder[i]} :: 0 <= i < 7 ==> (LaneOrder[i] in r <==> NT.HasFlag(value, NT.Members[i]))
    ensures Default !in r
    ensures forall j, k :: 0 <= j < k < |r| ==> LaneIndex(r[j]) < LaneIndex(r[k])
  {
    var flags := NT.FlagsOf(value);
    var r := ParseFrom(flags, 0);
    forall i | 0 <= i < 7 && LaneOrder[i] in r
      ensures flags[i]
    {
      var j :| 0 <= j < |r| && r[j] == LaneOrder[i];
      LaneOrderIndexed();
    }
    r
  }

  /** Lanes listed in strictly increasing position are pairwise distinct. */
  lemma OrderedHasNoRepeats(r: seq<NoteColorType>)
    requires forall j, k :: 0 <= j < k < |r| ==> LaneIndex(r[j]) < LaneIndex(r[k])
    ensures forall j, k :: 0 <= j < k < |r| ==> r[j] != r[k]
  {
  }

  /** With every flag set, every lane from `from` on is listed, in order. */
  lemma {:induction false} ParseFromAllSet(flags: seq<bool>, from: nat)
    requires |flags| == 7 && from <= 7
    requires forall i :: 0 <= i < 7 ==> flags[i]
    ensures ParseFrom(flags, from) == LaneOrder[from..]
    decreases 7 - from
  {
    if from < 7 {
      ParseFromAllSet(flags, from + 1);
      assert flags[from];
      assert ParseFrom(flags, from) == [LaneOrder[from]] + ParseFrom(flags, from + 1);
      SuffixCons(LaneOrder, from);
    }
  }

  /** With no flag set, no lane from `from` on is listed. */
  lemma {:induction false} ParseFromNoneSet(flags: seq<bool>, from: nat)
    requires |flags| == 7 && from <= 7
    requires forall i :: 0 <= i < 7 ==> !flags[i]
    ensures ParseFrom(flags, from) == []
    decreases 7 - from
  {
    if from < 7 {
      ParseFromNoneSet(flags, from + 1);
      assert !flags[from];
    }
  }

  lemma SuffixCons<T>(s: seq<T>, i: nat)
    requires i < |s|
    ensures s[i..] == [s[i]] + s[i + 1..]
  {
  }

  /** `All` lists all seven lanes in order; a zero mask lists none. */
  lemma ParseAffectedNotesExtremes()
    ensures ParseAffectedNotes(NT.All) == LaneOrder
    ensures ParseAffectedNotes(0) == []
  {
    NT.MembersAreDisjointBits();
    var flags := NT.FlagsOf(NT.All);
    assert forall i :: 0 <= i < 7 ==> flags[i];
    ParseFromAllSet(flags, 0);
    assert LaneOrder[0..] == LaneOrder;
    var clear := NT.FlagsOf(0);
    assert forall i :: 0 <= i < 7 ==> !clear[i];
    ParseFromNoneSet(clear, 0);
  }

  /** The `|=` branch of `SetNoteTypeRainbowEnabled`: the bits of
      `noteType` become set and every other bit of the mask is kept. */
  function EnableFlags(mask: NT.ChromaNoteType, noteType: NT.ChromaNoteType): (r: NT.ChromaNoteType)
    ensures r & noteType == noteType
    ensures r & !noteType == mask & !noteType
  {
    mask | noteType
  }

  /** The `&= ~` branch: the bits of `noteType` become clear and every other
      bit of the mask is kept. */
  function DisableFlags(mask: NT.ChromaNoteType, noteType: NT.ChromaNoteType): (r: NT.ChromaNoteType)
    ensures r & noteType == 0
    ensures r & !noteType == mask & !noteType
  {
    mask & !noteType
  }

  /** Enabling or disabling the same lanes twice is the same as once. */
  lemma FlagUpdatesIdempotent(mask: NT.ChromaNoteType, noteType: NT.ChromaNoteType)
    ensures EnableFlags(EnableFlags(mask, noteType), noteType) == EnableFlags(mask, noteType)
    ensures DisableFlags(DisableFlags(mask, noteType), noteType) == DisableFlags(mask, noteType)
  {
  }

  /** For a single bit: after enabling `noteType` it is set exactly when it
      was set before or `noteType` sets it. */
  lemma EnableFlagsBit(mask: NT.ChromaNoteType, noteType: NT.ChromaNoteType, bit: NT.ChromaNoteType)
    requires NT.IsSingleBit(bit)
    ensures ((mask | noteType) & bit == bit) == (mask & bit == bit || noteType & bit == bit)
  {
  }

  /** For a single bit: after disabling `noteType` it is set exactly when it
      was set before and `noteType` does not set it. */
  lemma DisableFlagsBit(mask: NT.ChromaNoteType, noteType: NT.ChromaNoteType, bit: NT.ChromaNoteType)
    requires NT.IsSingleBit(bit)
    ensures ((mask & !noteType) & bit == bit) == (mask & bit == bit && noteType & bit != bit)
  {
  }

  /** Enabling `noteType` lists the lanes it names and keeps the listing of
      every other lane. */
  lemma EnableFlagsLanes(mask: NT.ChromaNoteType, noteType: NT.ChromaNoteType)
    ensures forall i :: 0 <= i < 7 ==>
              (LaneOrder[i] in ParseAffectedNotes(EnableFlags(mask, noteType))
               <==> NT.HasFlag(noteType, NT.Members[i]) || LaneOrder[i] in ParseAffectedNotes(mask))
  {
    NT.MembersAreDisjointBits();
    forall i | 0 <= i < 7
      ensures NT.HasFlag(EnableFlags(mask, noteType), NT.Members[i])
              == (NT.HasFlag(mask, NT.Members[i]) || NT.HasFlag(noteType, NT.Members[i]))
    {
      EnableFlagsBit(mask, noteType, NT.Members[i]);
    }
  }

  /** Disabling `noteType` drops the lanes it names and keeps the listing of
      every other lane. */
  lemma DisableFlagsLanes(mask: NT.ChromaNoteType, noteType: NT.ChromaNoteType)
    ensures forall i :: 0 <= i < 7 ==>
              (LaneOrder[i] in ParseAffectedNotes(DisableFlags(mask, noteType))
               <==> !NT.HasFlag(noteType, NT.Members[i]) && LaneOrder[i] in ParseAffectedNotes(mask))
  {
    NT.MembersAreDisjointBits();
    forall i | 0 <= i < 7
      ensures NT.HasFlag(DisableFlags(mask, noteType), NT.Members[i])
              == (NT.HasFlag(mask, NT.Members[i]) && !NT.HasFlag(noteType, NT.Members[i]))
    {
      DisableFlagsBit(mask, noteType, NT.Members[i]);
    }
  }

  /** The re-listing of `SetNoteTypeRainbowEnabled`: after setting or
      clearing the bits of `noteType`, a lane it names is listed exactly when
      the update enables, and every other lane keeps its listing. */
  lemma RelistLanes(mask: NT.ChromaNoteType, noteType: NT.ChromaNoteType, enabled: bool,
                    before: seq<NoteColorType>, after: seq<NoteColorType>)
    requires before == ParseAffectedNotes(mask)
    requires after == ParseAffectedNotes(if enabled then EnableFlags(mask, noteType) else DisableFlags(mask, noteType))
    ensures forall i :: 0 <= i < 7 ==>
              (LaneOrder[i] in after <==>
                 if NT.HasFlag(noteType, NT.Members[i]) then enabled else LaneOrder[i] in before)
  {
    if enabled {
      EnableFlagsLanes(mask, noteType);
    } else {
      DisableFlagsLanes(mask, noteType);
    }
  }
}
