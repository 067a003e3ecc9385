/** The host game's lane type and the three mappings onto it (Util.cs):
    display names, lane names typed by a user, and the flags enum. */
module Lanes {
  import opened Outcomes
  import NT = NoteTypes

  /** The host's lane enum, as far as this mod uses it: the seven lanes and
      `Default`. */
  datatype NoteColorType = Default | NoteA | NoteB | Beat | SpinLeft | SpinRight | Scratch | Ancillary

  /** The seven lanes in the order of the flags enum's members. */
  const LaneOrder: seq<NoteColorType> := [NoteA, NoteB, Beat, SpinLeft, SpinRight, Scratch, Ancillary]

  /** Position of a lane in `LaneOrder`; `Default` comes after all of them. */
  function LaneIndex(l: NoteColorType): (i: nat)
    ensures i <= 7
    ensures i < 7 <==> l != Default
  {
    match l
    case NoteA => 0
    case NoteB => 1
    case Beat => 2
    case SpinLeft => 3
    case SpinRight => 4
    case Scratch => 5
    case Ancillary => 6
    case Default => 7
  }

  /** `LaneIndex` and `LaneOrder` are inverse on the seven lanes. */
  lemma LaneOrderIndexed()
    ensures forall i :: 0 <= i < 7 ==> LaneIndex(LaneOrder[i]) == i
  {
  }

  /** `GetName`: the display name of a member or of `All`; any other value,
      including a combination of members, is out of range. */
  function GetName(noteType: NT.ChromaNoteType): (r: Result<string>)
    ensures r.Success? <==> noteType in NT.Members || noteType == NT.All
    ensures r.Failure? ==> r.error == ArgumentOutOfRange(noteType)
  {
    if noteType == NT.NoteA then Success("Note A")
    else if noteType == NT.NoteB then Success("Note B")
    else if noteType == NT.Beat then Success("Beat Bar")
    else if noteType == NT.SpinLeft then Success("Left Spin")
    else if noteType == NT.SpinRight then Success("Right Spin")
    else if noteType == NT.Scratch then Success("Scratch")
    else if noteType == NT.Ancillary then Success("Highlights")
    else if noteType == NT.All then Success("All")
    else Failure(ArgumentOutOfRange(noteType))
  }

  /** No two enum values share a display name. */
  lemma GetNameInjective(a: NT.ChromaNoteType, b: NT.ChromaNoteType)
    requires GetName(a).Success? && GetName(b).Success?
    requires GetName(a).value == GetName(b).value
    ensures a == b
  {
  }

  /** `String.ToLower` on the ASCII letters; other characters are kept. */
  function LowerChar(c: char): (r: char)
    ensures 'A' <= c <= 'Z' ==> r as int == c as int + 32
    ensures !('A' <= c <= 'Z') ==> r == c
    ensures !('A' <= r <= 'Z')
  {
    if 'A' <= c <= 'Z' then (c as int + 32) as char else c
  }

  function ToLower(s: string): (r: string)
    ensures |r| == |s|
    ensures forall i :: 0 <= i < |s| ==> r[i] == LowerChar(s[i])
  {
    seq(|s|, i requires 0 <= i < |s| => LowerChar(s[i]))
  }

  /** Lowering twice is lowering once. */
  lemma ToLowerIdempotent(s: string)
    ensures ToLower(ToLower(s)) == ToLower(s)
  {
  }

  /** `t` is the lower-case form of `s` when it agrees with it character by
      character. */
  lemma ToLowerIs(s: string, t: string)
    requires |s| == |t|
    requires forall i :: 0 <= i < |s| ==> LowerChar(s[i]) == t[i]
    ensures ToLower(s) == t
  {
  }

  /** The lower-case lane names that `GetNoteTypeForString` accepts. */
  const AcceptedNames: set<string> :=
    {"notea", "noteb", "beat", "spinleft", "leftspin", "spinright", "rightspin",
     "scratch", "ancillary", "highlights"}

  /** `GetNoteTypeForString`: a lane name, compared without case, with
      "leftspin", "rightspin" and "highlights" as aliases. */
  function GetNoteTypeForString(noteType: string): (r: Result<NoteColorType>)
    ensures r.Success? <==> ToLower(noteType) in AcceptedNames
    ensures r.Success? ==> r.value != Default
    ensures r.Failure? ==> r.error == NoNoteTypeForString(noteType)
  {
    var key := ToLower(noteType);
    if key == "notea" then Success(NoteA)
    else if key == "noteb" then Success(NoteB)
    else if key == "beat" then Success(Beat)
    else if key == "spinleft" || key == "leftspin" then Success(SpinLeft)
    else if key == "spinright" || key == "rightspin" then Success(SpinRight)
    else if key == "scratch" then Success(Scratch)
    else if key == "ancillary" || key == "highlights" then Success(Ancillary)
    else Failure(NoNoteTypeForString(noteType))
  }

  /** Case does not matter: a name and its lower-case form resolve alike. */
  lemma GetNoteTypeForStringIgnoresCase(s: string)
    ensures GetNoteTypeForString(ToLower(s)).Success? == GetNoteTypeForString(s).Success?
    ensures GetNoteTypeForString(s).Success? ==>
              GetNoteTypeForString(ToLower(s)).value == GetNoteTypeForString(s).value
  {
    ToLowerIdempotent(s);
  }

  /** Worked cases: mixed and lower case agree, the aliases agree, and a
      combined name is refused. */
  lemma GetNoteTypeForStringExamples()
    ensures GetNoteTypeForString("NoteA") == GetNoteTypeForString("notea") == Success(NoteA)
    ensures GetNoteTypeForString("leftspin") == GetNoteTypeForString("SpinLeft") == Success(SpinLeft)
    ensures GetNoteTypeForString("rightspin") == GetNoteTypeForString("spinright") == Success(SpinRight)
    ensures GetNoteTypeForString("Highlights") == GetNoteTypeForString("ancillary") == Success(Ancillary)
    ensures GetNoteTypeForString("all").Failure?
  {
    ToLowerIs("NoteA", "notea");
    ToLowerIs("notea", "notea");
    ToLowerIs("leftspin", "leftspin");
    ToLowerIs("SpinLeft", "spinleft");
    ToLowerIs("rightspin", "rightspin");
    ToLowerIs("spinright", "spinright");
    ToLowerIs("Highlights", "highlights");
    ToLowerIs("ancillary", "ancillary");
    ToLowerIs("all", "all");
  }

  /** `ToNoteColorType`: each member to the lane of the same name, `All` to
      `Default`; anything else is out of range. */
  function ToNoteColorType(noteType: NT.ChromaNoteType): (r: Result<NoteColorType>)
    ensures r.Success? <==> noteType in NT.Members || noteType == NT.All
    ensures r.Success? ==> (r.value == Default <==> noteType == NT.All)
    ensures r.Failure? ==> r.error == ArgumentOutOfRange(noteType)
  {
    if noteType == NT.NoteA then Success(NoteA)
    else if noteType == NT.NoteB then Success(NoteB)
    else if noteType == NT.Beat then Success(Beat)
    else if noteType == NT.SpinLeft then Success(SpinLeft)
    else if noteType == NT.SpinRight then Success(SpinRight)
    else if noteType == NT.Scratch then Success(Scratch)
    else if noteType == NT.Ancillary then Success(Ancillary)
    else if noteType == NT.All then Success(Default)
    else Failure(ArgumentOutOfRange(noteType))
  }

  /** The identifiers of the enum members, as declared. */
  const MemberIdentifiers: seq<string> := ["NoteA", "NoteB", "Beat", "SpinLeft", "SpinRight", "Scratch", "Ancillary"]

  /** The member at position `i` maps to the lane at the same position, and
      typing the member's own identifier names that same lane. */
  lemma MembersMatchLaneNames(i: nat)
    requires i < 7
    ensures ToNoteColorType(NT.Members[i]) == Success(LaneOrder[i])
    ensures GetNoteTypeForString(MemberIdentifiers[i]) == Success(LaneOrder[i])
  {
    ToLowerIs("NoteA", "notea");
    ToLowerIs("NoteB", "noteb");
    ToLowerIs("Beat", "beat");
    ToLowerIs("SpinLeft", "spinleft");
    ToLowerIs("SpinRight", "spinright");
    ToLowerIs("Scratch", "scratch");
    ToLowerIs("Ancillary", "ancillary");
  }
}
