/** The `[Flags]` lane enum used in configuration (ChromaNoteType.cs). The
    enum is backed by a 32-bit integer, so a value is any `bv32`; the named
    members are single bits and `All` is their union. */
module NoteTypes {

  type ChromaNoteType = bv32

  const NoteA: ChromaNoteType := 0x01
  const NoteB: ChromaNoteType := 0x02
  const Beat: ChromaNoteType := 0x04
  const SpinLeft: ChromaNoteType := 0x08
  const SpinRight: ChromaNoteType := 0x10
  const Scratch: ChromaNoteType := 0x20
  const Ancillary: ChromaNoteType := 0x40
  const All: ChromaNoteType := NoteA | NoteB | Beat | SpinLeft | SpinRight | Scratch | Ancillary

  /** The seven single-lane members, in declaration order. */
  const Members: seq<ChromaNoteType> := [NoteA, NoteB, Beat, SpinLeft, SpinRight, Scratch, Ancillary]

  /** `Enum.HasFlag`: every bit of `flag` is set in `value`. */
  predicate HasFlag(value: ChromaNoteType, flag: ChromaNoteType) {
    value & flag == flag
  }

  predicate IsSingleBit(x: bv32) {
    x != 0 && x & (x - 1) == 0
  }

  /** The members are seven distinct single bits, 0x01 to 0x40, no two
      sharing a bit, and `All` is exactly their union 0x7F. */
  lemma MembersAreDisjointBits()
    ensures |Members| == 7
    ensures forall i :: 0 <= i < 7 ==> IsSingleBit(Members[i])
    ensures Members == [0x01, 0x02, 0x04, 0x08, 0x10, 0x20, 0x40]
    ensures forall i, j :: 0 <= i < 7 && 0 <= j < 7 && i != j ==> Members[i] & Members[j] == 0
    ensures All == 0x7F
    ensures forall i :: 0 <= i < 7 ==> Members[i] & All == Members[i]
  {
  }

  lemma MembersDisjoint(i: nat, j: nat)
    requires i < 7 && j < 7 && i != j
    ensures Members[i] & Members[j] == 0
  {
    MembersAreDisjointBits();
  }

  /** The member flags that are set in `mask`, in declaration order. */
  function FlagsOf(mask: ChromaNoteType): (flags: seq<bool>)
    ensures |flags| == 7
    ensures forall i :: 0 <= i < 7 ==> (flags[i] <==> HasFlag(mask, Members[i]))
  {
    seq(7, i requires 0 <= i < 7 => HasFlag(mask, Members[i]))
  }

  /** The mask that sets exactly the chosen members. */
  function Compose(flags: seq<bool>): (mask: ChromaNoteType)
    requires |flags| == 7
    ensures mask & !All == 0
  {
    (if flags[0] then NoteA else 0) | (if flags[1] then NoteB else 0) |
    (if flags[2] then Beat else 0) | (if flags[3] then SpinLeft else 0) |
    (if flags[4] then SpinRight else 0) | (if flags[5] then Scratch else 0) |
    (if flags[6] then Ancillary else 0)
  }

  /** Any mask within `All` is the union of the members whose bit it sets. */
  lemma DecomposeMask(mask: ChromaNoteType)
    requires mask & !All == 0
    ensures Compose(FlagsOf(mask)) == mask
  {
  }

  /** ... and that choice of members is the only one: composing a choice and
      reading its flags back gives the same choice. */
  lemma DecompositionIsUnique(flags: seq<bool>)
    requires |flags| == 7
    ensures FlagsOf(Compose(flags)) == flags
  {
  }
}
