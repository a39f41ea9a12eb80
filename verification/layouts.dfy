/** Binary layouts of the descriptor records the harness walks: the size of
    a C struct is its fields laid out in order, each at the next multiple of
    its alignment, rounded up to the struct's own alignment. */
module Layouts {
  import opened Platform

  const GuidSize: nat := 16
  const GuidAlign: Alignment := 4
  const FlagsSize: nat := 4

  /** The alignments that occur in these records: 4 for GUID and uint32_t,
      the pointer width for pointers. */
  type Alignment = a: int | a == 4 || a == 8 witness 4

  /** The first offset at or after `offset` that is a multiple of `align`. */
  function AlignUp(offset: nat, align: Alignment): (r: nat)
    ensures offset <= r < offset + align
    ensures r % align == 0
  {
    if align == 4 then (offset + 3) / 4 * 4 else (offset + 7) / 8 * 8
  }

  /** `struct { GUID id; const wchar_t* name; }`, the record of the entity
      validation test. */
  function PairRecordSize(width: PointerWidth): (size: nat)
    ensures size % width == 0
    ensures size == GuidSize + width
  {
    var nameAt := AlignUp(GuidSize, width);
    AlignUp(nameAt + width, width)
  }

  /** `struct { GUID id; const wchar_t* name; uint32_t flags; void* reserved1..6; }`,
      the record of the entity creation test. */
  function ExtendedRecordSize(width: PointerWidth): (size: nat)
    ensures size % width == 0
    ensures size >= GuidSize + width + FlagsSize + 6 * width
    ensures size == if width == 8 then 80 else 48
  {
    var nameAt := AlignUp(GuidSize, width);
    var flagsAt := AlignUp(nameAt + width, GuidAlign);
    var reservedAt := AlignUp(flagsAt + FlagsSize, width);
    AlignUp(reservedAt + 6 * width, width)
  }
}
