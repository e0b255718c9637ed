/** Stream positions (store/offset.go).  Sums are taken in unbounded naturals: the
    model assumes no stream ever holds 2^64 bytes. */
module Offsets {
  const UINT64_LIMIT: nat := 0x1_0000_0000_0000_0000

  datatype Offset = Offset(readSeq: nat, byteOffset: nat) {
    function Add(bytes: nat): Offset {
      Offset(readSeq, byteOffset + bytes)
    }

    predicate LessThan(other: Offset) {
      Compare(this, other) < 0
    }

    predicate LessThanOrEqual(other: Offset) {
      Compare(this, other) <= 0
    }

    predicate IsNow() {
      this == NOW_OFFSET
    }
  }

  const ZERO_OFFSET := Offset(0, 0)

  /** The sentinel for "the current tail"; never the offset of stored data. */
  const NOW_OFFSET := Offset(UINT64_LIMIT - 1, UINT64_LIMIT - 1)

  function Compare(a: Offset, b: Offset): int {
    if a.readSeq < b.readSeq then -1
    else if a.readSeq > b.readSeq then 1
    else if a.byteOffset < b.byteOffset then -1
    else if a.byteOffset > b.byteOffset then 1
    else 0
  }
}
