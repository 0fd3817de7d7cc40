/** What a failed append leaves at the end of a WAL segment, and what opening makes of it (wal.rs). */
module Wal {
  /**
    `recover_last_segment_tail` on the first incomplete frame, whose prefix says `length` and is
    followed by `follows` bytes: by lengths alone, it is cut off together with all that follows.
   */
  predicate CutsOff(length: nat, follows: nat) {
    follows == 0 || length <= follows < length + 4
  }

  /**
    What follows the last whole record of the WAL if nothing was written after a failure: a torn
    frame that `CutsOff`, or a partial payload, which makes open fail.
   */
  datatype Tail = Clean | TornFrame | TornPayload

  /** What a failed `Store::append` leaves behind. */
  datatype Fault = NothingWritten | FrameTorn | PayloadTorn | Landed
}
