/**
 * The clipboard snapshot: the last CF_DIB payload the poller saw, the
 * clipboard sequence number it was seen under, and when (in milliseconds).
 * In the program these are three module globals; here they are the fields
 * of one SnapshotStore object that the poller writes and the click
 * handler reads.
 */
module Snapshot {
  import opened Types

  /** The triple `(last_snip_bytes, last_snip_seq, last_snip_ts)` as one value. */
  datatype Snapshot = Snapshot(bytes: Bytes, seqNo: int, tsMs: int)

  /** The globals as the program starts: no payload, sequence 0, time 0. */
  function Initial(): (s: Snapshot)
    ensures s.bytes == [] && s.seqNo == 0 && s.tsMs == 0
  {
    Snapshot([], 0, 0)
  }

  /**
   * A snapshot is well formed when it is the initial one or holds a
   * non-empty payload: the poller never publishes empty data.
   */
  predicate WellFormed(s: Snapshot) {
    s == Initial() || |s.bytes| > 0
  }

  /** The module globals `last_snip_ts`, `last_snip_seq` and `last_snip_bytes`. */
  class SnapshotStore {
    var lastSnipTs: int
    var lastSnipSeq: int
    var lastSnipBytes: Bytes

    /** The three globals read together. */
    function Current(): Snapshot
      reads this
    {
      Snapshot(lastSnipBytes, lastSnipSeq, lastSnipTs)
    }

    /** Module import: the globals take their initial values. */
    constructor ()
      ensures Current() == Initial()
    {
      lastSnipTs := 0;
      lastSnipSeq := 0;
      lastSnipBytes := [];
    }
  }
}
