/**
 * The clipboard poller `_clip_monitor`: a loop that watches the clipboard
 * sequence number and publishes the CF_DIB payload whenever the number
 * changes and a non-empty bitmap can be read. One call of ClipMonitor.Step
 * is one iteration of its `while True` loop; what the operating system
 * reports in that iteration is a PollObservation.
 */
module Poller {
  import opened Types
  import opened Snapshot

  /**
   * What one iteration observes: the sequence number, whether CF_DIB is
   * available, what the read returned (None when it raised; only
   * consulted when CF_DIB is available) and the time in milliseconds.
   */
  datatype PollObservation = PollObservation(seqNow: int, dibAvailable: bool, read: Option<Bytes>, nowMs: int)

  /** The poller's state: its loop-local `seq_prev` and the published snapshot. */
  datatype PollState = PollState(seqPrev: int, snap: Snapshot)

  /** The state when the loop is entered: `seq_prev = _seq()`, globals as at import. */
  function Start(seqInit: int): (s: PollState)
    ensures s.seqPrev == seqInit && s.snap == Initial()
  {
    PollState(seqInit, Initial())
  }

  /** The iteration publishes: changed number, bitmap available, non-empty read. */
  predicate Publishes(s: PollState, o: PollObservation) {
    o.seqNow != s.seqPrev && o.dibAvailable && o.read.Some? && |o.read.value| > 0
  }

  /**
   * The specification of one iteration: `seq_prev` ends as the number just
   * read, and the snapshot is either the old triple or the triple of this
   * iteration, never a mix.
   */
  function PollNext(s: PollState, o: PollObservation): (r: PollState)
    ensures r.seqPrev == o.seqNow
    ensures r.snap == s.snap || (o.read.Some? && r.snap == Snapshot(o.read.value, o.seqNow, o.nowMs))
  {
    if o.seqNow == s.seqPrev then s
    else if Publishes(s, o) then PollState(o.seqNow, Snapshot(o.read.value, o.seqNow, o.nowMs))
    else PollState(o.seqNow, s.snap)
  }

  /** The state after a run of iterations, the last observation applied last. */
  function Run(s: PollState, obs: seq<PollObservation>): (r: PollState)
    ensures obs == [] ==> r == s
    ensures obs != [] ==> r.seqPrev == obs[|obs| - 1].seqNow
    decreases |obs|
  {
    if obs == [] then s else PollNext(Run(s, obs[..|obs| - 1]), obs[|obs| - 1])
  }

  /** An unchanged sequence number leaves `seq_prev` and the snapshot untouched. */
  lemma UnchangedSequenceIsNoOp(s: PollState, o: PollObservation)
    requires o.seqNow == s.seqPrev
    ensures PollNext(s, o) == s
  {
  }

  /** A changed sequence number is always remembered, whatever the clipboard holds. */
  lemma ChangedSequenceAdvances(s: PollState, o: PollObservation)
    requires o.seqNow != s.seqPrev
    ensures PollNext(s, o).seqPrev == o.seqNow
  {
  }

  /**
   * The snapshot changes all at once or not at all: afterwards it is
   * either the old triple or exactly (data read, current number, now),
   * and the new triple is taken exactly when the iteration publishes.
   */
  lemma SnapshotUpdatedTogether(s: PollState, o: PollObservation)
    ensures PollNext(s, o).snap == s.snap || PollNext(s, o).snap == Snapshot(o.read.value, o.seqNow, o.nowMs)
    ensures Publishes(s, o) ==> PollNext(s, o).snap == Snapshot(o.read.value, o.seqNow, o.nowMs)
    ensures !Publishes(s, o) ==> PollNext(s, o).snap == s.snap
  {
  }

  /** A missing bitmap, a failed read or an empty read publishes nothing. */
  lemma NoImageNoPublish(s: PollState, o: PollObservation)
    requires !o.dibAvailable || o.read == None || o.read == Some([])
    ensures PollNext(s, o).snap == s.snap
  {
  }

  /** Every iteration keeps the snapshot well formed. */
  lemma PollNextWellFormed(s: PollState, o: PollObservation)
    requires WellFormed(s.snap)
    ensures WellFormed(PollNext(s, o).snap)
  {
  }

  /** The number iteration `i` of a run compares against: the one read just before it. */
  function SeqBefore(seqInit: int, obs: seq<PollObservation>, i: int): int
    requires 0 <= i < |obs|
  {
    if i == 0 then seqInit else obs[i - 1].seqNow
  }

  /**
   * Iteration `i` of a run is where `snap` comes from: it saw a number
   * different from the one before it and a CF_DIB bitmap, read exactly the
   * snapshot's bytes (non-empty), and the snapshot's number and time are
   * that iteration's.
   */
  predicate PublishedAt(seqInit: int, obs: seq<PollObservation>, i: int, snap: Snapshot)
    requires 0 <= i < |obs|
  {
    obs[i].seqNow != SeqBefore(seqInit, obs, i) &&
    obs[i].dibAvailable && obs[i].read == Some(snap.bytes) && |snap.bytes| > 0 &&
    snap.seqNo == obs[i].seqNow && snap.tsMs == obs[i].nowMs
  }

  /**
   * Provenance of the published snapshot over any run from start-up: it
   * is the initial one, or a single iteration published it, so that a
   * payload is never paired with another iteration's number or time.
   */
  lemma {:induction false} RunProvenance(seqInit: int, obs: seq<PollObservation>)
    ensures var snap := Run(Start(seqInit), obs).snap;
            snap == Initial() || exists i :: 0 <= i < |obs| && PublishedAt(seqInit, obs, i, snap)
    decreases |obs|
  {
    if obs != [] {
      var prefix := obs[..|obs| - 1];
      var last := |obs| - 1;
      RunProvenance(seqInit, prefix);
      var before := Run(Start(seqInit), prefix);
      var snap := Run(Start(seqInit), obs).snap;
      if Publishes(before, obs[last]) {
        assert before.seqPrev == SeqBefore(seqInit, obs, last);
        assert PublishedAt(seqInit, obs, last, snap);
      } else if snap != Initial() {
        assert snap == before.snap;
        var i :| 0 <= i < |prefix| && PublishedAt(seqInit, prefix, i, snap);
        assert SeqBefore(seqInit, obs, i) == SeqBefore(seqInit, prefix, i);
        assert PublishedAt(seqInit, obs, i, snap);
      }
    }
  }

  /** Over any run from start-up the snapshot stays well formed. */
  lemma {:induction false} RunWellFormed(seqInit: int, obs: seq<PollObservation>)
    ensures WellFormed(Run(Start(seqInit), obs).snap)
    decreases |obs|
  {
    if obs != [] {
      RunWellFormed(seqInit, obs[..|obs| - 1]);
      PollNextWellFormed(Run(Start(seqInit), obs[..|obs| - 1]), obs[|obs| - 1]);
    }
  }

  /**
   * With clipboard numbers that never go backwards, the published number
   * never runs ahead of `seq_prev`.
   */
  predicate NonDecreasing(seqInit: int, obs: seq<PollObservation>) {
    (forall i :: 0 <= i < |obs| ==> seqInit <= obs[i].seqNow) &&
    (forall i, j :: 0 <= i < j < |obs| ==> obs[i].seqNow <= obs[j].seqNow)
  }

  lemma {:induction false} RunSnapshotNotAhead(seqInit: int, obs: seq<PollObservation>)
    requires 0 <= seqInit
    requires NonDecreasing(seqInit, obs)
    ensures var s := Run(Start(seqInit), obs); s.snap.seqNo <= s.seqPrev
    decreases |obs|
  {
    if obs != [] {
      var prefix := obs[..|obs| - 1];
      assert NonDecreasing(seqInit, prefix) by {
        forall i | 0 <= i < |prefix| ensures prefix[i] == obs[i] { }
      }
      RunSnapshotNotAhead(seqInit, prefix);
      var before := Run(Start(seqInit), prefix);
      assert prefix != [] ==> before.seqPrev == obs[|obs| - 2].seqNow;
    }
  }

  /**
   * One iteration of the `while True` loop of `_clip_monitor`, on the
   * monitor's `seq_prev` and the shared snapshot store.
   */
  class ClipMonitor {
    const store: SnapshotStore
    var seqPrev: int

    function State(): PollState
      reads this, store
    {
      PollState(seqPrev, store.Current())
    }

    /** Entering the loop: `seq_prev = _seq()`; the store is not touched. */
    constructor (store: SnapshotStore, seqInit: int)
      ensures this.store == store && seqPrev == seqInit
    {
      this.store := store;
      seqPrev := seqInit;
    }

    method Step(o: PollObservation)
      modifies this, store
      ensures State() == PollNext(old(State()), o)
    {
      var seqNow := o.seqNow;
      if seqNow != seqPrev {
        seqPrev := seqNow;
        if o.dibAvailable {
          var dib := o.read;
          if dib.Some? && |dib.value| > 0 {
            store.lastSnipBytes := dib.value;
            store.lastSnipSeq := seqNow;
            store.lastSnipTs := o.nowMs;
          }
        }
      }
    }
  }
}
