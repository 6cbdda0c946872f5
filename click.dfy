/**
 * The mouse hook `_click_handler`: a chain of gates that decides whether
 * a pointer event is a deliberate click that should save the snapshot.
 * The gate chain is the pure function Decide; HandleClick performs the
 * save and the copy of the returned path for an accepted click.
 */
module Click {
  import opened Types
  import opened Allowlist
  import opened Snapshot
  import Poller

  /** `CLICK_SUPPRESS_MS`: clicks this soon after a snip are taken as synthetic. */
  const ClickSuppressMs: int := 200

  datatype ButtonKind = Left | Right | Middle | X | X2
  datatype EventType = Up | Down | Double

  /** What the mouse hook delivers: a button event, or any other kind of event. */
  datatype MouseEvent =
    | ButtonEvent(eventType: EventType, button: ButtonKind)
    | MoveEvent
    | WheelEvent

  /**
   * What the handler observes when it runs: the owners of the foreground
   * window and of the window under the pointer, the time in
   * milliseconds, the live clipboard sequence number and whether CF_DIB
   * is still on the clipboard.
   */
  datatype ClickObservation = ClickObservation(
    foreground: WindowOwner, underPointer: WindowOwner,
    nowMs: int, liveSeq: int, dibAvailable: bool)

  datatype RejectReason = NotLeftDown | OutOfScope | Suppressed | Stale

  /** The outcome: silently ignored for a reason, or save this payload. */
  datatype Decision = Reject(reason: RejectReason) | Accept(payload: Bytes)

  /** The event filter: a ButtonEvent whose type is "down" and button LEFT. */
  predicate IsLeftDown(ev: MouseEvent) {
    ev.ButtonEvent? && ev.eventType == Down && ev.button == Left
  }

  /** The scope gate: the foreground window OR the window under the pointer is VS Code. */
  predicate InScope(o: ClickObservation) {
    WindowIsVsCode(o.foreground) || WindowIsVsCode(o.underPointer)
  }

  /** The suppression gate (inclusive bound): too soon after the snip. */
  predicate WithinSuppression(o: ClickObservation, snap: Snapshot) {
    o.nowMs - snap.tsMs <= ClickSuppressMs
  }

  /** The freshness gate: the snapshot is still the clipboard's live content. */
  predicate IsFresh(o: ClickObservation, snap: Snapshot) {
    o.liveSeq == snap.seqNo && o.dibAvailable
  }

  /**
   * The gate chain of `_click_handler`, each gate short-circuiting the
   * ones after it: a click is accepted exactly when all four gates pass,
   * the payload accepted is the stored snapshot's, and a rejection names
   * the first gate that failed.
   */
  function Decide(ev: MouseEvent, o: ClickObservation, snap: Snapshot): (d: Decision)
    ensures d.Accept? <==>
            IsLeftDown(ev) && InScope(o) && !WithinSuppression(o, snap) && IsFresh(o, snap)
    ensures d.Accept? ==> d.payload == snap.bytes
    ensures d == Reject(NotLeftDown) <==> !IsLeftDown(ev)
    ensures d == Reject(OutOfScope) <==> IsLeftDown(ev) && !InScope(o)
    ensures d == Reject(Suppressed) <==> IsLeftDown(ev) && InScope(o) && WithinSuppression(o, snap)
  {
    if !IsLeftDown(ev) then Reject(NotLeftDown)
    else if !InScope(o) then Reject(OutOfScope)
    else if WithinSuppression(o, snap) then Reject(Suppressed)
    else if !IsFresh(o, snap) then Reject(Stale)
    else Accept(snap.bytes)
  }

  /** Anything but a left-button press is ignored, whatever else holds. */
  lemma OnlyLeftDownIsConsidered(ev: MouseEvent, o: ClickObservation, snap: Snapshot)
    requires !ev.ButtonEvent? || ev.eventType != Down || ev.button != Left
    ensures Decide(ev, o, snap) == Reject(NotLeftDown)
  {
  }

  /**
   * A click where neither the foreground window nor the window under the
   * pointer is VS Code is never accepted, whatever the clipboard holds;
   * a null handle or a failed process lookup counts as not VS Code.
   */
  lemma OutOfScopeNeverAccepted(ev: MouseEvent, o: ClickObservation, snap: Snapshot)
    requires !InScope(o)
    ensures !Decide(ev, o, snap).Accept?
  {
  }

  /**
   * A VS Code foreground window alone brings a click into scope: with the
   * other gates passing it is accepted, whatever lies under the pointer.
   */
  lemma ForegroundAloneAccepts(ev: MouseEvent, o: ClickObservation, snap: Snapshot)
    requires IsLeftDown(ev) && WindowIsVsCode(o.foreground)
    requires !WithinSuppression(o, snap) && IsFresh(o, snap)
    ensures Decide(ev, o, snap) == Accept(snap.bytes)
  {
  }

  /**
   * A VS Code window under the pointer alone brings a click into scope:
   * with the other gates passing it is accepted although the foreground
   * window is not VS Code.
   */
  lemma PointerAloneAccepts(ev: MouseEvent, o: ClickObservation, snap: Snapshot)
    requires IsLeftDown(ev) && WindowIsVsCode(o.underPointer) && !WindowIsVsCode(o.foreground)
    requires !WithinSuppression(o, snap) && IsFresh(o, snap)
    ensures Decide(ev, o, snap) == Accept(snap.bytes)
  {
  }

  /** Up to and including 200 ms after the snip, every click is rejected. */
  lemma SuppressionInclusive(ev: MouseEvent, o: ClickObservation, snap: Snapshot)
    requires o.nowMs - snap.tsMs <= 200
    ensures !Decide(ev, o, snap).Accept?
  {
  }

  /** From 201 ms on, a click that passes the other gates saves the snapshot. */
  lemma PastSuppressionAccepted(ev: MouseEvent, o: ClickObservation, snap: Snapshot)
    requires IsLeftDown(ev) && InScope(o) && IsFresh(o, snap)
    requires o.nowMs - snap.tsMs > 200
    ensures Decide(ev, o, snap) == Accept(snap.bytes)
  {
  }

  /**
   * A click is rejected once the clipboard's live number differs from the
   * stored one or CF_DIB is gone, even though the stored payload is kept.
   */
  lemma StaleNeverAccepted(ev: MouseEvent, o: ClickObservation, snap: Snapshot)
    requires o.liveSeq != snap.seqNo || !o.dibAvailable
    ensures !Decide(ev, o, snap).Accept?
  {
  }

  /**
   * With clipboard numbers that never go backwards, a click that arrives
   * after a clipboard change the poller has not yet seen is rejected:
   * the payload in the store can no longer be the live content.
   */
  lemma UnseenChangeRejected(seqInit: int, obs: seq<Poller.PollObservation>,
                             ev: MouseEvent, o: ClickObservation)
    requires 0 <= seqInit
    requires Poller.NonDecreasing(seqInit, obs)
    requires o.liveSeq > Poller.Run(Poller.Start(seqInit), obs).seqPrev
    ensures !Decide(ev, o, Poller.Run(Poller.Start(seqInit), obs).snap).Accept?
  {
    Poller.RunSnapshotNotAhead(seqInit, obs);
  }

  /**
   * What an accepted click saves, over any run of the poller from
   * start-up: a non-empty payload that one poll iteration read under the
   * number the clipboard still shows. The one exception is the initial
   * snapshot: before any publication, a live number of 0 with a bitmap
   * present lets the empty initial payload through.
   */
  lemma {:induction false} AcceptedPayloadIsLive(seqInit: int, obs: seq<Poller.PollObservation>,
                                                 ev: MouseEvent, o: ClickObservation)
    requires Decide(ev, o, Poller.Run(Poller.Start(seqInit), obs).snap).Accept?
    ensures var p := Decide(ev, o, Poller.Run(Poller.Start(seqInit), obs).snap).payload;
            (p == [] && o.liveSeq == 0) ||
            (|p| > 0 &&
             (exists i :: 0 <= i < |obs| &&
                obs[i].dibAvailable && obs[i].read == Some(p) && obs[i].seqNow == o.liveSeq))
  {
    Poller.RunProvenance(seqInit, obs);
  }

  /**
   * A snip followed by clicks inside VS Code: the poller publishes the
   * bitmap at t = 0; the synthetic click at t = 50 ms is suppressed; a
   * click at t = 500 ms with the clipboard unchanged saves the bitmap;
   * after a plain-text copy (new number, no bitmap) a click is stale.
   */
  lemma SnipScenario(seq0: int, seq1: int, seq2: int, img: Bytes, vsCode: WindowOwner, other: WindowOwner)
    requires seq1 != seq0 && seq2 != seq1 && |img| > 0
    requires WindowIsVsCode(vsCode)
    ensures var afterSnip := Poller.PollNext(Poller.Start(seq0), Poller.PollObservation(seq1, true, Some(img), 0));
            var click := ButtonEvent(Down, Left);
            Decide(click, ClickObservation(vsCode, other, 50, seq1, true), afterSnip.snap) == Reject(Suppressed) &&
            Decide(click, ClickObservation(vsCode, other, 500, seq1, true), afterSnip.snap) == Accept(img) &&
            var afterText := Poller.PollNext(afterSnip, Poller.PollObservation(seq2, false, None, 5500));
            afterText.snap == afterSnip.snap &&
            Decide(click, ClickObservation(vsCode, other, 5600, seq2, false), afterText.snap) == Reject(Stale)
  {
  }

  /** A click in a window that is not VS Code saves nothing, even with a fresh bitmap. */
  lemma NonVsCodeScenario(seq0: int, seq1: int, img: Bytes, notVsCode: WindowOwner)
    requires seq1 != seq0 && |img| > 0
    requires !WindowIsVsCode(notVsCode)
    ensures var afterSnip := Poller.PollNext(Poller.Start(seq0), Poller.PollObservation(seq1, true, Some(img), 0));
            Decide(ButtonEvent(Down, Left), ClickObservation(notVsCode, notVsCode, 500, seq1, true), afterSnip.snap)
              == Reject(OutOfScope)
  {
  }

  /** The external effects of the handler, in the order they happened. */
  class EffectLog {
    /** Payloads handed to `_save_image`. */
    var saved: seq<Bytes>
    /** Paths placed on the clipboard as text by `pyperclip.copy`. */
    var copied: seq<string>

    constructor ()
      ensures saved == [] && copied == []
    {
      saved := [];
      copied := [];
    }
  }

  /**
   * `_click_handler`: decide on the stored snapshot; on acceptance save
   * exactly the stored payload once and, when the save returns a path,
   * copy that path. `saveResult` is what `_save_image` returns (None when
   * it raises). A rejected click saves and copies nothing, and the store
   * is only read.
   */
  method HandleClick(store: SnapshotStore, log: EffectLog, ev: MouseEvent, o: ClickObservation,
                     saveResult: Option<string>)
    returns (d: Decision)
    modifies log
    ensures d == Decide(ev, o, old(store.Current()))
    ensures d.Accept? ==> log.saved == old(log.saved) + [old(store.lastSnipBytes)]
    ensures d.Accept? && saveResult.Some? ==> log.copied == old(log.copied) + [saveResult.value]
    ensures d.Accept? && saveResult.None? ==> log.copied == old(log.copied)
    ensures d.Reject? ==> log.saved == old(log.saved) && log.copied == old(log.copied)
  {
    if !IsLeftDown(ev) {
      return Reject(NotLeftDown);
    }
    if !(WindowIsVsCode(o.foreground) || WindowIsVsCode(o.underPointer)) {
      return Reject(OutOfScope);
    }
    if o.nowMs - store.lastSnipTs <= ClickSuppressMs {
      return Reject(Suppressed);
    }
    if o.liveSeq != store.lastSnipSeq || !o.dibAvailable {
      return Reject(Stale);
    }
    log.saved := log.saved + [store.lastSnipBytes];
    if saveResult.Some? {
      log.copied := log.copied + [saveResult.value];
    }
    d := Accept(store.lastSnipBytes);
  }
}
