/** The two feeds' update messages and the events they map to
    (preconfs-client/src/stream.rs, preconfs-proto/proto/preconfs.proto). */
module Events {
  import opened Wrappers

  datatype Matched<+T> = Matched(filters: seq<string>, transaction: T)

  /** What a subscriber is told; a transaction is whatever its feed's message is. */
  datatype Event<+T> =
    | SlotStart(slot: u64)
    | Transaction(matched: Matched<T>)
    | SlotEnd(slot: u64)
    | Clip(transactions: u64)
    | Reconnected(attempts: nat)

  /** The trait the two feeds implement, as a record of its two members: does
      the feed mark slot boundaries, and which event, if any, is an update. */
  datatype FeedUpdate<!U, +T> = FeedUpdate(slotFraming: bool, intoEvent: U -> Option<Event<T>>)

  // ----- Harmonic -----

  datatype HarmonicTransaction = HarmonicTransaction(
    transaction: seq<byte>, slot: u64, result: Option<int>, region: string, seqNo: u64)

  datatype HarmonicPayload =
    | HTransaction(transaction: HarmonicTransaction)
    | HPing
    | HSlotStart(slot: u64, region: string)
    | HSlotEnd(slot: u64, region: string)
    | HClip(transactions: u64)

  datatype HarmonicUpdate = HarmonicUpdate(filters: seq<string>, payload: Option<HarmonicPayload>)

  function HarmonicEvent(update: HarmonicUpdate): Option<Event<HarmonicTransaction>> {
    match update.payload
    case None => None
    case Some(HTransaction(transaction)) => Some(Transaction(Matched(update.filters, transaction)))
    case Some(HSlotStart(slot, _)) => Some(SlotStart(slot))
    case Some(HSlotEnd(slot, _)) => Some(SlotEnd(slot))
    case Some(HClip(transactions)) => Some(Clip(transactions))
    case Some(HPing) => None
  }

  const HARMONIC: FeedUpdate<HarmonicUpdate, HarmonicTransaction> := FeedUpdate(true, HarmonicEvent)

  // ----- BAM -----

  datatype BamTransaction = BamTransaction(
    transaction: seq<byte>, slot: u64, isRevertOnError: bool, node: string,
    sequence: u64, bundlePosition: u32, result: Option<int>)

  datatype BamPayload =
    | BTransaction(transaction: BamTransaction)
    | BPing
    | BClip(transactions: u64)

  datatype BamUpdate = BamUpdate(filters: seq<string>, payload: Option<BamPayload>)

  function BamEvent(update: BamUpdate): Option<Event<BamTransaction>> {
    match update.payload
    case None => None
    case Some(BTransaction(transaction)) => Some(Transaction(Matched(update.filters, transaction)))
    case Some(BClip(transactions)) => Some(Clip(transactions))
    case Some(BPing) => None
  }

  const BAM: FeedUpdate<BamUpdate, BamTransaction> := FeedUpdate(false, BamEvent)

  // ----- what a connection's updates make visible -----

  /** The events of a run of updates, in order, pings dropped. */
  function EventsOf<U, T>(feed: FeedUpdate<U, T>, updates: seq<U>): (events: seq<Event<T>>)
    ensures |events| <= |updates|
  {
    if updates == [] then [] else
    var front := EventsOf(feed, updates[..|updates| - 1]);
    match feed.intoEvent(updates[|updates| - 1])
    case None => front
    case Some(event) => front + [event]
  }

  predicate IsSlotStart<U, T>(feed: FeedUpdate<U, T>, update: U) {
    var event := feed.intoEvent(update);
    event.Some? && event.value.SlotStart?
  }

  /** The index of the first SlotStart update, or the length without one. */
  function FirstStart<U, T>(feed: FeedUpdate<U, T>, updates: seq<U>): (k: nat)
    ensures k <= |updates|
    ensures k < |updates| ==> IsSlotStart(feed, updates[k])
    ensures forall i :: 0 <= i < k ==> !IsSlotStart(feed, updates[i])
  {
    if updates == [] || IsSlotStart(feed, updates[0]) then 0
    else 1 + FirstStart(feed, updates[1..])
  }

  /** What one connection delivers: on a framed feed everything from the first
      SlotStart on, otherwise everything. */
  function Visible<U, T>(feed: FeedUpdate<U, T>, updates: seq<U>): seq<Event<T>> {
    EventsOf(feed, if feed.slotFraming then updates[FirstStart(feed, updates)..] else updates)
  }

  lemma {:induction false} EventsOfConcat<U, T>(feed: FeedUpdate<U, T>, a: seq<U>, b: seq<U>)
    ensures EventsOf(feed, a + b) == EventsOf(feed, a) + EventsOf(feed, b)
  {
    if b == [] {
      assert a + b == a;
    } else {
      var front := b[..|b| - 1];
      EventsOfConcat(feed, a, front);
      assert (a + b)[..|a + b| - 1] == a + front;
    }
  }

  /** One more update adds its event, unless the connection still waits for its
      first SlotStart. */
  lemma {:induction false} VisibleSnoc<U, T>(feed: FeedUpdate<U, T>, updates: seq<U>, update: U)
    ensures var seen := Visible(feed, updates);
            var event := feed.intoEvent(update);
            Visible(feed, updates + [update]) ==
              if event.None? || (feed.slotFraming && seen == [] && !event.value.SlotStart?)
              then seen else seen + [event.value]
  {
    EventsOfConcat(feed, updates, [update]);
    if feed.slotFraming {
      var k := FirstStart(feed, updates);
      FirstStartSnoc(feed, updates, update);
      if k < |updates| {
        assert (updates + [update])[k..] == updates[k..] + [update];
        EventsOfConcat(feed, updates[k..], [update]);
        StartIsVisible(feed, updates);
      } else {
        assert updates[k..] == [];
        if IsSlotStart(feed, update) {
          assert (updates + [update])[k..] == [update];
        } else {
          assert (updates + [update])[k + 1..] == [];
        }
      }
    }
  }

  lemma {:induction false} FirstStartSnoc<U, T>(feed: FeedUpdate<U, T>, updates: seq<U>, update: U)
    ensures var k := FirstStart(feed, updates);
            FirstStart(feed, updates + [update]) ==
              if k < |updates| || IsSlotStart(feed, update) then k else k + 1
  {
    if updates == [] {
      assert FirstStart(feed, [update][1..]) == 0;
    } else {
      assert (updates + [update])[1..] == updates[1..] + [update];
      FirstStartSnoc(feed, updates[1..], update);
    }
  }

  /** A framed connection that saw a SlotStart delivers it first. */
  lemma {:induction false} StartIsVisible<U, T>(feed: FeedUpdate<U, T>, updates: seq<U>)
    requires feed.slotFraming && FirstStart(feed, updates) < |updates|
    ensures Visible(feed, updates) != []
    ensures Visible(feed, updates)[0].SlotStart?
  {
    var k := FirstStart(feed, updates);
    assert updates[k..] == [updates[k]] + updates[k + 1..];
    EventsOfConcat(feed, [updates[k]], updates[k + 1..]);
    assert EventsOf(feed, [updates[k]][..0]) == [];
  }
}
