/** What a run hands over, against what the server's messages hold. */
module Contents {
  import opened Wrappers
  import opened Events
  import opened StreamSpec
  import opened Framing

  /** A transaction with the names it matched, or a notice of withheld ones. */
  datatype Content<+T> = Matching(filters: seq<string>, transaction: T) | Withheld(transactions: u64)

  function InUpdate(update: HarmonicUpdate): seq<Content<HarmonicTransaction>> {
    match update.payload
    case Some(HTransaction(transaction)) => [Matching(update.filters, transaction)]
    case Some(HClip(transactions)) => [Withheld(transactions)]
    case _ => []
  }

  function InBamUpdate(update: BamUpdate): seq<Content<BamTransaction>> {
    match update.payload
    case Some(BTransaction(transaction)) => [Matching(update.filters, transaction)]
    case Some(BClip(transactions)) => [Withheld(transactions)]
    case _ => []
  }

  function Held<U, T>(inUpdate: U -> seq<Content<T>>, updates: seq<U>): seq<Content<T>> {
    if updates == [] then [] else
    Held(inUpdate, updates[..|updates| - 1]) + inUpdate(updates[|updates| - 1])
  }

  function InItem<T>(item: Item<T>): seq<Content<T>> {
    if item.Err? then [] else
    match item.value
    case Transaction(matched) => [Matching(matched.filters, matched.transaction)]
    case Clip(transactions) => [Withheld(transactions)]
    case _ => []
  }

  /** What the items hand to the subscriber. */
  function Handed<T>(items: seq<Item<T>>): seq<Content<T>> {
    if items == [] then [] else Handed(items[..|items| - 1]) + InItem(items[|items| - 1])
  }

  lemma {:induction false} HandedSnoc<T>(items: seq<Item<T>>, item: Item<T>)
    ensures Handed(items + [item]) == Handed(items) + InItem(item)
  {}

  /** `inUpdate` says what an update holds: what its event hands over. */
  ghost predicate Reads<U(!new), T>(feed: FeedUpdate<U, T>, inUpdate: U -> seq<Content<T>>) {
    forall update: U :: inUpdate(update) ==
      var event := feed.intoEvent(update);
      if event.None? then [] else InItem(Ok(event.value))
  }

  /** On both feeds the events hand over what the messages hold. */
  lemma {:induction false} BothFeedsRead()
    ensures Reads(HARMONIC, InUpdate) && Reads(BAM, InBamUpdate)
  {}

  /** A BAM update makes an event exactly when it holds a content; a Harmonic
      one also when it marks a slot boundary. */
  lemma {:induction false} EventIffContent(harmonic: HarmonicUpdate, bam: BamUpdate)
    ensures BAM.intoEvent(bam).Some? <==> |InBamUpdate(bam)| == 1
    ensures HARMONIC.intoEvent(harmonic).Some?
            <==> |InUpdate(harmonic)| == 1
                 || (harmonic.payload.Some? && (harmonic.payload.value.HSlotStart? || harmonic.payload.value.HSlotEnd?))
  {}

  /** Mapping updates to events loses and changes no content. */
  lemma {:induction false} MappingKeepsContent<U(!new), T>(
    feed: FeedUpdate<U, T>, inUpdate: U -> seq<Content<T>>, updates: seq<U>)
    requires Reads(feed, inUpdate)
    ensures Handed(Delivered(EventsOf(feed, updates))) == Held(inUpdate, updates)
  {
    if updates == [] {
      assert Delivered(EventsOf(feed, updates)) == [];
    } else {
      hide Handed, InItem;
      var n := |updates| - 1;
      var front, event := EventsOf(feed, updates[..n]), feed.intoEvent(updates[n]);
      MappingKeepsContent(feed, inUpdate, updates[..n]);
      if event.Some? {
        assert Delivered(front + [event.value]) == Delivered(front) + [Ok(event.value)];
        HandedSnoc(Delivered(front), Ok(event.value));
      }
    }
  }

  /** After a SlotEnd the subscriber holds, since the latest SlotStart, exactly
      the transactions with their filter names and the notices of one whole
      frame of the slot, in the order the server sent them: of the frame at
      that place in the run, not of an earlier one of the same slot. */
  lemma {:induction false} SlotEndCompletes(
    cfg: HConfig, heard: seq<Answer<HarmonicUpdate>>, i: nat)
    returns (c: nat, b: nat, e: nat)
    requires cfg.feed == HARMONIC && Asked(cfg, heard) && AllJoin(Connections(LogOf(heard)))
    requires i < |Run(cfg, heard).items|
    requires Run(cfg, heard).items[i].Ok? && Run(cfg, heard).items[i].value.SlotEnd?
    ensures var items, connections := Run(cfg, heard).items, Connections(LogOf(heard));
            var j, slot := LastStart(items, i), items[i].value.slot;
            && 0 <= j && items[j] == Ok(SlotStart(slot))
            && c < |connections| && SentFrame(connections[c].updates, b, e, slot)
            && items[..j] == Before(cfg, connections, c, b)
            && Handed(items[j..i + 1]) == Held(InUpdate, connections[c].updates[b..e + 1])
  {
    c, b, e := FrameComplete(cfg, heard, i);
    BothFeedsRead();
    MappingKeepsContent(HARMONIC, InUpdate, Connections(LogOf(heard))[c].updates[b..e + 1]);
  }

  /** A connection's updates from its first SlotStart on, or all of them where
      slots are not framed. */
  function Shown<U, T>(feed: FeedUpdate<U, T>, updates: seq<U>): seq<U> {
    if feed.slotFraming then updates[FirstStart(feed, updates)..] else updates
  }

  /** What the connections held from there on, in order. */
  function AllHeld<U, T>(
    feed: FeedUpdate<U, T>, inUpdate: U -> seq<Content<T>>, connections: seq<Connection<U>>): seq<Content<T>>
  {
    if connections == [] then [] else
    var n := |connections| - 1;
    AllHeld(feed, inUpdate, connections[..n]) + Held(inUpdate, Shown(feed, connections[n].updates))
  }

  /** On either feed and however often it dropped, a stream hands over exactly
      what its connections held from their first SlotStart on, in order. */
  lemma {:induction false} HandsOverAllShown<U(!new), T>(
    cfg: Config<U, T>, inUpdate: U -> seq<Content<T>>, heard: seq<Answer<U>>)
    requires Asked(cfg, heard) && Reads(cfg.feed, inUpdate)
    ensures Handed(Run(cfg, heard).items) == AllHeld(cfg.feed, inUpdate, Connections(LogOf(heard)))
  {
    RunIsScript(cfg, heard);
    ScriptHandsOver(cfg, inUpdate, LogOf(heard));
  }

  lemma {:induction false} HarmonicLosesOnlyHeldBack(cfg: HConfig, heard: seq<Answer<HarmonicUpdate>>)
    requires cfg.feed == HARMONIC && Asked(cfg, heard)
    ensures Handed(Run(cfg, heard).items) == AllHeld(HARMONIC, InUpdate, Connections(LogOf(heard)))
  {
    BothFeedsRead();
    HandsOverAllShown(cfg, InUpdate, heard);
  }

  /** Without framing that is everything the connections carried. */
  lemma {:induction false} BamLosesNothing(cfg: Config<BamUpdate, BamTransaction>, heard: seq<Answer<BamUpdate>>)
    requires cfg.feed == BAM && Asked(cfg, heard)
    ensures Handed(Run(cfg, heard).items) == AllHeld(BAM, InBamUpdate, Connections(LogOf(heard)))
    ensures forall updates: seq<BamUpdate> :: Shown(BAM, updates) == updates
  {
    BothFeedsRead();
    HandsOverAllShown(cfg, InBamUpdate, heard);
  }

  lemma {:induction false} Associative<A>(x: seq<A>, y: seq<A>, z: seq<A>)
    ensures (x + y) + z == x + (y + z)
  {}

  lemma {:induction false} HandedConcat<T>(a: seq<Item<T>>, b: seq<Item<T>>)
    ensures Handed(a + b) == Handed(a) + Handed(b)
  {
    if b == [] {
      assert a + b == a;
    } else {
      hide Handed, InItem;
      var front, last := b[..|b| - 1], b[|b| - 1];
      HandedConcat(a, front);
      Associative(a, front, [last]);
      assert b == front + [last];
      HandedSnoc(front, last);
      HandedSnoc(a + front, last);
      Associative(Handed(a), Handed(front), InItem(last));
    }
  }

  lemma {:induction false} ScriptHandsOver<U(!new), T>(
    cfg: Config<U, T>, inUpdate: U -> seq<Content<T>>, log: Log<U>)
    requires Reads(cfg.feed, inUpdate)
    ensures Handed(Script(cfg, log)) == AllHeld(cfg.feed, inUpdate, Connections(log))
    decreases |log.earlier|
  {
    hide EventsOf, Held, Handed, Reads, FirstStart;
    var joined, seen := Joined(cfg, log.earlier), Visible(cfg.feed, log.last.updates);
    var closing := Closing(cfg, Outstanding(cfg, log), log.last.failures);
    HandedConcat(joined + Delivered(seen), closing);
    HandedConcat(joined, Delivered(seen));
    MappingKeepsContent(cfg.feed, inUpdate, Shown(cfg.feed, log.last.updates));
    NoContent(closing);
    if log.earlier == [] {
      NoContent(joined);
    } else {
      var m := |log.earlier| - 1;
      var shorter := Log(log.earlier[..m], log.earlier[m]);
      assert Connections(shorter) == log.earlier;
      ScriptHandsOver(cfg, inUpdate, shorter);
      var reconnected: Item<T> := Ok(Reconnected(Carried(cfg, log.earlier)));
      HandedConcat(Script(cfg, shorter), [reconnected]);
      NoContent([reconnected]);
    }
    assert Connections(log)[..|log.earlier|] == log.earlier;
  }

  lemma {:induction false} NoContent<T>(items: seq<Item<T>>)
    requires |items| <= 1 && forall k :: 0 <= k < |items| ==> InItem(items[k]) == []
    ensures Handed(items) == []
  {}
}
