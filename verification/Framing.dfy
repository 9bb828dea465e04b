/** Slot frames on a Harmonic stream: what the server promises of one region's
    updates, and what a subscriber that joins, drops and rejoins gets to see. */
module Framing {
  import opened Wrappers
  import opened Events
  import opened StreamSpec
  import opened StreamLemmas

  type HEvent = Event<HarmonicTransaction>
  type HItem = Item<HarmonicTransaction>
  type HConfig = Config<HarmonicUpdate, HarmonicTransaction>
  type HLog = Log<HarmonicUpdate>

  // ----- the delivery contract -----

  /** The open slot after one more event, or nothing if the event overlaps
      another frame: a slot opens only when none is open, and transactions and
      the end belong to the open slot. A slot may open again later. */
  function Advance(open: Option<u64>, event: HEvent): Option<Option<u64>> {
    match event
    case SlotStart(slot) => if open.None? then Some(Some(slot)) else None
    case Transaction(matched) => if open == Some(matched.transaction.slot) then Some(open) else None
    case SlotEnd(slot) => if open == Some(slot) then Some(None) else None
    case Clip(_) => Some(open)
    case Reconnected(_) => None
  }

  function Frames(events: seq<HEvent>, open: Option<u64>): Option<Option<u64>> {
    if events == [] then Some(open) else
    var front := Frames(events[..|events| - 1], open);
    if front.None? then None else Advance(front.value, events[|events| - 1])
  }

  /** The same on the messages themselves. */
  function AdvanceSent(open: Option<u64>, update: HarmonicUpdate): Option<Option<u64>> {
    match update.payload
    case None => Some(open)
    case Some(HPing) => Some(open)
    case Some(HClip(_)) => Some(open)
    case Some(HSlotStart(slot, _)) => if open.None? then Some(Some(slot)) else None
    case Some(HTransaction(transaction)) => if open == Some(transaction.slot) then Some(open) else None
    case Some(HSlotEnd(slot, _)) => if open == Some(slot) then Some(None) else None
  }

  function SentFrames(updates: seq<HarmonicUpdate>, open: Option<u64>): Option<Option<u64>> {
    if updates == [] then Some(open) else
    var front := SentFrames(updates[..|updates| - 1], open);
    if front.None? then None else AdvanceSent(front.value, updates[|updates| - 1])
  }

  predicate WellFramed(updates: seq<HarmonicUpdate>) {
    SentFrames(updates, None).Some?
  }

  lemma {:induction false} SentAsEvent(open: Option<u64>, update: HarmonicUpdate)
    ensures var event := HARMONIC.intoEvent(update);
            AdvanceSent(open, update) == if event.None? then Some(open) else Advance(open, event.value)
  {}

  /** The messages are framed as their events are. */
  lemma {:induction false} SentAsEvents(updates: seq<HarmonicUpdate>, open: Option<u64>)
    ensures SentFrames(updates, open) == Frames(EventsOf(HARMONIC, updates), open)
  {
    hide Advance, AdvanceSent, HarmonicEvent;
    if updates == [] {
    } else {
      var n := |updates| - 1;
      var front := EventsOf(HARMONIC, updates[..n]);
      SentAsEvents(updates[..n], open);
      var before, event := SentFrames(updates[..n], open), HARMONIC.intoEvent(updates[n]);
      if before.Some? {
        SentAsEvent(before.value, updates[n]);
      }
      if event.Some? {
        assert (front + [event.value])[..|front|] == front;
      }
    }
  }

  /** A connection carries what follows some point of a well-framed sequence,
      up to wherever it drops. */
  ghost predicate Joins(updates: seq<HarmonicUpdate>) {
    exists before: seq<HarmonicUpdate> :: WellFramed(before + updates)
  }

  function Connections<U>(log: Log<U>): seq<Connection<U>> {
    log.earlier + [log.last]
  }

  ghost predicate AllJoin(connections: seq<Connection<HarmonicUpdate>>) {
    forall c :: 0 <= c < |connections| ==> Joins(connections[c].updates)
  }

  lemma {:induction false} FramesConcat(a: seq<HEvent>, b: seq<HEvent>, open: Option<u64>)
    ensures var first := Frames(a, open);
            Frames(a + b, open) == if first.None? then None else Frames(b, first.value)
  {
    if b == [] {
      assert a + b == a;
    } else {
      FramesConcat(a, b[..|b| - 1], open);
      assert (a + b)[..|a + b| - 1] == a + b[..|b| - 1];
    }
  }

  /** Joining a well-framed sequence anywhere, a subscriber sees whole frames
      only, from a SlotStart on. */
  lemma {:induction false} JoinSeesFrames(before: seq<HarmonicUpdate>, updates: seq<HarmonicUpdate>)
    requires WellFramed(before + updates)
    ensures SeesFrames(updates)
  {
    var k := FirstStart(HARMONIC, updates);
    var seen := Visible(HARMONIC, updates);
    SentAsEvents(before + updates, None);
    assert before + updates == (before + updates[..k]) + updates[k..];
    EventsOfConcat(HARMONIC, before + updates[..k], updates[k..]);
    FramesConcat(EventsOf(HARMONIC, before + updates[..k]), seen, None);
    if k < |updates| {
      StartIsVisible(HARMONIC, updates);
      StartNeedsNoneOpen(seen, Frames(EventsOf(HARMONIC, before + updates[..k]), None).value);
    } else {
      assert updates[k..] == [];
    }
  }

  lemma {:induction false} StartNeedsNoneOpen(events: seq<HEvent>, open: Option<u64>)
    requires events != [] && events[0].SlotStart? && Frames(events, open).Some?
    ensures open.None?
  {
    assert events == [events[0]] + events[1..];
    FramesConcat([events[0]], events[1..], open);
    assert [events[0]][..0] == [];
    assert Frames([], open) == Some(open);
  }

  /** A subscriber that joins just before `updates` sees whole frames only. */
  predicate SeesFrames(updates: seq<HarmonicUpdate>) {
    Frames(Visible(HARMONIC, updates), None).Some?
  }

  /** Non-overlap is exactly what the single framing flag needs: every join
      point of a sequence shows whole frames if and only if the sequence is
      free of overlap from its first SlotStart on. */
  lemma {:induction false} EveryJoinPointIff(sent: seq<HarmonicUpdate>)
    ensures (forall k :: 0 <= k <= |sent| ==> SeesFrames(sent[k..]))
            <==> WellFramed(sent[FirstStart(HARMONIC, sent)..])
  {
    hide Frames, FirstStart, EventsOf, SentFrames;
    var first := FirstStart(HARMONIC, sent);
    assert sent[0..] == sent;
    SentAsEvents(sent[first..], None);
    assert SeesFrames(sent) <==> WellFramed(sent[first..]);
    if WellFramed(sent[first..]) {
      forall k | 0 <= k <= |sent|
        ensures SeesFrames(sent[k..])
      {
        if k <= first {
          SkipToStart(sent, k);
        } else {
          assert sent[first..] == sent[first..k] + sent[k..];
          JoinSeesFrames(sent[first..k], sent[k..]);
        }
      }
    }
  }

  lemma {:induction false} SkipToStart(sent: seq<HarmonicUpdate>, k: nat)
    requires k <= FirstStart(HARMONIC, sent)
    ensures Visible(HARMONIC, sent[k..]) == Visible(HARMONIC, sent)
  {}

  /** With overlapping frames the guarantee is lost: joining inside slot 1, a
      subscriber is handed the end of slot 1 without its start. */
  lemma {:induction false} OverlapDefeatsFraming()
    ensures var update := (p: HarmonicPayload) => HarmonicUpdate([], Some(p));
            var start1, start2 := update(HSlotStart(1, "ams")), update(HSlotStart(2, "ams"));
            var end1 := update(HSlotEnd(1, "ams"));
            Visible(HARMONIC, [start1, start2, end1][1..]) == [SlotStart(2), SlotEnd(1)]
  {
    var start2 := HarmonicUpdate([], Some(HSlotStart(2, "ams")));
    var end1 := HarmonicUpdate([], Some(HSlotEnd(1, "ams")));
    var updates := [start2, end1];
    assert FirstStart(HARMONIC, updates) == 0;
    assert updates[..1] == [start2] && [start2][..0] == [];
    assert EventsOf(HARMONIC, []) == [];
    assert EventsOf(HARMONIC, [start2]) == [SlotStart(2)];
    assert updates[0..] == updates;
    assert EventsOf(HARMONIC, updates) == [SlotStart(2), SlotEnd(1)];
  }

  // ----- what the subscriber sees over a whole run -----

  /** The open slot after the items of a run; a Reconnected or an error closes
      whatever was open. */
  function ItemFrames(items: seq<HItem>): Option<Option<u64>> {
    if items == [] then Some(None) else
    var front, item := ItemFrames(items[..|items| - 1]), items[|items| - 1];
    if front.None? then None
    else if item.Err? || item.value.Reconnected? then Some(None)
    else Advance(front.value, item.value)
  }

  lemma {:induction false} DeliveredFrames(items: seq<HItem>, events: seq<HEvent>)
    requires ItemFrames(items) == Some(None) && Frames(events, None).Some?
    ensures ItemFrames(items + Delivered(events)) == Frames(events, None)
  {
    if events == [] {
      assert items + Delivered(events) == items;
    } else {
      var front := events[..|events| - 1];
      DeliveredFrames(items, front);
      var all := items + Delivered(events);
      assert all[..|all| - 1] == items + Delivered(front);
    }
  }

  lemma {:induction false} ScriptFrames(
    cfg: HConfig, log: HLog)
    requires cfg.feed == HARMONIC && AllJoin(Connections(log))
    ensures ItemFrames(Script(cfg, log)).Some?
    decreases |log.earlier|, 1
  {
    hide EventsOf, FirstStart, Frames, WellFramed;
    JoinedFrames(cfg, log.earlier, log.last);
    assert Connections(log)[|log.earlier|] == log.last;
    var before :| WellFramed(before + log.last.updates);
    JoinSeesFrames(before, log.last.updates);
    var items := Joined(cfg, log.earlier);
    DeliveredFrames(items, Visible(HARMONIC, log.last.updates));
    var closing := Closing(cfg, Outstanding(cfg, log), log.last.failures);
    var open := items + Delivered(Visible(HARMONIC, log.last.updates));
    if closing != [] {
      assert (open + closing)[..|open|] == open;
    } else {
      assert open + closing == open;
    }
  }

  lemma {:induction false} JoinedFrames(
    cfg: HConfig, earlier: seq<Connection<HarmonicUpdate>>,
    last: Connection<HarmonicUpdate>)
    requires cfg.feed == HARMONIC && AllJoin(earlier + [last])
    ensures ItemFrames(Joined(cfg, earlier)) == Some(None)
    decreases |earlier|, 0
  {
    if earlier == [] {
    } else {
      var log := Log(earlier[..|earlier| - 1], earlier[|earlier| - 1]);
      assert Connections(log) == earlier;
      assert forall c :: 0 <= c < |earlier| ==> earlier[c] == (earlier + [last])[c];
      ScriptFrames(cfg, log);
      var items := Script(cfg, log);
      var joined := Joined(cfg, earlier);
      assert joined[..|joined| - 1] == items;
    }
  }

  /** The latest SlotStart among the first `i` items, or -1. */
  function LastStart(items: seq<HItem>, i: nat): (j: int)
    requires i <= |items|
    ensures -1 <= j < i
    ensures j >= 0 ==> items[j].Ok? && items[j].value.SlotStart?
    ensures forall k :: j < k < i ==> items[k].Err? || !items[k].value.SlotStart?
  {
    if i == 0 then -1
    else if items[i - 1].Ok? && items[i - 1].value.SlotStart? then i - 1
    else LastStart(items, i - 1)
  }

  /** A transaction of the slot, or a clip notice. */
  predicate Inside(item: HItem, slot: u64) {
    item.Ok? && (item.value.Clip? || (item.value.Transaction? && item.value.matched.transaction.slot == slot))
  }

  /** Item `i` lies in a frame of `slot` that the subscriber saw from its start:
      since the latest SlotStart, for that slot, there is nothing but its
      transactions and clip notices, so no Reconnected and no other frame. */
  ghost predicate InOwnFrame(items: seq<HItem>, i: nat, slot: u64)
    requires i <= |items|
  {
    var j := LastStart(items, i);
    && 0 <= j && items[j] == Ok(SlotStart(slot))
    && forall k :: j < k < i ==> Inside(items[k], slot)
  }

  lemma {:induction false} OpenIsOwnFrame(items: seq<HItem>, i: nat, slot: u64)
    requires i <= |items| && ItemFrames(items[..i]) == Some(Some(slot))
    ensures InOwnFrame(items, i, slot)
    decreases i
  {
    if i == 0 {
    } else {
      assert items[..i][..i - 1] == items[..i - 1];
      if items[i - 1] != Ok(SlotStart(slot)) {
        OpenIsOwnFrame(items, i - 1, slot);
      }
    }
  }

  lemma {:induction false} PrefixFrames(items: seq<HItem>, i: nat)
    requires i <= |items| && ItemFrames(items).Some?
    ensures ItemFrames(items[..i]).Some?
    decreases |items| - i
  {
    if i == |items| {
      assert items[..i] == items;
    } else {
      PrefixFrames(items, i + 1);
      assert items[..i + 1][..i] == items[..i];
    }
  }

  function SlotOf(item: HItem): Option<u64> {
    if item.Err? then None else
    match item.value
    case Transaction(matched) => Some(matched.transaction.slot)
    case SlotEnd(slot) => Some(slot)
    case _ => None
  }

  /** Over every run with any number of drops, every transaction and every
      SlotEnd lies in a frame of its own slot seen from the start. */
  lemma {:induction false} FramingHolds(
    cfg: HConfig, heard: seq<Answer<HarmonicUpdate>>, i: nat)
    requires cfg.feed == HARMONIC && Asked(cfg, heard) && AllJoin(Connections(LogOf(heard)))
    requires i < |Run(cfg, heard).items| && SlotOf(Run(cfg, heard).items[i]).Some?
    ensures var items := Run(cfg, heard).items;
            InOwnFrame(items, i, SlotOf(items[i]).value)
  {
    RunIsScript(cfg, heard);
    ScriptFramed(cfg, LogOf(heard), i);
  }

  lemma {:induction false} ScriptFramed(cfg: HConfig, log: HLog, i: nat)
    requires cfg.feed == HARMONIC && AllJoin(Connections(log))
    requires i < |Script(cfg, log)| && SlotOf(Script(cfg, log)[i]).Some?
    ensures InOwnFrame(Script(cfg, log), i, SlotOf(Script(cfg, log)[i]).value)
  {
    hide Script, Joins, InOwnFrame;
    var items := Script(cfg, log);
    ScriptFrames(cfg, log);
    PrefixFrames(items, i + 1);
    assert items[..i + 1][..i] == items[..i];
    OpenIsOwnFrame(items, i, SlotOf(items[i]).value);
  }

  // ----- completeness -----

  /** Updates `b` to `e` are one frame of `slot` as the server sent it. */
  predicate SentFrame(updates: seq<HarmonicUpdate>, b: nat, e: nat, slot: u64) {
    && b < e < |updates|
    && (var start := updates[b].payload; start.Some? && start.value.HSlotStart? && start.value.slot == slot)
    && (var end := updates[e].payload; end.Some? && end.value.HSlotEnd? && end.value.slot == slot)
    && forall k :: b < k < e ==> Within(updates[k].payload, slot)
  }

  predicate Within(payload: Option<HarmonicPayload>, slot: u64) {
    payload.Some? ==>
      match payload.value
      case HTransaction(transaction) => transaction.slot == slot
      case HPing => true
      case HClip(_) => true
      case HSlotStart(_, _) => false
      case HSlotEnd(_, _) => false
  }

  /** The update behind the p-th event. */
  lemma {:induction false} Behind<U, T>(feed: FeedUpdate<U, T>, updates: seq<U>, p: nat) returns (q: nat)
    requires p < |EventsOf(feed, updates)|
    ensures q < |updates|
    ensures feed.intoEvent(updates[q]) == Some(EventsOf(feed, updates)[p])
    ensures EventsOf(feed, updates[..q]) == EventsOf(feed, updates)[..p]
  {
    var n := |updates| - 1;
    var front := EventsOf(feed, updates[..n]);
    if p < |front| {
      q := Behind(feed, updates[..n], p);
      assert updates[..n][..q] == updates[..q];
    } else {
      q := n;
    }
  }

  /** A stretch of the events comes from one stretch of the updates. */
  lemma {:induction false} Stretch<U, T>(
    feed: FeedUpdate<U, T>, updates: seq<U>, p: nat, p': nat)
    returns (b: nat, e: nat)
    requires p < p' < |EventsOf(feed, updates)|
    ensures b < e < |updates|
    ensures feed.intoEvent(updates[b]) == Some(EventsOf(feed, updates)[p])
    ensures feed.intoEvent(updates[e]) == Some(EventsOf(feed, updates)[p'])
    ensures EventsOf(feed, updates[..b]) == EventsOf(feed, updates)[..p]
    ensures EventsOf(feed, updates[b..e + 1]) == EventsOf(feed, updates)[p..p' + 1]
  {
    var events := EventsOf(feed, updates);
    b := Behind(feed, updates, p);
    e := Behind(feed, updates, p');
    if e <= b {
      assert updates[..b] == updates[..e] + updates[e..b];
      EventsOfConcat(feed, updates[..e], updates[e..b]);
      assert false;
    }
    assert updates[..e + 1][..e] == updates[..e];
    assert EventsOf(feed, updates[..e + 1]) == events[..p' + 1];
    assert updates[..e + 1] == updates[..b] + updates[b..e + 1];
    EventsOfConcat(feed, updates[..b], updates[b..e + 1]);
  }

  /** Every mapped update is among the events. */
  lemma {:induction false} Listed<U, T>(feed: FeedUpdate<U, T>, updates: seq<U>, k: nat) returns (p: nat)
    requires k < |updates| && feed.intoEvent(updates[k]).Some?
    ensures p == |EventsOf(feed, updates[..k])| < |EventsOf(feed, updates)|
    ensures EventsOf(feed, updates)[p] == feed.intoEvent(updates[k]).value
  {
    p := |EventsOf(feed, updates[..k])|;
    assert updates[..k + 1][..k] == updates[..k];
    assert updates == updates[..k + 1] + updates[k + 1..];
    EventsOfConcat(feed, updates[..k + 1], updates[k + 1..]);
  }

  /** What a subscriber has been handed when update `b` of connection `c` comes
      up: all of the connections before it, and what it showed up to there. */
  function Before(cfg: HConfig, connections: seq<Connection<HarmonicUpdate>>, c: nat, b: nat): seq<HItem>
    requires c < |connections| && b <= |connections[c].updates|
  {
    Joined(cfg, connections[..c]) + Delivered(Visible(HARMONIC, connections[c].updates[..b]))
  }

  /** Items `j` to `i` are the frame from update `b` to update `e` of connection
      `c`: whole, in order, and at that frame's place in the run, so that of
      two frames of one slot it is told which. */
  ghost predicate FrameAt(
    cfg: HConfig, items: seq<HItem>, connections: seq<Connection<HarmonicUpdate>>,
    j: nat, i: nat, c: nat, b: nat, e: nat, slot: u64)
  {
    && j <= i < |items| && c < |connections|
    && SentFrame(connections[c].updates, b, e, slot)
    && items[..j] == Before(cfg, connections, c, b)
    && items[j..i + 1] == Delivered(EventsOf(HARMONIC, connections[c].updates[b..e + 1]))
  }

  /** For every SlotEnd delivered over a run with any number of drops, what was
      delivered since the latest SlotStart is exactly, and in order, one whole
      frame of the slot as one connection's server sent it: the frame that
      follows what was delivered before, the restarted one after a restart. */
  lemma {:induction false} FrameComplete(
    cfg: HConfig, heard: seq<Answer<HarmonicUpdate>>, i: nat)
    returns (c: nat, b: nat, e: nat)
    requires cfg.feed == HARMONIC && Asked(cfg, heard) && AllJoin(Connections(LogOf(heard)))
    requires i < |Run(cfg, heard).items|
    requires Run(cfg, heard).items[i].Ok? && Run(cfg, heard).items[i].value.SlotEnd?
    ensures var items, connections := Run(cfg, heard).items, Connections(LogOf(heard));
            && InOwnFrame(items, i, items[i].value.slot)
            && FrameAt(cfg, items, connections, LastStart(items, i), i, c, b, e, items[i].value.slot)
  {
    RunIsScript(cfg, heard);
    FramingHolds(cfg, heard, i);
    c, b, e := ScriptComplete(cfg, LogOf(heard), i);
  }

  lemma {:induction false} ScriptComplete(cfg: HConfig, log: HLog, i: nat)
    returns (c: nat, b: nat, e: nat)
    requires cfg.feed == HARMONIC && AllJoin(Connections(log))
    requires i < |Script(cfg, log)| && Script(cfg, log)[i].Ok? && Script(cfg, log)[i].value.SlotEnd?
    ensures var items, connections := Script(cfg, log), Connections(log);
            && InOwnFrame(items, i, items[i].value.slot)
            && FrameAt(cfg, items, connections, LastStart(items, i), i, c, b, e, items[i].value.slot)
    decreases |log.earlier|
  {
    hide Frames, ItemFrames, EventsOf, FirstStart, SentFrame, Inside, Advance, Joins, SlotOf, Joined, FrameAt;
    OwnFrameOfEnd(cfg, log, i);
    if i < |Joined(cfg, log.earlier)| {
      EarlierItems(cfg, log, i);
      var n := |log.earlier| - 1;
      var shorter := Log(log.earlier[..n], log.earlier[n]);
      assert Connections(shorter) == log.earlier;
      assert forall k :: 0 <= k < |log.earlier| ==> Connections(log)[k] == log.earlier[k];
      c, b, e := ScriptComplete(cfg, shorter, i);
      SameLastStart(Script(cfg, log), Script(cfg, shorter), i);
      FrameAtLonger(cfg, shorter, log, LastStart(Script(cfg, log), i), i, c, b, e);
    } else {
      c := |log.earlier|;
      b, e := LastComplete(cfg, log, i);
    }
  }

  /** A frame keeps its place when a connection and its items are added. */
  lemma {:induction false} FrameAtLonger(
    cfg: HConfig, shorter: HLog, log: HLog, j: nat, i: nat, c: nat, b: nat, e: nat)
    requires log.earlier == Connections(shorter) && Script(cfg, shorter) <= Script(cfg, log)
    requires i < |Script(cfg, shorter)| && Script(cfg, log)[i].Ok? && Script(cfg, log)[i].value.SlotEnd?
    requires FrameAt(cfg, Script(cfg, shorter), Connections(shorter), j, i, c, b, e, Script(cfg, log)[i].value.slot)
    ensures FrameAt(cfg, Script(cfg, log), Connections(log), j, i, c, b, e, Script(cfg, log)[i].value.slot)
  {
    hide Script, Joined, SentFrame, EventsOf, Visible;
    assert Connections(log)[..c] == Connections(shorter)[..c];
  }

  lemma {:induction false} OwnFrameOfEnd(cfg: HConfig, log: HLog, i: nat)
    requires cfg.feed == HARMONIC && AllJoin(Connections(log))
    requires i < |Script(cfg, log)| && Script(cfg, log)[i].Ok? && Script(cfg, log)[i].value.SlotEnd?
    ensures InOwnFrame(Script(cfg, log), i, Script(cfg, log)[i].value.slot)
  {
    ScriptFramed(cfg, log, i);
  }

  lemma {:induction false} EarlierItems<U>(cfg: Config<U, HarmonicTransaction>, log: Log<U>, i: nat)
    requires i < |Joined(cfg, log.earlier)| && Script(cfg, log)[i].Ok? && Script(cfg, log)[i].value.SlotEnd?
    ensures log.earlier != []
    ensures var n := |log.earlier| - 1;
            var earlier := Script(cfg, Log(log.earlier[..n], log.earlier[n]));
            earlier <= Script(cfg, log) && i < |earlier|
  {}

  /** A SlotEnd of the last connection: its frame lies in that connection. */
  lemma {:induction false} LastComplete(cfg: HConfig, log: HLog, i: nat)
    returns (b: nat, e: nat)
    requires cfg.feed == HARMONIC && |Joined(cfg, log.earlier)| <= i < |Script(cfg, log)|
    requires Script(cfg, log)[i].Ok? && Script(cfg, log)[i].value.SlotEnd?
    requires InOwnFrame(Script(cfg, log), i, Script(cfg, log)[i].value.slot)
    ensures var items, connections := Script(cfg, log), Connections(log);
            0 <= LastStart(items, i)
            && FrameAt(cfg, items, connections, LastStart(items, i), i, |log.earlier|, b, e, items[i].value.slot)
  {
    hide *;
    var items, n, seen := Script(cfg, log), |Joined(cfg, log.earlier)|, Visible(HARMONIC, log.last.updates);
    var j, slot := LastStart(items, i), items[i].value.slot;
    ScriptTail(cfg, log);
    TailFrame(items, n, seen, i, slot);
    b, e := ConnectionFrame(log.last.updates, j - n, i - n, slot);
    ItemsBefore(cfg, log, j - n);
    LastFrameAt(cfg, log, j, i, b, e, slot);
  }

  lemma {:induction false} LastFrameAt(cfg: HConfig, log: HLog, j: nat, i: nat, b: nat, e: nat, slot: u64)
    requires j <= i < |Script(cfg, log)| && SentFrame(log.last.updates, b, e, slot)
    requires Script(cfg, log)[..j]
             == Joined(cfg, log.earlier) + Delivered(Visible(HARMONIC, log.last.updates[..b]))
    requires Script(cfg, log)[j..i + 1] == Delivered(EventsOf(HARMONIC, log.last.updates[b..e + 1]))
    ensures FrameAt(cfg, Script(cfg, log), Connections(log), j, i, |log.earlier|, b, e, slot)
  {
    hide Script, Joined, SentFrame, EventsOf, Visible;
    assert Connections(log)[..|log.earlier|] == log.earlier;
  }

  /** The items before the p-th visible event of the last connection. */
  lemma {:induction false} ItemsBefore(cfg: HConfig, log: HLog, p: nat)
    requires p <= |Visible(cfg.feed, log.last.updates)|
    ensures |Joined(cfg, log.earlier)| + p <= |Script(cfg, log)|
    ensures Script(cfg, log)[..|Joined(cfg, log.earlier)| + p]
            == Joined(cfg, log.earlier) + Delivered(Visible(cfg.feed, log.last.updates)[..p])
  {
    hide EventsOf, FirstStart, Visible, Joined;
    var joined, seen := Joined(cfg, log.earlier), Visible(cfg.feed, log.last.updates);
    var closing := Closing(cfg, Outstanding(cfg, log), log.last.failures);
    assert Script(cfg, log) == joined + Delivered(seen) + closing;
    assert Delivered(seen)[..p] == Delivered(seen[..p]);
    assert (joined + Delivered(seen) + closing)[..|joined| + p] == joined + Delivered(seen)[..p];
  }

  /** The items from `n` on are the delivered `seen` and then at most errors;
      what precedes them, if anything, is a Reconnected. */
  ghost predicate Tail(items: seq<HItem>, n: nat, seen: seq<HEvent>) {
    && n + |seen| <= |items|
    && (n > 0 ==> IsReconnected(items[n - 1]))
    && (forall k :: 0 <= k < |seen| ==> items[n + k] == Ok(seen[k]))
    && (forall k :: n + |seen| <= k < |items| ==> items[k].Err?)
  }

  lemma {:induction false} ScriptTail<U>(cfg: Config<U, HarmonicTransaction>, log: Log<U>)
    ensures Tail(Script(cfg, log), |Joined(cfg, log.earlier)|, Visible(cfg.feed, log.last.updates))
  {
    hide EventsOf, FirstStart, Visible;
    var joined, seen := Joined(cfg, log.earlier), Visible(cfg.feed, log.last.updates);
    var closing := Closing(cfg, Outstanding(cfg, log), log.last.failures);
    assert Script(cfg, log) == joined + Delivered(seen) + closing;
  }

  /** A frame that ends among the last connection's events lies within them. */
  lemma {:induction false} TailFrame(items: seq<HItem>, n: nat, seen: seq<HEvent>, i: nat, slot: u64)
    requires Tail(items, n, seen)
    requires n <= i < |items| && items[i] == Ok(SlotEnd(slot)) && InOwnFrame(items, i, slot)
    ensures var j := LastStart(items, i);
            && n <= j < i < n + |seen|
            && seen[j - n] == SlotStart(slot) && seen[i - n] == SlotEnd(slot)
            && (forall k :: j - n < k < i - n ==> Inside(Ok(seen[k]), slot))
            && items[j..i + 1] == Delivered(seen[j - n..i - n + 1])
  {}

  lemma {:induction false} SameLastStart(items: seq<HItem>, prefix: seq<HItem>, i: nat)
    requires prefix <= items && i <= |prefix|
    ensures LastStart(items, i) == LastStart(prefix, i)
  {}

  /** Within one connection: a visible start, nothing but the slot's contents,
      and the end come from one sent frame. */
  lemma {:induction false} ConnectionFrame(
    updates: seq<HarmonicUpdate>, p: nat, p': nat, slot: u64)
    returns (b: nat, e: nat)
    requires p < p' < |Visible(HARMONIC, updates)|
    requires Visible(HARMONIC, updates)[p] == SlotStart(slot)
    requires Visible(HARMONIC, updates)[p'] == SlotEnd(slot)
    requires forall k :: p < k < p' ==> Inside(Ok(Visible(HARMONIC, updates)[k]), slot)
    ensures SentFrame(updates, b, e, slot)
    ensures Visible(HARMONIC, updates[..b]) == Visible(HARMONIC, updates)[..p]
    ensures EventsOf(HARMONIC, updates[b..e + 1]) == Visible(HARMONIC, updates)[p..p' + 1]
  {
    hide EventsOf, FirstStart, SentFrame;
    var first := FirstStart(HARMONIC, updates);
    var rest := updates[first..];
    b, e := Stretch(HARMONIC, rest, p, p');
    assert rest[b..e + 1] == updates[first + b..first + e + 1];
    assert rest[..b] == updates[first..first + b];
    b, e := first + b, first + e;
    VisiblePrefix(HARMONIC, updates, b);
    FrameContents(updates[b..e + 1], EventsOf(HARMONIC, updates[b..e + 1]), slot);
    FrameWithin(updates, b, e, slot);
  }

  lemma {:induction false} FrameWithin(updates: seq<HarmonicUpdate>, b: nat, e: nat, slot: u64)
    requires b < e < |updates| && SentFrame(updates[b..e + 1], 0, e - b, slot)
    ensures SentFrame(updates, b, e, slot)
  {
    var frame := updates[b..e + 1];
    forall k | b < k < e
      ensures Within(updates[k].payload, slot)
    {
      assert frame[k - b] == updates[k];
    }
  }

  /** A connection cut before update `b` has shown what it shows up to there. */
  lemma {:induction false} VisiblePrefix<U, T>(feed: FeedUpdate<U, T>, updates: seq<U>, b: nat)
    requires feed.slotFraming && FirstStart(feed, updates) <= b <= |updates|
    ensures Visible(feed, updates[..b]) == EventsOf(feed, updates[FirstStart(feed, updates)..b])
  {
    hide EventsOf;
    var first, k := FirstStart(feed, updates), FirstStart(feed, updates[..b]);
    assert k < b ==> updates[..b][k] == updates[k];
    assert first < b ==> updates[..b][first] == updates[first];
    assert k == first;
    assert updates[..b][first..] == updates[first..b];
  }

  /** Updates whose events are one frame are one sent frame. */
  lemma {:induction false} FrameContents(frame: seq<HarmonicUpdate>, events: seq<HEvent>, slot: u64)
    requires |frame| >= 2 && events == EventsOf(HARMONIC, frame)
    requires HarmonicEvent(frame[0]) == Some(SlotStart(slot))
    requires HarmonicEvent(frame[|frame| - 1]) == Some(SlotEnd(slot))
    requires forall m :: 0 < m < |events| - 1 ==> Inside(Ok(events[m]), slot)
    ensures SentFrame(frame, 0, |frame| - 1, slot)
  {
    var body := frame[..|frame| - 1];
    assert events == EventsOf(HARMONIC, body) + [SlotEnd(slot)];
    forall k | 0 < k < |body| && HarmonicEvent(frame[k]).Some?
      ensures Within(frame[k].payload, slot)
    {
      var m := Listed(HARMONIC, body, k);
      var zero := Listed(HARMONIC, body[..k], 0);
      assert 0 < m < |events| - 1 && events[m] == HarmonicEvent(body[k]).value;
      assert Inside(Ok(events[m]), slot);
    }
  }

  // ----- nothing whole is withheld -----

  /** Each connection's visible events stand together in the script, right after
      the connections before it. */
  lemma {:induction false} ConnectionPlace(cfg: HConfig, log: HLog, c: nat, p: nat)
    requires c < |Connections(log)|
    requires p <= |Visible(cfg.feed, Connections(log)[c].updates)|
    ensures Joined(cfg, Connections(log)[..c]) + Delivered(Visible(cfg.feed, Connections(log)[c].updates)[..p])
            <= Script(cfg, log)
    decreases |log.earlier|
  {
    hide Visible, EventsOf;
    if c == |log.earlier| {
      assert Connections(log)[..c] == log.earlier;
      ItemsBefore(cfg, log, p);
    } else {
      var m := |log.earlier| - 1;
      var shorter := Log(log.earlier[..m], log.earlier[m]);
      assert Connections(shorter) == log.earlier;
      assert Connections(log)[..c] == Connections(shorter)[..c];
      ConnectionPlace(cfg, shorter, c, p);
      assert Script(cfg, shorter) <= Joined(cfg, log.earlier) <= Script(cfg, log);
    }
  }

  /** Every whole frame a connection carries is delivered whole, in order and in
      its place, whatever else the run went through. */
  lemma {:induction false} FrameDelivered(
    cfg: HConfig, heard: seq<Answer<HarmonicUpdate>>,
    c: nat, b: nat, e: nat, slot: u64)
    returns (j: nat, i: nat)
    requires cfg.feed == HARMONIC && Asked(cfg, heard)
    requires c < |Connections(LogOf(heard))| && SentFrame(Connections(LogOf(heard))[c].updates, b, e, slot)
    ensures FrameAt(cfg, Run(cfg, heard).items, Connections(LogOf(heard)), j, i, c, b, e, slot)
  {
    RunIsScript(cfg, heard);
    j, i := ScriptDelivers(cfg, LogOf(heard), c, b, e, slot);
  }

  lemma {:induction false} ScriptDelivers(cfg: HConfig, log: HLog, c: nat, b: nat, e: nat, slot: u64)
    returns (j: nat, i: nat)
    requires cfg.feed == HARMONIC
    requires c < |Connections(log)| && SentFrame(Connections(log)[c].updates, b, e, slot)
    ensures FrameAt(cfg, Script(cfg, log), Connections(log), j, i, c, b, e, slot)
  {
    hide EventsOf, FirstStart, Script, Joined, Visible;
    var updates, joined := Connections(log)[c].updates, Joined(cfg, Connections(log)[..c]);
    var seen, shown, frame :=
      Visible(HARMONIC, updates), Visible(HARMONIC, updates[..b]), EventsOf(HARMONIC, updates[b..e + 1]);
    VisibleParts(updates, b, e);
    ConnectionPlace(cfg, log, c, |shown| + |frame|);
    assert Delivered(shown + frame) == Delivered(shown) + Delivered(frame);
    j := |joined| + |shown|;
    i := j + |frame| - 1;
  }

  lemma {:induction false} VisibleParts(updates: seq<HarmonicUpdate>, b: nat, e: nat)
    requires b <= e < |updates| && IsSlotStart(HARMONIC, updates[b])
    ensures var shown, frame := Visible(HARMONIC, updates[..b]), EventsOf(HARMONIC, updates[b..e + 1]);
            && shown + frame <= Visible(HARMONIC, updates)
            && (shown + frame == Visible(HARMONIC, updates)[..|shown| + |frame|])
            && frame != []
  {
    hide EventsOf;
    var first := FirstStart(HARMONIC, updates);
    VisiblePrefix(HARMONIC, updates, b);
    var head, frame, tail := updates[first..b], updates[b..e + 1], updates[e + 1..];
    assert updates[first..] == (head + frame) + tail;
    EventsOfConcat(HARMONIC, head + frame, tail);
    EventsOfConcat(HARMONIC, head, frame);
    assert frame[0] == updates[b];
    var p := Listed(HARMONIC, frame, 0);
  }
}
