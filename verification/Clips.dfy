/** Coverage notices over a whole run: how many withheld transactions a
    subscriber is told of, on either feed. */
module Clips {
  import opened Wrappers
  import opened Events
  import opened StreamSpec

  function ClipOf<T>(event: Event<T>): nat {
    if event.Clip? then event.transactions else 0
  }

  /** Transactions the events report as withheld. */
  function Announced<T>(events: seq<Event<T>>): nat {
    if events == [] then 0 else Announced(events[..|events| - 1]) + ClipOf(events[|events| - 1])
  }

  /** Transactions the items of a run report as withheld. */
  function Told<T>(items: seq<Item<T>>): nat {
    if items == [] then 0 else
    var last := items[|items| - 1];
    Told(items[..|items| - 1]) + (if last.Ok? then ClipOf(last.value) else 0)
  }

  /** The updates of a connection that precede its first SlotStart. */
  function HeldBack<U, T>(feed: FeedUpdate<U, T>, updates: seq<U>): seq<U> {
    if feed.slotFraming then updates[..FirstStart(feed, updates)] else []
  }

  /** What the server announced over the given connections. */
  function Sent<U, T>(feed: FeedUpdate<U, T>, connections: seq<Connection<U>>): nat {
    if connections == [] then 0 else
    var n := |connections| - 1;
    Sent(feed, connections[..n]) + Announced(EventsOf(feed, connections[n].updates))
  }

  /** What was announced before the first SlotStart of its connection. */
  function Lost<U, T>(feed: FeedUpdate<U, T>, connections: seq<Connection<U>>): nat {
    if connections == [] then 0 else
    var n := |connections| - 1;
    Lost(feed, connections[..n]) + Announced(EventsOf(feed, HeldBack(feed, connections[n].updates)))
  }

  lemma {:induction false} AnnouncedConcat<T>(a: seq<Event<T>>, b: seq<Event<T>>)
    ensures Announced(a + b) == Announced(a) + Announced(b)
  {
    if b == [] {
      assert a + b == a;
    } else {
      AnnouncedConcat(a, b[..|b| - 1]);
      assert (a + b)[..|a + b| - 1] == a + b[..|b| - 1];
    }
  }

  lemma {:induction false} ToldConcat<T>(a: seq<Item<T>>, b: seq<Item<T>>)
    ensures Told(a + b) == Told(a) + Told(b)
  {
    if b == [] {
      assert a + b == a;
    } else {
      ToldConcat(a, b[..|b| - 1]);
      assert (a + b)[..|a + b| - 1] == a + b[..|b| - 1];
    }
  }

  lemma {:induction false} ToldDelivered<T>(events: seq<Event<T>>)
    ensures Told(Delivered(events)) == Announced(events)
  {
    if events == [] {
    } else {
      var front := events[..|events| - 1];
      ToldDelivered(front);
      assert Delivered(events)[..|events| - 1] == Delivered(front);
    }
  }

  /** Every event of a connection is held back or visible, in that order. */
  lemma {:induction false} HeldBackThenVisible<U, T>(feed: FeedUpdate<U, T>, updates: seq<U>)
    ensures EventsOf(feed, updates) == EventsOf(feed, HeldBack(feed, updates)) + Visible(feed, updates)
    ensures var held := EventsOf(feed, HeldBack(feed, updates));
            forall k :: 0 <= k < |held| ==> !held[k].SlotStart?
  {
    if feed.slotFraming {
      var k := FirstStart(feed, updates);
      assert updates == updates[..k] + updates[k..];
      EventsOfConcat(feed, updates[..k], updates[k..]);
      NoStartHeld(feed, updates[..k]);
    }
  }

  lemma {:induction false} NoStartHeld<U, T>(feed: FeedUpdate<U, T>, updates: seq<U>)
    requires forall i :: 0 <= i < |updates| ==> !IsSlotStart(feed, updates[i])
    ensures var held := EventsOf(feed, updates); forall k :: 0 <= k < |held| ==> !held[k].SlotStart?
  {
    if updates == [] {
    } else {
      var n := |updates| - 1;
      assert !IsSlotStart(feed, updates[n]);
      var rest := updates[..n];
      assert forall i :: 0 <= i < n ==> rest[i] == updates[i];
      NoStartHeld(feed, rest);
      var event := feed.intoEvent(updates[n]);
      assert EventsOf(feed, updates) == EventsOf(feed, rest) + if event.None? then [] else [event.value];
    }
  }

  /** Nothing announced from the first SlotStart of a connection on is lost, and
      nothing is told twice: what a run tells plus what preceded those starts
      is what the server announced. Without framing nothing precedes them. */
  lemma {:induction false} ClipsConserved<U, T>(cfg: Config<U, T>, heard: seq<Answer<U>>)
    requires Asked(cfg, heard)
    ensures var log := LogOf(heard);
            var connections := log.earlier + [log.last];
            && Told(Run(cfg, heard).items) + Lost(cfg.feed, connections) == Sent(cfg.feed, connections)
            && (!cfg.feed.slotFraming ==> Lost(cfg.feed, connections) == 0)
  {
    RunIsScript(cfg, heard);
    ScriptTells(cfg, LogOf(heard));
    if !cfg.feed.slotFraming {
      NothingLost(cfg.feed, LogOf(heard).earlier + [LogOf(heard).last]);
    }
  }

  function ClipIn<U, T>(feed: FeedUpdate<U, T>, update: U): nat {
    var event := feed.intoEvent(update);
    if event.None? then 0 else ClipOf(event.value)
  }

  predicate NoClipBeforeStart<U, T>(feed: FeedUpdate<U, T>, updates: seq<U>) {
    forall k :: 0 <= k < |HeldBack(feed, updates)| ==> ClipIn(feed, updates[k]) == 0
  }

  /** No notice of withheld transactions precedes the first SlotStart of its
      connection. */
  predicate NoClipHeld<U, T>(feed: FeedUpdate<U, T>, connections: seq<Connection<U>>) {
    forall c :: 0 <= c < |connections| ==> NoClipBeforeStart(feed, connections[c].updates)
  }

  /** A run tells of every withheld transaction announced exactly when no notice
      of one precedes the first SlotStart of its connection. */
  lemma {:induction false} AllToldIff<U, T>(cfg: Config<U, T>, heard: seq<Answer<U>>)
    requires Asked(cfg, heard)
    ensures var log := LogOf(heard);
            var connections := log.earlier + [log.last];
            Told(Run(cfg, heard).items) == Sent(cfg.feed, connections) <==> NoClipHeld(cfg.feed, connections)
  {
    ClipsConserved(cfg, heard);
    LostIff(cfg.feed, LogOf(heard).earlier + [LogOf(heard).last]);
  }

  lemma {:induction false} AnnouncedIff<U, T>(feed: FeedUpdate<U, T>, updates: seq<U>)
    ensures Announced(EventsOf(feed, updates)) == 0
            <==> forall k :: 0 <= k < |updates| ==> ClipIn(feed, updates[k]) == 0
  {
    if updates == [] {
    } else {
      var n := |updates| - 1;
      var front, event := EventsOf(feed, updates[..n]), feed.intoEvent(updates[n]);
      AnnouncedIff(feed, updates[..n]);
      assert forall k :: 0 <= k < n ==> updates[..n][k] == updates[k];
      if event.Some? {
        assert (front + [event.value])[..|front|] == front;
      }
    }
  }

  lemma {:induction false} HeldIff<U, T>(feed: FeedUpdate<U, T>, updates: seq<U>)
    ensures Announced(EventsOf(feed, HeldBack(feed, updates))) == 0 <==> NoClipBeforeStart(feed, updates)
  {
    hide FirstStart, EventsOf;
    var held := HeldBack(feed, updates);
    AnnouncedIff(feed, held);
    assert forall k :: 0 <= k < |held| ==> held[k] == updates[k];
  }

  lemma {:induction false} NoClipSnoc<U, T>(
    feed: FeedUpdate<U, T>, earlier: seq<Connection<U>>, last: Connection<U>)
    ensures NoClipHeld(feed, earlier + [last])
            <==> NoClipHeld(feed, earlier) && NoClipBeforeStart(feed, last.updates)
  {
    hide NoClipBeforeStart;
    var all := earlier + [last];
    assert all[|earlier|] == last && forall c :: 0 <= c < |earlier| ==> all[c] == earlier[c];
  }

  lemma {:induction false} LostIff<U, T>(feed: FeedUpdate<U, T>, connections: seq<Connection<U>>)
    ensures Lost(feed, connections) == 0 <==> NoClipHeld(feed, connections)
  {
    if connections == [] {
    } else {
      hide NoClipHeld, NoClipBeforeStart, HeldBack, EventsOf, Announced;
      var n := |connections| - 1;
      var earlier, last := connections[..n], connections[n];
      assert connections == earlier + [last];
      LostIff(feed, earlier);
      HeldIff(feed, last.updates);
      NoClipSnoc(feed, earlier, last);
    }
  }

  lemma {:induction false} SentOne<U, T>(feed: FeedUpdate<U, T>, update: U)
    ensures Sent(feed, [Connection([update], [])]) == ClipIn(feed, update)
  {
    var event := feed.intoEvent(update);
    var connection: Connection<U> := Connection([update], []);
    assert [update][..0] == [] && [connection][..0] == [] && EventsOf(feed, []) == [];
    if event.None? {
      assert EventsOf(feed, [update]) == [];
    } else {
      assert EventsOf(feed, [update]) == [event.value] && [event.value][..0] == [];
      assert Announced([event.value]) == ClipOf(event.value);
    }
  }

  /** A Harmonic stream whose first update announces three withheld transactions
      tells of none. */
  lemma {:induction false} EarlyClipIsLost()
    ensures var cfg := Config(HARMONIC, None);
            var heard := [Update(HarmonicUpdate([], Some(HClip(3))))];
            var log := LogOf(heard);
            && Asked(cfg, heard)
            && Told(Run(cfg, heard).items) == 0
            && Sent(HARMONIC, log.earlier + [log.last]) == 3
  {
    hide EventsOf, Announced, Sent;
    var cfg := Config(HARMONIC, None);
    var update := HarmonicUpdate([], Some(HClip(3)));
    var heard := [Update(update)];
    assert [] + heard == heard && heard[..0] == [] && [] + [update] == [update];
    RunSnoc(cfg, [], heard[0]);
    SentOne(HARMONIC, update);
    var connection: Connection<HarmonicUpdate> := Connection([update], []);
    assert LogOf(heard) == Log([], connection) && [] + [connection] == [connection];
  }

  lemma {:induction false} NothingLost<U, T>(feed: FeedUpdate<U, T>, connections: seq<Connection<U>>)
    requires !feed.slotFraming
    ensures Lost(feed, connections) == 0
  {
    if connections == [] {
    } else {
      NothingLost(feed, connections[..|connections| - 1]);
      assert EventsOf(feed, []) == [];
    }
  }

  lemma {:induction false} ScriptTells<U, T>(cfg: Config<U, T>, log: Log<U>)
    ensures var connections := log.earlier + [log.last];
            Told(Script(cfg, log)) + Lost(cfg.feed, connections) == Sent(cfg.feed, connections)
    decreases |log.earlier|, 1
  {
    hide Visible, EventsOf, Announced, Told, HeldBack;
    var seen := Visible(cfg.feed, log.last.updates);
    var closing := Closing(cfg, Outstanding(cfg, log), log.last.failures);
    JoinedTells(cfg, log.earlier);
    ToldConcat(Joined(cfg, log.earlier) + Delivered(seen), closing);
    ToldConcat(Joined(cfg, log.earlier), Delivered(seen));
    ToldDelivered(seen);
    ToldClosing(closing);
    HeldBackThenVisible(cfg.feed, log.last.updates);
    AnnouncedConcat(EventsOf(cfg.feed, HeldBack(cfg.feed, log.last.updates)), seen);
    assert (log.earlier + [log.last])[..|log.earlier|] == log.earlier;
  }

  lemma {:induction false} ToldClosing<T>(closing: seq<Item<T>>)
    requires |closing| <= 1 && forall k :: 0 <= k < |closing| ==> closing[k].Err?
    ensures Told(closing) == 0
  {}

  lemma {:induction false} JoinedTells<U, T>(cfg: Config<U, T>, earlier: seq<Connection<U>>)
    ensures Told(Joined(cfg, earlier)) + Lost(cfg.feed, earlier) == Sent(cfg.feed, earlier)
    decreases |earlier|, 0
  {
    if earlier == [] {
    } else {
      var log := Log(earlier[..|earlier| - 1], earlier[|earlier| - 1]);
      assert earlier == log.earlier + [log.last];
      ScriptTells(cfg, log);
      var joined := Joined(cfg, earlier);
      assert joined[..|joined| - 1] == Script(cfg, log);
    }
  }
}
