/** What an EventStream does with the answers its inner futures give it, as a
    pure step function, and the per-connection account of the same answers. */
module StreamSpec {
  import opened Wrappers
  import opened Error
  import opened Backoff
  import opened Events

  /** What polling the inner future of the current state returned. */
  datatype Answer<+U> =
    | NotReady                 // Poll::Pending, whatever was polled
    | Update(update: U)        // the stream: Some(Ok(update))
    | Failed(status: Status)   // the stream: Some(Err(status)); the subscribe: Err(status)
    | StreamEnd                // the stream: None
    | Elapsed                  // the sleep finished
    | Opened                   // the subscribe: Ok(stream)

  datatype State = Streaming | Waiting(delay: Duration) | Connecting | Ended

  datatype Core = Core(state: State, attempts: nat, framed: bool)

  type Item<+T> = Result<Event<T>, StreamError>

  datatype Config<!U, +T> = Config(feed: FeedUpdate<U, T>, reconnect: Option<Reconnect>)

  /** Everything observable of a run: the fields, the items yielded, the
      delays slept and the number of resubscribes sent. */
  datatype Trace<+T> = Trace(core: Core, items: seq<Item<T>>, sleeps: seq<Duration>, subscribes: nat)

  /** The state polls the future this answer comes from. An answer nobody
      polled for reads as NotReady. */
  predicate Asks<U>(state: State, answer: Answer<U>) {
    match state
    case Streaming => answer.Update? || answer.Failed? || answer.StreamEnd?
    case Waiting(_) => answer.Elapsed?
    case Connecting => answer.Opened? || answer.Failed?
    case Ended => false
  }

  function Start<U, T>(cfg: Config<U, T>): Trace<T> {
    Trace(Core(Streaming, 0, !cfg.feed.slotFraming), [], [], 0)
  }

  /** Retry after a delay, or end with the error. */
  function AfterFailure<U, T>(cfg: Config<U, T>, t: Trace<T>, error: StreamError): Trace<T> {
    match cfg.reconnect
    case None => t.(core := t.core.(state := Ended), items := t.items + [Err(error)])
    case Some(reconnect) =>
      var attempts := t.core.attempts + 1;
      if !Retryable(error) || Exhausted(reconnect, attempts) then
        t.(core := t.core.(state := Ended, attempts := attempts), items := t.items + [Err(error)])
      else
        var delay := Interval(reconnect, attempts);
        t.(core := t.core.(state := Waiting(delay), attempts := attempts), sleeps := t.sleeps + [delay])
  }

  function AfterUpdate<U, T>(cfg: Config<U, T>, t: Trace<T>, update: U): Trace<T> {
    match cfg.feed.intoEvent(update)
    case None => t
    case Some(event) =>
      if !t.core.framed && !event.SlotStart? then t
      else t.(core := t.core.(framed := true, attempts := 0), items := t.items + [Ok(event)])
  }

  function Step<U, T>(cfg: Config<U, T>, t: Trace<T>, answer: Answer<U>): Trace<T>
    requires Asks(t.core.state, answer)
  {
    match answer
    case Update(update) => AfterUpdate(cfg, t, update)
    case Failed(status) => AfterFailure(cfg, t, Refused(status))
    case StreamEnd => AfterFailure(cfg, t, Closed)
    case Elapsed => t.(core := t.core.(state := Connecting), subscribes := t.subscribes + 1)
    case Opened =>
      t.(core := t.core.(state := Streaming, framed := !cfg.feed.slotFraming),
         items := t.items + [Ok(Reconnected(t.core.attempts))])
  }

  /** The run over the answers heard so far; an unasked answer changes nothing. */
  function Run<U, T>(cfg: Config<U, T>, heard: seq<Answer<U>>): Trace<T> {
    if heard == [] then Start(cfg) else
    var t := Run(cfg, heard[..|heard| - 1]);
    var answer := heard[|heard| - 1];
    if Asks(t.core.state, answer) then Step(cfg, t, answer) else t
  }

  /** Every answer was one the state at that point polls for. */
  predicate Asked<U, T>(cfg: Config<U, T>, heard: seq<Answer<U>>) {
    heard == [] ||
    (var front := heard[..|heard| - 1];
     Asked(cfg, front) && Asks(Run(cfg, front).core.state, heard[|heard| - 1]))
  }

  lemma {:induction false} RunSnoc<U, T>(cfg: Config<U, T>, heard: seq<Answer<U>>, answer: Answer<U>)
    ensures var t := Run(cfg, heard);
            Run(cfg, heard + [answer]) == if Asks(t.core.state, answer) then Step(cfg, t, answer) else t
    ensures Asked(cfg, heard + [answer]) <==> Asked(cfg, heard) && Asks(Run(cfg, heard).core.state, answer)
  {}

  // ----- the same answers, by connection -----

  /** One connection: its updates, then the failures up to the next one. */
  datatype Connection<+U> = Connection(updates: seq<U>, failures: seq<StreamError>)

  /** The connections of a stream so far; there is always a last one. */
  datatype Log<+U> = Log(earlier: seq<Connection<U>>, last: Connection<U>)

  function Record<U>(log: Log<U>, answer: Answer<U>): Log<U> {
    match answer
    case Update(update) => log.(last := log.last.(updates := log.last.updates + [update]))
    case Failed(status) => log.(last := log.last.(failures := log.last.failures + [Refused(status)]))
    case StreamEnd => log.(last := log.last.(failures := log.last.failures + [Closed]))
    case Opened => Log(log.earlier + [log.last], Connection([], []))
    case NotReady => log
    case Elapsed => log
  }

  /** The connections the answers tell of, whatever the stream made of them. */
  function LogOf<U>(heard: seq<Answer<U>>): Log<U> {
    if heard == [] then Log([], Connection([], []))
    else Record(LogOf(heard[..|heard| - 1]), heard[|heard| - 1])
  }

  /** Failures since the last delivered event, at the end of the log. */
  function Outstanding<U, T>(cfg: Config<U, T>, log: Log<U>): nat
    decreases |log.earlier|, 1
  {
    (if Visible(cfg.feed, log.last.updates) == [] then Carried(cfg, log.earlier) else 0)
    + |log.last.failures|
  }

  /** Those a new connection starts with. */
  function Carried<U, T>(cfg: Config<U, T>, earlier: seq<Connection<U>>): nat
    decreases |earlier|, 0
  {
    if earlier == [] then 0 else Outstanding(cfg, Log(earlier[..|earlier| - 1], earlier[|earlier| - 1]))
  }

  /** The failure that makes `count` in a row is one the stream gives up on. */
  predicate Fatal<U, T>(cfg: Config<U, T>, count: nat, error: StreamError) {
    cfg.reconnect.None? || Terminal(error) || Exhausted(cfg.reconnect.value, count)
  }

  predicate GaveUp<U, T>(cfg: Config<U, T>, count: nat, failures: seq<StreamError>) {
    failures != [] && Fatal(cfg, count, failures[|failures| - 1])
  }

  function Delivered<T>(events: seq<Event<T>>): (items: seq<Item<T>>)
    ensures |items| == |events|
    ensures forall i :: 0 <= i < |events| ==> items[i] == Ok(events[i])
  {
    seq(|events|, i requires 0 <= i < |events| => Ok(events[i]))
  }

  /** What a subscriber is owed: connection by connection its visible events,
      joined by Reconnected with the failures outstanding, closed by the
      error the stream gave up on. */
  function Script<U, T>(cfg: Config<U, T>, log: Log<U>): seq<Item<T>>
    decreases |log.earlier|, 1
  {
    Joined(cfg, log.earlier)
    + Delivered(Visible(cfg.feed, log.last.updates))
    + Closing(cfg, Outstanding(cfg, log), log.last.failures)
  }

  /** The script up to the moment the next connection has opened. */
  function Joined<U, T>(cfg: Config<U, T>, earlier: seq<Connection<U>>): seq<Item<T>>
    decreases |earlier|, 0
  {
    if earlier == [] then [] else
    Script(cfg, Log(earlier[..|earlier| - 1], earlier[|earlier| - 1]))
    + [Ok(Reconnected(Carried(cfg, earlier)))]
  }

  function Closing<U, T>(cfg: Config<U, T>, count: nat, failures: seq<StreamError>): seq<Item<T>> {
    if GaveUp(cfg, count, failures) then [Err(failures[|failures| - 1])] else []
  }

  /** How the items and fields follow from the connections. */
  ghost predicate Agrees<U, T>(cfg: Config<U, T>, t: Trace<T>, log: Log<U>) {
    var count := Outstanding(cfg, log);
    && t.items == Script(cfg, log)
    && t.core.attempts == (if cfg.reconnect.None? then 0 else count)
    && t.core.framed == (!cfg.feed.slotFraming || Visible(cfg.feed, log.last.updates) != [])
    && (t.core.state.Streaming? <==> log.last.failures == [])
    && (t.core.state.Ended? <==> GaveUp(cfg, count, log.last.failures))
    && (cfg.reconnect.None? ==> log.earlier == [])
  }

  /** The poll loop's run is the script of its connections: items, attempt
      counter, framing flag and state all follow from the log of updates and
      failures, for every sequence of answers. */
  lemma {:induction false} RunIsScript<U, T>(cfg: Config<U, T>, heard: seq<Answer<U>>)
    requires Asked(cfg, heard)
    ensures Agrees(cfg, Run(cfg, heard), LogOf(heard))
  {
    if heard == [] {
      NothingVisible(cfg.feed);
    } else {
      var front := heard[..|heard| - 1];
      RunIsScript(cfg, front);
      StepAgrees(cfg, Run(cfg, front), LogOf(front), heard[|heard| - 1]);
    }
  }

  lemma {:induction false} NothingVisible<U, T>(feed: FeedUpdate<U, T>)
    ensures Visible(feed, []) == []
  {}

  lemma {:induction false} StepAgrees<U, T>(cfg: Config<U, T>, t: Trace<T>, log: Log<U>, answer: Answer<U>)
    requires Agrees(cfg, t, log) && Asks(t.core.state, answer)
    ensures Agrees(cfg, Step(cfg, t, answer), Record(log, answer))
  {
    match answer
    case Update(update) => UpdateAgrees(cfg, t, log, update);
    case Failed(status) => FailureAgrees(cfg, t, log, Refused(status));
    case StreamEnd => FailureAgrees(cfg, t, log, Closed);
    case Opened =>
      NothingVisible(cfg.feed);
      assert (log.earlier + [log.last])[..|log.earlier|] == log.earlier;
    case Elapsed =>
  }

  lemma {:induction false} UpdateAgrees<U, T>(cfg: Config<U, T>, t: Trace<T>, log: Log<U>, update: U)
    requires Agrees(cfg, t, log) && t.core.state.Streaming?
    ensures Agrees(cfg, AfterUpdate(cfg, t, update), Record(log, Update(update)))
  {
    hide Visible, Joined, Carried;
    var seen := Visible(cfg.feed, log.last.updates);
    var seen' := Visible(cfg.feed, log.last.updates + [update]);
    VisibleSnoc(cfg.feed, log.last.updates, update);
    if seen' != seen {
      var event := cfg.feed.intoEvent(update).value;
      assert Delivered(seen') == Delivered(seen) + [Ok(event)];
    }
  }

  lemma {:induction false} FailureAgrees<U, T>(cfg: Config<U, T>, t: Trace<T>, log: Log<U>, error: StreamError)
    requires Agrees(cfg, t, log) && (t.core.state.Streaming? || t.core.state.Connecting?)
    ensures var failed := log.(last := log.last.(failures := log.last.failures + [error]));
            Agrees(cfg, AfterFailure(cfg, t, error), failed)
  {
    RetryableIff(error);
  }
}
