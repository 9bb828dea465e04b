/** Whole-run properties of a stream: where Pending falls does not matter, how a
    run ends, and what the retry budget bounds. */
module StreamLemmas {
  import opened Wrappers
  import opened Error
  import opened Backoff
  import opened Events
  import opened StreamSpec

  // ----- arbitrary answer sequences -----

  /** The answers of `tape` a stream that has heard `heard` goes on to hear, when
      it is polled until the tape is used up. */
  function Hear<U, T>(cfg: Config<U, T>, heard: seq<Answer<U>>, tape: seq<Answer<U>>): seq<Answer<U>>
    decreases |tape|
  {
    if tape == [] then heard else
    Hear(cfg, if Asks(Run(cfg, heard).core.state, tape[0]) then heard + [tape[0]] else heard, tape[1..])
  }

  /** The tape without its Pending answers. */
  function Ready<U>(tape: seq<Answer<U>>): seq<Answer<U>> {
    if tape == [] then [] else
    (if tape[0].NotReady? then [] else [tape[0]]) + Ready(tape[1..])
  }

  /** Whatever the environment answers, what is heard is a run of asked answers. */
  lemma {:induction false} HearIsAsked<U, T>(cfg: Config<U, T>, heard: seq<Answer<U>>, tape: seq<Answer<U>>)
    requires Asked(cfg, heard)
    ensures Asked(cfg, Hear(cfg, heard, tape))
    decreases |tape|
  {
    if tape == [] {
    } else {
      RunSnoc(cfg, heard, tape[0]);
      if Asks(Run(cfg, heard).core.state, tape[0]) {
        HearIsAsked(cfg, heard + [tape[0]], tape[1..]);
      } else {
        HearIsAsked(cfg, heard, tape[1..]);
      }
    }
  }

  /** Hearing a tape in two parts is hearing it whole. */
  lemma {:induction false} HearConcat<U, T>(
    cfg: Config<U, T>, heard: seq<Answer<U>>, tape: seq<Answer<U>>, more: seq<Answer<U>>)
    ensures Hear(cfg, heard, tape + more) == Hear(cfg, Hear(cfg, heard, tape), more)
    decreases |tape|
  {
    if tape == [] {
      assert tape + more == more;
    } else {
      var next := if Asks(Run(cfg, heard).core.state, tape[0]) then heard + [tape[0]] else heard;
      assert (tape + more)[1..] == tape[1..] + more;
      HearConcat(cfg, next, tape[1..], more);
    }
  }

  lemma {:induction false} HearNothing<U, T>(cfg: Config<U, T>, heard: seq<Answer<U>>)
    ensures Hear(cfg, heard, []) == heard
  {}

  lemma {:induction false} HearSnoc<U, T>(
    cfg: Config<U, T>, heard: seq<Answer<U>>, tape: seq<Answer<U>>, answer: Answer<U>)
    ensures var so := Hear(cfg, heard, tape);
            Hear(cfg, heard, tape + [answer]) ==
              if Asks(Run(cfg, so).core.state, answer) then so + [answer] else so
  {
    HearConcat(cfg, heard, tape, [answer]);
    var so := Hear(cfg, heard, tape);
    var next := if Asks(Run(cfg, so).core.state, answer) then so + [answer] else so;
    assert [answer][1..] == [];
    assert Hear(cfg, next, [answer][1..]) == next;
  }

  /** Two environments that answer the same apart from Pending make the stream
      yield the same items, sleep the same delays and end in the same state. */
  lemma {:induction false} PendingDoesNotMatter<U, T>(cfg: Config<U, T>, tape: seq<Answer<U>>, other: seq<Answer<U>>)
    requires Ready(tape) == Ready(other)
    ensures Run(cfg, Hear(cfg, [], tape)) == Run(cfg, Hear(cfg, [], other))
  {
    HearReady(cfg, [], tape);
    HearReady(cfg, [], other);
  }

  lemma {:induction false} HearReady<U, T>(cfg: Config<U, T>, heard: seq<Answer<U>>, tape: seq<Answer<U>>)
    ensures Hear(cfg, heard, tape) == Hear(cfg, heard, Ready(tape))
    decreases |tape|
  {
    if tape == [] {
    } else {
      var next := if Asks(Run(cfg, heard).core.state, tape[0]) then heard + [tape[0]] else heard;
      HearReady(cfg, next, tape[1..]);
      if tape[0].NotReady? {
        assert Ready(tape) == Ready(tape[1..]);
      } else {
        var ready := Ready(tape);
        assert ready[0] == tape[0] && ready[1..] == Ready(tape[1..]);
        assert Hear(cfg, heard, ready) == Hear(cfg, next, ready[1..]);
      }
    }
  }

  /** For every environment: the items are the script of the connections the
      heard answers tell of. */
  lemma {:induction false} AnyTapeFollowsScript<U, T>(cfg: Config<U, T>, tape: seq<Answer<U>>)
    ensures var heard := Hear(cfg, [], tape);
            Run(cfg, heard).items == Script(cfg, LogOf(heard))
  {
    HearIsAsked(cfg, [], tape);
    RunIsScript(cfg, Hear(cfg, [], tape));
  }

  // ----- what a stream listens to -----

  predicate IsFailure<U>(answer: Answer<U>) {
    answer.Failed? || answer.StreamEnd?
  }

  /** What is taken up next, told from the answers heard: on an unbroken
      connection an update, a status or its end; after a failure first the end
      of the sleep, then a new connection or its refusal; nothing once the
      stream gave up. */
  predicate ListensTo<U, T>(cfg: Config<U, T>, heard: seq<Answer<U>>, answer: Answer<U>) {
    var log := LogOf(heard);
    if log.last.failures == [] then answer.Update? || IsFailure(answer)
    else if GaveUp(cfg, Outstanding(cfg, log), log.last.failures) then false
    else if IsFailure(heard[|heard| - 1]) then answer.Elapsed?
    else answer.Opened? || answer.Failed?
  }

  /** Whether a stream sleeps or connects shows in the last answer it heard. */
  lemma {:induction false} LastAnswerTells<U, T>(cfg: Config<U, T>, heard: seq<Answer<U>>)
    requires Asked(cfg, heard)
    ensures Run(cfg, heard).core.state.Waiting? ==> heard != [] && IsFailure(heard[|heard| - 1])
    ensures Run(cfg, heard).core.state.Connecting? ==> heard != [] && !IsFailure(heard[|heard| - 1])
  {
    hide Interval, Retryable;
  }

  /** The stream takes up the next answer exactly when it listens to it. */
  lemma {:induction false} HeardIff<U, T>(cfg: Config<U, T>, heard: seq<Answer<U>>, answer: Answer<U>)
    requires Asked(cfg, heard)
    ensures Hear(cfg, heard, [answer]) == if ListensTo(cfg, heard, answer) then heard + [answer] else heard
  {
    hide Script, Outstanding, Retryable, Terminal;
    RunIsScript(cfg, heard);
    LastAnswerTells(cfg, heard);
    HearNothing(cfg, heard);
    HearSnoc(cfg, heard, [], answer);
    assert [] + [answer] == [answer];
  }

  /** With a policy and no limit, a first status ends the stream when its code
      is about the request or the token and is waited out when it is any other;
      a closed connection is always waited out. */
  lemma {:induction false} FirstFailure<U, T>(cfg: Config<U, T>, code: Code, message: string)
    requires cfg.reconnect.Some? && cfg.reconnect.value.maxRetries.None?
    ensures Run(cfg, [Failed(Status(code, message))]).core.state ==
              if code.CodeOk? || code.Unauthenticated? || code.PermissionDenied? || code.InvalidArgument?
                || code.FailedPrecondition? || code.NotFound? || code.AlreadyExists? || code.OutOfRange?
                || code.Unimplemented?
              then Ended
              else Waiting(Interval(cfg.reconnect.value, 1))
    ensures Run(cfg, [StreamEnd]).core.state == Waiting(Interval(cfg.reconnect.value, 1))
  {
    hide Interval;
    var refused: Answer<U>, closed: Answer<U> := Failed(Status(code, message)), StreamEnd;
    RunSnoc(cfg, [], refused);
    RunSnoc(cfg, [], closed);
    assert [] + [refused] == [refused] && [] + [closed] == [closed];
  }

  // ----- how a run ends -----

  /** At most one error, last, and exactly the ended streams have one. */
  predicate ErrorMarksEnd<T>(t: Trace<T>) {
    && (forall i :: 0 <= i < |t.items| - 1 ==> t.items[i].Ok?)
    && (t.core.state.Ended? <==> t.items != [] && t.items[|t.items| - 1].Err?)
  }

  lemma {:induction false} ErrorStep<U, T>(cfg: Config<U, T>, t: Trace<T>, answer: Answer<U>)
    requires ErrorMarksEnd(t) && Asks(t.core.state, answer)
    ensures ErrorMarksEnd(Step(cfg, t, answer))
  {
    hide Interval, Retryable;
  }

  /** In every run the error, if any, is the last item and comes with the end. */
  lemma {:induction false} ErrorIsLast<U, T>(cfg: Config<U, T>, heard: seq<Answer<U>>)
    ensures ErrorMarksEnd(Run(cfg, heard))
  {
    if heard == [] {
    } else {
      hide ErrorMarksEnd, Step;
      var front, answer := heard[..|heard| - 1], heard[|heard| - 1];
      ErrorIsLast(cfg, front);
      if Asks(Run(cfg, front).core.state, answer) {
        ErrorStep(cfg, Run(cfg, front), answer);
      }
    }
  }

  lemma {:induction false} EndedIsFinal<U, T>(cfg: Config<U, T>, heard: seq<Answer<U>>, tape: seq<Answer<U>>)
    requires Run(cfg, heard).core.state.Ended?
    ensures Hear(cfg, heard, tape) == heard
    decreases |tape|
  {
    if tape == [] {
    } else {
      EndedIsFinal(cfg, heard, tape[1..]);
    }
  }

  function FailureOf<U>(answer: Answer<U>): Option<StreamError> {
    match answer
    case Failed(status) => Some(Refused(status))
    case StreamEnd => Some(Closed)
    case _ => None
  }

  /** All failures heard, oldest first. */
  function Failures<U>(heard: seq<Answer<U>>): (f: seq<StreamError>)
    ensures |f| <= |heard|
  {
    if heard == [] then [] else
    match FailureOf(heard[|heard| - 1])
    case None => Failures(heard[..|heard| - 1])
    case Some(error) => Failures(heard[..|heard| - 1]) + [error]
  }

  predicate AnyTerminal(failures: seq<StreamError>) {
    exists i :: 0 <= i < |failures| && Terminal(failures[i])
  }

  lemma {:induction false} AnyTerminalSnoc(failures: seq<StreamError>, error: StreamError)
    ensures AnyTerminal(failures + [error]) <==> AnyTerminal(failures) || Terminal(error)
  {
    hide Terminal;
    var all := failures + [error];
    assert all[|failures|] == error;
    assert forall i :: 0 <= i < |failures| ==> all[i] == failures[i];
  }

  /** With reconnect on and no retry limit, a stream ends exactly when some
      failure heard is a status about the request or the token. */
  lemma {:induction false} EndsOnlyOnTerminal<U, T>(cfg: Config<U, T>, heard: seq<Answer<U>>)
    requires Asked(cfg, heard) && cfg.reconnect.Some? && cfg.reconnect.value.maxRetries.None?
    ensures Run(cfg, heard).core.state.Ended? <==> AnyTerminal(Failures(heard))
  {
    if heard == [] {
    } else {
      hide Interval, Retryable, Terminal, AnyTerminal;
      var front, answer := heard[..|heard| - 1], heard[|heard| - 1];
      EndsOnlyOnTerminal(cfg, front);
      if FailureOf(answer).Some? {
        RetryableIff(FailureOf(answer).value);
        AnyTerminalSnoc(Failures(front), FailureOf(answer).value);
      }
    }
  }

  predicate IsReconnected<T>(item: Item<T>) {
    item.Ok? && item.value.Reconnected?
  }

  /** No event of the feed itself is a Reconnected. */
  ghost predicate Lawful<U(!new), T>(feed: FeedUpdate<U, T>) {
    forall u: U :: feed.intoEvent(u).Some? ==> !feed.intoEvent(u).value.Reconnected?
  }

  lemma {:induction false} BothFeedsAreLawful()
    ensures Lawful(HARMONIC) && Lawful(BAM)
  {}

  /** A BAM stream tells of transactions, notices and reconnects, and of no slot
      boundary. */
  lemma {:induction false} BamHasNoFraming(
    cfg: Config<BamUpdate, BamTransaction>, heard: seq<Answer<BamUpdate>>, i: nat)
    requires cfg.feed == BAM && i < |Run(cfg, heard).items| && Run(cfg, heard).items[i].Ok?
    ensures var event := Run(cfg, heard).items[i].value;
            event.Transaction? || event.Clip? || event.Reconnected?
  {
    hide Interval, Retryable;
    var n := |heard| - 1;
    if i < |Run(cfg, heard[..n]).items| {
      BamHasNoFraming(cfg, heard[..n], i);
    }
  }

  /** With reconnect off the first failure ends the stream: it sleeps never,
      resubscribes never and reports no Reconnected. */
  lemma {:induction false} NoReconnect<U(!new), T>(cfg: Config<U, T>, heard: seq<Answer<U>>)
    requires Asked(cfg, heard) && cfg.reconnect.None? && Lawful(cfg.feed)
    ensures var t := Run(cfg, heard);
            && (forall i :: 0 <= i < |t.items| ==> !IsReconnected(t.items[i]))
            && t.sleeps == [] && t.subscribes == 0 && |Failures(heard)| <= 1
            && (t.core.state.Ended? <==> Failures(heard) != [])
            && (t.core.state.Ended? || t.core.state.Streaming?)
  {
    if heard == [] {
    } else {
      NoReconnect(cfg, heard[..|heard| - 1]);
    }
  }

  // ----- the retry budget -----

  /** The answer made the stream deliver an event of the feed. */
  predicate Delivers<U, T>(cfg: Config<U, T>, t: Trace<T>, answer: Answer<U>) {
    t.core.state.Streaming? && answer.Update? && |AfterUpdate(cfg, t, answer.update).items| > |t.items|
  }

  /** The run continued from `t`. */
  function RunFrom<U, T>(cfg: Config<U, T>, t: Trace<T>, more: seq<Answer<U>>): Trace<T> {
    if more == [] then t else
    var u, answer := RunFrom(cfg, t, more[..|more| - 1]), more[|more| - 1];
    if Asks(u.core.state, answer) then Step(cfg, u, answer) else u
  }

  /** None of the answers `more`, heard from `t` on, delivers an event. */
  predicate Quiet<U, T>(cfg: Config<U, T>, t: Trace<T>, more: seq<Answer<U>>) {
    more == [] ||
    (var front := more[..|more| - 1];
     Quiet(cfg, t, front) && !Delivers(cfg, RunFrom(cfg, t, front), more[|more| - 1]))
  }

  /** Every further answer was one the stream polled for. */
  predicate AskedFrom<U, T>(cfg: Config<U, T>, t: Trace<T>, more: seq<Answer<U>>) {
    more == [] ||
    (var front := more[..|more| - 1];
     AskedFrom(cfg, t, front) && Asks(RunFrom(cfg, t, front).core.state, more[|more| - 1]))
  }

  lemma {:induction false} RunConcat<U, T>(cfg: Config<U, T>, heard: seq<Answer<U>>, more: seq<Answer<U>>)
    ensures Run(cfg, heard + more) == RunFrom(cfg, Run(cfg, heard), more)
    ensures Asked(cfg, heard + more) <==> Asked(cfg, heard) && AskedFrom(cfg, Run(cfg, heard), more)
    decreases |more|
  {
    hide Step;
    if more == [] {
      assert heard + more == heard;
    } else {
      var front, answer := more[..|more| - 1], more[|more| - 1];
      assert heard + more == (heard + front) + [answer];
      RunSnoc(cfg, heard + front, answer);
      RunConcat(cfg, heard, front);
    }
  }

  /** The stream has just started, or has just delivered an event. */
  predicate Fresh<U, T>(cfg: Config<U, T>, heard: seq<Answer<U>>) {
    heard == [] || Delivers(cfg, Run(cfg, heard[..|heard| - 1]), heard[|heard| - 1])
  }

  function ReconnectedCount<T>(items: seq<Item<T>>): nat {
    if items == [] then 0 else
    ReconnectedCount(items[..|items| - 1]) + (if IsReconnected(items[|items| - 1]) then 1 else 0)
  }

  /** Failures the stream absorbed: all of them, or all but the one that ended it. */
  function Swallowed<T>(t: Trace<T>, failures: int): int {
    if t.core.state.Ended? then failures - 1 else failures
  }

  /** A fresh stream streams and has no failure outstanding. */
  lemma {:induction false} FreshStart<U, T>(cfg: Config<U, T>, heard: seq<Answer<U>>)
    requires Fresh(cfg, heard)
    ensures Run(cfg, heard).core.state.Streaming?
    ensures Run(cfg, heard).core.attempts == 0
  {}

  /** A run that delivered nothing since `before`, told by its failures: they
      number the attempts, they schedule the sleeps 1, 2, 3, ..., they outnumber
      the Reconnected, and the last of them decides whether the stream ended. */
  ghost predicate QuietInv<U, T>(cfg: Config<U, T>, before: Trace<T>, t: Trace<T>, failed: seq<StreamError>)
    requires cfg.reconnect.Some?
  {
    var r, swallowed := cfg.reconnect.value, Swallowed(t, |failed|);
    && t.core.attempts == |failed|
    && 0 <= swallowed
    && t.sleeps == before.sleeps + Schedule(r, 1, swallowed)
    && before.items <= t.items
    && ReconnectedCount(t.items[|before.items|..]) + (if t.core.state.Streaming? then 0 else 1) <= |failed|
    && !Exhausted(r, swallowed)
    && (t.core.state.Ended? <==> failed != [] && Fatal(cfg, |failed|, failed[|failed| - 1]))
  }

  /** Between two delivered events a run is told by its failures. */
  lemma {:induction false} QuietRun<U, T>(cfg: Config<U, T>, t: Trace<T>, more: seq<Answer<U>>)
    requires cfg.reconnect.Some? && t.core.state.Streaming? && t.core.attempts == 0
    requires AskedFrom(cfg, t, more) && Quiet(cfg, t, more)
    ensures QuietInv(cfg, t, RunFrom(cfg, t, more), Failures(more))
    decreases |more|
  {
    hide Step;
    if more == [] {
    } else {
      var front := more[..|more| - 1];
      QuietRun(cfg, t, front);
      QuietStep(cfg, t, RunFrom(cfg, t, front), more[|more| - 1], Failures(front));
    }
  }

  lemma {:induction false} QuietStep<U, T>(
    cfg: Config<U, T>, before: Trace<T>, t: Trace<T>, answer: Answer<U>, failed: seq<StreamError>)
    requires cfg.reconnect.Some? && QuietInv(cfg, before, t, failed)
    requires Asks(t.core.state, answer) && !Delivers(cfg, t, answer)
    ensures var failure := FailureOf(answer);
            QuietInv(cfg, before, Step(cfg, t, answer), if failure.None? then failed else failed + [failure.value])
  {
    match answer
    case Update(update) =>
    case Failed(status) => QuietFailure(cfg, before, t, Refused(status), failed);
    case StreamEnd => QuietFailure(cfg, before, t, Closed, failed);
    case Elapsed =>
    case Opened => ReconnectedSnoc(before.items, t.items, Ok(Reconnected(t.core.attempts)));
  }

  lemma {:induction false} ReconnectedSnoc<T>(before: seq<Item<T>>, items: seq<Item<T>>, item: Item<T>)
    requires before <= items
    ensures before <= items + [item]
    ensures ReconnectedCount((items + [item])[|before|..])
            == ReconnectedCount(items[|before|..]) + (if IsReconnected(item) then 1 else 0)
  {
    var tail := items[|before|..];
    assert (items + [item])[|before|..] == tail + [item];
    assert (tail + [item])[..|tail|] == tail;
  }

  lemma {:induction false} QuietFailure<U, T>(
    cfg: Config<U, T>, before: Trace<T>, t: Trace<T>, error: StreamError, failed: seq<StreamError>)
    requires cfg.reconnect.Some? && QuietInv(cfg, before, t, failed) && !t.core.state.Ended?
    ensures QuietInv(cfg, before, AfterFailure(cfg, t, error), failed + [error])
  {
    RetryableIff(error);
    var failures := |failed|;
    var r, t' := cfg.reconnect.value, AfterFailure(cfg, t, error);
    if t'.core.state.Ended? {
      ReconnectedSnoc(before.items, t.items, Err(error));
    } else {
      assert Schedule(r, 1, failures + 1) == Schedule(r, 1, failures) + [Interval(r, failures + 1)];
    }
  }

  /** With a budget of n: between two delivered events at most n failures are
      swallowed and at most n Reconnected reported, the total sleep is that of
      the first n delays and at most n times the cap, the attempt counter stays
      within n + 1, and the stream ends at failure n + 1, or before it at a
      terminal one, and at no other. */
  lemma {:induction false} RetryBudget<U, T>(cfg: Config<U, T>, heard: seq<Answer<U>>, more: seq<Answer<U>>)
    requires Asked(cfg, heard + more) && cfg.reconnect.Some? && cfg.reconnect.value.maxRetries.Some?
    requires Fresh(cfg, heard) && Quiet(cfg, Run(cfg, heard), more)
    ensures var r, before, t := cfg.reconnect.value, Run(cfg, heard), Run(cfg, heard + more);
            var n, failures := r.maxRetries.value, |Failures(more)|;
            && 0 <= Swallowed(t, failures) <= n
            && before.items <= t.items && ReconnectedCount(t.items[|before.items|..]) <= n
            && before.sleeps <= t.sleeps
            && Total(t.sleeps[|before.sleeps|..]) <= Total(Schedule(r, 1, n)) <= n * r.maxInterval
            && t.core.attempts == failures <= n + 1
            && (t.core.state.Ended? <==>
                  failures == n + 1 || (failures > 0 && Terminal(Failures(more)[failures - 1])))
  {
    hide Interval, Step;
    RunConcat(cfg, heard, more);
    FreshStart(cfg, heard);
    QuietRun(cfg, Run(cfg, heard), more);
    var r, before, t := cfg.reconnect.value, Run(cfg, heard), Run(cfg, heard + more);
    var swallowed := Swallowed(t, |Failures(more)|);
    assert t.sleeps[|before.sleeps|..] == Schedule(r, 1, swallowed);
    ScheduleGrows(r, 1, swallowed, r.maxRetries.value);
    ScheduleTotal(r, 1, r.maxRetries.value);
  }

  /** The counter is at most the failures heard, and at most one past the
      budget: below 2^32 - 1 of either, the source's u32 never overflows. */
  lemma {:induction false} AttemptsBounded<U, T>(cfg: Config<U, T>, heard: seq<Answer<U>>)
    ensures var t := Run(cfg, heard);
            && t.core.attempts <= |Failures(heard)|
            && (cfg.reconnect.Some? && cfg.reconnect.value.maxRetries.Some? ==>
                  t.core.attempts <= cfg.reconnect.value.maxRetries.value + 1
                  && (!t.core.state.Ended? ==> t.core.attempts <= cfg.reconnect.value.maxRetries.value))
  {
    hide Interval, Retryable;
    if heard == [] {
    } else {
      AttemptsBounded(cfg, heard[..|heard| - 1]);
    }
  }

  // ----- attempt accounting -----

  /** The failures among the answers since the last one that delivered. */
  function FailuresSinceEvent<U, T>(cfg: Config<U, T>, heard: seq<Answer<U>>): nat {
    if heard == [] then 0 else
    var front, answer := heard[..|heard| - 1], heard[|heard| - 1];
    if Delivers(cfg, Run(cfg, front), answer) then 0
    else FailuresSinceEvent(cfg, front) + (if FailureOf(answer).Some? then 1 else 0)
  }

  /** While it waits or connects, a stream has a retry policy, at least one
      failure behind it, and waits exactly the delay of its attempt; the
      counter is `since`. Every sleep that ended sent one subscribe, and no
      other did. */
  predicate Accounted<U, T>(cfg: Config<U, T>, t: Trace<T>, since: nat) {
    var c := t.core;
    && (c.state.Waiting? || c.state.Connecting? ==> cfg.reconnect.Some? && c.attempts >= 1)
    && (c.state.Waiting? ==> c.state.delay == Interval(cfg.reconnect.value, c.attempts))
    && (cfg.reconnect.Some? ==> c.attempts == since)
    && t.subscribes + (if c.state.Waiting? then 1 else 0) == |t.sleeps|
  }

  lemma {:induction false} AccountStep<U, T>(cfg: Config<U, T>, t: Trace<T>, answer: Answer<U>, since: nat)
    requires Accounted(cfg, t, since) && Asks(t.core.state, answer)
    ensures Accounted(cfg, Step(cfg, t, answer),
                      if Delivers(cfg, t, answer) then 0
                      else since + (if FailureOf(answer).Some? then 1 else 0))
  {
    hide Interval, Retryable;
  }

  /** In every run the counter is the failures since the last delivered event,
      whatever pings, held-back updates and Reconnected came between. */
  lemma {:induction false} AttemptAccounting<U, T>(cfg: Config<U, T>, heard: seq<Answer<U>>)
    requires Asked(cfg, heard)
    ensures Accounted(cfg, Run(cfg, heard), FailuresSinceEvent(cfg, heard))
  {
    if heard == [] {
    } else {
      hide Accounted, Step, Delivers;
      var front := heard[..|heard| - 1];
      AttemptAccounting(cfg, front);
      AccountStep(cfg, Run(cfg, front), heard[|heard| - 1], FailuresSinceEvent(cfg, front));
    }
  }

  /** A Reconnected carries the failures since the last delivered event, the
      drop included. */
  lemma {:induction false} ReconnectedCarriesFailures<U, T>(cfg: Config<U, T>, heard: seq<Answer<U>>)
    requires Asked(cfg, heard + [Opened])
    ensures Run(cfg, heard + [Opened]).items
            == Run(cfg, heard).items + [Ok(Reconnected(FailuresSinceEvent(cfg, heard)))]
    ensures FailuresSinceEvent(cfg, heard) >= 1
  {
    RunSnoc(cfg, heard, Opened);
    AttemptAccounting(cfg, heard);
  }
}
