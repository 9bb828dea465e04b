/** The stream object (preconfs-client/src/stream.rs:173-294). Its inner futures
    are an environment: the sequence of answers polling them will return. */
module EventStreams {
  import opened Wrappers
  import opened Error
  import opened Backoff
  import opened Events
  import opened StreamSpec
  import opened StreamLemmas
  import opened Proto

  datatype Poll<+T> = Pending | Ready(value: T)

  class EventStream<U(!new), T(!new)> {
    const feed: FeedUpdate<U, T>
    const request: SubscribeRequest
    const reconnect: Option<Reconnect>
    var state: State
    /** Failures in a row, as the retry policy counts them. */
    var attempts: nat
    /** Nothing is held back: a SlotStart came, or the feed has none. */
    var framed: bool

    /** What the inner futures have still to answer. */
    var env: seq<Answer<U>>

    ghost var heard: seq<Answer<U>>
    ghost var items: seq<Item<T>>
    ghost var sleeps: seq<Duration>
    /** Every subscribe sent, the one that opened the stream first. */
    ghost var sent: seq<SubscribeRequest>

    ghost function Cfg(): Config<U, T> {
      Config(feed, reconnect)
    }

    ghost function View(): Trace<T>
      reads this
      requires sent != []
    {
      Trace(Core(state, attempts, framed), items, sleeps, |sent| - 1)
    }

    ghost predicate Valid()
      reads this
    {
      && sent != [] && (forall k :: 0 <= k < |sent| ==> sent[k] == request)
      && Asked(Cfg(), heard)
      && View() == Run(Cfg(), heard)
    }

    /** In every reachable state the items are the script of what was heard. */
    lemma {:induction false} ItemsAreScript()
      requires Valid()
      ensures items == Script(Cfg(), LogOf(heard))
    {
      RunIsScript(Cfg(), heard);
    }

    /** Nothing that is left to answer will be heard. */
    lemma {:induction false} RestUnheard()
      requires Valid() && (state.Ended? || env == [])
      ensures Hear(Cfg(), heard, env) == heard
    {
      if state.Ended? {
        EndedIsFinal(Cfg(), heard, env);
      }
    }

    /** The stream of a subscribe that was accepted. */
    constructor (
      feed: FeedUpdate<U, T>, request: SubscribeRequest, reconnect: Option<Reconnect>, env: seq<Answer<U>>)
      ensures Valid()
      ensures this.feed == feed && this.request == request && this.reconnect == reconnect
      ensures this.env == env && heard == [] && items == []
    {
      this.feed, this.request, this.reconnect := feed, request, reconnect;
      state, attempts, framed := Streaming, 0, !feed.slotFraming;
      this.env := env;
      heard, items, sleeps, sent := [], [], [], [request];
    }

    /** Polls the future of the current state. */
    method PollInner() returns (answer: Answer<U>)
      modifies this`env
      ensures answer.NotReady? || Asks(state, answer)
      ensures old(env) == [] ==> env == [] && answer == NotReady
      ensures old(env) != [] ==> env == old(env)[1..] &&
                                 answer == if Asks(state, old(env)[0]) then old(env)[0] else NotReady
    {
      if env == [] {
        return NotReady;
      }
      answer, env := env[0], env[1..];
      if !Asks(state, answer) {
        answer := NotReady;
      }
    }

    /** Decides what a failure means: a retry is scheduled, or the error comes
        back to be yielded. */
    method Fail(error: StreamError) returns (fatal: Option<StreamError>)
      requires sent != []
      modifies this`state, this`attempts, this`sleeps
      ensures if fatal == None then state.Waiting? else fatal == Some(error) && state.Ended?
      ensures View().(items := items + if fatal == None then [] else [Err(error)])
              == AfterFailure(Cfg(), old(View()), error)
    {
      if reconnect.None? {
        state := Ended;
        return Some(error);
      }
      attempts := attempts + 1;
      if !Retryable(error) || Exhausted(reconnect.value, attempts) {
        state := Ended;
        return Some(error);
      }
      var delay := Interval(reconnect.value, attempts);
      state, sleeps := Waiting(delay), sleeps + [delay];
      return None;
    }

    method Resubscribe()
      modifies this`state, this`sent
      ensures state == Connecting && sent == old(sent) + [request]
    {
      state, sent := Connecting, sent + [request];
    }

    /** One turn of the poll loop, on a ready answer: the item to return, or
        nothing to go round again. */
    method Turn(answer: Answer<U>) returns (item: Option<Item<T>>)
      requires Valid() && Asks(state, answer)
      modifies this`state, this`attempts, this`framed, this`heard, this`items, this`sleeps, this`sent
      ensures Valid()
      ensures heard == old(heard) + [answer]
      ensures items == old(items) + if item.Some? then [item.value] else []
      ensures state.Ended? ==> item.Some?
    {
      hide Run, Asked, AfterFailure, Interval;
      RunSnoc(Cfg(), heard, answer);
      heard := heard + [answer];
      match state {
        case Waiting(_) =>
          Resubscribe();
          return None;
        case Connecting =>
          if answer.Opened? {
            item := Some(Ok(Reconnected(attempts)));
            state := Streaming;
            framed := !feed.slotFraming;
          } else {
            var error := Fail(Refused(answer.status));
            if error.None? {
              return None;
            }
            item := Some(Err(error.value));
          }
        case Streaming =>
          if answer.Update? {
            var event := feed.intoEvent(answer.update);
            if event.None? {
              return None;
            }
            if !framed {
              if !event.value.SlotStart? {
                return None;
              }
              framed := true;
            }
            attempts := 0;
            item := Some(Ok(event.value));
          } else {
            var error := Fail(if answer.Failed? then Refused(answer.status) else Closed);
            if error.None? {
              return None;
            }
            item := Some(Err(error.value));
          }
      }
      items := items + [item.value];
    }

    /** One poll: hears answers until one of them makes an item, or is not
        ready. Nothing is yielded but what the run of the heard answers yields,
        and an ended stream says so without polling anything. */
    method PollNext() returns (r: Poll<Option<Item<T>>>)
      requires Valid()
      modifies this
      ensures Valid()
      ensures old(state.Ended?) <==> r == Ready(None)
      ensures old(state.Ended?) ==> unchanged(this)
      ensures r.Ready? && r.value.Some? ==> items == old(items) + [r.value.value] && |env| < |old(env)|
      ensures r.Pending? ==> items == old(items) && !state.Ended?
      ensures |env| <= |old(env)| && env == old(env)[|old(env)| - |env|..]
      ensures heard == Hear(Cfg(), old(heard), old(env)[..|old(env)| - |env|])
      ensures !old(state.Ended?) && old(env) != [] ==> |env| < |old(env)|
      ensures r.Pending? ==> env == [] || |heard| - |old(heard)| < |old(env)| - |env|
    {
      hide Run, Asked, Hear;
      HearNothing(Cfg(), heard);
      if state.Ended? {
        return Ready(None);
      }
      while true
        invariant Valid() && items == old(items) && !state.Ended?
        invariant |env| <= |old(env)| && env == old(env)[|old(env)| - |env|..]
        invariant |heard| - |old(heard)| == |old(env)| - |env|
        invariant heard == Hear(Cfg(), old(heard), old(env)[..|old(env)| - |env|])
        decreases |env|
      {
        ghost var rest, used := env, old(env)[..|old(env)| - |env|];
        var answer := PollInner();
        if rest != [] {
          assert old(env)[..|old(env)| - |env|] == used + [rest[0]];
          HearSnoc(Cfg(), old(heard), used, rest[0]);
        }
        if answer.NotReady? {
          return Pending;
        }
        var item := Turn(answer);
        if item.Some? {
          return Ready(item);
        }
      }
    }

    /** `next().await`: polls again whenever the environment may have moved on. */
    method Next() returns (r: Poll<Option<Item<T>>>)
      requires Valid()
      modifies this
      ensures Valid()
      ensures old(state.Ended?) <==> r == Ready(None)
      ensures old(state.Ended?) ==> unchanged(this)
      ensures items == old(items) + if r.Ready? && r.value.Some? then [r.value.value] else []
      ensures r.Pending? ==> env == []
      ensures |env| <= |old(env)| && env == old(env)[|old(env)| - |env|..]
      ensures heard == Hear(Cfg(), old(heard), old(env)[..|old(env)| - |env|])
      ensures r.Ready? && r.value.Some? ==> |env| < |old(env)|
    {
      hide Run, Asked, Hear;
      r := PollNext();
      while r.Pending? && env != []
        invariant Valid()
        invariant old(state.Ended?) <==> r == Ready(None)
        invariant r.Pending? ==> !state.Ended?
        invariant old(state.Ended?) ==> unchanged(this)
        invariant items == old(items) + if r.Ready? && r.value.Some? then [r.value.value] else []
        invariant |env| <= |old(env)| && env == old(env)[|old(env)| - |env|..]
        invariant heard == Hear(Cfg(), old(heard), old(env)[..|old(env)| - |env|])
        invariant r.Ready? && r.value.Some? ==> |env| < |old(env)|
        decreases |env|
      {
        ghost var rest, used, so := env, old(env)[..|old(env)| - |env|], heard;
        r := PollNext();
        ghost var more := rest[..|rest| - |env|];
        assert old(env)[..|old(env)| - |env|] == used + more;
        HearConcat(Cfg(), old(heard), used, more);
      }
    }

    /** A subscriber's loop: collects items until the stream ends, or the
        environment has nothing more to answer. */
    method Collect() returns (collected: seq<Item<T>>)
      requires Valid()
      modifies this
      ensures Valid()
      ensures items == old(items) + collected
      ensures heard == Hear(Cfg(), old(heard), old(env))
      ensures items == Script(Cfg(), LogOf(heard))
    {
      hide *;
      collected := [];
      var r := Next();
      while r.Ready? && r.value.Some?
        invariant Valid()
        invariant r == Ready(None) ==> state.Ended?
        invariant r.Pending? ==> env == []
        invariant items == old(items) + collected + if r.Ready? && r.value.Some? then [r.value.value] else []
        invariant |env| <= |old(env)| && env == old(env)[|old(env)| - |env|..]
        invariant heard == Hear(Cfg(), old(heard), old(env)[..|old(env)| - |env|])
        decreases |env|, r.Ready? && r.value.Some?
      {
        collected := collected + [r.value.value];
        ghost var rest, used := env, old(env)[..|old(env)| - |env|];
        r := Next();
        ghost var more := rest[..|rest| - |env|];
        assert old(env)[..|old(env)| - |env|] == used + more;
        HearConcat(Cfg(), old(heard), used, more);
      }
      ghost var used := old(env)[..|old(env)| - |env|];
      assert old(env) == used + env;
      HearConcat(Cfg(), old(heard), used, env);
      RestUnheard();
      ItemsAreScript();
    }
  }
}
