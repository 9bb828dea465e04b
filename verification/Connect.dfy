/** The gate in front of a stream (preconfs-client/src/connect.rs:298-321): the
    region must be of the feed, the filters within the limits. */
module Connect {
  import opened Wrappers
  import opened Error
  import opened Backoff
  import opened Events
  import opened Feeds
  import opened Filters
  import opened Limits
  import opened StreamSpec
  import opened StreamLemmas
  import opened EventStreams
  import P = Proto

  datatype SubscribeError =
    | BadRegion(region: RegionError)
    | BadFilter(filter: FilterError)
    | Rejected(status: Status)

  /** Which feed a request's region is numbered in. */
  function FeedOfRequest(request: P.SubscribeRequest): Option<Feed> {
    match request.region
    case None => None
    case Some(HarmonicNumber(_)) => Some(Harmonic)
    case Some(BamNumber(_)) => Some(Bam)
  }

  /** What every subscribe a stream sends must be. */
  ghost predicate Sendable(request: P.SubscribeRequest, feed: Feed) {
    FeedOfRequest(request) == Some(feed) && RequestOk(request.transactions)
  }

  /** The request of a filter set for a region. */
  function RequestFor(text: Base58, filters: NamedFilters, region: Region): P.SubscribeRequest {
    P.SubscribeRequest(Lowered(text, filters), Some(IntoProto(region)))
  }

  /** Opens a stream. `first` is what the server answers to the first subscribe,
      which is not retried; `env` is what it answers from then on. The stream
      exists only when the region is of the feed, every limit holds and the
      server accepted, and then its request, which is all it ever sends, names a
      region of the feed and is within every limit. */
  method Subscribe<U(!new), T(!new)>(
    update: FeedUpdate<U, T>, feed: Feed, region: Region, filters: NamedFilters, reconnect: Option<Reconnect>,
    text: Base58, usizeMax: nat, first: Option<Status>, env: seq<Answer<U>>)
    returns (r: Result<EventStream<U, T>, SubscribeError>)
    requires usizeMax >= U32_MAX
    ensures r.Ok? <==> FeedOf(region) == feed && WithinLimits(filters) && first == None
    ensures r.Ok? ==>
              && fresh(r.value) && r.value.Valid() && r.value.env == env && r.value.heard == [] && r.value.items == []
              && r.value.feed == update && r.value.reconnect == reconnect
              && Sendable(r.value.request, feed) && r.value.request == RequestFor(text, filters, region)
    ensures FeedOf(region) != feed ==> r == Err(BadRegion(WrongFeed(feed, region)))
    ensures FeedOf(region) == feed && !WithinLimits(filters) ==>
              First(RequestChecks(filters)).Some? && r == Err(BadFilter(First(RequestChecks(filters)).value))
    ensures FeedOf(region) == feed && WithinLimits(filters) && first.Some? ==> r == Err(Rejected(first.value))
  {
    if FeedOf(region) != feed {
      return Err(BadRegion(WrongFeed(feed, region)));
    }
    AcceptedIff(filters);
    var request := IntoRequest(filters, region, text, usizeMax);
    if request.Err? {
      return Err(BadFilter(request.error));
    }
    if first.Some? {
      return Err(Rejected(first.value));
    }
    LimitsSurviveLowering(text, filters);
    var stream := new EventStream<U, T>(update, request.value, reconnect, env);
    return Ok(stream);
  }

  /** The public call for the Harmonic feed: its mapping with its feed. */
  method SubscribeHarmonic(
    region: Region, filters: NamedFilters, reconnect: Option<Reconnect>,
    text: Base58, usizeMax: nat, first: Option<Status>, env: seq<Answer<HarmonicUpdate>>)
    returns (r: Result<EventStream<HarmonicUpdate, HarmonicTransaction>, SubscribeError>)
    requires usizeMax >= U32_MAX
    ensures r.Ok? <==> region.HarmonicIn? && WithinLimits(filters) && first == None
    ensures r.Ok? ==>
              && fresh(r.value) && r.value.Valid() && r.value.env == env && r.value.heard == [] && r.value.items == []
              && r.value.Cfg() == Config(HARMONIC, reconnect)
              && Sendable(r.value.request, Harmonic) && r.value.request == RequestFor(text, filters, region)
    ensures region.BamIn? ==> r == Err(BadRegion(WrongFeed(Harmonic, region)))
    ensures region.HarmonicIn? && !WithinLimits(filters) ==>
              First(RequestChecks(filters)).Some? && r == Err(BadFilter(First(RequestChecks(filters)).value))
    ensures region.HarmonicIn? && WithinLimits(filters) && first.Some? ==> r == Err(Rejected(first.value))
  {
    r := Subscribe(HARMONIC, Harmonic, region, filters, reconnect, text, usizeMax, first, env);
  }

  /** The public call for the BAM feed. */
  method SubscribeBam(
    region: Region, filters: NamedFilters, reconnect: Option<Reconnect>,
    text: Base58, usizeMax: nat, first: Option<Status>, env: seq<Answer<BamUpdate>>)
    returns (r: Result<EventStream<BamUpdate, BamTransaction>, SubscribeError>)
    requires usizeMax >= U32_MAX
    ensures r.Ok? <==> region.BamIn? && WithinLimits(filters) && first == None
    ensures r.Ok? ==>
              && fresh(r.value) && r.value.Valid() && r.value.env == env && r.value.heard == [] && r.value.items == []
              && r.value.Cfg() == Config(BAM, reconnect)
              && Sendable(r.value.request, Bam) && r.value.request == RequestFor(text, filters, region)
    ensures region.HarmonicIn? ==> r == Err(BadRegion(WrongFeed(Bam, region)))
    ensures region.BamIn? && !WithinLimits(filters) ==>
              First(RequestChecks(filters)).Some? && r == Err(BadFilter(First(RequestChecks(filters)).value))
    ensures region.BamIn? && WithinLimits(filters) && first.Some? ==> r == Err(Rejected(first.value))
  {
    r := Subscribe(BAM, Bam, region, filters, reconnect, text, usizeMax, first, env);
  }

  /** Subscribing and reading the stream to its end. What comes out is the
      script of the connections the server's answers tell of, and every
      subscribe sent on the way, the first and each reconnect, is the same
      sendable request. */
  method SubscribeAndCollect<U(!new), T(!new)>(
    update: FeedUpdate<U, T>, feed: Feed, region: Region, filters: NamedFilters, reconnect: Option<Reconnect>,
    text: Base58, usizeMax: nat, first: Option<Status>, env: seq<Answer<U>>)
    returns (r: Result<seq<Item<T>>, SubscribeError>, ghost sent: seq<P.SubscribeRequest>)
    requires usizeMax >= U32_MAX
    ensures r.Ok? <==> FeedOf(region) == feed && WithinLimits(filters) && first == None
    ensures r.Ok? ==>
              var cfg := Config(update, reconnect);
              var heard := Hear(cfg, [], env);
              && r.value == Script(cfg, LogOf(heard))
              && |sent| == 1 + Run(cfg, heard).subscribes
              && forall k :: 0 <= k < |sent| ==>
                   sent[k] == RequestFor(text, filters, region) && Sendable(sent[k], feed)
  {
    hide Run, Hear, Script, LogOf, RequestOk, WithinLimits, First;
    sent := [];
    var accepted := Subscribe(update, feed, region, filters, reconnect, text, usizeMax, first, env);
    if accepted.Err? {
      return Err(accepted.error), sent;
    }
    var stream := accepted.value;
    var items := stream.Collect();
    sent := stream.sent;
    return Ok(items), sent;
  }
}
