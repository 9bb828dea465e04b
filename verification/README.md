# Verified model of the preconfs client

A Dafny 4.11 model of the logic of `triton-preconfs-client` and of the filter
argument of its example CLI, with proofs of the promises the crate's
documentation makes. `dafny verify dfyconfig.toml` checks all of it.

## What is modelled

- **The reconnecting stream** (`EventStream.dfy`, `StreamSpec.dfy`,
  `StreamLemmas.dfy`). `EventStream` is a class with the source's fields
  `state`, `attempts` and `framed`. Its methods `Fail`, `Resubscribe`, `Turn`
  (one turn of the poll loop), `PollNext` and `Next` update them in place. The
  inner futures are an environment: a sequence of answers (update, status, end
  of stream, sleep elapsed, connection opened, not ready) of which polling takes
  the next. No answer sequence is excluded; an answer nobody polled for reads as
  not ready. The object is proved to follow the pure run `Run` over the answers
  it heard, and the run is proved equal to `Script`, which is written without
  any state machine from the log of connections: per connection its updates and
  its failures.
- **Slot framing** (`Events.dfy`, `Framing.dfy`, `Contents.dfy`, `Clips.dfy`).
  The server's delivery contract is a predicate on raw messages: frames of one
  region do not overlap, a slot may be framed again, pings and notices may stand
  anywhere. A connection carries what follows an arbitrary point of such a
  sequence, cut off wherever it drops.
- **The backoff** (`Floats.dfy`, `Backoff.dfy`). f64 values are exact reals in
  the finite range, with both infinities and NaN and an overflow past the
  largest finite value; a Duration is its whole nanoseconds below 2^64 seconds,
  and conversion goes to the nearest one.
- **Filters** (`Filters.dfy`, `Limits.dfy`, `Matching.dfy`, `Proto.dfy`). The
  validation loops with early return and the map filled by insertion are methods
  over any usize of at least 32 bits. They are proved against one flat list of
  checks. Client filters and request messages each have a matching semantics
  over abstract transactions, which carry their outcome as its number on the
  wire; how keys and signatures print is a parameter assumed injective.
- **The gate and the parsers** (`Connect.dfy`, `Feeds.dfy`, `Cli.dfy`).
  Strings are their UTF-8 bytes, one `char` per byte.

## Where code and documentation differ

The model follows the code in each case.

- `max_retries` is documented as ending the stream after that many consecutive
  failures; the stream ends at the failure after those (`RetryBudget`).
- `Reconnected.attempts` is documented as the failed attempts before the one
  that succeeded; it counts the drop itself, and goes on counting over a
  reconnect that delivers nothing (`ReconnectedCarriesFailures`).
- Clip notices are documented as never silent; one that precedes the first
  `SlotStart` of a Harmonic connection is held back with the rest
  (`EarlyClipIsLost` is such a run; `AllToldIff` says when nothing is lost).
- Filter names may repeat. The earlier filter is then overwritten without an
  error and its transactions are not delivered (`RepeatedNameLosesFilter`,
  `NoneOverwrittenIff`).
- A zero initial interval stays zero until the growth overflows an f64; from
  then on the delay is the cap (`ZeroIntervalJumps` is such a schedule,
  `IntervalIsIdeal` the exact condition).
- The delay is documented to grow with every failure. A multiplier between -1
  and 1 leaves it where it is. One below -1 makes it fall again wherever it
  grows at all: `IntervalMonotoneIff` is the exact condition, `FallingDelay` a
  schedule that falls.
- The server rejects the zero region; the client builds a request for it
  (`NumbersTellRegions`).

## Model

| member | source | states |
|---|---|---|
| `EventStreams.EventStream.PollNext` | preconfs-client/src/stream.rs:247-293 | one poll hears answers until one makes an item or is not ready, yields exactly that item, says `None` exactly when ended and then changes nothing; the answers left are its measure |
| `EventStreams.EventStream.Turn` | preconfs-client/src/stream.rs:250-291 | one turn keeps the object equal to the run of what it heard, and returns the item that run gains, if any |
| `EventStreams.EventStream.Fail` | preconfs-client/src/stream.rs:222-235 | a failure schedules a wait or ends the stream and hands the error back |
| `EventStreams.EventStream.Resubscribe` | preconfs-client/src/stream.rs:237-241 | sends the stream's own request and connects |
| `EventStreams.EventStream.constructor` | preconfs-client/src/stream.rs:199-213 | a new stream satisfies the invariant, its one subscribe sent |
| `EventStreams.EventStream.Next` | preconfs-client/src/stream.rs:216-218 | `next().await` gives the next item whatever Pending answers come first |
| `EventStreams.EventStream.Collect` | preconfs-client/src/stream.rs:183-185 | reading to the end gives, for every environment, the script of its connections |
| `StreamSpec.RunIsScript` | preconfs-client/src/stream.rs:247-293 | whole-run specification: items, attempt counter, framing flag and state all follow from the log of connections |
| `StreamLemmas.AnyTapeFollowsScript` | preconfs-client/src/stream.rs:247-293 | for every sequence of answers the items are: per connection the visible events, joined by `Reconnected`, closed by the fatal error |
| `StreamLemmas.PendingDoesNotMatter` | preconfs-client/src/stream.rs:247-293 | items, delays and final state do not depend on where Pending occurs |
| `StreamLemmas.HearIsAsked` | preconfs-client/src/stream.rs:250-270 | whatever the environment answers, what is heard is a run of answers the states polled for |
| `StreamLemmas.HeardIff` | preconfs-client/src/stream.rs:250-288 | which answer is taken up next, told from what was heard: on an unbroken connection an update, a status or its end; after a failure the end of the sleep, then a new connection or its refusal; nothing once the stream gave up |
| `StreamLemmas.FirstFailure` | preconfs-client/src/reconnect.rs:113-144 | code by code: a first status ends the stream if and only if it is one of nine about the request or the token; every other one, and a closed connection, is waited out |
| `Error.RetryableIff` | preconfs-client/src/reconnect.rs:110-118 | everything is retried but the nine codes about the request or the token |
| `StreamLemmas.ErrorIsLast` | preconfs-client/src/stream.rs:183-185 | at most one error, the last item, and exactly the ended streams have it |
| `StreamLemmas.EndedIsFinal` | preconfs-client/src/stream.rs:251 | an ended stream hears nothing ever again |
| `StreamLemmas.EndsOnlyOnTerminal` | preconfs-client/src/reconnect.rs:24-26 | with reconnect on and no retry limit a stream ends if and only if some failure heard is a status about the request or the token |
| `StreamLemmas.NoReconnect` | preconfs-client/src/stream.rs:222-226 | with reconnect off the first failure ends the stream; no sleep, no resubscribe, no `Reconnected` |
| `StreamLemmas.QuietRun` | preconfs-client/src/stream.rs:222-235 | between delivered events the sleeps are exactly the delays of attempts 1, 2, 3, ..., and failures outnumber `Reconnected` |
| `StreamLemmas.RetryBudget` | preconfs-client/src/reconnect.rs:20-26 | with a budget of n: at most n failures swallowed and n `Reconnected` between delivered events, total sleep at most the first n delays and at most n caps; the stream ends at failure n + 1, or before it at a status about the request or the token, and at no other |
| `StreamLemmas.AttemptsBounded` | preconfs-client/src/stream.rs:191-192 | the counter stays within the failures heard and within the budget plus one, so the u32 does not overflow below those |
| `StreamLemmas.AttemptAccounting` | preconfs-client/src/stream.rs:222-241 | waiting or connecting implies a retry policy and an attempt; the wait is that attempt's delay; the counter is the failures since the last delivered event; one subscribe per sleep that ended |
| `StreamLemmas.ReconnectedCarriesFailures` | preconfs-client/src/stream.rs:257-261 | `Reconnected` carries the failures since the last delivered event, the drop included, so at least 1 |
| `StreamLemmas.BothFeedsAreLawful` | preconfs-client/src/stream.rs:116-156 | no update of either feed maps to a `Reconnected`, which `NoReconnect` asks for |
| `StreamLemmas.BamHasNoFraming` | preconfs-client/src/stream.rs:42-43 | over every run a BAM stream yields transactions, notices and `Reconnected` only |
| `Events.VisibleSnoc` | preconfs-client/src/stream.rs:271-283 | one more update adds its event unless the connection still waits for its first `SlotStart` |
| `Framing.JoinSeesFrames` | preconfs-client/src/stream.rs:89-93 | joining a non-overlapping sequence anywhere, a subscriber sees whole frames only |
| `Framing.EveryJoinPointIff` | preconfs-client/src/stream.rs:193-195 | every join point shows whole frames if and only if the sequence does not overlap from its first `SlotStart` on |
| `Framing.OverlapDefeatsFraming` | preconfs-client/src/stream.rs:275-279 | with overlapping frames a partial slot's end is delivered |
| `Framing.FramingHolds` | preconfs-client/src/stream.rs:40-43 | over any number of drops each transaction and `SlotEnd` lies after a `SlotStart` of its own slot with no `Reconnected` and no other frame between |
| `Framing.FrameComplete` | preconfs-proto/proto/preconfs.proto:18-27 | for each `SlotEnd` delivered, the items since the latest `SlotStart` are the events of one whole sent frame, the one at that place in the run: what came before them is what the run delivers before that frame |
| `Framing.FrameDelivered` | preconfs-proto/proto/preconfs.proto:12-17 | every whole frame a connection carries is delivered whole, in order and in its place |
| `Contents.SlotEndCompletes` | preconfs-client/src/stream.rs:40-43 | after `SlotEnd` the subscriber holds the frame's transactions with filter names and its notices, exactly and in sent order; after a restart those of the new frame |
| `Contents.MappingKeepsContent` | preconfs-client/src/stream.rs:116-156 | mapping updates to events loses, adds and reorders no transaction or notice |
| `Contents.EventIffContent` | preconfs-client/src/stream.rs:116-156 | a BAM update makes an event if and only if it holds a transaction or a notice, a Harmonic one also when it marks a slot boundary; pings and empty updates make none |
| `Contents.HandsOverAllShown` | preconfs-client/src/stream.rs:89-93 | over a whole run, on either feed, exactly what the connections held from their first `SlotStart` on is handed over, in order |
| `Contents.HarmonicLosesOnlyHeldBack` | preconfs-client/src/stream.rs:116-129 | the same for the Harmonic messages: of transactions, too, only what precedes the first `SlotStart` is held back |
| `Contents.BamLosesNothing` | preconfs-client/src/stream.rs:141-156 | a BAM stream hands over everything its connections carried, in order |
| `Clips.HeldBackThenVisible` | preconfs-client/src/stream.rs:89-93 | held back is exactly what precedes the first `SlotStart` of a connection |
| `Clips.ClipsConserved` | preconfs-client/src/stream.rs:59-69 | clip counts told plus those held back are those announced; without framing nothing is held back |
| `Clips.AllToldIff` | preconfs-client/src/stream.rs:59-69 | every withheld transaction announced is told if and only if no notice of one precedes the first `SlotStart` of its connection |
| `Clips.EarlyClipIsLost` | preconfs-client/src/stream.rs:275-279 | a run whose first update is a notice tells nothing of it |
| `Backoff.IntervalIsIdeal` | preconfs-client/src/reconnect.rs:92-102 | the delay is the ideal min(initial * max(m^e, 1), cap) if and only if the initial interval is not zero, or the cap is, or the power does not overflow |
| `Backoff.IntervalBounds` | preconfs-client/src/reconnect.rs:97-102 | the first delay is the shorter interval, every delay lies between it and the cap, for every multiplier, NaN and infinities included |
| `Backoff.IntervalMonotone` | preconfs-client/src/reconnect.rs:22-23 | later attempts never wait less, for every multiplier not below -1 |
| `Backoff.IntervalMonotoneIff` | preconfs-client/src/reconnect.rs:22-23 | later attempts never wait less if and only if the multiplier is not below -1, or the cap or the rounding swallows all growth |
| `Backoff.FallingDelay` | preconfs-client/src/reconnect.rs:97-102 | a multiplier of -2: 400 milliseconds, then 100 |
| `Backoff.ZeroIntervalJumps` | preconfs-client/src/reconnect.rs:97-102 | a zero interval that waits the full cap at attempt 1025, where the ideal is zero |
| `Backoff.DefaultSchedule` | preconfs-client/src/reconnect.rs:55-64 | by default seven delays double from 100 milliseconds on and every later one is ten seconds, for every attempt |
| `Backoff.NearestIff` | preconfs-client/src/reconnect.rs:100 | the conversion to a Duration is to the nearest nanosecond, ties to even |
| `Backoff.FactorGrowsIff` | preconfs-client/src/reconnect.rs:98-99 | the growth factor never shrinks if and only if the multiplier is not below -1 |
| `Backoff.CapReachedIff` | preconfs-client/src/reconnect.rs:97-102 | for every schedule: some attempt waits for the cap if and only if the growth at the peak exponent reaches or overflows it |
| `Backoff.CapReachedAndKept` | preconfs-client/src/reconnect.rs:97-102 | for a finite multiplier of at least 1 and a non-zero interval: from the attempt Bernoulli's inequality gives on, every delay is the cap |
| `Backoff.ScheduleTotal` | preconfs-client/src/reconnect.rs:22-25 | n delays in a row sum to at most n caps |
| `Filters.ValidateInstruction` | preconfs-client/src/filter.rs:304-329 | the loop returns the first broken check of the instruction, the same for every usize of at least 32 bits as over unbounded integers |
| `Filters.ValidateFilter` | preconfs-client/src/filter.rs:183-214 | the loop returns the first broken check of the filter |
| `Filters.IntoRequest` | preconfs-client/src/filter.rs:382-406 | the first broken check of the set, or the request with every filter lowered and the region's number |
| `Filters.FlatStep` | preconfs-client/src/filter.rs:398-401 | going through the groups of checks in turn, the first that fails decides all |
| `Limits.AcceptedIff` | preconfs-client/src/filter.rs:381-406 | a request is built if and only if every limit holds for the set and every filter |
| `Limits.InstructionOkIff` | preconfs-client/src/filter.rs:304-329 | an instruction filter passes if and only if each of its limits holds |
| `Limits.FilterOkIff` | preconfs-client/src/filter.rs:183-214 | a filter passes if and only if each of its limits holds and it selects something |
| `Limits.InstructionRefusal` | preconfs-client/src/filter.rs:304-329 | which error an instruction filter gets, on its fields and in the limits' numbers: too many memcmps, else its data size, else the length or the reach of its first bad memcmp |
| `Limits.FilterRefusal` | preconfs-client/src/filter.rs:183-214 | which error a filter gets, on its fields: name, accounts, signatures, its first bad instruction filter, or selecting nothing, in that order |
| `Limits.RefusedForFirst` | preconfs-client/src/filter.rs:383-401 | which error a set gets: empty, more than 64 filters, more than 32 instruction filters, else the first broken limit of its first bad filter, under that filter's name |
| `Limits.LimitsSurviveLowering` | preconfs-client/src/filter.rs:397-405 | the limits hold of the request map as well, a memcmp's reach within its own `data_size` included, and its instruction filters are within the stream's limit however its names are listed |
| `Limits.SatisfiableIff` | preconfs-client/src/filter.rs:304-329 | some data of at most 4096 bytes matches an accepted instruction filter if and only if its memcmps agree on every overlap |
| `Limits.RefusedNeverMatches` | preconfs-client/src/filter.rs:64-70 | what is refused as out of range or too large no instruction data could match |
| `Limits.NoFullFeed` | preconfs-proto/proto/preconfs.proto:56-59 | a transaction sharing nothing with any selecting list is delivered under no name of an accepted request |
| `Limits.NarrowingCuts` | preconfs-client/src/filter.rs:131-181 | exclusions, requirements and a first outcome list cut exactly what they name |
| `Limits.WideningAdds` | preconfs-client/src/filter.rs:125-181 | accounts or outcomes added to a list that is set add exactly what they name; a first list of accounts cuts |
| `Limits.BuildersAppend` | preconfs-client/src/filter.rs:125-181 | a builder called again adds to its first call |
| `Limits.RepeatedNameLosesFilter` | preconfs-client/src/filter.rs:360-364 | concrete accepted set whose first filter matches a transaction that is delivered under no name |
| `Matching.FilterLowered` | preconfs-client/src/filter.rs:216-240 | a lowered filter matches on the server exactly the transactions the client's filter describes |
| `Matching.InstructionLowered` | preconfs-client/src/filter.rs:331-344 | the same for instruction filters |
| `Matching.OutcomesOnTheWire` | preconfs-proto/proto/preconfs.proto:166-174 | the outcome numbers sent read back, by the proto's numbering, as the outcomes asked for |
| `Matching.NumberSentIff` | preconfs-client/src/filter.rs:113-116 | an outcome's number is among those sent if and only if it stands for a wanted outcome; an unknown number never is |
| `Matching.LastWins` | preconfs-client/src/filter.rs:397-401 | the request holds under each name given the last filter of that name, and no other name |
| `Matching.LoweringPreservesMeaning` | preconfs-client/src/filter.rs:78-82 | the names echoed are those whose last filter matches; with distinct names, of all filters that match |
| `Matching.NoneOverwrittenIff` | preconfs-client/src/filter.rs:397-401 | the map is as large as the list if and only if the names are pairwise distinct |
| `Connect.Subscribe` | preconfs-client/src/connect.rs:298-321 | a stream exists if and only if the region is of the feed, every limit holds and the server accepted; otherwise which error, in that order |
| `Connect.SubscribeHarmonic` | preconfs-client/src/connect.rs:278-285 | the public call pairs the Harmonic mapping with the Harmonic feed and sends the set's request for that region; which error a refused one gets |
| `Connect.SubscribeBam` | preconfs-client/src/connect.rs:289-296 | the same for the BAM mapping and feed |
| `Connect.SubscribeAndCollect` | preconfs-client/src/connect.rs:300-321 | every subscribe of a whole run is the set's request for the region, within all limits; the items are the script |
| `Feeds.ParseRegionIff` | preconfs-client/src/feed.rs:129-147 | a name parses to a region if and only if its lowercase form is that region's table name |
| `Feeds.ParseUndoesDisplay` | preconfs-client/src/feed.rs:179-195 | a string parses as a region if and only if its lowercase form is what a served region prints as |
| `Feeds.NamedIffSpecified` | preconfs-client/src/feed.rs:157-169 | exactly the unserved zero regions print as unspecified |
| `Feeds.NumberIsNames` | preconfs-proto/proto/preconfs.proto:72-100 | every region is sent, in its feed's enum, as the number the proto lists its name under |
| `Feeds.NumbersTellRegions` | preconfs-client/src/feed.rs:171-176 | no two regions share a wire number, zero being the unserved ones, and the number is in the region's own feed's enum |
| `Feeds.ParsesInAnyCase` | preconfs-client/src/feed.rs:129-147 | what parses as a region is its printed form with any letters in upper case, the alphabets written out |
| `Feeds.RefusedSpec` | preconfs-client/src/feed.rs:179-189 | which error a refused string gets: no colon, an unknown feed as it was given, an unknown region of that feed as it was given |
| `Cli.DecodeHexIff` | examples/rust/src/main.rs:190-200 | exactly which strings decode and to what: pairs of hex digits in either case, or a plus and one digit |
| `Cli.DecodeUndoesBase16` | examples/rust/src/main.rs:190-200 | decoding undoes the base16 encoding of section 8 of RFC 4648, in either case |
| `Cli.ParseDecimalIff` | examples/rust/src/main.rs:183 | exactly which offsets parse: an optional plus, at least one decimal digit, leading zeros allowed, a value in range |
| `Cli.ParseInstruction` | examples/rust/src/main.rs:171-188 | the iterator code computes the meaning of the argument's parts |
| `Cli.AcceptedShape` | examples/rust/src/main.rs:171-188 | exactly which arguments are accepted and as which filter |
| `Cli.RefusedArgument` | examples/rust/src/main.rs:171-188 | which error a refused argument gets: key, number of parts, offset, hex, in that order |
| `Cli.ParseUndoesPrint` | examples/rust/src/main.rs:171-188 | parsing undoes printing for every key, u32 offset and byte string |

## Left out

- Connecting, TLS, dialing, keepalive, compression, tokens, version and health calls: I/O over tonic.
- Wakers and pinned boxed futures: an inner future is the answers polling it gives; `Pending` keeps its place in the answer sequence.
- `Subscribe` and `SubscribeAndCollect` take the mapping and the feed separately, as the source's private generic does; the pairs that occur are those of `SubscribeHarmonic` and `SubscribeBam`.
- Clones of the client: which of them sends a resubscribe makes no difference to the stream.
- The `region` field of slot boundaries and transactions: a stream serves one region, and the client does not look at it.
- `attempts` past u32::MAX: the counter is unbounded here, and `AttemptsBounded` says below which runs the source's u32 agrees; above, debug and release builds differ.
- Rounding inside the finite f64 range: arithmetic is exact up to the overflow, so delays are those of exact products rounded once to nanoseconds.
- Decoding of the raw transaction bytes (preconfs-client/src/parse.rs): a thin wrapper over a decoder that is not part of this model.
- Base58 itself: printing is a parameter assumed injective, and for the CLI also free of colons and parsed back.
- The list of expected names an unknown region's error carries for display.
- `Hash` order of the request map, error display strings and CLI logging: no behaviour depends on them.
- The server's own filtering, coverage limits and authorization: they enter as the delivery contract and the matching semantics only.
- Overflow of the usize sum of list lengths in `into_request`: lists that long do not fit in memory.
- The remaining one-line builders (`signers`, `signatures`, `instructions`, `memcmp`, `data_size`, the `Reconnect` setters): each appends or sets one field.
