# Code-bridge verification model

Code-bridge connects *bridges* (programs that emit logs, errors, screenshots and network events) to
*consumers* (tools that read them and send control requests back) through one *host* process. This project
models the host and the parts of the clients whose behaviour depends on history, and proves properties of
every run of the model.

Check everything with `dafny verify dfyconfig.toml`.

## How the model is laid out

| File | Component |
|---|---|
| `Common.dfy` | shared vocabulary: subsequences, filters, counts |
| `Routing.dfy` | level hierarchy, capabilities, noise filter, overload window |
| `HostModel.dfy` | the host as a transition system: tables, one step per frame, request, timer tick or close, and a log of what each step did |
| `HostCoherence.dfy` | the tables agree in every reachable state; who gets in; what a close leaves behind |
| `HostFanOut.dfy` | the fan-out loop against a declarative routing rule |
| `HostOrder.dfy` | exactly when the order in which consumers are visited decides who receives an event |
| `HostStreams.dfy` | what reaches each consumer by each way in, and in which order |
| `HostOverload.dfy` | rate bounds of the overload guard over arbitrary stretches of time |
| `HostControl.dfy` | the ledger of control requests and its conservation law |
| `HostSessions.dfy` | consumers' requests; HTTP bridges: the control queue and session expiry |
| `HostReplies.dfy` | what the host says back to whoever addressed it, and which sockets it gives up |
| `HostRoundTrip.dfy` | a consumer's request and the result that answers it |
| `HostScreenshots.dfy` | the screenshot rate limit |
| `HostScenario.dfy` | reachable runs in which bounds are attained and surprises happen |
| `Host.dfy` | class `Broker`: the process itself, its tables as fields, one method per handler, each proved to be the model's step |
| `ConsumerModel.dfy`, `Consumer.dfy` | the consumer's promises, timers and pending table |
| `EndToEnd.dfy` | host and consumer composed |
| `ClientModel.dfy`, `BridgeWebSocket.dfy` | the reference bridge client: reconnecting, buffering, flushing |
| `Heartbeat.dfy`, `Backoff.dfy` | when the PHP, Rust and reference clients give a peer up, and how long they wait before retrying |
| `PhpModel.dfy`, `PhpClient.dfy` | the PHP client's handshake and buffer |
| `RustClient.dfy` | the Rust client's buffer |
| `EventBuffer.dfy` | the consumer's bounded event log |
| `LuaQueue.dfy` | the Lua client's batching queue |
| `Serializer.dfy` | the depth-bounded serialiser |
| `NetworkPatch.dfy` | reference-counted patching of `http`, `https` and `fetch` |

Where the source updates fields, the model has a class with those fields (`Broker`, `HostConsumer`,
`Bridge`, PHP `Client`, `BridgeClient`, `Buffer`, Lua `Client`, `NodeNetwork`, `WeakSet`). Each method is
proved to perform a step of a function over values, and the properties of runs are lemmas about that
function; `Broker.Serve` says that a process serving any sequence of events is a run.

## What was found to differ from the documentation or the obvious expectation

* `docs/subscriptions.md:50` says that bridges without a hello frame skip capability checks. The code drops
  their gated events (`Routing.NoHelloNoGatedEvents`).
* The comment at `bin/code-bridge-host.js:196` promises ten seconds between screenshots; the constant is two.
* The overload guard counts filter evaluations, one per subscribed consumer, not events, and consumers whose
  filter is off use it up too. The iteration order decides who receives an event exactly when the window
  crosses its limit during the fan-out and some consumer is admitted only below it
  (`HostOrder.OrderMattersExactly`).
* A window boundary inside ten seconds doubles the bound: 500 per window, 1000 per ten seconds, and a run
  attains it (`HostScenario.OverloadBoundIsReached`).
* A screenshot refused for a missing field still pushes the rate limit out; no other refusal does
  (`HostScreenshots.StampMovesExactly`, with a reachable case in `HostScenario.IncompleteRefusalHappens`).
  Screenshots posted over HTTP are not limited at all.
* The host's copy of the level predicate and the one in `src/host-utils.ts` differ on an empty level list.
* The same event without a level is routed differently over HTTP and over a WebSocket
  (`HostStreams.TwoWaysAgree`).
* `disconnect()` does not stop reconnecting while a socket's close event is outstanding; a WebSocket
  constructor that throws does stop it. Calling connect() in that state ends with two connections under way
  (`ClientModel.ConnectIsSafeExactlyWhenIdle`).
* At its default timings the reference client's heartbeat never closes a connection, whatever the peer does;
  timings that do detect silence may close a connection whose peer answers promptly.
* `close()` of the consumer leaves exactly the promises of its pending table unsettled for ever.
* `recent(0)` returns everything.
* A consumer that asks under an empty id never gets its result: the host passes the request on under an id of
  its own making, and the result bears that one (`HostRoundTrip.GotUnderOwnId`).
* The timer of an older request with the same id takes the pending entry of a newer one with it, which can
  then only time out (`ConsumerModel.ResultSettlesExactly`).
* Calling one detach function twice can remove the patch under a sink that is still attached.
* A fetch supplied by the application takes the place of the runtime's own for good once patching ends
  (`NetworkPatch.OriginalsComeBackExactly`).
* The serialiser renders a shared object as circular even where there is no cycle; a low and narrow plain
  value survives exactly when nothing in it is shared (`Serializer.IdentityExactly`).
* The client API description under `docs/` asks clients to buffer until the socket is open. The Rust client
  always buffers: what is produced while a connection is served waits for the next one (`RustClient.OnlyOpeningsCarryEvents`).
  It also empties its buffer before sending it, so a failed flush loses events uncounted; the PHP client keeps
  them (`RustClient.FlushLosesExactly`, `PhpModel.FailedFlushKeepsBuffer`).
* The Rust client's retry delay is never reset, because no connection ends without an error.

## Model

| member | source | states |
|---|---|---|
| Routing.IncludesLevelIsThreshold | bin/code-bridge-host.js:241-261 | a subscription's level list admits an event iff its highest recognised level is at or above the event's |
| Routing.HighestRankIsMax | bin/code-bridge-host.js:256-261 | that highest level bounds every listed one and is one of them |
| Routing.LevelsAdmitExactly | bin/code-bridge-host.js:241-261 | a list of levels admits an event iff it lists, in whatever case, one that includes the event's level: errors, warn, info or trace for error; warn, info or trace for warn; trace for debug; info or trace for any other |
| Routing.LowerIgnoresCase | bin/code-bridge-host.js:236-239 | lower-casing makes comparisons ignore the case of letters and nothing else |
| Routing.AdmitsExactly | bin/code-bridge-host.js:209-305 | the whole decision for a subscribed consumer: the filter lets the level pass, or above 500 evaluations errors only; a listed level includes the event's; and an event of the five gated types is advertised by its bridge and requested, or nothing is requested |
| Routing.TwinsDisagreeExactly | src/host-utils.ts:31-36 | the host's inline predicate and the utility module's copy differ iff the list is present, empty, and the event is an error |
| Routing.WideningNeverLoses | bin/code-bridge-host.js:209-305 | more levels, more (or all) capabilities or a looser filter, at the same window count, never lose an event |
| Routing.NoHelloNoGatedEvents | bin/code-bridge-host.js:293-299 | gated events of a bridge without hello reach nobody; for other events capabilities make no difference |
| Routing.DefaultIsErrorsOnly | bin/code-bridge-host.js:276-305 | a consumer that never subscribed receives exactly the error events, gated ones only if their bridge advertised the capability |
| HostCoherence.StepCoherent | bin/code-bridge-host.js:181-200 | every step keeps the tables coherent: peer sets without repetition and equal to the sockets of their role and the live sessions, keys of per-peer tables are current peers, pending requests belong to connected sockets of the recorded role, ids are fresh |
| HostCoherence.ReachableCoherent | bin/code-bridge-host.js:181-200 | hence every reachable state is coherent |
| HostCoherence.RolesAreDisjoint | bin/code-bridge-host.js:518-527 | no socket is both bridge and consumer |
| HostCoherence.RolesAreGrantedBySecret | bin/code-bridge-host.js:507-537 | a role appears only in a step that presents the secret on that socket, never changes again, and a socket that is not open never reopens |
| HostCoherence.CloseIsForget | bin/code-bridge-host.js:773-791 | the clean-up by role is the same as removing the socket from every table |
| HostCoherence.CloseLeavesNoReference | bin/code-bridge-host.js:773-791 | after the close event no table mentions the socket, as peer, key or reply target |
| HostCoherence.CloseKeepsOthers | bin/code-bridge-host.js:773-791 | and every other peer keeps its entries and its place |
| HostCoherence.RemovalForgets | bin/code-bridge-host.js:332-346 | removing sessions takes exactly them out of sessions, bridges and capabilities together |
| HostModel.OnlyHelloAdvertises | bin/code-bridge-host.js:546-561 | capabilities of a WebSocket bridge change by its own hello only |
| HostModel.ConsumerFrameChanges | bin/code-bridge-host.js:690-769 | a consumer's frame touches its own subscription, the pending table and session queues, and nothing else |
| HostModel.BridgeFrameChanges | bin/code-bridge-host.js:545-689 | a bridge's frame touches its capabilities, the pending table, the window and, only by a screenshot, the screenshot stamps |
| HostFanOut.SubscribeGovernsRouting | bin/code-bridge-host.js:690-705 | a subscribe frame replaces its sender's subscription (errors only by default, unknown filters off) and leaves every other consumer's routing alone |
| HostFanOut.OfferWindow | bin/code-bridge-host.js:209-224 | a fan-out evaluates the filter once per open subscribed consumer, numbered consecutively within a single window |
| HostFanOut.FanOutIsRouting | bin/code-bridge-host.js:348-360 | although the filter's window moves during the loop, the recipients are exactly the consumers the rule admits, each once, in table order |
| HostStreams.BroadcastReachesExactly | bin/code-bridge-host.js:676-684 | an ordinary bridge event is put on the wire of a consumer exactly once if the rule admits it and not at all otherwise |
| HostOrder.OrderMattersExactly | bin/code-bridge-host.js:209-305 | some order of visiting the consumers changes the recipient set iff the window is below 500 before the fan-out and above it after, and some consumer is admitted only below the limit |
| HostOrder.OrderIsIrrelevant | bin/code-bridge-host.js:276-305 | in every other case all orders give the same recipients |
| HostOrder.OrderMattersAtTheLimit | bin/code-bridge-host.js:221-224 | an instance: at count 499 two consumers with equal subscriptions are treated differently, by order alone |
| HostStreams.HttpPostReachesExactly | bin/code-bridge-host.js:409-424 | a post puts on each consumer's wire exactly the events the rule admits, each once and in order, the window moving by one evaluation per judged consumer from event to event |
| HostStreams.SinglePostReachesExactly | bin/code-bridge-host.js:409-424 | in particular a single posted event reaches exactly the consumers the rule admits |
| HostStreams.ScreenshotReachesExactly | bin/code-bridge-host.js:599-674 | a screenshot frame reaches exactly the consumers the rule admits, if it is acceptable, completed and once each |
| HostStreams.OnlyConsumersGetEvents | bin/code-bridge-host.js:491-771 | no step sends an event to a socket that is not a consumer |
| HostStreams.TwoWaysAgree | bin/code-bridge-host.js:409-424 | sent as a frame or posted by a peer with equal capabilities, an event reaches the same consumers, except that without a level those with an aggressive filter miss the posted one |
| HostStreams.RoutesDifferExactly | bin/code-bridge-host.js:409-424 | without a level the two rules differ for exactly the consumers with an aggressive filter |
| HostStreams.DeliverOnce | bin/code-bridge-host.js:348-360 | one broadcast puts at most one copy on any consumer's wire |
| HostStreams.StepStream | bin/code-bridge-host.js:493-771 | what a step sends a consumer is a subsequence of the events the step announces |
| HostStreams.StreamsKeepOrder | bin/code-bridge-host.js:491-771 | over every run each consumer's event stream is an order-preserving subsequence of the host's event order |
| HostOverload.NoisePerWindow | bin/code-bridge-host.js:209-224 | within one window at most 500 non-error events pass to filtering consumers, all of them together |
| HostOverload.WindowsAreSpaced | bin/code-bridge-host.js:213-219 | a new window starts more than ten seconds after the one it replaces |
| HostOverload.RunChain | bin/code-bridge-host.js:202-234 | every run's filter evaluations are one gapless chain through the shared window |
| HostOverload.RunTimes | bin/code-bridge-host.js:202-234 | and they are in time order |
| HostOverload.OverloadPerWindow | bin/code-bridge-host.js:202-234 | the per-window bound over every run |
| HostOverload.OverloadPerInterval | bin/code-bridge-host.js:202-234 | over every run and any closed interval of 10000 ms, at most 1000 |
| HostScenario.OverloadBoundIsReached | bin/code-bridge-host.js:202-234 | a run from the start attains 1000 within two milliseconds, across a window boundary |
| HostOverload.TrafficIsJudged | bin/code-bridge-host.js:276-305 | the noisy frames actually sent to filtering consumers never exceed the evaluations that let noise pass |
| HostOverload.TrafficBound | bin/code-bridge-host.js:202-234 | so at most 1000 such frames leave the host in any ten seconds |
| HostControl.BooksBalance | bin/code-bridge-host.js:564-596 | entries of any disciplined ledger add up: opened = answered + open + dropped + overwritten |
| HostControl.RunBooked | bin/code-bridge-host.js:564-790 | every run's ledger is disciplined and replaying it gives the pending table, over all three result paths, both request paths and closes |
| HostControl.ControlIsConserved | bin/code-bridge-host.js:564-790 | over every run: registrations = results forwarded + still pending + dropped by closes + overwritten by the same id |
| HostControl.AnsweredOnceToLatest | bin/code-bridge-host.js:426-444 | each answer goes to the latest registrant of its id, with nothing about that id in between |
| HostControl.NoRegistrationAnsweredTwice | bin/code-bridge-host.js:564-571 | no registration is answered twice |
| HostControl.LedgerIsWire | bin/code-bridge-host.js:564-571 | the ledger's answers are the result frames sent, in the same order |
| HostControl.ResultReachesRegistrant | bin/code-bridge-host.js:755-762 | a result by any path is sent to the registrant if its socket is open, as it was sent or with the outcome and payload posted, and closes the entry; otherwise nothing happens |
| HostControl.OthersSendNoAnswers | bin/code-bridge-host.js:491-771 | no other step forwards or books a result |
| HostControl.ResultsNeverOutnumberRequests | bin/code-bridge-host.js:564-596 | per id and over every run, results sent plus requests open never exceed requests made |
| HostControl.BridgeRequestReachesExactly | bin/code-bridge-host.js:574-597 | a bridge's request is sent once to each consumer the rule admits at level info and not to the others, and filed iff there is one |
| HostControl.BridgeRequestOnlyToConsumers | bin/code-bridge-host.js:574-597 | nobody but a consumer is sent a copy |
| HostControl.BridgeRequestUnheard | bin/code-bridge-host.js:586-596 | with no such consumer the bridge is told so and nothing is filed |
| HostSessions.RequestReachesCapableBridges | bin/code-bridge-host.js:708-753 | a consumer's request goes out under the consumer's own id, or client id and decimal time if it has none: one copy to each open control-capable bridge, as frame or queue entry, none to others; it is filed and acknowledged under that id with the number of copies |
| HostSessions.RequestQueues | bin/code-bridge-host.js:735-744 | capable sessions' queues grow by that copy and other queues stay |
| HostSessions.RequestWithoutBridges | bin/code-bridge-host.js:723-733 | with no capable bridge the sender gets an error under the same id and nothing is queued or filed |
| HostRoundTrip.GotUnderOwnId | bin/code-bridge-host.js:708-753 | whoever gets a request gets the consumer's own, with the id it is filed under; that is the consumer's id iff it gave a nonempty one |
| HostRoundTrip.AnswerComesBack | bin/code-bridge-host.js:708-762 | a result under the id some bridge got goes to the consumer that asked, unchanged, by whichever path and whatever happened in between, unless the id was settled or requested again or the socket was given up |
| HostReplies.AcksExactly | bin/code-bridge-host.js:507-705 | over every run the acknowledgements, pongs and screenshot refusals sent are exactly those due, one per frame that calls for one, in order and to its sender alone |
| HostReplies.ToldWhatIsRecorded | bin/code-bridge-host.js:511-528 | a socket has the role and the client id it was told, and keeps both until it is closed |
| HostReplies.RepliesExactly | bin/code-bridge-host.js:363-481 | over every run one reply per HTTP request, in order, with the status code due |
| HostReplies.SocketEndsExactly | bin/code-bridge-host.js:496-537 | an open socket is given up iff it closes or faults, its first frame does not let it in, or it has no role when the timeout fires |
| HostReplies.SocketsComeFromConnections | bin/code-bridge-host.js:491-501 | sockets come from connections only, open, without a role and numbered afresh |
| HostSessions.ControlQueueIsFifo | bin/code-bridge-host.js:446-455 | over every run, poll replies followed by the queue equal the payloads targeted at the session; after its end the replies are a prefix of them |
| HostSessions.SessionFate | bin/code-bridge-host.js:339-346 | whether and since when a session lives is decided by its own contacts and the pruning ticks alone |
| HostSessions.LivelySessionSurvives | bin/code-bridge-host.js:339-346 | contacts never more than 15000 ms apart: never removed |
| HostSessions.SilentSessionIsRemoved | bin/code-bridge-host.js:489-489 | silent since lastSeen: gone from every table once the ticks up to lastSeen + 30000 have run |
| HostScreenshots.SpacedIsRare | bin/code-bridge-host.js:613-627 | moments 2000 ms apart: at most L/2000 + 1 in any interval of L ms |
| HostScreenshots.ForwardedMeansStamped | bin/code-bridge-host.js:646-673 | a screenshot frame is forwarded iff it is recorded, at that moment, after the limit had passed, and what is forwarded is the completed frame |
| HostScreenshots.StampMovesExactly | bin/code-bridge-host.js:599-658 | a refused attempt pushes the limit out iff the bridge is capable, the limit has passed, the rule admits some consumer, and mime or data is missing; with both present the same attempt is forwarded |
| HostScreenshots.CompleteRefusalsAreFree | bin/code-bridge-host.js:599-658 | a refused attempt with mime and data changes nothing but the overload window |
| HostScreenshots.IncompleteRefusalCosts | bin/code-bridge-host.js:613-658 | one without makes the bridge wait 2000 ms that the limit alone would not have asked for |
| HostScenario.IncompleteRefusalHappens | bin/code-bridge-host.js:646-658 | a reachable state and two frames in which that happens |
| HostScreenshots.RetryIsExact | bin/code-bridge-host.js:613-627 | retryAfterMs is exact, and a refused attempt changes nothing |
| HostScreenshots.ScreenshotRateBound | bin/code-bridge-host.js:613-647 | over every run and bridge, forwarded screenshots are 2000 ms apart, so at most L/2000 + 1 in L ms |
| HostScreenshots.HttpScreenshotsAreNotLimited | bin/code-bridge-host.js:409-424 | a screenshot posted over HTTP goes through whatever was sent before |
| Host.Broker.constructor | bin/code-bridge-host.js:181-207 | a fresh process has empty, coherent tables and an empty window |
| Host.Broker.FilterEventForConsumer | bin/code-bridge-host.js:209-234 | advances the shared window by one evaluation and gives the verdict for that count |
| Host.Broker.ShouldRouteToConsumer | bin/code-bridge-host.js:276-305 | decides as the rule does and evaluates the filter only for a subscribed consumer |
| Host.Broker.Interested | bin/code-bridge-host.js:630-635 | collects the open consumers the rule admits, in table order |
| Host.Broker.SendIfInterested | bin/code-bridge-host.js:352-355 | one turn of the fan-out: decides and sends at once |
| Host.Broker.Broadcast | bin/code-bridge-host.js:678-684 | the loop sends exactly the specified fan-out and counts it |
| Host.Broker.DeliverToConsumers | bin/code-bridge-host.js:348-360 | is the model's event delivery |
| Host.Broker.ForwardResult | bin/code-bridge-host.js:564-571 | is the model's settlement, on all three paths |
| Host.Broker.RequestFromBridge | bin/code-bridge-host.js:574-597 | is the model's bridge request |
| Host.Broker.ControlTargets | bin/code-bridge-host.js:712-721 | collects the open control-capable bridges in table order |
| Host.Broker.PassOnTo | bin/code-bridge-host.js:737-744 | one target gets one copy, as a frame or at the end of its queue |
| Host.Broker.PassOn | bin/code-bridge-host.js:737-744 | the loop gives each target one copy |
| Host.Broker.RequestFromConsumer | bin/code-bridge-host.js:708-753 | is the model's consumer request |
| Host.Broker.HandleScreenshot | bin/code-bridge-host.js:599-674 | is the model's screenshot step |
| Host.Broker.SendScreenshot | bin/code-bridge-host.js:637-673 | is the model's handing over, once the interested consumers are known |
| Host.Broker.HandleAuth | bin/code-bridge-host.js:507-537 | is the model's authentication |
| Host.Broker.HandleBridge | bin/code-bridge-host.js:545-689 | is the model's step for a bridge frame |
| Host.Broker.HandleConsumer | bin/code-bridge-host.js:690-769 | is the model's step for a consumer frame |
| Host.Broker.HandleMessage | bin/code-bridge-host.js:503-771 | is the model's step for any frame |
| Host.Broker.DropPending | bin/code-bridge-host.js:786-790 | the loop removes exactly the closed socket's requests |
| Host.Broker.HandleClose | bin/code-bridge-host.js:773-791 | is the model's close step |
| Host.Broker.RemoveHttpSession | bin/code-bridge-host.js:332-337 | removes one session from all tables |
| Host.Broker.PruneHttpSessions | bin/code-bridge-host.js:339-346 | the loop removes exactly the sessions silent for more than 15000 ms |
| Host.Broker.HandleEvents | bin/code-bridge-host.js:414-421 | posted events are completed and delivered one after the other |
| Host.Broker.ConnectSession | bin/code-bridge-host.js:371-389 | is the model's connect route |
| Host.Broker.DisconnectSession | bin/code-bridge-host.js:466-474 | is the model's disconnect route |
| Host.Broker.HandleHttp | bin/code-bridge-host.js:363-481 | is the model's step for any HTTP request |
| Host.Broker.HandleSession | bin/code-bridge-host.js:391-464 | is the model's step for a request of a live session |
| Host.Broker.Handle | bin/code-bridge-host.js:362-796 | any event keeps the tables coherent and is a step of the model |
| Host.Broker.Serve | bin/code-bridge-host.js:362-796 | serving any sequence of events is a run of the model |
| ConsumerModel.SettlesAtMostOnce | src/mcp/consumer.ts:94-132 | over every run no promise settles twice or for another id, whatever ids are reused |
| ConsumerModel.ResultSettlesItsOwn | src/mcp/consumer.ts:122-132 | a result settles the promise its id is filed with, by its outcome, and nothing else |
| ConsumerModel.SettlesInTime | src/mcp/consumer.ts:94-105 | without close(), the promise of a request made at t while open has settled, for that id, by t + timeoutMs |
| ConsumerModel.RequestsAreSent | src/mcp/consumer.ts:94-105 | over every run the ids put on the wire and the promises returned are those of the requests made while open, in order, each due timeoutMs after its request |
| ConsumerModel.SettledForCause | src/mcp/consumer.ts:97-128 | over every run a promise times out by its own timer, and resolves or rejects by a result of its id with that outcome |
| ConsumerModel.ResultSettlesExactly | src/mcp/consumer.ts:94-132 | a result settles the promise of a request iff nothing has touched the entry of its id since: a result, a timer of the id, a new request under it, or close() |
| ConsumerModel.CloseStrandsExactlyPending | src/mcp/consumer.ts:107-112 | close() settles nothing and strands exactly the promises of the pending table |
| ConsumerModel.StrandedInEveryFuture | src/mcp/consumer.ts:107-112 | a stranded promise never settles |
| ConsumerModel.ArmedSettlesByItsTimer | src/mcp/consumer.ts:96-100 | an armed promise can still settle: its timer does it |
| Consumer.HostConsumer.SendControl | src/mcp/consumer.ts:94-105 | is the model's step, and throws iff not connected |
| Consumer.HostConsumer.OnTimer | src/mcp/consumer.ts:97-100 | is the model's timer step |
| Consumer.HostConsumer.HandleResult | src/mcp/consumer.ts:122-132 | is the model's result step |
| Consumer.HostConsumer.ClearTimers | src/mcp/consumer.ts:108-108 | the loop disarms exactly the pending entries' timers |
| Consumer.HostConsumer.CloseConnection | src/mcp/consumer.ts:107-112 | is the model's close step |
| EndToEnd.ControlResultAtMostOnce | src/mcp/consumer.ts:122-132 | with ids used once and HTTP bridges posting results to their route only, the consumer reports at most one result per id, over every run of the host and every interleaving |
| EndToEnd.OwnResultSettlesOwnPromise | bin/code-bridge-host.js:708-762 | a request under an id of the consumer's own, passed on by the host and answered by some bridge under the id it got, settles the promise of that very request with the outcome the bridge reported |
| ClientModel.WireTraceRefinesSpec | src/websocket.ts:69-84 | over any reconnects the wires are those of the specification: auth, hello, the last 200 waiting events, one drop notice iff more waited |
| ClientModel.NothingLostUncounted | src/websocket.ts:252-270 | over every run accepted = on the wire + buffered + dropped unreported + reported, order kept, and nothing buffered while open |
| ClientModel.NeverTwoConnections | src/websocket.ts:164-176 | there are never both a socket and an armed reconnect timer, as long as the application connects only when there is neither |
| ClientModel.ConnectIsSafeExactlyWhenIdle | src/websocket.ts:96-100 | and only then: connect() ends with both, at once or at the replaced socket's close event, iff a timer is armed or a socket still awaits that event |
| ClientModel.AlwaysReconnecting | src/websocket.ts:90-100 | without disconnect() and without a throwing constructor exactly one of the two exists from the first connect on |
| ClientModel.DisconnectStopsExactlyWhenIdle | src/websocket.ts:152-162 | disconnect() ends reconnecting iff no socket awaits its close event; otherwise that event re-arms the timer |
| ClientModel.DeadUntilConnectForGood | src/websocket.ts:164-176 | with neither socket nor timer, no run without the application's connect() brings either back |
| ClientModel.CatchDueExactly | src/websocket.ts:90-103 | over every run a catch handler is due iff a timer-driven attempt has failed since the last one ran: by an error before it opened or closed, or a throwing constructor; errors of the application's own connect() reach none |
| ClientModel.BackoffFormula | src/websocket.ts:164-176 | over every run in which catch handlers run before their socket opens or closes, the delay and the timer armed by a close are min(1000 * 2^k, 30000), k counting the timer-driven attempts that failed since the last open |
| BridgeWebSocket.Bridge.EnqueueEvent | src/websocket.ts:252-258 | is the model's enqueue: drop the oldest at 200 |
| BridgeWebSocket.Bridge.DrainBuffer | src/websocket.ts:262-265 | the shift loop sends the buffered events oldest first and empties the buffer |
| BridgeWebSocket.Bridge.FlushBuffer | src/websocket.ts:260-270 | is the model's flush |
| BridgeWebSocket.Bridge.SendHello | src/websocket.ts:107-126 | sends hello once per connection |
| BridgeWebSocket.Bridge.OnOpenEvent | src/websocket.ts:69-84 | is the model's open step |
| BridgeWebSocket.Bridge.ScheduleReconnect | src/websocket.ts:164-176 | arms the timer with the current delay unless one is armed |
| BridgeWebSocket.Bridge.OnCloseEvent | src/websocket.ts:96-100 | is the model's close step |
| BridgeWebSocket.Bridge.SendEvent | src/websocket.ts:128-136 | is the model's send step |
| BridgeWebSocket.Bridge.DisconnectClient | src/websocket.ts:152-162 | is the model's disconnect step |
| BridgeWebSocket.Bridge.Handle | src/websocket.ts:69-176 | any enabled input is a step of the model |
| Heartbeat.RunLoop | php/src/CodeBridge/Client.php:101-141 | the loop's exit and pings are those of the model |
| Heartbeat.PingsExactlyWhenDue | php/src/CodeBridge/Client.php:105-111 | a ping goes out in the first turn that begins an interval or more after the last one, and in no other |
| Heartbeat.DeadlineIsLastPong | php/src/CodeBridge/Client.php:124-126 | only a pong moves the deadline |
| Heartbeat.AbandonedExactlyWhenSilent | php/src/CodeBridge/Client.php:113-115 | a check gives up iff the last pong is a full timeout old |
| Heartbeat.SilentPeerIsAbandoned | php/src/CodeBridge/Client.php:101-141 | a silent peer is given up no later than the timeout plus one turn after its last pong |
| Heartbeat.ResponsivePeerIsKept | php/src/CodeBridge/Client.php:101-141 | pongs handled within d of each ping, interval + turn + d < timeout: never given up |
| Heartbeat.SelectLoop | rust/src/lib.rs:244-279 | the select loop's deadline and exit are those of the model |
| Heartbeat.LeftExactly | rust/src/lib.rs:244-279 | the loop is left exactly by a passed deadline or the end of what can be read |
| Heartbeat.SelectGivesUpOnTime | rust/src/lib.rs:244-279 | with a deadline that waits at most `late` behind other ready branches, a silent peer is given up between the timeout and the timeout plus `late` after its last pong, and nothing is done later |
| Heartbeat.SelectKeepsResponsivePeer | rust/src/lib.rs:244-279 | interval + d < timeout: a peer answering within d is never given up |
| Heartbeat.DeadlineFollowsLastBeat | src/websocket.ts:217-250 | over every run, while open, the timeout is due a timeout after the last ping or pong, and pings go out an interval apart |
| Heartbeat.SilentPeerDetectedExactly | src/websocket.ts:217-250 | a peer that falls silent after any history of pongs is closed iff the timeout fires before the next ping re-arms it |
| Heartbeat.DefaultsNeverDetect | src/websocket.ts:217-250 | with 15000 and 30000 ms no history of pings and pongs ever closes the connection |
| Heartbeat.AnsweringPeerIsClosed | src/websocket.ts:217-250 | with d + timeout shorter than the interval a peer answering within d is closed |
| Backoff.Start | php/src/CodeBridge/Client.php:25-49 | each sleep starts from the initial delay, doubled once per sleep since the last completed handshake, capped |
| Backoff.SleepIsBounded | php/src/CodeBridge/Client.php:242-245 | whatever the jitter, a sleep lies between the smaller of initial and maximum, and the maximum |
| Backoff.SleepIsCutExactly | php/src/CodeBridge/Client.php:242-245 | and is the delay times the factor, cut to whole milliseconds and to the maximum |
| Backoff.RunWithReconnect | rust/src/lib.rs:183-197 | the n-th sleep starts from n doublings whatever the connections achieved: the reset is never reached |
| Backoff.SleepIsTheShorter | rust/src/lib.rs:286-291 | each sleep is the stretched delay or the maximum, whichever is shorter |
| Backoff.SaturatedForGood | rust/src/lib.rs:286-291 | once the doubled delay reaches the maximum every later sleep is exactly the maximum |
| RustClient.BridgeClient.EnqueueEvent | rust/src/lib.rs:109-116 | is the model's enqueue |
| RustClient.BridgeClient.SendPending | rust/src/lib.rs:125-127 | the send loop, left at the first failure, has sent the first events in order |
| RustClient.BridgeClient.FlushBuffer | rust/src/lib.rs:118-133 | the whole flush has the effect the model gives in closed form |
| RustClient.BridgeClient.DrainToChannel | rust/src/lib.rs:222-231 | the pop loop hands over the whole buffer in order, then the drop notice |
| RustClient.BridgeClient.ConnectOnce | rust/src/lib.rs:202-231 | is the model's opening of a connection |
| RustClient.FlushLosesExactly | rust/src/lib.rs:118-133 | a flush loses nothing iff no send fails; otherwise exactly the events not sent and the drop count |
| RustClient.WireTraceRefinesSpec | rust/src/lib.rs:109-231 | over every run the wires are those of the specification: auth, hello, what the transport takes of the newest events that waited and one notice of how many older ones were dropped, then what came in meanwhile, and what is served |
| RustClient.EverythingIsAccounted | rust/src/lib.rs:109-133 | over every run: accepted = sent + buffered + dropped unreported + reported + lost + forgotten, order kept |
| RustClient.OnlyOpeningsCarryEvents | rust/src/lib.rs:233-279 | while no connection opens, no buffered event is sent, however long one is served |
| PhpModel.WaitSendsOnlyPongs | php/src/CodeBridge/Client.php:191-211 | while waiting for auth_success only pongs are sent |
| PhpModel.WaitSucceedsExactly | php/src/CodeBridge/Client.php:191-211 | waiting succeeds iff auth_success comes and every ping before it could be answered, and each was |
| PhpModel.WaitBuffersResults | php/src/CodeBridge/Client.php:191-229 | every control result produced while waiting was buffered, in order |
| PhpModel.FlushSendsScript | php/src/CodeBridge/Client.php:173-189 | a flush sends as much of buffer-then-notice as the transport takes |
| PhpModel.HandshakeGate | php/src/CodeBridge/Client.php:77-99 | an attempt's frames are auth, a pong per ping and, only after auth_success, hello and then the flush |
| PhpModel.FailedFlushKeepsBuffer | php/src/CodeBridge/Client.php:173-180 | a failure before the last payload is out leaves the whole buffer; after it the buffer is delivered and empty |
| PhpModel.NothingIsLostUncounted | php/src/CodeBridge/Client.php:160-189 | over every run: produced = delivered + buffered + counted drops + refused by a send that threw; the delivered is on the wire, and followed by the buffer in the order of production |
| PhpModel.ConnectedSendsAtOnce | php/src/CodeBridge/Client.php:160-164 | a connected client puts each payload on the wire at once, alone |
| PhpModel.BufferHoldsNewest | php/src/CodeBridge/Client.php:166-170 | over every run the buffer is the newest, as many as the limit allows, of what was taken on since the last complete flush |
| PhpModel.ConnectedExactly | php/src/CodeBridge/Client.php:77-99 | over every run the client is connected iff an attempt succeeded since the last loss, an attempt succeeding iff auth_success came and the transport took everything |
| PhpClient.Client.Enqueue | php/src/CodeBridge/Client.php:160-171 | is the model's step, and fails iff the transport throws |
| PhpClient.Client.FlushBuffer | php/src/CodeBridge/Client.php:173-189 | is the model's flush |
| PhpClient.Client.WaitForAuthSuccess | php/src/CodeBridge/Client.php:191-211 | is the model's waiting phase |
| PhpClient.Client.Connect | php/src/CodeBridge/Client.php:77-99 | is the model's connection attempt |
| EventBuffer.Buffer.constructor | src/mcp/event-buffer.ts:9-11 | the limit is at least one |
| EventBuffer.Buffer.Push | src/mcp/event-buffer.ts:13-20 | the buffer stays the last `limit` entries of the unbounded numbered log, and the new id is the number of pushes |
| EventBuffer.Buffer.Recent | src/mcp/event-buffer.ts:22-24 | the newest max of all events ever pushed, at most as many as the limit; all that are held for max = 0 |
| EventBuffer.Buffer.Matching | src/mcp/event-buffer.ts:26-36 | what slice(-max) keeps of the matching entries |
| EventBuffer.Buffer.Errors | src/mcp/event-buffer.ts:26-28 | the last of the buffered events of level error |
| EventBuffer.Buffer.Network | src/mcp/event-buffer.ts:30-32 | the last of those of type network |
| EventBuffer.Buffer.Navigation | src/mcp/event-buffer.ts:34-36 | the last of those of type navigation or pageview |
| EventBuffer.Buffer.LatestScreenshot | src/mcp/event-buffer.ts:38-43 | the newest buffered screenshot, or none iff there is none |
| EventBuffer.Buffer.ComputeStats | src/mcp/event-buffer.ts:45-51 | size, errors and last id in terms of the whole history |
| EventBuffer.IdsAreContiguous | src/mcp/event-buffer.ts:13-20 | ids are contiguous, end at the number of pushes and name the event pushed under them |
| EventBuffer.ZeroMeansEverything | src/mcp/event-buffer.ts:22-36 | for max = 0 it is everything |
| EventBuffer.QueryAgreesWithHistory | src/mcp/event-buffer.ts:22-36 | a query is the same query over the whole history cut to the window, and equals the uncut one iff the window holds enough matches or all |
| LuaQueue.Client.EnqueueEvent | lua/CodeBridge.lua:243-251 | is the model's enqueue step |
| LuaQueue.Client.FlushOnce | lua/CodeBridge.lua:262-279 | is the model's flush step, through the copy and removal loops |
| LuaQueue.QueueIsFaithful | lua/CodeBridge.lua:243-279 | over every run: accepted = removed in order + queue, the batches are the posted removals in order, each between 1 and maxBatch |
| LuaQueue.OverflowsOnlyWhenFull | lua/CodeBridge.lua:243-251 | over every run an event overflows only behind a full queue of newer ones |
| LuaQueue.FlushesEmptyTheQueue | lua/CodeBridge.lua:262-279 | while running with a session, k flushes post exactly the oldest k * maxBatch events in order; otherwise none |
| LuaQueue.AcceptsWhileRunning | lua/CodeBridge.lua:243-251 | over every run the events accepted are those offered while running |
| Serializer.SafeSerialize | src/client.ts:501-533 | the recursion over a mutated seen set computes the specified tree and set |
| Serializer.OutputIsBounded | src/client.ts:501-533 | over any graph at most N(depth) nodes, N(0) = 1, N(d) = 1 + 20 N(d-1) |
| Serializer.OnlyFirstTwentyCount | src/client.ts:513-520 | what comes after the first 20 entries of a container makes no difference to the result |
| Serializer.ExpandsOnce | src/client.ts:511-512 | one container per newly seen object: none is expanded twice |
| Serializer.IdentityExactly | src/client.ts:501-533 | a plain value held by the heap is serialised to itself iff it is lower than the depth, at most 20 wide, and no container occurs twice in it |
| Serializer.SharedRendersAsCircular | src/client.ts:511-512 | an instance: a shared object's second occurrence is rendered as circular without any cycle |
| Serializer.IdentityOnPlainTrees | src/client.ts:513-527 | on unshared plain trees lower than the depth and at most 20 wide it is the identity |
| NetworkPatch.NodeNetwork.Instrument | src/client.ts:221-226 | is the model's attach step |
| NetworkPatch.NodeNetwork.DetachSink | src/client.ts:210-219 | is the model's detach step |
| NetworkPatch.NodeNetwork.OnEndOrError | src/client.ts:316-359 | is the model's completion step, through the dispatch loop |
| NetworkPatch.PatchedExactlyWhileAttached | src/client.ts:208-226 | with each detach called at most once: count = sinks, and the slots are wrapped once over what was there, or over the supplied fetch, iff a sink is attached |
| NetworkPatch.OriginalsComeBackExactly | src/client.ts:376-443 | with no sink left http and https are the runtime's own; fetch is, too, iff no attach that patched supplied one |
| NetworkPatch.StrayDetachUnbalances | src/client.ts:210-219 | a detach keeps that balance iff its sink is attached; with one sink left a stray one removes the patch under it |
| NetworkPatch.AtMostOneEventEach | src/client.ts:281-361 | over every run at most one event per request and sink, whatever order end and error fire in |
| NetworkPatch.OneEventExactly | src/client.ts:247-361 | over every run with single detaches a request made while a sink was attached gives exactly one event to each sink attached when it first ends, except to those whose own bridge it goes to, and nothing else gives any |
| NetworkPatch.CompletionReachesCurrentSinks | src/client.ts:247-275 | the first completion reaches exactly the sinks attached then, except those whose own bridge is the target; later ones reach nobody |

## Left out

Assumptions of the host model:

- Time: every step reads the clock once and, where rates and orders are concerned, the clock never runs backwards; the screenshot bound also assumes a clock that is never 0, since the code treats a stored 0 as absent.
- Values: lower-casing is ASCII only, message fields have their documented types, and an absent field is the same as an empty string or a zero timestamp.
- Ids: HTTP session ids are a counter instead of random bytes, so they are fresh; sockets are numbered.
- Sessions: the HTTP session objects are values in the session map, referred to by id; the model does not capture that the tables share the object itself.
- HostSessions.SilentSessionIsRemoved: assumes that no pruning tick is skipped; it says nothing about ticks that come late.
- ConsumerModel.SettlesInTime: assumes punctual timers; a timer that fires late settles its promise late.
- HostControl.ResultsNeverOutnumberRequests: HTTP bridges may also smuggle a `control_result` in as an event; such runs are excluded.
- ClientModel.WireTraceRefinesSpec: the application calls connect() only while no socket and no timer exists, which `ConnectIsSafeExactlyWhenIdle` shows to be needed; an event's content, validation and redaction are not modelled, only that it was accepted.
- RustClient.EverythingIsAccounted: the buffer limit is assumed positive, here and in WireTraceRefinesSpec, and a frame handed to the writer task counts as sent.
- PhpModel.NothingIsLostUncounted: the buffer limit is assumed positive.
- Heartbeat.SelectGivesUpOnTime: how long a passed deadline may wait behind other ready branches is a parameter.
- NetworkPatch.PatchedExactlyWhileAttached: every attach is given the same http and https modules, and a supplied fetch is another function than the runtime's own.

Not modelled:

- Sockets, HTTP parsing, JSON text, console logging, the order of frames inside the network.
- The workspace lock, port search, secret and metadata files, signals and shutdown of the host.
- Hello fields other than the capabilities; they are stored and never read.
- Fetch, XHR, history and console patching in browsers; the fetch wrapper's own request handling; request sizes and URL normalisation.
- Breadcrumbs, throttling and enable/disable gating of the reference client.
- The consumer's connect and subscribe handshakes, and what a caller does with a settled promise.
- The Rust client's handshake beyond how it ends, and frames its writer task fails to write; jitter is an arbitrary factor in its range.
- The PHP run loop's frames: only its timing is modelled; Lua's sessions beyond whether one exists, and whether a posted batch arrives.
- The Go, Ruby, Java, Swift and Python clients, which repeat the same buffers under library threads or tasks.
- MCP wiring, command line, platform detection, demos.
