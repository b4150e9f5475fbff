# RinaDown: a verified model of its client protocols

The download manager RinaDown consists of a desktop App, an agent and a daemon behind it, a
browser extension that talks to the App through a native-messaging host, and plugins. This project
models the places where these parts have to agree with each other, and a few algorithms with a
real specification, and proves what they promise over all inputs and all runs.

| file | what it models |
|---|---|
| `SettingsClient.dfy`, `SettingsStore.dfy` | the settings store: an optimistic, debounced write-back cache with one outstanding flush; its transitions as functions, and the store itself as a class |
| `SettingsSystem.dfy`, `SettingsTheorems.dfy`, `SettingsGuarantees.dfy`, `SettingsAccounting.dfy`, `SettingsDisplay.dfy` | the store together with the daemon's revisioned configuration, the event stream, other writers and lost sessions, as one step system; its invariant; the guarantees over all runs |
| `RequestTable.dfy` | the extension's table of native-messaging requests |
| `BatchChunks.dfy`, `Delivery.dfy` | cutting a batch into frames; the guarded retry, the batch and its legacy form, the routing between App and remote server |
| `AgentClient.dfy` | JSON-RPC calls over successive sessions with the agent |
| `ServiceBootstrap.dfy`, `CaptureQueue.dfy` | single-flight launch of the agent; the agent's bounded confirmation queue |
| `DedupUrl.dfy`, `ResourceStore.dfy` | the canonical URL of a detected resource; the capped list of each browser tab |
| `JsonScan.dfy` | the budgeted depth-first scans of JSON responses |
| `QualityLadder.dfy`, `ArgTokenizer.dfy` | the yt-dlp plugin's list of qualities; its argument splitter |
| `Icons.dfy`, `CaptureLink.dfy` | the ICO and BMP writers; the App's link decoder |
| `Prelude.dfy` | stock datatypes |

Where the source updates an object in place there is a class whose methods are proved equal to a
function of the old state, and the guarantees are proved about that function over all runs. A step
that is not enabled changes nothing. What comes from outside, such as what becomes of a message,
when a timer goes off, or what the URL library says, is a parameter, and the theorems hold for
every value of it.

Where the code does not do what its comments or its callers expect, the model follows the code. Each
such finding is proved with a concrete run or input, or a family of them, next to the exact condition
under which the expectation holds or fails:

| finding | shown by | exact condition |
|---|---|---|
| an accepted preference edit is lost to an older one | `SettingsClient.PrefEditLost` | `SettingsClient.PrefEditKeptIff` |
| an acknowledged key is shown with a value the daemon does not have | `SettingsGuarantees.OtherWriterMasked`, `RewrittenKeyMasked` | `SettingsGuarantees.AgreesIffNotLeftBehind` |
| after a commit that was not published no patch is stored | `SettingsGuarantees.WedgeHappens` | `SettingsGuarantees.FlushStoresIff` |
| an edit drained at quitting is refused | `SettingsGuarantees.DrainLosesEdit` | `SettingsGuarantees.DrainAcceptedIff` |
| success is reported for a request the App never got | `Delivery.LaunchedTooLate` | `Delivery.HollowSuccessIff` |
| one request reaches the App and the remote server | `Delivery.DuplicatedAcrossChannels` | `Delivery.BothChannelsIff` |
| a large document is rated low, against `rinaDown/utils/resource-types.ts:810-813` | `ResourceStore.KnownSizeLowers` | `ResourceStore.HighIff` |
| the rating depends on the order of two sightings | `ResourceStore.OrderMatters`, `TinyAttachmentRaises` | `ResourceStore.OrderMattersIff` |
| mp4 displaces a greater height, against `examples/plugins/ytdlp/resolve.js:228-231` | `QualityLadder.Mp4BeatsHeight` | `QualityLadder.NearestWithMp4Iff` |
| a number passes for a track's URL | `JsonScan.NumberTakenForUrl` | `JsonScan.TrackUrlIsTextIff` |
| trimming a line of arguments changes an argument | `ArgTokenizer.BlankInOpenQuoteIsLost`, `NoBreakSpaceIsLost` | `ArgTokenizer.TrimHarmlessIff` |
| a plus sign is read as part of an escape | `CaptureLink.PlusIsRead` | `CaptureLink.EscapesIff` |
| decoding stops the program on well-formed text | `CaptureLink.WholeTextCuts` | `CaptureLink.CutsIff` |
| a link is taken for the other form of link | `CaptureLink.QueryTakenForLink` | `CaptureLink.BareLinkRoundTripIff` |
| a call loses its answer to a later one | `AgentClient.LastNumberIsReached`, `LastNumberIsShared` | `AgentClient.DisplacedIff` |

## Hypotheses

- Convergence of settings is stated for keys outside the sync catalogue. `CalmRun` lists what it
  needs: every commit of the daemon is published, no batch is dropped, other writers keep away from
  keys stored for us and not yet acknowledged, and the daemon stores our values in the form they are
  sent. `AgreesIffNotLeftBehind` needs none of this and says exactly when a key is shown wrongly.
- `Delivery.SaneTries`: the App's refusals do not borrow the texts that the extension and the host
  use for lost messages.
- `DedupUrl.Faithful`: whatever a text parses to, its canonical form, printed, parses back to itself.
- `CaptureQueue`: the transaction ids drawn at random differ.
- `ScoreIsLexicographic`, `NearestHeight`, `NearestWithMp4Iff`: bit rates lie between 0 and one million,
  and the tier is at most 2160 lines, as all are. `M4aComesFirst`: rates up to 100000 and sizes up to
  10^14 bytes, none negative.

## Model

| member | source | states |
|---|---|---|
| `SettingsStores.SettingsStore.OverlayLocalEdits` | crates/settings/src/store.rs:219-230 | unacknowledged edits are put back over what the server sent, unsent ones over sent ones |
| `SettingsStores.SettingsStore.ReplaceSnapshot` | crates/settings/src/store.rs:143-159 | a snapshot replaces the values, ends staleness, keeps local edits on top and clears the error |
| `SettingsStores.SettingsStore.ConfigChanged` | crates/settings/src/store.rs:165-169 | a configuration event replaces the daemon's values and keeps local edits on top |
| `SettingsStores.SettingsStore.PreferencesChanged` | crates/settings/src/store.rs:183-186 | the same for preferences |
| `SettingsStores.SettingsStore.MarkStale` | crates/settings/src/store.rs:205-216 | all four edit maps are dropped, timers and flush flags are not |
| `SettingsStores.SettingsStore.SetDaemon` | crates/settings/src/store.rs:352-382 | refusal, no-op, and the routing of an edit by the catalogue |
| `SettingsStores.SettingsStore.SetPref` | crates/settings/src/store.rs:419-449 | the same for preferences, with the write to the daemon's read side that precedes the early return |
| `SettingsStores.SettingsStore.TimerFires` | crates/settings/src/store.rs:745-773 | the debounce timer starts a flush of everything unsent unless one is out, with the calls made then |
| `SettingsStores.SettingsStore.BuildCalls` | crates/settings/src/store.rs:832-870 | the calls of a flush, with the revision known when it starts |
| `SettingsStores.SettingsStore.Finish` | crates/settings/src/store.rs:784-827 | success, re-queued conflict, and dropped batch |
| `SettingsStores.SettingsStore.DrainPendingCalls` | crates/settings/src/store.rs:734-741 | unsent edits become calls at once, those in flight stay |
| `SettingsStores.OrInsertAll` | crates/settings/src/store.rs:803-810 | re-queueing never overwrites a newer unsent edit |
| `SettingsClient.CataloguedIff` | crates/settings/src/store.rs:371-379 | which daemon keys travel as preferences |
| `SettingsClient.RequeueKeepsEffective` | crates/settings/src/store.rs:798-812 | a re-queued conflict changes the value that will be written of no key |
| `SettingsClient.EveryKeyInOneCall` | crates/settings/src/store.rs:832-870 | every flushed key is written by exactly one of at most three calls, with its value |
| `SettingsClient.EveryEditIsDrained` | crates/settings/src/store.rs:734-741 | quitting leaves no unsent edit, and every one of them is written by exactly one of the drained calls |
| `SettingsClient.PrefEditGoesOut` | crates/settings/src/store.rs:419-449 | a new preference edit is written once, as given, and to the cloud exactly if its first spec does not exclude it |
| `SettingsClient.DaemonEditGoesOut` | crates/settings/src/store.rs:352-382 | a new edit of a daemon setting goes to the daemon under its key or, if catalogued, to the cloud under its spec's |
| `SettingsClient.PrefEditKeptIff` | crates/settings/src/store.rs:419-449 | exactly when an accepted preference edit is the one that will be written |
| `SettingsClient.PrefEditLost` | crates/settings/src/store.rs:440-442 | a state in which an accepted edit is lost to an older one |
| `SettingsTheorems.StepInv` | crates/settings/src/store.rs:143-870 | every step of the whole system keeps the invariant: pump, revisions, conflict count, what is shown, the flush in flight, the event stream |
| `SettingsTheorems.RunInv` | crates/settings/src/store.rs:143-870 | and so does every run |
| `SettingsGuarantees.PumpInEveryRun` | crates/settings/src/store.rs:745-830 | at most one timer and one flush; sent edits only while a flush is out; unsent edits only while something will write them; no edits while stale |
| `SettingsGuarantees.LatestEditWins` | crates/settings/src/store.rs:219-230 | over all runs, an edit still to be written is the last the user made for its key, and is what is shown |
| `SettingsGuarantees.FourthConflictDrops` | crates/settings/src/store.rs:798-821 | over all runs, exactly three conflicts in a row are re-queued; the next drops the batch with an error |
| `SettingsGuarantees.AgreesIffNotLeftBehind` | crates/settings/src/store.rs:161-230 | with everything delivered, the revision agrees, and a key's value agrees if and only if it was not left behind by an acknowledgement |
| `SettingsGuarantees.CalmStep` | native/daemon/src/actor.rs:1181-1220 | a calm step leaves nothing behind and keeps every commit published |
| `SettingsGuarantees.CalmRunConverges` | native/engine/src/db.rs:2018-2066 | after any calm run, with everything delivered, client and daemon agree on the revision and every key |
| `SettingsGuarantees.OtherWriterMasked` | crates/settings/src/store.rs:788-791 | a second writer between commit and acknowledgement is masked for good |
| `SettingsGuarantees.RewrittenKeyMasked` | native/daemon/src/config.rs:66-87 | a key the daemon stores in another form is masked without any other writer |
| `SettingsGuarantees.FlushStoresIff` | crates/settings/src/store.rs:760-870 | in every reachable state with nothing under way and something to send, the next flush is stored if and only if the store's revision has been published |
| `SettingsGuarantees.WedgeHappens` | native/daemon/src/actor.rs:1203-1219 | a run without any other writer after which the next patch of a connected client that has received everything is refused |
| `SettingsGuarantees.UnpublishedCommitWedges` | native/daemon/src/actor.rs:1203-1219 | until something publishes, every later patch is refused |
| `SettingsGuarantees.QuietFlushDelivers` | crates/settings/src/store.rs:760-870 | a connected, up-to-date client's next flush stores all its edits and leaves it up to date |
| `SettingsGuarantees.DrainAcceptedIff` | crates/settings/src/store.rs:734-741 | over all runs, a patch drained at quitting names the revision the daemon will have exactly when the flush in flight will not be stored and the client is up to date |
| `SettingsGuarantees.DrainLosesEdit` | crates/settings/src/store.rs:734-741 | a run in which the drained patch is refused |
| `SettingsAccounting.EveryEditIsAccounted` | crates/settings/src/store.rs:143-830 | over all runs, an edit to be written stays so until the user's next, a commit of the daemon that is acknowledged, or an error that is shown |
| `SettingsAccounting.AcknowledgedWasCommitted` | native/daemon/src/actor.rs:1181-1220 | a flush answered without error was committed at a step since which its answer has been on the way |
| `SettingsAccounting.AcceptedEditHolds` | crates/settings/src/store.rs:352-382 | an edit the store takes is to be written from then on |
| `SettingsAccounting.EveryPrefEditIsAccounted` | crates/settings/src/store.rs:143-830 | over all runs, the same for a preference edit: superseded, acknowledged by the flush that asked for it, or dropped with an error |
| `SettingsAccounting.SentPrefWasAsked` | crates/settings/src/store.rs:832-870 | a preference edit waiting for its acknowledgement was asked for, once and as it is, by the flush that is out |
| `SettingsDisplay.EverythingShown` | crates/settings/src/store.rs:143-230 | over all runs, each value and preference shown is the user's own since the last receipt, or one still unwritten then, or the one received; and the error shown is the last |
| `SettingsDisplay.ReceivedPrefsAreShown` | crates/settings/src/store.rs:183-186 | preferences that arrive are shown at once, under the edits still to be written |
| `RequestTable.EveryIdResolvedOnce` | rinaDown/utils/native-messaging.ts:213-242 | over all interleavings, the extension's closing of its port included, an issued id waits with a live timer or was resolved once, and never both |
| `RequestTable.LateEventsIgnored` | rinaDown/utils/native-messaging.ts:155-192 | late replies change nothing; losing the port empties the table |
| `RequestTable.SilenceSettlesEverything` | rinaDown/utils/native-messaging.ts:226-229 | once the timers have gone off every call has been resolved |
| `RequestTable.CallIsAnswered` | rinaDown/utils/native-messaging.ts:213-242 | what every call comes to: a refusal, a failed write, or a place in the table under the next id |
| `RequestTable.WaitingIsAnswered` | rinaDown/utils/native-messaging.ts:155-229 | a waiting request is answered with its reply, a timeout, or the loss of the port, by these texts |
| `RequestTable.NativePort.OpenPort` | rinaDown/utils/native-messaging.ts:144-153 | the port is opened once and kept |
| `RequestTable.NativePort.Send` | rinaDown/utils/native-messaging.ts:213-242 | registration before the write, and its undoing when the write fails |
| `RequestTable.NativePort.Receive` | rinaDown/utils/native-messaging.ts:155-170 | a reply resolves the request with its id |
| `RequestTable.NativePort.Expire` | rinaDown/utils/native-messaging.ts:226-229 | a timer resolves its request |
| `RequestTable.NativePort.PortDisconnected` | rinaDown/utils/native-messaging.ts:172-192 | the loop over the waiting requests resolves each and leaves none |
| `RequestTable.NativePort.ClosePort` | rinaDown/utils/native-messaging.ts:198-207 | the extension's own closing of the port leaves the table alone |
| `BatchChunks.ChunkBatchWireItems` | rinaDown/utils/native-messaging.ts:364-387 | the chunks hold the items in order, each fits a frame or is a single item, and none has room for the next item |
| `BatchChunks.GreedyIsOptimal` | rinaDown/utils/native-messaging.ts:359-363 | no order-preserving partition into acceptable frames uses fewer |
| `Delivery.ReceivedTwiceIff` | rinaDown/utils/native-messaging.ts:250-298 | exactly when the App gets one request twice: an answer lost, a ping unanswered, the repeat delivered |
| `Delivery.HollowSuccessIff` | rinaDown/utils/native-messaging.ts:282-292 | exactly when success is reported for a request the App never got |
| `Delivery.LaunchedTooLate` | native/nmh/src/main.rs:728-752 | such a case: the App comes up between the failed message and the ping |
| `Delivery.RemoteIff` | rinaDown/utils/download-dispatch.ts:146-177 | the remote server is tried exactly when the first chunk's send ends in an unreachable text |
| `Delivery.AcknowledgedNeverResent` | rinaDown/utils/native-messaging.ts:468-487 | once a chunk is acknowledged, nothing is posted item by item and nothing goes to the remote server |
| `Delivery.HandledAtMostOnce` | rinaDown/utils/native-messaging.ts:394-490 | without an unanswered ping the App acts on each item of a batch at most once, legacy form included |
| `Delivery.NothingIsSkipped` | rinaDown/utils/native-messaging.ts:394-490 | every chunk up to the first failure is posted, and every item on its own when the App does not know batches |
| `Delivery.BatchSucceedsIff` | rinaDown/utils/native-messaging.ts:460-490 | success is reported exactly when every chunk was acknowledged, or an item of the legacy form |
| `Delivery.AllSentIff` | rinaDown/utils/native-messaging.ts:413-440 | the answer names the full number exactly when all was acknowledged |
| `Delivery.SuccessIsReceived` | rinaDown/utils/native-messaging.ts:460-490 | what is reported sent in full was received in full, unless a lost message was taken for a delivered one |
| `Delivery.BothChannelsIff` | rinaDown/utils/download-dispatch.ts:162-177 | exactly when an item reaches both the App and the remote server |
| `Delivery.DuplicatedAcrossChannels` | rinaDown/utils/native-messaging.ts:265-298 | a failed first write and a late answer to the repeat are enough |
| `Delivery.GoesRemoteIff` | rinaDown/utils/download-dispatch.ts:115-177 | exactly when a request goes to the remote server: there is one, and the mode or the text of the failure calls for it |
| `Delivery.TableReplies` | rinaDown/utils/native-messaging.ts:155-242 | what the table answers a call with is what the sender takes for its outcome |
| `Delivery.Sender.SendWithRetry` | rinaDown/utils/native-messaging.ts:250-298 | at most two posts of the request and one ping between them, and the answer each outcome gives |
| `Delivery.Sender.SendLegacy` | rinaDown/utils/native-messaging.ts:394-441 | every item is posted on its own, with its own retry, and the summary counts them |
| `Delivery.Summary` | rinaDown/utils/native-messaging.ts:413-440 | success if and only if an item got through, and never an unreachable text |
| `Delivery.Sender.SendBatch` | rinaDown/utils/native-messaging.ts:460-490 | chunks in order up to the first failure; legacy posts only after a refusal of the first chunk as unknown; the answer in each case |
| `Delivery.Sender.DispatchOne` | rinaDown/utils/download-dispatch.ts:121-144 | routing of a single request by mode |
| `Delivery.Sender.DispatchBatch` | rinaDown/utils/download-dispatch.ts:146-177 | routing of a batch by mode, and the channel stamped on the answer |
| `AgentClient.EveryCallAnsweredOnce` | crates/app/src/agent_client.rs:81-105 | over all runs, every call is queued, pending or answered, one of them, and answered at most once; a stopped client has answered all |
| `AgentClient.ReplyReachesItsOwnCall` | crates/app/src/agent_client.rs:226-242 | a reply answers the call that its number was last sent for on this session; any other, of the handshake too, changes nothing |
| `AgentClient.FailureReachesItsOwnCall` | crates/app/src/agent_client.rs:235-242 | an error reply gives its call the error, or "internal" without one, and frees its number; any other changes nothing |
| `AgentClient.CallIsQueued` | crates/app/src/agent_client.rs:81-105 | what every call comes to: refused, unavailable, or last in the queue |
| `AgentClient.SentUnderNextNumber` | crates/app/src/agent_client.rs:193-212 | a command sent waits under the next number, 10 for the first of a session |
| `AgentClient.SessionEndsIff` | crates/app/src/agent_client.rs:195-250 | exactly what ends a session, and that all it was waiting for is then unavailable |
| `AgentClient.StopsIff` | crates/app/src/agent_client.rs:112-155 | exactly what stops the client between sessions, and that its queue is then unavailable |
| `AgentClient.AnswersComeFromReplies` | crates/app/src/agent_client.rs:228-241 | over all runs answers are final, and an answer other than "unavailable" came in a reply or refuses parameters that cannot be encoded |
| `AgentClient.TakenInOrder` | crates/app/src/agent_client.rs:195-212 | sessions take the accepted calls in order, each once, across lost sessions |
| `AgentClient.DisplacedIff` | crates/app/src/agent_client.rs:206-210 | over all runs, a command sent takes a waiting call's answer away exactly when both get the last number |
| `AgentClient.LastNumberIsReached` | crates/app/src/agent_client.rs:193-210 | some run has a call waiting on the last number and another in the queue |
| `AgentClient.LastNumberIsShared` | crates/app/src/agent_client.rs:206-210 | then the first call is unavailable and its reply goes to the second |
| `AgentClient.HandshakeIs` | crates/app/src/agent_client.rs:252-284 | a handshake ends with the first message that is not another's reply: with a value, an error for good, or neither |
| `AgentClient.CallOnSocket` | crates/app/src/agent_client.rs:252-284 | a handshake request that cannot be encoded or written is transient; otherwise the first message not read past decides |
| `AgentClient.ClientTask.MakeCall` | crates/app/src/agent_client.rs:88-104 | a call is refused if its parameters cannot be encoded, unavailable if the client has stopped, and queued otherwise |
| `AgentClient.ClientTask.Connecting` | crates/app/src/agent_client.rs:118-125 | a session starts with an empty table and number 10, or the client stops |
| `AgentClient.ClientTask.Command` | crates/app/src/agent_client.rs:204-212 | a command leaves the queue for a fresh number; if it cannot be encoded or written the session ends with it |
| `AgentClient.ClientTask.Incoming` | crates/app/src/agent_client.rs:226-242 | a reply settles the call waiting under its number, and no other |
| `AgentClient.ClientTask.FailPending` | crates/app/src/agent_client.rs:246-249 | the end of a session makes every pending call unavailable |
| `AgentClient.ClientTask.RunConnected` | crates/app/src/agent_client.rs:195-250 | the session's loop performs the steps of the system until one ends it |
| `ServiceBootstrap.AtMostOneAgent` | crates/app/src/service_bootstrap.rs:29-57 | over all interleavings at most one child is unreaped or alive, of the newest generation; `running` says exactly whether; the reaper's comparison never fails |
| `ServiceBootstrap.EnsureLaunches` | crates/app/src/service_bootstrap.rs:29-57 | after a call whose spawn succeeds one child is unreaped: the one there was, or a new one of the next generation |
| `ServiceBootstrap.ExitedIsReplaced` | crates/app/src/service_bootstrap.rs:49-57 | a child that exits is reaped, and the next call launches another |
| `ServiceBootstrap.Launcher.Ensure` | crates/app/src/service_bootstrap.rs:29-57 | a call with the lock held spawns nothing while a child is unreaped, and says whether one runs |
| `ServiceBootstrap.Launcher.Reaped` | crates/app/src/service_bootstrap.rs:49-55 | a reaper leaves the list and ends `running` if its generation is current |
| `CaptureQueue.EveryCaptureDecidedOnce` | native/agent/src/capture.rs:40-114 | over all runs, at most 64 pending, in order; each accepted transaction is pending, confirmed or rejected, one of them, once |
| `CaptureQueue.CreatedOnce` | native/agent/src/capture.rs:45-47 | tasks are asked for once per silent submission and once per confirmation |
| `CaptureQueue.ConfirmCreatesItsRequest` | native/agent/src/capture.rs:95-114 | confirming a waiting transaction asks for one task, with the request submitted under its id; any other decision asks for none |
| `CaptureQueue.SubmissionWaits` | native/agent/src/capture.rs:40-71 | a submission waits last in line unless 64 wait already; a silent one asks for its task at once |
| `CaptureQueue.DecisionIsFinal` | native/agent/src/capture.rs:95-114 | a decision takes the transaction out, leaves the others in order, and cannot be made twice |
| `CaptureQueue.CaptureService.Submitting` | native/agent/src/capture.rs:40-71 | silent, full, queued, and whether it is the first |
| `CaptureQueue.CaptureService.Resolving` | native/agent/src/capture.rs:95-114 | a decision takes the transaction out of the queue, or finds none |
| `DedupUrl.NormalizeIff` | rinaDown/utils/resource-types.ts:682-702 | two texts share a key exactly when they name the same resource: same prefix, and the same values in order of every name that is not stripped |
| `DedupUrl.NormalizeIdempotent` | rinaDown/utils/resource-types.ts:682-702 | the key of a key is itself |
| `DedupUrl.CanonIff` | rinaDown/utils/resource-types.ts:684-699 | the same for parsed URLs, without any hypothesis |
| `DedupUrl.OrderedUnique` | rinaDown/utils/resource-types.ts:699 | a list sorted by name is determined by the values of each name |
| `DedupUrl.UrlObject.Canonicalize` | rinaDown/utils/resource-types.ts:685-699 | editing the URL in place, deletion by deletion, gives the canonical form |
| `ResourceStore.HighIff` | rinaDown/utils/resource-types.ts:825-853 | exactly when a resource is rated high |
| `ResourceStore.MediumIff` | rinaDown/utils/resource-types.ts:839-870 | exactly when it is rated medium |
| `ResourceStore.ShownMediaIsHigh` | rinaDown/utils/resource-types.ts:877-900 | audio and video shown with a known size are rated high |
| `ResourceStore.ListedIff` | rinaDown/utils/resource-types.ts:877-910 | exactly which resources seen for the first time are listed |
| `ResourceStore.NewEntryIs` | rinaDown/utils/resource-store.ts:92-124 | a new entry has the sighting's facts and the rating they deserve |
| `ResourceStore.SeenAgainLearns` | rinaDown/utils/resource-store.ts:215-259 | a known entry keeps what it knew, learns the rest, and is rated high exactly if it was or now deserves it |
| `ResourceStore.CountIsNewOnes` | rinaDown/utils/resource-store.ts:60-128 | the count returned is the number of sightings that made an entry under a key not there before |
| `ResourceStore.EveryRunIsFiled` | rinaDown/utils/resource-store.ts:60-128 | from any list so filed, every run keeps at most 500 entries, each once and under its canonical URL, with no noise and no in-page URL among them |
| `ResourceStore.OnlyWorstIsLost` | rinaDown/utils/resource-store.ts:39-52 | an entry is lost only from a full list, to a new entry, and only if none is rated lower, nor as low and older |
| `ResourceStore.HighIsLostLast` | rinaDown/utils/resource-store.ts:39-52 | no entry is lost while a lower rated one is there, or an older one rated alike |
| `ResourceStore.EntryNeverFalls` | rinaDown/utils/resource-store.ts:215-259 | an entry that stays keeps its origin and its rating never falls |
| `ResourceStore.KeptEntryNeverFalls` | rinaDown/utils/resource-store.ts:215-259 | and over every run, as long as it is not evicted |
| `ResourceStore.AddTwice` | rinaDown/utils/resource-store.ts:75-125 | seeing the same payload again changes nothing |
| `ResourceStore.OrderMattersIff` | rinaDown/utils/resource-store.ts:75-125 | of two sightings of one resource, either order lists it or neither; exactly when the two orders rate it differently |
| `ResourceStore.OrderMatters` | rinaDown/utils/resource-store.ts:249-258 | so with a document seen once with its size and once without |
| `ResourceStore.TinyAttachmentRaises` | rinaDown/utils/resource-types.ts:877-900 | and with a tiny image sent as an attachment, which is hidden when it comes first |
| `ResourceStore.ListingIsSorted` | rinaDown/utils/resource-store.ts:165-176 | the listing is a permutation of the entries, best first |
| `ResourceStore.HighComesFirst` | rinaDown/utils/resource-store.ts:165-176 | high before medium before low, the later first among equals |
| `ResourceStore.ListingIsStable` | rinaDown/utils/resource-store.ts:165-176 | entries of one rating and time keep their order |
| `ResourceStore.EvictedRanksLast` | rinaDown/utils/resource-store.ts:39-52 | what eviction takes ranks with the last line of the listing |
| `ResourceStore.Store.EvictLowest` | rinaDown/utils/resource-store.ts:39-52 | the loop finds the first of the worst |
| `ResourceStore.Store.AddResources` | rinaDown/utils/resource-store.ts:60-128 | the tab's new list after all payloads, each with its own time, the other tabs unchanged, and the number of new entries |
| `ResourceStore.Store.GetResourcesForTab` | rinaDown/utils/resource-store.ts:165-176 | the tab's entries best first, none lost or added, and those that rank the same in their old order; empty for an unknown tab |
| `JsonScan.PreorderIffReachable` | rinaDown/utils/dash-manifest.ts:129-156 | the nodes the scans range over are exactly those within the depth limit |
| `JsonScan.MediaScan.Visit` | rinaDown/utils/media-sniff.ts:92-128 | the recursion visits exactly the first nodes in preorder that fit the budget; its counter stops one past it |
| `JsonScan.ScanForMediaUrls` | rinaDown/utils/media-sniff.ts:88-136 | the URLs of the first five thousand near nodes, in order, without repetition |
| `JsonScan.MediaUrlsAre` | rinaDown/utils/media-sniff.ts:67-69 | no URL twice, only URLs of near leaves, and all of them when the near nodes fit the budget |
| `JsonScan.DashScan.Find` | rinaDown/utils/dash-manifest.ts:129-156 | the search finds the first fitting node among those that fit the budget; its counter stops one past it |
| `JsonScan.FindDashNode` | rinaDown/utils/dash-manifest.ts:166-169 | the first fitting node of the first three thousand near nodes |
| `JsonScan.DashNodeIs` | rinaDown/utils/dash-manifest.ts:128-156 | what is found is near and fits; nothing is found only if no near node fits, when they fit the budget |
| `JsonScan.DashNodeIff` | rinaDown/utils/dash-manifest.ts:50-152 | exactly which nodes are taken for a manifest's |
| `JsonScan.TrackUrlIsTextIff` | rinaDown/utils/dash-manifest.ts:67-88 | exactly when the field taken for a track's URL is a text |
| `JsonScan.NumberTakenForUrl` | rinaDown/utils/dash-manifest.ts:85-95 | a number passes for the URL although another field has one |
| `QualityLadder.NestedBest` | examples/plugins/ytdlp/resolve.js:232-252 | the first best of all is the first best of any part it is in |
| `QualityLadder.LowerTier` | examples/plugins/ytdlp/resolve.js:324-328 | a lower tier keeps the choice or goes strictly below it |
| `QualityLadder.VariantsAreALadder` | examples/plugins/ytdlp/resolve.js:296-370 | one to seven entries: the default, video entries of strictly falling heights other than the default's, and an audio entry exactly when there is a track and the default is not one |
| `QualityLadder.EveryTierIsListed` | examples/plugins/ytdlp/resolve.js:324-331 | the height chosen for each of the five tiers is the default's or that of an entry |
| `QualityLadder.EveryRungIsChosen` | examples/plugins/ytdlp/resolve.js:324-331 | every video entry was chosen for some tier |
| `QualityLadder.VariantsHaveSound` | examples/plugins/ytdlp/resolve.js:332-350 | every video entry has the URL, height and container of a video format, and its own sound or the URL of a track, of the fitting container when the list has one; its size is the sum |
| `QualityLadder.LastEntryIsTrack` | examples/plugins/ytdlp/resolve.js:352-366 | the audio entry has the fields of a track of the list |
| `QualityLadder.BestTrackIsNotOutdone` | examples/plugins/ytdlp/resolve.js:208-226 | no track is chosen over one at least as good in rate and size and better in one, unless a preferred m4a |
| `QualityLadder.M4aComesFirst` | examples/plugins/ytdlp/resolve.js:220-221 | with mp4 preferred an m4a track is chosen when there is one |
| `QualityLadder.ScoreIsLexicographic` | examples/plugins/ytdlp/resolve.js:244-246 | what the score orders by: container if preferred, then height, then rate |
| `QualityLadder.NearestHeight` | examples/plugins/ytdlp/resolve.js:228-252 | without a preference the choice is the nearest height at or below the tier |
| `QualityLadder.NearestWithMp4Iff` | examples/plugins/ytdlp/resolve.js:228-252 | with mp4 preferred it is so exactly when no eligible format is mp4 or some mp4 has that height |
| `QualityLadder.Mp4BeatsHeight` | examples/plugins/ytdlp/resolve.js:245 | with mp4 preferred, 360 lines displace 2160 |
| `QualityLadder.PickBestAudio` | examples/plugins/ytdlp/resolve.js:208-226 | the loop finds the first best audio track |
| `QualityLadder.PickVideoAtOrBelow` | examples/plugins/ytdlp/resolve.js:232-252 | the loop finds the first best video at or below the height |
| `QualityLadder.TierVariant` | examples/plugins/ytdlp/resolve.js:325-350 | one turn of the ladder loop; its branch for silent formats is dead |
| `QualityLadder.BuildVariants` | examples/plugins/ytdlp/resolve.js:303-370 | the loop over the tiers builds the whole list, and its limit of ten never cuts |
| `ArgTokenizer.ParseExtraArgs` | examples/plugins/ytdlp/resolve.js:121-150 | the loop splits the trimmed line |
| `ArgTokenizer.WrittenArgumentsAreRead` | examples/plugins/ytdlp/resolve.js:119-150 | arguments written in pieces, bare, quoted or quoted as they are, with any gaps between and blanks around, are read back exactly |
| `ArgTokenizer.SplitterUndoesQuoting` | examples/plugins/ytdlp/resolve.js:119-150 | every list of strings survives double-quoting, joining and splitting |
| `ArgTokenizer.TrimHarmlessIff` | examples/plugins/ytdlp/resolve.js:122 | trimming changes no argument exactly when it takes off separators only and, at the end, none behind an open quotation |
| `ArgTokenizer.BlankInOpenQuoteIsLost` | examples/plugins/ytdlp/resolve.js:122 | trimming eats the blank that ends an unclosed quotation |
| `ArgTokenizer.NoBreakSpaceIsLost` | examples/plugins/ytdlp/resolve.js:122 | so is a blank at either end that separates nothing |
| `Icons.IcoRoundTrip` | scripts/gen_icons.ts:180-211 | every frame's bytes are read back, its size exactly when it is 1 to 256, and its entry says one plane of 32 bits |
| `Icons.FramesTile` | scripts/gen_icons.ts:183-210 | the header's count of frames is right, and they follow the directory and each other without gap or overlap to the end |
| `Icons.BuildIco` | scripts/gen_icons.ts:180-211 | the buffers filled entry by entry give that file, or a write fails |
| `Icons.WritableIff` | scripts/gen_icons.ts:191-208 | exactly which lists of frames can be written |
| `Icons.FitsIff` | scripts/gen_icons.ts:227-247 | a bitmap can be written exactly up to 37837 pixels a side |
| `Icons.BmpRoundTrip` | scripts/gen_icons.ts:249-262 | every pixel is read back from where the source has it |
| `Icons.BmpSizes` | scripts/gen_icons.ts:227-247 | the header's sizes are the real ones, its constants those of a 24-bit bitmap; rows start on multiples of four |
| `Icons.FillPixels` | scripts/gen_icons.ts:251-259 | a row's pixels are written blue first, and nothing else of the buffer changes |
| `Icons.BuildBmp` | scripts/gen_icons.ts:220-263 | the buffer filled byte by byte gives that file, or a write fails |
| `CaptureLink.Decode` | crates/app/src/launch.rs:90-107 | the index loop computes the decoded text, the text itself if that is not UTF-8, and nothing if it cuts a character |
| `CaptureLink.EscapesIff` | crates/app/src/launch.rs:96-97 | which two bytes make an escape: two digits, or a plus sign and a digit |
| `CaptureLink.PlusIsRead` | crates/app/src/launch.rs:96-97 | a text in which a plus sign is read as part of an escape |
| `CaptureLink.CutsIff` | crates/app/src/launch.rs:95-97 | exactly when decoding cuts a character, which stops the program |
| `CaptureLink.WholeTextCuts` | crates/app/src/launch.rs:95-97 | a well-formed text that does |
| `CaptureLink.TextIff` | crates/app/src/launch.rs:106 | the bytes taken for text are exactly the encodings of code points by section 3 of RFC 3629 |
| `CaptureLink.DecodeNeverLonger` | crates/app/src/launch.rs:90-107 | decoding never lengthens |
| `CaptureLink.PlainIsUnchanged` | crates/app/src/launch.rs:90-107 | text without escapes is unchanged, percent signs that begin none included |
| `CaptureLink.DecodedIsText` | crates/app/src/launch.rs:106 | what comes back of a text is a text: the decoded bytes exactly if they are one |
| `CaptureLink.DecodeUndoesEncode` | crates/app/src/launch.rs:90-107 | decoding undoes the encoding of section 2.1 of RFC 3986, whatever ASCII characters are kept, in either case of the digits |
| `CaptureLink.LinkRoundTrip` | crates/app/src/launch.rs:73-88 | a link that carries an encoded text gives it back, for any case of the scheme, number of slashes and fields before and behind |
| `CaptureLink.ForeignIsUntouched` | crates/app/src/launch.rs:73-77 | a link of any other scheme is left alone |
| `CaptureLink.BareLinkRoundTripIff` | crates/app/src/launch.rs:73-88 | the form with the text right after the scheme gives every text back exactly when it does not begin with a kept slash and does not look like the first form |
| `CaptureLink.QueryTakenForLink` | crates/app/src/launch.rs:78-87 | texts that do look like it, of which only a part comes back |

## Left out

- The parts of the settings store that only hold or request something: gateway patches, actions, queues, plugins, the text of error details.
- Convergence of preferences and of catalogued daemon keys: preferences have no revision, so nothing orders them.
- The drained calls of a quitting App are returned and not followed further; only the patch they would send is compared with the daemon.
- Settings with several clients of this kind: another writer is any writer of the daemon's map, but only one optimistic client is modelled.
- Delivery.Sender.SendLegacy: sends the items one after the other, where the source starts them together; what becomes of each is arbitrary, so the order of the posts is all that is fixed.
- Delivery.Sender.DispatchOne: as for the batch, the branch for a thrown exception is not modelled.
- Delivery.Sender.DispatchBatch: the branch for a thrown exception is not modelled, since no awaited call in it can throw; settings are read once and not cached.
- The extension's warm-up message, availability checks, task list and task operations.
- AgentClient.ClientTask.MakeCall: the queue's capacity of 64, which makes callers wait in order, is not modelled; nor are the waits between connection attempts.
- AgentClient.ClientTask.FailPending: the order in which pending calls are failed is not modelled, as the source's table has none.
- Retiring finished reaper handles, which affects nothing but memory.
- The capture queue's publication of its list, which happens outside the lock.
- Concrete URL parsing and printing, the tables of stripped names, noise patterns, extensions and MIME types: parameters.
- ResourceStore.Store.AddResources: an entry is a value that merging replaces, where the source assigns its fields; nothing else holds on to an entry across a call.
- The remaining fields of a detected resource and of a quality entry that are copied and never tested (final URL, label, width, bandwidth, file name of a variant).
- QualityLadder.PickVideoAtOrBelow: scores are exact numbers, as for audio.
- QualityLadder.PickBestAudio: scores are exact numbers; rounding of floating-point scores is not modelled. Reading a height from a resolution text is a parameter.
- The rest of the DASH parser: making URLs absolute, and sorting tracks by a score that is height-first only while bit rates differ by less than a million per line of height.
- Rasterising icons and flattening transparency; only the file layout is modelled.
- CaptureLink.Decode: a text is any sequence of bytes, and only its decoded form is checked for being UTF-8.
- The classification of command-line arguments and the single-instance lock.
