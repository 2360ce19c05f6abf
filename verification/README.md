# MikMik: what the protocols and algorithms promise

A Dafny model of the parts of MikMik where several actors share state, and of
the sequence algorithms whose results have to be exact. `dafny verify
dfyconfig.toml` checks all of it.

| files | what they model |
|---|---|
| `RelayModel`, `RelayState`, `RelayStream` | the relay's sessions: bounded inbound queue, numbered event ring, registry, stream turns, long polls. The classes are proved against functions on values |
| `RelayProtocol`, `RelayDelivery`, `RelayInbound` | one session incarnation with any number of pages, streams and polls, as atomic steps, and what holds in every run |
| `RelayRegistry` | that the registry's own operations, over any history, run that protocol |
| `RelayOverlap`, `RelayPage` | what a second stream does to a page, and the page and the relay run together |
| `RelayLifetime` | whole histories of the relay: who keeps a session alive, what a sweep removes, what a session remembers |
| `LivePage`, `Timeline` | the web page: which streams it holds open, and its timeline panel |
| `JsonRpc`, `Endpoints`, `Duplex`, `DuplexProgress` | JSON-RPC 2.0 between the agent and the editor: shapes, keys, both endpoints, both directions at once, and that answers get through |
| `Approval` | the permission queue, its drainers, and decisions that travel over that same connection |
| `Turns` | turn claims, cancellation tokens and the clone / run / write-back transcript |
| `Backup` | the versioned settings backup under racing writers and clears |
| `Listing`, `Replay`, `PromptBlocks`, `PatchNote`, `PatchRerun`, `LineDiff`, `Backoff` | page traversal, transcript replay, prompt rendering, the release-note splice and its re-run, the line diff, retry delays |
| `Common`, `Lines` | Option and Result; splitting text into lines and joining it |

A protocol is a world and a function `Apply` that takes one step; a run is any
finite list of steps, and a step whose actor is not in a position to take it
changes nothing. So a statement about `Exec(steps)` or `Run(acts)` for all lists
covers every interleaving. Besides the program's state the worlds keep history
(every event uploaded, every message accepted, every answer given), which the
statements compare the state with.

## Where the code does not do what is said of it

Where something fails, a lemma says exactly when it does, and another gives a
run or an input on which it does.

- A page can hold two streams of one session: a dropped stream's reconnect timer
  survives leaving the session and coming back (`LivePage.OneStreamThroughout`,
  `LivePage.TwoStreamsAfterComingBack`). A page renders each event at most once,
  however the relay goes on, exactly when it never attaches over an open stream
  (`RelayOverlap.AtMostOnceIff`), which it keeps to as long as no such timer
  fires (`RelayPage.PageKeepsToOneStream`, `RelayPage.OverlapLosesAtMostOnce`).
- A stream resumed with a number from an earlier incarnation of its session is
  not handed what the ring holds up to that number, and nothing at all until the
  new incarnation has numbered past it (`RelayLifetime.ResumeIsWholeIff`,
  `RelayLifetime.StaleResumeStarves`).
- The two JSON-RPC readers disagree on a null or odd id, on a method that is not
  a string, and on a response with both a result and an error
  (`JsonRpc.RoutesAgreeExactly`, `JsonRpc.ReadersDisagree`).
- Tool use ids repeat within a session, because each model turn sets back the
  counter they are made from (`Approval.SharedIdIff`,
  `Approval.TwoRequestsOneId`). Decisions do not depend on them.
- A cancel between a turn's claim and the install of its token is lost
  (`Turns.CancelInTheWindowIsLost`, `Turns.CancelLost`).
- The loser of a first-upload race gets a database error rather than a conflict
  (`Backup.OnlySuccessWrites`, `Backup.FirstUploadRace`). After a clear, a put
  can replace a row its client never saw (`Backup.SuccessReplacesWhatWasSeen`,
  `Backup.StaleWriteAfterClear`).
- The list cursor is said to keep a save from shifting the window. A session
  saved again that was still to come is not shown, and when it is the cursor's
  own the traversal starts over (`Listing.SaveMovesRest`,
  `Listing.SaveKeepsRestIff`, `Listing.CursorSavedAgainStartsOver`).
- A tool call id used again after its answer, and not answered after that, is
  replayed as running for ever (`Replay.StillRunningIff`,
  `Replay.ReusedIdStaysRunning`).
- A prompt of one image and no words is refused (`PromptBlocks.RefusedIff`).
- The release-note script calls itself idempotent and never is
  (`PatchRerun.NotIdempotent`); an indented bullet, which it accepts, is pushed
  down by the next one (`PatchRerun.SecondGoesBelowIff`); a body that ends in a
  carriage return loses it at the second splice (`PatchNote.BodyUntouchedIff`).
- Retry jitter is described as plus or minus ten percent and only ever adds
  (`Backoff.DelayBounds`).

## Model

| member | source | states |
|---|---|---|
| RelayModel.RingRefinesLog | relay/src/state.rs:221-236 | after any uploads the ring is exactly the newest min(capacity, total) events, numbered consecutively up to nextSeq - 1 |
| RelayModel.ReadRefinesLog | relay/src/state.rs:243-253 | reading the ring is reading the full log when the reader is not older than the window, and the whole window otherwise |
| RelayModel.SweepCount | relay/src/state.rs:291-304 | the difference in size over a sweep is the number of sessions quiet for the TTL |
| RelayModel.SurvivorsAre | relay/src/state.rs:295-302 | in instants: a session is kept iff its last contact lies less than the TTL back, and then as it was |
| RelayState.Session.AppendEvents | relay/src/state.rs:227-234 | the loop appends a whole batch as the specification does one event at a time; nothing else of the session changes |
| RelayState.Session.EventsAfter | relay/src/state.rs:246-251 | the filter loop returns exactly the entries newer than `since`, in order |
| RelayState.Relay.Register | relay/src/state.rs:142-172 | a registration touches the session and replaces the fields it carries, no others, in no other session |
| RelayState.Relay.Deregister | relay/src/state.rs:174-181 | exactly this session is gone |
| RelayState.Relay.TakeInbound | relay/src/state.rs:189-196 | returns everything queued, empties the queue, touches or creates the session, leaves the others alone |
| RelayState.Relay.PushInbound | relay/src/state.rs:202-218 | true iff the session is known; then its queue is the old one, less its first message if it was at its limit, followed by the message; nothing else of any session changes |
| RelayState.Relay.PushEvents | relay/src/state.rs:221-236 | the batch goes into this session's ring in order and nothing else changes |
| RelayState.Relay.EventsSince | relay/src/state.rs:243-253 | the newer entries and the highest number issued, or none for an unknown session |
| RelayState.Relay.SweepExpired | relay/src/state.rs:291-304 | a session remains iff the TTL is positive and its last contact lies less than that back, and then as it was; the number returned is by how many the registry shrank |
| RelayStream.StreamState.Advance | relay/src/client.rs:143-181 | one turn of the stream's loop is an emit of the first pending entry, or a refill from the ring, or the end when the session is gone |
| RelayStream.StreamRequest.Announce | relay/src/client.rs:125-142 | the second half of opening a stream, when the session may be gone again: the runner is told iff it is still there, and the stream starts from `since` with nothing pending |
| RelayStream.PollRequest.Begin | relay/src/runner.rs:84-87 | the first drain answers at once iff something was queued |
| RelayStream.PollRequest.Resume | relay/src/runner.rs:89-99 | however the wait ends, the second drain answers with everything queued then |
| RelayDelivery.EndToEnd | relay/src/client.rs:136-182 | in every run in which this page does not attach over an open stream: rendered in strictly increasing number order, each as uploaded under its number, every skipped number evicted before the read that skipped it |
| RelayDelivery.ExactlyOnceWithoutOverflow | relay/src/client.rs:136-182 | in such a run without overflow the page has rendered precisely the first lastSeq uploads, each once and in order |
| RelayDelivery.LossIsEviction | relay/src/state.rs:238-242 | a number counts as lost only at a read that asks from below it and finds it evicted from the ring |
| RelayDelivery.StepGood | relay/static/app.js:379-415 | every step (upload, read, emit, receive, drop, reconnect, leave) keeps the delivery invariant of a page |
| RelayOverlap.RenderedAsUploaded | relay/src/client.rs:143-181 | in every run, with any number of streams, all that is rendered is what was uploaded under its number, and nothing asks from a number not yet given out |
| RelayOverlap.TwoStreamsRenderTwice | relay/static/app.js:384-398 | from every reachable world in which a page holds two streams, whatever is on them, some continuation without another attach renders one event twice |
| RelayOverlap.AtMostOnceIff | relay/static/app.js:379-415 | a page renders each event at most once, wherever a run stops and however the relay goes on, iff it never attaches over an open stream |
| RelayPage.PageKeepsToOneStream | relay/static/app.js:247-292 | page and relay together: as long as no timer fires over an open stream the page never attaches over one, resumes from the number the protocol says, and renders at most once |
| RelayPage.OverlapLosesAtMostOnce | relay/static/app.js:460-468 | after the first timer for the session that does fire over an open stream, a continuation renders an event twice |
| RelayInbound.InboundConservation | relay/src/state.rs:189-218 | every accepted message is in exactly one of delivered, queued, dropped; delivered is the polls' answers, each once, one after another; order is kept, within each answer too; the queue keeps its limit; no two polls share a message |
| RelayInbound.DropTakesTheOldest | relay/src/state.rs:207-214 | only a push onto a full queue drops, and it drops the oldest message not yet taken |
| RelayInbound.ResumeTakesEverything | relay/src/runner.rs:80-100 | a waiting poll is answered with everything queued when it resumes, wake-up or not |
| RelayInbound.BeginTakesEverything | relay/src/runner.rs:84-87 | a poll that begins is answered with the whole queue, or waits when that is empty |
| RelayInbound.PushedIsNext | relay/src/state.rs:215-217 | in any run, a message pushed is accepted and is the last of what the next poll is answered with |
| RelayRegistry.RegistryRunsTheProtocol | relay/src/state.rs:142-236 | in every history, a session the registry holds is what the protocol's steps since its first contact have made of the protocol's session |
| RelayRegistry.RegistryConserves | relay/src/state.rs:189-218 | so conservation holds of the registry: its queue for a session, what was handed out and what overflow dropped are all that was accepted, each once |
| RelayRegistry.DrainIsAnswer | relay/src/state.rs:189-196 | a drain of the registry answers its poll with what the registry had queued and leaves nothing |
| RelayLifetime.SessionsFollowTheRunner | relay/src/state.rs:142-253 | in every history a session exists exactly while its last register, poll or upload counts; each fact is the last one this incarnation carried; the ring matches this incarnation's uploads |
| RelayLifetime.SweepIsExact | relay/src/state.rs:291-304 | a sweep removes exactly the sessions whose last contact is at least the TTL old and reports their number |
| RelayLifetime.ClientsNeverExtendALife | relay/src/state.rs:202-218 | taking all client pushes and stream reads out of a history changes neither which sessions exist nor their clocks |
| RelayLifetime.ContactIgnoresClients | relay/src/state.rs:112-114 | the last contact is the same with and without them |
| RelayLifetime.ResumeIsWholeIff | relay/src/state.rs:243-253 | over all histories, a resume from `since` gets all the ring of the current incarnation holds iff nothing was uploaded in it or `since` is no later than what was evicted; how much it misses otherwise; nothing iff `since` reaches the last number |
| RelayLifetime.StaleResumeStarves | relay/src/state.rs:189-193 | a history of two uploads, an end by deregistration or sweep, and an upload, after which a resume with 2 gets nothing although the ring holds an event |
| LivePage.Live.ConnectStream | relay/static/app.js:379-382 | opens a stream for the session on screen and makes it the current one; does not close any other |
| LivePage.Live.Leave | relay/static/app.js:247-271 | closes the current stream and forgets session and number, but no timer |
| LivePage.Live.OpenNamed | relay/static/app.js:280-292 | nothing for the session on screen; otherwise leave and connect |
| LivePage.Live.OnError | relay/static/app.js:400-409 | a failing stream closes; only the current one starts a probe |
| LivePage.Live.OnTimer | relay/static/app.js:460-468 | a reconnect timer connects iff its session is on screen |
| LivePage.Live.OnMessage | relay/static/app.js:384-398 | a message moves the page's last number to its own, whichever stream it came on |
| LivePage.TimerConnectsIff | relay/static/app.js:460-468 | a timer fires once, and connects iff its session is on screen |
| LivePage.AskedAboutIff | relay/static/app.js:400-409 | an open stream that fails is closed, and the page asks about the session iff it was the current stream of one on screen |
| LivePage.ReconnectScheduledIff | relay/static/app.js:429-468 | a reconnect is scheduled iff the question could not be asked, or was answered with the session listed while it still is on screen |
| LivePage.SecondStreamOnlyByTimer | relay/static/app.js:460-468 | from a page with one stream, an act keeps it so iff it is not a timer for the session on screen over an open stream |
| LivePage.OneStreamThroughout | relay/static/app.js:429-468 | over whole runs a page never holds two streams iff no such timer fires |
| LivePage.TwoStreamsAfterComingBack | relay/static/app.js:247-292 | a run of six acts that leaves two streams of one session open |
| Timeline.ShownIsLatest | relay/static/app.js:737-768 | after any events ids are distinct, at most 200 rows remain, and each is the newest that arrived under its id |
| Timeline.UpsertKeeps | relay/static/app.js:741-748 | an update keeps its row's position, a new row goes to the end, nothing else moves |
| Timeline.NextRows | relay/static/app.js:737-768 | after any events, the next row replaces its own in place, or goes to the end, pushing out the first from two hundred on; a swap empties the panel |
| Timeline.Panel.ApplyEvent | relay/static/app.js:737-768 | element list and id index stay in bijection and the rows are those of upsert-then-drop-oldest |
| Timeline.Panel.Clear | relay/static/app.js:623-629 | list and index are emptied together |
| Timeline.Panel.EvictOldest | relay/static/app.js:753-763 | the first row and exactly its index entry go |
| Timeline.Replay | relay/static/app.js:737-768 | a whole run of the panel shows what the simple model shows |
| JsonRpc.RoutesAgreeExactly | src-rust/crates/acp/src/connection.rs:218-265 | the two readers take a line for the same thing iff its method is a string or missing, an id that is null or of an odd type stands in an otherwise empty message, and no response has both a result and an error |
| JsonRpc.ReadersDisagree | editors/vscode/src/acpClient.ts:119-150 | three lines and the two things each is taken for |
| JsonRpc.ReadersDecode | editors/vscode/src/acpClient.ts:119-150 | both readers recognise every well-formed request and response for what it is |
| JsonRpc.KeysAreInjective | src-rust/crates/acp/src/connection.rs:171-177 | two ids have the same pending key iff they are the same id |
| JsonRpc.KeyRoundTrip | src-rust/crates/acp/src/connection.rs:171-177 | the id can be read back from its key |
| Endpoints.Connection.SendRequest | src-rust/crates/acp/src/connection.rs:115-136 | a fresh number, a pending entry, one line; a failing writer takes the entry back, unserialisable parameters leave it |
| Endpoints.Connection.CompletePending | src-rust/crates/acp/src/connection.rs:161-168 | settles exactly the request under the id's key, or nothing |
| Endpoints.Connection.HandleLine | src-rust/crates/acp/src/connection.rs:200-265 | responses are settled, requests and notifications passed on, unparseable lines answered |
| Endpoints.Connection.RunReader | src-rust/crates/acp/src/connection.rs:182-268 | over a whole input: pending and settled are the fold of the lines, what is passed on is every request and notification in order, and each line that does not parse is answered |
| Endpoints.ReaderGoesOn | src-rust/crates/acp/src/connection.rs:193-266 | what the reader makes of two inputs is what it makes of the second after the first |
| Endpoints.ReaderTakesOne | src-rust/crates/acp/src/connection.rs:218-265 | and of one line of each kind: passed on as it stands, settled as success or failure, answered, or nothing |
| Endpoints.AcpClient.SendRequest | editors/vscode/src/acpClient.ts:374-397 | a fresh number, a pending entry, a timer iff there is a deadline, one line |
| Endpoints.AcpClient.HandleLine | editors/vscode/src/acpClient.ts:106-151 | a response settles exactly the request under its number; the rest is passed on or ignored |
| Endpoints.AcpClient.OnDeadline | editors/vscode/src/acpClient.ts:389-394 | a timer that is still running times its request out and forgets it, and touches no other |
| Endpoints.AcpClient.OnExit | editors/vscode/src/acpClient.ts:88-103 | every waiting request is refused, none waits any more, nothing else settled changes |
| Duplex.Correlation | src-rust/crates/acp/src/connection.rs:115-177 | in every run, both directions: a settled request was written, reached the peer as written, and was settled with the peer's first answer to it |
| Duplex.StepSettlesOnce | src-rust/crates/acp/src/connection.rs:161-168 | no step changes what is settled or hands a number out again |
| Duplex.SettledForGood | editors/vscode/src/acpClient.ts:124-138 | over whole runs a request settles at most once: duplicates, strangers and late responses change nothing |
| DuplexProgress.AgentRequestGetsThrough | src-rust/crates/acp/src/permission.rs:112-117 | whatever is on the pipes, a request the agent waits for can reach the client as written, be answered with any outcome, and is then settled with that outcome |
| DuplexProgress.ClientRequestGetsThrough | editors/vscode/src/acpClient.ts:374-397 | the same for a request of the client's |
| DuplexProgress.AgentRequestWaits | src-rust/crates/acp/src/connection.rs:120-136 | a new request takes the next number, is written under it, and is unanswered and unsettled |
| DuplexProgress.ClientRequestWaits | editors/vscode/src/acpClient.ts:374-396 | the same for the client, with a timer iff there is a deadline |
| DuplexProgress.ExitRefusesAll | editors/vscode/src/acpClient.ts:97-103 | when the process is gone every request that waited is refused, and only those |
| DuplexProgress.AbandonSettles | src-rust/crates/acp/src/connection.rs:137-147 | a caller that goes away leaves its waiting request settled as abandoned, so that a late answer finds nobody |
| DuplexProgress.NoiseTravels | src-rust/crates/acp/src/connection.rs:204-215 | other lines travel as well, and one that does not parse is answered with a parse error under a null id |
| DuplexProgress.DeadlineSettles | editors/vscode/src/acpClient.ts:389-394 | a deadline times out its own unsettled request and nothing else |
| Duplex.StepGood | editors/vscode/src/acpClient.ts:88-151 | every step of either end keeps the correlation invariant of both directions |
| Approval.ApprovalProvenance | src-rust/crates/acp/src/permission.rs:112-149 | however results are read: a tool is allowed only if its request went out under a number no other has, reached the client under it, and the first answer to that number selected allow_once, and for good only if allow_always |
| Approval.DecisionIs | src-rust/crates/acp/src/permission.rs:119-149 | in every run a decided ticket has Allow iff its request was answered with allow_once picked, AllowPermanently iff allow_always, DenyPermanently iff reject_always, and Deny in every other case |
| Approval.RequestGetsThrough | src-rust/crates/acp/src/permission.rs:46-136 | from any moment while a drainer is at work, a queued request can be put, answered with any outcome, and is then decided as that answer says |
| Approval.OnlyDrainersTake | src-rust/crates/acp/src/permission.rs:280-288 | a tick empties the queue iff its drainer's turn has started and not ended |
| Approval.EachForwardedOnce | src-rust/crates/acp/src/permission.rs:271-298 | handed over plus queued is every ticket in order, each once, over all turns' drainers; no two tickets share a number on the connection |
| Approval.DecidedForGood | src-rust/crates/acp/src/permission.rs:119-135 | a decision, once given, stands for the rest of the run, and so do its request and number |
| Approval.TickLeavesNothing | src-rust/crates/acp/src/permission.rs:281-296 | a running drainer's tick hands every queued ticket over, and each can then be put to the client |
| Approval.SharedIdIff | src-rust/crates/tools/src/lib.rs:788-798 | two requests of a session carry the same tool use id iff model turn plus requests made in it so far come to the same for both |
| Approval.DistinctInOneModelTurn | src-rust/crates/query/src/lib.rs:795-798 | requests of one model turn have different ids |
| Approval.TwoRequestsOneId | src-rust/crates/query/src/lib.rs:795-798 | two runs in which an id repeats: over two prompts, and within one |
| Approval.PermissionDesk.Conclude | src-rust/crates/acp/src/permission.rs:119-135 | one ticket's one-shot gets Allow, AllowPermanently or DenyPermanently iff the answer picked that option and Deny otherwise; no other ticket, queued or popped, changes |
| Approval.PermissionDesk.Drain | src-rust/crates/acp/src/permission.rs:285-295 | under the lock the queue is emptied, and the loop hands every request on in order: the machine's tick |
| Approval.PermissionDesk.Ask | src-rust/crates/tools/src/lib.rs:788-798 | a fresh request, named by the counter, which moves on, goes to the end of the queue: the machine's ask |
| Turns.SessionState.BeginTurn | src-rust/crates/acp/src/sessions.rs:165-175 | succeeds iff no turn runs; a fresh uncancelled token is in the slot and all earlier tokens stay as they were; a refusal changes nothing |
| Turns.SessionState.Prompt | src-rust/crates/acp/src/server.rs:601-632 | undisturbed, an accepted prompt has its whole effect and frees the session; a refused one changes nothing |
| Turns.CompleteTurnHasWholeEffect | src-rust/crates/acp/src/prompt.rs:43-65 | the writes of a turn that made all its plan calls for are its whole effect |
| Turns.TurnsSerialise | src-rust/crates/acp/src/prompt.rs:181-185 | in every interleaving at most one turn runs, and the transcript is the fold of the turns in claim order, so write-back loses none |
| Turns.PlainTurnGetsThrough | src-rust/crates/acp/src/prompt.rs:61-185 | from any moment at which the session is free, a turn that takes its steps leaves exactly its work on the transcript and its words, and the session free |
| Turns.CommandGetsThrough | src-rust/crates/acp/src/prompt.rs:242-284 | the same for a command: its edit, and on that the work on the words it handed over, if it did |
| Turns.RefusedOrFreed | src-rust/crates/acp/src/sessions.rs:84-88 | a prompt is refused iff a turn runs, and then changes nothing; wherever a turn leaves, dropping its guard frees the session for the next prompt |
| Turns.CancelledIffHit | src-rust/crates/acp/src/sessions.rs:179-181 | a token is cancelled iff some cancel found it in the slot |
| Turns.CancelReachesExactlyItsTurn | src-rust/crates/acp/src/sessions.rs:165-181 | a turn's token is cancelled iff some cancel ran after its install and before any later one |
| Turns.CancelInTheWindowIsLost | src-rust/crates/acp/src/sessions.rs:166-170 | a cancel while a turn runs misses it iff the turn has claimed but not installed |
| Turns.CancelLost | src-rust/crates/acp/src/sessions.rs:166-170 | a run of claim, cancel, install after which the turn goes on uncancelled |
| Backup.Store.CurrentVersion | server/src/backup.rs:68-78 | the stored version, 0 for none |
| Backup.Store.Get | server/src/backup.rs:47-65 | the stored row, or none |
| Backup.Store.ConditionalWrite | server/src/backup.rs:107-123 | the row changes iff it still is at the version read; an insert over a row fails |
| Backup.Store.Put | server/src/backup.rs:85-136 | undisturbed: stores version expected + 1, or reports the current version and changes nothing |
| Backup.Store.Clear | server/src/backup.rs:139-147 | the row is gone; says whether there was one |
| Backup.WritesFormAChain | server/src/backup.rs:96-123 | in every run, between two clears the successes make versions 1, 2, 3, ... and what is stored is what the latest of them wrote |
| Backup.OneWinnerPerVersion | server/src/backup.rs:107-129 | each success is one writer's, from its own settings, at the version after the one it expected; of writers expecting one version at most one succeeds between clears |
| Backup.EverySuccessIsCredited | server/src/backup.rs:131-135 | a put reports success iff it is credited with exactly one write |
| Backup.LonePut | server/src/backup.rs:92-135 | from any moment, a put nobody interferes with is refused if it is no object, told the stored version if it expected another, and stored at the next version otherwise |
| Backup.OnlySuccessWrites | server/src/backup.rs:109-129 | only a success or a clear changes the row; a put errors out iff it is a first upload that lost the race, and conflicts iff its version moved |
| Backup.FirstUploadRace | server/src/backup.rs:110-115 | a run in which the loser of a first-upload race gets the error |
| Backup.SuccessReplacesWhatWasSeen | server/src/backup.rs:80-84 | a success replaces the very row its client saw iff no clear came in between |
| Backup.StaleWriteAfterClear | server/src/backup.rs:116-121 | a run in which a put replaces a row its client never had |
| Listing.ListedIff | src-rust/crates/acp/src/listing.rs:35-73 | listed is what has a directory, the wanted one if one is named and any absolute one otherwise, each described by its own fields |
| Listing.RefusedIffUnknown | src-rust/crates/acp/src/listing.rs:46-55 | a cursor is refused, with its name, iff it names no session of the filtered list |
| Listing.PageIsHeadOfRest | src-rust/crates/acp/src/listing.rs:57-64 | a page is the first fifty of what is to come, and its cursor leads exactly to the rest |
| Listing.FrontInsertKeepsRest | src-rust/crates/acp/src/listing.rs:25-29 | brand-new sessions at the front leave what is to come after a cursor as it was |
| Listing.TraversalIsComplete | src-rust/crates/acp/src/listing.rs:30-65 | following cursors ends and gives exactly the filtered listing, whatever new sessions appear on the way |
| Listing.SaveMovesRest | src-rust/crates/acp/src/listing.rs:25-29 | any one save between pages: another session drops out of what is to come if it was in it; when it is the cursor's own, all the others are to come, or the cursor is refused iff it left the listing |
| Listing.SaveKeepsRestIff | src-rust/crates/core/src/lib.rs:7894-7896 | a save leaves what is to come as it was iff its session is not still to come and not the cursor's, or is the cursor's and stood first |
| Listing.CursorSavedAgainStartsOver | src-rust/crates/acp/src/listing.rs:46-55 | on every listing of more than a page: when the first page's last session is saved again, the second page begins with the first session again |
| Replay.UpdatesForBlocks | src-rust/crates/acp/src/replay.rs:21-25 | the loop over one message's blocks gives the specified updates |
| Replay.UpdatesFor | src-rust/crates/acp/src/replay.rs:13-29 | the loop over the transcript, and the closing pass, give the specified updates |
| Replay.FinishUnansweredCalls | src-rust/crates/acp/src/replay.rs:137-161 | adds one failed update for every use of an id the transcript never answers, in order, and nothing else |
| Replay.CallsAreShownAsRecorded | src-rust/crates/acp/src/replay.rs:41-98 | an unanswered call ends failed and any other as the transcript last records it |
| Replay.ResultIsShown | src-rust/crates/acp/src/replay.rs:65-81 | a call whose last record is a result is shown failed iff that was recorded as an error, and completed otherwise |
| Replay.EachBlockIsTold | src-rust/crates/acp/src/replay.rs:41-98 | what each kind of block is told as, one by one |
| Replay.ResultTextIs | src-rust/crates/acp/src/replay.rs:118-130 | a result's text as it stands, or its text parts in order, each on its own line, and nothing of the others |
| Replay.UnansweredIsClosed | src-rust/crates/acp/src/replay.rs:148-160 | a lone unanswered call is announced and closed with the reason |
| Replay.StillRunningIff | src-rust/crates/acp/src/replay.rs:148-149 | a call is left running iff the transcript uses its id after an answer to it and does not answer that use |
| Replay.ReusedIdStaysRunning | src-rust/crates/acp/src/replay.rs:148-149 | one message of a use, an answer and a use is such a transcript |
| Replay.ReplayClosesEveryCall | src-rust/crates/acp/src/replay.rs:132-136 | with no use after an answer, every announced call ends completed or failed |
| Replay.TerminalUpdatesPerCall | src-rust/crates/acp/src/replay.rs:137-161 | a call gets as many terminal updates as it has results, or one per use if none |
| Replay.ChunksInOrder | src-rust/crates/acp/src/replay.rs:41-115 | text, thoughts and replayable images come out in transcript order with the right speaker, and nothing else is said |
| PromptBlocks.RenderPromptBlocks | src-rust/crates/acp/src/prompt.rs:297-358 | the loop gives the rendering the lemmas below are about |
| PromptBlocks.RenderSplitsAtImage | src-rust/crates/acp/src/prompt.rs:305-314 | render(a + [image] + b) = render(a) + [image] + render(b) |
| PromptBlocks.RenderWithoutImages | src-rust/crates/acp/src/prompt.rs:291-293 | between images there is one text block with all the parts, or none |
| PromptBlocks.EachBlockRenders | src-rust/crates/acp/src/prompt.rs:317-353 | what each kind of block renders to on its own |
| PromptBlocks.RenderShape | src-rust/crates/acp/src/prompt.rs:297-358 | images stay in order and no two text blocks are adjacent |
| PromptBlocks.TextIgnoresImages | src-rust/crates/acp/src/prompt.rs:362-371 | the words of the rendering are all text parts joined by blank lines, as if no image were there |
| PromptBlocks.DroppedLeaveNoTrace | src-rust/crates/acp/src/prompt.rs:347-352 | blocks of a dropped kind do not affect the rest |
| PromptBlocks.RefusedIff | src-rust/crates/acp/src/prompt.rs:38-42 | a prompt is refused iff it is blank words and no image, or one image and no words |
| PromptBlocks.BlankIff | src-rust/crates/acp/src/prompt.rs:40 | a text is blank iff each character is white space |
| PromptBlocks.WhiteIff | src-rust/crates/acp/src/prompt.rs:40 | which characters those are, by code point |
| PatchNote.Splice | scripts/append-patch-note.py:49-79 | the loops find the section and its list's end and give the specified text |
| PatchNote.RepeatedSplicing | scripts/append-patch-note.py:74-79 | into any body without the section: heading, blank line, the bullets in order, then the body under a blank line, changed only by being read |
| PatchNote.BodyUntouchedIff | scripts/append-patch-note.py:51-54 | the body stays untouched over two or more splices iff it has no CR LF and does not end in CR or LF |
| PatchNote.SpliceInsertsOneLine | scripts/append-patch-note.py:61-72 | with a section in place exactly one line is added, after the section's last bullet, and all others stay in order |
| PatchRerun.SecondGoesBelowIff | scripts/append-patch-note.py:61-72 | into any body: the second bullet ends up directly below the first iff the first starts at the margin, directly above it otherwise, with the rest as read |
| PatchRerun.ReadLines | scripts/append-patch-note.py:51-54 | reading notes the script wrote takes one CR from the end of each line and the empty lines off the end, and nothing else |
| PatchRerun.SpliceAddsInk | scripts/append-patch-note.py:49-79 | for any text and bullet, a splice keeps every character that is not white and adds the bullet's, and the heading's iff there was no section |
| PatchRerun.NotIdempotent | scripts/append-patch-note.py:2 | no text at all comes out of a splice as it went in, so a second run always changes what the first wrote |
| PatchNote.SettledIff | scripts/append-patch-note.py:51 | a body comes back from notes that end in a newline as it was iff it has no CR LF and does not end in CR or LF |
| PatchNote.StripTrims | scripts/append-patch-note.py:58-67 | stripping leaves what stands between the first and the last character that is not white |
| PatchNote.WhiteIff | scripts/append-patch-note.py:58-67 | which characters are white to the script, by code point |
| LineDiff.CommonPrefix | editors/vscode/src/webview/main.ts:336-342 | a shared head that cannot be longer |
| LineDiff.CommonSuffix | editors/vscode/src/webview/main.ts:344-354 | a shared tail that does not reach into the head and cannot be longer |
| LineDiff.Compare | editors/vscode/src/webview/main.ts:324-332 | the slices rebuild both files without overlap, with the longest head and then the longest tail |
| LineDiff.RenderDiff | editors/vscode/src/webview/main.ts:315-334 | draws those middles and three lines of context; nothing is marked iff the two texts are equal |
| LineDiff.MiddlesDifferAtBothEnds | editors/vscode/src/webview/main.ts:326-331 | middles that are both there differ in their first line and in their last |
| LineDiff.MiddlesEmptyIff | editors/vscode/src/webview/main.ts:326-331 | both middles are empty iff the files are equal |
| LineDiff.NoSmallerChange | editors/vscode/src/webview/main.ts:324-331 | no reading of the files as one changed stretch removes or adds fewer lines |
| Backoff.DelayBounds | src-rust/crates/api/src/error_handling.rs:264-268 | the wait lies between min(base, max) and min(1.099 base, max) |
| Backoff.DelayIs | src-rust/crates/api/src/error_handling.rs:264-279 | the wait is the base and, of its tenth, as many hundredths as the clock's last two digits say, cut off at the maximum |
| Backoff.PanicsIff | src-rust/crates/api/src/error_handling.rs:265-267 | there is no delay iff the multiplier is negative, the attempt odd and the first delay not zero |
| Backoff.NeverShorterIff | src-rust/crates/api/src/error_handling.rs:264-279 | whatever the clock, the next wait is no shorter iff the multiplier is at least 1.099 or the next base reaches the maximum |
| Backoff.WrappedAttemptsWaitLess | src-rust/crates/api/src/error_handling.rs:265 | from attempt 2^31 on the base is below the first delay |
| Backoff.TotalAtMostLongest | src-rust/crates/api/src/error_handling.rs:267 | n waits together take at most n times the longest |
| Backoff.TotalAtMostPlain | src-rust/crates/api/src/error_handling.rs:265-266 | n waits together take at most 1.099 times the sum of the plain delays |
| Backoff.PlainTotalIsGeometric | src-rust/crates/api/src/error_handling.rs:265 | that sum is the geometric one |

## Left out

- Sizes: the server starts only with positive limits, which a lemma requires where it needs it; at limit 0 the ring and the queue hold one entry, as the code's do.
- Wake-ups: a wait may end at any time, so no statement is about latency. The relay's `notified()` is created after the read it should cover, and only the periodic re-read is certain.
- Widths: sequence numbers, versions and request numbers are unbounded; only the retry attempt's cast to a signed 32-bit number is modelled. A sweep takes one clock reading for all sessions.
- RelayDelivery.EndToEnd: is about one session incarnation and pages that do not attach over an open stream; `RelayOverlap.AtMostOnceIff` shows that this cannot be dropped.
- RelayPage: index 0 stands for the page's one stream, so the joint run says nothing about what a page does with two after the first overlap.
- RelayDelivery.StepGood: an attach is one step with the queue message it causes; in the relay the message comes first and the stream state after it.
- Serialised forms: JSON values, parameters and results are strings. Lines that parse to something that is not an object are not among the lines of `JsonRpc`.
- Approval: a request's tool, title, locations and preview are one string of details. Requests without a decision channel are never queued by the code modelled and are not modelled.
- Endpoints.AcpClient.OnExit: refuses all waiting requests in one update instead of one after another.
- Turns.TurnsSerialise: is about one session object. Closing a session drops it from the registry while a turn may still hold it, and reopening it is a check and a later insert; two objects under one id are possible and not modelled. Forking, titles, settings and saving to disk are not part of this model.
- A turn's model call and tools are an arbitrary function of the transcript; a command is one that gives a new transcript and perhaps a turn, with its read and its write as two steps.
- Backup: sealing, checksums, timestamps and accounts. Each database call is one atomic step.
- Listing: reading session files; the list arrives sorted, newest first.
- Replay: tool kinds and titles, which depend on the name and input only.
- Timeline: what a row looks like; DOM elements are compared by a serial number.
- Backoff: floating-point rounding, infinite results, and a zero multiplier raised to a wrapped attempt. Overflow-pattern matching and token-limit extraction are one-branch lookups.
- Relay summaries, HTTP, cookies, environment parsing, logging, the VS Code panels and the agent process pool.
