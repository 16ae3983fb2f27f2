# Verified model of the scada_web selection protocol

This project models how a browser's interest in a tag becomes a forwarded sample, and proves what that protocol
guarantees over whole runs. `dafny verify dfyconfig.toml` checks all of it.

Four components take part, each in its own module:

- **Web side.** `Interest` (scada_web/interest.py) reduces per-client uid sets to refcounts and asks for ADD, DELETE
  and PERIOD. `Server` (scada_web/server.py) turns client messages into interest operations, replays the interest
  when the selector matches, and routes samples to sockets. `Gateway` (scada_web/gateway.py) delivers match statuses.
- **Channel.** PLC::ValueRequestTopic is RELIABLE, KEEP_ALL and VOLATILE: a lossless FIFO while matched, and nothing
  while not. `Protocol` composes web side, channel and selector into one state machine.
- **Selector.** `Selection`, `ControlPlane`, `DataPlane`, `MetaDataPlane` and `SelectorLoop` (scada_select/src) hold
  the selected set, decide what to forward, and run the two-phase loop.
- **Simulator.** `Scheduler` and `Smoothing` (sim) are a separate, smaller core.

Objects that the source updates in place are classes. Each has a `View()`, the value it stands for, and each method
states its whole effect as a function on that value (`Manager.Next`, `Table.Handle`, `Plane.After`, ...). The laws
are then proved of those functions over every run: `CommandStream` and `Sessions` for the web side, `Agreement` and
`Recovery` for the protocol, `Decimation`, `SelectorRuns`, `SelectorProcess` and `SelectorCatalogue` for the selector,
and `EndToEnd` from one side to the other.

## Results

- **Agreement.** In every reachable state whose match callback has run, consuming the queue leaves selected exactly
  the wanted uids, plus what the selector held at the match and nobody has touched since
  (`Agreement.AgreementHolds`). A restart recovers from any state (`Recovery.RestartRecovers`); a replay into a
  selector that already agrees changes nothing at all (`Recovery.ReplayIsHarmless`).
- **From interest to samples.** From any state whose match callback has run, as clients come and go, other tags are
  selected and dropped, and readers are lost and matched again: once what was queued then has been consumed, a tag
  that some client keeps wanting has, for each arrival, a forwarding less than one web-side separation older, and no
  two forwardings closer than that (`EndToEnd.WantedIsServed`, `EndToEnd.WantedIsPaced`). A tag outside the
  pre-enabled range that nobody wants is not forwarded (`EndToEnd.UnwantedIsSilent`), stale tags (below) excepted.
- **PERIOD first.** With match and replay in one step, and the separation at each match fitting the wire, in every
  reachable state: no tag outside the pre-enabled range is selected before a PERIOD, or at a separation the web side
  never had (`Recovery.PeriodFirst`).
- **Found false in general, with the input and the exact condition.** A separation of 2^32 ms or more passes the web
  side's checks (`Recovery.TooLongIsAccepted`), but no PERIOD can carry it. Separations then disagree
  (`Recovery.SeparationsDisagree`); they agree if and only if the web side's fits (`Agreement.AgreementHolds`). And
  PERIOD can come last (`Recovery.PeriodComesLast`); after a match it comes first if and only if the separation in
  force fits, or the selector has had a PERIOD since it started (`Recovery.PeriodFirstIff`). That the PERIOD is
  dropped, and not sent with a truncated value, is the assumption under **Writes** below: were the value truncated,
  PERIOD would still come first, and the separations would still disagree.
  Serving a METADATA request can swallow a tag's retraction (`MetaDataPlane.RetractionCanBeLost`); in any history of
  arrivals, process() calls and requests the catalogue is right after process() if and only if no retraction was
  swallowed without later news of the tag (`MetaDataPlane.CatalogueIsLive`).
- **Stale tags.** If a reader goes away and comes back *without* a restart, `s.base` in `AgreementHolds` is what it
  still held: uids dropped while it was away stay selected until someone subscribes to them again.
- **Rate, optimality, isolation.** A tag is written at most once per elapsed separation and erasure, plus once; while
  it stays selected at one separation its writes are a longest possible choice; and its writes, retractions and
  timeouts are those of a run in which it is the only tag. At separation 0 everything is written.
- **Messages and retractions.** What a client message does is stated in terms of its members alone, for every message
  (`Server.SubscribeIsPrefix`, `Server.SetIsExact`, ...), and what is passed on of a tag's disappearance in terms of
  the calls made before (`SelectorProcess.ProcessRetracts`, `MetaDataPlane.CallsArePassed`).

Where the repository's text and its code differ, the model follows the code: docs/system-architecture.md:383-387
asks for ADDs to be re-sent when the separation changes, while scada_web/interest.py:90-99 sends one PERIOD.

## Assumptions

- **One selector.** At most one request reader is matched at a time. `Gateway.OneReplayPerRise` states what happens
  otherwise: one replay per rise of the match count from zero, so a second, overlapping reader gets none.
- **Atomic steps.** An interest operation with its writes, and a replay with its snapshot, are single steps. That the
  reader is matched and that the callback runs are separate steps (`Match`, `Callback`), except for PERIOD-first,
  which needs them together (`MatchAndReplay`). A match has its own callback: one left over from an earlier match
  never runs.
- **Writes.** While matched, a write of a representable value is queued. A value outside the IDL type raises in the
  sender, which logs and drops it.
- **Writers.** Each sample carries the outcome of its one possible writer call: whether it times out, and, where the
  middleware is free (after a timed-out write or an unregistration), whether the writer then holds the instance. The
  results hold for every such choice.
- **Time.** The selector's clock is in nanoseconds and the simulator's in milliseconds, both integers. Results that
  need nondecreasing times say so.
- **Caches.** The metadata reader keeps one sample an instance (KEEP_LAST 1).
- **Set order.** Python may list a set in any order; such a list is a parameter that `Lists` the set.

## Model

| member | source | states |
|---|---|---|
| Agreement.AgreementHolds | scada_web/server.py:331-352 | In every reachable state whose match callback has run, draining the queue selects exactly the uids some client wants, plus those the selector held at the match (the pre-enabled range after a restart) that were never active since; separations agree iff the web side's fits a PERIOD |
| Agreement.StepKeeps | scada_select/src/main.cxx:300-341 | Every step of the composed system, in any state, keeps the agreement invariant: refcounts, expected selection, separation, positive periods |
| Agreement.ReplaySettles | scada_web/server.py:350-352 | A replay selects what is wanted, touches no other uid, and leaves the current separation in force, whatever was queued before it |
| EndToEnd.WantedIsServed | scada_web/interest.py:78-125 | From any reachable state whose callback has run, for any continuation in which some client wants the tag at every point, the separation stays and the selector is not restarted - clients, other tags, unmatches and rematches at will: once what was queued has been consumed in a match that lasts, each arrival of the tag, no earlier sample having a later time, has a forwarding of it less than one web-side separation older |
| EndToEnd.WantedIsPaced | scada_select/src/SelectionTable.cxx:56-73 | Under the same conditions the forwardings of the tag from then on are at least one web-side separation apart |
| EndToEnd.UnwantedIsSilent | scada_select/src/DataPlane.cxx:27-29 | From any reachable state whose callback has run, for any continuation in which no client wants the tag at any point, restarts and rematches included: once what was queued has been consumed in a match that lasts, a tag outside the pre-enabled range is not forwarded, unless the selector held it at the match and nobody has wanted it since |
| Agreement.NeverRestoresDefault | scada_select/src/SelectionTable.cxx:37-46 | No PERIOD ever in flight from the web side is 0, so each consumed one sets exactly the separation it carries and never restores the default |
| Protocol.EncodedFold | scada_select/src/ControlPlane.cxx:8-28 | The uids a table selects after any command stream are those the stream folds to, and only PERIOD changes its separation |
| Protocol.AskedIffToggled | scada_web/interest.py:78-125 | An operation asks about a uid if and only if it makes the uid active or inactive |
| Recovery.RestartRecovers | scada_web/server.py:342-352 | From any state, with any commands lost: restart, match, callback and a finite drain end with an empty queue, exactly wanted and pre-enabled uids selected, and the separation right iff it fits the wire |
| Recovery.DrainSettles | scada_select/src/main.cxx:300-311 | Consuming the finite queue ends in the state foretold by folding it, and changes nothing else |
| Recovery.ReplayIsHarmless | scada_select/src/SelectionTable.cxx:9-13 | A replay leaves the table, with its memory of emissions and so every later decision, unchanged if and only if the table already selects what is wanted at the current separation |
| Recovery.PeriodFirst | scada_web/server.py:338-352 | With match and replay one step, in every state reachable from start-up through any number of restarts and matches - each at a separation that fits the wire, or by a selector that has had a PERIOD since it started: before a PERIOD is consumed nothing outside the pre-enabled range is selected, and outside it only separations the web side has had are ever in force |
| Recovery.PeriodFirstIff | scada_web/server.py:300-315 | At any match so reached, both clauses hold on every run until the next match if and only if the separation in force fits an unsigned 32-bit PERIOD or the selector has had a PERIOD since it started |
| Recovery.PeriodLast | scada_web/server.py:310-315 | Otherwise there is a run until the next match that selects a uid outside the range before any PERIOD |
| Recovery.TooLongIsAccepted | scada_web/server.py:217-247 | One set message with 2^32 ms is accepted and makes that the separation |
| Recovery.SeparationsDisagree | scada_web/server.py:300-315 | After it, a matched and replayed selector is on course for another separation than the web side's |
| Recovery.PeriodComesLast | scada_web/server.py:300-315 | And there is a run from start-up that selects a uid outside the range before any PERIOD |
| CommandStream.StreamRefinesInterest | scada_web/interest.py:78-125 | After every prefix of every run, the fold of the ADD/DELETE stream from the empty set is active_uids(), with no redundant ADD or DELETE |
| CommandStream.CommandsAlternate | scada_web/interest.py:78-125 | For each uid, ADD and DELETE strictly alternate, ADD first, and the count is odd exactly while some client wants the uid |
| CommandStream.InterestIsLastWord | scada_web/interest.py:78-125 | Over any run a client wants a uid exactly when it subscribed to it and has neither unsubscribed nor disconnected since |
| CommandStream.SeparationIsLastSet | scada_web/interest.py:90-99 | The separation is the last positive one set, or the initial one |
| CommandStream.NoDeleteWhileWanted | scada_web/interest.py:101-125 | No operation asks to delete a uid that a client still wants after it, or to add one nobody wants |
| CommandStream.PeriodsPositive | scada_web/interest.py:90-99 | A PERIOD is asked for only when the separation changes, and is positive |
| Interest.NextCounted | scada_web/interest.py:78-125 | Every operation keeps refcounts[u] equal to the number of clients holding u, with no zero entry |
| Interest.ActiveIsUnion | scada_web/interest.py:132-134 | active_uids() is the union of the client sets |
| Interest.InterestMoves | scada_web/interest.py:78-125 | Subscribing makes the client interested in the uid, whoever else holds it; unsubscribing takes that one pair away, a disconnect all of the client's; nothing else changes who wants what, and only a positive separation changes the separation |
| Interest.DisconnectIsUnsubscribeAll | scada_web/interest.py:114-125 | A disconnect equals unsubscribing every uid and then forgetting the client: same state, same DELETEs |
| Interest.DisconnectDeletes | scada_web/interest.py:114-125 | A disconnect deletes exactly the uids held by nobody else, each once |
| Interest.InterestManager.ClientSubscribe | scada_web/interest.py:78-88 | The method changes refcounts and client sets as the specification of Subscribe, and fires its callbacks |
| Interest.InterestManager.SetMinSeparation | scada_web/interest.py:90-99 | Raises exactly for a separation that is not positive; otherwise sets it, asking for one PERIOD on a change |
| Interest.InterestManager.ClientUnsubscribe | scada_web/interest.py:101-112 | As the specification of Unsubscribe, including the unknown client and the uid not held |
| Interest.InterestManager.ClientDisconnect | scada_web/interest.py:114-125 | The loop over the client's set, in any order, carries out Disconnect with one DELETE per orphaned uid |
| Server.SubscribeIsPrefix | scada_web/server.py:199-207 | A subscribe message whose separation is refused changes nothing; otherwise the separation is set first, if there is one, and exactly the items before the first that names no uid are subscribed to, the message ending accordingly |
| Server.UnsubscribeIsPrefix | scada_web/server.py:208-210 | An unsubscribe message takes effect for exactly the items before the first that names no uid and leaves the separation alone; without a list it changes nothing, and is reported back if the member is not iterable |
| Server.OrdinarySubscribe | scada_web/server.py:199-207 | A list of uids and no separation is subscribed to whole, in order, and finishes |
| Server.SetIsExact | scada_web/server.py:211-215 | A set message sets the separation it asks for, is reported back if it asks for none, and fails as its numbers do |
| Server.OtherMessages | scada_web/server.py:199-215 | Anything else changes nothing: an unknown action is ignored, an unhashable one reported back, a message that is no object ends the session |
| Server.SeparationAccepted | scada_web/server.py:218-241 | A separation is accepted if and only if some counting member gives one, all of them give the same, and it is positive |
| Server.SeparationAbsent | scada_web/server.py:218-233 | A message asks for no separation if and only if no member gives one and any uids it would look through can be iterated |
| Server.SeparationRefused | scada_web/server.py:218-241 | It fails if and only if int() refuses a number, the numbers disagree or are not positive, or the uids cannot be iterated; the first refusal decides whether the session survives |
| Server.GivenOf | scada_web/server.py:220-231 | The numbers that count are the message's period_ms, failing that its min_separation_ms, failing both those of its items |
| Server.RefusalInOrder | scada_web/server.py:225-231 | The first refusal is the first in reading order: item by item, period_ms before min_separation_ms |
| Server.PlanIsSession | scada_web/server.py:199-215 | Every operation a message causes is on the sender's own set or a positive separation that comes first |
| Server.WebServer.HandleWsMessage | scada_web/server.py:199-215 | The handler carries out exactly the planned operations, with their callbacks, and ends as planned, exceptions included |
| Server.WebServer.OnDdsSample | scada_web/server.py:253-276 | The recipients are the interested sockets, in order of connection |
| Server.WebServer.Connect | scada_web/server.py:173-178 | A new socket joins the others, last |
| Server.WebServer.Close | scada_web/server.py:192-196 | The clean-up removes the socket and disconnects the client from the interest |
| Server.WebServer.OnPublicationMatched | scada_web/server.py:331-352 | A replay is sent exactly on the request topic when the count has just risen from zero: PERIOD, then one ADD per active uid |
| Sessions.DemuxExact | scada_web/server.py:253-276 | In every reachable state interest clients are connected, and a sample goes once each, in order of connection, to exactly the clients whose last word on its uid was to subscribe |
| Sessions.NobodyConnected | scada_web/server.py:192-196 | With nobody connected no uid is active, and every ADD ever asked for has a later DELETE |
| Sessions.AllPeriodsPositive | scada_web/interest.py:35-43 | No sequence of client messages produces a PERIOD that is not positive |
| Sessions.RunSound | scada_web/server.py:173-196 | Connects, messages and disconnects in any interleaving keep sockets distinct, interest within them, and refcounts right |
| Sessions.SocketsAreConnected | scada_web/server.py:173-196 | The sockets are those of the sessions begun and not ended since, by a close or by a message that crashes |
| Sessions.SocketsInOrder | scada_web/server.py:173-178 | They are listed in order of connection |
| Sessions.Serve | scada_web/server.py:173-215 | The server class, driven through any history of sessions, ends with the sockets, interest and command stream that the session results speak of |
| Gateway.DeliveredOnce | scada_web/gateway.py:201-229 | Each status raised on a writer, during its construction or after, is delivered once, in order, only when the writer is registered; a failed construction delivers nothing and leaves nothing pending |
| Gateway.OneReplayPerRise | scada_web/server.py:342-347 | Over any coherent history the delivered statuses trigger as many replays as there are transitions from no reader to some |
| Gateway.WritersAreCreated | scada_web/gateway.py:201-216 | A topic has a writer exactly when some construction of one has not failed |
| Gateway.DdsGateway.CreateWriter | scada_web/gateway.py:183-216 | Statuses raised inside the constructor are held back and delivered after registration, or dropped if it fails |
| Gateway.DdsGateway.HandlePublicationMatched | scada_web/gateway.py:218-224 | Deferred, in order, while the topic's writer is being created; delivered at once otherwise |
| Gateway.DdsGateway.FlushPublicationMatches | scada_web/gateway.py:226-229 | Delivers what was deferred, in order, and forgets it |
| Gateway.Replay | scada_web/gateway.py:183-229 | The gateway class, driven through any history, ends in the state that the delivery results speak of |
| Selection.SelectionTable.Add | scada_select/src/SelectionTable.cxx:9-13 | Selects the uid, keeping the emission state of one already selected |
| Selection.SelectionTable.Erase | scada_select/src/SelectionTable.cxx:15-17 | Deselects the uid and forgets its emission state |
| Selection.SelectionTable.AddRange | scada_select/src/SelectionTable.cxx:19-27 | The 64-bit counting loop selects exactly the inclusive range, up to INT32_MAX, keeping what was selected; an inverted range adds nothing |
| Selection.AddRangeIsAdds | scada_select/src/SelectionTable.cxx:19-27 | A range is its uids added one by one, keeping the emission state of those already selected; an inverted one adds nothing |
| Selection.SelectionTable.Contains | scada_select/src/SelectionTable.cxx:29-31 | Whether the uid is selected |
| Selection.SelectionTable.SetPeriod | scada_select/src/SelectionTable.cxx:37-46 | 0 restores the startup default, any other value is set |
| Selection.SelectionTable.ShouldForward | scada_select/src/SelectionTable.cxx:56-73 | Answers whether the sample is due, and records the time if and only if it is |
| Selection.SeparationAfter | scada_select/src/SelectionTable.hpp:40-46 | After any commands the separation is what the last PERIOD asked for, 0 meaning the startup default; so no commands can ask for the full field rate when start-up did not |
| Decimation.RateBound | scada_select/src/SelectionTable.cxx:56-73 | Under any interleaving of add, erase, set_period and should_forward, at most 1 + erasures + floor((b-a)/p) forwardings of a uid in [a, b] when every decision is made at a separation of at least p |
| Decimation.RatePotential | scada_select/src/SelectionTable.cxx:9-73 | From any table state, each forwarding costs p of elapsed time or an erasure, with one free until the first |
| Decimation.GreedyIsOptimal | scada_select/src/SelectionTable.cxx:56-73 | For a newly selected uid at a fixed separation, the forwarded samples have gaps of at least p and no subsequence of the arrivals with such gaps is longer |
| Decimation.GreedyStaysAhead | scada_select/src/SelectionTable.cxx:56-73 | From any state, a competing choice of arrivals gains at most one forwarding, and none unless it starts ahead |
| Decimation.Coverage | scada_select/src/SelectionTable.cxx:56-73 | Every arrival at t has a forwarded sample in (t - p, t] |
| Decimation.ZeroForwardsAll | scada_select/src/SelectionTable.cxx:63-72 | At separation 0 every arrival of a selected uid is forwarded |
| ControlPlane.ControlPlane.Handle | scada_select/src/ControlPlane.cxx:8-28 | Each command changes the table as specified; METADATA only asks the metadata plane |
| DataPlane.ValueVerdict | scada_select/src/DataPlane.cxx:10-51 | From the state a batch finds: a valid sample is attempted iff its uid was due then and, unless the separation is 0, no valid sample of the uid precedes it in the batch |
| DataPlane.LifecycleVerdict | scada_select/src/DataPlane.cxx:31-75 | A lifecycle event is passed on, never rate limited, if and only if its uid is selected and the writer's calls so far, or what it held before the batch, say it holds the instance |
| DataPlane.BatchRegisters | scada_select/src/DataPlane.cxx:40-65 | The writer holds an instance exactly when a call of the batch registered it and none since made it forget, or it held it before and none did |
| DataPlane.ShownIsRetracted | scada_select/src/DataPlane.cxx:53-61 | After a completed write with no unregistration since a tag can be retracted; a tag no value of which was ever written cannot |
| DataPlane.Ledger | scada_select/src/DataPlane.cxx:10-51 | The writer calls are the attempted samples unmodified, in order, once each; timeouts are counted exactly; the five classes account for every taken sample |
| DataPlane.BatchKeepsSelection | scada_select/src/DataPlane.cxx:10-51 | A batch neither selects, deselects nor changes the separation |
| DataPlane.DataPlane.Process | scada_select/src/DataPlane.cxx:10-51 | The loop empties the reader, makes the specified calls, updates table and instances, and adds the timeouts to the counter |
| DataPlane.DataPlane.ForwardLifecycle | scada_select/src/DataPlane.cxx:53-75 | One dispose or unregister for a known instance, nothing for an unknown one, a timeout counted |
| SelectorRuns.NonInterference | scada_select/src/DataPlane.cxx:10-75 | For every run and uid, the calls made for the uid are those of the run restricted to its samples, its ADDs and DELETEs, and the PERIODs |
| SelectorRuns.SameInputSameOutput | scada_select/src/DataPlane.cxx:10-75 | Two runs alike on one uid treat it alike, whatever else differs |
| SelectorRuns.WritesAreEmissions | scada_select/src/DataPlane.cxx:38-49 | The write attempts for a uid are the table's forwardings of it, time for time |
| SelectorRuns.WriteRateBound | scada_select/src/DataPlane.cxx:10-51 | The rate bound holds of the calls made on the output writer over any run of commands and batches |
| SelectorRuns.WritesAreOptimal | scada_select/src/DataPlane.cxx:10-51 | So do greedy optimality and coverage |
| SelectorRuns.ZeroWritesAll | scada_select/src/DataPlane.cxx:36-41 | At separation 0 every value sample of a selected tag is written |
| SelectorRuns.RetractedIffShown | scada_select/src/DataPlane.cxx:31-65 | In any run a lifecycle event is passed on if and only if its tag is selected and the calls made so far say that the writer holds its instance |
| SelectorLoop.ControlBeforeData | scada_select/src/main.cxx:331-341 | For any dispatch order and any arrivals meanwhile, each value sample of a pass is judged by the selection and at the separation that the applied requests call for, which include every request queued when the pass began |
| SelectorLoop.EachRequestOnce | scada_select/src/main.cxx:300-341 | Over any number of passes each request is applied exactly once, in arrival order, whichever path drains it, and every judgement so far was against what the requests applied by then call for |
| SelectorLoop.Selector.constructor | scada_select/src/main.cxx:280-289 | Start-up with a valid range pre-enables it at the default separation, with nothing written |
| SelectorLoop.Selector.DrainRequests | scada_select/src/main.cxx:300-311 | All queued requests are taken; the valid ones are handled in order |
| SelectorLoop.Selector.Handle | scada_select/src/main.cxx:313-326 | Each arrival and each handler the WaitSet may run has exactly its specified effect |
| SelectorLoop.Selector.Iteration | scada_select/src/main.cxx:331-341 | One pass drains and then dispatches, as the loop specification says |
| SelectorProcess.ProcessIsRun | scada_select/src/main.cxx:331-341 | The value-writer calls of the two-phase loop are those of the run of commands and batches it takes from its readers |
| SelectorProcess.ProcessJudgesAsRun | scada_select/src/main.cxx:331-341 | The verdict on every sample the process takes, due test included, is that of the run: of the table after all commands applied and all samples forwarded up to then |
| SelectorProcess.ProcessRateBound | scada_select/src/main.cxx:331-341 | Hence the rate bound holds of the whole process, from start-up, under every dispatch order |
| SelectorProcess.ProcessIsOptimal | scada_select/src/main.cxx:331-341 | From whenever a tag is newly selected, while it stays so at one separation, the process writes a longest spaced choice of its arrivals and represents every arrival by a write less than one separation older |
| SelectorProcess.ProcessWritesAll | scada_select/src/main.cxx:331-341 | At separation 0 the process writes every arrival of a tag that stays selected |
| SelectorProcess.ProcessRetracts | scada_select/src/main.cxx:331-341 | At any point of the process a lifecycle event would be passed on if and only if its tag is selected and the process's own calls say that the writer holds the instance |
| SelectorProcess.ProcessNonInterference | scada_select/src/main.cxx:331-341 | Hence so does non-interference between tags |
| SelectorCatalogue.EachArrivalOnce | scada_select/src/main.cxx:300-341 | Over any passes the value samples that arrived are those judged, each once and in order, followed by those still unread; no request that arrived is missing from the loop's history |
| SelectorCatalogue.CatalogueIsRun | scada_select/src/main.cxx:300-341 | Under every dispatch order the metadata plane is as after the history of arrivals, process() calls and METADATA requests read off the passes |
| SelectorCatalogue.ProcessCatalogue | scada_select/src/main.cxx:313-326 | Whenever the metadata handler has just run, without timeouts, the presentation side shows exactly the live tags as last described, except those whose retraction a request swallowed |
| MetaDataPlane.ExactlyOnce | scada_select/src/MetaDataPlane.cxx:9-63 | After any process(), in any history of arrivals, process() calls and METADATA requests, every arrival still cached has been read for the first time exactly once, by process() or a request, the latest by process() in cache order; the cache is not consumed; a second process() is a no-op |
| MetaDataPlane.EachDescriptionWritten | scada_select/src/MetaDataPlane.cxx:21-25 | The catalogue writes are the descriptions process() took up or requests asked for again, none skipped, repeated, reordered or altered; without requests exactly those taken up |
| MetaDataPlane.CallsArePassed | scada_select/src/MetaDataPlane.cxx:19-47 | In every history the writer calls are what was taken up or asked for again, in order and unaltered, less the retractions of tags whose instance the earlier calls say the writer does not hold |
| MetaDataPlane.RetractionsFollowDescriptions | scada_select/src/MetaDataPlane.cxx:27-35 | No tag is retracted that was not described before |
| MetaDataPlane.CatalogueIsLive | scada_select/src/MetaDataPlane.cxx:9-63 | In every history without timeouts, requests included: process() leaves the presentation side right on every tag except those whose retraction a request swallowed with no news since, which it shows although they are gone; so the catalogues are equal if and only if there is none, and always without requests |
| MetaDataPlane.RequestKeepsCatalogue | scada_select/src/MetaDataPlane.cxx:49-63 | After any history and one more METADATA request, the next process() makes the catalogues equal if and only if no tag was lost before and the request did not read an unread lifecycle event of a tag still shown |
| MetaDataPlane.RequestSwallows | scada_select/src/MetaDataPlane.cxx:58-62 | If it did, that tag stays shown although it is gone |
| MetaDataPlane.RetractionCanBeLost | scada_select/src/MetaDataPlane.cxx:49-63 | A tag described, forwarded, disposed of and then asked for ends up shown though it is gone |
| MetaDataPlane.MetaDataPlane.Process | scada_select/src/MetaDataPlane.cxx:9-47 | The loop makes the specified calls for every unread sample, marks all as read, and counts the timeouts |
| MetaDataPlane.MetaDataPlane.HandleMetadataRequest | scada_select/src/MetaDataPlane.cxx:49-63 | Rewrites the cached description if valid and marks it read; does nothing for an unknown uid |
| MetaDataPlane.MetaDataPlane.TryWrite | scada_select/src/MetaDataPlane.cxx:65-73 | One write attempt, counted if it times out |
| Scheduler.Run | sim/plc_publisher.py:176-203 | After any number of pops and with any delays, the publications are the beginning of the sorted merge of all tags' due times; each leaves when it is due or when the one before has left, whichever is later, plus its delay, so never early and late by no more than the delays so far; and each tag has been published as often as its period fits into the time so far |
| Scheduler.OneSchedule | sim/plc_publisher.py:176-203 | There is only one such sequence of a given length, so lateness cannot change the schedule |
| Scheduler.PublishKeeps | sim/plc_publisher.py:190-203 | Popping the least entry and rescheduling it relative to its due time keeps exactly each tag's next publication in the heap, and everything published sorted, complete up to each tag's count, and before every next due time |
| Scheduler.OnTimeServesEvenly | sim/plc_publisher.py:176-178 | On such a schedule k publications of a tag satisfy k·period <= D - start <= (k + 1)·period at the last due time D: no drift, no starvation |
| Scheduler.LatenessIsDelay | sim/plc_publisher.py:182-188 | Lateness never exceeds the sum of the delays: the schedule adds none of its own |
| Scheduler.BandRates | sim/field_simulation.py:79-97 | Every ten seconds tags 1-100 are published 20 times, 101-200 ten times, 201-300 twice and 301-500 once |
| Scheduler.BandsCover | sim/field_simulation.py:79-97 | publish_period_s raises exactly for a uid that is not simulated, and later bands are no faster |
| Scheduler.BuildTags | sim/field_simulation.py:79-125 | 500 tags, uid 1 to 500, each with the period of its rate band |
| Smoothing.Publish | sim/plc_publisher.py:173-203 | Under any interleaving each published value is the filter of the tag's own raw values and of nothing else |
| Smoothing.SmoothedWithinRange | sim/field_simulation.py:53-59 | A smoothed value stays within the range of the tag's raw values so far |
| Smoothing.FirstSampleFades | sim/field_simulation.py:53-59 | Two runs differing only in the first sample differ after n more by exactly (7/10)^n of the initial difference |

## Left out

- DDS entities, QoS loading, participants, discovery and reader loops: only the channel, the match statuses and the
  reader caches are modelled.
- Thread races between middleware callbacks and the event loop: outside a model of atomic steps.
- REST endpoints, static files, CORS, JSON text, the sample views and the browser page: plumbing.
- Configuration files and command lines: only the facts that the web separation starts positive and that the
  pre-enabled range has been validated.
- Interest.InterestManager.constructor: takes a positive separation, where the source raises ValueError for others.
- Server.WebServer.OnDdsSample: gives the recipients of a sample, not the payload or its delivery to a socket.
- DataPlane.DataPlane.Process: the timeout counter is unbounded, where the source's is 64 bits wide.
- SelectorLoop.ControlBeforeData: leaves the memory of forwardings behind the due test to
  SelectorProcess.ProcessJudgesAsRun.
- Scheduler.BuildTags: builds uids and periods, not the names, limits and value functions of the tags.
- Scheduler.Run: stops after a given number of publications, and takes the heap as a set from which the least entry
  is popped; the layout of heapq is its own affair.
- Smoothing.Publish: uses reals, so floating-point rounding is not modelled; nor are the sine and noise generators.
- Logging, verbosity and the loss counters that main.cxx prints: diagnostics.
