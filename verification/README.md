# NATCat: a verified model of its core

NATCat keeps public TCP and UDP mappings open through a NAT. A daemon runs one
*runner* per configured instance. A runner holds a keep-alive connection from a
local port, asks STUN servers which public `IP:port` that local port has,
confirms the answer, publishes it, and runs a notification script when it
changes. A manager starts and stops runners and merges what they report into a
status; a store keeps configurations, server lists, the last mappings and the
administrator's credential in one JSON file.

The project models the parts of `internal/core` that hold state, loops and
concurrency, and proves what they keep over whole traces, runs and histories.

| File | Component |
|---|---|
| `Confirmation.dfy` | confirming a mapping over a whole trace of probes |
| `Publication.dfy`, `Restart.dfy` | what counts as a change, since when a mapping is stable, and both across a restart |
| `Lifecycle.dfy`, `Protocol.dfy`, `ConfigChange.dfy` | the manager's locked sections, Start, Stop, StopAll, ReplaceConfig as a concurrent protocol, and what a changed configuration clears |
| `Status.dfy`, `Subscribers.dfy`, `Persistence.dfy` | the status merge, the drop-oldest subscriber queues, the stored mappings |
| `Stun.dfy`, `Demux.dfy` | STUN messages, the UDP socket shared with QUIC, the query fan-out |
| `Template.dfy` | expansion of notification scripts |
| `Rotation.dfy`, `Ports.dfy`, `KeepAliveTCP.dfy` | server rotation, bind ports, the ledger of TCP connections |
| `Endpoints.dfy`, `Configs.dfy`, `Store.dfy`, `Reopening.dfy`, `StoreRuns.dfy` | normalisation of server lists and configurations, the store, reopening it, and its runs |
| `Credentials.dfy`, `SharedFile.dfy`, `Pbkdf2.dfy` | the credential and the rest of the file when several processes share it, and PBKDF2 |
| `Net.dfy`, `Text.dfy`, `Arith.dfy`, `Sequences.dfy`, `Wrappers.dfy` | addresses, Go's string functions on ASCII, division, subsequences, `Option` and `Result` |

Conventions. What the program gets from outside (probe outcomes, packets, dials,
random draws, whether the file can be written) is a finite oracle sequence or a
parameter, so a statement for every oracle covers every behaviour; a run that
uses up its oracle ends as "still waiting". Time is a number that is passed in, 0
being Go's zero time. Objects whose methods change fields are classes, loops over
mutable locals are methods with invariants; each such method is proved against a
specification function, and the lemmas are about those functions. Concurrent
parts are state machines whose steps are the sections under the lock.

Four places where the code does not do what its documentation or an obvious
reading promises are stated as equivalences over all inputs or runs, each with a
concrete input: notifications without a change of the public mapping
(`Publication.NotifyWithoutPublicChange`, README.md:95); server lists that are
normalised again when the store reads its file (`Endpoints.NormalizeTwice` and
`StoreRuns.ReopenIsIdentity` for staying the same, `StoreRuns.ReopenIsValid`,
`StoreRuns.StoreStaysValid` and `StoreRuns.StaysValidIffSurviving` for staying
valid); saves of several processes that overlap
(`Credentials.AlwaysNewestIffNeverOlder` for the credential,
`SharedFile.EditsKeptIffCurrent` for the rest of the file); and a runner started
between the two halves of a clear, which still knows the mapping that a changed
configuration makes obsolete (`ConfigChange.StartAfterClear`). The default number
of confirmations is 2, as in the code (internal/core/validate.go:15), not 3 as in
README.md:123.

## Model

| member | source | states |
|---|---|---|
| Confirmation.PublicProbe | internal/core/runner.go:543-593 | An uncancelled probe goroutine publishes exactly at the first point of its trace where the last c counting outcomes are samples with one port number and one address, however it is spelt (failed rounds erased, other errors separating); a goroutine that stops or still probes has passed no such point; it publishes the last sample. Independent of how the trace is cut into calls, and of probes of earlier goroutines |
| Confirmation.ConfirmPublicProbeWithProgress | internal/core/runner.go:1382-1473 | One call, entered with carried progress: confirms exactly at an agreement of the whole trace, skips none, and leaves a progress record that again describes the whole trace, with 0 <= count < c; how many probes it makes at most, and for each way of failing what it means: a failed round, or all attempts used up, as a stop exactly if the last error is one |
| Confirmation.AcceptOneSample | internal/core/runner.go:1384-1393 | With a confirmation count of at most one, the first sample confirms, and progress carried over stays true |
| Confirmation.Absorb | internal/core/runner.go:1405-1447 | What each kind of outcome does to the candidate and the count, related to the agreement of the whole trace |
| Confirmation.AgreeIffStreak | internal/core/runner.go:1425-1446 | The counter reaches c exactly when the last c counting outcomes agree pairwise |
| Confirmation.PublicProbeMaxAttempts | internal/core/runner.go:1475-1488 | The fewest attempts with room for two outliers and for two rounds of confirmation at every server |
| Net.IPEqualIffCanonical | internal/core/runner.go:1490-1492 | Comparing addresses of 4 and 16 bytes is comparing their shortest spellings |
| Net.CanonicalSpellings | internal/core/runner.go:1490-1492 | The shortest spelling, byte by byte: four bytes are kept, their IPv4-in-IPv6 form is cut to them, and nothing else changes |
| Net.SameMappingMeans | internal/core/runner.go:1490-1492 | Two samples agree if and only if port numbers and shortest spellings of the addresses are equal |
| Net.SameMappingIsEquivalence | internal/core/runner.go:1490-1492 | Agreement of two samples is an equivalence relation |
| Net.XorInto | internal/core/auth.go:94-96 | The in-place exclusive-or of a block with another |
| Publication.MappingKeeper.SeedRuntime | internal/core/runner.go:91-120 | The remembered mapping and times after seeding; nothing changes without a public address that parses and a port |
| Publication.MappingKeeper.UpdateMappingLocked | internal/core/runner.go:2075-2106 | The step of the publication history that the history theorem is about |
| Publication.MappingKeeper.UpdateMappingForPublish | internal/core/runner.go:2063-2073 | The same step, with the decision to log |
| Publication.PublicationHistory | internal/core/runner.go:2063-2106 | From any seed, for every history: the remembered mapping is the last published one, a publication is a change exactly when adjacent five-tuples differ, and both times are those of the first event of the current maximal run with one public IP, port and protocol, or the non-zero seeded times when that run began before the seed |
| Publication.WhatCountsAsChange | internal/core/runner.go:2075-2106 | For every state and event: another public address, public port or protocol is a change and restarts both times; another private endpoint alone is a change and restarts neither |
| Publication.SamePublicMeans | internal/core/runner.go:2075-2106 | What is compared: ports, protocol, and addresses however they are spelt |
| Publication.FirstPublication | internal/core/runner.go:2063-2106 | The first publication of a runner that knows no mapping is a change, is logged, and starts both times |
| Publication.WhatASeedBrings | internal/core/runner.go:91-120 | A seed brings its mapping and times if and only if it has an address that parses and a port |
| Publication.RunStartExists | internal/core/runner.go:2075-2092 | Every publication belongs to a maximal run |
| Publication.RunStartUnique | internal/core/runner.go:2075-2092 | The start of that run is unique, so the times are determined |
| Publication.NotifyWithoutPublicChange | internal/core/runner.go:1678-1703 | A notification with an unchanged public mapping, within a history or as the first one after a seed, happens exactly when the private endpoint differs from that of the mapping before |
| Publication.PrivatePortChangeNotifies | internal/core/runner.go:2093-2105 | A concrete history on which the documented promise fails |
| Publication.SeededPrivatePortChangeNotifies | internal/core/runner.go:91-120 | A concrete seed and first publication on which it fails |
| Restart.RestartRoundTrip | internal/core/manager.go:129-137 | Publish, report, any later events of manager and store that spare the entry, written or not, restart over a file that holds what the store held for the instance, publish the same five-tuple: no change and the same times, exactly if the public port is not 0 and the report did not keep an older private port. The file holds it if it was up to date and the report was written, or if any later write of any kind succeeded |
| Restart.StoredMappingReturns | internal/core/runner.go:91-120 | A stored mapping seeds a new runner for which its publication is no change iff the stored private port is its private port |
| Restart.ReportPersists | internal/core/manager.go:307-362 | A report of a publication stores its mapping and times |
| Restart.AnyWriteIsOnFile | internal/core/store.go:371-392 | Any operation of the store that writes the file, of whatever kind, brings it up to date for every instance, whatever writes failed before |
| Restart.OneWriteIsEnough | internal/core/store.go:371-392 | After one successful write of any kind, the file holds the mapping for as long as the events spare it |
| Restart.SparedStaysStored | internal/core/manager.go:360-362 | Events that do not save, clear or delete the mapping of an instance (reports without a public mapping, reports of other instances, any other operation of the store) never touch its entry, in memory or, once it is there, in the file |
| Lifecycle.Manager.StartLocked | internal/core/manager.go:121-138 | The table and status after the section, and the seed: the status if it has an address, else the stored one |
| Lifecycle.Manager.CleanupLocked | internal/core/manager.go:144-152 | Only the runner that is entered is removed, and an error state is kept |
| Lifecycle.Manager.StopLocked | internal/core/manager.go:159-172 | The table is unchanged, the status says stopping or stopped, and the entered runner is returned |
| Lifecycle.Manager.ReplaceLocked | internal/core/manager.go:222-232 | The same for the first section of ReplaceConfig |
| Lifecycle.Manager.DropLocked | internal/core/manager.go:240-244 | Removes the old runner by identity only |
| Lifecycle.Manager.ClearLocked | internal/core/manager.go:263-275 | The public mapping leaves the status; the stored mapping is a second step |
| Lifecycle.Manager.Report | internal/core/manager.go:287-363 | The merged status, and what is stored in memory and file, for every update; the manager stays valid. What the merge means is stated by Status.StatusShowsLatest, LastChangeIsLatest, LinkIsLatest and LogsAreTheLatest |
| Lifecycle.Manager.MergeLink | internal/core/manager.go:331-345 | A report of the connection that is already up keeps its time, if that belongs to this run; a stopping or stopped instance takes over none |
| Lifecycle.Manager.SetStatusLocked | internal/core/manager.go:379-398 | The status after a change of state, for every state, message and error |
| Lifecycle.SectionsKeepValid | internal/core/manager.go:115-277 | Every section under the lock keeps what the manager promises of each status: no connection shown when stopping or stopped, at most 100 log entries |
| Lifecycle.ReportKeepsValid | internal/core/manager.go:287-363 | So does every report |
| Lifecycle.SectionsShow | internal/core/manager.go:121-152 | State, error and log that a start, a cleanup and a clear leave behind |
| Lifecycle.StopsShow | internal/core/manager.go:159-232 | State, error and last log entry that a Stop and the first section of ReplaceConfig leave behind |
| Lifecycle.OthersStay | internal/core/manager.go:115-363 | No section and no report touches another instance |
| Lifecycle.ErrorIsShown | internal/core/manager.go:144-152 | An error that a runner reports is shown with its message, also after the cleanup of the runner |
| Lifecycle.WhichReportsPersist | internal/core/manager.go:360-362 | Reports with a public address, a public port or a time of their update reach the store, and no others |
| Protocol.EveryRunKeepsInv | internal/core/manager.go:115-249 | In every state that any interleaving of Start, Stop, StopAll, ReplaceConfig, reports, runner ends and cleanups reaches: live runners are entered, entries are runners before their cleanup, replaced runners are done and gone, stopped instances show no connection |
| Protocol.StepKeepsInv | internal/core/manager.go:115-249 | Each step keeps that invariant, never brings a runner back into the table, and never undoes "done" |
| Protocol.AtMostOneLive | internal/core/manager.go:140-153 | Two runners of one instance that are not done are the same, and it is the one in the table |
| Protocol.CleanupSparesNewerRunner | internal/core/manager.go:144-152 | A late cleanup changes nothing when another runner is entered; otherwise it empties the entry and states "stopped" unless the state is an error |
| Protocol.DoneRunnerWillLeave | internal/core/manager.go:140-153 | An entered runner that is done still has its cleanup ahead, which removes it |
| Protocol.ReplaceInstallsAnother | internal/core/manager.go:240-248 | After the final Start of ReplaceConfig the table holds a runner, and not the replaced one |
| Protocol.ReplacedNeverReturns | internal/core/manager.go:240-248 | The replaced runner stays done and out of the table in every later state |
| Protocol.StartNeedsCleanup | internal/core/manager.go:121-125 | A Start after a Stop starts a runner if the old one's cleanup has run, and starts nothing while the old one is still in the table |
| Protocol.StopReturnsAfterDone | internal/core/manager.go:174-180 | A Stop without error that found a runner returns after its Done |
| Protocol.StoppedInstancesAreQuiet | internal/core/manager.go:400-413 | Whatever order reports and stops come in, a stopping or stopped instance shows no keep-alive connection |
| Protocol.CancelledIffSignalled | internal/core/runner.go:183-192 | Over every run: a runner is cancelled if and only if some Stop, StopAll or ReplaceConfig signalled it after its Run had begun; an earlier signal is lost for good |
| Protocol.StopAllReachesAll | internal/core/manager.go:183-194 | When a StopAll has no runner left to signal, every runner that was entered and had begun when it was called is cancelled, whatever happened in between |
| Protocol.OnceEach | internal/core/manager.go:140-153 | A runner begins, ends and is cleaned up after once each, in this order; a call that has returned takes no further step |
| Protocol.WhatReplaceConfigDoes | internal/core/manager.go:202-232 | The first step of ReplaceConfig in every case: what is stopped, what is cleared first, and what is left to do |
| Protocol.WhatAReportStores | internal/core/manager.go:356-362 | A report stores the merged mapping if it concerns the mapping and the merged status has an address and a port, and otherwise nothing |
| ConfigChange.ChangedMappingIsForgotten | internal/core/manager.go:202-249 | The runner that a ReplaceConfig with a changed mapping starts is seeded with no public address, under every interleaving with other calls, runners and cleanups, unless a report has published one since the clear; so its first confirmed mapping counts as a change |
| ConfigChange.ChangedReplaceClears | internal/core/manager.go:202-249 | Such a call starts nothing before it has cleared both the status and the stored mapping |
| ConfigChange.ClearUntilPublished | internal/core/manager.go:262-277 | What a call has cleared stays clear, in the status and in the store, until a report publishes an address of the instance |
| ConfigChange.StartAfterClear | internal/core/manager.go:121-138 | In every run, for a runner that any call starts after any clear of the status, with no address published since: it is seeded with the old stored mapping if and only if there was one and the second half of a clear has not run since |
| ConfigChange.HalfClearedStart | internal/core/manager.go:275-276 | An instance of it: a Start between the two halves of a clear is seeded with the mapping about to be cleared, for every stored mapping |
| Status.ValidAlways | internal/core/manager.go:262-413 | For any sequence of updates of one status: no connection is shown when stopping or stopped, and the log has at most 100 entries |
| Status.DefaultIsBlank | internal/core/manager.go:365-377 | An instance without a status is stopped and shows nothing else |
| Status.StatusShowsLatest | internal/core/manager.go:262-413 | After any sequence of reports, changes of state and clears: state, error, start, port check and each part of the mapping are those of the last update that says something about them |
| Status.LastChangeIsLatest | internal/core/manager.go:287-398 | So is the time of the last change, which is never lost once it is set |
| Status.LinkIsLatest | internal/core/manager.go:287-413 | The connection shown is the last one reported while the instance was not stopping or stopped, unless it was cleared since |
| Status.LogsAreTheLatest | internal/core/manager.go:349-354 | The log is exactly the last min(100, total) entries ever appended |
| Status.ConnectedAtIsStreakStart | internal/core/manager.go:331-345 | ConnectedAt stays what the first report of the unbroken streak to one protocol, address and port gave, unless that lies before the start of the run or an update clears and reports a connection at once |
| Status.WhenTheTimeIsKept | internal/core/manager.go:331-345 | For every status and report: the time of connecting is kept if and only if the connection shown is up over the same protocol, address and port, has a time, and is not older than the run |
| Subscribers.EveryRunKeepsInv | internal/core/manager.go:438-457 | Under every interleaving of notifications, receivers, subscriptions and cancellations: at most 64 queued, received followed by queued is an in-order part of what was offered, the newest event is never lost except between its two attempts |
| Subscribers.OfferedIsNotified | internal/core/manager.go:438-457 | Each channel was offered exactly the events notified since its subscription, in order, except the one being delivered |
| Subscribers.DeliveredIsNotified | internal/core/manager.go:39-56 | Received followed by queued is an in-order part of what was notified since the subscription |
| Subscribers.QueueHoldsTheLatest | internal/core/manager.go:438-457 | In every reachable state, every event offered to a channel was received, is queued, or was dropped from it, and the queue holds exactly the latest ones, with no gap |
| Subscribers.DropsOnlyWhenFull | internal/core/manager.go:443-455 | An event is dropped only after the notification has found 64 events queued, and since then only receivers have taken a step |
| Subscribers.OneLossPerNotification | internal/core/manager.go:443-455 | A notification drops at most one event of each channel |
| Subscribers.NotificationReachesAll | internal/core/manager.go:438-457 | When a notification ends, each subscriber has its event last in the queue or received last |
| Subscribers.NoSendAfterClose | internal/core/manager.go:46-54 | No step sends to a closed channel |
| Stun.ParseSTUN | internal/core/stun.go:81-127 | The loop over attributes computes the recursive walk, and every access is in bounds and the loop ends, for every packet |
| Stun.ParseMappedAddress | internal/core/stun.go:129-158 | The in-place XOR computes the address of sections 14.1 and 14.2 of RFC 8489 |
| Stun.MappedAddressBytes | internal/core/stun.go:129-158 | In bytes, for every attribute code and value: acceptance, and address and port, masked with 21 12 a4 42 exactly for code 0x0020 |
| Stun.AcceptedHeader | internal/core/stun.go:81-97 | In bytes: an accepted packet begins with 01 01, holds the magic cookie 21 12 a4 42, its transaction ID and the declared length |
| Stun.OneAttributeResponse | internal/core/stun.go:81-158 | A whole response with one address attribute, written as bytes, is decoded, for every ID, address, port and both kinds of attribute |
| Stun.ExampleAddress | internal/core/stun.go:129-158 | The value 00 01 a1 47 e1 12 a6 43 of an XOR-MAPPED-ADDRESS is 192.0.2.1 and port 32853 |
| Stun.StunRequest | internal/core/stun.go:67-79 | The 20 bytes of a Binding request of section 5 of RFC 8489 with the given transaction ID |
| Stun.DecodeEncoded | internal/core/stun.go:81-158 | Decoding inverts the reference encoder: for every transaction ID, attributes before and after with padding, address attribute, and bytes beyond the declared length |
| Stun.AcceptsExactlyEncodings | internal/core/stun.go:81-158 | Conversely, a packet is accepted with a result if and only if it is an encoding of that result |
| Stun.ForeignPacketsRejected | internal/core/stun.go:81-91 | A packet whose first byte is not 0x01 is rejected |
| Stun.QUICPacketsRejected | internal/core/stun.go:81-91 | Every packet with the fixed bit of sections 17.2 and 17.3 of RFC 9000 is rejected |
| Stun.WalkShift | internal/core/stun.go:99-124 | The walk does not depend on what precedes an aligned position |
| Stun.WalkEncodes | internal/core/stun.go:99-124 | Every accepted body is some attributes that are no mapped address, then one that is, then anything |
| Demux.SharedUDPConn.ReadFrom | internal/core/runner.go:897-921 | A read returns the first packet the parser rejects, cut to the buffer, leaves the rest of the buffer alone, and queues the responses before it |
| Demux.ReadsAreForQUIC | internal/core/runner.go:897-921 | Over any arrivals, the QUIC reader gets exactly the rejected packets, in order |
| Demux.QUICPacketsArrive | internal/core/runner.go:897-921 | It gets every packet with the QUIC fixed bit |
| Demux.QueueKeepsOrder | internal/core/runner.go:905-916 | At most 8 responses are queued; received followed by queued is an in-order part of those that arrived |
| Demux.NothingLostWithRoom | internal/core/runner.go:905-916 | If fewer than 8 responses are queued whenever one comes, the probe goroutine gets all of them, in order |
| Demux.FullQueueStays | internal/core/runner.go:905-916 | A response that finds 8 queued is dropped, and none of those |
| Demux.ClipMeans | internal/core/runner.go:897-904 | Of a datagram the first 2048 bytes are read |
| Demux.ByTIDIsLast | internal/core/runner.go:1557-1560 | The table of requests maps an ID to the last request with it |
| Demux.SendRound | internal/core/runner.go:1568-1584 | A round goes on through the requests in order, also past sends that fail, counts the sends that succeed, and stops early only when cancelled |
| Demux.Await | internal/core/runner.go:1586-1606 | The wait of a round takes responses in order and ends with the first accepted one, the first other event, or the end of the oracle; which of them it was, and after how many responses |
| Demux.StunUDPSharedFanout | internal/core/runner.go:1552-1614 | Why it ends: no requests, all rounds timed out, a cancelled context, a round without a successful send, a closed channel, or an answer; at most retries * n sends, round after round in order; what it has seen is a prefix of what the channel delivers; the answer is the first response that carries the ID of one of the requests from that request's address; any other end has seen none |
| Demux.FanoutIsDetermined | internal/core/runner.go:1552-1614 | These laws are complete: for all rounds and responses they determine the outcome, the last round and the responses seen, so a fan-out gives up exactly when they say |
| Demux.SourceMatchesMeans | internal/core/runner.go:1660-1669 | A response matches a request unless both addresses are known and differ in port or address, however spelt |
| Demux.AnswerAnswersRequest | internal/core/runner.go:1580-1606 | From socket to result: what a fan-out returns arrived at the socket as an encoded success response with a request's ID, from that request's address as far as both are known, and the server named is that request's |
| Template.ExpandNotifyScript | internal/core/runner.go:1872-1912 | The scanner refines the token-by-token expansion, for every script and every table of variables |
| Template.ExpansionRendersTokens | internal/core/runner.go:1872-1912 | The tokens cover the script and do not depend on the values; the output is the script with each reference replaced, so no inserted value is scanned again |
| Template.NameIsReplaced | internal/core/runner.go:1872-1920 | $NAME followed by no letter, digit or underscore is replaced if NAME is known; otherwise it stays, also if it begins with a known name |
| Template.BracedNameIsReplaced | internal/core/runner.go:1881-1890 | ${NAME} is replaced if NAME is known; otherwise the scan goes on behind the "${" |
| Template.OtherDollarStays | internal/core/runner.go:1892-1897 | Any other '$' stays |
| Template.TextStays | internal/core/runner.go:1872-1879 | Text without '$' stays |
| Template.MappingVariablesAreReplaced | internal/core/runner.go:1860-1870 | The four documented variables are the known ones, and both forms of a reference to them are replaced |
| Template.MappingValues | internal/core/runner.go:1860-1870 | Their values |
| Template.NoReferenceNoChange | internal/core/runner.go:1872-1912 | With no reference to a known name the output is the script |
| Template.ExpansionIsIdempotent | internal/core/runner.go:1872-1912 | Expanding twice is expanding once for every script, if names hold no '$' and values are not empty and use no character of a name and none of '$', '{', '}' |
| Template.StableIffNoEmptyValue | internal/core/runner.go:1872-1912 | Exactly when: with values like these and no '}' in names either, every script is stable if and only if no value is empty |
| Template.EmptyValueBreaks | internal/core/runner.go:1872-1912 | For every name n with an empty value, the script "$${n}{n}" is unstable: it expands to "${n}", and that to nothing |
| Template.MappingExpansionIsIdempotent | internal/core/runner.go:1860-1870 | With the variables of a mapping the condition holds, so every script is stable |
| Rotation.ServerCursors.OrderedServerEndpoints | internal/core/runner.go:1179-1196 | The order handed out and the new cursor of its kind; cursors of other kinds stay |
| Rotation.ServerCursors.OrderedServerEndpointBatch | internal/core/runner.go:1198-1205 | The batch handed out and the new cursor of its kind; cursors of other kinds stay |
| Rotation.ServerCursors.NextServerCursorStep | internal/core/runner.go:1211-1223 | The position returned lies in the list, and the cursor has moved on by the step |
| Rotation.ServerCursors.SetServerCursorAfter | internal/core/runner.go:1225-1235 | The cursor is behind the server, if the list has it |
| Rotation.IndexOfServerEndpoint | internal/core/runner.go:1248-1259 | The first position of a server, hosts compared without case, or -1 |
| Rotation.BatchesAreOneWalk | internal/core/runner.go:1198-1223 | From any cursor, any number of batches smaller than the list hand out consecutive positions modulo n |
| Rotation.BatchesCover | internal/core/runner.go:1198-1223 | Any ceil(n/limit) batches hand out every server |
| Rotation.SuccessGoesLast | internal/core/runner.go:1231-1235 | In a list without duplicates, a server that answered is not handed out again among the next n - 1 |
| Rotation.OthersComeFirst | internal/core/runner.go:1231-1235 | Those next n - 1 are all the others |
| Rotation.DeadServerIsLast | internal/core/runner.go:1179-1196 | An ordering after a dead server is a permutation, with that server last if the list has it |
| Rotation.OrderingsTakeTurns | internal/core/runner.go:1179-1196 | Successive requests for all servers each start one server further, modulo n, from any cursor |
| Rotation.OrderedAfterServer | internal/core/runner.go:1179-1196 | An ordering after a listed server starts behind it wherever the cursor was, and the next one starts one further |
| Rotation.FirstOrdering | internal/core/runner.go:1179-1196 | Before any request the list is handed out as configured |
| Rotation.UnlimitedBatch | internal/core/runner.go:1198-1205 | A batch without a limit below the length is a whole ordering; a list of at most one server moves no cursor |
| Rotation.UnlistedSuccess | internal/core/runner.go:1225-1235 | The success of a server that is not listed moves no cursor |
| Ports.NewPortPicker | internal/core/port.go:21-67 | An accepted setting gives a picker with 0 <= start <= next <= end <= 65535 |
| Ports.SettingRoundTrip | internal/core/port.go:21-82 | The three documented forms give exactly the port or range they print, in sequential or random mode |
| Ports.PlainSetting | internal/core/port.go:21-82 | Every setting without a separator: blank is any port, a number is accepted if and only if it is a port |
| Ports.RangeSettingMeans | internal/core/port.go:21-82 | Every setting with one separator: accepted if and only if both sides are numbers and ports in order, and what it gives |
| Ports.TwoSeparators | internal/core/port.go:28-47 | With the separator twice it is refused |
| Ports.PortPicker.NextExcept | internal/core/port.go:88-128 | In both modes, for every draw: the port is in the range, is not the excepted one when the range has two ports, and the picker stays valid |
| Ports.RandomPick | internal/core/port.go:88-111 | In random mode the port is start plus the first draw that avoids the failed port, and the lowest other port if there is none |
| Ports.BindPorts.BindPort | internal/core/runner.go:1996-2007 | The port and the new state, which avoids the port that failed |
| Ports.BindPorts.AdvanceBindPort | internal/core/runner.go:2009-2014 | The current port is marked as failed |
| Ports.BindPorts.KeepBindPort | internal/core/runner.go:2016-2025 | The kept port replaces the current one if it is positive |
| Ports.SweepIsCyclic | internal/core/runner.go:1996-2014 | Failing attempts on a sequential range walk through it in cyclic order |
| Ports.SweepTriesEveryPortOnce | internal/core/runner.go:1996-2014 | n failing attempts on a sequential range of n >= 2 ports try every port exactly once |
| Ports.KeptPortStays | internal/core/runner.go:1996-2025 | Without an advance, a kept port is returned again, whatever the draws |
| Ports.NothingKept | internal/core/runner.go:1996-2025 | Keeping no port cancels a pending advance |
| Ports.FirstBind | internal/core/runner.go:1996-2007 | A fresh runner picks a port of its range, in sequential mode the next one, and stays on it |
| Ports.AdvanceChangesPort | internal/core/runner.go:1996-2014 | After an advance, a range of two ports or more gives another port, in both modes |
| KeepAliveTCP.TCPRun.OpenFromServers | internal/core/runner.go:455-491 | One pass in the cursor's order that ends exactly with the first success, the first failure that no other server helps, or the last server; at its end exactly the returned connection is open, or none |
| KeepAliveTCP.TCPRun.TryServer | internal/core/runner.go:464-486 | One server is tried: at most one dial, and its connection is open and tracked exactly if the preflight succeeds |
| KeepAliveTCP.TCPRun.Pass | internal/core/runner.go:388-430 | One pass through the servers after the dead one; it ends early exactly with the first success, or the first dial that finds the run cancelled or the local port busy, and goes on past every other failure |
| KeepAliveTCP.TCPRun.Reconnect | internal/core/runner.go:374-453 | At most 3 passes with n >= 2 servers, each whole and in the order after the dead one; it gives up only if cancelled before a pass, after a hopeless dial, or after three whole passes in vain; at its end exactly the returned connection is open, or none |
| KeepAliveTCP.TCPRun.Run | internal/core/runner.go:205-280 | For every sequence of dials, preflights and sessions: a run that returns has closed all it opened, one after another; it returns only if no server could be reached at first, a session ended otherwise than closed by the server, or a reconnect gave up, and every earlier session was closed and reconnected |
| KeepAliveTCP.TCPRun.RunSessions | internal/core/runner.go:244-280 | The same for its loop |
| KeepAliveTCP.AtMostOneOpen | internal/core/runner.go:205-280 | At every moment of the ledger at most one connection is open, and none at its end |
| KeepAliveTCP.HoldingIsPrefix | internal/core/runner.go:205-280 | A run that holds a connection is a prefix of such a ledger |
| KeepAliveTCP.EachActionOnce | internal/core/runner.go:205-280 | Each connection is opened, tracked, untracked and closed exactly once, in this order |
| Endpoints.NormalizeServerEndpoints | internal/core/validate.go:143-162 | The output is exactly the cleaned entries that are not empty and come first with their key, in order |
| Endpoints.KeyIdentifiesServer | internal/core/validate.go:154-157 | Two entries have one key exactly when host without case and port agree, for every host and port, bracketed or not |
| Endpoints.FirstsIsDedup | internal/core/validate.go:143-162 | First occurrences by position are the left-to-right removal of duplicates |
| Endpoints.NormalizedList | internal/core/validate.go:143-162 | The output has no server twice, no empty host, and only entries of the input |
| Endpoints.NothingIsLost | internal/core/validate.go:143-162 | Every input server with a host is in the output |
| Endpoints.SettledIffFixed | internal/core/validate.go:164-170 | Which hosts normalisation leaves alone, as a condition on their text |
| Endpoints.NormalizeHostIsNotIdempotent | internal/core/validate.go:164-170 | A concrete host that takes two passes |
| Text.TrimMeans | internal/core/validate.go:164-170 | Trimming takes away characters to cut at both ends and nothing else |
| Text.CutCharacters | internal/core/validate.go:164-170 | White space and the slash, as character codes |
| Text.LowerCharMeans | internal/core/runner.go:1257-1259 | A to Z become a to z, and no other character changes |
| Text.EqualFoldMeans | internal/core/runner.go:1257-1259 | Texts are compared without case character by character |
| Text.AtoiSigned | internal/core/port.go:59-82 | Numbers may have a sign |
| Text.AtoiRefuses | internal/core/port.go:59-82 | A text with anything else in it is no number |
| Text.AtoiNeedsDigits | internal/core/port.go:59-82 | Nothing, or a sign alone, is no number |
| Text.SplitJoins | internal/core/port.go:28-47 | Splitting loses nothing and leaves no separator |
| Endpoints.NormalizeTwice | internal/core/validate.go:143-170 | Normalising a normalised list changes nothing if and only if all its hosts are settled |
| Endpoints.NormalizeConcat | internal/core/validate.go:143-170 | Normalising two parts first makes no difference, if their normalised hosts are settled |
| Endpoints.NormalizeConcatExactly | internal/core/validate.go:143-170 | For parts without a common server, it makes no difference if and only if their normalised hosts are settled |
| Endpoints.FlattenLegacyServerGroups | internal/core/store.go:451-457 | The groups' normalised lists, one after another, normalised |
| Endpoints.FlattenIsConcat | internal/core/store.go:451-457 | Flattening any number of groups is normalising their concatenation, if the normalised hosts are settled |
| Configs.NormalizeConfig | internal/core/validate.go:19-61 | Every field of the normal form, for every configuration |
| Configs.NormalizeConfigTwice | internal/core/validate.go:19-61 | Normalising a configuration is idempotent |
| Configs.Defaults | internal/core/validate.go:19-61 | The default of each field that is left out, the keep-alive port by protocol |
| Configs.FirstFailingCheck | internal/core/validate.go:63-98 | The error is that of the first check that fails, in the order of the code |
| Configs.ValidMeansUsable | internal/core/validate.go:63-98 | Normalising and then validating accepts exactly the configurations whose normal form a runner can use |
| Store.LegacyKeepAliveServers | internal/core/store.go:459-480 | The lists of exactly the groups for the protocol, by ID and name, flattened |
| Store.WhichGroupsAreForQUIC | internal/core/store.go:459-480 | A legacy group serves QUIC if and only if "quic" or "udp" is in its ID or in its name, in any case |
| Store.ChosenAre | internal/core/store.go:459-480 | The lists taken are those of exactly the groups for the protocol |
| Store.ValidateServerEndpoints | internal/core/validate.go:172-185 | The first error in the order of the list |
| Store.AcceptedListIsGood | internal/core/validate.go:143-185 | A normalised list is accepted if and only if it is not empty, has no server twice, and all hosts are not blank and all ports 1-65535 |
| Store.OpenStore | internal/core/store.go:20-64 | Memory, credential and file of an opened store, or the error: an unreadable or malformed file, no user name for a new one, or a first save that fails |
| Store.LoadDatabase | internal/core/store.go:330-369 | What loading makes of every file: legacy groups, defaults and normal forms |
| Store.ConfigStore.RefreshAdminFromDiskLocked | internal/core/store.go:394-410 | The newer of memory and a complete credential on disk |
| Store.RefreshMeans | internal/core/store.go:394-410 | The credential of the file is taken if and only if it is complete, field by field, and newer or the one in memory has no time |
| Store.StorageCommits | internal/core/store.go:371-392 | The credential apart, the methods do to memory and file what the functions of the runs say |
| StoreRuns.StatusOperations | internal/core/store.go:153-193 | In the runs of the store, saving or removing a runtime status writes the whole database exactly if it changes something |
| Store.ConfigStore.SaveLocked | internal/core/store.go:371-392 | Memory and file after a save, written or not, whatever the file was: the newer credential, and everything else as it is in memory |
| Store.ConfigStore.Admin | internal/core/store.go:66-71 | The refreshed credential is returned and kept |
| Store.ConfigStore.SaveRuntimeStatus | internal/core/store.go:153-178 | Memory and file after a save, written or not, and its error; an unchanged status is not written, even if an earlier write has failed |
| Store.ConfigStore.ClearRuntimeStatus | internal/core/store.go:180-193 | The same for removing the mapping of an instance |
| Store.ConfigStore.LoadRuntimeStatus | internal/core/store.go:134-151 | The stored mapping of an instance that had an address and a port, as a status |
| Persistence.LoadAfterSave | internal/core/store.go:134-178 | What was saved last for an instance is loaded, if it has an ID, an address and a port; anything else saves nothing, and other instances are not touched |
| Persistence.LoadAfterRemoval | internal/core/store.go:180-193 | After a removal nothing is loaded for the instance, and others are not touched |
| Store.ConfigStore.AddInstance | internal/core/store.go:270-292 | Memory, file and result in every case: invalid, duplicate ID, file not written, written |
| Store.ConfigStore.UpdateInstance | internal/core/store.go:294-314 | The same for an update, with the missing ID |
| Store.ConfigStore.DeleteInstance | internal/core/store.go:316-328 | The same for a deletion, which also removes the stored mapping |
| Store.NewLists | internal/core/store.go:209-224 | The lists that an update proposes: as given, or from the legacy groups when empty |
| Store.LegacyLists | internal/core/store.go:209-224 | Each list that is left out comes from the groups of its kind, with the port of its kind; a list that is given is taken |
| Store.DefaultPorts | internal/core/store.go:222-224 | Servers without a port get 3478, 80 or 443 by the list they are in |
| Store.WhoBlocks | internal/core/store.go:235-253 | An update of the lists is blocked by the first instance that could not be used with them, and only then |
| Store.ConfigStore.UpdateServerGroups | internal/core/store.go:205-268 | The same for the server lists, given as lists or as legacy groups |
| Store.ConfigStore.ValidateConfigLocked | internal/core/store.go:412-428 | A configuration in normal form is accepted if and only if a runner can use it and every shared list it refers to is not empty; otherwise the first error |
| Store.ConfigStore.GetInstance | internal/core/store.go:122-132 | The first instance with the ID, resolved |
| StoreRuns.StoreStaysValid | internal/core/store.go:205-328 | From a fresh store, for every sequence of operations (saves and removals of runtime statuses among them), failed saves and restarts: memory and file are valid all the time (unique non-empty IDs, usable configurations, three good server lists) if and only if every restart finds reusable lists in the file; without restarts, always |
| StoreRuns.LastingUpdatesSurvive | internal/core/store.go:205-328 | If the hosts of every update keep something however often they are normalised, memory and file are valid all the time, with any number of restarts |
| StoreRuns.RunnersAreServed | internal/core/validate.go:209-237 | Every instance of a valid store resolves to non-empty lists of STUN and keep-alive servers with hosts and ports, in group mode exactly the shared ones, and its port picker exists; so the guards for empty lists are never taken |
| StoreRuns.ReopenIsIdentity | internal/core/store.go:330-369 | Reading back the file of a valid store gives the same store if and only if all hosts are settled |
| StoreRuns.ReopenIsValid | internal/core/store.go:330-369 | It gives a valid store, the same or not, if and only if the three lists are reusable |
| Reopening.GoodAfterReopening | internal/core/validate.go:143-170 | A good list is good after one more normalisation if and only if some host stays a host and none becomes blank |
| Reopening.LastingIsReusable | internal/core/validate.go:143-170 | A list whose hosts never normalise to nothing is reusable, and so is its normal form, any number of times |
| Reopening.StaysGoodIffSurvives | internal/core/validate.go:143-170 | One good list stays good however often it is normalised if and only if it passes a check that ends: it is reusable, and so is what becomes of it, until nothing changes |
| StoreRuns.StaysValidIffSurviving | internal/core/store.go:330-369 | A valid store stays valid through any number of restarts if and only if its three lists pass that check |
| StoreRuns.AcceptedListCanVanish | internal/core/store.go:205-268 | A concrete update that is accepted, is not reusable, and whose list is empty after a restart |
| StoreRuns.RegroupNeedsGoodLists | internal/core/store.go:235-253 | In a valid store no instance blocks an update of the lists: it succeeds if and only if the three lists are good |
| StoreRuns.AddOutcome | internal/core/store.go:270-292 | An addition succeeds if and only if the normal form can be used and its ID is free; otherwise which error it is |
| StoreRuns.UpdateOutcome | internal/core/store.go:294-314 | An update succeeds if and only if the normal form can be used and the ID is known; it replaces the first instance with the ID and keeps all others |
| StoreRuns.DeleteOutcome | internal/core/store.go:316-328 | A deletion succeeds if and only if the ID is known |
| StoreRuns.FindAfterAdd | internal/core/store.go:270-292 | An added instance is found in normal form, and every other look-up is unchanged |
| StoreRuns.FindAfterUpdate | internal/core/store.go:294-314 | The same for an update |
| StoreRuns.FindAfterDelete | internal/core/store.go:316-328 | A deleted instance and its stored mapping are gone, and nothing else |
| StoreRuns.FailedAddTakesEffect | internal/core/store.go:287-291 | An addition that fails only in saving takes effect: after any further operations that do not update or delete the instance it is found, adding it again is refused, and from the next operation of any kind that is saved it is in the file |
| Credentials.ChangeAdminPassword | internal/core/store.go:73-100 | Every error (a missing, unreadable or malformed file, a refused credential, a failed write) leaves the file alone; without one the new credential is on disk, unless the disk holds a complete later one, and everything else is written back as a store loads it |
| Credentials.AlwaysNewestIffNeverOlder | internal/core/store.go:371-410 | Over every interleaving of reads, changes, refreshes and writes of any number of processes: the newest saved credential is on disk after every step if and only if no write stores an older credential than the one on disk, the comparison that saveLocked does not make between its refresh and its write |
| Credentials.WriteKeepsNewest | internal/core/store.go:371-392 | One more write keeps the newest on disk if and only if it is not older than the disk, overtaken or not |
| Credentials.AtomicSavesKeepNewest | internal/core/store.go:371-410 | With atomic saves the newest is always on disk |
| Credentials.AtomicIsNeverOlder | internal/core/store.go:371-410 | A write that no other process has overtaken is never older |
| Credentials.DiskIsNewest | internal/core/store.go:371-410 | As long as no write was older, the disk holds the newest of all saved credentials, so its time never decreases |
| Credentials.AdminIsNewest | internal/core/store.go:66-71 | In every such run, Admin of a process without an unsaved change returns that newest credential |
| Credentials.SavedChangeSurvives | internal/core/store.go:66-100 | In every such run, whatever follows a saved change, disk and Admin hold that very credential or a later one |
| Credentials.OvertakenSaveLosesAChange | internal/core/store.go:371-410 | A concrete interleaving of two saves with an older write, which loses a change for good |
| SharedFile.EditsKeptIffCurrent | internal/core/store.go:371-410 | Over the same interleavings, for everything but the credential: no edit that the file has held is ever missing from it again if and only if every write finds the file as its process last read or wrote it, which nothing checks |
| SharedFile.CurrentRunsGrow | internal/core/store.go:371-392 | In such runs the file only ever grows by edits, in order |
| SharedFile.ServerBringsEditsBack | internal/core/store.go:73-100 | With one server and any number of password changes, the file holds the first so many edits of the server at any time, and all of them after each of its saves |
| SharedFile.AtomicSaveLosesAnEdit | internal/core/store.go:73-100 | A concrete interleaving: saves that are atomic and keep the newest credential, and a password change that takes a saved edit off the file |
| Pbkdf2.Pbkdf2Key | internal/core/auth.go:71-104 | The nested loops compute the derived key of section 5.2 of RFC 8018, for every password, salt, iteration count and length |
| Pbkdf2.DeriveBlock | internal/core/auth.go:79-99 | One block is the exclusive-or F of section 5.2 of RFC 8018 |
| Pbkdf2.Int4Encodes | internal/core/auth.go:79-82 | The four counter bytes encode the block number, as long as it fits |
| Pbkdf2.ShorterKeyIsPrefix | internal/core/auth.go:71-104 | A shorter key is a prefix of a longer one from the same inputs |
| Pbkdf2.NewAdminCredential | internal/core/auth.go:15-35 | The credential or the error, for every name, password and salt |
| Pbkdf2.CheckPassword | internal/core/auth.go:37-57 | Accepts exactly the passwords that match |
| Pbkdf2.NewCredentialAccepts | internal/core/auth.go:15-57 | A new credential accepts its own name with exactly the passwords that derive the same key, its own among them |

## Left out

- Endpoints.NormalizeConcat: for parts with a common server its condition is sufficient and not necessary, because an unsettled duplicate may clean to a server that is there already; the exact condition is stated for parts without a common server.
- Endpoints.FlattenIsConcat: the same, for groups.
- SharedFile.EditsKeptIffCurrent: the other data of the file is the history of its edits; that reading the file also normalises it is stated in `Store.LoadDatabase` and `StoreRuns.ReopenIsIdentity` apart.
- Pbkdf2.Pbkdf2Key: the limit of section 5.2 of RFC 8018 on the key length is not a condition; beyond 2^32 - 1 blocks the counter wraps in code and model alike.
- Sockets, DNS, TLS, QUIC, HTTP/3 and HTTP requests, socket options, TCP round-trip times and script execution: outcomes are oracles. The retry of `dialTCP` on a busy address is inside the outcome of a dial.
- Reconnecting QUIC (`reconnectQUICKeepAliveForProbe`, `runUDP`): the same shape as the TCP side. `stunTCP`, `stunUDPShared` and the Windows timing branch.
- The choice to skip a probe after a reconnect, and the calls of `advanceBindPort` from the probe goroutines and `runTCP`: ports and connections are modelled each on its own.
- `confirmPublicProbe`, the wrapper without carried progress.
- The fields of one Runner are spread over a class per concern (progress, mapping, cursors, ports, connections); its locks are not modelled inside a runner, so each method is one step.
- `closeActive`, by which a Stop also closes the tracked connections of a run from another goroutine (internal/core/runner.go:2039-2054): the ledger is that of the run's own actions.
- Store.OpenStore: a failing source of random numbers, and generating the first password.
- A probe goroutine that publishes after its last cancellation check: confirmation is stated per goroutine.
- ConnectedSeconds, which is computed when a status is read.
- JSON and the file system: what is written is what is read. SHA-256, HMAC and base64 are an abstract function of fixed size and a codec with a round trip.
- Unicode case folding and white space: text functions are those of ASCII. Printing and parsing of IP addresses is a codec with a correct round trip, and which texts are IPv4 addresses is a parameter.
- Slices are values: sharing of backing arrays is not modelled.
- Session hours, the version number and legacy group IDs of an instance carry no behaviour here.
- HTTP handlers, sessions, static assets, log wording and command-line flags.
