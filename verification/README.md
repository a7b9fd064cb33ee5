# Verified model of the monitoring agent

A Dafny model of the stateful core of the agent: what it collects, what it stores and
forwards, how it talks to the Hub, how the desktop backend supervises it, and how it
decides on updates. `dafny verify dfyconfig.toml` checks everything.

| files | subject |
|---|---|
| `DockerScheduler.dfy`, `DockerReadings.dfy` | which containers get a stats call in a round |
| `LiveSession.dfy`, `LiveGuarantees.dfy`, `LiveReplies.dfy` | the live channel: handshake, requests, background jobs, reconnects |
| `PendingSpool.dfy`, `SpoolOrder.dfy`, `SpoolLedger.dfy`, `SpoolFates.dfy`, `SpoolMemo.dfy` | the store-and-forward spool, its time order, conservation over runs, why samples leave it, and the backend's memo of it |
| `Supervisor.dfy`, `SupervisorProgress.dfy` | starting, stopping and restarting the collector process |
| `AgentConfig.dfy`, `ConfigConvergence.dfy`, `ConfigOnePass.dfy`, `ConfigContent.dfy`, `ConfigBuilds.dfy` | the configuration migration pass, its convergence, when one pass is enough, what it keeps, and the shipped builds |
| `Semver.dfy`, `SemverOrder.dfy`, `ReleaseSelection.dfy`, `FeedCooldown.dfy`, `FeedRecord.dfy` | versions, precedence, the release offered, and the request cooldown |
| `RecordFolding.dfy`, `GpuMerge.dfy`, `GpuContent.dfy` | merging graphics-adapter records |
| `SlowProbe.dfy` | the background slow probe |
| `ProcessRanking.dfy`, `LvmName.dfy`, `Dvfs.dfy` | process list, LVM device names, voltage-state tables |
| `Text.dfy`, `Sorting.dfy`, `Picking.dfy` | strings, stable sorting and subsequences |

Concurrent code is a state machine: one step per critical section, socket write, file
replacement or worker completion, with what the environment decides (frames, upload
outcomes, failed writes, crashes, clock readings) as part of the event. Its theorems hold
for every sequence of events. Sequential code is a method, or a class whose methods update
its fields, proved against functions about which the lemmas speak.

Times are integers, floating-point values are reals, encoded lengths, digests, time parsing
and name matching are arbitrary functions, and replacing a file is one step.

Five natural statements are false of the code. Each has a concrete counterexample and the
condition under which it does hold:

- the sorted spool ascends in time: `TruncatedStampBlocksOrder`, `AscendsIffNoStraddle`;
- one normalisation pass is enough: `OnePassIsNotEnough`, `OnePassIff`;
- versions compare as Semantic Versioning 2.0.0 says: `OverflowBreaksPrecedence`, `ComparesAsSpecifiedIff`;
- requests keep their distance: `OversizedRecordIsForgotten`, `SpacedIff`;
- every running collector is tracked or told to stop: `RestartCanOrphan`, `OrphansIff`.

## Model

| member | source | states |
|---|---|---|
| `DockerScheduler.NoStarvation` | agents/internal/live/docker.go:226-294 | with n fixed running containers, every chosen call answered and an advancing clock, any container is chosen within floor((n-1)/8)+1 rounds, whatever the CPU shares |
| `DockerScheduler.JobsAreDistinctRunning` | agents/internal/live/docker.go:253-294 | a round picks exactly min(32, n) distinct running containers, at least eight of them by rotation when n exceeds 32 |
| `DockerScheduler.RotationIsFair` | agents/internal/live/docker.go:279-293 | no container left out of a round is staler than any rotation pick |
| `DockerScheduler.BusySlotsAreBusiest` | agents/internal/live/docker.go:257-278 | no container left out of a round has a higher known CPU share than one in a busy slot |
| `DockerScheduler.ReadExactlyChosen` | agents/internal/live/docker.go:183-220 | among distinct containers a round reads exactly those it chose |
| `DockerScheduler.RoundProgress` | agents/internal/live/docker.go:226-294 | a round that passes a container over takes at least eight others out of the queue before it |
| `DockerScheduler.DockerCollector.StatsJobs` | agents/internal/live/docker.go:253-294 | the selection loops pick the specified jobs: the busiest known first, then the least recently sampled |
| `DockerScheduler.DockerCollector.Collect` | agents/internal/live/docker.go:142-249 | which failures end a round; a failed or cancelled round changes none of the three maps, a completed one replaces all of them and reports how many of the chosen containers answered |
| `DockerScheduler.DockerCollector.Sample` | agents/internal/live/docker.go:183-220 | which readings a round keeps, with the baseline borrowed from the last round when a reading has none |
| `DockerScheduler.SharesAreExact` | agents/internal/live/docker.go:204-217 | a round knows the CPU share of exactly those sampled containers whose answer yields one |
| `DockerReadings.ShareIs` | agents/internal/live/docker.go:201-213 | a share is known exactly if the container answered and its counters can be compared with its own baseline or the last round's; it is container time over host time, times processors, in percent |
| `DockerReadings.CountersAre` | agents/internal/live/docker.go:210-212 | the counters kept for the next round are those of the answers |
| `DockerReadings.ListedAreSmallest` | agents/internal/live/docker.go:157-161 | the rows looked at are the 512 with the smallest ids, in order |
| `LiveGuarantees.OneHandlerPerTopic` | agents/internal/live/client.go:287-306 | in every interleaving, reconnects included, no two unfinished jobs share a topic, and a topic is busy exactly while it is held |
| `LiveGuarantees.AckThenOneReply` | agents/internal/live/client.go:284-335 | each request gets nothing, one refusal, an ack, or an ack and then one reply, on one connection only; while the connection lives an acked request that is no longer in progress has its reply |
| `LiveGuarantees.StandingMeans` | agents/internal/live/client.go:274-335 | what those standings say of the log itself: a refusal is one error and nothing else; an ack comes before the one reply, with the same request id and no other frame about the request |
| `LiveGuarantees.FramesCarrySession` | agents/internal/live/client.go:230-286 | before the welcome only hello is sent; every later frame carries the session id, which has 36 characters; the revision is at least 1 |
| `LiveGuarantees.SessionSetByWelcome` | agents/internal/live/client.go:250-259 | only a version 1 welcome with a 36-character id sets the session id and the revision |
| `LiveGuarantees.SessionIsFixed` | agents/internal/live/client.go:233-262 | once set, session id and revision never change; frames sent stay sent and a cancelled session stays cancelled |
| `LiveGuarantees.JobsServeTheirSession` | agents/internal/live/client.go:302-306 | a handler is told the revision and session of the connection its request came from |
| `LiveReplies.HandlerIsAnswered` | agents/internal/live/client.go:302-335 | in every run a handler that returned on a living connection is answered by exactly one frame for the very request that was read: a result with its topic and id exactly if it succeeded in time, `query_expired` exactly if its time was up, the fault's own code for the three allowed ones, and `collection_failed` for any other |
| `LiveReplies.HandlerIsNotAnswered` | agents/internal/live/client.go:307-314 | nothing is written once the session is over, the configuration has changed or the write fails, and the session is then over |
| `LiveReplies.ReturnIsNoted` | agents/internal/live/client.go:306-307 | a handler that returns makes its job ready to answer |
| `LiveReplies.TopicIsReleased` | agents/internal/live/client.go:304-305 | the job then gives back exactly its topic |
| `LiveReplies.RequestIsAnswered` | agents/internal/live/client.go:274-286 | a request is acked exactly if its time limit is 1 to 5000 ms and its topic one of the three; any other is refused alone with `collection_failed` |
| `LiveReplies.BusyIsAnswered` | agents/internal/live/client.go:287-301 | a request for a busy topic is answered with `collection_busy` and starts nothing |
| `LiveReplies.FreeTopicIsServed` | agents/internal/live/client.go:287-306 | a request for a free topic gets a handler with its topic, id, session and revision |
| `LiveReplies.PingIsAnswered` | agents/internal/live/client.go:263-268 | a ping is answered with its own nonce |
| `LiveReplies.WelcomeIsAnswered` | agents/internal/live/client.go:250-259 | a welcome is answered with ready under the new session id |
| `LiveReplies.StrangerEndsConnection` | agents/internal/live/client.go:260-262 | a frame of another session ends the connection without an answer |
| `LiveSession.RunKeeps` | agents/internal/live/client.go:235-336 | the invariant behind these theorems holds in every reachable state |
| `PendingSpool.PendingStore.ReadEntries` | agents/main.go:978-1008 | the samples decoded from the spool, with missing ids and times filled in and undecodable lines skipped |
| `PendingSpool.PendingStore.PruneEntries` | agents/main.go:1049-1066 | the loop computes the specified pruning |
| `PendingSpool.PendingStore.FitEntries` | agents/main.go:1068-1080 | the loop computes the specified size limit |
| `PendingSpool.PendingStore.Enqueue` | agents/main.go:905-934 | the new spool after an enqueue for every read and write outcome; an id already spooled is not added twice |
| `PendingSpool.PendingStore.Drain` | agents/main.go:936-976 | the new spool and the failure flag after a drain for every read, write and upload outcome |
| `PendingSpool.ReadBack` | agents/main.go:978-1119 | reading what was written returns the same samples |
| `PendingSpool.PruneDistinct` | agents/main.go:1049-1066 | pruned samples have pairwise distinct ids |
| `PendingSpool.PruneConserves` | agents/main.go:1049-1066 | a sample that pruning drops was too old or repeated the id of an earlier one |
| `PendingSpool.FitIsLongestSuffix` | agents/main.go:1068-1080 | what is kept is the longest suffix whose JSON array fits a positive limit; no limit keeps everything |
| `PendingSpool.EnqueueGuarantees` | agents/main.go:905-934 | after an enqueue of a new sample: distinct ids, the longest fitting suffix of the sorted queue, and a file one byte shorter than the JSON array |
| `PendingSpool.DrainPrefix` | agents/main.go:936-976 | a drain deals with a prefix: everything before the stop was accepted or permanently rejected |
| `PendingSpool.TransientFailureLeavesSuffix` | agents/main.go:936-976 | with a server URL and a successful rewrite, a transient failure leaves exactly the untried suffix, in queue order, addressed to that URL |
| `SpoolFates.OneOutcome` | agents/main.go:7231-7239 | an upload counts as taken below status 300, as refused for good with 400, 413 or 422, and is postponed otherwise, also without a response |
| `SpoolFates.DrainEndsAtFirstPostponed` | agents/main.go:936-976 | a drain to a server ends at the first postponed upload and leaves exactly the samples from there on, or at the end of the queue and leaves none; every upload before was taken or refused |
| `SpoolFates.PostponedStays` | agents/main.go:957-967 | a sample whose upload was postponed is still on disk after the drain |
| `SpoolFates.OwnServers` | agents/main.go:943-951 | without a current server each sample goes to its own, and a sample without any leaves the file as it was |
| `SpoolFates.PruneKeepsYoung` | agents/main.go:1049-1066 | pruning keeps exactly the first sample of each id whose time does not parse or lies at most the age limit back, in order |
| `SpoolFates.LinesAreRead` | agents/main.go:978-1008 | reading yields exactly the decodable lines in order, an empty id replaced by the payload's digest and an empty time by its timestamp |
| `SpoolFates.RepeatedIdAddsNothing` | agents/main.go:917-925 | an enqueue of an id that is still spooled leaves the pruned spool |
| `SpoolOrder.AscendsIffNoStraddle` | agents/main.go:1082-1091 | the sorted spool ascends in parsed time whatever the spooling order if and only if no unparseable time lies textually between two parseable ones the wrong way round; it always does when all times parse |
| `SpoolOrder.EnqueueAscends` | agents/main.go:905-934 | after an enqueue of a new sample the spool on disk ascends unless a time straddles |
| `SpoolOrder.LeftoverAscends` | agents/main.go:936-976 | so does what a transient failure leaves on disk |
| `SpoolOrder.StraddleSticks` | agents/main.go:1082-1091 | such a triple stays in the wrong order whatever else is spooled |
| `SpoolOrder.TruncatedStampBlocksOrder` | agents/main.go:1082-1091 | a concrete triple: a truncated stamp between a UTC stamp and an offset stamp |
| `SpoolLedger.EveryRunConserves` | agents/main.go:905-976 | over every run with any outcomes, failed writes and crashes, each storing of a sample, equal ones counted separately, is spooled or left for exactly one reason: accepted, rejected, aged out, evicted or a repeated id; nothing else is spooled |
| `SpoolLedger.BooksFollowStore` | agents/main.go:905-976 | over every run the spool in the books is the one the store's enqueues and drains leave |
| `SpoolLedger.SpoolConserves` | agents/main.go:905-976 | the same from any state whose books balance |
| `SpoolLedger.PruneSplits` | agents/main.go:1049-1066 | pruning splits the samples, occurrence by occurrence, into kept, too old and repeated |
| `SpoolFates.BooksTellTheTruth` | agents/main.go:905-976 | over every run a sample booked as accepted was uploaded with a status below 300, one booked as rejected was answered with 400, 413 or 422, an aged one was read past its time, an evicted one did not fit, and a duplicate met another with its id |
| `SpoolMemo.ScanSpool` | agents/cmd/windows-agent-backend/main.go:489-508 | the scan's count and oldest time |
| `SpoolMemo.OldestIsLeast` | agents/cmd/windows-agent-backend/main.go:489-508 | the oldest time is the least non-empty time text in the spool |
| `SpoolMemo.CountIsDecoded` | agents/cmd/windows-agent-backend/main.go:489-508 | the scan counts exactly the samples the collector decodes |
| `SpoolMemo.RequestIsAnswered` | agents/cmd/windows-agent-backend/main.go:439-522 | a status request is answered from the memo if that is about the present spool, else from the state file if that is, else by a scan |
| `SpoolMemo.DescriptionIs` | agents/main.go:1121-1139 | the collector's description gives the number of samples left after pruning, the length of their array and an earliest time |
| `SpoolMemo.EveryAnswerIsCurrent` | agents/cmd/windows-agent-backend/main.go:439-522 | in every interleaving of collector and backend each answer describes the spool as it was when the backend looked |
| `SpoolMemo.AnswersDescribeCurrentSpool` | agents/main.go:1121-1153 | state file and memo always describe the contents their fingerprint stands for |
| `Supervisor.EveryRunQuenched` | agents/cmd/windows-agent-backend/main.go:1637-1738 | in every run: recording on, or no tracked collector, or a stop in progress for exactly that one; every live collector is tracked, told to stop, or displaced |
| `Supervisor.DisablingIsFinal` | agents/cmd/windows-agent-backend/main.go:597-609 | the request that disables recording returns at once if nothing is tracked and otherwise waits for its own stop; once it has returned, no collector is tracked until recording is enabled again, for every interleaving of starts, stops, restarts, exits and timers |
| `SupervisorProgress.ExitIsFollowedByRestart` | agents/cmd/windows-agent-backend/main.go:1637-1706 | in every reachable state with recording and auto-restart on, an exit nobody asked for leaves one more announced restart, which starts the next collector and counts it |
| `SupervisorProgress.AskedExitStays` | agents/cmd/windows-agent-backend/main.go:1650-1688 | an exit that was asked for, or without auto-restart, schedules nothing |
| `SupervisorProgress.TimerStartsIff` | agents/cmd/windows-agent-backend/main.go:1866-1890 | a restart that fires starts a collector exactly if nothing was stopped, auto-restart and recording are on, nothing is tracked and the process can be spawned |
| `SupervisorProgress.TimersWait` | agents/cmd/windows-agent-backend/main.go:1866-1890 | a pending restart waits through everything but its own firing |
| `SupervisorProgress.StartRequestStartsIff` | agents/cmd/windows-agent-backend/main.go:630-661 | a start request starts a collector exactly if recording is on, nothing is tracked and the process can be spawned |
| `SupervisorProgress.StopRequestStops` | agents/cmd/windows-agent-backend/main.go:1708-1738 | a stop request tells the tracked collector to stop, waits for it, and leaves nothing tracked |
| `SupervisorProgress.RestartRequestRestarts` | agents/cmd/windows-agent-backend/main.go:678-698 | a restart request stops the tracked collector and then starts the next one |
| `SupervisorProgress.ConfigIsStored` | agents/cmd/windows-agent-backend/main.go:597-602 | a configuration request stores both switches and stops the tracked collector when it turns recording off |
| `Supervisor.NoOrphansWithoutRestarts` | agents/cmd/windows-agent-backend/main.go:1708-1738 | without restart requests every live collector is tracked or was told to stop |
| `Supervisor.OrphansIff` | agents/cmd/windows-agent-backend/main.go:678-698 | throughout a run every live collector is tracked or told to stop if and only if no restart, at the end of its wait, replaces a tracked collector that nobody has told to stop |
| `Supervisor.RestartCanOrphan` | agents/cmd/windows-agent-backend/main.go:1723-1732 | a concrete run in which a restart displaces a collector that slipped into the unlocked window |
| `AgentConfig.Normalize` | agents/internal/agentconfig/config.go:228-331 | the pass computes the specified result; map keys that collide after trimming may keep either list |
| `AgentConfig.DedupNames` | agents/internal/agentconfig/config.go:414-429 | first occurrences of trimmed, non-empty, wanted names, in order |
| `AgentConfig.DedupMembers` | agents/internal/agentconfig/config.go:414-429 | every wanted name that occurs is kept, and no other |
| `ConfigContent.DedupGrows` | agents/internal/agentconfig/config.go:414-429 | each name stands where it first occurs |
| `AgentConfig.AppendMissingKeys` | agents/internal/agentconfig/config.go:433-446 | the keys not there yet are appended |
| `ConfigContent.AppendGrows` | agents/internal/agentconfig/config.go:433-446 | the keys are appended in their order |
| `AgentConfig.NormalizeSelections` | agents/internal/agentconfig/config.go:450-503 | unknown targets dropped, providers repaired, missing defaults appended |
| `ConfigContent.SelectionsAre` | agents/internal/agentconfig/config.go:450-503 | the result is, in order, the first selection of every known target with its switch unchanged and its provider unchanged if supported, else the default's, else "disabled"; then exactly the defaults of targets the document does not name |
| `ConfigContent.EnabledIff` | agents/internal/agentconfig/config.go:403-410 | a target is enabled exactly if its first selection is on and its provider is not "disabled" |
| `ConfigContent.ScalarsSurvive` | agents/internal/agentconfig/config.go:228-327 | a non-blank server URL and device id survive trimmed, an interval of 1 to 86400 survives unless both are 30, and a switch survives if the text mentions it |
| `ConfigContent.MetricsAre` | agents/internal/agentconfig/config.go:266-299 | every known metric the document lists is kept, only keys of enabled targets are added, no enabled target is left with anything to add, and an explicitly empty list stays empty |
| `AgentConfig.NormalizeMap` | agents/internal/agentconfig/config.go:530-540 | trimmed keys with de-duplicated values, none lost |
| `AgentConfig.BackfillMetrics` | agents/internal/agentconfig/config.go:276-299 | the rules applied in order |
| `ConfigConvergence.TwoPassesConverge` | agents/internal/agentconfig/config.go:228-331 | for every coherent build and every document a third pass, re-encoding in between, changes nothing |
| `ConfigOnePass.OnePassIff` | agents/internal/agentconfig/config.go:272-329 | one pass is a fixed point if and only if it leaves no metrics, or repairing the document's selections enables no further target whose rule wants keys that the document does not list; both are decided on the document, for rules that do not hold each other's keys or prefixes |
| `ConfigConvergence.OnePassSuffices` | agents/internal/agentconfig/config.go:272-329 | one pass suffices when the selections need no repair |
| `ConfigConvergence.SelectionsSettle` | agents/internal/agentconfig/config.go:450-503 | repairing selections is idempotent and never leaves none |
| `ConfigConvergence.BackfillSettled` | agents/internal/agentconfig/config.go:276-299 | completing a completed metric list adds nothing |
| `ConfigConvergence.MapSettles` | agents/internal/agentconfig/config.go:530-540 | normalising a normalised map changes nothing, whichever colliding key won |
| `ConfigBuilds.BuildsAreCoherent` | agents/internal/agentconfig/config.go:44-210 | the shipped key lists, rules, probe plans and defaults of every platform are coherent |
| `ConfigBuilds.ShippedBuildsConverge` | agents/internal/agentconfig/config.go:228-331 | so two passes reach a fixed point on every platform for every document |
| `ConfigBuilds.ShippedOnePassIff` | agents/internal/agentconfig/config.go:272-329 | and the condition for one pass holds on every platform for every document |
| `ConfigBuilds.OnePassIsNotEnough` | agents/internal/agentconfig/config.go:296-329 | a concrete document that needs the second pass: it omits the fan probe, whose metrics follow only then |
| `Semver.ReadBack` | agents/device_updates.go:22-45 | parsing any rendering of an accepted version, with or without prefix and build, gives that version |
| `Semver.ReadIsWritten` | agents/device_updates.go:22-45 | every accepted text is a rendering of an accepted version |
| `Semver.ValueInjective` | agents/device_updates.go:22-45 | core numbers have one spelling, so equal values are equal texts |
| `SemverOrder.CompareReversed` | agents/update.go:550-606 | on accepted versions the comparison is antisymmetric, and zero exactly when core and prerelease coincide |
| `SemverOrder.CompareTransitive` | agents/update.go:550-606 | on accepted versions the comparison is transitive, strictly when a step is |
| `SemverOrder.ComparesAsSpecified` | agents/update.go:550-606 | with every all-digit identifier within 64 bits the comparison is the precedence of section 11 of Semantic Versioning 2.0.0 |
| `SemverOrder.ComparesAsSpecifiedIff` | agents/update.go:573-604 | it is that precedence exactly unless versions of the same core first differ in identifiers beyond 64 bits that text order misranks |
| `SemverOrder.OverflowBreaksPrecedence` | agents/update.go:585-604 | two concrete versions that are ranked the wrong way round |
| `SemverOrder.PublisherAgrees` | scripts/publish-update-feed.py:24-34 | on tags both accept whose all-digit identifiers fit in 64 bits, the publisher's key and the agent's comparison have the same sign |
| `SemverOrder.PublisherAsSpecified` | scripts/publish-update-feed.py:24-34 | on tags both accept the publisher's key is the precedence of section 11 of Semantic Versioning 2.0.0 for numbers of any size |
| `SemverOrder.PublisherAgreesIff` | scripts/publish-update-feed.py:24-34 | so publisher and agent order two tags alike exactly when the agent does not misrank them |
| `SemverOrder.PublisherAcceptsIff` | scripts/publish-update-feed.py:20-34 | which tags the publisher accepts, and that both accept the same ones while every number fits in 64 bits |
| `ReleaseSelection.SelectRelease` | agents/device_updates.go:226-267 | an update is reported exactly when some eligible release has an acceptable asset; it describes the first such asset of a release than which no such release is newer |
| `ReleaseSelection.Offer` | agents/device_updates.go:251-264 | a release has an offer exactly when some asset is acceptable, and it describes the first such asset |
| `ReleaseSelection.EligibleIff` | agents/device_updates.go:237-243 | a release is eligible exactly if it is published, readable, newer than the running version and, on the stable channel, no prerelease by flag or version |
| `ReleaseSelection.OfferIsInstaller` | agents/device_updates.go:244-264 | what is offered is an uploaded installer of this platform and version, of a size up to 2^53-1, with a SHA-256 digest, from the project's release page |
| `ReleaseSelection.InstallerIsAcceptable` | agents/device_updates.go:244-254 | every such installer is acceptable |
| `ReleaseSelection.SortReleases` | agents/device_updates.go:234-236 | some ordering of the same releases, newest first |
| `ReleaseSelection.FirstOffer` | agents/device_updates.go:251-264 | the asset loop returns that offer |
| `ReleaseSelection.OfferedIsSound` | agents/device_updates.go:237-243 | what is offered is strictly newer than the running version and, on the stable channel, neither flagged nor written as a prerelease |
| `ReleaseSelection.WrittenIff` | agents/device_updates.go:241 | for accepted tags a minus before the plus means exactly that the version has a prerelease |
| `ReleaseSelection.BestIsUnique` | agents/device_updates.go:226-267 | all best releases have the same version up to build metadata |
| `FeedCooldown.Updater.Fetch` | agents/device_updates.go:141-224 | the record on disk, the request, and exactly when the answer is an error, a cooldown or a feed, for every network outcome and every failed write |
| `FeedCooldown.Updater.Settle` | agents/device_updates.go:165-208 | what one response does to the record, with the server's wishes and the doubling delay |
| `FeedRecord.FailureIsStored` | agents/device_updates.go:165-208 | a persisted failure counts one more, keeps feed, tag and schedule, and stores the least time that respects the claim, the delay of 120 to 15360 s by count, Retry-After in seconds (with wrap-around) or as a date, and the rate-limit reset |
| `FeedRecord.WishesAreHonoured` | agents/device_updates.go:190-197 | over runs no later request goes out before any time the server asked for |
| `FeedRecord.SuccessIsStored` | agents/device_updates.go:168-208 | a persisted success clears the count, claims 60 s, schedules the next automatic request 6 to 6.5 hours ahead, and takes feed and tag from a 200 response only |
| `FeedRecord.InterruptedCallIsStored` | agents/device_updates.go:153-165 | a request whose outcome is not written leaves the claim of 60 s |
| `FeedRecord.EarlyCallIsStored` | agents/device_updates.go:144-152 | a call before its time changes nothing but the channel |
| `FeedRecord.SendsIff` | agents/device_updates.go:150-157 | a call sends exactly if its first two writes succeed and the time has come |
| `FeedRecord.RecordIsRead` | agents/device_updates.go:82-96 | a record beyond 5 MiB reads as none, one with an invalid feed without feed and tag, any other as written |
| `FeedCooldown.RequestsAreSpaced` | agents/device_updates.go:153-165 | two requests of a run are at least 60 s apart, crashes and failed writes included, while the records between them stay within the 5 MiB that are read back |
| `FeedCooldown.SpacedIff` | agents/device_updates.go:82-165 | over runs whose clock never runs backwards: all requests are at least 60 s apart if and only if no run that has sent a request leaves a record beyond 5 MiB |
| `FeedCooldown.NextNeverDecreases` | agents/device_updates.go:141-211 | the stored next request time never decreases while records stay readable |
| `FeedCooldown.FailuresBackOff` | agents/device_updates.go:200-205 | a persisted failure keeps every later request away for 60*2^min(failures,8) s while records stay readable |
| `FeedCooldown.FailuresCounted` | agents/device_updates.go:168-208 | in a run the count in use is the number of failures persisted since the last success, or since the beginning |
| `FeedCooldown.FeedIsNeverLost` | agents/device_updates.go:168-199 | along a run whose records stay readable a validated feed is never discarded; a later feed is the same one or the body of a 200 response persisted in between |
| `FeedCooldown.OversizedRecordIsForgotten` | agents/device_updates.go:82-96 | a concrete run that repeats a request after one second because the record outgrew 5 MiB |
| `GpuMerge.MergeGpus` | agents/main.go:2677-2745 | the loops compute the specified merge: coalesce, match, place, overlay after overlay |
| `GpuMerge.Coalesce` | agents/main.go:2751-2761 | the specified coalescing |
| `GpuMerge.FindIdentity` | agents/main.go:2763-2779 | same id first, else the first record a blank id leaves to be matched by name |
| `GpuMerge.PickMatch` | agents/main.go:2690-2726 | id or name match first, else the same rank within the vendor, among records not matched yet |
| `GpuMerge.MergedKeepsIdentity` | agents/main.go:2677-2745 | no two records with the same non-blank id; the coalesced base comes first, in order, with identity and any known memory kind unchanged |
| `GpuMerge.MergeFoldsOnce` | agents/main.go:2680-2743 | each coalesced overlay record is folded into exactly one output record |
| `GpuMerge.CoalesceFoldsOnce` | agents/main.go:2751-2761 | coalescing uses every record exactly once |
| `GpuMerge.MergedSound` | agents/main.go:2967-3000 | if every input has total 0 or use within total, so has every output |
| `GpuMerge.MergeRecordKeeps` | agents/main.go:2781-2813 | one merge keeps id, name, a known memory kind and sound sizes |
| `GpuMerge.LatestReadingWins` | agents/main.go:2781-2812 | temperature with its source and utilisation are those of the last folded record that has them, else unchanged; the driver version is the old one, else that of the first record that has one |
| `GpuContent.LatestEngineReadingWins` | agents/main.go:2786-2794 | encoder, decoder and clock readings are those of the last folded record that has them, else unchanged |
| `GpuContent.LargestMemoryWins` | agents/main.go:2980-2999 | folding records of one known kind of memory gives the largest use, and the largest total raised to cover it, or zero if every total is |
| `GpuContent.MaximaAre` | agents/main.go:2980-2995 | the maxima bound every value and are attained |
| `GpuContent.OtherKindLeavesMemory` | agents/main.go:2967-2975 | sizes of another or an unknown kind do not touch those of a known kind |
| `GpuContent.MissingKindIsTaken` | agents/main.go:2798-2802 | a record without a kind takes a known kind of the other |
| `GpuContent.IdentityIs` | agents/main.go:2763-2779 | the record found is the first with the same non-blank id up to case, else the first whose name matches where an id is blank, and there is one whenever one exists |
| `GpuContent.MatchIs` | agents/main.go:2690-2726 | the match is the first free record with the id or name, else the free record of the vendor with the same rank, and there is one whenever one exists |
| `RecordFolding.OverlayFoldsOnce` | agents/main.go:2680-2743 | for any way of matching and placing, nothing is lost or used twice |
| `SlowProbe.SlowSampler.RefreshSlow` | agents/live.go:168-207 | the new state after a refresh: merge a waiting outcome, then launch if idle and due |
| `SlowProbe.SingleFlightAlways` | agents/live.go:172-206 | in every run the flag says exactly whether a worker runs or an outcome waits, never two, and a send never blocks |
| `SlowProbe.MergedExactlyOnce` | agents/live.go:172-206 | outcomes are merged exactly once, in order, and each worker starts from the cache its predecessor left |
| `SlowProbe.LaunchesAreSpaced` | agents/live.go:194-198 | launches are at least the earlier one's interval apart |
| `SlowProbe.RefreshLaunchesIff` | agents/live.go:192-206 | a refresh starts a worker exactly if none runs and the time has come, from the newest cache and with the configured interval or else 60 s |
| `SlowProbe.RefreshDrains` | agents/live.go:172-191 | a refresh merges the waiting outcome and takes over its system statistics |
| `SlowProbe.FinishSends` | agents/live.go:204-206 | a worker's outcome reaches the channel at once |
| `SlowProbe.OverrunsCounted` | agents/live.go:176-179 | the overrun counter is the number of merged outcomes over their budget |
| `LvmName.SplitDeviceName` | agents/storage_pools_linux.go:226-244 | the loop splits at the first isolated dash |
| `LvmName.DecodeInverts` | agents/storage_pools_linux.go:223-248 | decoding the documented form returns both names exactly when neither is empty and no dash touches the separator, and fails otherwise |
| `ProcessRanking.ProcessCollector.Collect` | agents/internal/live/processes.go:95-160 | a reading replaces all samples, a failed one none; the list is the ranked, cut and rated observations |
| `ProcessRanking.KeepsTheBusiest` | agents/internal/live/processes.go:152-158 | kept and dropped make up everything; a kept process is known to use at least as much processor time as any dropped one, at equal use as much memory, and at equal memory has no larger pid |
| `ProcessRanking.OutranksIsOrder` | agents/internal/live/processes.go:197-215 | the rank is a strict weak order |
| `ProcessRanking.RatesAreSound` | agents/internal/live/processes.go:110-129 | CPU lies in 0 to 100, exactly when it is known, and any rate comes from an earlier sample of the same pid and start time |
| `ProcessRanking.RatesSpanLastReading` | agents/internal/live/processes.go:103-134 | in every run of collections, failed ones included, a process has rates only against its reading, under the same pid and start time, in the last collection that read anything; otherwise all are null |
| `ProcessRanking.RatesAppear` | agents/internal/live/processes.go:108-133 | conversely a process read there under the same pid and start time has its rates: processor share and bytes per second as equations on the counters and the elapsed time |
| `Dvfs.ParseTable` | agents/internal/macos/extras.go:516-540 | a table is returned exactly when the size is right and the frequencies after leading zeros increase strictly within 100 to 10000 MHz |
| `Dvfs.TableIs` | agents/internal/macos/extras.go:516-540 | the table holds, in order, the frequency of every entry after the leading zero ones, in hertz from a hundred million on and in kilohertz below |
| `Dvfs.WordIs` | agents/internal/macos/extras.go:523-524 | the word of an entry is the number whose four bytes, lowest first, open it |
| `Dvfs.GpuFrequency` | agents/internal/macos/extras.go:545-573 | the weighted mean over channels that fit the table, or none |
| `Dvfs.MeanKnownIff` | agents/internal/macos/extras.go:545-573 | there is a frequency exactly if there is a table, no fitting channel holds a negative residency, and some state of one was active |
| `Dvfs.OneStateGivesItsFrequency` | agents/internal/macos/extras.go:545-573 | time spent in one performance state gives exactly that state's frequency |
| `Dvfs.ActiveAre` | agents/internal/macos/extras.go:551-557 | the active states are those that do not rest, in order |
| `Dvfs.RestingIff` | agents/internal/macos/extras.go:552-555 | the resting states are those named idle, off or down in any case |
| `Dvfs.FrequencyWithinTable` | agents/internal/macos/extras.go:545-573 | every such mean lies between the table's first and last entry |
| `Text.StrLessIff` | agents/main.go:1086-1087 | text order: a proper prefix, or smaller at the first difference |
| `Text.TrimSpaceIs` | agents/internal/agentconfig/config.go:322-325 | trimming cuts spaces off both ends and nothing else |

## Left out

- PendingSpool.PendingStore.ReadEntries: sensor clean-up of a payload and the copy of the id into it are part of the opaque payload.
- Semver.ReadBack: the regular expression is modelled by cutting at the first plus and minus, on ASCII text; the publisher's acceptance of non-ASCII digits and Python's limit on integer length are not modelled.
- FeedCooldown.Updater.Fetch: feed validation is an arbitrary fixed predicate; the clock is far enough from the 64-bit limit that adding a delay of the agent's own does not wrap (the server's delays do).
- ReleaseSelection.SortReleases: the library's unstable sort is any ordering that is newest first.
- SlowProbe.SlowSampler.RefreshSlow: merging two metric records is an arbitrary function, and intervals are small enough for 64-bit nanoseconds.
- GpuMerge.MergeGpus: records are values, updated in a sequence where the program updates slots through pointers; adapter-name matching and vendor detection are arbitrary functions.
- ProcessRanking.ProcessCollector.Collect: the per-process graphics percentage, which the rank ignores, and the reduced shapes for older Hubs.
- DockerScheduler.DockerCollector.Collect: the four stats workers are one loop, since each call touches only its own container's entries; container rows carry only id and state.
- LiveSession.RunKeeps: identity files, dialling, the reconnect backoff and write deadlines; a write succeeds or fails as the event says.
- SpoolMemo.EveryAnswerIsCurrent: size and modification time identify the spool's contents, and the backend's stat and read are one step on readable files.
- AgentConfig.Normalize: file loading, the service-scope defaults, and redaction.
- Case folding and trimming beyond ASCII and Latin-1 spaces; the text of JSON documents and of log messages.
- Stable sorting is insertion sort, which is what the library does on at most twenty elements and gives its only possible result on longer slices whenever the comparison is a strict weak order; for spools beyond twenty entries that hold an unparseable time the order may differ.
- Runtime masking of collected fields by the configuration, storage-pool discovery, and every hardware probe.
- Service installation, binary replacement and update download.
- The Hub server, desktop, web and phone applications.
