# Verification of the Kafka console

A Dafny model of the stateful parts of the console, with proofs of what they promise.

| files | what they model |
|---|---|
| `Config`, `ClusterState`, `ClusterMachine`, `ClusterSafety`, `ClusterTheorems`, `Manager` | The pool of Kafka clients. `ClusterState` is what the manager guards with its lock, with Go's maps as references into a heap, because a committed `Apply` stores one map in two fields. `ClusterMachine` runs any number of operations in flight: every locked section, dial, ping and single close is a step. `Manager` is the class, its locked sections proved against the functions of `ClusterState` |
| `ServerMachine`, `ServerTheorems`, `Server` | Configuration transactions above the manager, interleaved with background reconnects and request handlers; and the configuration handlers as methods |
| `SamplerState`, `SamplerLog`, `SamplerMachine`, `SamplerTheorems`, `Sampler`, `WorkerPool` | The dashboard sampler: its maps as a summary of the unbounded log of accepted samples, updates in the middle of a refresh, the wake channel, the backoff, and the bounded pool of workers |
| `Query`, `Newest`, `Collector`, `Fetch` | Message queries: validation, the bounded-memory collector against filter, sort and take, and the poll loop |
| `Store` | Saving and restoring the configuration file on a disk on which anything can fail, recording every state it passes through |
| `AuditState`, `Audit`, `AuditTheorems`, `AuditRuns` | The audit log writer and its numbered files |
| `Limiter`, `LimiterMachine`, `LimiterBounds`, `LimiterRuns` | The login limiter: the class, attempts in progress whose clock readings may reach it in another order, its bounds, and runs that reach them |
| `Uri`, `Routes` | Percent-encoding over UTF-8 (section 2.1 of RFC 3986, section 4 of RFC 3629, `encodeURIComponent` and `decodeURIComponent` of ECMA-262), and the console's routes |
| `Wrappers`, `Bytes` | Shared datatypes |

Code that works by changing things step by step is modelled by classes and methods. Each method is proved against a
function of the state before it, and the theorems are about those functions and about all runs of the machines built
from them. Time, the answers of Kafka and of the disk, and the choices of the Go scheduler are inputs or
nondeterministic choices.

Some results are about where the code stops giving what one might expect:

* An `Apply` keeps installed clients and configurations in agreement if and only if the clients it reuses still have
  the wanted connection when it commits (`ClusterTheorems.ApplyAgreesExactly`). From the first `SetDesired` on they
  always do; before it an `Upsert` can replace one of them by a client of another connection
  (`ClusterTheorems.EarlyApplyBreaksAgreement`), which is why the invariant starts there.
* Raising the number of history points leaves a sampler history short of what the log holds: exactly when, says
  `SamplerLog.UpdateStaysExact`; for how long, `SamplerMachine.LaterConstantOptionKeepsNewest`.
* The audit writer stops for good, until it is restarted, if and only if a write fails with its file open
  (`AuditTheorems.BrokenByFailedWrite`, `BrokenForGood`, `WritesUnlessBroken`), because its buffer repeats the error
  and closing goes through the buffer.
* A restarted audit writer starts its search at file 1. The first entry of a day goes behind everything that was there
  if no file before the last has room for it, or if the files after the first that has are all empty; otherwise it goes
  before older text and stays there (`AuditTheorems.RestartKeepsOrder`, `RestartReorders`). At every limit the writer
  can leave files that bring this about (`RestartCanReorder`, `EveryLimitCanReorder`).
* A save backs up any non-empty text, also one that does not load. Such a backup cannot be restored, and nothing else
  makes the restore of a backup that was just made be rejected (`Store.Store.SaveThenRestore`).
* The limit of five failures is exceeded by overlapping attempts. With k at a time a window counts up to 4 + k. An
  attempt reads the clock before it takes the limiter's lock, so the readings may be used in another order; then five
  minutes can hold up to (k + 1)(k + 8) / 2 failures, 9, 15 and 22 for k = 1, 2 and 3, and that many do occur
  (`LimiterBounds.FailuresInFiveMinutes`, `LimiterRuns.SlowAttemptsReachBound`). Only if the locked sections take the
  readings in the order of the clock is the bound 7 + 2k (`LimiterBounds.InOrderFailures`, `LimiterRuns.BoundsAreReached`,
  `LimiterRuns.OutOfOrderExceeds`).

`dafny verify dfyconfig.toml` checks the project.

## Model

| member | source | states |
|---|---|---|
| Config.EnabledConfigsComplete | internal/cluster/manager.go:234-243 | with the distinct ids Validate enforces, the table of enabled clusters loses none of them |
| Config.EnabledClustersSound | internal/dashboard/sampler.go:304-313 | the sampler's list and the manager's table select the same clusters: all that are enabled, and no others |
| ClusterState.PutKeepsAgreement | internal/cluster/manager.go:117-131 | an Upsert's write, also when it goes through one map that two fields share, leaves every installed client filed under the connection it was dialled with |
| ClusterState.PutKeepsDesired | internal/cluster/manager.go:117-131 | an Upsert never changes which connections are the desired ones |
| ClusterState.PutKeepsReusable | internal/cluster/manager.go:101-131 | a client an Upsert puts in place of one that a concurrent Apply chose to reuse is just as reusable |
| ClusterState.InstallKeepsAgreement | internal/cluster/manager.go:78-91 | an Apply's commit files every client, dialled or reused, under the connection it was dialled with |
| ClusterState.InstallAgreesExactly | internal/cluster/manager.go:78-91 | a commit keeps the agreement if and only if every reused client's connection is still the wanted one |
| ClusterState.DesireKeepsAgreement | internal/cluster/manager.go:136-155 | SetDesired keeps only clients of a wanted connection |
| ClusterState.RemovalKeepsAgreement | internal/cluster/manager.go:196-212 | deleting ids from clients and configs, and so perhaps from desired, keeps the agreement |
| ClusterSafety.StepIsSafe | internal/cluster/manager.go:39-224 | no step, from any safe state, loses, duplicates or reuses a client |
| ClusterSafety.RunIsSafe | internal/cluster/manager.go:39-224 | every state of every interleaving is safe: each client ever created is in exactly one place: installed, closed, or held by one operation |
| ClusterSafety.InstallMovesClients | internal/cluster/manager.go:78-97 | a commit neither forgets a client nor closes one it keeps: installed and to-be-closed clients together are the old and the new ones, apart |
| ClusterTheorems.ClientLifetimes | internal/cluster/manager.go:39-224 | under every interleaving no installed client is closed, none is closed twice, and when all operations are done every client created is installed or closed |
| ClusterTheorems.FailureClosesWhatItMade | internal/cluster/manager.go:59-77 | of the clients a failed operation made, whether it failed at create, ping or as stale, none is installed, and each is closed or still to be closed by it; when it has returned they are exactly the clients it closed |
| ClusterTheorems.OnlySuccessChangesShared | internal/cluster/manager.go:51-131 | the maps and the generation change only in an operation that succeeds |
| ClusterTheorems.ApplyDialsExactlyTheRest | internal/cluster/manager.go:51-70 | when an Apply comes to commit it has dialled exactly the enabled ids it could not reuse, each with its own configuration |
| ClusterTheorems.InstalledClientsAnswered | internal/cluster/manager.go:51-131 | in every run, under every interleaving, an installed client has answered a ping before |
| ClusterTheorems.OutcomesHaveCauses | internal/cluster/manager.go:51-131 | in every run an operation reports a failed create, a failed ping or a stale configuration only after its create was refused, its ping was not answered, or the generation or the desired connection had changed under it; and success only if none of that happened |
| ClusterTheorems.OperationsGoOn | internal/cluster/manager.go:39-224 | in every run an operation can always begin, and one under way can always take a step: none waits for another |
| ClusterTheorems.BumpingSteps | internal/cluster/manager.go:91-222 | the generation grows in exactly these steps: an Apply's valid commit, SetDesired, Close, and a Retain that removes something |
| ClusterTheorems.StaleCommitChangesNothing | internal/cluster/manager.go:72-77 | an Apply or Upsert that began before a generation change never changes the maps; its commit is stale and it closes its clients |
| ClusterTheorems.InstalledClientsMatchDesired | internal/cluster/manager.go:39-131 | from the first SetDesired on, in every reachable state, clients and configs have the same ids, all desired, and each client was dialled with the brokers and the security of both entries |
| ClusterTheorems.ApplyAgreesExactly | internal/cluster/manager.go:72-92 | in any safe state, whatever came before, an Apply's valid commit keeps the agreement if and only if every client it reuses still has the wanted connection |
| ClusterTheorems.EarlyApplyBreaksAgreement | internal/cluster/manager.go:101-131 | a run without SetDesired first in which that condition fails, the reason for starting the invariant there |
| Manager.CloseClients | internal/cluster/manager.go:249-253 | closes each client of the map exactly once, in whatever order the map is iterated |
| Manager.Manager.DialOne | internal/cluster/manager.go:59-68 | one client: none if it cannot be made; closed again if it does not answer; kept if it answers |
| Manager.Manager.Snapshot | internal/cluster/manager.go:40-49 | the generation and, of one moment, the ids whose client has exactly the wanted brokers and security |
| Manager.Manager.DialMissing | internal/cluster/manager.go:51-70 | dials the clusters that keep no client; if every client could be made and answered all are kept, and otherwise the failure is that of the client that could not be made or did not answer, and everything dialled is closed again |
| Manager.Manager.Commit | internal/cluster/manager.go:72-98 | refuses exactly on a changed generation; else one new map becomes configs and desired, with the created clients and the reused ones |
| Manager.Manager.Apply | internal/cluster/manager.go:39-99 | alone, it succeeds exactly if every client it needs can be made and answers; then it serves the enabled ids, keeping the clients whose brokers and security stay and closing those it replaces; otherwise it reports which of the two failed, closes what it made and changes nothing |
| Manager.Manager.CommitOne | internal/cluster/manager.go:117-126 | Upsert's second check, its write into clients and configs, and the client it replaces |
| Manager.Manager.Upsert | internal/cluster/manager.go:101-131 | alone, it is refused exactly when a desired set exists that has not this id with these brokers and this security; it installs a client that answered and closes what it replaces, or closes what it made in vain |
| Manager.Manager.SetDesired | internal/cluster/manager.go:136-155 | keeps exactly the clients whose active brokers and security are the wanted ones, closes the others and makes the given clusters authoritative |
| Manager.Manager.Matches | internal/cluster/manager.go:159-173 | decides whether the desired connections are those of the enabled clusters: the same ids, and for each the same brokers and security |
| Manager.Manager.Allows | internal/cluster/manager.go:226-232 | anything before a desired set exists, afterwards only an id in it with its brokers and security |
| Manager.Manager.Retain | internal/cluster/manager.go:196-212 | closes and forgets exactly the clients outside the active ids; the generation grows only if there were any |
| Manager.Manager.Close | internal/cluster/manager.go:214-224 | closes every installed client and leaves empty maps under which nothing is allowed |
| ServerTheorems.AgreementBetweenTransactions | internal/api/server.go:103-243 | whenever no transaction runs, the manager's desired connections have the ids, brokers and security of the enabled clusters served, and the sampler watches exactly these, after every way a transaction can end |
| ServerTheorems.PublishedWasBegunAndSaved | internal/api/server.go:103-243 | the served configuration changes only by publishing, and then to the candidate of the transaction begun last; one from the Web only after the store has taken it |
| ServerTheorems.RollbackUndoesReconnect | internal/api/server.go:142-156 | after a failed save the manager is told to reconnect to the served clusters if the transaction had reconnected it, and is left alone if not |
| ServerTheorems.TransactionsGoOn | internal/api/server.go:103-243 | in every reachable state a running transaction can go on, or the manager operation it waits for can |
| ServerTheorems.TransactionsMoveOn | internal/api/server.go:103-243 | each event of a transaction brings it closer to its end, and only a new beginning starts another |
| ServerTheorems.TransactionsWait | internal/api/server.go:213-231 | it goes on from a manager operation only when that has closed all it had to close |
| ServerTheorems.EventIsConsistent | internal/api/server.go:78-285 | every event of transactions, background operations and handlers keeps the joint invariant |
| ServerTheorems.UpdateConfigAgreesExactly | internal/api/server.go:73-83 | the exported UpdateConfig, which publishes without the manager, keeps the joint invariant if and only if the manager's desired connections are those published |
| ServerTheorems.HistoryIsConsistent | internal/api/server.go:38-285 | so every reachable state satisfies it |
| ServerTheorems.HistoriesRunTheManager | internal/api/server.go:38-285 | what the manager does under the server, in background and for transactions, is one run of the manager begun with SetDesired, so that all results about such runs hold in the server |
| ServerTheorems.LookUpFindsServed | internal/api/server.go:245-253 | a handler finds the configuration served under the id it asks for, if there is one |
| ServerTheorems.HandlersAreAdmitted | internal/api/server.go:255-285 | whenever no transaction runs a handler can look up its id, and one that has can always take its client |
| ServerTheorems.HandedPairsMatch | internal/api/server.go:255-285 | every client a handler ever got was dialled with the brokers and security of the configuration it got with it |
| ServerTheorems.HandedClientIsOpen | internal/api/server.go:269-285 | a handler gets the client installed under its id, if there is one, beside the configuration served under that id at that moment, and the client is open |
| ServerTheorems.ServedClientsAnswered | internal/api/server.go:269-285 | and it had answered a ping before |
| ServerTheorems.TransactionIsNeverStale | internal/api/server.go:213-231 | the Apply of a transaction is never refused as stale |
| Server.NoSecretIsShown | internal/api/server.go:91-102 | the endpoint shows no login secret and no cluster password, and everything else as it is |
| Server.RedactedMergesBack | internal/api/server.go:91-132 | sending back the configuration the endpoint showed, secrets blanked, restores every secret |
| Server.MergeFillsOnlyBlanks | internal/api/server.go:117-132 | a stated secret, login or cluster, and everything else is kept; a blank login secret becomes the current one, a blank cluster password that of the first cluster of the same id, if there is one |
| Server.ConfigServer.constructor | internal/api/server.go:38-41 | the server starts in agreement |
| Server.ConfigServer.ApplyClustersIfChanged | internal/api/server.go:213-221 | reconnects only if ids, brokers or security differ, reports whether it did, and fails exactly if a client could not be made or did not answer |
| Server.ConfigServer.RollbackClusters | internal/api/server.go:223-231 | the previous clusters are the desired ones again, also if a client cannot be made or does not answer, which it reports |
| Server.ConfigServer.UpdateConfig | internal/api/server.go:73-83 | publishes in the server and the sampler; all three agree afterwards if and only if the manager desires these connections |
| Server.ConfigServer.FillSecrets | internal/api/server.go:117-132 | the two loops that fill in secrets compute the merge |
| Server.ConfigServer.Replace | internal/api/server.go:142-159 | connect, save, publish or go back: the answer says exactly whether connecting, saving or going back failed, what was handed to the store, and what is served |
| Server.ConfigServer.PutConfig | internal/api/server.go:103-160 | refuses repeated ids and what the other checks refuse; publishes the merged configuration exactly if connecting and saving succeed and else leaves the old one, in agreement either way; a change of display fields only dials and closes nothing |
| Server.ConfigServer.RestoreConfigBackup | internal/api/server.go:173-211 | the same for a restored backup |
| Server.ConfigServer.ReconcileConfig | internal/api/server.go:235-243 | a reload is published, or changes nothing if connecting fails; one that keeps ids, brokers and security does not reconnect |
| SamplerLog.UpdateSummarises | internal/dashboard/sampler.go:95-135 | an Update keeps the three maps a summary of the log of accepted samples, dropping what was sampled over another connection |
| SamplerLog.AcceptSummarises | internal/dashboard/sampler.go:211-241 | so does taking over a sample, whatever configuration is current by then |
| SamplerLog.SummaryIsCurrent | internal/dashboard/sampler.go:95-141 | items and histories are those of exactly the current clusters, under their current names and flags |
| SamplerLog.UpdateStaysExact | internal/dashboard/sampler.go:118-125 | an Update keeps histories complete if and only if no log that was cut before is now allowed more points |
| SamplerLog.AcceptStaysExact | internal/dashboard/sampler.go:234-239 | a new point never makes a complete history incomplete |
| SamplerLog.RetryEntries | internal/dashboard/sampler.go:221-230 | with a source reporting online or offline, a cluster has a retry entry exactly while shown offline, counting the trailing run of offline samples and expiring its backoff after the last |
| SamplerLog.ProbeWaitsForBackoff | internal/dashboard/sampler.go:170-178 | a Refresh samples a cluster if and only if that backoff is over |
| SamplerLog.BackoffGrows | internal/dashboard/sampler.go:287-302 | more failures never shorten the delay; it is positive and at most five minutes |
| SamplerLog.BackoffDoubles | internal/dashboard/sampler.go:287-302 | it starts at the interval, or at 15 seconds without one, and doubles with each failure up to five minutes |
| SamplerLog.NormalizedIsOnlineOrOffline | internal/dashboard/sampler.go:319-334 | a source that reports online, offline or nothing gives such samples |
| SamplerLog.NormalizedKeepsTheRest | internal/dashboard/sampler.go:319-334 | a worker relabels what the source returned, fills in a missing status and sample time, and keeps all else |
| SamplerMachine.HistoryIsValid | internal/dashboard/sampler.go:95-241 | the invariant of Run, Refresh and Updates in between holds in every reachable state |
| SamplerMachine.ItemsAreCurrent | internal/dashboard/sampler.go:95-141 | in every reachable state, Updates inside a Refresh included, everything stored for a cluster came from Source calls with its current brokers and security; its item is the last sample under the current name and flag, or blank and loading; its history is a suffix of the log within the limit |
| SamplerMachine.ConstantOptionKeepsNewest | internal/dashboard/sampler.go:118-125 | while the option is constant each history is exactly the newest points that fit |
| SamplerMachine.LaterConstantOptionKeepsNewest | internal/dashboard/sampler.go:118-125 | from any moment on, however the option changed before: while it stays the same, a history is exactly the newest points that fit once the points it lacked have been followed by as many as fit |
| SamplerMachine.NoProbeBeforeBackoff | internal/dashboard/sampler.go:170-178 | a cluster whose last samples were offline is not sampled before their backoff has passed |
| SamplerMachine.RetriesFollowOfflineRuns | internal/dashboard/sampler.go:221-230 | in every reachable state retries and offline items are the same clusters |
| SamplerMachine.SleepingRunIsUpToDate | internal/dashboard/sampler.go:130-161 | no lost wake-up: when Run sleeps with no token there and none about to be offered, its last snapshot read the latest configuration |
| SamplerTheorems.AnswersAreKept | internal/dashboard/sampler.go:211-241 | at the end of a Refresh a cluster keeps the answer made with its current id, brokers and security, if there is one, and no other |
| SamplerTheorems.UpdateKeepsSamples | internal/dashboard/sampler.go:95-135 | an Update lists exactly the enabled clusters, keeps the samples of those listed with the same brokers and security before and of no others, and replaces options out of range by 15 seconds, 240 points and 4 workers |
| SamplerTheorems.OtherEventsKeepAll | internal/dashboard/sampler.go:143-209 | nothing else changes what is listed, shown or kept |
| SamplerTheorems.HistoryPointsAreSamples | internal/dashboard/sampler.go:231-239 | in every reachable state the points of a history are, in order and without a gap, those of the samples that were online with their lag available, from some sample on: time, lag, partitions and topics; with fewer than two points none is missing |
| SamplerTheorems.NewestPointIsShown | internal/dashboard/sampler.go:211-239 | in every reachable state, if a cluster was last sampled online with its lag available, its newest point has the time, lag, partitions and topics of its item |
| SamplerTheorems.BackoffFollowsFailures | internal/dashboard/sampler.go:221-230 | in every reachable state, whatever the source reports: a cluster has a retry entry exactly if it was offline since it was last online; it counts those failures and runs until their backoff after the last of them |
| SamplerTheorems.RefreshSamplesDue | internal/dashboard/sampler.go:170-180 | a Refresh sets out to sample exactly the clusters that no retry entry holds back |
| SamplerTheorems.OnlineMeansStatusOnline | internal/dashboard/sampler.go:319-334 | in every reachable state an item is flagged online exactly when its status is online |
| SamplerTheorems.WokenOncePerUpdate | internal/dashboard/sampler.go:130-161 | the token is offered at most once for an Update and wakes Run at most once |
| SamplerTheorems.OneRefreshPerWakeUp | internal/dashboard/sampler.go:143-161 | Run calls Refresh once at the start and once for each wake-up, and each Refresh ends once at most |
| SamplerTheorems.StoppedForGood | internal/dashboard/sampler.go:143-161 | after Run has returned it does nothing more |
| SamplerTheorems.NoRefreshAfterCancel | internal/dashboard/sampler.go:143-168 | once the context is cancelled no Refresh samples anything, and Run returns only then |
| SamplerTheorems.RunGoesOn | internal/dashboard/sampler.go:95-168 | in every reachable state nothing blocks: Updates, offers and cancellation can come at any time, and Run wakes up for the timer, the token and the cancellation |
| Sampler.FailureBackoff | internal/dashboard/sampler.go:287-302 | the doubling loop computes base times 2 to the failures, capped at five minutes, without leaving 64 bits, for every base and count |
| Sampler.Sampler.constructor | internal/dashboard/sampler.go:79-93 | a new sampler shows the given clusters as loading and holds no token |
| Sampler.Sampler.Update | internal/dashboard/sampler.go:95-141 | rebuilds the three maps in its loop and leaves the wake token there |
| Sampler.Sampler.SelectDue | internal/dashboard/sampler.go:170-180 | the clusters whose retry time has come, in order |
| Sampler.Sampler.CurrentConfig | internal/dashboard/sampler.go:261-268 | the configuration a sample still belongs to |
| Sampler.Sampler.Accept | internal/dashboard/sampler.go:211-241 | takes the results over one by one, in the order they arrived |
| Sampler.Sampler.Read | internal/dashboard/sampler.go:243-253 | the items in configuration order and the histories of the same clusters |
| WorkerPool.BoundedAndNonBlocking | internal/dashboard/sampler.go:189-207 | at most MaxConcurrent workers are in a Source call, none delivers twice, and sending a result never blocks |
| WorkerPool.WaitCompletes | internal/dashboard/sampler.go:191-209 | the final wait completes, cancelled or not: worker steps are bounded and until all have finished one can move |
| WorkerPool.ResultsArrive | internal/dashboard/sampler.go:189-209 | without a cancellation every worker has delivered its result when all have finished |
| WorkerPool.CancelledByCancel | internal/dashboard/sampler.go:191-204 | the context can be cancelled at any time, and is exactly after it was |
| WorkerPool.NoLimitHangs | internal/dashboard/sampler.go:190-209 | in every run the wait hangs if and only if no call is admitted, nothing was cancelled and there is a worker |
| WorkerPool.RefreshNeverHangs | internal/dashboard/sampler.go:179-209 | with the normalized options a Refresh reads, it never does |
| Query.ValidatedHasLimits | internal/kafka/message/service.go:73-143 | an accepted query has the positive limits the collector relies on |
| Query.FirstFailedCheckDecides | internal/kafka/message/service.go:74-134 | a query is refused for the first of the checks that it fails, and accepted if it fails none |
| Query.ValidatedKeepsTheRest | internal/kafka/message/service.go:93-142 | an accepted query: limit 100 for none and 500 at most, operators "contains" and "eq" where left out, paths trimmed, scan limit 5,000 for none with filters and the limit without; all else kept |
| Query.RewrittenUpToRefused | internal/kafka/message/service.go:121-134 | the filter loop rewrites the filters before the first it refuses, trims the path of that one and leaves the rest |
| Query.TrimDropsSpace | internal/kafka/message/service.go:74-122 | trimming takes white space off both ends and leaves none there; nothing is left exactly of text that is all white space |
| Query.ValidationIsIdempotent | internal/kafka/message/service.go:73-143 | validating an accepted query again changes nothing |
| Query.StreamRevalidates | internal/api/server.go:470-485 | raising the limit between the two validations of the stream path changes nothing else |
| Query.ValidateQuery | internal/kafka/message/service.go:73-143 | checks, defaults and clamps in order; the JSON filters are rewritten in place exactly when the query passes the checks before them |
| Query.CheckFields | internal/kafka/message/service.go:74-120 | the first reason to refuse the query before its JSON filters, or the query with limit and operators filled in |
| Query.ValidateFilters | internal/kafka/message/service.go:121-134 | the loop rewrites filters up to and including the first it refuses |
| Query.UnfilteredMatches | internal/kafka/message/filter.go:90-117 | without content filters every record matches |
| Query.RecordMatches | internal/kafka/message/filter.go:90-117 | a record matches if it passes every stated filter; it counts as invalid JSON if it passes the text filters and there are JSON filters but no JSON |
| Query.TextMatches | internal/kafka/message/filter.go:119-128 | the text is the one expected, begins with it, or has it inside |
| Newest.SortSorts | internal/kafka/message/filter.go:74-88 | sorting orders the records newest first and keeps each of them |
| Newest.SortIsStable | internal/kafka/message/filter.go:74 | records with equal keys stay in their order |
| Newest.WithKeyCounts | internal/kafka/message/filter.go:74-88 | the records with a key that it speaks of are all those with its timestamp, partition and offset |
| Newest.NewestAreUnique | internal/kafka/message/filter.go:51-60 | with distinct keys there is only one way to keep the newest k |
| Collector.RecordCollector.RemainingScan | internal/kafka/message/filter.go:32-38 | what is left of the scan budget, which is never exceeded |
| Collector.RecordCollector.Retain | internal/kafka/message/filter.go:51-63 | the search for the oldest item and its replacement |
| Collector.RecordCollector.Add | internal/kafka/message/filter.go:40-66 | one record, counted and kept or passed over; whether to go on |
| Collector.RecordCollector.Result | internal/kafka/message/filter.go:68-78 | the flags and, in latest mode, the sorting |
| Collector.LatestAnswer | internal/kafka/message/filter.go:25-88 | filtered latest: the items are the Limit newest of all matches in the first ScanLimit records, ordered by timestamp, partition and offset, and the counters and flags are those of the naive computation |
| Collector.LatestAnswerIsSortAndTake | internal/kafka/message/filter.go:25-88 | with distinct keys they are exactly filter, sort, take |
| Collector.FirstMatchesAnswer | internal/kafka/message/filter.go:25-78 | otherwise they are the first Limit matches in arrival order, sorted only in latest mode |
| Collector.FirstMatchesCounters | internal/kafka/message/filter.go:25-78 | otherwise it has scanned up to the Limit-th match or the whole window, counts the values there that are not JSON, and reports the scan limit exactly if there are ScanLimit records and the Limit-th match is not among those before the last of them |
| Collector.UnfilteredAnswer | internal/kafka/message/filter.go:25-98 | without content filters: the first Limit records |
| Collector.CollectedWithinBudget | internal/kafka/message/filter.go:25-45 | no more than ScanLimit records are scanned |
| Collector.NaiveOfConcat | internal/kafka/message/filter.go:40-66 | the naive computation that the others are compared with goes record by record |
| Fetch.Fetch | internal/kafka/message/kafka_backend.go:56-84 | the poll loop ends whatever Kafka answers, within the scan budget |
| Fetch.FetchCollects | internal/kafka/message/kafka_backend.go:56-93 | a stream that ends with an empty poll answers with what the collector makes of all its records; polls that only ran into their own deadline are no errors, on the way or at the end |
| Fetch.FetchReportsFailure | internal/kafka/message/kafka_backend.go:56-93 | an error is reported exactly when the batches before it have not answered the query already; it is that of the request if it has one, and else the first that is not an expired poll's own deadline |
| Fetch.BatchingDoesNotMatter | internal/kafka/message/kafka_backend.go:57-82 | the answer depends on the records only, not on how they were batched |
| Fetch.ArrivalOrderDoesNotMatter | internal/kafka/message/kafka_backend.go:56-83 | filtered latest with the whole window in the budget and distinct keys: one answer for every order of arrival |
| Fetch.ResolveOffset | internal/kafka/message/kafka_backend.go:95-124 | the offset stated, or the listed start, end or first offset after a time; in latest mode the end less the scan limit, zero at least; a failed listing or a partition missing from it is an error |
| Fetch.WindowReachesEnd | internal/kafka/message/kafka_backend.go:116-122 | on one partition every record before the listed end lies in the scan budget, also when more were produced meanwhile |
| Fetch.InOffsetOrder | internal/kafka/message/kafka_backend.go:69-82 | records in the order of their offsets, as a partition delivers them, are admitted by the next result |
| Fetch.OnePartitionLatest | internal/kafka/message/kafka_backend.go:56-124 | so a filtered latest query on one partition answers with filter, sort, take of a window that holds all of them |
| Store.Store.Save | internal/config/store.go:41-109 | at every step and however it ends, a non-empty old text is in the file or a backup; a file that is not bind-mounted always holds a whole text; nothing but the file, one backup and one temporary file is touched, and the temporary file is gone after a success by rename, and left behind otherwise only if its removal failed; a rejected text changes nothing; an accepted one is saved exactly if no file operation fails, for which a missing file and a file that cannot be renamed over do not count; the new text was whole, synced and closed in its temporary file before it replaced anything |
| Store.Store.BackUp | internal/config/store.go:48-61 | the backup of a non-empty old text; a missing file is no error, an unreadable one is |
| Store.Store.Replace | internal/config/store.go:86-107 | the rename, and writing in place where a bind mount forbids it |
| Store.Store.LoadBackup | internal/config/store.go:180-199 | the answer as long as no file operation fails: a refused id, a missing file, a text that does not load, or the text and its configuration |
| Store.Store.Restore | internal/config/store.go:171-178 | a save of the backup's text, with the same guarantees for the text it replaces; what refuses it changes nothing; it fails otherwise exactly if a file operation does |
| Store.Store.SaveThenRestore | internal/config/store.go:41-178 | a save and the restore of the backup it made, by its id: if no file operation fails, the old text byte for byte and the newer one in a backup; the restore is rejected exactly if the old text does not load |
| Store.RestoreUndoesSave | internal/config/store.go:41-178 | what that rests on, for any two saves of which the second writes the backup of the first |
| Store.EveryTextIsKept | internal/config/store.go:52-61 | over any number of saves at different moments, every text the file held can still be read from its own backup |
| Store.CleanKeepsMeaning | internal/config/store.go:181 | a cleaned path leads where the path leads, from any directory |
| Store.AcceptedIdsStayInside | internal/config/store.go:180-189 | an accepted backup id leads to something strictly inside the backup directory, under its cleaned name |
| Store.BackupIdIsValid | internal/config/store.go:53-57 | the name a save gives a backup is accepted as an id and names that backup |
| AuditState.FirstFit | internal/audit/writer.go:92-119 | the file search ends, at the first number after the current one that is free or has room |
| Audit.Writer.constructor | internal/audit/writer.go:42-53 | the default limit and the initial state |
| Audit.Writer.Search | internal/audit/writer.go:92-119 | the loop opens that file, or fails on the way and changes no file |
| Audit.Writer.EnsureFile | internal/audit/writer.go:76-120 | stays with the open file exactly on the same day and within the limit; a broken one is never closed |
| Audit.Writer.Write | internal/audit/writer.go:54-75 | the whole entry at the end of its file, or an error with at most a part of it there; unless broken it fails only if a file operation does; when it changes files it has closed the one before and made the day's directory |
| Audit.Writer.Close | internal/audit/writer.go:121-133 | closes the open file unless its buffer is broken; else it fails only if closing does |
| AuditTheorems.OneWriteOneFile | internal/audit/writer.go:54-75 | from any directory a write touches one file, at its end, with the entry or a part of it |
| AuditTheorems.WrittenWhereItFits | internal/audit/writer.go:54-120 | a successful write puts the entry whole at the end of the open file, if that is the day's and has room, and else of the first later one that is free or has room |
| AuditTheorems.RunOnlyExtends | internal/audit/writer.go:54-133 | over any run, failures included, existing content only grows |
| AuditTheorems.BrokenForGood | internal/audit/writer.go:69-128 | once broken, every later write and close fails and nothing changes |
| AuditTheorems.BrokenByFailedWrite | internal/audit/writer.go:54-133 | over any run that starts closed, the writer is broken if and only if some write failed with its file open |
| AuditTheorems.WritesUnlessBroken | internal/audit/writer.go:54-120 | the next write can succeed if and only if the writer is not broken, whatever failed before |
| AuditTheorems.BlocksKeepOrder | internal/audit/writer.go:76-120 | cutting a day's entries into files keeps each whole and all in order |
| AuditTheorems.ErrorFreeRunKeepsOrder | internal/audit/writer.go:54-120 | without errors, with a clock that does not go back, from any directory that has no room for the day's first entry before its last file (an empty one, for example), a day's files are numbered 1 to n, each is within the limit or one piece, and in order they give what was there and then the day's entries as written |
| AuditRuns.RunKeepsOrder | internal/audit/writer.go:54-133 | over every run with a clock that does not go back, whatever fails: the files of a day that had none hold, in order, exactly the entries whose write succeeded, and then at most a part of one whose write failed and broke the writer |
| AuditTheorems.RestartKeepsOrder | internal/audit/writer.go:84-118 | the first entry after a restart goes to the end if and only if no file before the last has room; otherwise before the text `rest` of the later files, and the day's text is then the old one with the entry at its end if and only if entry and `rest` commute, as they do when `rest` is empty |
| AuditTheorems.RestartReorders | internal/audit/writer.go:84-118 | if a later file holds text, then, however the run goes on after that entry, it stays in a file before older text |
| AuditTheorems.RestartCanReorder | internal/audit/writer.go:84-118 | at every limit, any three entries of which the third fits where the second did not are put out of order by a restart |
| AuditTheorems.EveryLimitCanReorder | internal/audit/writer.go:84-118 | such entries, none of them oversized, exist at every limit from two bytes on |
| Limiter.AuthHandler.RateLimited | internal/api/auth.go:93-105 | limited exactly at five failures less than five minutes after the first; an entry five minutes old is forgotten |
| Limiter.AuthHandler.RecordFailure | internal/api/auth.go:107-117 | a failure counts in the open window or begins one |
| Limiter.AuthHandler.ClearFailures | internal/api/auth.go:119-123 | forgets the client |
| Limiter.AuthHandler.Login | internal/api/auth.go:43-81 | which answer an attempt gets and what it leaves of the failures |
| LimiterMachine.PendingAreUnderWay | internal/api/auth.go:43-81 | the attempts in progress that the bounds count are those that were admitted and have not come to an end |
| LimiterBounds.CountStaysBounded | internal/api/auth.go:93-123 | with at most k attempts of a client at a time its count never exceeds 4 + k, whatever the clock and other clients do |
| LimiterBounds.FailuresInFiveMinutes | internal/api/auth.go:43-117 | at most k attempts at a time, no success, and a clock that does not go back, though its readings may reach the limiter in any order: at most (k + 1)(k + 8) / 2 failures in any half-open five minutes |
| LimiterBounds.AtMostNineInFiveMinutes | internal/api/auth.go:43-117 | one attempt at a time: five in a window and nine in any five minutes |
| LimiterBounds.InOrderFailures | internal/api/auth.go:93-117 | if the locked sections take the readings in the order of the clock: at most 7 + 2k |
| LimiterBounds.LockHolds | internal/api/auth.go:93-117 | five failures lock a client out until five minutes after the first of them, over every run without success in between, failures of attempts admitted before included: the window does not move and no check is passed |
| LimiterRuns.BoundsAreReached | internal/api/auth.go:93-123 | for every k one run with its readings in order reaches both 4 + k and 7 + 2k |
| LimiterRuns.SlowAttemptsReachBound | internal/api/auth.go:43-117 | for every k below the nanoseconds of a window a run with readings out of order reaches (k + 1)(k + 8) / 2 |
| LimiterRuns.OutOfOrderExceeds | internal/api/auth.go:43-117 | so for every such k from two on 7 + 2k is exceeded, with fifteen failures for k = 2 |
| Uri.Utf8RoundTrip | web/src/navigation/routes.ts:14-17 | the well-formed UTF-8 sequences are exactly the encodings of the scalar values, one each |
| Uri.DecodeEncode | web/src/navigation/routes.ts:14-39 | decodeURIComponent undoes encodeURIComponent on every well-formed string |
| Uri.DecodeReads | web/src/navigation/routes.ts:14-17 | a string decodes to another exactly if it spells it, each character as itself or as the escapes of its UTF-8 bytes; all else is refused |
| Uri.SafeDecodeReads | web/src/navigation/routes.ts:14-17 | what does not decode stands for itself |
| Uri.EncodeWrites | web/src/navigation/routes.ts:37-39 | encodeURIComponent goes character by character |
| Uri.EncodeCharWrites | web/src/navigation/routes.ts:37-39 | letters, digits and nine marks are kept, all others become upper-case escapes of their UTF-8 bytes |
| Uri.HexDigits | web/src/navigation/routes.ts:14-39 | hexadecimal digits of either case are read and those of upper case written |
| Uri.EncodedIsSegment | web/src/navigation/routes.ts:37-39 | an encoded id or name is one path segment, whatever it contains |
| Routes.BuiltPathHasSegments | web/src/navigation/routes.ts:35-40 | a printed path splits into its segments, three or, with a topic, five: "clusters", the encoded cluster, the name of the page, the encoded topic, the name of the tab |
| Routes.SegmentsBetweenSlashes | web/src/navigation/routes.ts:20 | the segments of any path are its non-empty parts between slashes |
| Routes.ParsedFromSegments | web/src/navigation/routes.ts:19-33 | what any path stands for, segment by segment: the dashboard for anything but a cluster's path, and the dashboard and the overview for missing and unknown pages and tabs; further segments do not matter |
| Routes.ParseBuild | web/src/navigation/routes.ts:19-40 | reading a printed route gives the route back if and only if it is canonical |
| Routes.ParsedIsCanonical | web/src/navigation/routes.ts:19-33 | every path, malformed escapes included, stands for a canonical route |
| Routes.ParseBuildParse | web/src/navigation/routes.ts:19-40 | so printing what was read and reading it again changes nothing |

## Left out

- The generation counter's wrap-around after 2^64 changes; generations, counts and sizes are unbounded integers. The
  sampler's backoff is modelled with 64-bit durations.
- Cluster ids are distinct wherever the code has passed Validate (internal/config/validate.go:18-26); Apply and Update
  are modelled under that condition. The rest of Validate is an arbitrary further condition.
- The agreement of installed clients with the desired set is claimed from the first SetDesired on, which main.go:66
  calls before anything else; the run that breaks it earlier is in the model.
- Manager.Manager.Apply: the contract is about a call with nothing running in between; the interleavings are those of
  ClusterMachine.
- Manager.Manager.Upsert: the same.
- Server.ConfigServer.PutConfig: a failing encoding of the accepted configuration, the missing store and the decoding
  of the request are plumbing before anything changes.
- The contents of the configuration file are not part of the server's state: what is handed to the store and whether it
  takes it is recorded. What the store does to the file is proved in Store by itself.
- Store.RestoreUndoesSave: asks for a non-empty newer text, since loading rejects the empty one; that the two saves
  succeed is what it starts from.
- Store.Store.SaveThenRestore: the two requests one after the other, as an operator makes them; a restore may also fail
  because a file operation does.
- Store.EveryTextIsKept: two saves at the same nanosecond share a backup name, and the later backup replaces the
  earlier one; the claim is for different moments. The removal of expired backups is left out.
- A failing write leaves a prefix of the data. Loss of power is not modelled, only that the text is synced before it
  replaces the file. Two processes that save at once are not modelled.
- Store.AcceptedIdsStayInside: links inside the backup directory are not modelled.
- Audit.Writer.Write: the encoding of an entry as one line is given as bytes; an entry that cannot be encoded is
  refused before anything happens.
- AuditRuns.RunKeepsOrder: for days without files at the start; for others the order is claimed of runs without errors.
- AuditTheorems.ErrorFreeRunKeepsOrder: one writer per directory; the removal of expired days is left out.
- Which physical client a dashboard sample went through: the sampler is modelled at its Source interface.
- WorkerPool.BoundedAndNonBlocking: is about one Refresh; a mutex admits one at a time
  (internal/dashboard/sampler.go:164), which SamplerMachine takes for granted.
- WorkerPool.WaitCompletes: a Source call returns at some time, as a step of its worker.
- Sampler.Sampler.Read: the copies of the histories are values.
- JSON decoding and comparison in filters: any function of the value and the conditions. Header lists and keys are
  strings.
- Newest messages of a topic with several partitions: each partition starts ScanLimit before its end, but they share
  one budget, so the window does not hold them all; the claims are about the window.
- The convergence of the file watcher: a rejected reload is not tried again and a change that is reverted within one
  poll is not seen.
- Routes: strings with lone surrogates, for which encodeURIComponent throws, and the browser's own removal of `.` and
  `..` segments from a path.
- Limiter: the limiter forgets no client that does not come back; memory is not modelled. Login's credential check and
  the session are left out.
- LimiterRuns.SlowAttemptsReachBound: for k of at least the nanoseconds of five minutes the bound may not be reached.
- The end of the program: main.go:65 closes the manager without waiting for handlers, so a handler that is still at
  work then may find its client closed. The server's histories end before that.
- ServerTheorems.UpdateConfigAgreesExactly: nothing in the program calls UpdateConfig, so it is not an event of the
  server's histories.
- HTTP, cookies, YAML, encryption of stored passwords, password hashing, consumer groups, topics, and the pages
  themselves: plumbing, library behaviour or single-branch members.
