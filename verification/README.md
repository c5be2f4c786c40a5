# Verification of the stateful parts of qubership-core-bootstrap

This project models five state machines of the repository in Dafny and proves what they keep over
whole runs. Check it with `dafny verify dfyconfig.toml`.

**Event recording** (`cr-synchronizer/getters/labeled_event_recorder.go`). Each event passes three
stages, each behind a bounded LRU cache: similar events are combined, duplicates are counted and
turned into patches, and a token bucket per object drops spam. What passes is written to a sink with
bounded retries, and the sink's answer feeds the counting cache.

- `Lru.dfy` is the cache, `Events.dfy` the events, their keys and Go's time arithmetic; `Keys.dfy` says
  which fields of an event its keys tell apart.
- `Aggregator.dfy`, `EventLogger.dfy`, `SpamFilter.dfy` and `Correlator.dfy` hold the stages as classes,
  each method specified by a function of the cached values. A cached aggregation record holds a
  reference to a set, as in the source, and the set is changed through it.
- `AggregatorRuns.dfy` and `Correlator.dfy` prove results about runs of these functions, and
  `CorrelatorRuns.dfy` carries them over to what the correlator returns.
- `Recorder.dfy` is the retry loop against a sink; `StoredCounts.dfy` and `SinkAgreement.dfy` prove
  that the cache and the sink agree over every run; `Recording.dfy` is the method that makes such a
  run, event by event.

**Waiting for resources** (`cr-synchronizer/getters/deploymentGenerator.go`). `Watcher.dfy` is the
dispatcher, its one-slot channels and its waiters as a machine over their steps; a run is any list of
enabled steps, so it covers every interleaving. `Generate.dfy` puts a generator on top of it, and
`GenerateOutcomes.dfy` says for which streams it can return or get stuck; `GenerateProgress.dfy` says
what a stream guarantees. `OwnerRef.dfy` is the optimistic update of owner references against other
writers.

**Consul reconciliation** (`core-bootstrap/scripts/consul/consul_utils.go`): `TokenListing.dfy`,
`Consul.dfy`, `ConsulRuns.dfy`. **MaaS credentials** (`core-bootstrap/scripts/maas/maas_scripts.go`):
`Maas.dfy` for runs one after the other, `MaasOverlap.dfy` for runs at the same time. **Deployment
migration** (`cr-synchronizer/getters/genericGetter.go`): `Migration.dfy`.

## Assumptions about the outside

- The sink stores events by name. It refuses to create what exists or what carries a resource version,
  answers "not found" to a patch of what does not exist, and otherwise stores and echoes the event
  (`Recorder.Handle`). Entries may expire before any call, an answer may be lost after the effect, and a
  call may fail in any way without effect (`Recorder.Respond`). Only the agreement of cache and sink
  assumes this, and that no call names an event the sink stored at first (`SinkAgreement.GoodSink`); the
  retry loop is proved for a sink that stores and answers anything.
- The Kubernetes API checks versions, and every state of a resource has its own version
  (`OwnerRef.VersionChecked`). Other writers may do anything else, at any moment.
- The watch stream is finite: its server-side timeout ends it.
- Consul never reuses identifiers and makes up non-empty ones (`Consul.FreshIds`); requests may be
  served, fail without effect, fail after the effect, or be answered 403. Nobody else writes to Consul
  or to the secret during a run.
- A write to MaaS or to the agent's secret that is answered as successful took effect; any other may or
  may not have. Where MaaS runs overlap, their generated passwords do not repeat
  (`MaasOverlap.NewPassword`).
- The clock is further from the year 1 than the aggregation interval when a key is not cached
  (`Aggregator.Admits`): otherwise the source inserts into a nil map. A clock after the year 293 is, for
  every interval (`Events.RealisticClock`). For the spam bound the clock does not run backwards.

## What turned out false, and what holds instead

- That all resources become ready does not make a generator return. Whatever the watch delivers, the
  dispatcher may read and drop all of it before the first waiter registers: a generator can always
  still return, as long as nothing forces it to end, exactly when it has no names
  (`GenerateProgress.AlwaysCanReturnIff`, `GenerateProgress.NoStreamIsEnough`). A lucky schedule exists
  exactly when the watch delivers a ready object of each name in the order of the list
  (`GenerateOutcomes.ReturnsIff`); from the moment a waiter has its watcher, exactly when the objects not
  yet looked up are enough for the remaining names (`GenerateOutcomes.WaiterReturnsIff`). What is
  guaranteed is this: once a waiter is in its loop with a ready object before it, it begins setOwnerRef
  after a bounded number of steps, unless it meets an invalid configuration, an exit or a stop
  (`GenerateProgress.ReadyWaiterProgresses`).
- The dispatcher does not always come back for the next object. It can get stuck exactly when the watch
  delivers ready objects up to some name, in order, and then two more objects of that name
  (`GenerateOutcomes.SticksIff`): while the waiter sets the owner, one fills the channel and the other is
  in the dispatcher's hand when the waiter leaves. That may happen on a stream with all objects ready
  (`GenerateOutcomes.EarlyLeaverSticksWatcher`), and no waiter that starts afterwards completes
  (`GenerateOutcomes.SilentWatcherIsFinal`). In every state the dispatcher can never deliver the object
  it holds exactly when the target channel is full and its waiter has left its loop (`Watcher.StuckIff`).
- `setOwnerRef` does not always set the owner. Against any other writers it does exactly when the loop is
  entered and, within ten turns, all before it ending in conflicts, there is one between whose two calls
  nobody writes and neither of whose calls fails (`OwnerRef.SetsIff`); it gives up after ten conflicts
  exactly when all ten turns meet one (`OwnerRef.ExhaustedIff`, with an example in
  `OwnerRef.ContentionExits`).
- `setOwnerRef` checks for owners once. Owners set by others are replaced exactly when the resource was
  unowned at that check and owned at the read of the turn whose update takes effect
  (`OwnerRef.ReplacesIff`, for any version-checked world). One other writer is respected before the
  check, replaced right before any of the next three calls, the update of the first turn included, and
  too late after them; when replaced, the outcome is still a success (`OwnerRef.LaterOwnersAreReplaced`).
- A reconciliation does not always recover by being repeated. If the secret holds a token Consul does
  not know, every run fails before it reaches the tokens (`ConsulRuns.StaleStaysStale`). Whatever
  requests fail, `ConsulRuns.SucceedsIff` says exactly when a run succeeds; one whose requests are all
  answered does exactly when the secret can be read and holds no unknown token
  (`ConsulRuns.AnsweredRunSucceedsIff`). A run can itself bring this about, by deleting the token of the
  secret as a duplicate and failing before it stores another: from a live token, some faults do so
  exactly when the token lacks a required policy and carries the marker policy, but is not the first
  that does (`ConsulRuns.StrandsIff`, with an example in `ConsulRuns.InterruptedRunStrandsSecret`).
- Which pair of deployments is migrated depends on the order the server lists them in. A deployment can
  be selected as the successor, for some order, exactly when it has a predecessor in the list
  (`Migration.SelectableIff`), so the order is irrelevant exactly when all listed pairs have successors
  of one name (`Migration.OrderIsIrrelevantIff`, with an example in `Migration.OrderDecides`).
- Counts are 32 bits wide. The m-th observation carries m exactly when m is below 2^31
  (`EventLogger.ObservationCounting`).
- The MaaS invariant does not survive every overlap of runs. However many overlap, it holds at every
  moment exactly when no run stores its credentials while the last registration is not its own, and none
  deletes or replaces the registration while credentials of the agent are stored
  (`MaasOverlap.SafeIffClashFree`, with an example in `MaasOverlap.OverlapIsUnsafe`).

## Model

| member | source | states |
|---|---|---|
| Aggregator.ExpiredIsUnclamped | cr-synchronizer/getters/labeled_event_recorder.go:210-212 | saturation of the elapsed time and overflow of the interval never hide an expiry |
| Aggregator.UncachedIsExpired | cr-synchronizer/getters/labeled_event_recorder.go:206-214 | a key that is not cached gets a new set exactly when the clock is further from the zero time than the interval; a realistic clock always is |
| Aggregator.EventAggregator.constructor | cr-synchronizer/getters/labeled_event_recorder.go:421-431 | an empty aggregator; a negative maximum becomes a huge unsigned one |
| Aggregator.EventAggregator.EventAggregate | cr-synchronizer/getters/labeled_event_recorder.go:199-237 | result and whole new cache as a function of the old one, for any choice of PopAny; no two records share a set and none holds more than maxEvents - 1 keys, although the pop acts on a set that is already cached |
| AggregatorRuns.AggregationSoundness | cr-synchronizer/getters/labeled_event_recorder.go:206-221 | an event is replaced only if an unbroken chain of small gaps ending with it carried at least maxEvents distinct messages, with any evictions and any other keys in between |
| AggregatorRuns.AggregationBound | cr-synchronizer/getters/labeled_event_recorder.go:215-221 | in every run a cached record keeps at most maxEvents - 1 local keys |
| AggregatorRuns.RunProjects | cr-synchronizer/getters/labeled_event_recorder.go:203-217 | without evictions the record of a key depends on the calls of that key only |
| AggregatorRuns.AggregationOnset | cr-synchronizer/getters/labeled_event_recorder.go:199-237 | from no live record, distinct messages with small gaps pass maxEvents - 1 times unchanged and are all combined afterwards, whatever PopAny removes |
| Aggregator.CombinedFields | cr-synchronizer/getters/labeled_event_recorder.go:222-235 | a combined event keeps object, type, reason and source, counts 1 from now, carries the message of messageFunc and has the object and the time in its name |
| Events.HexRoundTrip | cr-synchronizer/getters/labeled_event_recorder.go:224-224 | the hexadecimal time in that name can be read back |
| EventLogger.Logger.EventObserve | cr-synchronizer/getters/labeled_event_recorder.go:250-283 | the observed event, the patch and the whole new cache |
| EventLogger.Logger.UpdateState | cr-synchronizer/getters/labeled_event_recorder.go:143-156 | the whole new cache, under the event key of the answer |
| EventLogger.ObservationCounting | cr-synchronizer/getters/labeled_event_recorder.go:250-283 | the m-th observation under a key carries Count m, in 32 bits, with the name and first timestamp of the first one, across the feedback of an echoing sink |
| EventLogger.FirstIsUnchanged | cr-synchronizer/getters/labeled_event_recorder.go:250-283 | the first observation of a key leaves the event as it is and makes no patch |
| EventLogger.AnswerIsCarried | cr-synchronizer/getters/labeled_event_recorder.go:143-156 | after a successful write the next observation of its key carries the name, version and first timestamp of the answer and one more than its count, and patches just that |
| SpamFilter.Filter.Filter | cr-synchronizer/getters/labeled_event_recorder.go:441-456 | dropped exactly when the bucket of the object does not hold a token (see the next two rows for what that means for calls); whole new cache |
| SpamFilter.RefusedIff | cr-synchronizer/getters/labeled_event_recorder.go:441-456 | a call is refused exactly when letting it pass would put some window of calls that ends with it over burst + qps * T |
| SpamFilter.FirstBurstPasses | cr-synchronizer/getters/labeled_event_recorder.go:444-453 | the first burst calls of an object pass |
| Correlator.DefaultsFilledIn | cr-synchronizer/getters/labeled_event_recorder.go:370-399 | each option that is not given gets its default number or function, and each that is given is kept |
| Keys.EventKeyTellsApart | cr-synchronizer/getters/labeled_event_recorder.go:119-132 | the counting key changes with each of its eleven fields, the message among them |
| Keys.AggregateKeyTellsApart | cr-synchronizer/getters/labeled_event_recorder.go:336-351 | the aggregation key changes with each of its eleven fields |
| Keys.SpamKeyTellsApart | cr-synchronizer/getters/labeled_event_recorder.go:357-368 | the spam key changes with each of its seven fields |
| Keys.KeysIgnoreTheRest | cr-synchronizer/getters/labeled_event_recorder.go:119-132 | and no key depends on anything else: the aggregation key not on the message, which is its local key, the spam key on the source and the object alone |
| Correlator.EventCorrelator.constructor | cr-synchronizer/getters/labeled_event_recorder.go:458-477 | three empty bounded caches of one size, with the defaults in place |
| Correlator.EventCorrelator.EventCorrelate | cr-synchronizer/getters/labeled_event_recorder.go:291-301 | result and the three new caches as functions of the old ones, for any choice of PopAny |
| Correlator.EventCorrelator.UpdateState | cr-synchronizer/getters/labeled_event_recorder.go:158-160 | changes the counting cache only |
| Correlator.AggregationStage | cr-synchronizer/getters/labeled_event_recorder.go:291-301 | the aggregation cache of a correlator run is that of a run of the aggregator alone |
| Correlator.LogStage | cr-synchronizer/getters/labeled_event_recorder.go:291-301 | the counting map of a correlator run is that of a run of the counting stage alone |
| Correlator.LruRefinement | cr-synchronizer/getters/labeled_event_recorder.go:291-301 | in a run whose distinct keys fit the caches every call returns exactly what it returns on unbounded maps |
| Correlator.SpamBound | cr-synchronizer/getters/labeled_event_recorder.go:441-456 | on maps that never forget, in any window of a run the events forwarded for one object number at most burst + qps * T |
| CorrelatorRuns.CachedSpamBound | cr-synchronizer/getters/labeled_event_recorder.go:291-301 | the same for what EventCorrelate returns on its bounded caches, when nothing is evicted from the spam cache, whatever the others evict |
| CorrelatorRuns.CachedDefaultSpamBound | cr-synchronizer/getters/labeled_event_recorder.go:370-399 | with default options that is 25 plus one per 300 seconds |
| CorrelatorRuns.SkippedIff | cr-synchronizer/getters/labeled_event_recorder.go:291-301 | when nothing is evicted from the spam cache, EventCorrelate skips an event exactly when forwarding it would put some window of calls for its object that ends with it over burst + qps * T |
| CorrelatorRuns.DefaultSkippedIff | cr-synchronizer/getters/labeled_event_recorder.go:370-399 | with default options: exactly when it would be one more than 25 and one per 300 seconds |
| CorrelatorRuns.FirstDefaultBurst | cr-synchronizer/getters/labeled_event_recorder.go:370-399 | with default options the first 25 events of an object are forwarded, at whatever pace |
| CorrelatorRuns.DefaultOnset | cr-synchronizer/getters/labeled_event_recorder.go:370-399 | with default options, of similar events at most 600 seconds apart nine are forwarded in their own form and later ones as combined events |
| CorrelatorRuns.CachedOnset | cr-synchronizer/getters/labeled_event_recorder.go:291-301 | of similar calls with distinct messages and small gaps the correlator forwards the first maxEvents - 1 in their own form and every later one as a combined event, unless it skips them |
| CorrelatorRuns.CachedSoundness | cr-synchronizer/getters/labeled_event_recorder.go:291-301 | whatever is evicted, an event is forwarded in another form only at the end of an unbroken chain of maxEvents distinct messages, and then as the combined event |
| Recorder.RecordEvent | cr-synchronizer/getters/labeled_event_recorder.go:162-192 | one call, or a patch that found nothing followed by a create; the cache is told exactly on success; every reply but a transport error and an unexpected object ends the retries |
| Recorder.Deliver | cr-synchronizer/getters/labeled_event_recorder.go:313-333 | for any cancellation and any sink, also one that stores and answers anything: at most 12 attempts and 24 calls; each call but the last failed on the way or was a patch that found nothing; the last one succeeded, was refused or could not be made, unless it belongs to the twelfth attempt or the recorder is shut down |
| Recorder.RecordToSink | cr-synchronizer/getters/labeled_event_recorder.go:303-334 | a skipped event makes no call; any other is delivered as above; UpdateState runs exactly when a write succeeded |
| StoredCounts.RespondedIsCounted | cr-synchronizer/getters/labeled_event_recorder.go:162-175 | a sink call stores nothing but the full count, even if the answer is lost, lowers no count, even after an expiry, and touches no event that was there at first |
| SinkAgreement.RecorderCounts | cr-synchronizer/getters/labeled_event_recorder.go:250-301 | over every run against a sink that may hold other events at first, each event carries the number of observations of its key, counting skipped events and failed writes |
| SinkAgreement.WriteAgrees | cr-synchronizer/getters/labeled_event_recorder.go:162-192 | a successful write leaves the stored count equal to the number of observations of the key, with the name and first timestamp of the first of them and the message and last timestamp of the last, where not blank |
| SinkAgreement.StoredNeverDrops | cr-synchronizer/getters/labeled_event_recorder.go:162-192 | no sink call of a run lowers a stored count |
| SinkAgreement.StoredBelowCached | cr-synchronizer/getters/labeled_event_recorder.go:239-283 | of the events that were not there at first, a stored count never exceeds the cached count for that name |
| SinkAgreement.FirstStaysUntouched | cr-synchronizer/getters/labeled_event_recorder.go:162-192 | an event that was there at first stays as it was, until it expires |
| Recording.StartRecordingToSink | cr-synchronizer/getters/labeled_event_recorder.go:479-485 | feeding events one by one to recordToSink makes a run: each turn does what it promises on the caches and the store its predecessors left, and caches and store end as the run says |
| Recording.RecordingAgrees | cr-synchronizer/getters/labeled_event_recorder.go:303-334 | so a recording with fitting keys, into a sink that held other events at first, leaves at each successful write the stored count equal to the number of observations |
| SinkAgreement.CachedRunIsRun | cr-synchronizer/getters/labeled_event_recorder.go:303-334 | the above holds for the bounded caches when the keys fit them |
| OwnerRef.UpdateWithRetries | cr-synchronizer/getters/deploymentGenerator.go:290-318 | the retry loop computes the recursive trace of its attempts, at most ten |
| OwnerRef.SetOwnerRef | cr-synchronizer/getters/deploymentGenerator.go:257-325 | outcome, final server and attempts as a function of the world, of which the following rows speak |
| OwnerRef.NoLostUpdate | cr-synchronizer/getters/deploymentGenerator.go:257-325 | against any other writers and whatever the outcome, at most ten updates are made and at most one, the last, takes effect, even if its reply is lost, and it changes only the owners of the latest state; when the owner is set, the owners are the one reference to the deployment by its name and uid; the resource is left alone when owned or without a deployment |
| OwnerRef.LeftAloneIff | cr-synchronizer/getters/deploymentGenerator.go:257-289 | a found resource is left alone exactly when it has owners, and else when the deployment cannot be found |
| OwnerRef.UndisturbedSets | cr-synchronizer/getters/deploymentGenerator.go:257-325 | undisturbed, the owner is set at the first attempt |
| OwnerRef.ReplacesIff | cr-synchronizer/getters/deploymentGenerator.go:265-300 | owners of others are replaced exactly when the resource is unowned at the check and owned at the read of the turn that takes effect, by the other writers and failures alone |
| OwnerRef.LaterOwnersAreReplaced | cr-synchronizer/getters/deploymentGenerator.go:265-300 | for one other writer: exactly when it acts before one of the three calls after the check |
| OwnerRef.UnownedUntilSet | cr-synchronizer/getters/deploymentGenerator.go:291-300 | with writers that never set owners every update starts from an unowned resource |
| OwnerRef.SetsIff | cr-synchronizer/getters/deploymentGenerator.go:290-318 | against any other writers the owner is set exactly when some turn among ten, after conflicts only, meets no write between its calls and no failure |
| OwnerRef.ExhaustedIff | cr-synchronizer/getters/deploymentGenerator.go:290-321 | the process exits after ten conflicts exactly when every one of the ten turns conflicts |
| OwnerRef.ContentionExits | cr-synchronizer/getters/deploymentGenerator.go:291-321 | an example: a writer before every update |
| Watcher.LosslessFifo | cr-synchronizer/getters/deploymentGenerator.go:80-126 | in every interleaving received, buffered and pending objects of a channel are, in order, exactly those looked up for its name while it was registered |
| Watcher.LookupsFollowStream | cr-synchronizer/getters/deploymentGenerator.go:88-110 | the dispatcher looks up the objects of the stream in order and skips none |
| Watcher.StepsDecrease | cr-synchronizer/getters/deploymentGenerator.go:80-126 | every dispatcher and waiter step decreases one measure |
| Watcher.RunsAreBounded | cr-synchronizer/getters/deploymentGenerator.go:80-126 | a run has at most five steps per watch event, one per registration and one more, beyond the registrations |
| Watcher.SomeStepIsEnabled | cr-synchronizer/getters/deploymentGenerator.go:80-126 | unless the dispatcher has exited or is stuck, it can make a step, or the waiter of the channel it sends to can |
| Watcher.StuckForever | cr-synchronizer/getters/deploymentGenerator.go:103-106 | a stuck dispatcher never moves again, and no channel registered later is given anything |
| Watcher.StuckIff | cr-synchronizer/getters/deploymentGenerator.go:103-106 | the pending object can never be delivered exactly when its channel is full and its waiter has left its loop |
| Generate.RunInvariant | cr-synchronizer/getters/deploymentGenerator.go:53-78 | at every moment one watcher serves the type, opened once, and the handlers are exactly those of the running waiter |
| Generate.CompletionMeansReady | cr-synchronizer/getters/deploymentGenerator.go:223-255 | if Generate returns, every name was applied in order and before the first waiter registered, each waiter last received an object of its own name in phase Updated and its call of setOwnerRef for that name left the resource owned, by the deployment if it set the owner, or found no deployment, one watch was opened, and no handler is left |
| GenerateOutcomes.ReturnsIff | cr-synchronizer/getters/deploymentGenerator.go:357-384 | some schedule lets Generate return exactly when the stream has a ready object of each name, in the order of the list |
| GenerateOutcomes.SticksIff | cr-synchronizer/getters/deploymentGenerator.go:103-106 | some schedule sticks the dispatcher exactly when the stream has ready objects up to some name, in order, and then two more of that name |
| GenerateOutcomes.WaiterReturnsIff | cr-synchronizer/getters/deploymentGenerator.go:357-384 | from any reachable state in which a waiter has its watcher, Generate can return exactly when the objects not yet looked up are enough for the remaining names |
| GenerateOutcomes.SilentWatcherIsFinal | cr-synchronizer/getters/deploymentGenerator.go:357-384 | it never does once a waiter starts on an exited or stuck dispatcher |
| GenerateOutcomes.EarlyLeaverSticksWatcher | cr-synchronizer/getters/deploymentGenerator.go:357-384 | a stream with both resources ready in order on which the dispatcher gets stuck |
| GenerateProgress.NoStreamIsEnough | cr-synchronizer/getters/deploymentGenerator.go:101-108 | on every stream some schedule without exit or stop leaves a generator with names unable to return |
| GenerateProgress.AlwaysCanReturnIff | cr-synchronizer/getters/deploymentGenerator.go:101-108 | a generator that nothing forces to end can always still return exactly when it has no names |
| GenerateProgress.ReadyWaiterProgresses | cr-synchronizer/getters/deploymentGenerator.go:357-384 | a waiter in its loop with a ready object before it keeps one until it begins setOwnerRef, the steps until then are bounded, and one is always enabled, unless it holds an invalid configuration |
| GenerateProgress.InvalidIsFinal | cr-synchronizer/getters/deploymentGenerator.go:334-346 | once a waiter holds an object in phase InvalidConfiguration no run from there returns |
| TokenListing.CollectMatching | core-bootstrap/scripts/consul/consul_utils.go:355-375 | the accessors of the well-formed entries that carry the policy, in list order |
| TokenListing.PlanCleanup | core-bootstrap/scripts/consul/consul_utils.go:377-398 | the first match is kept and all others, no more, are to be deleted |
| TokenListing.MatchingIsExact | core-bootstrap/scripts/consul/consul_utils.go:355-375 | the matches are exactly the carrying entries, each once and in order, whatever is malformed |
| TokenListing.NothingKeptIff | core-bootstrap/scripts/consul/consul_utils.go:355-398 | with non-empty accessors, "" is answered exactly when no entry carries the policy, whatever is malformed |
| Consul.EnsurePoliciesInPlace | core-bootstrap/scripts/consul/consul_utils.go:242-253 | the loop is the recursive sequence of loads and writes, stopping at the first error |
| Consul.CheckRequiredPoliciesOnToken | core-bootstrap/scripts/consul/consul_utils.go:284-312 | the token is kept exactly when every required name is on it |
| Consul.CleanupDuplicateTokens | core-bootstrap/scripts/consul/consul_utils.go:340-399 | what the deletions leave behind, each of which may fail |
| Consul.CheckAndCreateConsulPoliciesAndToken | core-bootstrap/scripts/consul/consul_utils.go:234-282 | result and new world as a function of the old world and the faults |
| ConsulRuns.ReconciledMeansReady | core-bootstrap/scripts/consul/consul_utils.go:234-282 | without an error every required policy is in place and the secret holds a live token with all of them, on both paths and for any marker policy |
| ConsulRuns.SucceedsIff | core-bootstrap/scripts/consul/consul_utils.go:234-282 | for any faults: a run succeeds exactly when the secret is readable, every policy is loaded (or answered 403 and really missing) and written, the token of the secret, if any, is known and shown, and, unless it carries all policies, the tokens are listed, one is put and the secret is saved |
| ConsulRuns.CleanupLeaves | core-bootstrap/scripts/consul/consul_utils.go:384-390 | the clean-up leaves exactly the tokens that are no later carrier or whose deletion had no effect; a failed deletion stops none of the later ones |
| ConsulRuns.SettledRunChangesNothing | core-bootstrap/scripts/consul/consul_utils.go:255-268 | with the token in order a further run changes no token and not the secret, whatever fails |
| ConsulRuns.RunKeepsCarrier | core-bootstrap/scripts/consul/consul_utils.go:270-281 | while a token carries the marker policy no run, failed or not, creates a token or adds a carrier |
| ConsulRuns.Convergence | core-bootstrap/scripts/consul/consul_utils.go:234-282 | after a success no sequence of further runs and losses of the secret creates a token or adds a carrier |
| ConsulRuns.StaleStaysStale | core-bootstrap/scripts/consul/consul_utils.go:284-312 | with an unknown token in the secret every run fails and changes neither tokens nor secret |
| ConsulRuns.AnsweredRunSucceedsIff | core-bootstrap/scripts/consul/consul_utils.go:234-282 | an answered run succeeds exactly when the secret is readable and its token, if any, is known |
| ConsulRuns.StrandsIff | core-bootstrap/scripts/consul/consul_utils.go:270-279 | from a live token some faults leave the secret stale exactly when the token lacks a required policy and is a carrier of the marker policy other than the first |
| ConsulRuns.InterruptedRunStrandsSecret | core-bootstrap/scripts/consul/consul_utils.go:270-279 | an example with two policies and two tokens |
| Maas.GetExistingUsername | core-bootstrap/scripts/maas/maas_scripts.go:205-221 | "" without a secret, an error without an answer or a username |
| Maas.MaasAgentCreateClient | core-bootstrap/scripts/maas/maas_scripts.go:97-175 | makes exactly the steps of the protocol; an enabled run succeeds exactly when the secret can be read and names a client already, or every further request is answered, and then the secret and MaaS hold the new credentials; a disabled one stores the stub; keeps the invariant; touches no other client |
| Maas.StopSafe | core-bootstrap/scripts/maas/maas_scripts.go:97-175 | over any sequence of runs stopped anywhere, a secret that names a client holds its registered password at every moment |
| MaasOverlap.SafeIffClashFree | core-bootstrap/scripts/maas/maas_scripts.go:133-168 | for any number of overlapping runs stopped anywhere, the credentials are safe at every moment exactly when no store, delete or post clashes with the moves before it |
| MaasOverlap.OverlapIsUnsafe | core-bootstrap/scripts/maas/maas_scripts.go:133-168 | two overlapping runs can leave an unregistered password in the secret |
| Migration.SelectPair | cr-synchronizer/getters/genericGetter.go:92-108 | a pair is selected iff one is listed, it is the last one in loop order, and its v0 is the only predecessor of its v1 |
| Migration.CheckDeploymentStatus | cr-synchronizer/getters/genericGetter.go:179-207 | at most 30 fetches; ready exactly when some fetch within 300 seconds, before any failed one, sees the deployment available, and gives up only when time is over or it is cancelled |
| Migration.V1DeploymentAndHpaMigration | cr-synchronizer/getters/genericGetter.go:83-177 | exactly when v1 becomes available in time for an unmanaged v0: v0 is deleted, then the autoscaler if there is one; it ends normally exactly when all that is answered |
| Migration.SelectableIff | cr-synchronizer/getters/genericGetter.go:92-108 | some order of the list selects a deployment as the successor exactly when it has a predecessor in the list |
| Migration.OrderIsIrrelevantIff | cr-synchronizer/getters/genericGetter.go:92-108 | the selected name is the same for every order exactly when all listed pairs have successors of one name |
| Migration.OrderDecides | cr-synchronizer/getters/genericGetter.go:95-103 | an example with three generations |

## Left out

- Recorder.Sink: stores events by name alone; one namespace is assumed.
- EventLogger.PatchFor: the patch is its three blanked fields; JSON and merge-patch errors are not modelled.
- Correlator.EventCorrelator.EventCorrelate: a nil event is not modelled, since recordToSink never passes one; nor are the locks, since events arrive one at a time.
- SpamFilter.Filter: the limiter is kept by value in its cache entry, the only place that refers to it, and computes with real numbers instead of floats; an infinite rate is not modelled.
- Correlator.Options: negative cache and burst sizes are not modelled.
- Events.EventKey: that distinct events have distinct keys is assumed where stated, not proved, because the parts are joined without a separator.
- Watcher.Enabled: locked sections and channel operations are single steps; that handling an object ends is taken for granted in the statement that some step is enabled.
- Generate.Enabled: `log.Fatal`, timeouts, errors of the API, and the panic on a resource without labels are one Exit step, possible anywhere.
- Generate.CompletionMeansReady: one generator per resource type, as `createKnownGeneratorManager` builds them; two types share nothing but the map of watchers.
- Consul.Cleanup: a 404 to the token listing, which would dereference a nil response, is not modelled.
- Consul.PutPolicy: an update is found by name and id together, which is the same without other writers.
- Migration.World: a nil autoscaler without an error counts as missing.
- `GenericWaiter`, `sendEvent`, `setEventReceiver`, `processResourcesForLabel`: polling and glue.
- `watch.Broadcaster`, logging, JSON, HTTP and Kubernetes clients, deep copies, generated clients: library or generated code.
- `sendMaaSConfig`, `indent`, dbaas, control plane and static gateway scripts, the task manager, password generation, charts and shell scripts: input and output, or easy.
