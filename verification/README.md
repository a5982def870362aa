# billow, verified

billow is a subscription engine: plans, subscriptions, metered usage and payment-provider webhooks behind
one `Manager`. Its speed comes from parts that claim to agree with something simpler: indexes over a map,
256 shards over one store, a cache over a store, a sweeper over a log, queues over a stream of events, pages
over a list. This project models those parts in Dafny and proves how far the claims hold: for all inputs, all
runs and, where the code runs concurrently, all interleavings of its lock regions or steps.

`dafny verify dfyconfig.toml` checks everything.

## What is modelled

* **Subscription store** (`SubscriptionIndex`, `SubscriptionStores`). The two indexes are documented with an
  "if and only if" (store/memory/memory.go:87-90). The code does not keep it for all callers. Soundness (no entry
  dangles or lies) and the full equivalence are each proved to survive a write exactly when a guard the caller
  can check holds, and over every history exactly when every write met its guard.
* **Sharded store** (`ShardedStores`, `ShardedInterleaving`, `ShardedLinearizability`, `ShardedHistory`,
  `ShardedSafety`, `ShardedProviders`, `ShardedReads`, `ShardedCalls`, `ShardedListings`, `ShardedProgress`,
  `ShardedAnomalies`).
  Called sequentially it refines the single-lock store without any condition. Under concurrency it is a step
  system with an explicit table of reader and writer locks. With one write in flight per subscription id its
  writes are linearizable to the single-lock store, whoever uses which provider id; from that and the
  index theorem follow at most one active record per subscriber in every state and an exact active index at
  rest. With one write in flight per provider id too, the provider index follows as well. Reads need not fit into
  one order with the writes. For each kind of read it is proved what it returns and exactly when that was right at
  an instant, and for a whole run that instants at which the reads were right, and only those, put its calls in an
  order that explains it. Deadlock freedom and completion hold for all callers.
* **Lifecycle** (`Lifecycle`, `LifecycleEffects`, `LifecycleRaces`, `Managers`). The manager's calls and the webhook
  events are one state machine over that store; the class methods are proved to take its steps, and what each step
  leaves in a record is stated field by field. A call loads, edits and saves without holding a lock, so the calls are
  interleaved as well: what survives any race, and when a run is as if the calls had come one at a time.
* **Usage** (`UsageLog`, `UsageStores`, `Metering`). The nested usage index stands for a flat log; 64-bit
  sums wrap around; limits are enforced over whole runs.
* **Reporting** (`ReportProtocol`, `UsageReporters`, `SweepRefinement`). Record, sweep, refusal, acceptance,
  mark, lost mark and crash are steps; ledgers that no step reads count what the gateway took. The sweeper's loop is
  proved against its own contract, and that contract is shown to be a run of the protocol.
* **Dispatch and registration** (`DispatchPool`, `HandlerRegistry`). Bounded queues with one worker each, and
  the copy-on-write compare-and-swap loop.
* **Pagination** (`ByteOrder`, `Base64Cursor`, `Pagination`, `PaginationUnderChange`, `SubscriptionPages`).
  In-place insertion sort, cursors, and what whole traversals return on a fixed store and on one that changes
  between calls.
* **Plan cache** (`PlanCaches`, `PlanCatalogs`, `PlanCacheRaces`). The cache cannot be noticed while calls run
  one at a time; with interleaved calls the exact remaining guarantees are proved.
* **Ids** (`UuidV7`). Layout, recoverable timestamp and order of version 7 UUIDs (section 5.7 of RFC 9562).

Text is a sequence of bytes, an instant a whole number of nanoseconds. Clock readings, generated ids, random
bytes, the hash of the shards and queues, calendar arithmetic for months, and every answer of the gateway are
parameters, so each result holds for all of them.

## Where code and documentation differ

* store/memory/memory.go:87-90 promises the index equivalences outright. They fail after pausing one subscription,
  subscribing again and resuming the first (`SubscriptionIndex.ResumeBreaksExact`, `Lifecycle.ResumeAllowsTwo`).
* plan.go:79-81 calls the cache always consistent with the store. A read that loses a race against an update or a
  delete leaves the old plan in it (`PlanCacheRaces.LateReadIsStale`, `PlanCacheRaces.LateReadOutlivesDelete`).
* `RecordUsage` with a direct report never marks the record, so the sweeper reports it again
  (`ReportProtocol.ExactlyOnce`).
* The manager's calls load a record and save an edited copy without a lock (subscriber.go:139-259). A pause that
  races a cancellation can write the record back without it (`LifecycleRaces.PauseUndoesCancel`).
* A cursor whose item was deleted starts over with the first page
  (`PaginationUnderChange.LostCursorRestarts`); a one-item page ending in an empty id looks like the last one
  (`Pagination.StopsShort`).
* `ListUnreportedUsage` with a limit that is not positive still returns one record
  (`UsageStores.UsageStore.ListUnreportedUsage`).

## Model

| member | source | states |
|---|---|---|
| SubscriptionIndex.ExactIsSoundAndComplete | store/memory/memory.go:87-90 | the documented equivalences are soundness of every entry together with completeness for every record |
| SubscriptionIndex.SoundStep | store/memory/memory.go:116-249 | a save, delete or create keeps every index entry pointing at a stored record with its key, active where it must be, if and only if its guard holds beforehand |
| SubscriptionIndex.ExactStep | store/memory/memory.go:87-150 | a write keeps the documented equivalences if and only if nobody else owns the provider id, the subscriber has no other active record, an active record stays with its subscriber and a create reuses no indexed id |
| SubscriptionIndex.DeleteExact | store/memory/memory.go:208-224 | a delete always keeps the equivalences |
| SubscriptionIndex.RefusedExactly | store/memory/memory.go:208-238 | a delete is refused exactly if the id is unknown and a create exactly if the active lookup finds something; a refused write changes nothing |
| SubscriptionIndex.ActiveStaysFound | store/memory/memory.go:131-144 | from every store, sound or not, over every history: a subscriber's active entry and what is found through it stay until a write names the record or leaves another record of the subscriber active |
| SubscriptionIndex.ActiveEntryExactly | store/memory/memory.go:131-249 | while entries stay sound an accepted write gives the subscriber whose record it leaves active that entry, takes away an entry that named the record otherwise, and touches no other |
| SubscriptionIndex.ProviderEntryExactly | store/memory/memory.go:122-129 | in every store an accepted write gives a provider id it brings to its record, a save or delete of a record that carried the id takes the entry away whomever it names, and no other entry changes |
| SubscriptionIndex.RunSound | store/memory/memory.go:116-249 | over every history all states are sound exactly when every write met its guard |
| SubscriptionIndex.RunExact | store/memory/memory.go:84-249 | over every history the equivalences hold throughout exactly when every write met its guard |
| SubscriptionIndex.LookupsScan | store/memory/memory.go:164-185 | the indexed lookups answer every query as a linear scan would if and only if the store is exact, in every store a history leads to, dangling entries included |
| SubscriptionIndex.SoundLookups | store/memory/memory.go:164-185 | in a sound store no lookup dereferences a missing record, and the active lookup returns an active or trialing record of that subscriber |
| SubscriptionIndex.ResumeBreaksExact | store/memory/memory.go:87-90 | pausing one record, creating another and resuming the first breaks the equivalence; canceling the first then hides the second |
| SubscriptionStores.SubscriptionStore.constructor | store/memory/memory.go:105-111 | a new store is empty and exact |
| SubscriptionStores.SubscriptionStore.SaveSubscription | store/memory/memory.go:116-150 | the three maps afterwards are those of the abstract save; ids stay keys |
| SubscriptionIndex.LastWriteWins | store/memory/memory.go:152-161 | reading a record by id gives what the last accepted write of it left, over every history of saves, deletes and creates |
| SubscriptionStores.SubscriptionStore.GetSubscriptionByProviderID | store/memory/memory.go:164-173 | the record the provider index names; a dangling entry is a crash |
| SubscriptionStores.SubscriptionStore.GetActiveSubscription | store/memory/memory.go:176-185 | the record the active index names; a dangling entry is a crash |
| SubscriptionStores.SubscriptionStore.ListSubscriptions | store/memory/memory.go:187-205 | every stored record whose subscriber, plan and status are those the filter gives, where it gives them, exactly once, whatever the map order |
| SubscriptionStores.SubscriptionStore.DeleteSubscription | store/memory/memory.go:208-224 | reply and maps of the abstract delete; a missing id changes nothing |
| SubscriptionStores.SubscriptionStore.CreateSubscriptionIfNotActive | store/memory/memory.go:230-249 | reply and maps of the abstract create; a subscriber with an indexed active record is refused and nothing changes |
| ShardedStores.UnionPut | store/memory/memory.go:427-467 | writing a record in the shard its hash selects keeps every record in its shard and does the same to the union of shards |
| ShardedStores.UnionRemove | store/memory/memory.go:528-553 | removing a record from its shard removes it from the union |
| ShardedStores.ScanShard | store/memory/memory.go:508-522 | scanning one more shard adds exactly that shard's matches to the listing |
| ShardedStores.ShardedSubscriptionStore.constructor | store/memory/memory.go:415-424 | the new shards together are the empty store |
| ShardedStores.ShardedSubscriptionStore.SaveSubscription | store/memory/memory.go:434-467 | does to the union of shards and both indexes what the single-lock save does |
| ShardedStores.ShardedSubscriptionStore.GetSubscription | store/memory/memory.go:469-479 | one shard suffices to find the record of an id in the union |
| ShardedStores.ShardedSubscriptionStore.GetSubscriptionByProviderID | store/memory/memory.go:482-490 | answers as the single-lock lookup, except that a dangling entry reads as missing |
| ShardedStores.ShardedSubscriptionStore.GetActiveSubscription | store/memory/memory.go:493-501 | likewise for the active index |
| ShardedStores.ShardedSubscriptionStore.ListSubscriptions | store/memory/memory.go:504-525 | every record of the union whose subscriber, plan and status are those the filter gives exactly once |
| ShardedStores.ShardedSubscriptionStore.DeleteSubscription | store/memory/memory.go:528-553 | reply and state of the single-lock delete |
| ShardedStores.ShardedSubscriptionStore.CreateSubscriptionIfNotActive | store/memory/memory.go:558-583 | reply and state of the single-lock create |
| ShardedStores.Lockstep | store/memory/memory.go:434-583 | driven by the same writes from equal states both stores give the same replies and stay equal, without any condition on the writes |
| ShardedInterleaving.SaneRun | store/memory/memory.go:434-583 | in every interleaving, whatever calls are made, the lock tables agree with where the calls are and no lock is shared with a writer, every returned write is logged once with its reply, and every record sits in the shard its hash selects under its own id |
| ShardedInterleaving.MutualExclusion | store/memory/memory.go:399-411 | a call holding a lock for writing is the only one holding it |
| ShardedLinearizability.EffectStep | store/memory/memory.go:434-583 | the last index update of a write is the moment the abstract store takes the whole write |
| ShardedLinearizability.RegionPasses | store/memory/memory.go:434-583 | the regions of a write before its last index update leave the order of effects alone, a create's check under the active-index lock stays good until it commits, and a write refused on the way is refused as the abstract store does |
| ShardedLinearizability.LinearRun | store/memory/memory.go:434-583 | with one write in flight per id, shards and active index differ from the abstract store only by the writes still between their regions |
| ShardedLinearizability.AtRest | store/memory/memory.go:427-467 | in every interleaving records sit in the shards their hash selects; with one write in flight per id the active index is always that of the single-lock store after the logged order, and with no write in flight so is the union of shards |
| ShardedHistory.RealTime | store/memory/memory.go:434-583 | in every interleaving a write that has returned takes effect before every write that starts later |
| ShardedCalls.Linearizable | store/memory/memory.go:427-583 | with one write in flight per id the writes of every interleaving fit one order that respects real time and in which the single-lock store gives every reply the callers got |
| ShardedSafety.ReadyKeepsActive | store/memory/memory.go:446-466 | a save that activates nothing, a delete or a create of a new id keeps the active index exact, whatever the provider index looks like |
| ShardedSafety.SafeRun | store/memory/memory.go:434-583 | when creates bring new ids and saves never make a record active or move an active one, the abstract active index stays exact and every write in flight will meet its guard |
| ShardedSafety.SoundRun | store/memory/memory.go:434-583 | when creates bring new ids and active records stay with their subscribers, whoever is activated, the order of effects keeps every index entry sound |
| ShardedSafety.AtMostOneActive | store/memory/memory.go:434-583 | when creates bring new ids and saves never make a record active or move an active one, in every state of every interleaving a subscriber has at most one active or trialing record across all shards |
| ShardedSafety.QuiescentActive | store/memory/memory.go:89-90 | under the same discipline, whenever no write is in flight the active index satisfies its documented equivalence over all shards |
| ShardedProviders.PidsRun | store/memory/memory.go:446-456 | with one write in flight per record and per provider id, the provider index differs from the abstract one only at provider ids of writes between their regions |
| ShardedProviders.WholeAtRest | store/memory/memory.go:434-583 | then the whole store at rest is the single-lock store after the logged order |
| ShardedProviders.QuiescentExact | store/memory/memory.go:87-90 | if moreover no write brings a provider id another stored record carries, both global indexes satisfy the documented equivalences over all shards whenever no write is in flight |
| ShardedReads.StoredFits | store/memory/memory.go:469-479 | a shard holds what the order of effects holds exactly if no write in flight has already changed the record, and otherwise what such a write is about to make of it |
| ShardedReads.GetByIdExactly | store/memory/memory.go:469-479 | a concurrent read by id answers from one instant, and as the single-lock store would then exactly if no write in flight has already changed the record |
| ShardedReads.FindActiveExactly | store/memory/memory.go:493-501 | when creates bring new ids and active records stay with their subscribers, activations free: a concurrent active lookup reads the index at one instant, where the record was active, and the record at a later one, where the answer fits exactly if the entry is still there and the record settled, or both are gone |
| ShardedReads.FindByProviderExactly | store/memory/memory.go:482-490 | likewise, with one write in flight per provider id, for a lookup by provider id, whose index may run ahead of the order of effects, even if records share provider ids |
| ShardedCalls.CallsLinearize | store/memory/memory.go:427-583 | give every returned read an instant at which it ran: the calls in the order of their instants, a write's being its return, respect real time and explain every answer if and only if each read was right at its own |
| ShardedCalls.RunLinearizes | store/memory/memory.go:427-583 | a run with one write per record in flight is linearizable, reads included, if every returned read was right at some instant while it ran |
| ShardedReads.ByIdLinearize | store/memory/memory.go:469-479 | with reads by id only, the calls in the order of their looks explain the run if and only if no read met a record that a write in flight had already changed |
| ShardedListings.ListExactly | store/memory/memory.go:504-525 | in every interleaving a listing has scanned every shard and contains a record exactly if it matches and its shard held it when that shard was scanned; so a matching record that stays as it is meanwhile is listed |
| ShardedListings.ListFits | store/memory/memory.go:504-525 | in every interleaving a listing is the listing of a given set of records, of one instant or of the order of effects, if and only if no matching record was written on the wrong side of the scan of its shard |
| ShardedListings.ListRight | store/memory/memory.go:504-525 | so it was right at an instant exactly if its scans agree with the order of effects there |
| ShardedProgress.NeverStuck | store/memory/memory.go:434-583 | while a call is unfinished some thread is in a region or waits for a lock nobody holds |
| ShardedProgress.CallsFinish | store/memory/memory.go:434-583 | however the started calls are scheduled, they take at most their total work in steps, and a schedule that cannot go on has finished all of them |
| ShardedAnomalies.TwoSavesDiverge | store/memory/memory.go:434-467 | two concurrent saves of one record can leave it canceled but indexed as active, which no sequential order does |
| ShardedAnomalies.ReadsDoNotLinearize | store/memory/memory.go:434-501 | there is a run with one write per record in flight, a read seeing a cancellation before a create starts that is then refused, that no order of its calls respecting real time explains |
| ShardedAnomalies.FoundInactive | store/memory/memory.go:493-501 | a concurrent active lookup can return a record already canceled |
| Lifecycle.EventEvolves | webhook.go:66-114 | an event keeps identity, subscriber, provider id and trial, never clears a cancellation, never re-enters the trial, and marks the record as its status says |
| Lifecycle.EditEvolves | subscriber.go:139-259 | the same for cancel, pause, resume and plan change |
| Lifecycle.WritesEvolve | subscriber.go:26-259 | whatever an action writes is a new record under a new id or a later version of a stored one |
| Lifecycle.StepKeeps | webhook.go:22-62 | one action with a fresh id keeps the store sound, its records marked as their status says, and every stored record evolving |
| Lifecycle.RunKeeps | subscriber.go:26-259 | in every run entries stay sound, paused means a pause time, canceled a cancellation time, trialing a trial end |
| Lifecycle.RunEvolves | subscriber.go:139-259 | a record stored at some point is there ever after with the same identity, subscriber, provider id and trial; its cancellation mark is never cleared and its trial never re-entered |
| Lifecycle.StepFrame | webhook.go:22-62 | a record changes only by actions that name it, its plan only by a plan change, its period only by a renewal |
| Lifecycle.KeptThrough | subscriber.go:139-259 | over every run likewise: without an action about it a record stays as it was, without a plan change its plan, without a renewal its period |
| Lifecycle.ActiveLookup | subscriber.go:108-117 | after every run what the active lookup returns is active and belongs to the subscriber asked for |
| Lifecycle.SavedActive | webhook.go:66-114 | an inactive record becomes active by a resume, a resumption or renewal event, or a payment after one failed, and by nothing else |
| Lifecycle.StepActiveExact | subscriber.go:196-219 | one action keeps the active index exact if and only if it does not re-activate a record beside another active one, whatever the provider ids are |
| Lifecycle.RunActiveExactly | webhook.go:66-114 | over every run with fresh ids the active index is exact throughout exactly when no action re-activates a record beside another active one |
| Lifecycle.StepExact | subscriber.go:196-219 | one action keeps the index equivalences if and only if it neither re-activates a record beside another active one nor reuses a provider id |
| Lifecycle.RunExactly | webhook.go:66-114 | over every run with fresh ids the equivalences hold throughout exactly when every action met that guard |
| Lifecycle.DuplicateExactly | subscriber.go:69-78 | after a run that re-activated no record beside another active one, whatever provider ids the gateway gave out, a subscription, plan known and gateway willing, is refused as a duplicate exactly when the subscriber has an active or trialing record |
| Lifecycle.ResumeAllowsTwo | subscriber.go:196-219 | without the guard six ordinary calls leave a subscriber with two active subscriptions |
| LifecycleEffects.EventEffect | webhook.go:42-114 | the record the provider index names ends canceled, paused or active with its time, past due, or active from the listed statuses, as the kind of the event says; a renewal sets the period to the payload's seconds; the stamp is renewed if anything is saved, and nothing else changes |
| LifecycleEffects.EventIgnored | webhook.go:42-61 | an event is ignored exactly if its provider id is empty or unknown, and meets a missing record exactly if the entry dangles; either way it changes nothing |
| LifecycleEffects.CallEffect | subscriber.go:139-259 | exactly when a cancel, pause, resume or plan change fails and with which error, that it then changes nothing, and otherwise which status, times and plan it leaves |
| LifecycleEffects.SubscribeEffect | subscriber.go:26-93 | exactly when subscribing fails and with which error; otherwise the new record is the active one found, with the trial and the first period of its plan in days, weeks, months or years |
| LifecycleEffects.CanceledExactly | webhook.go:66-114 | over every run a canceled record is canceled throughout exactly if no action resumes, pauses or renews it or reports a failed payment of it, unless the gateway refuses |
| LifecycleEffects.CanceledStays | subscriber.go:169-219 | so it stays canceled through every run without such an action about it, successful payments included |
| LifecycleEffects.ActiveUndisturbed | subscriber.go:108-117 | over every run, guarded or not, a subscriber's active subscription is found as it is for as long as no call or event is about a subscription of the subscriber |
| LifecycleRaces.AtOnce | subscriber.go:139-219 | a call nothing gets in between of takes the step of the sequential state machine |
| LifecycleRaces.IdentityKept | subscriber.go:139-259 | in every interleaving of loads and saves, however calls on one record race, index entries stay sound, records are marked as their status says, and stored records keep id, subscriber, provider id and trial |
| LifecycleRaces.SaveExactly | subscriber.go:154-163 | a save writes a later version of what is stored exactly if no cancellation meanwhile is missing in the copy loaded and not made by the call, and no trial ended meanwhile is carried on by a call that leaves the status alone |
| LifecycleRaces.RacesExactly | webhook.go:43-57 | over every interleaving cancellation marks are never cleared and trials never re-entered if and only if every save meets that condition |
| LifecycleRaces.AloneFindsLoaded | subscriber.go:139-259 | with one call per record in flight every save finds the record its call loaded |
| LifecycleRaces.AloneEvolve | subscriber.go:139-259 | with one call per record in flight no cancellation mark is ever cleared and no trial re-entered |
| LifecycleRaces.Serializable | webhook.go:22-62 | if saves find what was loaded and webhooks' provider ids still lead to their records, the interleaved calls leave the store, and tell every caller, what the same calls do one at a time in the order in which they end |
| LifecycleRaces.AloneSerializable | subscriber.go:26-259 | for that it is enough that one call per record is in flight and the gateway assigns unused provider ids |
| LifecycleRaces.PauseUndoesCancel | subscriber.go:169-193 | a pause that loaded the record before a cancellation saved it writes back a copy without the cancellation |
| Managers.Manager.Subscribe | subscriber.go:26-93 | takes exactly the subscribe step of the state machine, outcome included |
| Managers.Manager.Cancel | subscriber.go:139-166 | takes exactly the cancel step; at period end the status is left alone |
| Managers.Manager.Pause | subscriber.go:169-193 | takes exactly the pause step |
| Managers.Manager.Resume | subscriber.go:196-219 | takes exactly the resume step |
| Managers.Manager.ChangePlan | subscriber.go:228-259 | takes exactly the plan-change step, the new plan looked up before the gateway is called |
| Managers.Manager.HandleWebhook | webhook.go:22-62 | takes exactly the webhook step; unknown records and events without effect are not saved |
| UsageLog.SumOrder | store/memory/memory.go:292-310 | a sum does not depend on the order of its records |
| UsageLog.UsageIsSum | store/memory/memory.go:292-310 | the fold over the flat log is the sum of the records selected by bucket and window |
| UsageLog.WindowsAdd | store/memory/memory.go:290-310 | totals over adjacent half-open windows add up |
| UsageLog.MarkKeepsUsage | store/memory/memory.go:357-371 | marking a record as reported changes no total |
| UsageLog.UsageAppend | store/memory/memory.go:279-310 | a new record adds its quantity to the total of its own subscription and metric in the windows that begin no later and end after its instant, and to no other |
| UsageLog.UsageFromListing | store/memory/memory.go:292-331 | a metric's total is the sum of the listed records of the subscription that carry the metric, in whatever order they were listed |
| UsageStores.UsageStore.SaveUsageRecord | store/memory/memory.go:279-288 | the nested index then stands for the log with the record appended |
| UsageStores.UsageStore.SumUsage | store/memory/memory.go:292-310 | the 64-bit value of the total over the whole log, though one bucket is scanned |
| UsageStores.UsageStore.ListUsageRecords | store/memory/memory.go:314-331 | every record of the subscription from the first instant up to but not including the last exactly once |
| UsageStores.UsageStore.ListUnreportedUsage | store/memory/memory.go:335-353 | unreported records of the log, none twice, as many as there are up to the limit, and up to one when the limit is not positive |
| UsageStores.UsageStore.MarkUsageReported | store/memory/memory.go:357-371 | marks one record with the id if there is one and leaves the log alone otherwise |
| Metering.VerdictExactly | usage.go:72-104 | a metric that is absent or has limit zero is allowed for every log and amount; for any other the check makes the intended comparison exactly if the total fits 64 bits or wraps around to a value on the same side of the limit |
| Metering.CapHolds | usage.go:72-104 | a subscriber who records a metric only after a check of the same amount never gets above its limit, whatever else is recorded unchecked or marked, the subscriber's other metrics and periods included, as long as totals fit 64 bits |
| Metering.Meter.RecordUsage | usage.go:26-53 | the record is stored first and stays unreported; the gateway is told only if asked and only for a subscription it knows |
| Metering.Meter.GetCurrentUsage | usage.go:57-66 | the total over the subscription's own current period |
| Metering.Meter.CheckLimit | usage.go:72-104 | unknown subscription and plan are told apart; with both known, an absent or zero limit allows everything and any other is compared with the wrapped total |
| Metering.Meter.CheckLimits | usage.go:118-150 | allows exactly what the single check allows for every metric, whatever the map order, and otherwise reports a refusal a single check would report; metrics without a limit are never refused |
| ReportProtocol.BalanceStep | usage_reporter.go:82-114 | every step keeps what the gateway took in balance with what is marked, lost or about to be marked |
| ReportProtocol.RunSteady | usage_reporter.go:82-114 | in every run a sweep's copies are current and unreported and every acceptance carries its record's own data |
| ReportProtocol.RunBalanced | usage_reporter.go:82-114 | over every run, whatever records count for, what the gateway took in sweeps adds up to what is marked, lost or about to be marked |
| ReportProtocol.AcceptancesAccounted | usage_reporter.go:82-114 | a record is taken once if it is marked, plus once per lost mark, plus once if its mark is still to come |
| ReportProtocol.MarkedWasAccepted | usage_reporter.go:91-112 | a marked record was taken at least once with its own metric, quantity and provider subscription |
| ReportProtocol.CrashLosesNothing | usage_reporter.go:82-114 | a crash at any point of any run loses no record, mark or acceptance, and the next sweep can list whatever is unmarked |
| ReportProtocol.TotalsAgree | usage_reporter.go:82-114 | with no mark lost the accepted totals equal the marked totals per subscription and metric |
| ReportProtocol.ExactlyOnce | usage.go:44-50 | a marked record without lost marks was taken exactly once if and only if it was never reported directly |
| ReportProtocol.SweepStarves | usage_reporter.go:86-97 | a full batch of records without provider id can be listed again and again, and such a sweep changes nothing |
| ReportProtocol.StallExactly | store/memory/memory.go:335-353 | a sweep can pass without reporting anything exactly if a full batch of records without provider id is pending, or nothing reportable is |
| UsageReporters.UsageReporter.constructor | usage_reporter.go:44-61 | the batch is the one given, or 100 |
| UsageReporters.UsageReporter.Sweep | usage_reporter.go:82-114 | lists as many pending records as fit the batch; of those exactly the ones whose subscription is stored with a provider id and whose report was not refused end up marked |
| UsageReporters.TakenTruly | usage_reporter.go:91-104 | every report taken is of a listed record that was not refused and goes to the provider id its subscription is stored with |
| UsageReporters.UsageReporter.SweepPast | usage_reporter.go:82-114 | a sweep with fewer stuck records pending than a batch clears at least the rest of its batch, and leaves the stuck ones |
| UsageReporters.UsageReporter.Run | usage_reporter.go:64-79 | with fewer stuck records than a batch the others are all reported after as many sweeps as the rest of a batch goes into them; with none stuck each sweep clears a full batch, and the final flush alone suffices exactly when the backlog fits one batch |
| SweepRefinement.TakeAndMark | usage_reporter.go:100-112 | an accepted report followed by its mark marks the one record with that id and adds one acceptance |
| SweepRefinement.OneRecord | usage_reporter.go:91-113 | the loop body on one record is a skip, a refusal, or an acceptance with its mark |
| SweepRefinement.SweepIsRun | usage_reporter.go:82-114 | whatever batch is listed and whichever reports are refused, the protocol has a run that makes exactly the acceptances and marks of the code's sweep |
| DispatchPool.NewConfig | dispatch.go:37-55 | given sizes are kept, 16 workers and queues of 256 stand in for others, and every pool is usable |
| DispatchPool.InOrderRun | dispatch.go:59-86 | in every interleaving what was sent to a worker is what it handled, is handling and has queued, in that order |
| DispatchPool.SubscriptionOrder | dispatch.go:59-120 | in every interleaving the events of one provider subscription, whatever their types, are handled in the order sent, none skipped |
| DispatchPool.TypeOrder | dispatch.go:59-120 | so are the events of one type that belong to no subscription |
| DispatchPool.SendWaitsExactly | dispatch.go:15-63 | before closing a send waits exactly while as many events of its worker as the queue is deep are neither handled nor in hand |
| DispatchPool.NothingLost | dispatch.go:59-77 | each event is handled, in hand or queued as often as it was sent, and no queue outgrows its depth |
| DispatchPool.DrainedWhenClosed | dispatch.go:81-86 | when close returns exactly what was sent has been handled |
| DispatchPool.DrainStep | dispatch.go:66-86 | every step but a send brings the end nearer |
| DispatchPool.DrainNeverStuck | dispatch.go:66-86 | until close can return, a worker or the closing goroutine can go on |
| DispatchPool.DispatchSync | dispatch.go:95-106 | handlers run in order up to the first that fails, whose error is returned |
| HandlerRegistry.CopyAndAppend | manager.go:205-218 | the copy has every list of the current map and the handler appended to its own |
| HandlerRegistry.RegisteredOnce | manager.go:205-218 | in every interleaving a returned registration took effect exactly once, an unreturned one not at all, and lists are in the order of successful swaps |
| HandlerRegistry.SnapshotsGrow | dispatch.go:95-106 | a snapshot's handlers are the first handlers of every later snapshot |
| HandlerRegistry.FailureMeansProgress | manager.go:205-218 | a swap fails only if another registration succeeded since the load |
| HandlerRegistry.LoopsEnd | manager.go:205-218 | every step of a loop finishes a registration or brings the next success nearer |
| Base64Cursor.CursorRoundTrip | pagination.go:31-46 | decoding undoes encoding on every byte string, and only the empty id has the empty cursor |
| Base64Cursor.DecodesExactly | pagination.go:37-46 | text decodes exactly if it is made of the URL-safe alphabet and line breaks and its length without line breaks is possible; any other is the empty cursor |
| Base64Cursor.LineBreakIgnored | pagination.go:37-46 | a line break anywhere in a cursor makes no difference |
| Base64Cursor.CursorText | pagination.go:31-33 | a cursor is made of that alphabet alone, without padding |
| Base64Cursor.Vectors | pagination.go:31-33 | the vectors of section 10 of RFC 4648 without padding, and the two characters of the URL-safe alphabet |
| ByteOrder.BelowExactly | pagination.go:179-187 | where two strings first differ the lower one ends or has the smaller byte |
| Pagination.SortByID | pagination.go:179-187 | leaves a sorted permutation in the array |
| Pagination.SortedUnique | pagination.go:179-187 | with distinct ids there is one sorted order, whatever order the store listed in |
| Pagination.ListPage | pagination.go:65-111 | the page is cut from the sorted listing behind the cursor's item; it has at most as many items as asked for, or 20, and exactly as many if it carries a cursor |
| Pagination.PageExactly | pagination.go:66-110 | a page goes on right behind the first item with the cursor's id, or at the beginning if there is none; it has as many items as asked for, or 20, or all that are left, and the last one's id as cursor exactly when some are left over |
| Pagination.Resumes | pagination.go:80-96 | a cursor made of an item resumes right behind it |
| Pagination.TraversalComplete | pagination.go:65-111 | following the cursors of a fixed store returns exactly the sorted listing if and only if it is not cut short by an empty first id with one item per page |
| Pagination.TraversalLength | pagination.go:98-110 | that takes one page if everything fits, and otherwise as many full pages as needed and a last one that is not empty |
| Pagination.TraversalExists | pagination.go:65-111 | following the cursors ends |
| PaginationUnderChange.ChangingComplete | pagination.go:127-170 | under arbitrary changes between calls that leave the cursor's item listed, ids strictly increase over all pages and an item listed throughout is returned exactly once |
| PaginationUnderChange.LostCursorRestarts | pagination.go:84-93 | a cursor whose item is gone gives the first page again |
| PaginationUnderChange.LostCursorRepeats | pagination.go:84-93 | a page goes on beyond its cursor if and only if the cursor's item is listed or everything listed is beyond it |
| SubscriptionPages.ListSubscriptionsPage | pagination.go:127-170 | the page is the one cut from the sorted arrangement of the matching records, of which there is exactly one, so map order does not show; it has at most as many items as asked for, or 20, and exactly as many if it carries a cursor |
| SubscriptionPages.PagesReturnMatches | pagination.go:127-170 | the pages of an unchanged store return every record with the given subscriber, plan and status once and nothing else, unless they hold one record each and the first has the empty id |
| PlanCaches.PlanCache.Get | plancache.go:37-47 | an entry is served up to and including its expiry instant |
| PlanCaches.PlanCache.Set | plancache.go:50-55 | the plan is then served for its id for the lifetime and other ids are unaffected |
| PlanCaches.PlanCache.Delete | plancache.go:58-62 | the id is never served again until set, others are unaffected |
| PlanCatalogs.Catalog.constructor | manager.go:139-147 | no cache for a negative lifetime, five minutes for none given |
| PlanCatalogs.ApplyPatch | plan.go:117-135 | given fields replace the stored ones, all others stay |
| PlanCatalogs.Catalog.CreatePlan | plan.go:37-77 | gateway first, then store, then cache; a failure on the way writes nothing |
| PlanCatalogs.Catalog.GetPlan | manager.go:238-255 | a fresh entry without asking the store, otherwise the stored plan, remembered |
| PlanCatalogs.Catalog.UpdatePlan | plan.go:108-154 | the patched plan in store and cache, or a failure that writes neither |
| PlanCatalogs.Catalog.DeletePlan | plan.go:158-182 | the plan gone from store and cache, or a failure that writes neither |
| PlanCatalogs.CallLeaves | plan.go:37-182 | what a successful call leaves under its id: a create all fields of its input and an active plan, an update the given fields and all others as they were, a delete nothing; other plans stay |
| PlanCatalogs.FailsExactly | plan.go:61-181 | exactly when a call fails and with which error: the gateway is asked before anything is written, about existing plans only if it knows them, and a cached read needs no store |
| PlanCatalogs.RunCoherent | plan.go:69-76 | over every run one at a time each entry, expired or not, is the stored plan, and the store is the one of a manager without cache |
| PlanCatalogs.CacheInvisible | plan.go:79-91 | after any calls, with any readings of the clock, the next call answers as if there had never been a cache, but for reads while the store is down |
| PlanCatalogs.CoherentExactly | plancache.go:37-47 | reads agree with the store at all instants if and only if every entry is the stored plan |
| PlanCatalogs.TermsNeverChange | plan.go:108-154 | when creates use new ids, price, currency, interval, trial, gateway id and creation time of a stored plan never change and only a delete removes it |
| PlanCatalogs.FailureChangesNothing | plan.go:37-182 | a call that fails changes neither store nor cache |
| PlanCatalogs.ReadsLastWrite | plan.go:69-91 | what a successful write answers is what every read answers until the next write of that id, and after a delete the plan is not found |
| PlanCacheRaces.RefusedAtOnce | plan.go:61-181 | a call refused on the way has changed neither store nor cache |
| PlanCacheRaces.ServedOnceHeld | manager.go:238-255 | in every interleaving, foreign writers included, what is served was held by the store for that id earlier and cached no longer than the lifetime ago |
| PlanCacheRaces.SettledExactly | plan.go:137-181 | plan by plan, over every interleaving the cache is throughout right about a plan no call is still to cache or evict, if and only if each time it is cached outdated, or written from outside while cached, another call is still to cache or evict it |
| PlanCacheRaces.QuietAgrees | plan.go:137-181 | it is enough that a writing call has the plan to itself, while any number of reads may share it and other plans are free; then the cache is right about it when no call is working on it |
| PlanCacheRaces.AtOnce | plan.go:69-181 | the steps of a call that nothing comes between do what the call does when calls run one at a time |
| PlanCacheRaces.StaleNoLongerThanTtl | plancache.go:37-55 | once an id is no longer written and calls holding an outdated plan are over, a lifetime later only the stored plan is served |
| PlanCacheRaces.LateReadIsStale | manager.go:246-254 | a read overtaken by an update leaves the old plan in the cache with no call in flight |
| PlanCacheRaces.LateReadOutlivesDelete | manager.go:246-254 | a read overtaken by a delete leaves a plan that no longer exists |
| UuidV7.NewUUIDv7 | manager.go:260-276 | the bytes are stamped in place and printed in the five groups |
| UuidV7.Layout | manager.go:272-275 | version digit 7, variant digit 8, 9, a or b, hyphens where they belong, lower-case hexadecimal digits everywhere else |
| UuidV7.TimestampRecovered | manager.go:265-271 | the millisecond can be read back from the text |
| UuidV7.SameIdExactly | manager.go:260-276 | two ids are equal exactly if their timestamps and their 74 free random bits are |
| UuidV7.OrderedByTime | manager.go:257-276 | for any random bytes ids of different milliseconds are ordered as their times are |
| UuidV7.SortedIsCreationOrder | pagination.go:80-81 | a listing sorted by id, in whatever order the store returned it, is in creation order if each record is created in a later millisecond than the one before |

## Left out

- ShardedCalls.Linearizable: covers the writes, because with reads included not every run has an order (`ShardedAnomalies.ReadsDoNotLinearize`); which runs do is `ShardedCalls`. An order that puts a read behind a write still in flight at the end of that read is not considered there.
- LifecycleRaces.Serializable: the store's operations are atomic steps, as in the single-lock store; the calls are not interleaved inside the regions of the sharded one.
- Lifecycle.StepKeeps: takes months and years from a calendar parameter; how the time library normalises the end of a month is not modelled.
- Metering.Meter.CheckLimit: reads plans from the plan store directly; that the cached read answers the same is `PlanCatalogs.CacheInvisible`.
- UsageReporters.UsageReporter.Run: the timer is a number of sweeps; the 30 second bound on a sweep and its cancellation are not modelled.
- DispatchPool.DrainedWhenClosed: sends end before closing begins, since sending on a closed queue panics in the source.
- ReportProtocol.RunSteady: stored records survive a crash, as a durable store promises; the in-memory one loses them.
- ReportProtocol.SweepStarves: shows that the choice of batch can starve other records; which records map iteration picks is not determined.
- PlanCacheRaces.ServedOnceHeld: the steps of a call are store access and cache access; a failing store read or write is a call that ends early.
- Store errors other than a missing record in the subscription and usage calls: the in-memory stores have none.
- The fallback path of `Subscribe` for stores without an atomic create, documented as racy (subscriber.go:79-91).
- HTTP handling, webhook parsing and signature checks, and the table from provider event names to event types.
- Contexts, cancellation, metrics, error wrapping and message texts.
- The FNV hash: any fixed function into 32 bits will do, with a 64-bit `int` in the source.
- The field-by-field mapping between domain, store and provider records, and sharing of map-valued fields between copies (one record type stands for all three).
- The order in which maps are listed: listings are stated as multisets.
- `ListPlans`, `ListPlansPage` over plans and `GetUsageReport`: the same listing and paging again, with nothing harder in them.
- Conversion of floating-point payload timestamps outside the 64-bit range, which the source language leaves to the platform.
- RWMutex writer preference: the lock table lets either side go first, which allows every order the runtime can produce.
