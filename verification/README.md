# Verification of the KYT screening service

The service screens an address on a chain before money moves: it looks the pair up in a cache with a
time to live, asks a vendor on a miss, turns the answer into an exposure and a decision, and leaves
behind a record, an alert unless the decision is ALLOW, and an audit event. Vendor webhooks
re-classify addresses: a new one deletes the cached verdict, opens an alert and starts a review of the
transactions that were let through. This project models those parts together with the audit emitter,
the alert desk, the threshold reload, the migration runner and the choice of an audit sink, and proves
what holds of them over every run.

What to read first: `Runs.dfy` (what an ALLOW or a BLOCK rests on, and what the cache may change), `Ledger.dfy`
and `Trail.dfy` (alerts and audit events balance against records, and go back to what vendors delivered), `Interleaved.dfy` (calls that overlap), `Audit.dfy`
and `Migrate.dfy`.

| file | what it holds |
|---|---|
| `Text.dfy`, `Seqs.dfy` | the string operations the service relies on; sequences without repetition |
| `Keys.dfy` | the keys joined with colons, and exactly when two of them collide |
| `Decision.dfy` | thresholds, exposure, decision; the class `Thresholds` with its reload |
| `Cache.dfy` | the class `MemoryCache`, with the history of what was done to it as ghost state |
| `Alert.dfy` | the classes `MemoryStore` and `Service`, and overlapping Assign and Close calls |
| `Audit.dfy` | the emitter as a machine of steps, and the classes `Emitter` and `MemorySink` |
| `Screening.dfy` | what Screen, Ingest and a review do to the stores, on values |
| `Services.dfy` | the classes that do it in place, each method proved equal to its value-level description |
| `Runs.dfy` | whole runs, each call one step: what an ALLOW rests on, what caching means |
| `Ledger.dfy` | the books over whole runs: alerts, records, reviews, webhooks, audit events |
| `Trail.dfy` | which deliveries are accepted, which reviews wait, and the delivery or record behind every alert |
| `Interleaved.dfy` | Screen and webhook calls split where they let go of a lock, freely interleaved |
| `Migrate.dfy` | loading, applying and reverting migrations, with a failure at any statement |
| `Kafka.dfy` | the audit sink URL: the in-place broker filter, and parsing against rendering |

A class method that changes state is proved equal to a function of the old state; what each such function
does is stated field by field, with the literal strings and numbers, in lemmas named `...Exactly` and their
kind; and the properties are then proved of those functions and of runs built from them. Times are integers (nanoseconds), with 0
for Go's zero time. The id generator, the clock, the vendor's answer, the outcome of checking a
webhook's signature and body, the table of lower-case letters, and the statement at which a database call fails are inputs of a step, so
every theorem holds for all of them.

## Where the code and its documentation part

The model follows the code.

- The README says a sanctioned verdict is invalidated only by a webhook. The code lets it expire like
  any other, after its own time to live: `Runs.SanctionedServedExactly` gives the exact instant, and
  `Runs.SanctionedExpires` a run without webhooks in which the pair is allowed afterwards.
- The README says verdicts are cached per (address, chain). They are cached under
  `chain + ":" + address`, and `validate` does not refuse a colon in a chain:
  `Cache.CacheAgreesIffSeparated` and `Runs.FaithfulIffSeparated` give the exact condition under which
  the two are the same, and `Runs.ConfusedVerdict` a clean verdict that answers for another address.
- The README documents `UNKNOWN_DECISION` as `manual_review` or `block`. Only the upper-case words
  have an effect: `Decision.LowerCaseBlockIsIgnored`.
- The comment on `Emitter.Close` says that it drains the queue. It does not. If no producer emits any
  more, it loses nothing exactly when the queue is empty at the moment of the call
  (`Audit.CloseDrainsExactlyIfEmpty`); while producers are at work, no state makes it safe
  (`Audit.CloseLosesUnderProducers`), the empty queue included (`Audit.CloseCanLose`).
- A closed alert is meant to stay closed (`ErrAlreadyClosed`). It can be reopened by an Assign that
  read it earlier: `Alert.ClosedIsAbsorbingExactly`, `Alert.OverlapReopens`.
- A webhook is meant to leave no stale verdict in the cache. A Screen call that holds an answer from
  before puts it back: `Interleaved.DeletionIsFinalExactly`, and from the start
  `Interleaved.StaleVerdictReturns`.

## Model

| member | source | states |
|---|---|---|
| `Text.TrimSpaceMeaning` | internal/screen/screen.go:259-273 | trimming gives "" exactly for strings of white space only, which is what validation rejects, is the identity exactly on trimmed strings, and adds no character |
| `Text.TrimSpaceParts` | internal/audit/kafka_sink.go:96 | trimming takes white space only, and only from the two ends |
| `Text.SplitFirst` | internal/audit/kafka_sink.go:93 | splitting takes the parts off in order |
| `Keys.CacheKeyCollision` | internal/screen/memory_cache.go:24 | two pairs share a cache key exactly when they are equal, or one chain extends the other by a colon and the address takes up the rest |
| `Keys.InjectiveIffSeparated` | internal/screen/memory_cache.go:24 | the key tells all pairs over a set of chains apart if and only if no chain of the set extends another by a colon |
| `Keys.ColonFreeChainsAreSeparated` | internal/screen/memory_cache.go:24 | chains without colons meet that condition |
| `Keys.CacheKeyCollides` | internal/screen/memory_cache.go:24 | two concrete pairs share a key, and none of their four fields is blank, which is all that validation asks of them |
| `Keys.SynthesizedEventIdInjective` | internal/webhook/webhook.go:126-128 | the id made for a webhook without one determines vendor, chain, address and exposure when vendor, chain and exposure have no colon; the address may have any |
| `Keys.EventIdsInjectiveIffApart` | internal/webhook/webhook.go:126-133 | for given vendors, chains and exposures and all non-empty addresses, different events get different ids if and only if no "vendor:chain:" starts another and no ":exposure" ends another |
| `Decision.AllowExactly` | internal/decision/decision.go:136-171 | an answer is allowed exactly when the vendor says CLEAN, or says nothing and the score is at least 0 and below both effective thresholds; every decision is one of three; no configuration widens this |
| `Decision.ScoreBands` | internal/decision/decision.go:136-148 | for a score without a vendor exposure: SANCTIONED exactly from the block threshold on, HIGH_RISK exactly from the high-risk one up to it, UNKNOWN exactly when below both and negative, CLEAN exactly when below both and not; a vendor's own exposure stands |
| `Decision.BlockExactly` | internal/decision/decision.go:152-171 | BLOCK exactly for the sanctioned, by name or by score, and for the unknown, by name or by score, when the configuration blocks them |
| `Decision.ReviewExactly` | internal/decision/decision.go:150-190 | MANUAL_REVIEW exactly for high risk, for the unknown when they are not blocked, and for names not known; and always for an unreachable vendor |
| `Decision.SeverityExactly` | internal/decision/decision.go:175-186 | which exposures have which of the four severities |
| `Decision.DecisionMonotone` | internal/decision/decision.go:136-171 | without a vendor exposure, a higher non-negative score is never treated more leniently |
| `Decision.Thresholds.constructor` | internal/decision/decision.go:59-69 | the given globals, an unknown-decision other than the two permitted ones replaced, no overrides |
| `Decision.Thresholds.ReloadFromEnv` | internal/decision/decision.go:72-108 | the in-place scan of the environment computes the reload; what the strings of the environment do to it is in `Decision.ThresholdsFromStrings` and `Decision.GlobalsFromStrings` |
| `Decision.Thresholds.SetChainOverride` | internal/decision/decision.go:111-115 | one row, under the lower-cased chain, and nothing else |
| `Decision.RowIffSet` | internal/decision/decision.go:81-107 | after a reload a chain has a row exactly when some environment string sets one of its fields |
| `Decision.LastOverrideWins` | internal/decision/decision.go:81-107 | a field of a row holds the value of the last string that sets it, and 0 when none does |
| `Decision.ReloadOrderFreeExactly` | internal/decision/decision.go:72-108 | the result is the same for every permutation of the environment if and only if no two override strings disagree on a field once chains are lower-cased |
| `Decision.ReloadIdempotent` | internal/decision/decision.go:72-108 | reloading twice is reloading once, and a reload forgets every override set by hand |
| `Decision.EffectiveThresholds` | internal/decision/decision.go:119-132 | after a reload the thresholds in force for a chain are its last positive overrides, each falling back to the global one by itself |
| `Decision.AssignmentParses` | internal/decision/decision.go:82-107 | a string BLOCK_THRESHOLD_name=number or HIGH_RISK_THRESHOLD_name=number overrides that field of the lower-cased name by that number, and with anything but a number nothing |
| `Decision.OverrideIsAssignment` | internal/decision/decision.go:82-107 | no other string overrides anything |
| `Decision.ThresholdsFromStrings` | internal/decision/decision.go:72-132 | the thresholds in force for a chain after a reload are the numbers of the last strings that name it, field by field, if positive, and the global ones otherwise |
| `Decision.GlobalsFromStrings` | internal/decision/decision.go:75-80 | which variable feeds which global setting, what a value that is not a number does, and when the unknown are blocked |
| `Decision.OverrideTakesEffect` | internal/decision/decision.go:110-132 | an override set by hand holds for every spelling of its chain and for no other, field by field where it is positive |
| `Decision.AtoiExactly` | internal/decision/decision.go:91-94 | a string is read as v exactly when it is an optional sign and a decimal numeral of v, zeros in front allowed, within 64 bits |
| `Decision.DigitsExactly` | internal/decision/decision.go:91-94 | digits are read as n exactly when, without zeros in front, they are the numeral of n |
| `Decision.UnknownDecisionAfterReload` | internal/decision/decision.go:77-80 | unknown exposure is blocked exactly when UNKNOWN_DECISION is BLOCK, or unset and BLOCK before; it is otherwise reviewed and never allowed |
| `Decision.LowerCaseBlockIsIgnored` | README.md:216 | the documented lower-case spelling leads to MANUAL_REVIEW |
| `Cache.GetRefinesHistory` | internal/screen/memory_cache.go:45-73 | for separated chains a lookup finds v exactly when the latest event about that very pair stored v and its time to live has not passed |
| `Cache.ConfusedChains` | internal/screen/memory_cache.go:24 | for any two chains of which one extends the other, a history after which the cache answers for a pair never stored |
| `Cache.CacheAgreesIffSeparated` | internal/screen/memory_cache.go:45-73 | every lookup after every history agrees with it, the instant of expiry included, if and only if no chain in use extends another by a colon |
| `Cache.MemoryCache.constructor` | internal/screen/memory_cache.go:27-34 | an empty cache with an empty history |
| `Cache.MemoryCache.Lookup` | internal/screen/memory_cache.go:45-53 | reads the map against the clock; for separated chains, a hit exactly when the recorded history says so |
| `Cache.MemoryCache.Store` | internal/screen/memory_cache.go:56-65 | one entry with the time to live of its exposure, and the history one event longer |
| `Cache.MemoryCache.Invalidate` | internal/screen/memory_cache.go:68-73 | one key removed, and the history one event longer |
| `Alert.MemoryStore.Insert` | internal/alert/alert.go:180-192 | refuses an empty or known id without change, and otherwise adds to map and order |
| `Alert.MemoryStore.Get` | internal/alert/alert.go:195-200 | the alert under the id, if any |
| `Alert.MemoryStore.List` | internal/alert/alert.go:203-214 | the loop computes the listing whose meaning `Alert.ListsAgree` gives |
| `Alert.MemoryStore.Update` | internal/alert/alert.go:217-225 | replaces a known alert, refuses an unknown one |
| `Alert.Service.Create` | internal/alert/alert.go:82-102 | creates an alert in the store in place; `Alert.CreateExactly` says which |
| `Alert.Service.Assign` | internal/alert/alert.go:122-136 | undisturbed, the read and the write together are one Modify of the store; `Alert.ModifyExactly` says which |
| `Alert.Service.Close` | internal/alert/alert.go:139-159 | the same for closing, keeping the assignee when none is given |
| `Alert.CreateExactly` | internal/alert/alert.go:82-102 | the created alert field by field, under the generator's id and the clock's time, OPEN, unassigned, at the end of the order; refused without change for an empty or known id |
| `Alert.ModifyExactly` | internal/alert/alert.go:122-159 | a missing or closed alert is refused without change; otherwise that alert alone changes, in status, assignee and closing time alone, to IN_REVIEW and the new assignee, or to CLOSED, the time given, and the new assignee if one is named |
| `Alert.FilterJoins` | internal/alert/alert.go:207-212 | a status list keeps the alerts with the status and their order |
| `Alert.ListsAgree` | internal/alert/alert.go:203-214 | the whole list shows every alert once in creation order, a status list is its filter in the same order, and the three status lists partition it |
| `Alert.NextKeepsDesk` | internal/alert/alert.go:122-159 | every step of overlapping calls keeps the index well formed, ClosedAt in line with CLOSED, and every alert's identity |
| `Alert.LifecycleUnderOverlap` | internal/alert/alert.go:122-159 | the same from any state through any interleaving of the read and write halves of Assign and Close |
| `Alert.ClosedIsAbsorbingExactly` | internal/alert/alert.go:122-159 | a closed alert stays closed in every continuation if and only if no Assign in progress read it before |
| `Alert.OverlapReopens` | internal/alert/alert.go:122-159 | an interleaving, from the empty store, that leaves a closed alert which can be reopened |
| `Alert.UninterruptedCallIsModify` | internal/alert/alert.go:122-159 | without interruption the two halves are the service's call, and it succeeds exactly on an alert that is there and not closed |
| `Alert.InsertedAllAppends` | internal/alert/alert.go:180-192 | creating alerts with new ids one after another appends them in order and touches no other alert |
| `Audit.AuditConserves` | internal/audit/audit.go:76-108 | under every interleaving the accepted events are, in order, those answered by the sink, the one in flight and those queued; the sink holds exactly the answered ones that did not fail; the queue keeps within its capacity |
| `Audit.EveryCallAccountedFor` | internal/audit/audit.go:95-114 | Emit calls are emitted, dropped, queued or in flight, and the sum is exact |
| `Audit.ExitIsFinal` | internal/audit/audit.go:89-91 | once the worker is gone the sink never changes, and what is queued stays for ever |
| `Audit.CloseDrainsExactlyIfEmpty` | internal/audit/audit.go:116-120 | from any moment at which the worker runs, if no producer emits any more: no continuation in which the worker exits leaves an accepted event unanswered if and only if the queue is empty at that moment |
| `Audit.CloseLosesUnderProducers` | internal/audit/audit.go:95-120 | from every moment at which the worker runs, whatever the queue holds, some continuation with one more Emit ends with the worker gone and an accepted event unanswered |
| `Audit.DrainedAtExit` | internal/audit/audit.go:76-93 | at the worker's exit what is unanswered is what is queued |
| `Audit.SinkHoldsOffered` | internal/audit/audit.go:76-108 | if no two offered events have one screen id, the sink never holds two with one, and none that was not offered |
| `Audit.AcceptedAsOffered` | internal/audit/audit.go:97-104 | the n-th accepted event is what the n-th accepting call offered, field by field, but that a zero time is replaced by the clock's |
| `Audit.EventsSayWhatWasOffered` | internal/audit/audit.go:76-108 | whatever is queued, being sent or in the sink says what some producer offered, field by field |
| `Audit.CloseCanLose` | internal/audit/audit.go:116-120 | from an empty queue, a run of three steps in which Close loses an event that Emit accepted |
| `Audit.MemorySink.Emit` | internal/audit/audit.go:143-151 | appends, or fails without change |
| `Audit.Emitter.constructor` | internal/audit/audit.go:54-67 | an empty queue of the requested size, 1024 when that is not positive, and no call to account for |
| `Audit.Emitter.Emit` | internal/audit/audit.go:97-108 | is the machine's Emit step, true exactly when there was room; every call so far stays emitted, dropped, queued or in flight; what is enqueued is in `Audit.AcceptedAsOffered` |
| `Audit.Emitter.WorkerTurn` | internal/audit/audit.go:78-91 | a turn of the worker is a receive and an answer of the machine, or an exit |
| `Audit.Emitter.SignalStop` | internal/audit/audit.go:117-118 | is the machine's Stop step |
| `Screening.ValidateExactly` | internal/screen/screen.go:259-273 | a request is refused exactly when one of four fields is blank, the first of them being named |
| `Screening.ReplyComesFrom` | internal/screen/screen.go:144-190 | a reply is a live cache entry word for word, or the vendor's answer with its exposure, derived from the score when the vendor names none, and that exposure's decision, or the fail-safe 0, UNKNOWN, MANUAL_REVIEW of an unreachable vendor |
| `Screening.ScreenLeaves` | internal/screen/screen.go:194-256 | a failed call leaves no record, alert or event; any other leaves one record with the request's and the reply's fields and the clock's time, one event that repeats it, and, unless the reply is ALLOW, one alert with its exposure and that exposure's severity |
| `Screening.IngestExactly` | internal/webhook/webhook.go:115-162 | which deliveries are refused and why; any other is remembered, clears its own pair from the cache, creates one alert of its own content, and, if that succeeds, queues one review of its own address, chain, exposure and transaction |
| `Screening.ReviewIsCompleteAndOrdered` | internal/review/review.go:40-60 | a review appends, by creation time, exactly one alert for each allowed record of the pair, with the record's id, transaction, address and chain, the review's exposure and that exposure's severity, OPEN and of its stamp's time; and touches no other alert |
| `Screening.ListingIsUnique` | internal/screen/screen.go:308-319 | whatever order the map yields, the listing is the same when no two matching records share a creation time |
| `Services.MemoryScreenStore.constructor` | internal/screen/screen.go:282-284 | an empty store |
| `Services.MemoryScreenStore.Put` | internal/screen/screen.go:287-295 | refuses an empty id; otherwise files the record under its id |
| `Services.MemoryScreenStore.ListByAddress` | internal/screen/screen.go:308-319 | for any map order: sorted by creation time, each matching record once and nothing else |
| `Services.SortByTime` | internal/screen/screen.go:317 | a sorted permutation |
| `Services.InsertionSorts` | internal/screen/screen.go:317 | inserting keeps the order by creation time |
| `Services.Service.constructor` | internal/screen/screen.go:98-110 | the parts it is wired from |
| `Services.Service.Screen` | internal/screen/screen.go:134-190 | the in-place call changes the stores and answers as the value-level Screen does, with a cache or without; the vendor is asked exactly when a valid request is not served by the cache; what that Screen does is in `Screening.ReplyComesFrom` and `Screening.ScreenLeaves` |
| `Services.Service.Finish` | internal/screen/screen.go:194-256 | a failed Put changes nothing and is an error; otherwise record, alert unless allowed, audit event and response, of one content |
| `Services.Processor.constructor` | internal/webhook/webhook.go:102-104 | nothing seen, nothing started |
| `Services.Processor.Ingest` | internal/webhook/webhook.go:115-153 | the in-place call does what the value-level Ingest says, and appends its review to those started; what that is, is in `Screening.IngestExactly` |
| `Services.Trigger.constructor` | internal/review/review.go:28-34 | the stores it is wired from |
| `Services.Trigger.TriggerReview` | internal/review/review.go:40-60 | for some listing the store may return, the alert store becomes that review's, whose alerts `Screening.ReviewIsCompleteAndOrdered` gives field by field |
| `Services.Trigger.OpenAlerts` | internal/review/review.go:49-58 | the loop with its skips is the review of the listing |
| `Runs.CacheHitExactly` | internal/screen/screen.go:144-150 | in every run the cache serves a call exactly when some earlier vendor answer under its key is the last traffic about the key and has not expired, and then with that answer's verdict under the thresholds of then; no assumption on clock, thresholds or chains |
| `Runs.AllowExactlyWhenEntitled` | internal/screen/screen.go:134-190 | with a cache or without, a reply is ALLOW if and only if a vendor answer about the very same address and chain was classified CLEAN under the thresholds of its moment, given now or cached at most the default time to live ago, with no re-classification and no other answer since |
| `Runs.ReplyExactly` | internal/screen/screen.go:134-190 | at most one vendor answer stands behind a reply, about the very same pair, given now or cached no longer than its exposure's time to live ago, with no re-classification and no other answer since; the reply is the verdict on it under the thresholds of its moment, and without one the vendor was unreachable and the reply is the fail-safe one |
| `Runs.BlockExactlyWhenCalledFor` | internal/screen/screen.go:134-190 | a reply is BLOCK if and only if the answer behind it was sanctioned, by name or by a score that reached the block threshold of the chain at that moment, or unknown while the unknown were blocked |
| `Runs.ReplyIsVendorsVerdict` | internal/screen/screen.go:162-189 | with fixed thresholds and a vendor that is a function of the pair, every reply is the verdict on the vendor's answer about its own pair |
| `Runs.CachingPreservesMeaning` | internal/screen/screen.go:144-189 | a cached and an uncached service give the same score, exposure, decision and vendor for the same pair, in any two runs of requests, webhooks, reviews and clock readings |
| `Runs.ConfusedVerdict` | internal/screen/memory_cache.go:24 | for any two chains the cache confuses, a run in which a sanctioned pair is answered with a clean verdict |
| `Runs.FaithfulIffSeparated` | README.md:80-82 | every run over a set of chains answers as its vendor does if and only if no chain of the set extends another by a colon |
| `Runs.VendorGap` | internal/screen/screen.go:144-187 | two vendor answers about one pair with no re-classification between are more than the shorter time to live apart |
| `Runs.VendorCallBound` | internal/screen/screen.go:144-187 | n answers about one pair, n at least 2, take strictly more than n - 1 times the shorter time to live |
| `Runs.SanctionedServedExactly` | README.md:82-84 | while a SANCTIONED verdict is the last thing the cache was told about a pair, a call about the pair is served from it, and told BLOCK, if and only if the sanctioned time to live has not passed; otherwise the vendor is asked, re-classification or not |
| `Runs.SanctionedExpires` | README.md:82-84 | for any times to live, a run without webhooks in which a pair is found sanctioned and later, the vendor being asked again, allowed |
| `Runs.SanctionedSticks` | internal/screen/memory_cache.go:56-65 | once SANCTIONED is cached, every call about the pair within the sanctioned time to live and before a re-classification is told BLOCK from the cache without asking the vendor, whatever reloads come between |
| `Ledger.LedgerBalances` | internal/screen/screen.go:214-225 | in every reachable state each record not allowed has exactly one alert, each allowed one exactly as many as the reviews of its pair since it was stored, alerts without a screen id are as many as accepted webhooks, and no other screen id occurs |
| `Ledger.LedgerTotal` | internal/webhook/webhook.go:143-152 | the number of alerts is the accepted webhooks plus what is due to all stored records |
| `Ledger.EveryRecordIsAudited` | internal/screen/screen.go:227-246 | the audit events handed over are those of the stored records, one each, with their content |
| `Ledger.RecordsReachSink` | internal/audit/audit.go:76-108 | from the record to the sink: the stored records are as many as the events emitted, dropped, queued and in flight; what the sink holds is about stored records, each at most once, and agrees with the record in every field, the time too unless it is zero |
| `Ledger.ResponseStaysOnRecord` | internal/screen/screen.go:200-256 | every response stays on record for ever with the content the caller was told |
| `Ledger.StepKeeps` | internal/review/review.go:50-58 | every step keeps the books sound and adds to each screen id's tally exactly what the step owes it |
| `Trail.SeenExactly` | internal/webhook/webhook.go:126-136 | the processor remembers the ids of all complete deliveries so far, and nothing else |
| `Trail.AcceptedExactly` | internal/webhook/webhook.go:115-152 | in every run a delivery is accepted if and only if it is complete and no complete one before it had its id |
| `Trail.QueueExactly` | internal/webhook/webhook.go:149-161 | in every reachable world the reviews that wait are, in order, those of the accepted deliveries whose review has not run, each with the delivery's address, chain, exposure and transaction |
| `Trail.ReviewsAreDeliveries` | internal/review/review.go:40-60 | the reviews of a record's pair since it was stored are as many as the accepted deliveries behind them: none is reviewed twice |
| `Trail.LedgerInDeliveries` | internal/review/review.go:40-60 | an allowed record has exactly as many alerts as accepted deliveries about its address and chain were reviewed since it was stored, any other record one, and the alerts about no record are as many as the accepted deliveries |
| `Trail.EveryAlertIsWarranted` | internal/webhook/webhook.go:143-148 | in every reachable world an alert about no record says what an accepted delivery said, and one about a record repeats the record, with its exposure if it was not allowed and otherwise that of an accepted delivery about its pair; the severity is that of the alert's exposure |
| `Interleaved.VerdictsRestOnAnswers` | internal/screen/screen.go:162-189 | in every interleaving each cache entry sits under its own pair's key, comes from a vendor's successful answer about that pair and carries the decision of its exposure; each response is the verdict on such an answer or the fail-safe one |
| `Interleaved.AllowRestsOnCleanAnswer` | internal/screen/screen.go:162-189 | in every interleaving an ALLOW rests on a successful vendor answer under the request's key that was classified CLEAN, and on one about the very same address and chain when no chain asked about extends another by a colon |
| `Interleaved.FinishedCallsAgree` | internal/screen/screen.go:200-255 | in every interleaving with fresh ids, record, audit event and response of a finished call agree |
| `Interleaved.DeletionIsFinalExactly` | internal/webhook/webhook.go:138-142 | after a webhook's deletion everything cached about the pair comes from later vendor calls, in every continuation, if and only if no Screen call was holding an answer about it |
| `Interleaved.StaleVerdictReturns` | internal/webhook/webhook.go:138-142 | from the start, for any pair and any re-classification of it: an interleaving after which the verdict from before is back in the cache and a new call about the pair is told ALLOW from it |
| `Interleaved.WebhookAtMostOnce` | internal/webhook/webhook.go:130-152 | under any interleaving each event id has at most one deletion, one alert and one review, and a call that was handled has had all three |
| `Interleaved.StartsGood` | internal/screen/screen.go:98-110 | the initial state satisfies the invariants that the theorems above start from |
| `Interleaved.UndisturbedScreenIsAtomic` | internal/screen/screen.go:134-256 | the split steps of a Screen call, run without interruption, have the effect and the outcome of the atomic call |
| `Interleaved.UndisturbedWebhookIsAtomic` | internal/webhook/webhook.go:126-153 | the same for a webhook, down to the re-classification whose review is started |
| `Migrate.LoadMigrations` | internal/store/migrate.go:24-69 | fails exactly when a file is unreadable or unnamed or a version lacks an up script; otherwise ascending, one migration for each version, with its last scripts |
| `Migrate.LoadedIsUnique` | internal/store/migrate.go:60-68 | whatever the order of the map, the files determine the list |
| `Migrate.LoadedExists` | internal/store/migrate.go:24-69 | files that do not stop the loading have a list |
| `Migrate.ByVersionMeaning` | internal/store/migrate.go:30-58 | a version is collected exactly when a file has it, with the last script of either kind |
| `Migrate.Connection.constructor` | internal/store/migrate.go:74-80 | a database with no version recorded |
| `Migrate.Connection.Migrate` | internal/store/migrate.go:73-118 | with a failure at any statement: nothing changes when the table or the scripts are not to be had, and otherwise the result is that of applying the one list the files load to |
| `Migrate.Connection.ApplyPending` | internal/store/migrate.go:87-117 | the loop, one transaction for each pending version, is the recursive description |
| `Migrate.Connection.MigrateDown` | internal/store/migrate.go:124-175 | with a failure at any statement: no change before the transaction, success without change when nothing is recorded, and otherwise the highest version is reverted by the one list the files load to |
| `Migrate.Connection.Revert` | internal/store/migrate.go:159-174 | the transaction takes effect when its commit does, and succeeds when it is also reported |
| `Migrate.FindDown` | internal/store/migrate.go:148-154 | the down script of the version, "" when there is none |
| `Migrate.MigrateClimbs` | internal/store/migrate.go:73-118 | from a prefix of the versions, Migrate only moves to a longer one whatever fails; it succeeds, with the full list, exactly when one statement for the table, one for each recorded version and five for each pending one go well, and on failure it has moved exactly as far as they took it, a commit that took effect unreported included |
| `Migrate.MigrateDownSteps` | internal/store/migrate.go:133-174 | MigrateDown moves to the next shorter prefix exactly when there is a down script and every statement succeeds; on failure it stays, or has moved by a commit that took effect unreported |
| `Migrate.StackDiscipline` | internal/store/migrate.go:73-175 | from an empty database, through any calls failing anywhere, the recorded versions are a prefix of the ascending list and the schema is what their up scripts build |
| `Migrate.MigrateTwice` | internal/store/migrate.go:71-73 | a second Migrate changes nothing, however it fares |
| `Migrate.DownByCounts` | internal/store/migrate.go:120-124 | n successful MigrateDown calls take back the n latest migrations |
| `Migrate.RoundTrips` | internal/store/migrate.go:120-175 | as many reverts as there are migrations restore the empty schema, and any number of reverts followed by a successful Migrate the full one |
| `Migrate.StackDisciplineOnFiles` | internal/store/migrate.go:73-175 | for any calls of Migrate and MigrateDown on a connection to an empty database, failing anywhere: with files that cannot be loaded it stays empty, and otherwise after each call it is at some height of the list the files load to |
| `Migrate.MigrateTwiceOnFiles` | internal/store/migrate.go:71-73 | after a successful Migrate call on a connection a second one leaves the database as it is |
| `Migrate.RoundTripsOnFiles` | internal/store/migrate.go:120-175 | on a connection, as many successful MigrateDown calls as there are migrations empty the database, and a successful Migrate after any number of them restores the full one |
| `Migrate.TableScriptsUndoIffDistinct` | internal/store/migrations/0001_address_risk_cache.down.sql:1 | scripts that create a table if missing and drop it if there undo one another if and only if no two create the same table |
| `Kafka.CleanInPlace` | internal/audit/kafka_sink.go:93-101 | the filter that writes into the slice it reads yields the trimmed non-empty parts in order, and leaves the rest of the array alone |
| `Kafka.FindTopic` | internal/audit/kafka_sink.go:87-91 | the value of the last topic parameter |
| `Kafka.NewKafkaSinkFromUrl` | internal/audit/kafka_sink.go:81-106 | the loops and the in-place filter parse as the value-level FromUrl does |
| `Kafka.ParseRendered` | internal/audit/kafka_sink.go:81-106 | parsing the canonical URL of good brokers and a good topic gives them back |
| `Kafka.ParsedIsGood` | internal/audit/kafka_sink.go:81-106 | whatever URL is accepted, brokers are non-empty, trimmed and free of separators, and the topic is not empty |
| `Kafka.CanonicalForm` | internal/audit/kafka_sink.go:81-106 | every accepted URL has a canonical form with the same meaning; a URL is refused exactly when no host is left after trimming |
| `Kafka.SinkSelection` | internal/audit/kafka_sink.go:28-48 | a canonical URL opens what it names, and a plain broker list its own brokers under the default topic |
| `Kafka.UrlExactly` | internal/audit/kafka_sink.go:81-106 | every URL, with or without scheme and query: hosts end at the first '?', brokers are separated by ',', parameters by '&' |
| `Kafka.TopicExactly` | internal/audit/kafka_sink.go:87-91 | the topic is the value of the last topic parameter, "" when there is none |
| `Kafka.OpenExactly` | internal/audit/kafka_sink.go:62-68 | the topic asked for, else the caller's default, else audit.v1; refused exactly without brokers |
| `Kafka.CleanOne` | internal/audit/kafka_sink.go:95-100 | a blank part goes, another is trimmed |
| `Kafka.CleanJoins` | internal/audit/kafka_sink.go:93-101 | the filter takes each part by itself and keeps the order |
| `Kafka.SelectionExactly` | internal/audit/kafka_sink.go:28-48 | which URLs open the memory sink, which go to the parser, and which are refused |

## Left out

- Vendors (`internal/vendor`): the circuit breaker, the idempotent provider and the HTTP clients are one answer or failure chosen freely for each call.
- Postgres and Redis: the stores and caches over them, and SQL itself, are not part of this model; a script is a function on a schema of any type.
- HTTP and gRPC servers, request decoding, metrics, the AlertsOpen gauge and tracing: plumbing.
- Signatures, hexadecimal, JSON and UUIDs: library code; a webhook's verification and decoding is one input with three outcomes.
- Missing parts: the services run without a cache, as they do when it is nil, but the nil checks on screens, alerts, audit, reviewer and the webhook's cache beyond that are not modelled, because `cmd/kyt/main.go` wires them all.
- Cache errors: the in-memory cache returns none, so the branches that handle one are not modelled.
- DefaultThresholds: it is the constructor followed by a reload from the same environment.
- Publishing to Kafka, the sink's five-second limit, context cancellation and the ten-second limit of a review.
- The blocking wait of `Emitter.Close`: Close is its signal, and the worker's exit is a step of its own.
- The loop of the audit worker: it runs for ever, so the class has one turn of it and the machine all of its runs.
- Threshold reloads while calls overlap: the interleaved machine has fixed thresholds; whole runs of atomic calls have reloads.
- A review that overlaps other calls: it is one step, at any later time, and may run in any order with others.
- Times in overlapping calls: each step takes its own clock reading, unrelated to the others.
- The order that `sort.Slice` gives to records created at the same time: not promised, so a listing is any sorted order.
- `fmt.Sscanf` and the embedded file system: a directory entry comes with its parsed version, or none.
- Strings that are not valid UTF-8: a string is a sequence of characters. Lower-casing goes letter by letter through a table that is an input, so nothing rests on which letters Unicode pairs.
- Copies of alerts: `List` and `Get` return values in Go, as here; the shared pointer `ClosedAt` is modelled as a value.
- `Services.InsertByTime`: `sort.Slice` does not fix an algorithm; an insertion sort stands for it.
