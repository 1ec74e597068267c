# RuleRaven: a verified model

RuleRaven watches Kubernetes resources and turns what it observes into incidents. A reconciler
evaluates deterministic rules, asks a provider for typed evidence where the rules call for it,
composes a decision, and commits incident, evaluation and outbox rows in one transaction. A
dispatcher claims outbox rows under a lease and delivers them to webhooks at least once. This
project models that pipeline in Dafny and proves what it keeps over every run.

## How the model is organised

| part | modules |
|---|---|
| values, orders and sorting | `Domain`, `Order` |
| rules, their loops, and what they report | `Rules`, `Engine`, `RuleLaws` |
| fingerprint | `Fingerprint` |
| typed answers, JSON Schema, composition | `Answers`, `Json`, `Schema`, `Composer` |
| provider retry, backoff, Retry-After | `Retry`, `Backoff` |
| store operations and the store object | `Store` |
| one reconciliation: steps, one run alone, the code | `Reconciler`, `Sequential`, `Controller` |
| reconcilers interleaved, with crashes | `Incidents`, `IncidentTheorems`, `Openings`, `Announcements` |
| webhook exchange and receiver | `Webhook` |
| dispatchers interleaved, with crashes and lost replies | `Delivery`, `DeliveryTheorems` |
| the dispatcher's code, at a frozen clock and at any clock | `Dispatcher`, `DispatchOverTime` |
| both protocols over one store | `System` |

`Incidents` and `Delivery` are step machines. A reconciler step is one store call of one worker,
and any worker may crash between two calls. A dispatcher step is a claim, a send, a receiver's
answer, a reply, a failure, a finalisation or a crash. `System` lets both run over the same outbox
and projects its runs onto each machine, so every theorem of either holds for the whole service.
Code that changes things step by step is a method or a class (`Store.Store`,
`Controller.Reconciler`, `Dispatcher.Dispatcher`, `Webhook.Receiver`), proved against the
functions the machines are built from. Those functions are in turn pinned to the fields of what
goes in and comes out: which status, action, text and time is stored or sent for which observation
and which answers.

Assumptions: `StableID`, the incident key and the content digest are injective and are modelled as
what they digest. A transaction and a `FindOneAndUpdate` are atomic. Times are integers on one
clock; durations and Unix seconds are 64-bit where overflow or saturation can matter.
Floating-point numbers are reals. Nothing expires, since neither the reconciler nor the production dispatcher sets an expiry.

## Where the code does less than one might expect

Each of these has a lemma that shows it and one that says exactly when it happens.

- A commit whose evaluation identity already exists succeeds without writing. A finding that
  returns unchanged after it was resolved therefore stays resolved
  (`Sequential.StoredIffNew`, `Sequential.ReturnIsLost`, `Sequential.ReturnHappens`).
- A suppressed incident that stops matching is stored as open. For an Event the next
  reconciliation of the same state resolves it, so reconciling twice differs from once exactly
  there (`Sequential.IdempotentIff`, `Sequential.UnsettledHappens`). Any other kind stays open
  (`Sequential.RelapseStaysOpen`), and the decision recorded is the fallback, which notifies
  (`Composer.RelapseNotifies`).
- A worker that crashes between its upsert and its commit leaves an incident that is never
  "opened": the retry sends "updated" (`Openings.CrashedUpdates`). An incident that nobody is
  creating any more lacks an "opened" commit exactly when its creator was lost
  (`Openings.OpenedAtMostOnce`).
- Goroutines of one dispatcher share a worker ID. Superseded claims are fenced off exactly when
  every goroutine has an ID of its own (`DeliveryTheorems.FencesIff`,
  `DeliveryTheorems.SharedIdDoesNotFence`). The attempt bound holds either way (`DeliveryTheorems.AttemptBound`).
- The backoff reaches an odd maximum one unit early when a doubling comes one short of it
  (`Backoff.IdealIff`, `Backoff.OffByOne`).
- The container comparison of the fingerprint leaves out hashed fields, so one snapshot may have
  several fingerprints (`Fingerprint.StableIff`, `Fingerprint.UnstableExample`).
- With no maximum configured, a provider's Retry-After is not capped. Every sleep of every run
  stays within the caps exactly under the policies of `Retry.CappedIff`; under any other,
  `Retry.StallingExceedsCaps` gives a run that sleeps longer.
- A workload that reports a negative number of available replicas is judged more mildly than one
  that reports none (`RuleLaws.NegativeIsMilder`). Apart from that a worse observation never gets a
  milder result (`RuleLaws.NeverMilder`).
- The receiver's timestamp window compares a saturated 64-bit difference with a time whose count
  of seconds wraps (`Webhook.TimelyIff`, `Webhook.TimelySeconds`, `Webhook.FarAhead`).

## Model

| member | source | states |
|---|---|---|
| `System.ResolutionsReachTheReceiver` | internal/controller/reconciler.go:119-259 | in every interleaving of reconcilers, dispatchers, crashes and lost replies, a destination accepts at most one resolved event per resolution of an incident, each at most once, and exactly one per resolution once its resolved rows are delivered |
| `System.OpeningsReachTheReceiver` | internal/controller/reconciler.go:236-248 | in every run of the service a destination accepts at most one "opened" event per incident, none if its creator was lost, and has accepted a delivered one |
| `System.ReceiversAreToldTheTruth` | internal/controller/reconciler.go:390-412 | whatever a destination has accepted in any run is a row whose status, decision fields, resource and observation time are those of an observation some reconciler began with and of the decision it committed with |
| `System.EveryRowTells` | internal/controller/reconciler.go:390-412 | the same of every row of the outbox, and that its evaluation stores that decision |
| `System.ResolvedAtExactly` | internal/controller/reconciler.go:216-226 | in every reachable state an incident carries a time of resolution exactly while it is resolved, and is as its last commit left it |
| `System.RunsKeepInvariant` | internal/store/mongo/evaluations.go:17-79 | the invariants of both protocols hold in every state of every run of the service |
| `System.ProjectsToIncidents` | internal/notify/dispatcher.go:103-198 | a run of the service is a run of the reconciler protocol, with dispatchers changing only lease and status fields |
| `System.ProjectsToDelivery` | internal/store/mongo/evaluations.go:61-74 | a run of the service is a run of the delivery protocol, with commits only adding pending rows |
| `IncidentTheorems.OneResolutionPerOpenPeriod` | internal/rules/recovery.go:5-18 | at every point of every run, resolutions minus reopenings of an incident is one if it is resolved there and zero otherwise, and the stored status is the history's |
| `IncidentTheorems.ResolutionsAlternate` | internal/controller/reconciler.go:359-388 | between two resolutions of an incident there is a reopening |
| `IncidentTheorems.OneResolvedRowPerResolution` | internal/controller/reconciler.go:390-412 | each destination holds exactly one resolved row per resolving commit |
| `IncidentTheorems.VersionAccounting` | internal/store/mongo/incidents.go:74-91 | an incident's version is one plus the number of its stored evaluations |
| `IncidentTheorems.OneWriterPerVersion` | internal/store/mongo/evaluations.go:47-60 | of the commits that carry one expected version of an incident at most one wrote |
| `IncidentTheorems.ReferentialIntegrity` | internal/controller/reconciler.go:201-248 | at every crash point each row has its evaluation, each evaluation its incident and snapshot and either no rows or one per destination, each recorded hash its snapshot and an evaluation |
| `IncidentTheorems.CommitsNeverMeetAnIndex` | internal/store/mongo/indexes.go:36-57 | a commit built by a reconciler in a reachable state writes, conflicts or is already evaluated; it never meets a unique index and is never malformed |
| `Openings.OneCreatorEach` | internal/controller/reconciler.go:197-207 | in every run each incident has exactly one creating worker, which is still at work, has opened it or was lost |
| `Openings.OpenedAtMostOnce` | internal/controller/reconciler.go:236-242 | at most one "opened" commit per incident, and none exactly when the creator crashed, stopped at a blank fingerprint or committed without writing |
| `Openings.OneOpenedRow` | internal/controller/reconciler.go:407-411 | each destination has at most one opened row per incident, and none without an "opened" commit |
| `Openings.UndisturbedOpens` | internal/controller/reconciler.go:201-248 | a run in which a worker left alone opens the incident |
| `Openings.CrashedUpdates` | internal/controller/reconciler.go:201-248 | a run in which a crash after the upsert makes the same observation "updated" |
| `Announcements.EveryRowIsTrue` | internal/controller/reconciler.go:390-412 | in every reachable state each outbox row carries the incident, evaluation, status, severity, action, summary, rule IDs, reason codes, resource and observation time of the one commit that wrote its evaluation, is an EventResolved exactly when the status is resolved, and was called for by a resolution, a notify or a page |
| `Announcements.EveryCommitIsCaused` | internal/controller/reconciler.go:146-259 | every commit of every run stems from an earlier beginning and a call of the same worker; its status, fingerprint, source, times and identity follow from that observation and the incident stored then, its decision from that call |
| `Announcements.EveryIncidentReflects` | internal/store/mongo/incidents.go:74-91 | a stored incident has the status, source, fingerprint and times of its last commit; resolvedAt is set exactly when the status is resolved |
| `Announcements.OpeningStays` | internal/store/mongo/incidents.go:74-91 | key, cluster and opening time of an incident never change and its version never falls |
| `Announcements.NewRowsAreDue` | internal/store/mongo/evaluations.go:61-74 | a row enters the outbox with the commit it announces, pending, never tried, and due at the commit's time |
| `Incidents.CommitOutcomes` | internal/store/mongo/evaluations.go:39-74 | which of the three outcomes a commit has, as conditions on the store, and what it writes |
| `Incidents.NextKeeps` | internal/controller/reconciler.go:191-259 | every step, crash included, keeps the invariant |
| `Sequential.RunIsOneCommit` | internal/controller/reconciler.go:146-259 | a reconciliation that runs alone leaves the store unchanged or ends in one commit on the prepared store |
| `Sequential.SkipsExactly` | internal/controller/reconciler.go:176-186 | which observations are skipped, in terms of the finding and of the stored status and fingerprint |
| `Sequential.StatusExactly` | internal/controller/reconciler.go:414-431 | resolved exactly when the resource is gone or nothing matches an open incident any more, suppressed exactly when ignored, open otherwise |
| `Sequential.WrittenExactly` | internal/controller/reconciler.go:191-259 | field by field, the incident, snapshot, evaluation and rows that a persisted observation writes, and that nothing else changes |
| `Sequential.IdempotentIff` | internal/controller/reconciler.go:146-259 | reconciling the same observation twice equals once, whatever providers answer, exactly when the incident is not a suppressed Event that stopped matching and would newly be resolved |
| `Sequential.UnsettledHappens` | internal/controller/reconciler.go:414-422 | inputs for which the exceptional condition holds |
| `Sequential.StoredIffNew` | internal/store/mongo/evaluations.go:47-50 | after a reconciliation that is not skipped the stored incident carries the new hash, status and version exactly when the evaluation was new |
| `Sequential.ReturnIsLost` | internal/store/mongo/evaluations.go:47-50 | a matching observation that was resolved and returns with the same hash changes nothing |
| `Sequential.ReturnHappens` | internal/store/mongo/evaluations.go:47-50 | inputs from an empty store for which both earlier reconciliations write |
| `Sequential.RelapseStaysOpen` | internal/controller/reconciler.go:182-185 | a suppressed incident other than an Event that stops matching is stored open and stays open |
| `Controller.Reconciler.Reconcile` | internal/controller/reconciler.go:119-189 | the code leaves the store as `Sequential.Run` says, never fails when alone, writes field by field what `Sequential.Written` lists, decides by the usable answers to the named questions or falls back, returns the requeue delay, and fingerprints a quiet Event itself; the engine's clock readings are its own |
| `Controller.Reconciler.Observe` | internal/controller/reconciler.go:153-174 | lookup, evaluation at the engine's own clock readings and the quiet-period condition with its fingerprint yield the work item the specification builds |
| `Controller.Reconciler.PersistUnlessSkipped` | internal/controller/reconciler.go:176-188 | the three early returns are exactly the observations the specification leaves alone |
| `Controller.Reconciler.Persist` | internal/controller/reconciler.go:191-259 | nothing if the content is recorded, else one commit on the prepared store |
| `Controller.Reconciler.Hold` | internal/controller/reconciler.go:192-207 | the incident held is the previous one or a newly inserted one read back |
| `Controller.Reconciler.Record` | internal/controller/reconciler.go:211-248 | snapshot, decision and commit request in order |
| `Controller.Reconciler.ResolveDeletion` | internal/controller/reconciler.go:359-388 | deletion leaves the store as `Sequential.Run` says for a resource that is gone, under the fingerprint of the deletion snapshot, and the decision merely records the deletion |
| `Controller.Reconciler.Deliveries` | internal/controller/reconciler.go:390-412 | one notification per destination, exactly for resolutions, notify and page, each with the incident's new status, the decision's fields and the observed resource and time |
| `Controller.Decide` | internal/controller/reconciler.go:261-321 | the decision is composed from the primary's reply if usable, else the fallback's if usable, else from nothing; severity, action and summary follow the answers used |
| `Controller.CheckDestinations` | internal/controller/reconciler.go:103-109 | sorting and comparing neighbours accepts exactly the lists without blanks and duplicates, and keeps their contents |
| `Controller.RequeueIsExact` | internal/controller/reconciler.go:433-444 | for a semantic Event, with the engine reading the clock no earlier than the reconciler, the delay is positive and lands on the first instant the warning rule stops matching, exactly when what remains fits 64 bits |
| `Controller.RequeuesAtQuiet` | internal/controller/reconciler.go:433-444 | a semantic Event is requeued when its quiet period ends, a millisecond ahead if it has ended, at the longest duration if that is too far; nothing else is requeued |
| `Store.Store.GetIncident` | internal/store/mongo/incidents.go:15-28 | finds an incident of that cluster and key exactly when there is one |
| `Store.Store.UpsertIncident` | internal/store/mongo/incidents.go:47-65 | inserts exactly when neither key nor ID is taken, and reads the stored incident back |
| `Store.Store.UpsertSnapshot` | internal/store/mongo/snapshots.go:17-35 | inserts if absent, never overwrites |
| `Store.Store.Commit` | internal/store/mongo/evaluations.go:17-79 | all three collections change together or none does, with the outcome of the specification |
| `Store.Store.ClaimDelivery` | internal/store/mongo/outbox.go:15-37 | claims the least due row by next attempt and ID, leases it to the worker, counts the attempt and keeps every other field, or reports that none is due |
| `Store.Store.CompleteDelivery` | internal/store/mongo/outbox.go:39-56 | completes a row exactly when the caller is its lease owner |
| `Store.Store.RescheduleDelivery` | internal/store/mongo/outbox.go:58-88 | returns or fails a row exactly when the caller is its lease owner and the request is valid |
| `DeliveryTheorems.ExactlyOnceEffect` | cmd/smoke-webhook/main.go:91-103 | a receiver that keeps its memory accepts each event at most once, and every delivered row was accepted exactly once |
| `DeliveryTheorems.AttemptBound` | internal/notify/dispatcher.go:158-183 | a row's attempts are its claims and exceed MaxAttempts by at most its expired-lease re-claims, shared worker IDs included |
| `DeliveryTheorems.EndsForAReason` | internal/notify/dispatcher.go:117-183 | in every run a row is delivered exactly when some lease holder finalised it after a success, and failed exactly when one did after a failure that was permanent or out of attempts |
| `DeliveryTheorems.LeaseSeparation` | internal/store/mongo/outbox.go:19-31 | two claims of a row with no finalisation between them are at least a lease apart |
| `DeliveryTheorems.SupersededIsRejected` | internal/store/mongo/outbox.go:39-88 | with distinct worker IDs a superseded holder changes nothing |
| `DeliveryTheorems.SharedIdDoesNotFence` | internal/notify/dispatcher.go:216-243 | for any two goroutines that share an ID a run in which the superseded one ends the row |
| `DeliveryTheorems.FencesIff` | internal/store/mongo/outbox.go:39-88 | superseded claims never touch the outbox, in any run, exactly when every goroutine has its own ID |
| `DeliveryTheorems.NeverStranded` | internal/store/mongo/outbox.go:19-27 | in every reachable state a row is due from some time on exactly when it is not delivered or failed |
| `DeliveryTheorems.TerminalForever` | internal/store/mongo/outbox.go:39-88 | delivered and failed rows never change again |
| `DeliveryTheorems.NeverOvertaken` | internal/store/mongo/outbox.go:19-28 | no dispatcher step puts an unfinished row ahead of a due one, and each new claim uses up a row that was ahead |
| `DeliveryTheorems.BoundedBypass` | internal/notify/dispatcher.go:158-177 | once a row is due, at most as many new claims pass it as rows stood ahead of it |
| `Delivery.NextKeeps` | internal/notify/dispatcher.go:103-198 | every step keeps the attempt, receipt and lease invariants |
| `Delivery.FinishSettles` | internal/notify/dispatcher.go:117-183 | a finalisation delivers after a success, fails after a permanent failure or the last attempt, and otherwise puts the row back for the larger of its attempt's backoff and the request, up to the maximum |
| `Dispatcher.Dispatcher.DispatchOne` | internal/notify/dispatcher.go:103-198 | settles the next due row and no other, with the status, failure class and next attempt its verdict and attempt count call for; at a frozen clock one row fewer is due |
| `Dispatcher.Dispatcher.Finalise` | internal/notify/dispatcher.go:117-183 | the row written after a delivery attempt, by status, failure class and next attempt, or nothing when the lease is no longer the caller's |
| `DispatchOverTime.Run` | internal/notify/dispatcher.go:216-243 | whatever the clock shows, with readings used late, and under any schedule `Run` stops, leaves finished rows alone and claims a row at most max(0, MaxAttempts - 1 - attempts) + workers times; without an error nothing is due at the last reading and every row due then was claimed |
| `Dispatcher.Run` | internal/notify/dispatcher.go:216-243 | at a frozen clock, whatever the schedule of the goroutines, `Run` ends with no row due, one claim per due row and a determined outbox |
| `Backoff.BackoffFor` | internal/notify/dispatcher.go:245-257 | computes the schedule without overflow, within one above the ideal, and equal to it exactly when no doubling comes one short of max |
| `Backoff.IdealIff` | internal/notify/dispatcher.go:245-257 | the schedule equals min(initial times a power of two, max) exactly when no doubling comes one short of max |
| `Backoff.OffByOne` | internal/notify/dispatcher.go:248-250 | an input where it does |
| `Backoff.NonDecreasing` | internal/notify/dispatcher.go:245-257 | later attempts never wait less |
| `Backoff.ScheduledBounds` | internal/notify/dispatcher.go:245-257 | delays stay between initial and max and within one of the ideal |
| `Backoff.DelayIsClamped` | internal/notify/dispatcher.go:161-171 | with Retry-After the delay is the larger of the backoff and the request capped at max |
| `Backoff.ParseRetryAfter` | internal/notify/webhook/webhook.go:239-256 | section 10.2.3 of RFC 9110: positive seconds or a date still to come, exactly up to the maximum and the maximum beyond it, nothing otherwise |
| `Webhook.Deliver` | internal/notify/webhook/webhook.go:111-183 | success exactly when everything was in order to send and the status is 200 to 299; retryable exactly on 408, 409, 425, 429, 500 to 599, transport failures and deadlines |
| `Webhook.Receiver.ServeHTTP` | cmd/smoke-webhook/main.go:50-104 | a request is accepted exactly when method, content type, timestamp, body, signature and envelope are in order; a screened one changes nothing, an admitted one is remembered and answered 204 the first time and 208 after; the status is the one the delivery protocol is built on |
| `Webhook.Receiver.ValidTimestamp` | cmd/smoke-webhook/main.go:106-117 | accepts exactly the admissible instants |
| `Webhook.TimelyIff` | cmd/smoke-webhook/main.go:106-117 | the comparison on saturated 64-bit differences admits exactly the window, what is 2^63 ns or more ahead, and everything under the longest window |
| `Webhook.TimelySeconds` | cmd/smoke-webhook/main.go:107-116 | the same in the header's seconds: those beyond the last countable second are refused |
| `Webhook.FarAhead` | cmd/smoke-webhook/main.go:107-116 | inputs for both |
| `Webhook.RefusalsAreNotSuccess` | cmd/smoke-webhook/main.go:50-90 | no refusal has a success status, as the delivery protocol assumes |
| `Webhook.RefusalsFail` | cmd/smoke-webhook/main.go:50-90 | no refusal is taken for a delivery or retried |
| `Schema.AnswerJsonSchema` | internal/provider/schema.go:12-41 | fails exactly on invalid questions; the schema admits exactly the values of the right shape, and an answer set is valid exactly when its encoding conforms and its numbers cohere |
| `Schema.ValidIffShape` | internal/provider/validate.go:77-244 | the validator accepts exactly the answers of the right shape whose sums, maxima and weighted means cohere |
| `Schema.AnswerSchemaFor` | internal/provider/schema.go:43-89 | each question's schema admits exactly its answers' shapes |
| `Schema.ProbabilityObject` | internal/provider/schema.go:100-106 | admits exactly the objects with those keys and unit values |
| `Schema.LegendObject` | internal/provider/schema.go:69-75 | admits exactly the legend of the levels |
| `Json.StrictObjectAdmits` | internal/provider/schema.go:91-98 | a strict object admits exactly the objects with all its keys, no other key and admitted values |
| `Answers.ValidateAnswers` | internal/provider/validate.go:77-109 | accepts exactly the valid answer sets of valid questions |
| `Answers.ValidateQuestions` | internal/provider/validate.go:13-75 | accepts exactly the valid question sets |
| `Answers.ValidateQuestion` | internal/provider/validate.go:18-72 | accepts exactly the valid questions |
| `Answers.ValidateNoulAnswer` | internal/provider/validate.go:111-134 | accepts exactly unit values with no foreign field |
| `Answers.ValidateChoiceAnswer` | internal/provider/validate.go:136-161 | accepts exactly a known choice of maximal probability under a distribution |
| `Answers.ValidateScoreAnswer` | internal/provider/validate.go:163-210 | accepts exactly a score in range that matches the weighted mean, with the legend of the levels |
| `Answers.ValidateDistribution` | internal/provider/validate.go:219-244 | accepts exactly unit values over the expected keys that sum to one, in whatever order the map is read |
| `Answers.WeightedValue` | internal/provider/validate.go:202-205 | the loop computes the expected level |
| `Answers.PointMass` | internal/provider/validate.go:202-205 | all weight on one level gives that level |
| `Answers.Additive` | internal/provider/validate.go:202-205 | the expectation of a sum is the sum of the expectations |
| `Answers.Scales` | internal/provider/validate.go:202-205 | a multiple of a distribution has that multiple of its expectation |
| `Answers.CertainScore` | internal/provider/validate.go:202-208 | an accepted answer that is certain of a level scores it within a millionth |
| `Answers.ItoaInjective` | internal/provider/validate.go:185-186 | level keys are distinct |
| `Composer.Compose` | internal/decision/composer.go:54-69 | passes a deterministic decision through, else composes evidence or fallback under the floor; by the names of the questions and the thresholds when the answers are valid, a warning that notifies when not |
| `Composer.AnswersDecide` | internal/decision/composer.go:71-96 | severity, action, summary and reason codes as functions of the answers to incident_family, operational_impact, requires_immediate_attention and likely_transient |
| `Composer.EngineConsults` | internal/rules/engine.go:87-92 | the engine's semantic results are exactly those that consult this question set without a decision of their own |
| `Composer.CompositionIsDetermined` | internal/decision/composer.go:54-69 | the specification allows one decision |
| `Composer.NeverBelowTheFloor` | internal/decision/composer.go:98-117 | severity and action rank at least the deterministic decision's, and its rule IDs and reason codes survive |
| `Composer.Monotone` | internal/decision/composer.go:83-94 | more impact or urgency or less transience never lowers the decision |
| `Composer.FailsClosed` | internal/decision/composer.go:59-66 | without usable evidence the decision is at least a warning that notifies |
| `Composer.EvidenceDecides` | internal/decision/composer.go:71-96 | exactly which evidence pages and which is only recorded |
| `Composer.MatchesAreNamed` | internal/decision/composer.go:67-68 | every matched rule is named in the decision |
| `Composer.RelapseNotifies` | internal/decision/composer.go:54-69 | a result without match composes to the fallback |
| `Composer.AcceptedAnswersAreComplete` | internal/decision/composer.go:72-75 | accepted answers hold every field composition dereferences, in range, and each piece of evidence is the answer to its own question |
| `Composer.TriageIsRubric` | internal/decision/questions.go:14-53 | the versioned questions are valid and of the kinds composition reads |
| `Composer.MergeStrings` | internal/decision/composer.go:159-177 | the strictly increasing union of both lists without empty strings |
| `Composer.MergeIsUnique` | internal/decision/composer.go:159-177 | there is one such list |
| `Composer.ApplyDeterministicFloor` | internal/decision/composer.go:98-117 | raises severity, action and summary exactly where the floor is higher |
| `Retry.Run` | internal/provider/retry.go:116-159 | stops in the first attempt that stops, calls the operation once per attempt counted, and sleeps exactly after the attempts that ask for it: as long as the server asked up to the cap that is set, else the failed attempt's own backoff with its jitter; within the caps where the policy sets them |
| `Retry.RunsAreHonest` | internal/provider/retry.go:129-142 | at most MaxAttempts, all but the last operation failed retryably, success exactly when the last succeeded, a failure is returned only when permanent or out of attempts |
| `Retry.LastAttemptStops` | internal/provider/retry.go:158 | the loop never falls through |
| `Retry.SleepIsCappedIff` | internal/provider/retry.go:144-153 | after one failure the sleep stays within the caps exactly when MaxRetryAfter is positive or the request does not exceed MaxBackoff |
| `Retry.CappedIff` | internal/provider/retry.go:144-156 | every sleep of every run stays within the caps exactly when MaxRetryAfter is positive, MaxAttempts is one or MaxBackoff is the longest duration |
| `Retry.StallingExceedsCaps` | internal/provider/retry.go:147-152 | under any other policy a run that sleeps longer |
| `Retry.DelayFor` | internal/provider/retry.go:183-202 | the attempt's own backoff with any jitter, kept between zero and MaxBackoff |
| `Retry.SleepExactly` | internal/provider/retry.go:144-156 | the delay function is that sleep |
| `Fingerprint.ContentHash` | internal/kube/fingerprint.go:50-106 | yields a canonical form of the snapshot, which carries exactly the hashed fields: source, labels, conditions without their times, containers, workload, job and event |
| `Fingerprint.FingerprintIsQuotient` | internal/kube/fingerprint.go:50-106 | canonical forms agree exactly when the hashed facts agree field by field, as long as container keys identify containers |
| `Fingerprint.SameConditionsIff` | internal/kube/fingerprint.go:65-83 | sorted timeless conditions agree exactly when type, status, reason and message occur equally often |
| `Fingerprint.StableIff` | internal/kube/fingerprint.go:85-95 | a snapshot has one canonical form exactly when containers sharing name, state and reason are equal |
| `Fingerprint.UnstableExample` | internal/kube/fingerprint.go:85-95 | a snapshot with two |
| `Fingerprint.VolatileFieldsDoNotMatter` | internal/kube/fingerprint.go:65-70 | names, resource versions, transition times, counts and observation times leave the form unchanged |
| `Fingerprint.AppendedConditionChangesForm` | internal/controller/reconciler.go:168-174 | the quiet-period condition always changes the form |
| `Engine.Evaluate` | internal/rules/engine.go:62-95 | the code computes the specified result, whose content the `RuleLaws` rows give in the snapshot's own terms |
| `Engine.PodCrashLoop` | internal/rules/pod.go:10-38 | the code computes the specified matches |
| `Engine.CrashLoopSeverity` | internal/rules/pod.go:18-30 | the loop finds the highest severity over the crash-looping containers |
| `Engine.HighestSeverity` | internal/rules/engine.go:113-121 | the loop keeps the first of the most severe matches |
| `Engine.DecisionFor` | internal/rules/engine.go:136-150 | the code computes the specified decision |
| `Rules.OrderFree` | internal/kube/normalizer.go:335-345 | the result does not depend on how conditions of distinct types and containers are listed, nor on how the sort breaks ties |
| `Rules.TerminalDecision` | internal/rules/engine.go:93-150 | severity is the maximum over the matches, it pages exactly when a match is critical, and rule IDs strictly increase |
| `Rules.HighestIsMaximal` | internal/rules/engine.go:113-121 | the winning match is the first of the most severe |
| `Rules.RecoveryExactly` | internal/rules/recovery.go:5-18 | a result resolves exactly when nothing matches and the incident was open |
| `Rules.ExamineIsGenuine` | internal/rules/engine.go:74-80 | no rule reports an ID that means resolved |
| `RuleLaws.SuppressesIff` | internal/rules/engine.go:63-111 | a result suppresses exactly when the namespace or a label is ignored, and says which |
| `RuleLaws.RecoversIff` | internal/rules/recovery.go:5-18 | a result recovers exactly when nothing is ignored, no rule reports and the incident was open, and with which decision |
| `RuleLaws.CrashLoopReports` | internal/rules/pod.go:10-38 | exactly when, and how severely, a crash loop is reported, in fields of the snapshot |
| `RuleLaws.UnschedulableReports` | internal/rules/pod.go:40-52 | the same for an unschedulable Pod |
| `RuleLaws.ImagePullReports` | internal/rules/pod.go:54-71 | the same for an image pull failure |
| `RuleLaws.JobReports` | internal/rules/job.go:9-31 | the same for a failed Job |
| `RuleLaws.WorkloadReports` | internal/rules/workload.go:10-52 | the same for an unavailable workload |
| `RuleLaws.EventReports` | internal/rules/event.go:9-29 | the same for a Warning Event |
| `RuleLaws.SemanticIff` | internal/rules/engine.go:87-92 | a result is left to the providers exactly when the Event rule and no other reports |
| `RuleLaws.NeverMilder` | internal/rules/engine.go:62-150 | more restarts, more failed pods, fewer replicas or a longer time in the same condition keeps every match, no less severe, and never lowers the decision |
| `RuleLaws.NegativeIsMilder` | internal/rules/workload.go:22-25 | an input where a count below zero does |

## Left out

- MongoDB driver, BSON mapping, millisecond truncation, index creation and TTL deletion: library behaviour; the unique keys are kept as invariants.
- Kubernetes clients, informers, the work queue and the normalisation of objects beyond its two sorts: thin use of client-go.
- Provider HTTP adapters, TLS, DNS and address checks and signing: a provider's reply and a valid signature are inputs.
- HTTP status classification for providers: a table; whether a failure is retryable is an input of the retry loop.
- Redaction, logging, metrics, configuration, health endpoints and wiring: no protocol state.
- The `UpdateIncident` and `ListOpenIncidents` operations: the reconciler never calls them.
- Non-finite numbers and floating-point rounding in probability sums: reals have neither, and JSON has no notation for the former.
- Provider answers and audit metadata stored with an evaluation: they play no part in identity or decisions afterwards.
- Case folding beyond ASCII in resource kinds.
- Store errors other than not found, conflict and duplicate key: a failed call is a crash of the worker at that point.
- Controller.Reconciler.Reconcile: takes the store invariant as precondition; `Incidents.NextKeeps` proves that every reachable store satisfies it.
- Dispatcher.Run: frozen clock, no arrivals, where the outbox it leaves is determined; `DispatchOverTime.Run` takes any clock.
- DispatchOverTime.Run: no arrivals, and no store errors but a lost lease.
- Store.Store.ClaimDelivery: IDs are digests, so their order is an arbitrary total order.
