/**
 The reconciler itself (internal/controller/reconciler.go): the code that makes the store calls
 one after another, proved to leave in the store exactly what Sequential.Run says. What the
 providers reply is an input, and so is the digest that turns a canonical form into a fingerprint.
 */
module Controller {
  import opened Domain
  import opened Answers
  import opened Composer
  import opened Incidents
  import opened Sequential
  import Backoff
  import Engine
  import Fingerprint
  import Order
  import R = Rules
  import S = Store
  import Spec = Reconciler

  /** Destinations */

  // Accepted exactly when no destination is blank and none is given twice.
  method CheckDestinations(given: seq<string>) returns (sorted: Option<seq<string>>)
    ensures sorted.Some? <==> ValidDestinations(given)
    ensures sorted.Some? ==> ValidDestinations(sorted.value) && multiset(sorted.value) == multiset(given)
                             && Order.Sorted(sorted.value, Order.StringLess)
  {
    Order.StringsAreOrdered();
    Order.TotalIsWeak(Order.StringLess);
    Order.SortSorts(given, Order.StringLess);
    var ds := Order.Sort(given, Order.StringLess);
    for i := 0 to |ds|
      invariant forall j :: 0 <= j < i ==> !Blank(ds[j]) && (j > 0 ==> ds[j] != ds[j - 1])
    {
      if Blank(ds[i]) || (i > 0 && ds[i] == ds[i - 1]) {
        Rejected(given, ds, i);
        return None;
      }
    }
    NoNeighbours(ds);
    SameValidity(given, ds);
    return Some(ds);
  }

  // Sorted with no equal neighbours means no duplicates at all.
  lemma NoNeighbours(ds: seq<string>)
    requires Order.Sorted(ds, Order.StringLess)
    requires forall j :: 0 < j < |ds| ==> ds[j] != ds[j - 1]
    ensures forall i, j :: 0 <= i < j < |ds| ==> ds[i] != ds[j]
  {
    Order.StringsAreOrdered();
    forall i, j | 0 <= i < j < |ds| ensures ds[i] != ds[j] {
      assert Order.StringLess(ds[j - 1], ds[j]) by { assert !Order.StringLess(ds[j], ds[j - 1]); }
      assert i < j - 1 ==> !Order.StringLess(ds[j - 1], ds[i]);
    }
  }

  lemma SameValidity(a: seq<string>, b: seq<string>)
    requires multiset(a) == multiset(b) && ValidDestinations(b)
    ensures ValidDestinations(a)
  {
    R.SameMembers(a, b);
    Order.NoRepeats(b);
    forall i | 0 <= i < |a| ensures !Blank(a[i]) { assert a[i] in b; }
    forall i, j | 0 <= i < j < |a| ensures a[i] != a[j] {
      assert a == a[..i] + [a[i]] + a[i + 1..j] + [a[j]] + a[j + 1..];
      assert multiset(a)[a[i]] <= 1;
    }
  }

  lemma Rejected(a: seq<string>, b: seq<string>, i: nat)
    requires multiset(a) == multiset(b) && i < |b| && (Blank(b[i]) || (i > 0 && b[i] == b[i - 1]))
    ensures !ValidDestinations(a)
  {
    if ValidDestinations(a) {
      SameValidity(b, a);
    }
  }

  /** Provider evidence */

  datatype ProviderReply = Unavailable | Replied(consistent: bool, answers: AnswerSet)

  ghost predicate Usable(rubric: Questions, p: ProviderReply) {
    p.Replied? && p.consistent && ValidAnswers(rubric, p.answers)
  }

  method EvaluateProvider(rubric: Questions, p: ProviderReply) returns (answers: Option<AnswerSet>)
    requires IsRubric(rubric)
    ensures answers == if Usable(rubric, p) then Some(p.answers) else None
  {
    if p.Unavailable? || !p.consistent { return None; }
    var valid := ValidateAnswers(rubric, p.answers);
    return if valid then Some(p.answers) else None;
  }

  // The fallback provider is asked only when the primary's reply is unusable.
  ghost function Accepted(rubric: Questions, primary: ProviderReply, fallback: Option<ProviderReply>)
    : Option<AnswerSet>
  {
    if Usable(rubric, primary) then Some(primary.answers)
    else if fallback.Some? && Usable(rubric, fallback.value) then Some(fallback.value.answers)
    else None
  }

  ghost function Consulted(rubric: Questions, r: R.Result, primary: ProviderReply, fallback: Option<ProviderReply>)
    : Decision
  {
    var accepted := Accepted(rubric, primary, fallback);
    if r.disposition == R.Semantic && accepted.Some? then Proposed(rubric, r, accepted.value, false) else FALLBACK
  }

  // The decision, in terms of what was found and what was answered.
  ghost predicate Follows(rubric: Questions, r: R.Result, primary: ProviderReply, fallback: Option<ProviderReply>,
                          d: Decision) {
    if !Consults(r) then r.disposition != R.Semantic && r.decision.Some? ==> d == r.decision.value
    else if Usable(rubric, primary) then DecidedBy(primary.answers, d)
    else if fallback.Some? && Usable(rubric, fallback.value) then DecidedBy(fallback.value.answers, d)
    else d.severity == Warning && d.action == Notify
         && d.summary == "Provider evidence unavailable; manual triage required"
  }

  lemma ComposedFollows(rubric: Questions, r: R.Result, primary: ProviderReply, fallback: Option<ProviderReply>,
                        d: Decision)
    requires IsRubric(rubric) && Composed(r, Consulted(rubric, r, primary, fallback), d)
    ensures Follows(rubric, r, primary, fallback, d)
  {
    var accepted := Accepted(rubric, primary, fallback);
    if Consults(r) && accepted.Some? { AnswersDecide(rubric, r, accepted.value, d); }
  }

  method Decide(rubric: Questions, r: R.Result, primary: ProviderReply, fallback: Option<ProviderReply>)
    returns (d: Decision)
    requires IsRubric(rubric)
    ensures Composed(r, Consulted(rubric, r, primary, fallback), d) && Follows(rubric, r, primary, fallback, d)
  {
    if r.disposition != R.Semantic {
      d := Compose(rubric, r, map[], false);
      assert !Answered(rubric[INCIDENT_FAMILY], map[], INCIDENT_FAMILY);
    } else {
      var answers := EvaluateProvider(rubric, primary);
      if answers.None? && fallback.Some? { answers := EvaluateProvider(rubric, fallback.value); }
      assert answers == Accepted(rubric, primary, fallback);
      if answers.Some? {
        d := Compose(rubric, r, answers.value, false);
      } else {
        d := Compose(rubric, r, map[], true);
      }
    }
    ComposedFollows(rubric, r, primary, fallback, d);
  }

  /** Event requeue */

  function EventRequeue(s: Snapshot, now: Time, r: R.Result, quiet: Backoff.Duration): Backoff.Duration {
    if s.event.None? || r.disposition != R.Semantic || s.event.value.lastObserved.None? then 0
    else
      var remaining := Backoff.Between(s.event.value.lastObserved.value + quiet as int, now);
      if remaining <= 0 then 1_000_000 else remaining
  }

  // Requeued when the quiet period ends, in a millisecond if it has already, and not at all unless a
  // semantic Event says when it was last observed.
  lemma RequeuesAtQuiet(s: Snapshot, now: Time, r: R.Result, quiet: Backoff.Duration)
    ensures
      var delay := EventRequeue(s, now, r, quiet) as int;
      if s.event.Some? && s.event.value.lastObserved.Some? && r.disposition == R.Semantic then
        var ends := s.event.value.lastObserved.value + quiet as int;
        && (ends <= now ==> delay == 1_000_000)
        && (now < ends < now + 0x8000_0000_0000_0000 ==> now + delay == ends)
        && (ends >= now + 0x8000_0000_0000_0000 ==> delay == 0x7fff_ffff_ffff_ffff)
      else delay == 0
  {
  }

  // The delay ends on the first instant at which the warning rule no longer matches.
  ghost predicate LandsOnQuiet(o: R.Options, s: Snapshot, now: Time, delay: int) {
    forall t :: t >= now ==> (R.WarningEvent(o, t, s) != [] <==> t < now + delay)
  }

  // The reconciler reads its clock at now and the engine reads it again, no earlier. For a semantic
  // Event the delay is positive, and it is exact exactly when what remains of the quiet period
  // fits a 64-bit duration, as it does whenever the event is not in the future.
  lemma RequeueIsExact(o: R.Options, s: Snapshot, now: Time, at: R.Readings, previous: Option<Incident>,
                       quiet: Backoff.Duration)
    requires quiet as int == o.eventQuietPeriod > 0 && now <= at.event
    requires R.Evaluate(o, at, s, previous).disposition == R.Semantic
    requires s.event.Some? && s.event.value.lastObserved.Some?
    ensures var delay := EventRequeue(s, now, R.Evaluate(o, at, s, previous), quiet);
            var remaining := s.event.value.lastObserved.value + o.eventQuietPeriod - now;
            && delay > 0
            && (LandsOnQuiet(o, s, now, delay as int) <==> remaining < 0x8000_0000_0000_0000)
            && (s.event.value.lastObserved.value <= now ==> remaining <= quiet as int)
  {
    SemanticMatches(o, at, s, previous);
    var delay := EventRequeue(s, now, R.Evaluate(o, at, s, previous), quiet);
    var quietAt := s.event.value.lastObserved.value + o.eventQuietPeriod;
    forall t | t >= now ensures R.WarningEvent(o, t, s) != [] <==> t < quietAt {}
    if quietAt - now >= 0x8000_0000_0000_0000 {
      assert R.WarningEvent(o, now + delay as int, s) != [];
    }
  }

  lemma SemanticMatches(o: R.Options, at: R.Readings, s: Snapshot, previous: Option<Incident>)
    requires R.Evaluate(o, at, s, previous).disposition == R.Semantic
    ensures R.WarningEvent(o, at.event, s) != []
  {
    var m := R.Examine(o, at, s).matches[0];
    SortKeepsFirst(R.AllMatches(o, at, s));
    WarningsComeLast(R.PodCrashLoop(o, at.crashLoop, s), R.PodUnschedulable(o, at.unschedulable, s),
                     R.ImagePullFailure(o, at.imagePull, s), R.FailedJob(s),
                     R.WorkloadUnavailable(o, at.workload, s), R.WarningEvent(o, at.event, s), m);
  }

  lemma SortKeepsFirst(ms: seq<R.Match>)
    ensures var sorted := Order.Sort(ms, R.MatchLess);
            sorted != [] ==> sorted[0] in ms
  {
    Order.StringsAreOrdered();
    Order.SortSorts(ms, R.MatchLess);
    var sorted := Order.Sort(ms, R.MatchLess);
    assert sorted != [] ==> sorted[0] in multiset(sorted);
  }

  lemma WarningsComeLast(a: seq<R.Match>, b: seq<R.Match>, c: seq<R.Match>, d: seq<R.Match>, e: seq<R.Match>,
                         f: seq<R.Match>, m: R.Match)
    requires R.Only(a, "pod-crash-loop") && R.Only(b, "pod-unschedulable") && R.Only(c, "image-pull-failure")
    requires R.Only(d, "job-failed") && R.Only(e, "workload-unavailable")
    requires m in a + b + c + d + e + f && m.ruleId == "warning-event"
    ensures m in f
  {
    assert m in a || m in b || m in c || m in d || m in e || m in f;
  }

  /** The reconciler */

  class Reconciler {
    const store: S.Store
    const clusterId: string
    const destinations: seq<string>
    const providerConfigHash: string
    const options: R.Options
    const rubric: Questions
    const eventQuietPeriod: Backoff.Duration
    // The digest of a canonical form, as ContentHash writes it.
    const digest: Fingerprint.Canonical -> Hash

    ghost predicate Valid()
      reads this, store
    {
      && !Blank(clusterId) && ValidDestinations(destinations) && IsRubric(rubric) && Digests(digest)
      && store.Valid() && DbOk(store.Contents())
    }

    function PolicyVersion(): string { R.POLICY_VERSION + "+" + COMPOSITION_POLICY_VERSION }

    ghost function AsSite(): Site { Site(destinations, PolicyVersion(), providerConfigHash) }

    // The destinations are those CheckDestinations returned.
    constructor (store: S.Store, clusterId: string, destinations: seq<string>, providerConfigHash: string,
                 options: R.Options, rubric: Questions, eventQuietPeriod: Backoff.Duration,
                 digest: Fingerprint.Canonical -> Hash)
      requires IsRubric(rubric) && Digests(digest) && !Blank(clusterId) && ValidDestinations(destinations)
      requires store.Valid() && DbOk(store.Contents())
      ensures Valid() && this.store == store && this.clusterId == clusterId && this.destinations == destinations
      ensures this.providerConfigHash == providerConfigHash && this.options == options
      ensures this.rubric == rubric && this.eventQuietPeriod == eventQuietPeriod && this.digest == digest
    {
      this.store, this.clusterId, this.destinations := store, clusterId, destinations;
      this.providerConfigHash, this.options, this.rubric := providerConfigHash, options, rubric;
      this.eventQuietPeriod, this.digest := eventQuietPeriod, digest;
    }

    method Deliveries(t: Spec.Task, i: Incident, created: bool, d: Decision) returns (ns: seq<Notification>)
      ensures ns == Spec.Deliveries(destinations, t, i, created, d)
      ensures ns != [] ==> Spec.StatusFor(t.result) == Resolved || d.action == Notify || d.action == Page
      ensures Spec.StatusFor(t.result) == Resolved || d.action == Notify || d.action == Page ==>
        |ns| == |destinations|
      ensures forall k :: 0 <= k < |ns| ==> k < |destinations| && Tells(ns[k], destinations[k], t, i, created, d)
    {
      ns := [];
      if Spec.StatusFor(t.result) != Resolved && d.action != Notify && d.action != Page { return; }
      var payload := Spec.PayloadOf(t, i, d);
      var evaluation := EvaluationId(Spec.IdentityOf(t, i.id));
      for k := 0 to |destinations|
        invariant |ns| == k
        invariant forall j :: 0 <= j < k ==> ns[j] == Spec.DeliveryTo(t, i, created, d, destinations[j])
      {
        var id := DeliveryId(evaluation, destinations[k], Spec.EventFor(t, created));
        ns := ns + [Notification(id, evaluation, destinations[k], Spec.EventFor(t, created), t.now, payload)];
      }
    }

    // Store the snapshot, decide, and commit incident, evaluation and outbox rows together.
    method Record(t: Spec.Task, held: Incident, created: bool, primary: ProviderReply,
                  fallback: Option<ProviderReply>)
      returns (outcome: S.Outcome, d: Decision)
      requires IsRubric(rubric) && store.Valid() && held.id != BlankId && !Blank(t.snapshot.contentHash)
      modifies store
      ensures store.Valid() && Composed(t.result, Consulted(rubric, t.result, primary, fallback), d)
      ensures S.CommitResult(store.Contents(), outcome) ==
              S.Committed(WithSnapshot(old(store.Contents()), held.id, t.snapshot),
                          Spec.RequestOf(destinations, t, held, created, d))
    {
      d := Decide(rubric, t.result, primary, fallback);
      var stored, inserted := store.UpsertSnapshot(held.id, t.snapshot);
      assert store.Contents() == WithSnapshot(old(store.Contents()), held.id, t.snapshot);
      var status := Spec.StatusFor(t.result);
      var incident := held.(source := t.snapshot.source, status := status, contentHash := t.snapshot.contentHash,
                            updatedAt := t.now);
      if status == Resolved {
        incident := incident.(resolvedAt := Some(t.now));
      } else {
        incident := incident.(resolvedAt := None);
      }
      var identity := Spec.IdentityOf(t, held.id);
      var evaluation := Evaluation(EvaluationId(identity), identity, d, t.now);
      var deliveries := Deliveries(t, held, created, d);
      outcome := store.Commit(S.CommitRequest(incident, incident.version, evaluation, deliveries));
    }

    method Persist(t: Spec.Task, previous: Option<Incident>, primary: ProviderReply, fallback: Option<ProviderReply>)
      returns (outcome: S.Outcome, d: Decision)
      requires IsRubric(rubric) && store.Valid() && IncidentsOk(store.incidents)
      requires t.snapshot.source.clusterId == clusterId && !Blank(clusterId) && !Blank(t.snapshot.contentHash)
      requires previous == Known(store.incidents, t.snapshot.source)
      modifies store
      ensures store.Valid()
      ensures Settled(t, previous) ==> store.Contents() == old(store.Contents()) && outcome == S.Ok
      ensures !Settled(t, previous) ==>
              Composed(t.result, Consulted(rubric, t.result, primary, fallback), d)
              && var held := if previous.Some? then previous.value else Spec.NewIncident(t);
              S.CommitResult(store.Contents(), outcome) ==
              S.Committed(PreparedFor(old(store.Contents()), held, t),
                          Spec.RequestOf(destinations, t, held, previous.None?, d))
    {
      var held, created := Hold(t, previous);
      if !created && held.contentHash == t.snapshot.contentHash && !R.IsRecovery(t.result) { return S.Ok, FALLBACK; }
      assert WithSnapshot(store.Contents(), held.id, t.snapshot) == PreparedFor(old(store.Contents()), held, t);
      outcome, d := Record(t, held, created, primary, fallback);
    }

    // The incident to update: the one already there, or a new one inserted and read back.
    method Hold(t: Spec.Task, previous: Option<Incident>) returns (held: Incident, created: bool)
      requires store.Valid() && IncidentsOk(store.incidents)
      requires t.snapshot.source.clusterId == clusterId && !Blank(clusterId)
      requires previous == Known(store.incidents, t.snapshot.source)
      modifies store`incidents
      ensures store.Valid() && store.incidents == old(store.incidents)[held.id := held]
      ensures held == (if previous.Some? then previous.value else Spec.NewIncident(t)) && created == previous.None?
      ensures held.id == IncidentId(KeyOf(t.snapshot.source))
      ensures !created ==> store.incidents == old(store.incidents)
    {
      held, created := Spec.NewIncident(t), true;
      if previous.Some? {
        held, created := previous.value, false;
        assert store.incidents[held.id := held] == store.incidents;
      } else {
        FindIsById(store.incidents, clusterId, held.key);
        var found, outcome;
        found, created, outcome := store.UpsertIncident(held);
        assert store.incidents == old(store.incidents)[held.id := held];
        ReadBack(old(store.incidents), held, found);
        held := found.value;
      }
    }

    // Reconcile a resource that exists. The reconciler reads its clock at now, the engine at at.
    // quiet is the fingerprint under which a quiet Event is resolved.
    method Reconcile(snapshot: Snapshot, now: Time, at: R.Readings, primary: ProviderReply,
                     fallback: Option<ProviderReply>)
      returns (requeue: Backoff.Duration, outcome: S.Outcome, d: Decision, ghost quiet: Hash)
      requires Valid() && snapshot.source.clusterId == clusterId && !Blank(snapshot.contentHash)
      modifies store
      ensures Valid()
      ensures var o := Spec.Present(snapshot, R.Examine(options, at, snapshot), quiet);
              && Reconciles(AsSite(), old(store.Contents()), store.Contents(), o, now, rubric, primary, fallback,
                            outcome, d)
              && requeue == RequeueOf(AsSite(), old(store.Contents()), o, now, eventQuietPeriod)
              && FallsQuiet(digest, TaskOf(AsSite(), old(store.Contents()), o, now))
    {
      ghost var before := store.Contents();
      R.ExamineIsGenuine(options, at, snapshot);
      var previous, task;
      previous, task, quiet := Observe(snapshot, now, at);
      ghost var o := Spec.Present(snapshot, R.Examine(options, at, snapshot), quiet);
      requeue := EventRequeue(task.snapshot, now, task.result, eventQuietPeriod);
      if previous.Some? && previous.value.status == Resolved && task.result.disposition == R.Unmatched { requeue := 0; }
      outcome, d := PersistUnlessSkipped(o, task, previous, primary, fallback);
    }

    // The three reasons not to persist, and persist.
    method PersistUnlessSkipped(ghost o: Spec.Observation, task: Spec.Task, previous: Option<Incident>,
                                primary: ProviderReply, fallback: Option<ProviderReply>)
      returns (outcome: S.Outcome, d: Decision)
      requires Valid() && o.Present? && Observes(o) && o.snapshot.source.clusterId == clusterId
      requires previous == Known(store.incidents, o.snapshot.source)
      requires task == TaskOf(AsSite(), store.Contents(), o, task.now)
      modifies store
      ensures Valid()
      ensures Reconciles(AsSite(), old(store.Contents()), store.Contents(), o, task.now, rubric, primary, fallback,
                         outcome, d)
    {
      ghost var before := store.Contents();
      outcome, d := S.Ok, FALLBACK;
      if Spec.LeavesAlone(o, previous) { Skipped(AsSite(), before, o, task.now, rubric, primary, fallback, d); }
      var recovery := R.IsRecovery(task.result);
      if previous.Some? && previous.value.contentHash == task.snapshot.contentHash && !recovery { return; }
      if task.result.disposition == R.Unmatched && previous.None? { return; }
      if previous.Some? && previous.value.status == Resolved && task.result.disposition == R.Unmatched { return; }
      outcome, d := Persist(task, previous, primary, fallback);
      Persisted(AsSite(), before, store.Contents(), o, task.now, rubric, primary, fallback, outcome, d);
    }

    // Look the incident up, evaluate the rules against it, and fingerprint an Event gone quiet.
    method Observe(snapshot: Snapshot, now: Time, at: R.Readings)
      returns (previous: Option<Incident>, task: Spec.Task, ghost quiet: Hash)
      requires IncidentsOk(store.incidents) && snapshot.source.clusterId == clusterId && !Blank(clusterId)
      requires Digests(digest) && !Blank(snapshot.contentHash)
      ensures previous == Known(store.incidents, snapshot.source) && !Blank(quiet)
      ensures task == TaskOf(AsSite(), store.Contents(),
                             Spec.Present(snapshot, R.Examine(options, at, snapshot), quiet), now)
      ensures FallsQuiet(digest, task)
    {
      FindIsById(store.incidents, clusterId, KeyOf(snapshot.source));
      var lookup;
      previous, lookup := store.GetIncident(clusterId, KeyOf(snapshot.source));
      LookedUp(store.incidents, snapshot.source, previous);
      var result := Engine.Evaluate(options, at, snapshot, previous);
      var observed := snapshot;
      quiet := snapshot.contentHash;
      if R.IsRecovery(result) && snapshot.event.Some? {
        observed := observed.(conditions := observed.conditions + [Spec.QUIET]);
        var form := Fingerprint.ContentHash(observed);
        observed := observed.(contentHash := digest(form));
        quiet := observed.contentHash;
        assert Fingerprint.Canonicalises(observed, form);
      }
      task := Spec.Task(observed, result, now, PolicyVersion(), providerConfigHash);
    }

    // Reconcile a resource that is gone, known only by its key.
    method ResolveDeletion(source: Source, now: Time)
      returns (outcome: S.Outcome, d: Decision, ghost snapshot: Snapshot)
      requires Valid() && source.clusterId == clusterId
      modifies store
      ensures Valid() && snapshot == DeletionOf(source, now, snapshot.contentHash)
      ensures Reconciles(AsSite(), old(store.Contents()), store.Contents(), Spec.Gone(snapshot), now, rubric,
                         Unavailable, None, outcome, d)
      ensures Fingerprints(digest, snapshot)
      ensures var previous := Known(old(store.incidents), source);
              previous.Some? && previous.value.status != Resolved ==> RecordsDeletion(d)
    {
      ghost var before := store.Contents();
      FindIsById(store.incidents, clusterId, KeyOf(source));
      var previous, lookup := store.GetIncident(clusterId, KeyOf(source));
      LookedUp(store.incidents, source, previous);
      outcome, d := S.Ok, FALLBACK;
      var form := Fingerprint.ContentHash(DeletionOf(source, now, NO_HASH));
      var deleted := DeletionOf(source, now, digest(form));
      assert Fingerprint.Canonicalises(deleted, form);
      snapshot := deleted;
      ghost var o := Spec.Gone(snapshot);
      if Spec.LeavesAlone(o, previous) { Skipped(AsSite(), before, o, now, rubric, Unavailable, None, d); }
      if previous.None? { return; }
      if previous.value.status == Resolved { return; }
      var task := Spec.Task(deleted, Spec.DELETED_RESULT, now, PolicyVersion(), providerConfigHash);
      assert task == TaskOf(AsSite(), before, o, now);
      TaskIsSound(AsSite(), before, o, now);
      outcome, d := Persist(task, previous, Unavailable, None);
      Persisted(AsSite(), before, store.Contents(), o, now, rubric, Unavailable, None, outcome, d);
    }
  }

  // A notification says what the incident has become, what was decided and what was observed.
  predicate Tells(n: Notification, destination: string, t: Spec.Task, i: Incident, created: bool, d: Decision) {
    var status := Spec.StatusFor(t.result);
    && n.destination == destination && n.id == DeliveryId(n.evaluationId, destination, n.eventType)
    && n.eventType == (if status == Resolved then EventResolved else if created then EventOpened else EventUpdated)
    && n.nextAttemptAt == t.now && n.evaluationId == EvaluationId(Spec.IdentityOf(t, i.id))
    && n.payload.incidentId == i.id && n.payload.evaluationId == n.evaluationId && n.payload.status == status
    && n.payload.severity == d.severity && n.payload.action == d.action && n.payload.summary == d.summary
    && n.payload.ruleIds == d.ruleIds && n.payload.reasonCodes == d.reasonCodes
    && n.payload.resource == t.snapshot.source && n.payload.observedAt == t.snapshot.observedAt
  }

  // A digest is never blank.
  ghost predicate Digests(digest: Fingerprint.Canonical -> Hash) {
    forall c :: !Blank(digest(c))
  }

  // The snapshot carries the digest of one of its canonical forms.
  ghost predicate Fingerprints(digest: Fingerprint.Canonical -> Hash, s: Snapshot) {
    exists c :: Fingerprint.Canonicalises(s, c) && s.contentHash == digest(c)
  }

  // An Event that has recovered is recorded under its own new fingerprint.
  ghost predicate FallsQuiet(digest: Fingerprint.Canonical -> Hash, t: Spec.Task) {
    R.IsRecovery(t.result) && t.snapshot.event.Some? ==> Fingerprints(digest, t.snapshot)
  }

  function DeletionOf(source: Source, now: Time, hash: Hash): Snapshot {
    Snapshot(source, now, map[], [Condition("Deleted", "True", "ResourceDeleted", "", None)], [], None, None, None,
             hash)
  }

  predicate RecordsDeletion(d: Decision) {
    && d.severity == Info && d.action == Record && d.summary == "observed resource was deleted"
    && d.reasonCodes == ["resource_deleted"] && d.ruleIds == ["resource-deleted"]
  }

  // The content is already recorded.
  predicate Settled(t: Spec.Task, previous: Option<Incident>) {
    previous.Some? && previous.value.contentHash == t.snapshot.contentHash && !R.IsRecovery(t.result)
  }

  function WithSnapshot(db: S.Db, id: Id, s: Snapshot): S.Db {
    db.(snapshots := S.SnapshotUpserted(db.snapshots, id, s))
  }

  lemma LookedUp(incidents: map<Id, Incident>, source: Source, found: Option<Incident>)
    requires IncidentsOk(incidents)
    requires found.None? <==> !S.HasIncident(incidents, source.clusterId, KeyOf(source))
    requires found.Some? ==> found.value in incidents.Values && S.Matches(found.value, source.clusterId, KeyOf(source))
    ensures found == Known(incidents, source)
  {
    FindIsById(incidents, source.clusterId, KeyOf(source));
  }

  lemma ReadBack(incidents: map<Id, Incident>, i: Incident, found: Option<Incident>)
    requires IncidentsOk(incidents) && i.id == IncidentId(i.key) && i.clusterId == i.key.clusterId
    requires found.None? <==> !S.HasIncident(incidents[i.id := i], i.clusterId, i.key)
    requires found.Some? ==> found.value in incidents[i.id := i].Values && S.Matches(found.value, i.clusterId, i.key)
    ensures found == Some(i)
  {
    assert S.Matches(incidents[i.id := i][i.id], i.clusterId, i.key);
  }

  // What one reconciliation does: the store afterwards is Sequential.Run of the store before, a
  // lone commit is never refused, and what it writes is what was observed and decided.
  ghost predicate Reconciles(site: Site, before: S.Db, after: S.Db, o: Spec.Observation, now: Time,
                             rubric: Questions, primary: ProviderReply, fallback: Option<ProviderReply>,
                             outcome: S.Outcome, d: Decision)
  {
    var skipped := Spec.LeavesAlone(o, Previous(before, o));
    var r := TaskOf(site, before, o, now).result;
    && after == Run(site, before, o, now, d)
    && outcome == (if skipped || Writes(site, before, o, now) then S.Ok else S.AlreadyEvaluated)
    && (Writes(site, before, o, now) ==> Written(site, before, after, o, now, d))
    && (skipped || Composed(r, Consulted(rubric, r, primary, fallback), d))
    && (skipped || Follows(rubric, r, primary, fallback, d))
  }

  function RequeueOf(site: Site, db: S.Db, o: Spec.Observation, now: Time, quiet: Backoff.Duration): Backoff.Duration {
    var t := TaskOf(site, db, o, now);
    EventRequeue(t.snapshot, now, t.result, quiet)
  }

  lemma Skipped(site: Site, db: S.Db, o: Spec.Observation, now: Time, rubric: Questions,
                primary: ProviderReply, fallback: Option<ProviderReply>, d: Decision)
    requires DbOk(db) && Observes(o) && Spec.LeavesAlone(o, Previous(db, o))
    ensures Reconciles(site, db, db, o, now, rubric, primary, fallback, S.Ok, d)
  {
    RunIsOneCommit(site, db, o, now, d);
  }

  // With no other worker around there is no version race to lose.
  lemma LoneCommitIsAccepted(site: Site, db: S.Db, o: Spec.Observation, now: Time, d: Decision)
    requires ValidDestinations(site.destinations) && DbOk(db) && Observes(o)
    requires !Spec.LeavesAlone(o, Previous(db, o))
    ensures var t := TaskOf(site, db, o, now);
            var r := Spec.RequestOf(site.destinations, t, Held(db, o, t), Previous(db, o).None?, d);
            S.Committed(PreparedFor(db, Held(db, o, t), t), r).outcome
              == if Writes(site, db, o, now) then S.Ok else S.AlreadyEvaluated
  {
    PreparedOk(site, db, o, now);
    TaskIsSound(site, db, o, now);
    var t := TaskOf(site, db, o, now);
    CommitOutcomes(site.destinations, Prepared(db, o, t),
                   Spec.Committing(t, Held(db, o, t), Previous(db, o).None?), d);
  }

  lemma Persisted(site: Site, db: S.Db, after: S.Db, o: Spec.Observation, now: Time, rubric: Questions,
                  primary: ProviderReply, fallback: Option<ProviderReply>, outcome: S.Outcome, d: Decision)
    requires IsRubric(rubric) && ValidDestinations(site.destinations) && DbOk(db) && Observes(o)
    requires !Spec.LeavesAlone(o, Previous(db, o))
    requires var t := TaskOf(site, db, o, now);
             && Composed(t.result, Consulted(rubric, t.result, primary, fallback), d)
             && S.CommitResult(after, outcome)
                == S.Committed(PreparedFor(db, Held(db, o, t), t),
                               Spec.RequestOf(site.destinations, t, Held(db, o, t), Previous(db, o).None?, d))
    ensures Reconciles(site, db, after, o, now, rubric, primary, fallback, outcome, d) && DbOk(after)
  {
    var t := TaskOf(site, db, o, now);
    LoneCommitIsAccepted(site, db, o, now, d);
    RunIsOneCommit(site, db, o, now, d);
    Effect(site, db, o, now, d);
    if Writes(site, db, o, now) { WrittenExactly(site, db, o, now, d); }
    ComposedFollows(rubric, t.result, primary, fallback, d);
  }
}
