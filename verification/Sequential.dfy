/**
 One reconciliation at a time: what it leaves in the store, and when running it again on the
 same observation changes nothing.
 */
module Sequential {
  import opened Domain
  import opened Rules
  import opened Store
  import opened Reconciler
  import opened Incidents

  // ContentHash never returns a blank fingerprint.
  predicate Fingerprinted(o: Observation) {
    !Blank(o.snapshot.contentHash) && (o.Present? ==> !Blank(o.quietHash))
  }

  ghost predicate Observes(o: Observation) {
    ValidObservation(o) && Fingerprinted(o) && !Blank(o.snapshot.source.clusterId)
  }

  // One reconciler process: its destinations and the versions that enter an evaluation's identity.
  datatype Site = Site(destinations: seq<string>, policyVersion: string, providerConfigHash: string)

  ghost function Run(site: Site, db: Db, o: Observation, now: Time, d: Decision): Db {
    Reconciled(site.destinations, db, o, now, site.policyVersion, site.providerConfigHash, d)
  }

  function IncidentOf(o: Observation): Id {
    IncidentId(KeyOf(o.snapshot.source))
  }

  function Known(incidents: map<Id, Incident>, source: Source): Option<Incident> {
    var id := IncidentId(KeyOf(source));
    if id in incidents then Some(incidents[id]) else None
  }

  function Previous(db: Db, o: Observation): Option<Incident> { Known(db.incidents, o.snapshot.source) }

  function TaskOf(site: Site, db: Db, o: Observation, now: Time): Task {
    var r := ResultOf(o, Previous(db, o));
    Task(SnapshotOf(o, r), r, now, site.policyVersion, site.providerConfigHash)
  }

  // The store when the worker is about to commit, and the incident it holds.
  function Held(db: Db, o: Observation, t: Task): Incident {
    if Previous(db, o).Some? then Previous(db, o).value else NewIncident(t)
  }

  function PreparedFor(db: Db, i: Incident, t: Task): Db {
    db.(incidents := db.incidents[i.id := i], snapshots := SnapshotUpserted(db.snapshots, i.id, t.snapshot))
  }

  function Prepared(db: Db, o: Observation, t: Task): Db { PreparedFor(db, Held(db, o, t), t) }

  /** What an observation says, in its own terms */

  // The observation resolves: the resource is gone, or nothing matches any more and the incident
  // was open.
  predicate Resolves(o: Observation, previous: Option<Incident>) {
    o.Gone? || (o.finding == Matched([]) && previous.Some? && previous.value.status == Open)
  }

  function StatusOf(o: Observation, previous: Option<Incident>): IncidentStatus {
    if Resolves(o, previous) then Resolved
    else if o.Present? && o.finding.Ignored? then Suppressed
    else Open
  }

  // A quiet Event is resolved under a fingerprint of its own.
  function FingerprintOf(o: Observation, previous: Option<Incident>): Hash {
    if o.Present? && o.snapshot.event.Some? && Resolves(o, previous) then o.quietHash else o.snapshot.contentHash
  }

  lemma StatusExactly(o: Observation, previous: Option<Incident>)
    requires ValidObservation(o)
    ensures StatusFor(ResultOf(o, previous)) == StatusOf(o, previous)
    ensures IsRecovery(ResultOf(o, previous)) <==> Resolves(o, previous)
  {
    if o.Present? {
      RecoveryExactly(o.finding, previous);
    } else {
      assert DELETED_RESULT.matches[0] in DELETED_RESULT.matches;
    }
  }

  // Skipped: a resource already settled or never reported, and content already recorded.
  lemma SkipsExactly(o: Observation, previous: Option<Incident>)
    requires ValidObservation(o)
    ensures LeavesAlone(o, previous) <==>
      if o.Gone? then previous.None? || previous.value.status == Resolved
      else if o.finding == Matched([]) then
        previous.None? || previous.value.status == Resolved
        || (previous.value.status == Suppressed && previous.value.contentHash == o.snapshot.contentHash)
      else previous.Some? && previous.value.contentHash == o.snapshot.contentHash
  {
    if o.Present? { RecoveryExactly(o.finding, previous); }
  }

  // Only a lone warning event is put to the providers.
  predicate AsksProviders(o: Observation) {
    o.Present? && o.finding.Matched? && |o.finding.matches| == 1 && o.finding.matches[0].ruleId == "warning-event"
  }

  lemma TaskIsSound(site: Site, db: Db, o: Observation, now: Time)
    requires DbOk(db) && Observes(o) && !LeavesAlone(o, Previous(db, o))
    ensures
      var t := TaskOf(site, db, o, now);
      && !Blank(t.snapshot.contentHash) && KeyOf(t.snapshot.source) == KeyOf(o.snapshot.source)
      && t.snapshot.source.clusterId == o.snapshot.source.clusterId
      && (IsRecovery(t.result) ==> Previous(db, o).Some? && Previous(db, o).value.status != Resolved)
      && (Previous(db, o).Some? && !IsRecovery(t.result) ==>
            Previous(db, o).value.contentHash != t.snapshot.contentHash)
  {
    ResultRecovers(o, Previous(db, o));
    if o.Gone? {
      assert DELETED_RESULT.matches[0] in DELETED_RESULT.matches;
    }
  }

  lemma FinishStoring(ds: seq<string>, db: Db, t: Task, i: Incident, created: bool, d: Decision)
    requires i.id != BlankId && !Blank(t.snapshot.contentHash)
    ensures Finished(ds, db, StoringSnapshot(t, i, created), d)
         == Committed(db.(snapshots := SnapshotUpserted(db.snapshots, i.id, t.snapshot)),
                      RequestOf(ds, t, i, created, d)).db
  {
    var next := db.(snapshots := SnapshotUpserted(db.snapshots, i.id, t.snapshot));
    assert Advance(ds, db, StoringSnapshot(t, i, created), d) == Moved(next, Committing(t, i, created));
    assert Finished(ds, next, Committing(t, i, created), d) == Committed(next, RequestOf(ds, t, i, created, d)).db;
  }

  lemma FinishUpserting(ds: seq<string>, db: Db, t: Task, d: Decision)
    requires IncidentsOk(db.incidents) && NewIncident(t).id !in db.incidents && !Blank(t.snapshot.source.clusterId)
    ensures Finished(ds, db, Upserting(t), d)
         == Finished(ds, db.(incidents := db.incidents[NewIncident(t).id := NewIncident(t)]),
                     StoringSnapshot(t, NewIncident(t), true), d)
  {
    var i := NewIncident(t);
    var base := db.(incidents := db.incidents[i.id := i]);
    FindIsById(db.incidents, i.clusterId, i.key);
    assert Advance(ds, db, Upserting(t), d) == Moved(base, ReadingBack(t, true));
    FoundAfterInsert(db.incidents, i);
    assert Advance(ds, base, ReadingBack(t, true), d) == Moved(base, StoringSnapshot(t, i, true));
  }

  lemma StartsWith(site: Site, db: Db, o: Observation, now: Time)
    requires DbOk(db) && Observes(o)
    ensures
      var t := TaskOf(site, db, o, now);
      var previous := Previous(db, o);
      Start(db, o, now, site.policyVersion, site.providerConfigHash)
        == if LeavesAlone(o, previous) then Idle
           else if previous.Some? then StoringSnapshot(t, previous.value, false)
           else Upserting(t)
  {
    FindIsById(db.incidents, o.snapshot.source.clusterId, KeyOf(o.snapshot.source));
    if !LeavesAlone(o, Previous(db, o)) { TaskIsSound(site, db, o, now); }
  }

  lemma Rewrite(incidents: map<Id, Incident>, i: Incident)
    requires i.id in incidents && incidents[i.id] == i
    ensures incidents[i.id := i] == incidents
  {
  }

  // A lone reconciliation that persists anything ends in one commit on the prepared store.
  lemma RunIsOneCommit(site: Site, db: Db, o: Observation, now: Time, d: Decision)
    requires DbOk(db) && Observes(o)
    ensures
      var t := TaskOf(site, db, o, now);
      Run(site, db, o, now, d)
        == if LeavesAlone(o, Previous(db, o)) then db
           else Committed(Prepared(db, o, t),
                          RequestOf(site.destinations, t, Held(db, o, t), Previous(db, o).None?, d)).db
  {
    StartsWith(site, db, o, now);
    if !LeavesAlone(o, Previous(db, o)) {
      TaskIsSound(site, db, o, now);
      var t := TaskOf(site, db, o, now);
      var i := Held(db, o, t);
      var base := db.(incidents := db.incidents[i.id := i]);
      if Previous(db, o).None? {
        FinishUpserting(site.destinations, db, t, d);
      } else {
        Rewrite(db.incidents, i);
      }
      FinishStoring(site.destinations, base, t, i, Previous(db, o).None?, d);
    }
  }

  lemma FoundAfterInsert(incidents: map<Id, Incident>, i: Incident)
    requires IncidentsOk(incidents) && i.id !in incidents
    requires i.id == IncidentId(i.key) && i.clusterId == i.key.clusterId && !Blank(i.clusterId) && i.version >= 1
    ensures FindIncident(incidents[i.id := i], i.clusterId, i.key) == Some(i)
  {
    FindIsById(incidents[i.id := i], i.clusterId, i.key);
  }

  /** What a reconciliation leaves behind */

  function EvaluationIdentity(site: Site, db: Db, o: Observation, now: Time): Identity {
    IdentityOf(TaskOf(site, db, o, now), IncidentOf(o))
  }

  // The observation is persisted: it is not skipped, and its evaluation is a new one.
  predicate Writes(site: Site, db: Db, o: Observation, now: Time) {
    !LeavesAlone(o, Previous(db, o)) && !Evaluated(db.evaluations, EvaluationIdentity(site, db, o, now))
  }

  lemma PreparedOk(site: Site, db: Db, o: Observation, now: Time)
    requires DbOk(db) && Observes(o) && !LeavesAlone(o, Previous(db, o))
    ensures
      var t := TaskOf(site, db, o, now);
      var prepared := Prepared(db, o, t);
      DbOk(prepared)
      && PhaseOk(prepared.incidents, prepared.snapshots.Keys, Committing(t, Held(db, o, t), Previous(db, o).None?))
  {
    TaskIsSound(site, db, o, now);
    var t := TaskOf(site, db, o, now);
    var i := Held(db, o, t);
    var prepared := Prepared(db, o, t);
    CommitKeepsIncidents(db.incidents, i);
    MoreIsOk(db.incidents.Keys, db.snapshots.Keys, db.evaluations, prepared.incidents.Keys, prepared.snapshots.Keys);
    assert HashesOk(prepared.incidents, prepared.evaluations);
  }

  ghost predicate Applied(site: Site, db: Db, db': Db, o: Observation, now: Time, d: Decision) {
    var t := TaskOf(site, db, o, now);
    var i := Held(db, o, t);
    var r := RequestOf(site.destinations, t, i, Previous(db, o).None?, d);
    && db'.incidents == db.incidents[i.id := Updated(i, r.incident)]
    && db'.snapshots == Prepared(db, o, t).snapshots
    && db'.evaluations == db.evaluations[r.evaluation.id := r.evaluation]
    && Inserted(db.outbox, db'.outbox, r.deliveries, now)
  }

  lemma Overwrite(m: map<Id, Incident>, i: Incident, n: Incident)
    requires i.id == n.id
    ensures m[i.id := i][i.id := n] == m[i.id := n]
  {
  }

  lemma CommitEffect(ds: seq<string>, db: Db, t: Task, i: Incident, created: bool, d: Decision)
    requires ValidDestinations(ds) && DbOk(db) && i.id in db.incidents && db.incidents[i.id] == i
    requires PhaseOk(db.incidents, db.snapshots.Keys, Committing(t, i, created))
    ensures
      var r := RequestOf(ds, t, i, created, d);
      var db' := Committed(db, r).db;
      && DbOk(db')
      && (Evaluated(db.evaluations, IdentityOf(t, i.id)) ==> db' == db)
      && (!Evaluated(db.evaluations, IdentityOf(t, i.id)) ==>
            && db'.incidents == db.incidents[i.id := Updated(i, r.incident)]
            && db'.snapshots == db.snapshots
            && db'.evaluations == db.evaluations[r.evaluation.id := r.evaluation]
            && Inserted(db.outbox, db'.outbox, r.deliveries, t.now))
  {
    CommitOutcomes(ds, db, Committing(t, i, created), d);
    WinKeepsDb(ds, db, Committing(t, i, created), d);
  }

  lemma Effect(site: Site, db: Db, o: Observation, now: Time, d: Decision)
    requires ValidDestinations(site.destinations) && DbOk(db) && Observes(o)
    ensures
      var db' := Run(site, db, o, now, d);
      && DbOk(db')
      && (LeavesAlone(o, Previous(db, o)) ==> db' == db)
      && (!LeavesAlone(o, Previous(db, o)) && !Writes(site, db, o, now) ==>
            db' == Prepared(db, o, TaskOf(site, db, o, now)))
      && (Writes(site, db, o, now) ==> Applied(site, db, db', o, now, d))
  {
    RunIsOneCommit(site, db, o, now, d);
    if !LeavesAlone(o, Previous(db, o)) {
      PreparedOk(site, db, o, now);
      TaskIsSound(site, db, o, now);
      var t := TaskOf(site, db, o, now);
      var i := Held(db, o, t);
      CommitEffect(site.destinations, Prepared(db, o, t), t, i, Previous(db, o).None?, d);
      Overwrite(db.incidents, i, Updated(i, RequestOf(site.destinations, t, i, Previous(db, o).None?, d).incident));
    }
  }

  /** What is written, field by field */

  function EventOf(o: Observation, previous: Option<Incident>): EventType {
    if Resolves(o, previous) then EventResolved else if previous.None? then EventOpened else EventUpdated
  }

  function IdentityFor(site: Site, o: Observation, previous: Option<Incident>): Identity {
    Identity(IncidentOf(o), FingerprintOf(o, previous), site.policyVersion,
             if AsksProviders(o) then "operational-triage-v1" else "", site.providerConfigHash)
  }

  predicate IncidentWritten(o: Observation, previous: Option<Incident>, i: Incident, now: Time) {
    && i.id == IncidentOf(o) && i.key == KeyOf(o.snapshot.source) && i.clusterId == o.snapshot.source.clusterId
    && i.source == o.snapshot.source && i.status == StatusOf(o, previous)
    && i.contentHash == FingerprintOf(o, previous) && i.updatedAt == now
    && i.resolvedAt == (if Resolves(o, previous) then Some(now) else None)
    && i.openedAt == (if previous.Some? then previous.value.openedAt else now)
    && i.version == (if previous.Some? then previous.value.version + 1 else 2)
  }

  predicate RowWritten(o: Observation, previous: Option<Incident>, e: Id, row: Row, now: Time, d: Decision) {
    && row.id == DeliveryId(e, row.destination, row.eventType) && row.evaluationId == e
    && row.eventType == EventOf(o, previous)
    && row.status == Pending && row.attempts == 0 && row.nextAttemptAt == row.updatedAt == now
    && row.leaseOwner == None && row.leaseUntil == None && row.lastFailure == None && row.deliveredAt == None
    && row.payload.incidentId == IncidentOf(o) && row.payload.evaluationId == e
    && row.payload.status == StatusOf(o, previous)
    && row.payload.severity == d.severity && row.payload.action == d.action && row.payload.summary == d.summary
    && row.payload.ruleIds == d.ruleIds && row.payload.reasonCodes == d.reasonCodes
    && row.payload.resource == o.snapshot.source && row.payload.observedAt == o.snapshot.observedAt
  }

  // A row to each destination if the incident is resolved or the decision is to notify or to page.
  ghost predicate RowsWritten(ds: seq<string>, o: Observation, previous: Option<Incident>, e: Id, m: map<Id, Row>,
                              n: map<Id, Row>, now: Time, d: Decision) {
    && (forall r :: r in m ==> r in n && n[r] == m[r])
    && (forall r :: r in n && r !in m ==> RowWritten(o, previous, e, n[r], now, d) && n[r].destination in ds)
    && (forall k :: 0 <= k < |ds| ==>
          var r := DeliveryId(e, ds[k], EventOf(o, previous));
          r in n && r !in m <==> Resolves(o, previous) || d.action == Notify || d.action == Page)
  }

  // The snapshot is stored unless one with its fingerprint already is.
  ghost predicate SnapshotWritten(o: Observation, key: SnapshotKey, m: map<SnapshotKey, Snapshot>,
                                  n: map<SnapshotKey, Snapshot>) {
    && n.Keys == m.Keys + {key} && (forall k :: k in m ==> n[k] == m[k])
    && (key !in m ==> n[key].(conditions := o.snapshot.conditions, contentHash := o.snapshot.contentHash) == o.snapshot)
  }

  ghost predicate Written(site: Site, db: Db, db': Db, o: Observation, now: Time, d: Decision) {
    var previous := Previous(db, o);
    var identity := IdentityFor(site, o, previous);
    var e := EvaluationId(identity);
    && db'.incidents.Keys == db.incidents.Keys + {IncidentOf(o)}
    && IncidentWritten(o, previous, db'.incidents[IncidentOf(o)], now)
    && (forall id :: id in db.incidents && id != IncidentOf(o) ==> db'.incidents[id] == db.incidents[id])
    && SnapshotWritten(o, SnapshotKey(IncidentOf(o), FingerprintOf(o, previous)), db.snapshots, db'.snapshots)
    && e !in db.evaluations && db'.evaluations == db.evaluations[e := Evaluation(e, identity, d, now)]
    && RowsWritten(site.destinations, o, previous, e, db.outbox, db'.outbox, now, d)
  }

  lemma TaskExactly(site: Site, db: Db, o: Observation, now: Time)
    requires ValidObservation(o)
    ensures
      var t, previous := TaskOf(site, db, o, now), Previous(db, o);
      && t.snapshot.source == o.snapshot.source && t.snapshot.observedAt == o.snapshot.observedAt
      && t.snapshot.contentHash == FingerprintOf(o, previous) && t.now == now
      && StatusFor(t.result) == StatusOf(o, previous) && (StatusFor(t.result) == Resolved <==> Resolves(o, previous))
      && EventFor(t, previous.None?) == EventOf(o, previous)
      && IdentityOf(t, IncidentOf(o)) == IdentityFor(site, o, previous)
  {
    StatusExactly(o, Previous(db, o));
  }

  lemma RowsExactly(ds: seq<string>, o: Observation, previous: Option<Incident>, t: Task, i: Incident, e: Id,
                    evaluations: set<Id>, m: map<Id, Row>, n: map<Id, Row>, d: Decision)
    requires Inserted(m, n, Deliveries(ds, t, i, previous.None?, d), t.now) && RowsOk(evaluations, m)
    requires e == EvaluationId(IdentityOf(t, i.id)) && e !in evaluations && i.id == IncidentOf(o)
    requires t.snapshot.source == o.snapshot.source && t.snapshot.observedAt == o.snapshot.observedAt
    requires StatusFor(t.result) == StatusOf(o, previous) && EventFor(t, previous.None?) == EventOf(o, previous)
    ensures RowsWritten(ds, o, previous, e, m, n, t.now, d)
  {
    var ns := Deliveries(ds, t, i, previous.None?, d);
    forall r | r in n && r !in m ensures RowWritten(o, previous, e, n[r], t.now, d) && n[r].destination in ds {
      var k :| 0 <= k < |ns| && r == ns[k].id;
      assert n[r] == RowOf(DeliveryTo(t, i, previous.None?, d, ds[k]), t.now);
    }
    NewRowsFor(evaluations, m, n, ds, t, i, previous.None?, d, e);
    forall k | 0 <= k < |ds|
      ensures var r := DeliveryId(e, ds[k], EventOf(o, previous)); r in n && r !in m <==> Notifies(t, d)
    {
      var r := DeliveryId(e, ds[k], EventOf(o, previous));
      assert r in OnePer(ds, e, EventOf(o, previous));
      assert r !in m;
      if r in n { assert r in RowsFor(n, e); }
    }
  }

  lemma IncidentExactly(site: Site, db: Db, o: Observation, now: Time, d: Decision)
    requires IncidentsOk(db.incidents) && ValidObservation(o)
    ensures
      var t, previous := TaskOf(site, db, o, now), Previous(db, o);
      var i := Held(db, o, t);
      && i.id == IncidentOf(o)
      && IncidentWritten(o, previous, Updated(i, RequestOf(site.destinations, t, i, previous.None?, d).incident), now)
  {
    TaskExactly(site, db, o, now);
  }

  lemma AppliedIsWritten(site: Site, db: Db, db': Db, o: Observation, now: Time, d: Decision)
    requires DbOk(db) && ValidObservation(o) && Applied(site, db, db', o, now, d)
    requires EvaluationId(EvaluationIdentity(site, db, o, now)) !in db.evaluations
    ensures Written(site, db, db', o, now, d)
  {
    TaskExactly(site, db, o, now);
    IncidentExactly(site, db, o, now, d);
    var t, previous := TaskOf(site, db, o, now), Previous(db, o);
    RowsExactly(site.destinations, o, previous, t, Held(db, o, t), EvaluationId(EvaluationIdentity(site, db, o, now)),
                db.evaluations.Keys, db.outbox, db'.outbox, d);
  }

  // Exactly this is written when an observation is persisted.
  lemma WrittenExactly(site: Site, db: Db, o: Observation, now: Time, d: Decision)
    requires ValidDestinations(site.destinations) && DbOk(db) && Observes(o) && Writes(site, db, o, now)
    ensures Written(site, db, Run(site, db, o, now, d), o, now, d)
  {
    Effect(site, db, o, now, d);
    IdentityIsFresh(db, EvaluationIdentity(site, db, o, now));
    AppliedIsWritten(site, db, Run(site, db, o, now, d), o, now, d);
  }

  // After a reconciliation that does not skip, the stored incident carries the observed
  // fingerprint and the status of the result exactly when the evaluation was new; otherwise
  // the incident is as it was.
  lemma StoredIffNew(site: Site, db: Db, o: Observation, now: Time, d: Decision)
    requires ValidDestinations(site.destinations) && DbOk(db) && Observes(o) && !LeavesAlone(o, Previous(db, o))
    ensures
      var t := TaskOf(site, db, o, now);
      var stored := Previous(Run(site, db, o, now, d), o);
      && stored.Some?
      && (Writes(site, db, o, now) ==>
            && stored.value.contentHash == t.snapshot.contentHash && stored.value.status == StatusFor(t.result)
            && stored.value.version == Held(db, o, t).version + 1)
      && (!Writes(site, db, o, now) ==> stored == Previous(db, o))
  {
    Effect(site, db, o, now, d);
    TaskIsSound(site, db, o, now);
    if !Writes(site, db, o, now) { EvaluatedIncidentExists(db, EvaluationIdentity(site, db, o, now)); }
  }

  lemma EvaluatedIncidentExists(db: Db, identity: Identity)
    requires DbOk(db) && Evaluated(db.evaluations, identity)
    ensures identity.incidentId in db.incidents
    ensures SnapshotKey(identity.incidentId, identity.snapshotHash) in db.snapshots
  {
    var e :| e in db.evaluations && db.evaluations[e].identity == identity;
    assert EvaluationOk(db.incidents.Keys, db.snapshots.Keys, e, db.evaluations[e]);
  }

  /** Idempotence */

  function QuietIdentity(site: Site, o: Observation): Identity
    requires o.Present?
  {
    Identity(IncidentOf(o), o.quietHash, site.policyVersion, "", site.providerConfigHash)
  }

  // A suppressed Event that no longer matches is first stored as open, and only the next
  // reconciliation, which sees it open, resolves it under the quiet-period fingerprint.
  predicate Unsettled(site: Site, db: Db, o: Observation, now: Time) {
    && o.Present? && o.finding == Matched([]) && o.snapshot.event.Some?
    && Previous(db, o).Some? && Previous(db, o).value.status == Suppressed
    && Writes(site, db, o, now)
    && o.quietHash != o.snapshot.contentHash && !Evaluated(db.evaluations, QuietIdentity(site, o))
  }

  // Preparing again a store that already holds the incident and the snapshot changes nothing.
  lemma PreparedTwice(db: Db, o: Observation, t: Task)
    requires Previous(db, o).Some? && db.incidents[IncidentOf(o)].id == IncidentOf(o)
    requires SnapshotKey(IncidentOf(o), t.snapshot.contentHash) in db.snapshots
    ensures Prepared(db, o, t) == db
  {
    assert db.incidents[IncidentOf(o) := db.incidents[IncidentOf(o)]] == db.incidents;
  }

  // Nothing was written, so the second pass sees the same incident and finds the same evaluation.
  lemma SecondAfterNoWrite(site: Site, db: Db, o: Observation, now: Time, d: Decision, d': Decision)
    requires ValidDestinations(site.destinations) && DbOk(db) && Observes(o) && !Writes(site, db, o, now)
    ensures Run(site, Run(site, db, o, now, d), o, now, d') == Run(site, db, o, now, d)
  {
    Effect(site, db, o, now, d);
    if !LeavesAlone(o, Previous(db, o)) {
      var db' := Run(site, db, o, now, d);
      TaskIsSound(site, db, o, now);
      EvaluatedIncidentExists(db, EvaluationIdentity(site, db, o, now));
      assert Previous(db', o) == Previous(db, o);
      Effect(site, db', o, now, d');
      PreparedTwice(db', o, TaskOf(site, db', o, now));
    }
  }

  predicate Relapses(o: Observation, previous: Option<Incident>) {
    o.Present? && o.finding == Matched([]) && previous.Some? && previous.value.status == Suppressed
  }

  // The second look at an observation that was written: skipped, except for a suppressed
  // incident that no longer matches, which now looks recovered.
  lemma SecondLook(o: Observation, previous: Option<Incident>, i: Incident)
    requires ValidObservation(o) && !LeavesAlone(o, previous)
    requires i.status == StatusFor(ResultOf(o, previous))
    requires i.contentHash == SnapshotOf(o, ResultOf(o, previous)).contentHash
    ensures !Relapses(o, previous) ==> LeavesAlone(o, Some(i))
    ensures Relapses(o, previous) ==> i.status == Open && IsRecovery(ResultOf(o, Some(i))) && !LeavesAlone(o, Some(i))
    ensures Relapses(o, previous) ==> ResultOf(o, Some(i)).questionSet == "" == ResultOf(o, previous).questionSet
  {
    if o.Present? {
      RecoveryExactly(o.finding, previous);
      RecoveryExactly(o.finding, Some(i));
    } else {
      assert DELETED_RESULT.matches[0] in DELETED_RESULT.matches;
    }
  }

  lemma SecondAfterWrite(site: Site, db: Db, o: Observation, now: Time, d: Decision, d': Decision)
    requires ValidDestinations(site.destinations) && DbOk(db) && Observes(o) && Writes(site, db, o, now)
    requires !Relapses(o, Previous(db, o))
    ensures Run(site, Run(site, db, o, now, d), o, now, d') == Run(site, db, o, now, d)
  {
    var db' := Run(site, db, o, now, d);
    StoredIffNew(site, db, o, now, d);
    SecondLook(o, Previous(db, o), Previous(db', o).value);
    Effect(site, db, o, now, d);
    Effect(site, db', o, now, d');
  }

  lemma EvaluatedAfter(evaluations: map<Id, Evaluation>, v: Evaluation, identity: Identity)
    requires v.id !in evaluations
    ensures Evaluated(evaluations[v.id := v], identity) <==> Evaluated(evaluations, identity) || identity == v.identity
  {
    var evaluations' := evaluations[v.id := v];
    if identity == v.identity { assert v.id in evaluations'; }
    if Evaluated(evaluations, identity) {
      var e :| e in evaluations && evaluations[e].identity == identity;
      assert e in evaluations' && evaluations'[e].identity == identity;
    }
  }

  // The identity the second pass would use for a relapsed incident.
  lemma RelapseIdentity(site: Site, db: Db, o: Observation, now: Time, d: Decision)
    requires ValidDestinations(site.destinations) && DbOk(db) && Observes(o) && Writes(site, db, o, now)
    requires Relapses(o, Previous(db, o))
    ensures
      var db' := Run(site, db, o, now, d);
      && !LeavesAlone(o, Previous(db', o))
      && EvaluationIdentity(site, db', o, now)
         == QuietIdentity(site, o).(snapshotHash := if o.snapshot.event.Some? then o.quietHash
                                                    else o.snapshot.contentHash)
      && (Writes(site, db', o, now) <==> Unsettled(site, db, o, now))
  {
    var db' := Run(site, db, o, now, d);
    StoredIffNew(site, db, o, now, d);
    SecondLook(o, Previous(db, o), Previous(db', o).value);
    RecoveryExactly(o.finding, Previous(db, o));
    Effect(site, db, o, now, d);
    IdentityIsFresh(db, EvaluationIdentity(site, db, o, now));
    var identity := EvaluationIdentity(site, db, o, now);
    EvaluatedAfter(db.evaluations, Evaluation(EvaluationId(identity), identity, d, now),
                   EvaluationIdentity(site, db', o, now));
  }

  // Reconciling the same observation twice is the same as once, whatever the providers answer,
  // exactly when the incident is not a suppressed Event that has stopped matching.
  lemma IdempotentIff(site: Site, db: Db, o: Observation, now: Time, d: Decision, d': Decision)
    requires ValidDestinations(site.destinations) && DbOk(db) && Observes(o)
    ensures Run(site, Run(site, db, o, now, d), o, now, d') == Run(site, db, o, now, d)
       <==> !Unsettled(site, db, o, now)
  {
    var db' := Run(site, db, o, now, d);
    if !Writes(site, db, o, now) {
      SecondAfterNoWrite(site, db, o, now, d, d');
    } else if !Relapses(o, Previous(db, o)) {
      SecondAfterWrite(site, db, o, now, d, d');
    } else {
      Effect(site, db, o, now, d);
      RelapseIdentity(site, db, o, now, d);
      StoredIffNew(site, db', o, now, d');
      if !Writes(site, db', o, now) { KnownChangesNothing(site, db', o, now, d'); }
    }
  }

  // It does happen: an Event is ignored, and later is not ignored and matches no rule.
  lemma UnsettledHappens(site: Site, ignored: Observation, later: Observation, now: Time, next: Time, d: Decision)
    requires ValidDestinations(site.destinations) && Observes(ignored) && Observes(later)
    requires ignored.Present? && ignored.finding.Ignored?
    requires KeyOf(ignored.snapshot.source) == KeyOf(later.snapshot.source)
    requires later.Present? && later.finding == Matched([]) && later.snapshot.event.Some?
    requires |{ignored.snapshot.contentHash, later.snapshot.contentHash, later.quietHash}| == 3
    ensures Unsettled(site, Run(site, EMPTY, ignored, now, d), later, next)
  {
    var db := Run(site, EMPTY, ignored, now, d);
    var identity := EvaluationIdentity(site, EMPTY, ignored, now);
    assert ignored.snapshot.contentHash != later.snapshot.contentHash && ignored.snapshot.contentHash != later.quietHash
           && later.snapshot.contentHash != later.quietHash;
    Effect(site, EMPTY, ignored, now, d);
    StoredIffNew(site, EMPTY, ignored, now, d);
    RecoveryExactly(ignored.finding, None);
    RecoveryExactly(later.finding, Previous(db, later));
    EvaluatedAfter(EMPTY.evaluations, Evaluation(EvaluationId(identity), identity, d, now), QuietIdentity(site, later));
    EvaluatedAfter(EMPTY.evaluations, Evaluation(EvaluationId(identity), identity, d, now),
                   EvaluationIdentity(site, db, later, next));
  }

  /** Two things the protocol does not do */

  // An observation whose evaluation is already stored leaves the store as it is.
  lemma KnownChangesNothing(site: Site, db: Db, o: Observation, now: Time, d: Decision)
    requires ValidDestinations(site.destinations) && DbOk(db) && Observes(o)
    requires Evaluated(db.evaluations, EvaluationIdentity(site, db, o, now))
    ensures Run(site, db, o, now, d) == db
  {
    Effect(site, db, o, now, d);
    if !LeavesAlone(o, Previous(db, o)) {
      TaskIsSound(site, db, o, now);
      EvaluatedIncidentExists(db, EvaluationIdentity(site, db, o, now));
      PreparedTwice(db, o, TaskOf(site, db, o, now));
    }
  }

  predicate Triggers(o: Observation) {
    o.Present? && o.finding.Matched? && o.finding.matches != []
  }

  // A match is judged, and identified, without regard to the previous incident.
  lemma MatchIgnoresPrevious(site: Site, db: Db, db': Db, o: Observation, now: Time, later: Time)
    requires Observes(o) && Triggers(o)
    ensures EvaluationIdentity(site, db, o, now) == EvaluationIdentity(site, db', o, later)
    ensures StatusFor(ResultOf(o, Previous(db, o))) == Open
  {
    RecoveryExactly(o.finding, Previous(db, o));
    RecoveryExactly(o.finding, Previous(db', o));
  }

  lemma ClearResolves(site: Site, db: Db, o: Observation, clear: Observation, now: Time, later: Time, d: Decision,
                      d': Decision)
    requires ValidDestinations(site.destinations) && DbOk(db) && Observes(o) && Observes(clear)
    requires KeyOf(o.snapshot.source) == KeyOf(clear.snapshot.source)
    requires Triggers(o) && Writes(site, db, o, now)
    requires clear.Present? && clear.finding == Matched([]) && Writes(site, Run(site, db, o, now, d), clear, later)
    ensures
      var resolved := Run(site, Run(site, db, o, now, d), clear, later, d');
      DbOk(resolved) && Previous(resolved, o).Some? && Previous(resolved, o).value.status == Resolved
  {
    var first := Run(site, db, o, now, d);
    MatchIgnoresPrevious(site, db, db, o, now, now);
    StoredIffNew(site, db, o, now, d);
    Effect(site, db, o, now, d);
    RecoveryExactly(clear.finding, Previous(first, clear));
    StoredIffNew(site, first, clear, later, d');
    Effect(site, first, clear, later, d');
  }

  // A finding that comes back unchanged after it was resolved is not recorded again: its
  // evaluation already exists, so the incident stays resolved although a rule matches.
  lemma ReturnIsLost(site: Site, db: Db, o: Observation, clear: Observation, now: Time, later: Time, last: Time,
                     d: Decision, d': Decision, d'': Decision)
    requires ValidDestinations(site.destinations) && DbOk(db) && Observes(o) && Observes(clear)
    requires KeyOf(o.snapshot.source) == KeyOf(clear.snapshot.source)
    requires Triggers(o) && Writes(site, db, o, now)
    requires clear.Present? && clear.finding == Matched([]) && Writes(site, Run(site, db, o, now, d), clear, later)
    ensures
      var resolved := Run(site, Run(site, db, o, now, d), clear, later, d');
      && Previous(resolved, o).Some? && Previous(resolved, o).value.status == Resolved
      && StatusFor(ResultOf(o, Previous(resolved, o))) == Open
      && Run(site, resolved, o, last, d'') == resolved
  {
    var resolved := Run(site, Run(site, db, o, now, d), clear, later, d');
    ClearResolves(site, db, o, clear, now, later, d, d');
    MatchIgnoresPrevious(site, resolved, db, o, last, now);
    KeepsEvaluation(site, db, o, now, d, clear, later, d');
    KnownChangesNothing(site, resolved, o, last, d'');
  }

  // It does happen, from an empty store, as soon as the clear state has a fingerprint of its own.
  lemma ReturnHappens(site: Site, o: Observation, clear: Observation, now: Time, later: Time, d: Decision)
    requires ValidDestinations(site.destinations) && Observes(o) && Observes(clear)
    requires KeyOf(o.snapshot.source) == KeyOf(clear.snapshot.source) && Triggers(o)
    requires clear.Present? && clear.finding == Matched([]) && clear.snapshot.event.None?
    requires clear.snapshot.contentHash != o.snapshot.contentHash
    ensures Writes(site, EMPTY, o, now) && Writes(site, Run(site, EMPTY, o, now, d), clear, later)
  {
    var db := Run(site, EMPTY, o, now, d);
    var identity := EvaluationIdentity(site, EMPTY, o, now);
    MatchIgnoresPrevious(site, EMPTY, EMPTY, o, now, now);
    RecoveryExactly(o.finding, None);
    Effect(site, EMPTY, o, now, d);
    StoredIffNew(site, EMPTY, o, now, d);
    RecoveryExactly(clear.finding, Previous(db, clear));
    EvaluatedAfter(EMPTY.evaluations, Evaluation(EvaluationId(identity), identity, d, now),
                   EvaluationIdentity(site, db, clear, later));
  }

  lemma KeepsEvaluation(site: Site, db: Db, o: Observation, now: Time, d: Decision, next: Observation, later: Time,
                        d': Decision)
    requires ValidDestinations(site.destinations) && DbOk(db) && Observes(o) && Observes(next)
    requires Writes(site, db, o, now) && Writes(site, Run(site, db, o, now, d), next, later)
    ensures Evaluated(Run(site, Run(site, db, o, now, d), next, later, d').evaluations,
                      EvaluationIdentity(site, db, o, now))
  {
    var db' := Run(site, db, o, now, d);
    var identity, identity' := EvaluationIdentity(site, db, o, now), EvaluationIdentity(site, db', next, later);
    Effect(site, db, o, now, d);
    Effect(site, db', next, later, d');
    assert Held(db, o, TaskOf(site, db, o, now)).id == IncidentOf(o) by { TaskIsSound(site, db, o, now); }
    assert Held(db', next, TaskOf(site, db', next, later)).id == IncidentOf(next) by {
      TaskIsSound(site, db', next, later);
    }
    IdentityIsFresh(db, identity);
    IdentityIsFresh(db', identity');
    EvaluatedAfter(db.evaluations, Evaluation(EvaluationId(identity), identity, d, now), identity);
    EvaluatedAfter(db'.evaluations, Evaluation(EvaluationId(identity'), identity', d', later), identity);
  }

  // A suppressed incident of any kind but Event that stops matching is stored as open, and
  // stays open however often the same state is reconciled again.
  lemma RelapseStaysOpen(site: Site, db: Db, o: Observation, now: Time, later: Time, d: Decision, d': Decision)
    requires ValidDestinations(site.destinations) && DbOk(db) && Observes(o) && Writes(site, db, o, now)
    requires Relapses(o, Previous(db, o)) && o.snapshot.event.None?
    ensures
      var db' := Run(site, db, o, now, d);
      && Previous(db', o).Some? && Previous(db', o).value.status == Open
      && Run(site, db', o, later, d') == db'
  {
    var db' := Run(site, db, o, now, d);
    StoredIffNew(site, db, o, now, d);
    SecondLook(o, Previous(db, o), Previous(db', o).value);
    RelapseIdentity(site, db, o, now, d);
    Effect(site, db, o, now, d);
    assert EvaluationIdentity(site, db', o, later) == EvaluationIdentity(site, db', o, now);
    KnownChangesNothing(site, db', o, later, d');
  }
}
