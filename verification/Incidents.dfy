/**
 The incident protocol: any number of reconcilers interleave their store calls, crash between
 calls, lose version races, and share the outbox with dispatchers that change only the delivery
 fields of rows. State.log is a history variable: one record per commit that wrote.
 */
module Incidents {
  import opened Domain
  import opened Rules
  import opened Store
  import opened Reconciler

  datatype CommitRecord = CommitRecord(incidentId: Id, expected: int, from: IncidentStatus, to: IncidentStatus,
                                       evaluationId: Id, eventType: EventType, notified: bool,
                                       decision: Decision, observed: Snapshot, at: Time)

  datatype State = State(db: Db, workers: map<nat, Phase>, log: seq<CommitRecord>)

  const INITIAL := State(EMPTY, map[], [])

  datatype Step =
    | Begin(worker: nat, observation: Observation, now: Time, policyVersion: string, providerConfigHash: string)
    | Call(worker: nat, decision: Decision)
    | Crash(worker: nat)
    | Dispatch(outbox: map<Id, Row>)

  function PhaseOf(s: State, w: nat): Phase {
    if w in s.workers then s.workers[w] else Idle
  }

  // NewReconciler rejects blank and repeated destinations.
  predicate ValidDestinations(ds: seq<string>) {
    && (forall i :: 0 <= i < |ds| ==> !Blank(ds[i]))
    && (forall i, j :: 0 <= i < j < |ds| ==> ds[i] != ds[j])
  }

  // Dispatchers touch status, attempts, lease and times of existing rows, nothing else.
  ghost predicate SameRows(m: map<Id, Row>, n: map<Id, Row>) {
    && m.Keys == n.Keys
    && forall r :: r in m ==>
         && n[r].id == m[r].id && n[r].evaluationId == m[r].evaluationId
         && n[r].destination == m[r].destination && n[r].eventType == m[r].eventType
         && n[r].payload == m[r].payload
  }

  function RecordOf(s: State, t: Task, i: Incident, created: bool, d: Decision): CommitRecord
    requires i.id in s.db.incidents
  {
    CommitRecord(i.id, i.version, s.db.incidents[i.id].status, StatusFor(t.result),
                 EvaluationId(IdentityOf(t, i.id)), EventFor(t, created), Notifies(t, d), d, t.snapshot, t.now)
  }

  ghost predicate Wins(ds: seq<string>, s: State, p: Phase, d: Decision) {
    p.Committing? && Committed(s.db, RequestOf(ds, p.task, p.incident, p.created, d)).outcome == Ok
  }

  ghost function AfterCall(ds: seq<string>, s: State, w: nat, d: Decision): State {
    var p := PhaseOf(s, w);
    var m := Advance(ds, s.db, p, d);
    State(m.db, s.workers[w := m.phase],
          if Wins(ds, s, p, d) then s.log + [RecordOf(s, p.task, p.incident, p.created, d)] else s.log)
  }

  ghost predicate Next(ds: seq<string>, s: State, step: Step, s': State) {
    match step
    case Begin(w, o, now, policy, provider) =>
      && PhaseOf(s, w).Idle? && ValidObservation(o)
      && s' == s.(workers := s.workers[w := Start(s.db, o, now, policy, provider)])
    case Call(w, d) => s' == AfterCall(ds, s, w, d)
    case Crash(w) => s' == s.(workers := s.workers[w := Idle])
    case Dispatch(outbox) => SameRows(s.db.outbox, outbox) && s' == s.(db := s.db.(outbox := outbox))
  }

  /** Reading the history */

  datatype Kind = Any | Resolving | Reopening | Opening

  predicate Is(c: CommitRecord, kind: Kind, id: Id) {
    c.incidentId == id
    && match kind
       case Any => true
       case Resolving => c.to == Resolved
       case Reopening => c.from == Resolved && c.to != Resolved
       case Opening => c.eventType == EventOpened
  }

  function Count(log: seq<CommitRecord>, kind: Kind, id: Id): nat {
    if log == [] then 0
    else Count(log[..|log| - 1], kind, id) + if Is(log[|log| - 1], kind, id) then 1 else 0
  }

  // The status the history leaves an incident in; it is created open.
  function StatusAfter(log: seq<CommitRecord>, id: Id): IncidentStatus {
    if log == [] then Open
    else if log[|log| - 1].incidentId == id then log[|log| - 1].to
    else StatusAfter(log[..|log| - 1], id)
  }

  lemma CountAppend(log: seq<CommitRecord>, c: CommitRecord, id: Id)
    ensures forall kind :: Count(log + [c], kind, id) == Count(log, kind, id) + (if Is(c, kind, id) then 1 else 0)
    ensures StatusAfter(log + [c], id) == if c.incidentId == id then c.to else StatusAfter(log, id)
  {
    assert (log + [c])[..|log|] == log;
  }

  /** What holds in every reachable state */

  ghost predicate IncidentsOk(incidents: map<Id, Incident>) {
    forall id :: id in incidents ==>
      && incidents[id].id == id == IncidentId(incidents[id].key)
      && incidents[id].clusterId == incidents[id].key.clusterId && !Blank(incidents[id].clusterId)
      && incidents[id].version >= 1
  }

  ghost predicate EvaluationOk(incidents: set<Id>, snapshots: set<SnapshotKey>, e: Id, v: Evaluation) {
    && e == v.id == EvaluationId(v.identity)
    && v.identity.incidentId in incidents
    && SnapshotKey(v.identity.incidentId, v.identity.snapshotHash) in snapshots
  }

  ghost predicate EvaluationsOk(incidents: set<Id>, snapshots: set<SnapshotKey>, evaluations: map<Id, Evaluation>) {
    forall e :: e in evaluations ==> EvaluationOk(incidents, snapshots, e, evaluations[e])
  }

  ghost predicate HasEvaluation(evaluations: map<Id, Evaluation>, id: Id, hash: Hash) {
    exists e :: e in evaluations && evaluations[e].identity.incidentId == id
                && evaluations[e].identity.snapshotHash == hash
  }

  ghost predicate HashesOk(incidents: map<Id, Incident>, evaluations: map<Id, Evaluation>) {
    forall id :: id in incidents && incidents[id].contentHash != NO_HASH ==>
      HasEvaluation(evaluations, id, incidents[id].contentHash)
  }

  ghost predicate RowsOk(evaluations: set<Id>, outbox: map<Id, Row>) {
    forall r :: r in outbox ==>
      && r == outbox[r].id == DeliveryId(outbox[r].evaluationId, outbox[r].destination, outbox[r].eventType)
      && outbox[r].evaluationId in evaluations
  }

  ghost predicate DbOk(db: Db) {
    && IncidentsOk(db.incidents)
    && EvaluationsOk(db.incidents.Keys, db.snapshots.Keys, db.evaluations)
    && HashesOk(db.incidents, db.evaluations)
    && RowsOk(db.evaluations.Keys, db.outbox)
  }

  ghost function RowsFor(m: map<Id, Row>, e: Id): set<Id> {
    set r | r in m && m[r].evaluationId == e
  }

  ghost function OnePer(ds: seq<string>, e: Id, eventType: EventType): set<Id> {
    set k | 0 <= k < |ds| :: DeliveryId(e, ds[k], eventType)
  }

  ghost predicate RecordOk(evaluations: map<Id, Evaluation>, c: CommitRecord) {
    && c.evaluationId in evaluations
    && evaluations[c.evaluationId].identity.incidentId == c.incidentId
    && (c.to == Resolved ==> c.from != Resolved && c.notified)
    && (c.to == Resolved <==> c.eventType == EventResolved)
  }

  ghost predicate Logged(log: seq<CommitRecord>, e: Id) {
    exists k :: 0 <= k < |log| && log[k].evaluationId == e
  }

  ghost predicate RecordsOk(evaluations: map<Id, Evaluation>, log: seq<CommitRecord>) {
    && (forall k :: 0 <= k < |log| ==> RecordOk(evaluations, log[k]))
    && (forall e :: e in evaluations ==> Logged(log, e))
    && (forall j, k :: 0 <= j < k < |log| ==> log[j].evaluationId != log[k].evaluationId)
  }

  // A commit's rows: none, or exactly one per destination.
  ghost predicate NotifiedOk(ds: seq<string>, outbox: map<Id, Row>, c: CommitRecord) {
    RowsFor(outbox, c.evaluationId) == if c.notified then OnePer(ds, c.evaluationId, c.eventType) else {}
  }

  ghost predicate DeliveriesOk(ds: seq<string>, outbox: map<Id, Row>, log: seq<CommitRecord>) {
    forall k :: 0 <= k < |log| ==> NotifiedOk(ds, outbox, log[k])
  }

  ghost predicate VersionsOk(incidents: map<Id, Incident>, log: seq<CommitRecord>) {
    && (forall id :: id in incidents ==> incidents[id].version == 1 + Count(log, Any, id))
    && (forall id :: id !in incidents ==> Count(log, Any, id) == 0 && StatusAfter(log, id) == Open)
    && (forall k :: 0 <= k < |log| ==> log[k].expected == 1 + Count(log[..k], Any, log[k].incidentId))
  }

  ghost predicate ChainOk(log: seq<CommitRecord>) {
    forall k :: 0 <= k < |log| ==> log[k].from == StatusAfter(log[..k], log[k].incidentId)
  }

  ghost predicate StatusesOk(incidents: map<Id, Incident>, log: seq<CommitRecord>) {
    ChainOk(log) && forall id :: id in incidents ==> incidents[id].status == StatusAfter(log, id)
  }

  // What a worker holds was read from the store: still current if the version is.
  ghost predicate Fresh(incidents: map<Id, Incident>, i: Incident) {
    && i.id in incidents
    && i.version <= incidents[i.id].version
    && (i.version == incidents[i.id].version ==> i == incidents[i.id])
  }

  ghost predicate HoldingOk(incidents: map<Id, Incident>, t: Task, i: Incident) {
    && Fresh(incidents, i) && i.key == KeyOf(t.snapshot.source) && !Blank(i.clusterId) && i.version >= 1
    && i.id == IncidentId(i.key)
    && (IsRecovery(t.result) ==> i.status != Resolved)
  }

  ghost predicate PhaseOk(incidents: map<Id, Incident>, snapshots: set<SnapshotKey>, p: Phase) {
    match p
    case Idle => true
    case Upserting(t) => !IsRecovery(t.result) && !Blank(t.snapshot.source.clusterId)
    case ReadingBack(t, _) => !IsRecovery(t.result) && IncidentId(KeyOf(t.snapshot.source)) in incidents
    case StoringSnapshot(t, i, _) => HoldingOk(incidents, t, i)
    case Committing(t, i, _) => HoldingOk(incidents, t, i) && SnapshotKey(i.id, t.snapshot.contentHash) in snapshots
  }

  ghost predicate PhasesOk(incidents: map<Id, Incident>, snapshots: set<SnapshotKey>, workers: map<nat, Phase>) {
    forall w :: w in workers ==> PhaseOk(incidents, snapshots, workers[w])
  }

  ghost predicate Inv(ds: seq<string>, s: State) {
    && DbOk(s.db)
    && RecordsOk(s.db.evaluations, s.log)
    && DeliveriesOk(ds, s.db.outbox, s.log)
    && VersionsOk(s.db.incidents, s.log)
    && StatusesOk(s.db.incidents, s.log)
    && PhasesOk(s.db.incidents, s.db.snapshots.Keys, s.workers)
  }

  /** Steps other than a successful commit */

  lemma InitialOk(ds: seq<string>)
    ensures Inv(ds, INITIAL)
  {
  }

  lemma FindIsById(incidents: map<Id, Incident>, clusterId: string, key: IncidentKey)
    requires IncidentsOk(incidents) && clusterId == key.clusterId
    ensures FindIncident(incidents, clusterId, key)
         == if IncidentId(key) in incidents then Some(incidents[IncidentId(key)]) else None
    ensures HasIncident(incidents, clusterId, key) <==> IncidentId(key) in incidents
  {
    if IncidentId(key) in incidents {
      assert Matches(incidents[IncidentId(key)], clusterId, key);
    }
  }

  lemma ResultRecovers(o: Observation, previous: Option<Incident>)
    requires ValidObservation(o) && !LeavesAlone(o, previous)
    ensures IsRecovery(ResultOf(o, previous)) ==> previous.Some? && previous.value.status != Resolved
  {
    if o.Present? { RecoveryExactly(o.finding, previous); }
  }

  lemma StartOk(db: Db, o: Observation, now: Time, policy: string, provider: string)
    requires IncidentsOk(db.incidents) && ValidObservation(o)
    ensures PhaseOk(db.incidents, db.snapshots.Keys, Start(db, o, now, policy, provider))
  {
    var source := o.snapshot.source;
    if !Blank(source.clusterId) {
      FindIsById(db.incidents, source.clusterId, KeyOf(source));
      var previous := FindIncident(db.incidents, source.clusterId, KeyOf(source));
      if !LeavesAlone(o, previous) { ResultRecovers(o, previous); }
    }
  }

  lemma BeginKeeps(ds: seq<string>, s: State, step: Step, s': State)
    requires Inv(ds, s) && step.Begin? && Next(ds, s, step, s')
    ensures Inv(ds, s')
  {
    StartOk(s.db, step.observation, step.now, step.policyVersion, step.providerConfigHash);
  }

  lemma CrashKeeps(ds: seq<string>, s: State, step: Step, s': State)
    requires Inv(ds, s) && step.Crash? && Next(ds, s, step, s')
    ensures Inv(ds, s')
  {
  }

  lemma SameRowsNotify(ds: seq<string>, m: map<Id, Row>, n: map<Id, Row>, c: CommitRecord)
    requires SameRows(m, n) && NotifiedOk(ds, m, c)
    ensures NotifiedOk(ds, n, c)
  {
    assert RowsFor(m, c.evaluationId) == RowsFor(n, c.evaluationId);
  }

  lemma SameRowsOk(evaluations: set<Id>, m: map<Id, Row>, n: map<Id, Row>)
    requires SameRows(m, n) && RowsOk(evaluations, m)
    ensures RowsOk(evaluations, n)
  {
  }

  lemma DispatchKeeps(ds: seq<string>, s: State, step: Step, s': State)
    requires Inv(ds, s) && step.Dispatch? && Next(ds, s, step, s')
    ensures Inv(ds, s')
  {
    SameRowsOk(s.db.evaluations.Keys, s.db.outbox, s'.db.outbox);
    assert DeliveriesOk(ds, s'.db.outbox, s.log) by {
      forall k | 0 <= k < |s.log| ensures NotifiedOk(ds, s'.db.outbox, s.log[k]) {
        SameRowsNotify(ds, s.db.outbox, s'.db.outbox, s.log[k]);
      }
    }
  }

  lemma MoreIsOk(incidents: set<Id>, snapshots: set<SnapshotKey>, evaluations: map<Id, Evaluation>,
                 incidents': set<Id>, snapshots': set<SnapshotKey>)
    requires EvaluationsOk(incidents, snapshots, evaluations) && incidents <= incidents' && snapshots <= snapshots'
    ensures EvaluationsOk(incidents', snapshots', evaluations)
  {
    forall e | e in evaluations ensures EvaluationOk(incidents', snapshots', e, evaluations[e]) {
      assert EvaluationOk(incidents, snapshots, e, evaluations[e]);
    }
  }

  lemma InsertKeepsPhases(incidents: map<Id, Incident>, snapshots: set<SnapshotKey>, workers: map<nat, Phase>,
                          i: Incident)
    requires PhasesOk(incidents, snapshots, workers) && i.id !in incidents
    ensures PhasesOk(incidents[i.id := i], snapshots, workers)
  {
    forall w | w in workers ensures PhaseOk(incidents[i.id := i], snapshots, workers[w]) {
      assert PhaseOk(incidents, snapshots, workers[w]);
    }
  }

  lemma SnapshotKeepsPhases(incidents: map<Id, Incident>, m: set<SnapshotKey>, n: set<SnapshotKey>,
                            workers: map<nat, Phase>)
    requires PhasesOk(incidents, m, workers) && m <= n
    ensures PhasesOk(incidents, n, workers)
  {
    forall w | w in workers ensures PhaseOk(incidents, n, workers[w]) {
      assert PhaseOk(incidents, m, workers[w]);
    }
  }

  lemma InsertKeepsCounts(incidents: map<Id, Incident>, evaluations: map<Id, Evaluation>, log: seq<CommitRecord>,
                          i: Incident)
    requires HashesOk(incidents, evaluations) && VersionsOk(incidents, log) && StatusesOk(incidents, log)
    requires i.id !in incidents && i.version == 1 && i.status == Open && i.contentHash == NO_HASH
    ensures HashesOk(incidents[i.id := i], evaluations)
    ensures VersionsOk(incidents[i.id := i], log) && StatusesOk(incidents[i.id := i], log)
  {
  }

  // The upsert adds an incident at version 1 or changes nothing.
  lemma UpsertKeeps(ds: seq<string>, s: State, w: nat, d: Decision)
    requires Inv(ds, s) && PhaseOf(s, w).Upserting?
    ensures Inv(ds, AfterCall(ds, s, w, d))
  {
    var p := PhaseOf(s, w);
    var i := NewIncident(p.task);
    var incidents := Upserted(s.db.incidents, i);
    assert PhaseOk(s.db.incidents, s.db.snapshots.Keys, p);
    FindIsById(s.db.incidents, i.clusterId, i.key);
    if Inserts(s.db.incidents, i) {
      InsertKeepsPhases(s.db.incidents, s.db.snapshots.Keys, s.workers, i);
      InsertKeepsCounts(s.db.incidents, s.db.evaluations, s.log, i);
      assert IncidentsOk(incidents);
      MoreIsOk(s.db.incidents.Keys, s.db.snapshots.Keys, s.db.evaluations, incidents.Keys, s.db.snapshots.Keys);
    }
    SetPhase(incidents, s.db.snapshots.Keys, s.workers, w, ReadingBack(p.task, Inserts(s.db.incidents, i)));
  }

  lemma SetPhase(incidents: map<Id, Incident>, snapshots: set<SnapshotKey>, workers: map<nat, Phase>, w: nat, p: Phase)
    requires PhasesOk(incidents, snapshots, workers) && PhaseOk(incidents, snapshots, p)
    ensures PhasesOk(incidents, snapshots, workers[w := p])
  {
  }

  lemma ReadBackKeeps(ds: seq<string>, s: State, w: nat, d: Decision)
    requires Inv(ds, s) && PhaseOf(s, w).ReadingBack?
    ensures Inv(ds, AfterCall(ds, s, w, d))
  {
    var t := PhaseOf(s, w).task;
    FindIsById(s.db.incidents, t.snapshot.source.clusterId, KeyOf(t.snapshot.source));
  }

  lemma SnapshotKeeps(ds: seq<string>, s: State, w: nat, d: Decision)
    requires Inv(ds, s) && PhaseOf(s, w).StoringSnapshot?
    ensures Inv(ds, AfterCall(ds, s, w, d))
  {
    var p := PhaseOf(s, w);
    var n := SnapshotUpserted(s.db.snapshots, p.incident.id, p.task.snapshot);
    assert PhaseOk(s.db.incidents, s.db.snapshots.Keys, p);
    if Blank(p.task.snapshot.contentHash) {
      SetPhase(s.db.incidents, s.db.snapshots.Keys, s.workers, w, Idle);
    } else {
      SnapshotKeepsPhases(s.db.incidents, s.db.snapshots.Keys, n.Keys, s.workers);
      SetPhase(s.db.incidents, n.Keys, s.workers, w, Committing(p.task, p.incident, p.created));
      MoreIsOk(s.db.incidents.Keys, s.db.snapshots.Keys, s.db.evaluations, s.db.incidents.Keys, n.Keys);
    }
  }

  /** A successful commit */

  ghost predicate Listed(ds: seq<Notification>, r: Id) {
    exists k :: 0 <= k < |ds| && r == ds[k].id
  }

  // The new rows of a commit, as its deliveries list them.
  ghost predicate Inserted(m: map<Id, Row>, n: map<Id, Row>, ds: seq<Notification>, now: Time) {
    && (forall r :: r in m ==> r in n && n[r] == m[r])
    && (forall k :: 0 <= k < |ds| ==> ds[k].id in n && n[ds[k].id] == RowOf(ds[k], now))
    && (forall r :: r in n ==> r in m || Listed(ds, r))
  }

  ghost predicate Addressed(d: Notification) {
    d.id == DeliveryId(d.evaluationId, d.destination, d.eventType)
  }

  lemma NoClash(evaluations: set<Id>, m: map<Id, Row>, n: map<Id, Row>, ds: seq<Notification>, now: Time,
                d: Notification)
    requires RowsOk(evaluations, m) && Inserted(m, n, ds, now)
    requires forall k :: 0 <= k < |ds| ==> Addressed(ds[k]) && ds[k].id != d.id
    requires Addressed(d) && d.evaluationId !in evaluations
    ensures !Clashes(n, d)
  {
    forall r | r in n
      ensures r != d.id
      ensures !(n[r].evaluationId == d.evaluationId && n[r].destination == d.destination
                && n[r].eventType == d.eventType)
    {
      if r in m {
      } else {
        var k :| 0 <= k < |ds| && r == ds[k].id;
      }
    }
  }

  lemma InsertedSnoc(m: map<Id, Row>, n: map<Id, Row>, ds: seq<Notification>, now: Time, d: Notification)
    requires Inserted(m, n, ds, now) && d.id !in m && d.id !in n
    ensures Inserted(m, n[d.id := RowOf(d, now)], ds + [d], now)
  {
    var n' := n[d.id := RowOf(d, now)];
    assert (ds + [d])[|ds|] == d;
    forall r | r in n' ensures r in m || Listed(ds + [d], r) {
      if r in n && r !in m {
        var k :| 0 <= k < |ds| && r == ds[k].id;
        assert (ds + [d])[k] == ds[k];
      }
    }
  }

  lemma {:induction false} InsertFresh(evaluations: set<Id>, m: map<Id, Row>, ds: seq<Notification>, now: Time)
    requires RowsOk(evaluations, m)
    requires forall k :: 0 <= k < |ds| ==> Addressed(ds[k]) && ds[k].evaluationId !in evaluations
    requires forall j, k :: 0 <= j < k < |ds| ==> ds[j].id != ds[k].id
    ensures InsertRows(m, ds, now).Some? && Inserted(m, InsertRows(m, ds, now).value, ds, now)
  {
    if ds != [] {
      var n := |ds| - 1;
      InsertFresh(evaluations, m, ds[..n], now);
      var before := InsertRows(m, ds[..n], now).value;
      NoClash(evaluations, m, before, ds[..n], now, ds[n]);
      InsertedSnoc(m, before, ds[..n], now, ds[n]);
      assert ds[..n] + [ds[n]] == ds;
    }
  }

  lemma DeliveriesAreAddressed(ds: seq<string>, t: Task, i: Incident, created: bool, d: Decision)
    requires ValidDestinations(ds)
    ensures
      var ns := Deliveries(ds, t, i, created, d);
      && (forall k :: 0 <= k < |ns| ==> Addressed(ns[k]) && ns[k].evaluationId == EvaluationId(IdentityOf(t, i.id)))
      && (forall j, k :: 0 <= j < k < |ns| ==> ns[j].id != ns[k].id)
  {
  }

  lemma IdentityIsFresh(db: Db, identity: Identity)
    requires DbOk(db) && !Evaluated(db.evaluations, identity)
    ensures EvaluationId(identity) !in db.evaluations
  {
    forall e | e in db.evaluations ensures e == EvaluationId(db.evaluations[e].identity) {
      assert EvaluationOk(db.incidents.Keys, db.snapshots.Keys, e, db.evaluations[e]);
    }
  }

  // A commit built by a reconciler finds its evaluation already there, loses the version race,
  // or writes exactly its incident, evaluation and rows. It is never malformed and never meets
  // a unique index.
  lemma CommitOutcomes(ds: seq<string>, db: Db, p: Phase, d: Decision)
    requires ValidDestinations(ds) && DbOk(db) && p.Committing? && PhaseOk(db.incidents, db.snapshots.Keys, p)
    ensures
      var r := RequestOf(ds, p.task, p.incident, p.created, d);
      var c := Committed(db, r);
      && (c.outcome == AlreadyEvaluated <==> Evaluated(db.evaluations, IdentityOf(p.task, p.incident.id)))
      && (c.outcome == Ok <==> c.outcome != AlreadyEvaluated && p.incident == db.incidents[p.incident.id])
      && (c.outcome == Conflict <==>
          c.outcome != AlreadyEvaluated && p.incident.version < db.incidents[p.incident.id].version)
      && (c.outcome != Ok ==> c.db == db)
      && (c.outcome == Ok ==>
            && c.db.incidents == db.incidents[p.incident.id := Updated(p.incident, r.incident)]
            && c.db.snapshots == db.snapshots
            && r.evaluation.id !in db.evaluations
            && c.db.evaluations == db.evaluations[r.evaluation.id := r.evaluation]
            && Inserted(db.outbox, c.db.outbox, r.deliveries, p.task.now))
  {
    var identity := IdentityOf(p.task, p.incident.id);
    var r := RequestOf(ds, p.task, p.incident, p.created, d);
    DeliveriesAreAddressed(ds, p.task, p.incident, p.created, d);
    assert ValidCommit(r);
    if !Evaluated(db.evaluations, identity) {
      IdentityIsFresh(db, identity);
      InsertFresh(db.evaluations.Keys, db.outbox, r.deliveries, p.task.now);
    }
  }

  lemma CommitKeepsEvaluations(incidents: set<Id>, snapshots: set<SnapshotKey>, evaluations: map<Id, Evaluation>,
                               v: Evaluation)
    requires EvaluationsOk(incidents, snapshots, evaluations) && EvaluationOk(incidents, snapshots, v.id, v)
    ensures EvaluationsOk(incidents, snapshots, evaluations[v.id := v])
  {
    var evaluations' := evaluations[v.id := v];
    forall e | e in evaluations' ensures EvaluationOk(incidents, snapshots, e, evaluations'[e]) {
      if e != v.id { assert EvaluationOk(incidents, snapshots, e, evaluations[e]); }
    }
  }

  lemma CommitKeepsHashes(incidents: map<Id, Incident>, evaluations: map<Id, Evaluation>, n: Incident, v: Evaluation)
    requires HashesOk(incidents, evaluations) && v.id !in evaluations
    requires n.contentHash == v.identity.snapshotHash && v.identity.incidentId == n.id
    ensures HashesOk(incidents[n.id := n], evaluations[v.id := v])
  {
    var incidents', evaluations' := incidents[n.id := n], evaluations[v.id := v];
    forall id | id in incidents' && incidents'[id].contentHash != NO_HASH
      ensures HasEvaluation(evaluations', id, incidents'[id].contentHash)
    {
      if id == n.id {
        assert v.id in evaluations';
      } else {
        assert HasEvaluation(evaluations, id, incidents[id].contentHash);
        var e :| e in evaluations && evaluations[e].identity.incidentId == id
                 && evaluations[e].identity.snapshotHash == incidents[id].contentHash;
        assert e in evaluations' && evaluations'[e] == evaluations[e];
      }
    }
  }

  lemma InsertKeepsRows(evaluations: set<Id>, m: map<Id, Row>, n: map<Id, Row>, ds: seq<Notification>, now: Time, e: Id)
    requires RowsOk(evaluations, m) && Inserted(m, n, ds, now)
    requires forall k :: 0 <= k < |ds| ==> Addressed(ds[k]) && ds[k].evaluationId == e
    ensures RowsOk(evaluations + {e}, n)
  {
    forall r | r in n
      ensures r == n[r].id == DeliveryId(n[r].evaluationId, n[r].destination, n[r].eventType)
      ensures n[r].evaluationId in evaluations + {e}
    {
      if r !in m {
        var k :| 0 <= k < |ds| && r == ds[k].id;
        assert n[r] == RowOf(ds[k], now);
      }
    }
  }

  // New rows belong to the new evaluation; every older evaluation keeps its own.
  lemma InsertKeepsRowsFor(evaluations: set<Id>, m: map<Id, Row>, n: map<Id, Row>, ds: seq<Notification>, now: Time,
                           e: Id, other: Id)
    requires RowsOk(evaluations, m) && Inserted(m, n, ds, now) && e !in evaluations && other != e
    requires forall k :: 0 <= k < |ds| ==> ds[k].evaluationId == e && ds[k].id !in m
    ensures RowsFor(n, other) == RowsFor(m, other)
  {
    forall r ensures r in RowsFor(n, other) <==> r in RowsFor(m, other) {
      if r in n && r !in m {
        var k :| 0 <= k < |ds| && r == ds[k].id;
        assert n[r] == RowOf(ds[k], now);
      }
    }
  }

  lemma NewRowsFor(evaluations: set<Id>, m: map<Id, Row>, n: map<Id, Row>, ds: seq<string>, t: Task, i: Incident,
                   created: bool, d: Decision, e: Id)
    requires RowsOk(evaluations, m) && Inserted(m, n, Deliveries(ds, t, i, created, d), t.now)
    requires e == EvaluationId(IdentityOf(t, i.id)) && e !in evaluations
    ensures RowsFor(n, e) == if Notifies(t, d) then OnePer(ds, e, EventFor(t, created)) else {}
  {
    var ns := Deliveries(ds, t, i, created, d);
    forall r ensures r in RowsFor(n, e) <==> Notifies(t, d) && r in OnePer(ds, e, EventFor(t, created)) {
      if r in RowsFor(n, e) {
        assert r !in m;
        var k :| 0 <= k < |ns| && r == ns[k].id;
        assert r == DeliveryId(e, ds[k], EventFor(t, created));
      }
      if Notifies(t, d) && r in OnePer(ds, e, EventFor(t, created)) {
        var k :| 0 <= k < |ds| && r == DeliveryId(e, ds[k], EventFor(t, created));
        assert ns[k].id == r && n[r] == RowOf(ns[k], t.now);
      }
    }
  }

  lemma CommitKeepsRecords(evaluations: map<Id, Evaluation>, log: seq<CommitRecord>, v: Evaluation, c: CommitRecord)
    requires RecordsOk(evaluations, log) && v.id !in evaluations && c.evaluationId == v.id
    requires RecordOk(evaluations[v.id := v], c)
    ensures RecordsOk(evaluations[v.id := v], log + [c])
  {
    var log' := log + [c];
    var evaluations' := evaluations[v.id := v];
    forall k | 0 <= k < |log'| ensures RecordOk(evaluations', log'[k]) {
      if k < |log| { assert RecordOk(evaluations, log[k]); }
    }
    forall e | e in evaluations' ensures Logged(log', e) {
      if e == v.id {
        assert log'[|log|].evaluationId == e;
      } else {
        assert Logged(log, e);
        var k :| 0 <= k < |log| && log[k].evaluationId == e;
        assert log'[k].evaluationId == e;
      }
    }
    forall j, k | 0 <= j < k < |log'| ensures log'[j].evaluationId != log'[k].evaluationId {
      assert RecordOk(evaluations, log[j]);
    }
  }

  lemma CommitKeepsVersions(incidents: map<Id, Incident>, log: seq<CommitRecord>, n: Incident, c: CommitRecord)
    requires VersionsOk(incidents, log) && n.id in incidents
    requires n.version == incidents[n.id].version + 1 && c.incidentId == n.id && c.expected == incidents[n.id].version
    ensures VersionsOk(incidents[n.id := n], log + [c])
  {
    var log' := log + [c];
    forall id ensures Count(log', Any, id) == Count(log, Any, id) + (if c.incidentId == id then 1 else 0)
      ensures id != n.id ==> StatusAfter(log', id) == StatusAfter(log, id)
    {
      CountAppend(log, c, id);
    }
    forall k | 0 <= k < |log'| ensures log'[k].expected == 1 + Count(log'[..k], Any, log'[k].incidentId) {
      assert log'[..k] == log[..k];
      if k == |log| { assert log[..k] == log; }
    }
  }

  lemma CommitKeepsStatuses(incidents: map<Id, Incident>, log: seq<CommitRecord>, n: Incident, c: CommitRecord)
    requires StatusesOk(incidents, log) && n.id in incidents
    requires c.incidentId == n.id && c.from == incidents[n.id].status && c.to == n.status
    ensures StatusesOk(incidents[n.id := n], log + [c])
  {
    var log' := log + [c];
    forall id ensures StatusAfter(log', id) == if c.incidentId == id then c.to else StatusAfter(log, id) {
      CountAppend(log, c, id);
    }
    forall k | 0 <= k < |log'| ensures log'[k].from == StatusAfter(log'[..k], log'[k].incidentId) {
      assert log'[..k] == log[..k];
      if k == |log| { assert log[..k] == log; }
    }
  }

  lemma CommitKeepsPhases(incidents: map<Id, Incident>, snapshots: set<SnapshotKey>, workers: map<nat, Phase>,
                          i: Incident, n: Incident)
    requires PhasesOk(incidents, snapshots, workers) && i.id in incidents && incidents[i.id] == i
    requires n.id == i.id && n.version == i.version + 1
    ensures PhasesOk(incidents[i.id := n], snapshots, workers)
  {
    forall w | w in workers ensures PhaseOk(incidents[i.id := n], snapshots, workers[w]) {
      assert PhaseOk(incidents, snapshots, workers[w]);
    }
  }

  lemma CommitKeepsDeliveries(ds: seq<string>, evaluations: map<Id, Evaluation>, m: map<Id, Row>, n: map<Id, Row>,
                              log: seq<CommitRecord>, t: Task, i: Incident, created: bool, d: Decision, c: CommitRecord)
    requires ValidDestinations(ds) && RowsOk(evaluations.Keys, m) && RecordsOk(evaluations, log)
    requires DeliveriesOk(ds, m, log)
    requires Inserted(m, n, Deliveries(ds, t, i, created, d), t.now)
    requires c.evaluationId == EvaluationId(IdentityOf(t, i.id)) && c.evaluationId !in evaluations
    requires c.eventType == EventFor(t, created) && c.notified == Notifies(t, d)
    ensures DeliveriesOk(ds, n, log + [c])
  {
    var log' := log + [c];
    var ns := Deliveries(ds, t, i, created, d);
    DeliveriesAreAddressed(ds, t, i, created, d);
    forall k | 0 <= k < |log'| ensures NotifiedOk(ds, n, log'[k]) {
      if k < |log| {
        assert NotifiedOk(ds, m, log[k]) && RecordOk(evaluations, log[k]);
        InsertKeepsRowsFor(evaluations.Keys, m, n, ns, t.now, c.evaluationId, log[k].evaluationId);
      } else {
        NewRowsFor(evaluations.Keys, m, n, ds, t, i, created, d, c.evaluationId);
      }
    }
  }

  lemma CommitKeepsIncidents(incidents: map<Id, Incident>, n: Incident)
    requires IncidentsOk(incidents)
    requires n.id == IncidentId(n.key) && n.clusterId == n.key.clusterId && !Blank(n.clusterId) && n.version >= 1
    ensures IncidentsOk(incidents[n.id := n])
  {
  }

  lemma CommitKeepsDb(db: Db, db': Db, n: Incident, v: Evaluation, ns: seq<Notification>, now: Time)
    requires DbOk(db) && n.id in db.incidents
    requires n.id == IncidentId(n.key) && n.clusterId == n.key.clusterId && !Blank(n.clusterId) && n.version >= 1
    requires EvaluationOk(db.incidents.Keys, db.snapshots.Keys, v.id, v) && v.id !in db.evaluations
    requires n.contentHash == v.identity.snapshotHash && v.identity.incidentId == n.id
    requires db'.incidents == db.incidents[n.id := n] && db'.snapshots == db.snapshots
    requires db'.evaluations == db.evaluations[v.id := v]
    requires Inserted(db.outbox, db'.outbox, ns, now)
    requires forall k :: 0 <= k < |ns| ==> Addressed(ns[k]) && ns[k].evaluationId == v.id
    ensures DbOk(db')
  {
    CommitKeepsIncidents(db.incidents, n);
    CommitKeepsEvaluations(db.incidents.Keys, db.snapshots.Keys, db.evaluations, v);
    CommitKeepsHashes(db.incidents, db.evaluations, n, v);
    assert db'.incidents.Keys == db.incidents.Keys;
    assert RowsOk(db'.evaluations.Keys, db'.outbox) by {
      assert db'.evaluations.Keys == db.evaluations.Keys + {v.id};
      InsertKeepsRows(db.evaluations.Keys, db.outbox, db'.outbox, ns, now, v.id);
    }
  }

  lemma WinKeepsDb(ds: seq<string>, db: Db, p: Phase, d: Decision)
    requires ValidDestinations(ds) && DbOk(db) && p.Committing? && PhaseOk(db.incidents, db.snapshots.Keys, p)
    ensures DbOk(Advance(ds, db, p, d).db)
  {
    var r := RequestOf(ds, p.task, p.incident, p.created, d);
    CommitOutcomes(ds, db, p, d);
    if Committed(db, r).outcome == Ok {
      DeliveriesAreAddressed(ds, p.task, p.incident, p.created, d);
      CommitKeepsDb(db, Committed(db, r).db, Updated(p.incident, r.incident), r.evaluation, r.deliveries, p.task.now);
    }
  }

  lemma WinKeepsRecords(ds: seq<string>, s: State, p: Phase, d: Decision, db': Db)
    requires ValidDestinations(ds) && Inv(ds, s) && PhaseOk(s.db.incidents, s.db.snapshots.Keys, p)
    requires Wins(ds, s, p, d) && db' == Advance(ds, s.db, p, d).db
    ensures
      var log' := s.log + [RecordOf(s, p.task, p.incident, p.created, d)];
      RecordsOk(db'.evaluations, log') && DeliveriesOk(ds, db'.outbox, log')
  {
    CommitOutcomes(ds, s.db, p, d);
    var r := RequestOf(ds, p.task, p.incident, p.created, d);
    var c := RecordOf(s, p.task, p.incident, p.created, d);
    CommitKeepsRecords(s.db.evaluations, s.log, r.evaluation, c);
    CommitKeepsDeliveries(ds, s.db.evaluations, s.db.outbox, db'.outbox, s.log, p.task, p.incident, p.created, d, c);
  }

  lemma WinKeepsCounts(ds: seq<string>, s: State, p: Phase, d: Decision, db': Db)
    requires ValidDestinations(ds) && Inv(ds, s) && PhaseOk(s.db.incidents, s.db.snapshots.Keys, p)
    requires Wins(ds, s, p, d) && db' == Advance(ds, s.db, p, d).db
    ensures
      var log' := s.log + [RecordOf(s, p.task, p.incident, p.created, d)];
      VersionsOk(db'.incidents, log') && StatusesOk(db'.incidents, log')
  {
    CommitOutcomes(ds, s.db, p, d);
    var n := Updated(p.incident, RequestOf(ds, p.task, p.incident, p.created, d).incident);
    var c := RecordOf(s, p.task, p.incident, p.created, d);
    CommitKeepsVersions(s.db.incidents, s.log, n, c);
    CommitKeepsStatuses(s.db.incidents, s.log, n, c);
  }

  lemma CommitKeeps(ds: seq<string>, s: State, w: nat, d: Decision)
    requires ValidDestinations(ds) && Inv(ds, s) && PhaseOf(s, w).Committing?
    ensures Inv(ds, AfterCall(ds, s, w, d))
  {
    var p := PhaseOf(s, w);
    assert PhaseOk(s.db.incidents, s.db.snapshots.Keys, p);
    var db' := Advance(ds, s.db, p, d).db;
    CommitOutcomes(ds, s.db, p, d);
    if Wins(ds, s, p, d) {
      WinKeepsDb(ds, s.db, p, d);
      WinKeepsRecords(ds, s, p, d, db');
      WinKeepsCounts(ds, s, p, d, db');
      var r := RequestOf(ds, p.task, p.incident, p.created, d);
      CommitKeepsPhases(s.db.incidents, s.db.snapshots.Keys, s.workers, p.incident, Updated(p.incident, r.incident));
    }
    SetPhase(db'.incidents, db'.snapshots.Keys, s.workers, w, Idle);
  }

  lemma NextKeeps(ds: seq<string>, s: State, step: Step, s': State)
    requires ValidDestinations(ds) && Inv(ds, s) && Next(ds, s, step, s')
    ensures Inv(ds, s')
  {
    match step
    case Begin(_, _, _, _, _) => BeginKeeps(ds, s, step, s');
    case Crash(_) => CrashKeeps(ds, s, step, s');
    case Dispatch(_) => DispatchKeeps(ds, s, step, s');
    case Call(w, d) =>
      match PhaseOf(s, w)
      case Idle => SetPhase(s.db.incidents, s.db.snapshots.Keys, s.workers, w, Idle);
      case Upserting(_) => UpsertKeeps(ds, s, w, d);
      case ReadingBack(_, _) => ReadBackKeeps(ds, s, w, d);
      case StoringSnapshot(_, _, _) => SnapshotKeeps(ds, s, w, d);
      case Committing(_, _, _) => CommitKeeps(ds, s, w, d);
  }
}
