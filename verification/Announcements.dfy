/**
 What is announced, and why. Every outbox row says what its commit decided about what it observed,
 every stored incident is as its last commit left it, and every commit goes back to the
 observation its worker began with and the decision it was called with.
 */
module Announcements {
  import opened Domain
  import opened Store
  import opened Reconciler
  import opened Incidents
  import opened IncidentTheorems
  import opened Sequential

  /** Rows, evaluations and incidents against the history */

  predicate Announces(r: Row, c: CommitRecord) {
    && r.payload.incidentId == c.incidentId && r.payload.evaluationId == r.evaluationId == c.evaluationId
    && r.payload.status == c.to && r.eventType == c.eventType
    && r.payload.severity == c.decision.severity && r.payload.action == c.decision.action
    && r.payload.summary == c.decision.summary
    && r.payload.ruleIds == c.decision.ruleIds && r.payload.reasonCodes == c.decision.reasonCodes
    && r.payload.resource == c.observed.source && r.payload.observedAt == c.observed.observedAt
  }

  // A resolution is always notified, anything else when the decision asks for it.
  predicate NotifiesWhenAsked(c: CommitRecord) {
    c.notified <==> c.to == Resolved || c.decision.action == Notify || c.decision.action == Page
  }

  predicate Records(v: Evaluation, c: CommitRecord) {
    && v.identity.incidentId == c.incidentId && v.identity.snapshotHash == c.observed.contentHash
    && v.decision == c.decision && v.createdAt == c.at
  }

  function LastOf(log: seq<CommitRecord>, id: Id): Option<CommitRecord> {
    if log == [] then None
    else if log[|log| - 1].incidentId == id then Some(log[|log| - 1])
    else LastOf(log[..|log| - 1], id)
  }

  // The incident as its last commit left it, or as it was inserted.
  predicate Reflects(i: Incident, last: Option<CommitRecord>) {
    match last
    case None => i.status == Open && i.contentHash == NO_HASH && i.resolvedAt == None && i.updatedAt == i.openedAt
    case Some(c) =>
      && i.status == c.to && i.source == c.observed.source && i.contentHash == c.observed.contentHash
      && i.updatedAt == c.at && i.resolvedAt == if c.to == Resolved then Some(c.at) else None
  }

  ghost predicate RecordSays(evaluations: map<Id, Evaluation>, c: CommitRecord) {
    c.evaluationId in evaluations && Records(evaluations[c.evaluationId], c) && NotifiesWhenAsked(c)
  }

  ghost predicate RecordsSay(evaluations: map<Id, Evaluation>, log: seq<CommitRecord>) {
    forall k :: 0 <= k < |log| ==> RecordSays(evaluations, log[k])
  }

  ghost predicate RowsSay(outbox: map<Id, Row>, log: seq<CommitRecord>) {
    forall r, k :: r in outbox && 0 <= k < |log| && log[k].evaluationId == outbox[r].evaluationId ==>
      Announces(outbox[r], log[k])
  }

  ghost predicate IncidentsReflect(incidents: map<Id, Incident>, log: seq<CommitRecord>) {
    forall id :: id in incidents ==> Reflects(incidents[id], LastOf(log, id))
  }

  ghost predicate Truthful(s: State) {
    && RecordsSay(s.db.evaluations, s.log) && RowsSay(s.db.outbox, s.log) && IncidentsReflect(s.db.incidents, s.log)
  }

  lemma LastOfAppend(log: seq<CommitRecord>, c: CommitRecord, id: Id)
    ensures LastOf(log + [c], id) == if c.incidentId == id then Some(c) else LastOf(log, id)
  {
    assert (log + [c])[..|log|] == log;
  }

  lemma {:induction false} NoneWithoutCommit(log: seq<CommitRecord>, id: Id)
    requires Count(log, Any, id) == 0
    ensures LastOf(log, id) == None
  {
    if log != [] { NoneWithoutCommit(log[..|log| - 1], id); }
  }

  lemma UpsertStaysTruthful(ds: seq<string>, s: State, w: nat, d: Decision)
    requires Inv(ds, s) && Truthful(s) && PhaseOf(s, w).Upserting?
    ensures Truthful(AfterCall(ds, s, w, d))
  {
    var i := NewIncident(PhaseOf(s, w).task);
    if Inserts(s.db.incidents, i) { NoneWithoutCommit(s.log, i.id); }
  }

  // The rows a commit adds announce it, and belong to no earlier commit.
  lemma NewRowsSay(ds: seq<string>, evaluations: map<Id, Evaluation>, m: map<Id, Row>, n: map<Id, Row>,
                   log: seq<CommitRecord>, t: Task, i: Incident, created: bool, d: Decision, c: CommitRecord)
    requires RowsOk(evaluations.Keys, m) && RecordsOk(evaluations, log) && RowsSay(m, log)
    requires Inserted(m, n, Deliveries(ds, t, i, created, d), t.now)
    requires c.evaluationId == EvaluationId(IdentityOf(t, i.id)) && c.evaluationId !in evaluations
    requires c.incidentId == i.id && c.to == StatusFor(t.result) && c.eventType == EventFor(t, created)
    requires c.decision == d && c.observed == t.snapshot
    ensures RowsSay(n, log + [c])
  {
    var log' := log + [c];
    forall k | 0 <= k < |log| ensures log[k].evaluationId in evaluations { assert RecordOk(evaluations, log[k]); }
    forall r, k | r in n && 0 <= k < |log'| && log'[k].evaluationId == n[r].evaluationId
      ensures Announces(n[r], log'[k])
    {
      if r in m {
        assert k < |log|;
      } else {
        var j :| 0 <= j < |Deliveries(ds, t, i, created, d)| && r == Deliveries(ds, t, i, created, d)[j].id;
        assert n[r] == RowOf(DeliveryTo(t, i, created, d, ds[j]), t.now);
      }
    }
  }

  lemma NewRecordSays(evaluations: map<Id, Evaluation>, log: seq<CommitRecord>, v: Evaluation, c: CommitRecord)
    requires RecordsSay(evaluations, log) && v.id !in evaluations && c.evaluationId == v.id
    requires Records(v, c) && NotifiesWhenAsked(c)
    ensures RecordsSay(evaluations[v.id := v], log + [c])
  {
    var log' := log + [c];
    forall k | 0 <= k < |log'| ensures RecordSays(evaluations[v.id := v], log'[k]) {
      if k < |log| { assert RecordSays(evaluations, log[k]); }
    }
  }

  lemma NewIncidentReflects(incidents: map<Id, Incident>, log: seq<CommitRecord>, n: Incident, c: CommitRecord)
    requires IncidentsReflect(incidents, log) && c.incidentId == n.id && Reflects(n, Some(c))
    ensures IncidentsReflect(incidents[n.id := n], log + [c])
  {
    forall id | id in incidents[n.id := n] ensures Reflects(incidents[n.id := n][id], LastOf(log + [c], id)) {
      LastOfAppend(log, c, id);
    }
  }

  lemma CommitStaysTruthful(ds: seq<string>, s: State, w: nat, d: Decision)
    requires ValidDestinations(ds) && Inv(ds, s) && Truthful(s) && PhaseOf(s, w).Committing?
    ensures Truthful(AfterCall(ds, s, w, d))
  {
    var p := PhaseOf(s, w);
    assert PhaseOk(s.db.incidents, s.db.snapshots.Keys, p);
    CommitOutcomes(ds, s.db, p, d);
    if Wins(ds, s, p, d) {
      var r := RequestOf(ds, p.task, p.incident, p.created, d);
      var c := RecordOf(s, p.task, p.incident, p.created, d);
      var db' := Committed(s.db, r).db;
      NewRecordSays(s.db.evaluations, s.log, r.evaluation, c);
      NewRowsSay(ds, s.db.evaluations, s.db.outbox, db'.outbox, s.log, p.task, p.incident, p.created, d, c);
      NewIncidentReflects(s.db.incidents, s.log, Updated(p.incident, r.incident), c);
    }
  }

  lemma DispatchStaysTruthful(s: State, outbox: map<Id, Row>)
    requires Truthful(s) && SameRows(s.db.outbox, outbox)
    ensures RowsSay(outbox, s.log)
  {
    forall r, k | r in outbox && 0 <= k < |s.log| && s.log[k].evaluationId == outbox[r].evaluationId
      ensures Announces(outbox[r], s.log[k])
    {
      assert Announces(s.db.outbox[r], s.log[k]);
    }
  }

  predicate Writing(s: State, step: Step) {
    step.Call? && (PhaseOf(s, step.worker).Upserting? || PhaseOf(s, step.worker).Committing?)
  }

  lemma OthersDoNotWrite(ds: seq<string>, s: State, step: Step, s': State)
    requires Next(ds, s, step, s') && !step.Dispatch? && !Writing(s, step)
    ensures s'.log == s.log && s'.db.incidents == s.db.incidents && s'.db.evaluations == s.db.evaluations
    ensures s'.db.outbox == s.db.outbox
  {
  }

  lemma NextStaysTruthful(ds: seq<string>, s: State, step: Step, s': State)
    requires ValidDestinations(ds) && Inv(ds, s) && Truthful(s) && Next(ds, s, step, s')
    ensures Truthful(s')
  {
    if step.Dispatch? {
      DispatchStaysTruthful(s, step.outbox);
    } else if Writing(s, step) {
      if PhaseOf(s, step.worker).Upserting? { UpsertStaysTruthful(ds, s, step.worker, step.decision); }
      else { CommitStaysTruthful(ds, s, step.worker, step.decision); }
    } else {
      OthersDoNotWrite(ds, s, step, s');
    }
  }

  lemma {:induction false} RunsStayTruthful(ds: seq<string>, states: seq<State>, steps: seq<Step>, n: nat)
    requires ValidDestinations(ds) && IsRun(ds, states, steps) && n < |states|
    ensures Truthful(states[n])
  {
    if n > 0 {
      RunsStayTruthful(ds, states, steps, n - 1);
      RunsKeepInvariant(ds, states, steps, n - 1);
      NextStaysTruthful(ds, states[n - 1], steps[n - 1], states[n]);
    }
  }

  // Every row of every reachable state announces the one commit that wrote its evaluation.
  lemma EveryRowIsTrue(ds: seq<string>, states: seq<State>, steps: seq<Step>, n: nat, r: Id) returns (k: nat)
    requires ValidDestinations(ds) && IsRun(ds, states, steps) && n < |states| && r in states[n].db.outbox
    ensures var s := states[n];
            var row := s.db.outbox[r];
            && k < |s.log| && Announces(row, s.log[k]) && s.log[k].notified
            && row.evaluationId in s.db.evaluations && Records(s.db.evaluations[row.evaluationId], s.log[k])
            && (row.payload.status == Resolved <==> row.eventType == EventResolved)
            && (row.payload.status == Resolved || row.payload.action == Notify || row.payload.action == Page)
  {
    RunsKeepInvariant(ds, states, steps, n);
    RunsStayTruthful(ds, states, steps, n);
    var s := states[n];
    var e := s.db.outbox[r].evaluationId;
    assert Logged(s.log, e);
    k :| 0 <= k < |s.log| && s.log[k].evaluationId == e;
    assert RecordOk(s.db.evaluations, s.log[k]) && NotifiedOk(ds, s.db.outbox, s.log[k]);
    assert r in RowsFor(s.db.outbox, e);
    assert RecordSays(s.db.evaluations, s.log[k]);
  }

  // In every reachable state a stored incident is as its last commit left it, and carries a time of
  // resolution exactly while it is resolved.
  lemma EveryIncidentReflects(ds: seq<string>, states: seq<State>, steps: seq<Step>, n: nat, id: Id)
    requires ValidDestinations(ds) && IsRun(ds, states, steps) && n < |states| && id in states[n].db.incidents
    ensures Reflects(states[n].db.incidents[id], LastOf(states[n].log, id))
    ensures states[n].db.incidents[id].resolvedAt.Some? <==> states[n].db.incidents[id].status == Resolved
  {
    RunsStayTruthful(ds, states, steps, n);
  }

  predicate SameOpening(i: Incident, i': Incident) {
    i'.key == i.key && i'.clusterId == i.clusterId && i'.openedAt == i.openedAt && i'.version >= i.version
  }

  lemma StepKeepsOpening(ds: seq<string>, s: State, step: Step, s': State, id: Id)
    requires Next(ds, s, step, s') && id in s.db.incidents
    ensures id in s'.db.incidents && SameOpening(s.db.incidents[id], s'.db.incidents[id])
  {
    if step.Dispatch? {
    } else if Writing(s, step) {
      var p := PhaseOf(s, step.worker);
      if p.Committing? {
        CommitKeepsOpening(s.db, RequestOf(ds, p.task, p.incident, p.created, step.decision), id);
      }
    } else {
      OthersDoNotWrite(ds, s, step, s');
    }
  }

  lemma CommitKeepsOpening(db: Db, r: CommitRequest, id: Id)
    requires id in db.incidents
    ensures id in Committed(db, r).db.incidents
    ensures SameOpening(db.incidents[id], Committed(db, r).db.incidents[id])
  {
  }

  // Who the incident is about and when it was opened never changes.
  lemma {:induction false} OpeningStays(ds: seq<string>, states: seq<State>, steps: seq<Step>, j: nat, n: nat, id: Id)
    requires ValidDestinations(ds) && IsRun(ds, states, steps) && j <= n < |states| && id in states[j].db.incidents
    ensures id in states[n].db.incidents
    ensures SameOpening(states[j].db.incidents[id], states[n].db.incidents[id])
  {
    if j < n {
      OpeningStays(ds, states, steps, j, n - 1, id);
      StepKeepsOpening(ds, states[n - 1], steps[n - 1], states[n], id);
    }
  }

  // Never tried, and due at once.
  predicate Waiting(row: Row, at: Time) {
    && row.status == Pending && row.attempts == 0 && row.nextAttemptAt == row.updatedAt == at && Due(row, at)
    && row.leaseOwner == None && row.leaseUntil == None && row.lastFailure == None && row.deliveredAt == None
  }

  lemma InsertedWait(m: map<Id, Row>, n: map<Id, Row>, ds: seq<string>, t: Task, i: Incident, created: bool,
                     d: Decision, r: Id)
    requires Inserted(m, n, Deliveries(ds, t, i, created, d), t.now) && r in n && r !in m
    ensures Waiting(n[r], t.now) && n[r].evaluationId == EvaluationId(IdentityOf(t, i.id))
  {
    var ns := Deliveries(ds, t, i, created, d);
    var k :| 0 <= k < |ns| && r == ns[k].id;
  }

  lemma CommitAddsWaiting(ds: seq<string>, s: State, w: nat, d: Decision, r: Id)
    requires ValidDestinations(ds) && Inv(ds, s) && PhaseOf(s, w).Committing?
    requires r in AfterCall(ds, s, w, d).db.outbox && r !in s.db.outbox
    ensures var s' := AfterCall(ds, s, w, d);
            && |s'.log| == |s.log| + 1 && Waiting(s'.db.outbox[r], s'.log[|s.log|].at)
            && s'.db.outbox[r].evaluationId == s'.log[|s.log|].evaluationId
  {
    var p := PhaseOf(s, w);
    assert PhaseOk(s.db.incidents, s.db.snapshots.Keys, p);
    CommitOutcomes(ds, s.db, p, d);
    InsertedWait(s.db.outbox, AfterCall(ds, s, w, d).db.outbox, ds, p.task, p.incident, p.created, d, r);
  }

  // A row enters the outbox in the commit it announces, never tried and due at once.
  lemma NewRowsAreDue(ds: seq<string>, states: seq<State>, steps: seq<Step>, m: nat, r: Id)
    requires ValidDestinations(ds) && IsRun(ds, states, steps) && m < |steps|
    requires r in states[m + 1].db.outbox && r !in states[m].db.outbox
    ensures steps[m].Call? && |states[m + 1].log| == |states[m].log| + 1
    ensures var c := states[m + 1].log[|states[m].log|];
            states[m + 1].db.outbox[r].evaluationId == c.evaluationId && Waiting(states[m + 1].db.outbox[r], c.at)
  {
    RunsKeepInvariant(ds, states, steps, m);
    assert Next(ds, states[m], steps[m], states[m + 1]);
    if !steps[m].Dispatch? && !Writing(states[m], steps[m]) {
      OthersDoNotWrite(ds, states[m], steps[m], states[m + 1]);
      assert false;
    }
    CommitAddsWaiting(ds, states[m], steps[m].worker, steps[m].decision, r);
  }

  /** Causes */

  // What a worker carries, against the observation it began with.
  ghost predicate Began(s: State, step: Step, t: Task) {
    && step.Begin?
    && var o := step.observation;
       var previous := Known(s.db.incidents, o.snapshot.source);
       && t.snapshot.source == o.snapshot.source && t.snapshot.observedAt == o.snapshot.observedAt
       && t.snapshot.contentHash == FingerprintOf(o, previous)
       && StatusFor(t.result) == StatusOf(o, previous)
       && t.now == step.now && t.policyVersion == step.policyVersion
       && t.providerConfigHash == step.providerConfigHash
  }

  lemma BeginsWith(ds: seq<string>, s: State, step: Step, s': State)
    requires Inv(ds, s) && step.Begin? && Next(ds, s, step, s') && !PhaseOf(s', step.worker).Idle?
    ensures Began(s, step, PhaseOf(s', step.worker).task)
  {
    var source := step.observation.snapshot.source;
    FindIsById(s.db.incidents, source.clusterId, KeyOf(source));
    StatusExactly(step.observation, Known(s.db.incidents, source));
  }

  // Between its first and its last call a worker's task stays what it was.
  lemma KeepsTask(ds: seq<string>, s: State, step: Step, s': State, w: nat)
    requires Next(ds, s, step, s') && !PhaseOf(s', w).Idle? && !(step.Begin? && step.worker == w)
    ensures !PhaseOf(s, w).Idle? && PhaseOf(s, w).task == PhaseOf(s', w).task
  {
  }

  lemma {:induction false} TaskHasBegun(ds: seq<string>, states: seq<State>, steps: seq<Step>, n: nat, w: nat)
      returns (b: nat)
    requires ValidDestinations(ds) && IsRun(ds, states, steps) && n < |states| && !PhaseOf(states[n], w).Idle?
    ensures b < n && steps[b].Begin? && steps[b].worker == w
    ensures Began(states[b], steps[b], PhaseOf(states[n], w).task)
  {
    b := n - 1;
    assert Next(ds, states[b], steps[b], states[n]);
    if steps[b].Begin? && steps[b].worker == w {
      RunsKeepInvariant(ds, states, steps, b);
      BeginsWith(ds, states[b], steps[b], states[n]);
    } else {
      KeepsTask(ds, states[b], steps[b], states[n], w);
      b := TaskHasBegun(ds, states, steps, b, w);
    }
  }

  // The step that wrote a record.
  ghost predicate Wrote(ds: seq<string>, s: State, step: Step, c: CommitRecord) {
    && step.Call? && Wins(ds, s, PhaseOf(s, step.worker), step.decision)
    && var p := PhaseOf(s, step.worker);
       c.incidentId == p.incident.id && c == RecordOf(s, p.task, p.incident, p.created, step.decision)
  }

  lemma {:induction false} RecordWasWritten(ds: seq<string>, states: seq<State>, steps: seq<Step>, n: nat, k: nat)
      returns (m: nat)
    requires IsRun(ds, states, steps) && n < |states| && k < |states[n].log|
    ensures m < n && |states[m].log| == k && Wrote(ds, states[m], steps[m], states[n].log[k])
  {
    m := n - 1;
    assert Next(ds, states[m], steps[m], states[n]);
    if k < |states[m].log| {
      m := RecordWasWritten(ds, states, steps, m, k);
    }
  }

  // What a commit wrote follows from the observation its worker began with and the decision it was
  // called with.
  ghost predicate Caused(s: State, begin: Step, call: Step, c: CommitRecord) {
    && begin.Begin? && call.Call? && begin.worker == call.worker
    && var o := begin.observation;
       var previous := Known(s.db.incidents, o.snapshot.source);
       && c.incidentId == IncidentId(KeyOf(o.snapshot.source)) && c.decision == call.decision && c.at == begin.now
       && c.observed.source == o.snapshot.source && c.observed.observedAt == o.snapshot.observedAt
       && c.to == StatusOf(o, previous)
       && c.evaluationId.EvaluationId? && c.evaluationId.identity.incidentId == c.incidentId
       && c.evaluationId.identity.snapshotHash == c.observed.contentHash
          == FingerprintOf(o, previous)
       && c.evaluationId.identity.policyVersion == begin.policyVersion
       && c.evaluationId.identity.providerConfigHash == begin.providerConfigHash
  }

  // Every commit has its cause: an earlier beginning and a call of the same worker.
  lemma EveryCommitIsCaused(ds: seq<string>, states: seq<State>, steps: seq<Step>, n: nat, k: nat)
      returns (b: nat, m: nat)
    requires ValidDestinations(ds) && IsRun(ds, states, steps) && n < |states| && k < |states[n].log|
    ensures b < m < n && |states[m].log| == k && Caused(states[b], steps[b], steps[m], states[n].log[k])
  {
    m := RecordWasWritten(ds, states, steps, n, k);
    var w := steps[m].worker;
    b := TaskHasBegun(ds, states, steps, m, w);
    RunsKeepInvariant(ds, states, steps, m);
    assert PhaseOk(states[m].db.incidents, states[m].db.snapshots.Keys, PhaseOf(states[m], w));
  }
}
