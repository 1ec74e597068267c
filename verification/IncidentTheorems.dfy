/**
 What the incident invariant means: statements about every state of every run.
 */
module IncidentTheorems {
  import opened Domain
  import opened Store
  import opened Reconciler
  import opened Incidents

  ghost predicate IsRun(ds: seq<string>, states: seq<State>, steps: seq<Step>) {
    && |states| == |steps| + 1
    && states[0] == INITIAL
    && forall k :: 0 <= k < |steps| ==> Next(ds, states[k], steps[k], states[k + 1])
  }

  lemma {:induction false} RunsKeepInvariant(ds: seq<string>, states: seq<State>, steps: seq<Step>, k: nat)
    requires ValidDestinations(ds) && IsRun(ds, states, steps) && k < |states|
    ensures Inv(ds, states[k])
  {
    if k == 0 {
      InitialOk(ds);
    } else {
      RunsKeepInvariant(ds, states, steps, k - 1);
      NextKeeps(ds, states[k - 1], steps[k - 1], states[k]);
    }
  }

  /** Versions */

  // The evaluations of the commits of one kind, and, for a destination, the rows they inserted.
  ghost function EvaluationsOf(log: seq<CommitRecord>, kind: Kind, id: Id): set<Id> {
    set k | 0 <= k < |log| && Is(log[k], kind, id) :: log[k].evaluationId
  }

  lemma EvaluationsOfSnoc(log: seq<CommitRecord>, c: CommitRecord, kind: Kind, id: Id)
    ensures EvaluationsOf(log + [c], kind, id)
         == EvaluationsOf(log, kind, id) + if Is(c, kind, id) then {c.evaluationId} else {}
  {
    var log' := log + [c];
    assert log'[|log|] == c && forall k :: 0 <= k < |log| ==> log'[k] == log[k];
    forall e | e in EvaluationsOf(log, kind, id) ensures e in EvaluationsOf(log', kind, id) {
      var k :| 0 <= k < |log| && Is(log[k], kind, id) && log[k].evaluationId == e;
      assert log'[k].evaluationId == e;
    }
    if Is(c, kind, id) { assert log'[|log|].evaluationId in EvaluationsOf(log', kind, id); }
  }

  ghost predicate DistinctEvaluations(log: seq<CommitRecord>) {
    forall j, k :: 0 <= j < k < |log| ==> log[j].evaluationId != log[k].evaluationId
  }

  lemma LastIsNew(log: seq<CommitRecord>, c: CommitRecord, kind: Kind, id: Id)
    requires DistinctEvaluations(log + [c])
    ensures DistinctEvaluations(log) && c.evaluationId !in EvaluationsOf(log, kind, id)
  {
    var log' := log + [c];
    assert forall k :: 0 <= k < |log| ==> log'[k] == log[k] && log'[k].evaluationId != log'[|log|].evaluationId;
  }

  lemma {:induction false} CountIsSize(log: seq<CommitRecord>, kind: Kind, id: Id)
    requires DistinctEvaluations(log)
    ensures |EvaluationsOf(log, kind, id)| == Count(log, kind, id)
  {
    if log != [] {
      var rest, c := log[..|log| - 1], log[|log| - 1];
      assert rest + [c] == log;
      LastIsNew(rest, c, kind, id);
      CountIsSize(rest, kind, id);
      EvaluationsOfSnoc(rest, c, kind, id);
      CountAppend(rest, c, id);
    }
  }

  ghost function EvaluationsFor(evaluations: map<Id, Evaluation>, id: Id): set<Id> {
    set e | e in evaluations && evaluations[e].identity.incidentId == id
  }

  lemma EvaluationsAreLogged(evaluations: map<Id, Evaluation>, log: seq<CommitRecord>, id: Id)
    requires RecordsOk(evaluations, log)
    ensures EvaluationsFor(evaluations, id) == EvaluationsOf(log, Any, id)
  {
    forall e | e in EvaluationsFor(evaluations, id) ensures e in EvaluationsOf(log, Any, id) {
      assert Logged(log, e);
      var k :| 0 <= k < |log| && log[k].evaluationId == e;
      assert RecordOk(evaluations, log[k]) && Is(log[k], Any, id);
    }
    forall e | e in EvaluationsOf(log, Any, id) ensures e in EvaluationsFor(evaluations, id) {
      var k :| 0 <= k < |log| && Is(log[k], Any, id) && log[k].evaluationId == e;
      assert RecordOk(evaluations, log[k]);
    }
  }

  // An incident's version is one more than the number of its stored evaluations.
  lemma VersionAccounting(ds: seq<string>, states: seq<State>, steps: seq<Step>, k: nat, id: Id)
    requires ValidDestinations(ds) && IsRun(ds, states, steps) && k < |states| && id in states[k].db.incidents
    ensures states[k].db.incidents[id].version == 1 + |EvaluationsFor(states[k].db.evaluations, id)|
  {
    RunsKeepInvariant(ds, states, steps, k);
    CountIsSize(states[k].log, Any, id);
    EvaluationsAreLogged(states[k].db.evaluations, states[k].log, id);
  }

  lemma {:induction false} CountGrows(log: seq<CommitRecord>, id: Id, j: nat, k: nat)
    requires j < k <= |log| && log[j].incidentId == id
    ensures Count(log[..j], Any, id) < Count(log[..k], Any, id)
  {
    assert log[..k][..k - 1] == log[..k - 1];
    if j < k - 1 { CountGrows(log, id, j, k - 1); }
  }

  // Of all commits that carry the same expected version of one incident, at most one wrote.
  lemma OneWriterPerVersion(ds: seq<string>, states: seq<State>, steps: seq<Step>, n: nat, j: nat, k: nat)
    requires ValidDestinations(ds) && IsRun(ds, states, steps) && n < |states|
    requires j < k < |states[n].log| && states[n].log[j].incidentId == states[n].log[k].incidentId
    ensures states[n].log[j].expected < states[n].log[k].expected
  {
    RunsKeepInvariant(ds, states, steps, n);
    CountGrows(states[n].log, states[n].log[k].incidentId, j, k);
  }

  /** Resolutions */

  ghost predicate NeverResolvesTwice(log: seq<CommitRecord>) {
    ChainOk(log) && forall k :: 0 <= k < |log| && log[k].to == Resolved ==> log[k].from != Resolved
  }

  lemma PrefixChain(log: seq<CommitRecord>, n: nat)
    requires NeverResolvesTwice(log) && n <= |log|
    ensures NeverResolvesTwice(log[..n])
  {
    assert forall k :: 0 <= k < n ==> log[..n][..k] == log[..k];
  }

  lemma {:induction false} Balance(log: seq<CommitRecord>, id: Id)
    requires NeverResolvesTwice(log)
    ensures Count(log, Resolving, id) - Count(log, Reopening, id) == if StatusAfter(log, id) == Resolved then 1 else 0
  {
    if log != [] {
      var n := |log| - 1;
      PrefixChain(log, n);
      Balance(log[..n], id);
    }
  }

  lemma HistoryNeverResolvesTwice(ds: seq<string>, s: State)
    requires Inv(ds, s)
    ensures NeverResolvesTwice(s.log)
  {
    forall k | 0 <= k < |s.log| && s.log[k].to == Resolved ensures s.log[k].from != Resolved {
      assert RecordOk(s.db.evaluations, s.log[k]);
    }
  }

  // At every point of the history the resolutions of an incident exceed its reopenings by one
  // if it is resolved there and by none otherwise; the stored status is the history's.
  lemma OneResolutionPerOpenPeriod(ds: seq<string>, states: seq<State>, steps: seq<Step>, n: nat, m: nat, id: Id)
    requires ValidDestinations(ds) && IsRun(ds, states, steps) && n < |states| && m <= |states[n].log|
    ensures
      var log := states[n].log[..m];
      Count(log, Resolving, id) - Count(log, Reopening, id) == if StatusAfter(log, id) == Resolved then 1 else 0
    ensures id in states[n].db.incidents ==> states[n].db.incidents[id].status == StatusAfter(states[n].log, id)
  {
    RunsKeepInvariant(ds, states, steps, n);
    HistoryNeverResolvesTwice(ds, states[n]);
    PrefixChain(states[n].log, m);
    Balance(states[n].log[..m], id);
  }

  lemma {:induction false} StaysResolved(log: seq<CommitRecord>, id: Id, j: nat, m: nat)
    requires NeverResolvesTwice(log) && j < m <= |log| && Is(log[j], Resolving, id)
    requires forall i :: j < i < m ==> !Is(log[i], Reopening, id)
    ensures StatusAfter(log[..m], id) == Resolved
  {
    assert log[..m][..m - 1] == log[..m - 1];
    if j < m - 1 { StaysResolved(log, id, j, m - 1); }
  }

  // Between two resolutions of one incident it was reopened.
  lemma ResolutionsAlternate(ds: seq<string>, states: seq<State>, steps: seq<Step>, n: nat, id: Id, j: nat, k: nat)
    requires ValidDestinations(ds) && IsRun(ds, states, steps) && n < |states| && j < k < |states[n].log|
    requires Is(states[n].log[j], Resolving, id) && Is(states[n].log[k], Resolving, id)
    ensures exists i :: j < i < k && Is(states[n].log[i], Reopening, id)
  {
    RunsKeepInvariant(ds, states, steps, n);
    HistoryNeverResolvesTwice(ds, states[n]);
    if forall i :: j < i < k ==> !Is(states[n].log[i], Reopening, id) {
      StaysResolved(states[n].log, id, j, k);
      assert false;
    }
  }

  ghost function ResolvedRows(db: Db, id: Id, destination: string): set<Id> {
    set r | r in db.outbox && db.outbox[r].eventType == EventResolved && db.outbox[r].destination == destination
            && db.outbox[r].evaluationId in EvaluationsFor(db.evaluations, id)
  }

  lemma ResolvedRowIsLogged(ds: seq<string>, s: State, id: Id, destination: string, r: Id)
    requires Inv(ds, s) && r in ResolvedRows(s.db, id, destination)
    ensures s.db.outbox[r].evaluationId in EvaluationsOf(s.log, Resolving, id)
    ensures r == DeliveryId(s.db.outbox[r].evaluationId, destination, EventResolved)
  {
    var e := s.db.outbox[r].evaluationId;
    assert Logged(s.log, e);
    var k :| 0 <= k < |s.log| && s.log[k].evaluationId == e;
    assert NotifiedOk(ds, s.db.outbox, s.log[k]) && RecordOk(s.db.evaluations, s.log[k]);
    assert r in RowsFor(s.db.outbox, e);
    assert Is(s.log[k], Resolving, id);
  }

  lemma ResolvingCommitHasRow(ds: seq<string>, s: State, id: Id, destination: string, e: Id)
    requires Inv(ds, s) && e in EvaluationsOf(s.log, Resolving, id) && destination in ds
    ensures DeliveryId(e, destination, EventResolved) in ResolvedRows(s.db, id, destination)
  {
    var k :| 0 <= k < |s.log| && Is(s.log[k], Resolving, id) && s.log[k].evaluationId == e;
    assert NotifiedOk(ds, s.db.outbox, s.log[k]) && RecordOk(s.db.evaluations, s.log[k]);
    var j :| 0 <= j < |ds| && ds[j] == destination;
    assert DeliveryId(e, ds[j], EventResolved) in OnePer(ds, e, EventResolved);
    assert DeliveryId(e, destination, EventResolved) in RowsFor(s.db.outbox, e);
  }

  lemma SameSize(es: set<Id>, rows: set<Id>, destination: string)
    requires forall e :: e in es ==> DeliveryId(e, destination, EventResolved) in rows
    requires forall r :: r in rows ==>
      r.DeliveryId? && r.evaluationId in es && r == DeliveryId(r.evaluationId, destination, EventResolved)
    ensures |es| == |rows|
    decreases es
  {
    if es == {} {
      assert rows == {} by {
        if r :| r in rows { assert false; }
      }
    } else {
      var e :| e in es;
      var r := DeliveryId(e, destination, EventResolved);
      SameSize(es - {e}, rows - {r}, destination);
      assert |es| == |es - {e}| + 1 && |rows| == |rows - {r}| + 1;
    }
  }

  // Each destination holds exactly one resolved row per resolution of the incident.
  lemma OneResolvedRowPerResolution(ds: seq<string>, states: seq<State>, steps: seq<Step>, n: nat, id: Id,
                                    destination: string)
    requires ValidDestinations(ds) && IsRun(ds, states, steps) && n < |states| && destination in ds
    ensures |ResolvedRows(states[n].db, id, destination)| == Count(states[n].log, Resolving, id)
  {
    RunsKeepInvariant(ds, states, steps, n);
    var s := states[n];
    CountIsSize(s.log, Resolving, id);
    var es, rows := EvaluationsOf(s.log, Resolving, id), ResolvedRows(s.db, id, destination);
    forall e | e in es ensures DeliveryId(e, destination, EventResolved) in rows {
      ResolvingCommitHasRow(ds, s, id, destination, e);
    }
    forall r | r in rows
      ensures r.DeliveryId? && r.evaluationId in es && r == DeliveryId(r.evaluationId, destination, EventResolved)
    {
      ResolvedRowIsLogged(ds, s, id, destination, r);
    }
    SameSize(es, rows, destination);
  }

  /** References */

  // At every point of every run, crashes included: rows have their evaluation, evaluations
  // their incident and snapshot, and no evaluation is partly notified.
  lemma ReferentialIntegrity(ds: seq<string>, states: seq<State>, steps: seq<Step>, n: nat)
    requires ValidDestinations(ds) && IsRun(ds, states, steps) && n < |states|
    ensures
      var db := states[n].db;
      && (forall r :: r in db.outbox ==> db.outbox[r].evaluationId in db.evaluations)
      && (forall e :: e in db.evaluations ==>
            var identity := db.evaluations[e].identity;
            && identity.incidentId in db.incidents
            && SnapshotKey(identity.incidentId, identity.snapshotHash) in db.snapshots
            && (RowsFor(db.outbox, e) == {} || exists t :: RowsFor(db.outbox, e) == OnePer(ds, e, t)))
      && (forall id :: id in db.incidents && db.incidents[id].contentHash != NO_HASH ==>
            && SnapshotKey(id, db.incidents[id].contentHash) in db.snapshots
            && HasEvaluation(db.evaluations, id, db.incidents[id].contentHash))
  {
    RunsKeepInvariant(ds, states, steps, n);
    var s := states[n];
    forall e | e in s.db.evaluations
      ensures EvaluationOk(s.db.incidents.Keys, s.db.snapshots.Keys, e, s.db.evaluations[e])
      ensures RowsFor(s.db.outbox, e) == {} || exists t :: RowsFor(s.db.outbox, e) == OnePer(ds, e, t)
    {
      assert Logged(s.log, e);
      var k :| 0 <= k < |s.log| && s.log[k].evaluationId == e;
      assert NotifiedOk(ds, s.db.outbox, s.log[k]);
    }
    forall id | id in s.db.incidents && s.db.incidents[id].contentHash != NO_HASH
      ensures HasEvaluation(s.db.evaluations, id, s.db.incidents[id].contentHash)
      ensures SnapshotKey(id, s.db.incidents[id].contentHash) in s.db.snapshots
    {
      assert HasEvaluation(s.db.evaluations, id, s.db.incidents[id].contentHash);
      var e :| e in s.db.evaluations && s.db.evaluations[e].identity.incidentId == id
               && s.db.evaluations[e].identity.snapshotHash == s.db.incidents[id].contentHash;
      assert EvaluationOk(s.db.incidents.Keys, s.db.snapshots.Keys, e, s.db.evaluations[e]);
    }
  }

  // Whatever a worker is about to commit in a reachable state, no unique index stops it.
  lemma CommitsNeverMeetAnIndex(ds: seq<string>, states: seq<State>, steps: seq<Step>, n: nat, w: nat, d: Decision)
    requires ValidDestinations(ds) && IsRun(ds, states, steps) && n < |states| && PhaseOf(states[n], w).Committing?
    ensures
      var p := PhaseOf(states[n], w);
      Committed(states[n].db, RequestOf(ds, p.task, p.incident, p.created, d)).outcome
        in {AlreadyEvaluated, Conflict, Ok}
  {
    RunsKeepInvariant(ds, states, steps, n);
    var s := states[n];
    assert PhaseOk(s.db.incidents, s.db.snapshots.Keys, PhaseOf(s, w));
    CommitOutcomes(ds, s.db, PhaseOf(s, w), d);
  }
}
