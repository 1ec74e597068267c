/**
 The MongoDB store (internal/store/mongo): four collections and the operations the reconciler
 and the dispatcher call. Each operation is first a function on Db, the value of the four
 collections; class Store holds the collections and its methods are proved to compute those
 functions. A transaction and a FindOneAndUpdate are atomic; nothing expires.
 */
module Store {
  import opened Domain
  import opened Order

  datatype FailureClass = Retryable | Permanent | UnknownFailure

  datatype Row = Row(id: Id, evaluationId: Id, destination: string, eventType: EventType,
                     status: NotificationStatus, attempts: nat, nextAttemptAt: Time, payload: Payload,
                     leaseOwner: Option<string>, leaseUntil: Option<Time>, lastFailure: Option<FailureClass>,
                     deliveredAt: Option<Time>, updatedAt: Time)

  datatype SnapshotKey = SnapshotKey(incidentId: Id, contentHash: Hash)

  datatype Db = Db(incidents: map<Id, Incident>, snapshots: map<SnapshotKey, Snapshot>,
                   evaluations: map<Id, Evaluation>, outbox: map<Id, Row>)

  const EMPTY := Db(map[], map[], map[], map[])

  datatype Outcome = Ok | Invalid | NotFound | Conflict | DuplicateKey | AlreadyEvaluated

  /** Incidents and snapshots */

  predicate Matches(i: Incident, clusterId: string, key: IncidentKey) {
    i.clusterId == clusterId && i.key == key
  }

  ghost predicate HasIncident(m: map<Id, Incident>, clusterId: string, key: IncidentKey) {
    exists id :: id in m && Matches(m[id], clusterId, key)
  }

  ghost function FindIncident(m: map<Id, Incident>, clusterId: string, key: IncidentKey): Option<Incident> {
    if HasIncident(m, clusterId, key) then
      var id :| id in m && Matches(m[id], clusterId, key);
      Some(m[id])
    else None
  }

  predicate ValidIncident(i: Incident) {
    i.id != BlankId && !Blank(i.clusterId) && i.version > 0
  }

  // The $setOnInsert upsert: it inserts only when neither the key nor the ID is taken.
  ghost predicate Inserts(m: map<Id, Incident>, i: Incident) {
    !HasIncident(m, i.clusterId, i.key) && i.id !in m
  }

  ghost function Upserted(m: map<Id, Incident>, i: Incident): map<Id, Incident> {
    if Inserts(m, i) then m[i.id := i] else m
  }

  function SnapshotUpserted(m: map<SnapshotKey, Snapshot>, incidentId: Id, s: Snapshot): map<SnapshotKey, Snapshot> {
    var k := SnapshotKey(incidentId, s.contentHash);
    if k in m then m else m[k := s]
  }

  /** Commit */

  datatype CommitRequest = CommitRequest(incident: Incident, expectedVersion: int, evaluation: Evaluation,
                                         deliveries: seq<Notification>)

  predicate ValidCommit(r: CommitRequest) {
    && ValidIncident(r.incident)
    && r.expectedVersion > 0
    && r.evaluation.id != BlankId && r.evaluation.identity.incidentId == r.incident.id
    && forall i :: 0 <= i < |r.deliveries| ==>
         r.deliveries[i].id != BlankId && r.deliveries[i].evaluationId == r.evaluation.id
  }

  predicate Evaluated(m: map<Id, Evaluation>, identity: Identity) {
    exists e :: e in m && m[e].identity == identity
  }

  // The fields updateIncident sets; key, cluster, opening time stay.
  function Updated(stored: Incident, i: Incident): Incident {
    stored.(source := i.source, status := i.status, updatedAt := i.updatedAt, resolvedAt := i.resolvedAt,
            contentHash := i.contentHash, version := stored.version + 1)
  }

  function RowOf(d: Notification, now: Time): Row {
    Row(d.id, d.evaluationId, d.destination, d.eventType, Pending, 0, d.nextAttemptAt, d.payload,
        None, None, None, None, now)
  }

  // The outbox's two unique indexes: _id and (evaluation, destination, event type).
  predicate Clashes(m: map<Id, Row>, d: Notification) {
    || d.id in m
    || exists r :: r in m && m[r].evaluationId == d.evaluationId && m[r].destination == d.destination
                   && m[r].eventType == d.eventType
  }

  function InsertRows(m: map<Id, Row>, ds: seq<Notification>, now: Time): Option<map<Id, Row>> {
    if ds == [] then Some(m)
    else
      var n := |ds| - 1;
      var before := InsertRows(m, ds[..n], now);
      if before.None? || Clashes(before.value, ds[n]) then None
      else Some(before.value[ds[n].id := RowOf(ds[n], now)])
  }

  datatype CommitResult = CommitResult(db: Db, outcome: Outcome)

  function Committed(db: Db, r: CommitRequest): CommitResult {
    if !ValidCommit(r) then CommitResult(db, Invalid)
    else if Evaluated(db.evaluations, r.evaluation.identity) then CommitResult(db, AlreadyEvaluated)
    else if r.incident.id !in db.incidents || db.incidents[r.incident.id].version != r.expectedVersion then
      CommitResult(db, Conflict)
    else if r.evaluation.id in db.evaluations then CommitResult(db, DuplicateKey)
    else
      var rows := InsertRows(db.outbox, r.deliveries, r.incident.updatedAt);
      if rows.None? then CommitResult(db, DuplicateKey)
      else CommitResult(
             db.(incidents := db.incidents[r.incident.id := Updated(db.incidents[r.incident.id], r.incident)],
                 evaluations := db.evaluations[r.evaluation.id := r.evaluation],
                 outbox := rows.value), Ok)
  }

  /** The outbox lease machine */

  predicate Due(r: Row, now: Time) {
    || (r.status == Pending && r.nextAttemptAt <= now)
    || (r.status == Delivering && r.leaseUntil.Some? && r.leaseUntil.value <= now)
  }

  predicate IsTerminal(r: Row) { r.status == Delivered || r.status == Failed }

  // The sort (next_attempt_at, _id); IDs are digests, so before is an arbitrary total order.
  predicate Ahead(before: (Id, Id) -> bool, a: Row, b: Row) {
    a.nextAttemptAt < b.nextAttemptAt || (a.nextAttemptAt == b.nextAttemptAt && before(a.id, b.id))
  }

  predicate IsNext(m: map<Id, Row>, before: (Id, Id) -> bool, now: Time, id: Id) {
    && id in m && Due(m[id], now)
    && forall o :: o in m && o != id && Due(m[o], now) ==> Ahead(before, m[id], m[o])
  }

  function Claimed(r: Row, worker: string, now: Time, lease: int): Row {
    r.(status := Delivering, leaseOwner := Some(worker), leaseUntil := Some(now + lease), updatedAt := now,
       attempts := r.attempts + 1)
  }

  // A row that was waiting or whose lease had run out, now leased to the worker and counted.
  predicate TakenBy(was: Row, row: Row, worker: string, now: Time, lease: int) {
    && (|| (was.status == Pending && was.nextAttemptAt <= now)
        || (was.status == Delivering && was.leaseUntil.Some? && was.leaseUntil.value <= now))
    && row.status == Delivering && row.leaseOwner == Some(worker) && row.leaseUntil == Some(now + lease)
    && row.attempts == was.attempts + 1 && row.updatedAt == now
    && row.id == was.id && row.evaluationId == was.evaluationId && row.destination == was.destination
    && row.eventType == was.eventType && row.payload == was.payload && row.nextAttemptAt == was.nextAttemptAt
    && row.lastFailure == was.lastFailure && row.deliveredAt == was.deliveredAt
  }

  predicate HeldBy(m: map<Id, Row>, id: Id, worker: string) {
    id in m && m[id].status == Delivering && m[id].leaseOwner == Some(worker)
  }

  function Completed(r: Row, now: Time): Row {
    r.(status := Delivered, deliveredAt := Some(now), updatedAt := now, leaseOwner := None, leaseUntil := None)
  }

  predicate ValidReschedule(id: Id, worker: string, now: Time, next: Time, failure: FailureClass) {
    id != BlankId && !Blank(worker) && (failure == Permanent || (failure == Retryable && next >= now))
  }

  function Rescheduled(r: Row, now: Time, next: Time, failure: FailureClass): Row {
    var s := r.(lastFailure := Some(failure), updatedAt := now, leaseOwner := None, leaseUntil := None);
    if failure == Retryable then s.(status := Pending, nextAttemptAt := next) else s.(status := Failed)
  }

  /** Consequences used throughout */

  lemma AheadIsTotal(before: (Id, Id) -> bool, a: Row, b: Row, c: Row)
    requires StrictTotal(before)
    ensures a.id != b.id ==> Ahead(before, a, b) || Ahead(before, b, a)
    ensures Ahead(before, a, b) ==> !Ahead(before, b, a)
    ensures Ahead(before, a, b) && Ahead(before, b, c) ==> Ahead(before, a, c)
  {
  }

  ghost predicate Keyed(m: map<Id, Row>) {
    forall i :: i in m ==> m[i].id == i
  }

  ghost predicate IsLeast(m: map<Id, Row>, before: (Id, Id) -> bool, ids: set<Id>, i: Id)
    requires ids <= m.Keys
  {
    i in ids && forall o :: o in ids && o != i ==> Ahead(before, m[i], m[o])
  }

  lemma {:induction false} LeastExists(m: map<Id, Row>, before: (Id, Id) -> bool, ids: set<Id>) returns (least: Id)
    requires StrictTotal(before) && Keyed(m) && ids != {} && ids <= m.Keys
    ensures IsLeast(m, before, ids, least)
    decreases |ids|
  {
    var x :| x in ids;
    least := x;
    if ids != {x} {
      var rest := ids - {x};
      var i := LeastExists(m, before, rest);
      least := if Ahead(before, m[x], m[i]) then x else i;
      forall o | o in ids && o != least ensures Ahead(before, m[least], m[o]) {
        AheadIsTotal(before, m[x], m[i], m[o]);
      }
    }
  }

  /** The store itself */

  class Store {
    var incidents: map<Id, Incident>
    var snapshots: map<SnapshotKey, Snapshot>
    var evaluations: map<Id, Evaluation>
    var outbox: map<Id, Row>
    const before: (Id, Id) -> bool

    ghost function Contents(): Db
      reads this
    {
      Db(incidents, snapshots, evaluations, outbox)
    }

    ghost predicate Valid()
      reads this
    {
      && StrictTotal(before)
      && Keyed(outbox)
    }

    constructor (before: (Id, Id) -> bool)
      requires StrictTotal(before)
      ensures Valid() && Contents() == EMPTY && this.before == before
    {
      incidents, snapshots, evaluations, outbox := map[], map[], map[], map[];
      this.before := before;
    }

    method GetIncident(clusterId: string, key: IncidentKey) returns (found: Option<Incident>, outcome: Outcome)
      ensures outcome == if Blank(clusterId) then Invalid else if found.None? then NotFound else Ok
      ensures found.None? <==> Blank(clusterId) || !HasIncident(incidents, clusterId, key)
      ensures found.Some? ==> found.value in incidents.Values && Matches(found.value, clusterId, key)
    {
      found, outcome := None, NotFound;
      if Blank(clusterId) { return None, Invalid; }
      var left := incidents.Keys;
      while left != {}
        invariant left <= incidents.Keys && outcome == NotFound && found.None?
        invariant forall id :: id in incidents.Keys - left ==> !Matches(incidents[id], clusterId, key)
        decreases |left|
      {
        var id :| id in left;
        if Matches(incidents[id], clusterId, key) {
          return Some(incidents[id]), Ok;
        }
        left := left - {id};
      }
    }

    method UpsertIncident(incident: Incident) returns (found: Option<Incident>, created: bool, outcome: Outcome)
      requires Valid()
      modifies this`incidents
      ensures Valid()
      ensures incidents == if ValidIncident(incident) then Upserted(old(incidents), incident) else old(incidents)
      ensures created <==> ValidIncident(incident) && Inserts(old(incidents), incident)
      ensures outcome == Ok <==> found.Some?
      ensures found.Some? <==> ValidIncident(incident) && HasIncident(incidents, incident.clusterId, incident.key)
      ensures found.Some? ==> found.value in incidents.Values
                              && Matches(found.value, incident.clusterId, incident.key)
    {
      found, created, outcome := None, false, Invalid;
      if ValidIncident(incident) {
        found, outcome := GetIncident(incident.clusterId, incident.key);
        if found.None? && incident.id !in incidents {
          incidents := incidents[incident.id := incident];
          created := true;
        }
        found, outcome := GetIncident(incident.clusterId, incident.key);
      }
    }

    method UpsertSnapshot(incidentId: Id, s: Snapshot) returns (stored: Option<Snapshot>, inserted: bool)
      requires Valid()
      modifies this`snapshots
      ensures Valid()
      ensures stored.None? <==> incidentId == BlankId || Blank(s.contentHash)
      ensures snapshots == if stored.None? then old(snapshots) else SnapshotUpserted(old(snapshots), incidentId, s)
      ensures stored.Some? ==> SnapshotKey(incidentId, s.contentHash) in snapshots
                               && stored.value == snapshots[SnapshotKey(incidentId, s.contentHash)]
      ensures inserted <==> stored.Some? && SnapshotKey(incidentId, s.contentHash) !in old(snapshots)
    {
      if incidentId == BlankId || Blank(s.contentHash) { return None, false; }
      var k := SnapshotKey(incidentId, s.contentHash);
      inserted := k !in snapshots;
      if inserted { snapshots := snapshots[k := s]; }
      stored := Some(snapshots[k]);
    }

    method Commit(r: CommitRequest) returns (outcome: Outcome)
      requires Valid()
      modifies this`incidents, this`evaluations, this`outbox
      ensures Valid()
      ensures CommitResult(Contents(), outcome) == Committed(old(Contents()), r)
    {
      if !ValidIncident(r.incident) || r.expectedVersion <= 0 || r.evaluation.id == BlankId
         || r.evaluation.identity.incidentId != r.incident.id {
        return Invalid;
      }
      for i := 0 to |r.deliveries|
        invariant forall j :: 0 <= j < i ==>
          r.deliveries[j].id != BlankId && r.deliveries[j].evaluationId == r.evaluation.id
      {
        if r.deliveries[i].id == BlankId || r.deliveries[i].evaluationId != r.evaluation.id {
          return Invalid;
        }
      }
      if exists e :: e in evaluations && evaluations[e].identity == r.evaluation.identity {
        return AlreadyEvaluated;
      }
      if r.incident.id !in incidents || incidents[r.incident.id].version != r.expectedVersion {
        return Conflict;
      }
      if r.evaluation.id in evaluations { return DuplicateKey; }
      var rows := outbox;
      for i := 0 to |r.deliveries|
        invariant InsertRows(outbox, r.deliveries[..i], r.incident.updatedAt) == Some(rows)
        invariant forall k :: k in rows ==> rows[k].id == k
      {
        var d := r.deliveries[i];
        assert r.deliveries[..i + 1][..i] == r.deliveries[..i];
        if Clashes(rows, d) {
          InsertFails(outbox, r.deliveries, i + 1, r.incident.updatedAt);
          return DuplicateKey;
        }
        rows := rows[d.id := RowOf(d, r.incident.updatedAt)];
      }
      assert r.deliveries[..|r.deliveries|] == r.deliveries;
      incidents := incidents[r.incident.id := Updated(incidents[r.incident.id], r.incident)];
      evaluations := evaluations[r.evaluation.id := r.evaluation];
      outbox := rows;
      outcome := Ok;
    }

    method ClaimDelivery(worker: string, now: Time, lease: int) returns (claimed: Option<Row>, outcome: Outcome)
      requires Valid()
      modifies this`outbox
      ensures Valid()
      ensures outcome == if Blank(worker) || lease <= 0 then Invalid
                         else if forall i :: i in old(outbox) ==> !Due(old(outbox)[i], now) then NotFound else Ok
      ensures outcome == Ok <==> claimed.Some?
      ensures claimed.None? ==> outbox == old(outbox)
      ensures claimed.Some? ==>
        && IsNext(old(outbox), before, now, claimed.value.id)
        && claimed.value == Claimed(old(outbox)[claimed.value.id], worker, now, lease)
        && outbox == old(outbox)[claimed.value.id := claimed.value]
        && TakenBy(old(outbox)[claimed.value.id], claimed.value, worker, now, lease)
        && forall o :: o in old(outbox) && Due(old(outbox)[o], now) ==>
             claimed.value.nextAttemptAt <= old(outbox)[o].nextAttemptAt
    {
      if Blank(worker) || lease <= 0 { return None, Invalid; }
      if forall i :: i in outbox ==> !Due(outbox[i], now) { return None, NotFound; }
      ghost var due := set i | i in outbox && Due(outbox[i], now);
      ghost var some: Id :| some in outbox && Due(outbox[some], now);
      assert some in due;
      ghost var least := LeastExists(outbox, before, due);
      assert IsNext(outbox, before, now, least);
      var id :| id in outbox && IsNext(outbox, before, now, id);
      var row := Claimed(outbox[id], worker, now, lease);
      outbox := outbox[id := row];
      return Some(row), Ok;
    }

    method CompleteDelivery(id: Id, worker: string, now: Time) returns (outcome: Outcome)
      requires Valid()
      modifies this`outbox
      ensures Valid()
      ensures outcome == if id == BlankId || Blank(worker) then Invalid
                         else if HeldBy(old(outbox), id, worker) then Ok else Conflict
      ensures outbox == if outcome == Ok then old(outbox)[id := Completed(old(outbox)[id], now)] else old(outbox)
    {
      if id == BlankId || Blank(worker) { return Invalid; }
      if !HeldBy(outbox, id, worker) { return Conflict; }
      outbox := outbox[id := Completed(outbox[id], now)];
      outcome := Ok;
    }

    method RescheduleDelivery(id: Id, worker: string, now: Time, next: Time, failure: FailureClass)
      returns (outcome: Outcome)
      requires Valid()
      modifies this`outbox
      ensures Valid()
      ensures outcome == Invalid <==>
        id == BlankId || Blank(worker) || failure == UnknownFailure || (failure == Retryable && next < now)
      ensures outcome == if !ValidReschedule(id, worker, now, next, failure) then Invalid
                         else if HeldBy(old(outbox), id, worker) then Ok else Conflict
      ensures outbox == if outcome == Ok then old(outbox)[id := Rescheduled(old(outbox)[id], now, next, failure)]
                        else old(outbox)
    {
      if id == BlankId || Blank(worker) { return Invalid; }
      var status: NotificationStatus;
      match failure {
        case Retryable =>
          if next < now { return Invalid; }
          status := Pending;
        case Permanent => status := Failed;
        case UnknownFailure => return Invalid;
      }
      if !HeldBy(outbox, id, worker) { return Conflict; }
      var row := outbox[id].(status := status, lastFailure := Some(failure), updatedAt := now,
                             leaseOwner := None, leaseUntil := None);
      if status == Pending { row := row.(nextAttemptAt := next); }
      outbox := outbox[id := row];
      outcome := Ok;
    }
  }

  lemma {:induction false} InsertFails(m: map<Id, Row>, ds: seq<Notification>, k: nat, now: Time)
    requires k <= |ds| && InsertRows(m, ds[..k], now).None?
    ensures InsertRows(m, ds, now).None?
    decreases |ds|
  {
    if k == |ds| {
      assert ds[..k] == ds;
    } else {
      assert ds[..|ds| - 1][..k] == ds[..k];
      InsertFails(m, ds[..|ds| - 1], k, now);
    }
  }
}
