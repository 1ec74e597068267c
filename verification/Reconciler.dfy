/**
 One reconciliation (internal/controller/reconciler.go) as the sequence of store calls it makes.
 A Phase is what a worker holds between two calls; Advance makes the next call. Between two
 calls of one worker any other worker may run, so the protocol interleaves Advance steps, and
 Reconciled is one worker running alone.
 */
module Reconciler {
  import opened Domain
  import opened Rules
  import opened Store

  // What the resolver and the normalizer hand to Reconcile, with what the rules find in it.
  // quietHash is the fingerprint after the QuietPeriodElapsed condition is appended.
  datatype Observation =
    | Present(snapshot: Snapshot, finding: Finding, quietHash: Hash)
    | Gone(snapshot: Snapshot)

  ghost predicate ValidObservation(o: Observation) {
    o.Present? ==> Genuine(o.finding)
  }

  // What a reconciler carries from one store call to the next.
  datatype Task = Task(snapshot: Snapshot, result: Result, now: Time, policyVersion: string,
                       providerConfigHash: string)

  datatype Phase =
    | Idle
    | Upserting(task: Task)
    | ReadingBack(task: Task, created: bool)
    | StoringSnapshot(task: Task, incident: Incident, created: bool)
    | Committing(task: Task, incident: Incident, created: bool)

  /** From observation to task */

  const DELETED_RESULT :=
    Result([Match("resource-deleted", "observed resource was deleted", Info)], Terminal,
           Some(Decision(Info, Record, "observed resource was deleted", ["resource_deleted"], ["resource-deleted"])),
           "", POLICY_VERSION)

  const QUIET := Condition("QuietPeriodElapsed", "True", "EventQuietPeriod", "", None)

  function ResultOf(o: Observation, previous: Option<Incident>): Result {
    if o.Gone? then DELETED_RESULT else Judge(o.finding, previous)
  }

  function SnapshotOf(o: Observation, r: Result): Snapshot {
    if o.Present? && IsRecovery(r) && o.snapshot.event.Some?
    then o.snapshot.(conditions := o.snapshot.conditions + [QUIET], contentHash := o.quietHash)
    else o.snapshot
  }

  // Reconcile and resolveDeletion return without persisting anything.
  predicate LeavesAlone(o: Observation, previous: Option<Incident>) {
    var r := ResultOf(o, previous);
    if o.Gone? then previous.None? || previous.value.status == Resolved
    else
      || (previous.Some? && previous.value.contentHash == SnapshotOf(o, r).contentHash && !IsRecovery(r))
      || (r.disposition == Unmatched && previous.None?)
      || (r.disposition == Unmatched && previous.Some? && previous.value.status == Resolved)
  }

  function StatusFor(r: Result): IncidentStatus {
    if IsRecovery(r) then Resolved else if r.disposition == Suppressing then Suppressed else Open
  }

  function NewIncident(t: Task): Incident {
    Incident(IncidentId(KeyOf(t.snapshot.source)), KeyOf(t.snapshot.source), t.snapshot.source.clusterId,
             t.snapshot.source, Open, t.now, t.now, None, NO_HASH, 1)
  }

  // persist once it holds the incident: nothing to do when the content is already recorded.
  function WithIncident(t: Task, i: Incident, created: bool): Phase {
    if !created && i.contentHash == t.snapshot.contentHash && !IsRecovery(t.result) then Idle
    else StoringSnapshot(t, i, created)
  }

  ghost function Start(db: Db, o: Observation, now: Time, policyVersion: string, providerConfigHash: string): Phase {
    var source := o.snapshot.source;
    if Blank(source.clusterId) then Idle
    else
      var previous := FindIncident(db.incidents, source.clusterId, KeyOf(source));
      var r := ResultOf(o, previous);
      var t := Task(SnapshotOf(o, r), r, now, policyVersion, providerConfigHash);
      if LeavesAlone(o, previous) then Idle
      else if previous.Some? then WithIncident(t, previous.value, false)
      else Upserting(t)
  }

  /** The commit a worker builds */

  function IdentityOf(t: Task, incidentId: Id): Identity {
    Identity(incidentId, t.snapshot.contentHash, t.policyVersion, t.result.questionSet, t.providerConfigHash)
  }

  function EventFor(t: Task, created: bool): EventType {
    if StatusFor(t.result) == Resolved then EventResolved else if created then EventOpened else EventUpdated
  }

  predicate Notifies(t: Task, d: Decision) {
    StatusFor(t.result) == Resolved || d.action == Notify || d.action == Page
  }

  function PayloadOf(t: Task, i: Incident, d: Decision): Payload {
    Payload(i.id, EvaluationId(IdentityOf(t, i.id)), StatusFor(t.result), d.severity, d.action, d.summary,
            t.snapshot.source, d.ruleIds, d.reasonCodes, t.snapshot.observedAt)
  }

  function DeliveryTo(t: Task, i: Incident, created: bool, d: Decision, destination: string): Notification {
    var e := EvaluationId(IdentityOf(t, i.id));
    Notification(DeliveryId(e, destination, EventFor(t, created)), e, destination, EventFor(t, created), t.now,
                 PayloadOf(t, i, d))
  }

  function Deliveries(destinations: seq<string>, t: Task, i: Incident, created: bool, d: Decision): seq<Notification> {
    if Notifies(t, d)
    then seq(|destinations|, k requires 0 <= k < |destinations| => DeliveryTo(t, i, created, d, destinations[k]))
    else []
  }

  function RequestOf(destinations: seq<string>, t: Task, i: Incident, created: bool, d: Decision): CommitRequest {
    var status := StatusFor(t.result);
    var next := i.(source := t.snapshot.source, status := status, contentHash := t.snapshot.contentHash,
                   updatedAt := t.now, resolvedAt := if status == Resolved then Some(t.now) else None);
    var identity := IdentityOf(t, i.id);
    CommitRequest(next, i.version, Evaluation(EvaluationId(identity), identity, d, t.now),
                  Deliveries(destinations, t, i, created, d))
  }

  /** One store call */

  datatype Moved = Moved(db: Db, phase: Phase)

  ghost function Advance(destinations: seq<string>, db: Db, p: Phase, d: Decision): Moved {
    match p
    case Idle => Moved(db, Idle)
    case Upserting(t) =>
      var i := NewIncident(t);
      Moved(db.(incidents := Upserted(db.incidents, i)), ReadingBack(t, Inserts(db.incidents, i)))
    case ReadingBack(t, created) =>
      var source := t.snapshot.source;
      var found := FindIncident(db.incidents, source.clusterId, KeyOf(source));
      Moved(db, if found.None? then Idle else WithIncident(t, found.value, created))
    case StoringSnapshot(t, i, created) =>
      if i.id == BlankId || Blank(t.snapshot.contentHash) then Moved(db, Idle)
      else Moved(db.(snapshots := SnapshotUpserted(db.snapshots, i.id, t.snapshot)), Committing(t, i, created))
    case Committing(t, i, created) =>
      Moved(Committed(db, RequestOf(destinations, t, i, created, d)).db, Idle)
  }

  /** One worker alone */

  function Remaining(p: Phase): nat {
    match p
    case Idle => 0
    case Upserting(_) => 4
    case ReadingBack(_, _) => 3
    case StoringSnapshot(_, _, _) => 2
    case Committing(_, _, _) => 1
  }

  ghost function Finished(destinations: seq<string>, db: Db, p: Phase, d: Decision): Db
    decreases Remaining(p)
  {
    if p.Idle? then db
    else
      var m := Advance(destinations, db, p, d);
      Finished(destinations, m.db, m.phase, d)
  }

  ghost function Reconciled(destinations: seq<string>, db: Db, o: Observation, now: Time, policyVersion: string,
                            providerConfigHash: string, d: Decision): Db {
    Finished(destinations, db, Start(db, o, now, policyVersion, providerConfigHash), d)
  }
}
