/**
 The whole service: reconcilers and dispatchers interleave over one store. A reconciler's
 commit is an arrival for the dispatchers, and a dispatcher's write leaves what the
 reconcilers rely on, so every run is a run of both protocols at once.
 */
module System {
  import opened Domain
  import opened Store
  import opened Reconciler
  import I = Incidents
  import T = IncidentTheorems
  import O = Openings
  import A = Announcements
  import Q = Sequential
  import D = Delivery
  import DT = DeliveryTheorems

  datatype State = State(incidents: I.State, delivery: D.State)

  const INITIAL := State(I.INITIAL, D.INITIAL)

  datatype Step = Reconcile(i: I.Step) | Dispatch(d: D.Step)

  datatype Config = Config(destinations: seq<string>, dispatcher: D.Config)

  ghost predicate ValidConfig(c: Config) {
    I.ValidDestinations(c.destinations) && D.ValidConfig(c.dispatcher)
  }

  // One outbox: the step of one side shows in the other.
  ghost predicate Next(c: Config, s: State, step: Step, s': State) {
    match step
    case Reconcile(i) =>
      !i.Dispatch? && I.Next(c.destinations, s.incidents, i, s'.incidents)
      && s'.delivery == s.delivery.(outbox := s'.incidents.db.outbox)
    case Dispatch(d) =>
      !d.Arrive? && D.Next(c.dispatcher, s.delivery, d, s'.delivery)
      && s'.incidents == s.incidents.(db := s.incidents.db.(outbox := s'.delivery.outbox))
  }

  ghost predicate Inv(c: Config, s: State) {
    && s.incidents.db.outbox == s.delivery.outbox
    && I.Inv(c.destinations, s.incidents) && D.Inv(c.dispatcher, s.delivery)
  }

  lemma {:induction false} InsertOnlyAdds(m: map<Id, Row>, ds: seq<Notification>, now: Time)
    requires InsertRows(m, ds, now).Some?
    ensures D.OnlyAdds(m, InsertRows(m, ds, now).value)
  {
    if ds != [] {
      InsertOnlyAdds(m, ds[..|ds| - 1], now);
    }
  }

  lemma CommitOnlyAdds(db: Db, r: CommitRequest)
    ensures D.OnlyAdds(db.outbox, Committed(db, r).db.outbox)
  {
    if InsertRows(db.outbox, r.deliveries, r.incident.updatedAt).Some? {
      InsertOnlyAdds(db.outbox, r.deliveries, r.incident.updatedAt);
    }
  }

  lemma ReconcileOnlyAdds(ds: seq<string>, s: I.State, step: I.Step, s': I.State)
    requires I.Next(ds, s, step, s') && !step.Dispatch?
    ensures D.OnlyAdds(s.db.outbox, s'.db.outbox)
  {
    if step.Call? {
      var p := I.PhaseOf(s, step.worker);
      if p.Committing? {
        CommitOnlyAdds(s.db, RequestOf(ds, p.task, p.incident, p.created, step.decision));
      }
    }
  }

  lemma DispatchKeepsRows(c: D.Config, s: D.State, step: D.Step, s': D.State)
    requires D.Next(c, s, step, s') && !step.Arrive?
    ensures I.SameRows(s.outbox, s'.outbox)
  {
    if step.Claim? {
      OneRow(s.outbox, step.row, Claimed(s.outbox[step.row], c.owner(step.g), step.now, c.lease));
    } else if step.Finish? && HeldBy(s.outbox, s.holds[step.g].row, c.owner(step.g)) {
      var h := s.holds[step.g];
      OneRow(s.outbox, h.row, D.FinishedRow(c, s.outbox[h.row], h, step.now));
    } else {
      assert s'.outbox == s.outbox;
    }
  }

  lemma OneRow(m: map<Id, Row>, id: Id, row: Row)
    requires id in m && row.id == m[id].id && row.evaluationId == m[id].evaluationId
    requires row.destination == m[id].destination && row.eventType == m[id].eventType && row.payload == m[id].payload
    ensures I.SameRows(m, m[id := row])
  {
  }

  lemma NextKeeps(c: Config, s: State, step: Step, s': State)
    requires ValidConfig(c) && Inv(c, s) && Next(c, s, step, s')
    ensures Inv(c, s')
  {
    match step
    case Reconcile(i) =>
      ReconcileOnlyAdds(c.destinations, s.incidents, i, s'.incidents);
      I.NextKeeps(c.destinations, s.incidents, i, s'.incidents);
      D.NextKeeps(c.dispatcher, s.delivery, D.Arrive(s'.delivery.outbox), s'.delivery);
    case Dispatch(d) =>
      DispatchKeepsRows(c.dispatcher, s.delivery, d, s'.delivery);
      D.NextKeeps(c.dispatcher, s.delivery, d, s'.delivery);
      I.NextKeeps(c.destinations, s.incidents, I.Step.Dispatch(s'.delivery.outbox), s'.incidents);
  }

  ghost predicate IsRun(c: Config, states: seq<State>, steps: seq<Step>) {
    && |states| == |steps| + 1
    && states[0] == INITIAL
    && forall k :: 0 <= k < |steps| ==> Next(c, states[k], steps[k], states[k + 1])
  }

  // Every invariant of both protocols holds throughout every run of the service.
  lemma {:induction false} RunsKeepInvariant(c: Config, states: seq<State>, steps: seq<Step>, k: nat)
    requires ValidConfig(c) && IsRun(c, states, steps) && k < |states|
    ensures Inv(c, states[k])
  {
    if k == 0 {
      I.InitialOk(c.destinations);
      D.InitialOk(c.dispatcher);
    } else {
      RunsKeepInvariant(c, states, steps, k - 1);
      NextKeeps(c, states[k - 1], steps[k - 1], states[k]);
    }
  }

  // The step each side sees.
  function ForIncidents(step: Step, s': State): I.Step {
    match step
    case Reconcile(i) => i
    case Dispatch(_) => I.Step.Dispatch(s'.delivery.outbox)
  }

  lemma OneOutbox(c: Config, states: seq<State>, steps: seq<Step>, k: nat)
    requires ValidConfig(c) && IsRun(c, states, steps) && k < |states|
    ensures states[k].incidents.db.outbox == states[k].delivery.outbox
  {
    RunsKeepInvariant(c, states, steps, k);
  }

  lemma StepForIncidents(c: Config, s: State, step: Step, s': State)
    requires s.incidents.db.outbox == s.delivery.outbox && Next(c, s, step, s')
    ensures I.Next(c.destinations, s.incidents, ForIncidents(step, s'), s'.incidents)
  {
    if step.Dispatch? {
      DispatchKeepsRows(c.dispatcher, s.delivery, step.d, s'.delivery);
    }
  }

  lemma IncidentStepAt(c: Config, states: seq<State>, steps: seq<Step>, k: nat)
    requires ValidConfig(c) && IsRun(c, states, steps) && k < |steps|
    ensures I.Next(c.destinations, states[k].incidents, ForIncidents(steps[k], states[k + 1]), states[k + 1].incidents)
  {
    OneOutbox(c, states, steps, k);
    assert Next(c, states[k], steps[k], states[k + 1]);
    StepForIncidents(c, states[k], steps[k], states[k + 1]);
  }

  function IncidentStates(states: seq<State>): (r: seq<I.State>)
    ensures |r| == |states| && forall k :: 0 <= k < |states| ==> r[k] == states[k].incidents
  {
    seq(|states|, k requires 0 <= k < |states| => states[k].incidents)
  }

  function IncidentSteps(states: seq<State>, steps: seq<Step>): (r: seq<I.Step>)
    requires |states| == |steps| + 1
    ensures |r| == |steps| && forall k :: 0 <= k < |steps| ==> r[k] == ForIncidents(steps[k], states[k + 1])
  {
    seq(|steps|, k requires 0 <= k < |steps| => ForIncidents(steps[k], states[k + 1]))
  }

  // Seen from the reconcilers, a run of the service is a run of their protocol, so every
  // theorem about incidents holds with dispatchers at work.
  lemma ProjectsToIncidents(c: Config, states: seq<State>, steps: seq<Step>)
      returns (istates: seq<I.State>, isteps: seq<I.Step>)
    requires ValidConfig(c) && IsRun(c, states, steps)
    ensures T.IsRun(c.destinations, istates, isteps) && |istates| == |states|
    ensures forall k :: 0 <= k < |states| ==> istates[k] == states[k].incidents
    ensures |isteps| == |steps| && forall k :: 0 <= k < |steps| ==> isteps[k] == ForIncidents(steps[k], states[k + 1])
  {
    istates, isteps := IncidentStates(states), IncidentSteps(states, steps);
    forall k | 0 <= k < |steps| ensures I.Next(c.destinations, istates[k], isteps[k], istates[k + 1]) {
      IncidentStepAt(c, states, steps, k);
    }
  }

  function ForDelivery(step: Step, s': State): D.Step {
    match step
    case Reconcile(_) => D.Arrive(s'.delivery.outbox)
    case Dispatch(d) => d
  }

  lemma StepForDelivery(c: Config, s: State, step: Step, s': State)
    requires s.incidents.db.outbox == s.delivery.outbox && Next(c, s, step, s')
    ensures D.Next(c.dispatcher, s.delivery, ForDelivery(step, s'), s'.delivery)
  {
    if step.Reconcile? {
      ReconcileOnlyAdds(c.destinations, s.incidents, step.i, s'.incidents);
    }
  }

  lemma DeliveryStepAt(c: Config, states: seq<State>, steps: seq<Step>, k: nat)
    requires ValidConfig(c) && IsRun(c, states, steps) && k < |steps|
    ensures D.Next(c.dispatcher, states[k].delivery, ForDelivery(steps[k], states[k + 1]), states[k + 1].delivery)
  {
    OneOutbox(c, states, steps, k);
    assert Next(c, states[k], steps[k], states[k + 1]);
    StepForDelivery(c, states[k], steps[k], states[k + 1]);
  }

  // Seen from the dispatchers, it is a run of theirs in which rows arrive.
  lemma ProjectsToDelivery(c: Config, states: seq<State>, steps: seq<Step>)
      returns (dstates: seq<D.State>, dsteps: seq<D.Step>)
    requires ValidConfig(c) && IsRun(c, states, steps)
    ensures DT.FromStart(c.dispatcher, dstates, dsteps) && |dstates| == |states|
    ensures forall k :: 0 <= k < |states| ==> dstates[k] == states[k].delivery
  {
    dstates := seq(|states|, k requires 0 <= k < |states| => states[k].delivery);
    dsteps := seq(|steps|, k requires 0 <= k < |steps| => ForDelivery(steps[k], states[k + 1]));
    forall k | 0 <= k < |steps| ensures D.Next(c.dispatcher, dstates[k], dsteps[k], dstates[k + 1]) {
      DeliveryStepAt(c, states, steps, k);
    }
  }

  /** End to end */

  // The resolved events about one incident that a destination has accepted.
  ghost function AcceptedResolutions(s: State, id: Id, destination: string): set<Id> {
    set r | r in T.ResolvedRows(s.incidents.db, id, destination) && D.Receipt(destination, r) in s.delivery.seen
  }

  ghost predicate AllDelivered(s: State, id: Id, destination: string) {
    forall r :: r in T.ResolvedRows(s.incidents.db, id, destination) ==> s.incidents.db.outbox[r].status == Delivered
  }

  lemma AcceptedAmongRows(c: Config, s: State, id: Id, destination: string)
    requires Inv(c, s)
    ensures |AcceptedResolutions(s, id, destination)| <= |T.ResolvedRows(s.incidents.db, id, destination)|
    ensures AllDelivered(s, id, destination) ==>
      AcceptedResolutions(s, id, destination) == T.ResolvedRows(s.incidents.db, id, destination)
  {
    var rows, accepted := T.ResolvedRows(s.incidents.db, id, destination), AcceptedResolutions(s, id, destination);
    assert rows == accepted + (rows - accepted);
    if AllDelivered(s, id, destination) {
      forall r | r in rows ensures r in accepted {
        assert D.DeliveredOk(s.delivery.outbox, s.delivery.seen);
      }
    }
  }

  // A destination accepts at most one resolved event per resolution of the incident, each at
  // most once, and exactly one per resolution once its resolved rows are all delivered.
  lemma ResolutionsReachTheReceiver(c: Config, states: seq<State>, steps: seq<Step>, n: nat, id: Id,
                                    destination: string)
    requires ValidConfig(c) && IsRun(c, states, steps) && n < |states| && destination in c.destinations
    ensures
      var s := states[n];
      && |AcceptedResolutions(s, id, destination)| <= I.Count(s.incidents.log, I.Resolving, id)
      && (AllDelivered(s, id, destination) ==>
            |AcceptedResolutions(s, id, destination)| == I.Count(s.incidents.log, I.Resolving, id))
      && (forall j, k :: 0 <= j < k < |s.delivery.accepted| ==> s.delivery.accepted[j] != s.delivery.accepted[k])
  {
    RunsKeepInvariant(c, states, steps, n);
    var istates, isteps := ProjectsToIncidents(c, states, steps);
    T.OneResolvedRowPerResolution(c.destinations, istates, isteps, n, id, destination);
    AcceptedAmongRows(c, states[n], id, destination);
  }

  // The opened events about one incident that a destination has accepted.
  ghost function AcceptedOpenings(s: State, id: Id, destination: string): set<Id> {
    set r | r in O.OpenedRows(s.incidents.db, id, destination) && D.Receipt(destination, r) in s.delivery.seen
  }

  ghost predicate DeliveredOpeningsAccepted(s: State, id: Id, destination: string) {
    forall r :: r in O.OpenedRows(s.incidents.db, id, destination) ==>
      s.incidents.db.outbox[r].status == Delivered ==> r in AcceptedOpenings(s, id, destination)
  }

  // A reconciler loses the incident it is creating.
  ghost predicate LosesCreator(c: Config, s: State, step: Step, id: Id) {
    step.Reconcile? && O.Loses(c.destinations, s.incidents, step.i, id)
  }

  lemma LossesProject(c: Config, states: seq<State>, steps: seq<Step>, istates: seq<I.State>, isteps: seq<I.Step>,
                      n: nat, k: nat, id: Id)
    requires ValidConfig(c) && T.IsRun(c.destinations, istates, isteps)
    requires |istates| == |states| == |steps| + 1 && k < n < |states|
    requires istates[k] == states[k].incidents && isteps[k] == ForIncidents(steps[k], states[k + 1])
    requires LosesCreator(c, states[k], steps[k], id)
    ensures I.Count(istates[n].log, I.Opening, id) == 0
  {
    O.OneCreatorEach(c.destinations, istates, isteps, n, id);
    O.LossesCount(c.destinations, istates, isteps, n, id);
    assert O.Loses(c.destinations, istates[k], isteps[k], id);
  }

  lemma OpenedAreDelivered(c: Config, s: State, id: Id, destination: string)
    requires Inv(c, s)
    ensures |AcceptedOpenings(s, id, destination)| <= |O.OpenedRows(s.incidents.db, id, destination)|
    ensures DeliveredOpeningsAccepted(s, id, destination)
  {
    var rows, accepted := O.OpenedRows(s.incidents.db, id, destination), AcceptedOpenings(s, id, destination);
    assert rows == accepted + (rows - accepted);
    assert D.DeliveredOk(s.delivery.outbox, s.delivery.seen);
  }

  // A destination accepts at most one opened event per incident, at most once, and none if the
  // incident's creator was lost; a delivered one it has accepted.
  lemma OpeningsReachTheReceiver(c: Config, states: seq<State>, steps: seq<Step>, n: nat, id: Id, destination: string)
    requires ValidConfig(c) && IsRun(c, states, steps) && n < |states|
    ensures
      var s := states[n];
      && |AcceptedOpenings(s, id, destination)| <= 1
      && (forall k :: 0 <= k < n && LosesCreator(c, states[k], steps[k], id) ==>
            AcceptedOpenings(s, id, destination) == {})
      && DeliveredOpeningsAccepted(s, id, destination)
      && (forall j, k :: 0 <= j < k < |s.delivery.accepted| ==> s.delivery.accepted[j] != s.delivery.accepted[k])
  {
    RunsKeepInvariant(c, states, steps, n);
    var istates, isteps := ProjectsToIncidents(c, states, steps);
    O.OneOpenedRow(c.destinations, istates, isteps, n, id, destination);
    OpenedAreDelivered(c, states[n], id, destination);
    forall k | 0 <= k < n && LosesCreator(c, states[k], steps[k], id)
      ensures AcceptedOpenings(states[n], id, destination) == {}
    {
      LossesProject(c, states, steps, istates, isteps, n, k, id);
    }
  }

  /** What a receiver is told */

  // The row and its evaluation, read off the observation a reconciler began with and the decision
  // it committed with.
  ghost predicate Tells(row: Row, v: Evaluation, s: State, begin: Step, call: Step) {
    && begin.Reconcile? && begin.i.Begin? && call.Reconcile? && call.i.Call? && begin.i.worker == call.i.worker
    && var o, d := begin.i.observation, call.i.decision;
       var previous := Q.Known(s.incidents.db.incidents, o.snapshot.source);
       && row.payload.incidentId == IncidentId(KeyOf(o.snapshot.source)) == v.identity.incidentId
       && row.payload.evaluationId == row.evaluationId && v.decision == d && v.createdAt == begin.i.now
       && row.payload.status == Q.StatusOf(o, previous)
       && (row.eventType == EventResolved <==> Q.Resolves(o, previous))
       && row.payload.severity == d.severity && row.payload.action == d.action && row.payload.summary == d.summary
       && row.payload.ruleIds == d.ruleIds && row.payload.reasonCodes == d.reasonCodes
       && row.payload.resource == o.snapshot.source && row.payload.observedAt == o.snapshot.observedAt
       && (Q.Resolves(o, previous) || d.action == Notify || d.action == Page)
  }

  lemma RowTells(row: Row, v: Evaluation, c: I.CommitRecord, s: State, begin: Step, call: Step)
    requires begin.Reconcile? && call.Reconcile? && A.Caused(s.incidents, begin.i, call.i, c)
    requires A.Announces(row, c) && A.Records(v, c)
    requires row.payload.status == Resolved <==> row.eventType == EventResolved
    requires row.payload.status == Resolved || row.payload.action == Notify || row.payload.action == Page
    ensures Tells(row, v, s, begin, call)
  {
  }

  // Every row of every run tells what some reconciler had observed and decided.
  lemma EveryRowTells(c: Config, states: seq<State>, steps: seq<Step>, n: nat, r: Id) returns (b: nat, m: nat)
    requires ValidConfig(c) && IsRun(c, states, steps) && n < |states| && r in states[n].incidents.db.outbox
    ensures b < m < n
    ensures var row := states[n].incidents.db.outbox[r];
            && row.evaluationId in states[n].incidents.db.evaluations
            && Tells(row, states[n].incidents.db.evaluations[row.evaluationId], states[b], steps[b], steps[m])
  {
    var istates, isteps := ProjectsToIncidents(c, states, steps);
    var k := A.EveryRowIsTrue(c.destinations, istates, isteps, n, r);
    b, m := A.EveryCommitIsCaused(c.destinations, istates, isteps, n, k);
    var db := states[n].incidents.db;
    RowTells(db.outbox[r], db.evaluations[db.outbox[r].evaluationId], states[n].incidents.log[k], states[b], steps[b],
             steps[m]);
  }

  // So does whatever a destination has accepted.
  lemma ReceiversAreToldTheTruth(c: Config, states: seq<State>, steps: seq<Step>, n: nat, x: D.Receipt)
      returns (b: nat, m: nat)
    requires ValidConfig(c) && IsRun(c, states, steps) && n < |states| && x in states[n].delivery.accepted
    ensures b < m < n && x.row in states[n].delivery.outbox
    ensures states[n].delivery.outbox[x.row].destination == x.destination
    ensures var row := states[n].delivery.outbox[x.row];
            && row.evaluationId in states[n].incidents.db.evaluations
            && Tells(row, states[n].incidents.db.evaluations[row.evaluationId], states[b], steps[b], steps[m])
  {
    RunsKeepInvariant(c, states, steps, n);
    assert D.SeenOk(states[n].delivery.outbox, states[n].delivery.seen);
    b, m := EveryRowTells(c, states, steps, n, x.row);
  }

  // A stored incident carries a time of resolution exactly while it is resolved.
  lemma ResolvedAtExactly(c: Config, states: seq<State>, steps: seq<Step>, n: nat, id: Id)
    requires ValidConfig(c) && IsRun(c, states, steps) && n < |states| && id in states[n].incidents.db.incidents
    ensures var i := states[n].incidents.db.incidents[id];
            && (i.resolvedAt.Some? <==> i.status == Resolved)
            && A.Reflects(i, A.LastOf(states[n].incidents.log, id))
  {
    var istates, isteps := ProjectsToIncidents(c, states, steps);
    A.EveryIncidentReflects(c.destinations, istates, isteps, n, id);
  }
}
