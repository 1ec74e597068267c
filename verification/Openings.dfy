/**
 Who opens an incident. The worker whose upsert inserts an incident is its creator and sends
 "opened" if its commit wins. Every incident has one creator, and what became of it accounts for
 every "opened" commit in every run.
 */
module Openings {
  import opened Domain
  import opened Rules
  import opened Store
  import opened Reconciler
  import opened Incidents
  import opened IncidentTheorems

  // The incident a worker is about to open.
  function Creates(p: Phase): Option<Id> {
    match p
    case ReadingBack(t, true) => Some(IncidentId(KeyOf(t.snapshot.source)))
    case StoringSnapshot(_, i, true) => Some(i.id)
    case Committing(_, i, true) => Some(i.id)
    case _ => None
  }

  ghost function Creators(workers: map<nat, Phase>, id: Id): set<nat> {
    set w | w in workers && Creates(workers[w]) == Some(id)
  }

  // The creator crashes, stops at a blank fingerprint, or commits without writing because it lost
  // the version race or its evaluation is already there.
  ghost predicate Loses(ds: seq<string>, s: State, step: Step, id: Id) {
    match step
    case Crash(w) => Creates(PhaseOf(s, w)) == Some(id)
    case Call(w, d) =>
      var p := PhaseOf(s, w);
      && Creates(p) == Some(id)
      && (p.StoringSnapshot? ==> p.incident.id == BlankId || Blank(p.task.snapshot.contentHash))
      && (p.Committing? ==> !Wins(ds, s, p, d)) && !p.ReadingBack?
    case _ => false
  }

  function One(b: bool): nat { if b then 1 else 0 }

  lemma CreatorsAfter(workers: map<nat, Phase>, w: nat, p: Phase, id: Id)
    ensures var was := w in workers && Creates(workers[w]) == Some(id);
            |Creators(workers[w := p], id)| + One(was) == |Creators(workers, id)| + One(Creates(p) == Some(id))
  {
    var without := Creators(workers, id) - {w};
    assert Creators(workers, id) == if w in workers && Creates(workers[w]) == Some(id) then without + {w} else without;
    assert Creators(workers[w := p], id) == if Creates(p) == Some(id) then without + {w} else without;
  }

  predicate PlainCreator(p: Phase) {
    Creates(p).Some? ==> !IsRecovery(p.task.result)
  }

  ghost predicate PlainCreators(workers: map<nat, Phase>) {
    forall w :: w in workers ==> PlainCreator(workers[w])
  }

  // What a step does to creators, openings and losses it does to the incident's existence.
  ghost predicate Balanced(ds: seq<string>, s: State, step: Step, s': State, id: Id) {
    |Creators(s'.workers, id)| + Count(s'.log, Opening, id) + One(Loses(ds, s, step, id)) + One(id in s.db.incidents)
    == |Creators(s.workers, id)| + Count(s.log, Opening, id) + One(id in s'.db.incidents)
  }

  lemma BeginBalances(ds: seq<string>, s: State, step: Step, s': State, id: Id)
    requires step.Begin? && Next(ds, s, step, s')
    ensures Balanced(ds, s, step, s', id)
  {
    CreatorsAfter(s.workers, step.worker, s'.workers[step.worker], id);
  }

  lemma UpsertBalances(ds: seq<string>, s: State, w: nat, d: Decision, id: Id)
    requires Inv(ds, s) && PhaseOf(s, w).Upserting?
    ensures Balanced(ds, s, Call(w, d), AfterCall(ds, s, w, d), id)
  {
    var t := PhaseOf(s, w).task;
    var i := NewIncident(t);
    FindIsById(s.db.incidents, i.clusterId, i.key);
    CreatorsAfter(s.workers, w, ReadingBack(t, Inserts(s.db.incidents, i)), id);
  }

  lemma ReadBackBalances(ds: seq<string>, s: State, w: nat, d: Decision, id: Id)
    requires Inv(ds, s) && PhaseOf(s, w).ReadingBack?
    ensures Balanced(ds, s, Call(w, d), AfterCall(ds, s, w, d), id)
  {
    var p := PhaseOf(s, w);
    var source := p.task.snapshot.source;
    assert PhaseOk(s.db.incidents, s.db.snapshots.Keys, p);
    FindIsById(s.db.incidents, source.clusterId, KeyOf(source));
    CreatorsAfter(s.workers, w, AfterCall(ds, s, w, d).workers[w], id);
  }

  lemma SnapshotBalances(ds: seq<string>, s: State, w: nat, d: Decision, id: Id)
    requires PhaseOf(s, w).StoringSnapshot?
    ensures Balanced(ds, s, Call(w, d), AfterCall(ds, s, w, d), id)
  {
    CreatorsAfter(s.workers, w, AfterCall(ds, s, w, d).workers[w], id);
  }

  lemma CommitKeepsKeys(db: Db, r: CommitRequest)
    ensures Committed(db, r).db.incidents.Keys == db.incidents.Keys
    ensures Committed(db, r).outcome == Ok ==> r.incident.id in db.incidents
  {
  }

  // A plain creator's record opens its incident, and no other record opens anything.
  lemma RecordOpens(s: State, p: Phase, d: Decision, id: Id)
    requires p.Committing? && PlainCreator(p) && p.incident.id in s.db.incidents
    ensures Is(RecordOf(s, p.task, p.incident, p.created, d), Opening, id) <==> Creates(p) == Some(id)
  {
  }

  lemma CommitBalances(ds: seq<string>, s: State, w: nat, d: Decision, id: Id)
    requires PhaseOf(s, w).Committing? && PlainCreator(PhaseOf(s, w))
    ensures Balanced(ds, s, Call(w, d), AfterCall(ds, s, w, d), id)
  {
    var p := PhaseOf(s, w);
    CommitKeepsKeys(s.db, RequestOf(ds, p.task, p.incident, p.created, d));
    CreatorsAfter(s.workers, w, Idle, id);
    if Wins(ds, s, p, d) {
      RecordOpens(s, p, d, id);
      CountAppend(s.log, RecordOf(s, p.task, p.incident, p.created, d), id);
    }
  }

  /** Creators never resolve: they found no incident to recover */

  lemma CallKeepsPlain(ds: seq<string>, db: Db, p: Phase, d: Decision)
    requires PhaseOk(db.incidents, db.snapshots.Keys, p) && PlainCreator(p)
    ensures PlainCreator(Advance(ds, db, p, d).phase)
  {
  }

  lemma SetPlain(workers: map<nat, Phase>, w: nat, p: Phase)
    requires PlainCreators(workers) && PlainCreator(p)
    ensures PlainCreators(workers[w := p])
  {
  }

  lemma NextKeepsPlain(ds: seq<string>, s: State, step: Step, s': State)
    requires Inv(ds, s) && PlainCreators(s.workers) && Next(ds, s, step, s')
    ensures PlainCreators(s'.workers)
  {
    match step
    case Begin(w, _, _, _, _) => SetPlain(s.workers, w, s'.workers[w]);
    case Crash(w) => SetPlain(s.workers, w, Idle);
    case Dispatch(_) =>
    case Call(w, d) =>
      var p := PhaseOf(s, w);
      assert PhaseOk(s.db.incidents, s.db.snapshots.Keys, p);
      CallKeepsPlain(ds, s.db, p, d);
      SetPlain(s.workers, w, Advance(ds, s.db, p, d).phase);
  }

  lemma {:induction false} CreatorsArePlain(ds: seq<string>, states: seq<State>, steps: seq<Step>, n: nat)
    requires ValidDestinations(ds) && IsRun(ds, states, steps) && n < |states|
    ensures PlainCreators(states[n].workers)
  {
    if n > 0 {
      CreatorsArePlain(ds, states, steps, n - 1);
      RunsKeepInvariant(ds, states, steps, n - 1);
      NextKeepsPlain(ds, states[n - 1], steps[n - 1], states[n]);
    }
  }

  lemma StepBalances(ds: seq<string>, s: State, step: Step, s': State, id: Id)
    requires ValidDestinations(ds) && Inv(ds, s) && PlainCreators(s.workers) && Next(ds, s, step, s')
    ensures Balanced(ds, s, step, s', id)
  {
    match step
    case Begin(_, _, _, _, _) => BeginBalances(ds, s, step, s', id);
    case Crash(w) => CreatorsAfter(s.workers, w, Idle, id);
    case Dispatch(_) =>
    case Call(w, d) => CallBalances(ds, s, w, d, id);
  }

  lemma CallBalances(ds: seq<string>, s: State, w: nat, d: Decision, id: Id)
    requires Inv(ds, s) && PlainCreators(s.workers)
    ensures Balanced(ds, s, Call(w, d), AfterCall(ds, s, w, d), id)
  {
    match PhaseOf(s, w)
    case Idle => CreatorsAfter(s.workers, w, Idle, id);
    case Upserting(_) => UpsertBalances(ds, s, w, d, id);
    case ReadingBack(_, _) => ReadBackBalances(ds, s, w, d, id);
    case StoringSnapshot(_, _, _) => SnapshotBalances(ds, s, w, d, id);
    case Committing(_, _, _) => CommitBalances(ds, s, w, d, id);
  }

  /** Over a run */

  ghost function Losses(ds: seq<string>, states: seq<State>, steps: seq<Step>, n: nat, id: Id): nat
    requires n <= |steps| < |states|
  {
    if n == 0 then 0 else Losses(ds, states, steps, n - 1, id) + One(Loses(ds, states[n - 1], steps[n - 1], id))
  }

  // Every incident was inserted by one worker, which is still at work on it, has opened it, or was
  // lost on the way.
  lemma {:induction false} OneCreatorEach(ds: seq<string>, states: seq<State>, steps: seq<Step>, n: nat, id: Id)
    requires ValidDestinations(ds) && IsRun(ds, states, steps) && n < |states|
    ensures |Creators(states[n].workers, id)| + Count(states[n].log, Opening, id) + Losses(ds, states, steps, n, id)
         == One(id in states[n].db.incidents)
  {
    if n == 0 {
      assert Creators(states[0].workers, id) == {};
    } else {
      OneCreatorEach(ds, states, steps, n - 1, id);
      BalancedAt(ds, states, steps, n - 1, id);
    }
  }

  lemma BalancedAt(ds: seq<string>, states: seq<State>, steps: seq<Step>, k: nat, id: Id)
    requires ValidDestinations(ds) && IsRun(ds, states, steps) && k < |steps|
    ensures Balanced(ds, states[k], steps[k], states[k + 1], id)
  {
    RunsKeepInvariant(ds, states, steps, k);
    CreatorsArePlain(ds, states, steps, k);
    assert Next(ds, states[k], steps[k], states[k + 1]);
    StepBalances(ds, states[k], steps[k], states[k + 1], id);
  }

  // An incident is opened at most once, and one that no worker is creating any more was never
  // opened exactly when its creator was lost.
  lemma OpenedAtMostOnce(ds: seq<string>, states: seq<State>, steps: seq<Step>, n: nat, id: Id)
    requires ValidDestinations(ds) && IsRun(ds, states, steps) && n < |states|
    ensures Count(states[n].log, Opening, id) <= 1
    ensures id in states[n].db.incidents && Creators(states[n].workers, id) == {} ==>
      (Count(states[n].log, Opening, id) == 0 <==>
       exists k :: 0 <= k < n && Loses(ds, states[k], steps[k], id))
  {
    OneCreatorEach(ds, states, steps, n, id);
    LossesCount(ds, states, steps, n, id);
  }

  lemma {:induction false} LossesCount(ds: seq<string>, states: seq<State>, steps: seq<Step>, n: nat, id: Id)
    requires n <= |steps| < |states|
    ensures Losses(ds, states, steps, n, id) > 0 <==> exists k :: 0 <= k < n && Loses(ds, states[k], steps[k], id)
  {
    if n > 0 { LossesCount(ds, states, steps, n - 1, id); }
  }

  /** Rows */

  ghost function OpenedRows(db: Db, id: Id, destination: string): set<Id> {
    set r | r in db.outbox && db.outbox[r].eventType == EventOpened && db.outbox[r].destination == destination
            && db.outbox[r].evaluationId in EvaluationsFor(db.evaluations, id)
  }

  lemma OpenedRowIsLogged(ds: seq<string>, s: State, id: Id, destination: string, r: Id)
    requires Inv(ds, s) && r in OpenedRows(s.db, id, destination)
    ensures s.db.outbox[r].evaluationId in EvaluationsOf(s.log, Opening, id)
    ensures r == DeliveryId(s.db.outbox[r].evaluationId, destination, EventOpened)
  {
    var e := s.db.outbox[r].evaluationId;
    assert Logged(s.log, e);
    var k :| 0 <= k < |s.log| && s.log[k].evaluationId == e;
    assert NotifiedOk(ds, s.db.outbox, s.log[k]) && RecordOk(s.db.evaluations, s.log[k]);
    assert r in RowsFor(s.db.outbox, e);
    assert Is(s.log[k], Opening, id);
  }

  // A set of at most one element has no two different ones.
  lemma AtMostOne(s: set<Id>, x: Id, y: Id)
    requires |s| <= 1 && x in s && y in s
    ensures x == y
  {
    assert |s - {x}| == 0;
    assert y !in s - {x};
  }

  lemma FewRows(es: set<Id>, rows: set<Id>, destination: string)
    requires |es| <= 1
    requires forall r :: r in rows ==>
      r.DeliveryId? && r.evaluationId in es && r == DeliveryId(r.evaluationId, destination, EventOpened)
    ensures |rows| <= |es|
  {
    if r :| r in rows {
      forall q | q in rows ensures q == r { AtMostOne(es, q.evaluationId, r.evaluationId); }
      assert rows == {r};
      assert es - {r.evaluationId} + {r.evaluationId} == es;
    }
  }

  lemma OpenedRowsAreFew(ds: seq<string>, s: State, id: Id, destination: string)
    requires Inv(ds, s) && |EvaluationsOf(s.log, Opening, id)| <= 1
    ensures |OpenedRows(s.db, id, destination)| <= |EvaluationsOf(s.log, Opening, id)|
  {
    var es, rows := EvaluationsOf(s.log, Opening, id), OpenedRows(s.db, id, destination);
    forall r | r in rows
      ensures r.DeliveryId? && r.evaluationId in es && r == DeliveryId(r.evaluationId, destination, EventOpened)
    {
      OpenedRowIsLogged(ds, s, id, destination, r);
    }
    FewRows(es, rows, destination);
  }

  // A destination has at most one opened row per incident, and none without an "opened" commit.
  lemma OneOpenedRow(ds: seq<string>, states: seq<State>, steps: seq<Step>, n: nat, id: Id, destination: string)
    requires ValidDestinations(ds) && IsRun(ds, states, steps) && n < |states|
    ensures |OpenedRows(states[n].db, id, destination)| <= Count(states[n].log, Opening, id) <= 1
  {
    RunsKeepInvariant(ds, states, steps, n);
    OpenedAtMostOnce(ds, states, steps, n, id);
    CountIsSize(states[n].log, Opening, id);
    OpenedRowsAreFew(ds, states[n], id, destination);
  }

  /** A crash turns "opened" into "updated" */

  // What a lone worker does once it holds the incident and nothing is evaluated yet.
  lemma CommitsNext(ds: seq<string>, s: State, w: nat, d: Decision)
    requires ValidDestinations(ds) && Inv(ds, s) && PhaseOf(s, w).StoringSnapshot? && s.db.evaluations == map[]
    requires !Blank(PhaseOf(s, w).task.snapshot.contentHash)
    requires PhaseOf(s, w).incident.id in s.db.incidents
             && s.db.incidents[PhaseOf(s, w).incident.id] == PhaseOf(s, w).incident
    ensures var p := PhaseOf(s, w);
            var log := AfterCall(ds, AfterCall(ds, s, w, d), w, d).log;
            |log| == |s.log| + 1 && log[..|s.log|] == s.log
            && log[|s.log|].incidentId == p.incident.id && log[|s.log|].eventType == EventFor(p.task, p.created)
  {
    assert PhaseOk(s.db.incidents, s.db.snapshots.Keys, PhaseOf(s, w));
    SnapshotKeeps(ds, s, w, d);
    var middle := AfterCall(ds, s, w, d);
    assert PhaseOk(middle.db.incidents, middle.db.snapshots.Keys, PhaseOf(middle, w));
    CommitOutcomes(ds, middle.db, PhaseOf(middle, w), d);
  }

  // A worker inserts the incident for an observation that matches a rule.
  lemma FirstSteps(ds: seq<string>, w: nat, o: Observation, now: Time, d: Decision)
      returns (states: seq<State>, steps: seq<Step>)
    requires ValidDestinations(ds) && ValidObservation(o) && o.Present? && o.finding.Matched? && o.finding.matches != []
    requires !Blank(o.snapshot.source.clusterId)
    ensures IsRun(ds, states, steps) && |steps| == 2
    ensures var t := Task(o.snapshot, ResultOf(o, None), now, "", "");
            && states[2].workers == map[w := ReadingBack(t, true)] && states[2].log == []
            && states[2].db == EMPTY.(incidents := map[NewIncident(t).id := NewIncident(t)])
  {
    RecoveryExactly(o.finding, None);
    var begun := INITIAL.(workers := INITIAL.workers[w := Start(EMPTY, o, now, "", "")]);
    states, steps := [INITIAL, begun, AfterCall(ds, begun, w, d)], [Begin(w, o, now, "", ""), Call(w, d)];
  }

  lemma Extend(ds: seq<string>, states: seq<State>, steps: seq<Step>, step: Step, s': State)
    requires IsRun(ds, states, steps) && Next(ds, states[|steps|], step, s')
    ensures IsRun(ds, states + [s'], steps + [step])
  {
  }

  // Left alone, the worker opens the incident.
  lemma UndisturbedOpens(ds: seq<string>, w: nat, o: Observation, now: Time, d: Decision)
      returns (states: seq<State>, steps: seq<Step>)
    requires ValidDestinations(ds) && ValidObservation(o) && o.Present? && o.finding.Matched? && o.finding.matches != []
    requires !Blank(o.snapshot.source.clusterId) && !Blank(o.snapshot.contentHash)
    ensures IsRun(ds, states, steps) && |states[|steps|].log| == 1 && states[|steps|].log[0].eventType == EventOpened
  {
    states, steps := FirstSteps(ds, w, o, now, d);
    RecoveryExactly(o.finding, None);
    var s2 := states[2];
    RunsKeepInvariant(ds, states, steps, 2);
    FindIsById(s2.db.incidents, o.snapshot.source.clusterId, KeyOf(o.snapshot.source));
    ReadBackKeeps(ds, s2, w, d);
    var s3 := AfterCall(ds, s2, w, d);
    CommitsNext(ds, s3, w, d);
    var s4 := AfterCall(ds, s3, w, d);
    Extend(ds, states, steps, Call(w, d), s3);
    Extend(ds, states + [s3], steps + [Call(w, d)], Call(w, d), s4);
    Extend(ds, states + [s3] + [s4], steps + [Call(w, d)] + [Call(w, d)], Call(w, d), AfterCall(ds, s4, w, d));
    states := states + [s3] + [s4] + [AfterCall(ds, s4, w, d)];
    steps := steps + [Call(w, d)] + [Call(w, d)] + [Call(w, d)];
  }

  // It crashes after its upsert and begins again with the same observation.
  lemma CrashAndBegin(ds: seq<string>, w: nat, o: Observation, now: Time, d: Decision)
      returns (states: seq<State>, steps: seq<Step>)
    requires ValidDestinations(ds) && ValidObservation(o) && o.Present? && o.finding.Matched? && o.finding.matches != []
    requires !Blank(o.snapshot.source.clusterId) && !Blank(o.snapshot.contentHash)
    ensures IsRun(ds, states, steps) && |steps| == 4
    ensures var s, p := states[4], PhaseOf(states[4], w);
            && p.StoringSnapshot? && !p.created && p.task.snapshot == o.snapshot && !IsRecovery(p.task.result)
            && p.incident.id in s.db.incidents && s.db.incidents[p.incident.id] == p.incident
            && s.db.evaluations == map[] && s.log == []
  {
    states, steps := FirstSteps(ds, w, o, now, d);
    var s2 := states[2];
    var s3 := s2.(workers := s2.workers[w := Idle]);
    RunsKeepInvariant(ds, states, steps, 2);
    FindIsById(s3.db.incidents, o.snapshot.source.clusterId, KeyOf(o.snapshot.source));
    var i := s2.db.incidents[IncidentId(KeyOf(o.snapshot.source))];
    RecoveryExactly(o.finding, Some(i));
    var s4 := s3.(workers := s3.workers[w := Start(s3.db, o, now, "", "")]);
    Extend(ds, states, steps, Crash(w), s3);
    Extend(ds, states + [s3], steps + [Crash(w)], Begin(w, o, now, "", ""), s4);
    states, steps := states + [s3] + [s4], steps + [Crash(w)] + [Begin(w, o, now, "", "")];
  }

  // Crashed after its upsert and tried again, it sends "updated" and nothing is ever "opened".
  lemma CrashedUpdates(ds: seq<string>, w: nat, o: Observation, now: Time, d: Decision)
      returns (states: seq<State>, steps: seq<Step>)
    requires ValidDestinations(ds) && ValidObservation(o) && o.Present? && o.finding.Matched? && o.finding.matches != []
    requires !Blank(o.snapshot.source.clusterId) && !Blank(o.snapshot.contentHash)
    ensures IsRun(ds, states, steps) && |states[|steps|].log| == 1 && states[|steps|].log[0].eventType == EventUpdated
  {
    states, steps := CrashAndBegin(ds, w, o, now, d);
    var s4 := states[4];
    RunsKeepInvariant(ds, states, steps, 4);
    CommitsNext(ds, s4, w, d);
    var s5 := AfterCall(ds, s4, w, d);
    Extend(ds, states, steps, Call(w, d), s5);
    Extend(ds, states + [s5], steps + [Call(w, d)], Call(w, d), AfterCall(ds, s5, w, d));
    states, steps := states + [s5] + [AfterCall(ds, s5, w, d)], steps + [Call(w, d)] + [Call(w, d)];
  }
}
