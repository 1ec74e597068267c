/**
 What the delivery invariant means: statements about every state of every run.
 */
module DeliveryTheorems {
  import opened Domain
  import Order
  import opened Store
  import opened Backoff
  import opened Webhook
  import opened Delivery

  ghost predicate IsRun(c: Config, states: seq<State>, steps: seq<Step>) {
    && |states| == |steps| + 1
    && forall k :: 0 <= k < |steps| ==> Next(c, states[k], steps[k], states[k + 1])
  }

  ghost predicate FromStart(c: Config, states: seq<State>, steps: seq<Step>) {
    IsRun(c, states, steps) && states[0] == INITIAL
  }

  lemma {:induction false} RunsKeepInvariant(c: Config, states: seq<State>, steps: seq<Step>, k: nat)
    requires ValidConfig(c) && FromStart(c, states, steps) && k < |states|
    ensures Inv(c, states[k])
  {
    if k == 0 {
      InitialOk(c);
    } else {
      RunsKeepInvariant(c, states, steps, k - 1);
      NextKeeps(c, states[k - 1], steps[k - 1], states[k]);
    }
  }

  /** Exactly-once effect */

  // A receiver that keeps its memory accepts each event at most once, and whatever the outbox
  // calls delivered has been accepted.
  lemma ExactlyOnceEffect(c: Config, states: seq<State>, steps: seq<Step>, n: nat)
    requires ValidConfig(c) && FromStart(c, states, steps) && n < |states|
    ensures
      var s := states[n];
      && (forall j, k :: 0 <= j < k < |s.accepted| ==> s.accepted[j] != s.accepted[k])
      && (forall r :: r in s.outbox && s.outbox[r].status == Delivered ==>
            exists k :: 0 <= k < |s.accepted| && s.accepted[k] == Receipt(s.outbox[r].destination, r)
                        && forall j :: 0 <= j < |s.accepted| && s.accepted[j] == s.accepted[k] ==> j == k)
  {
    RunsKeepInvariant(c, states, steps, n);
    var s := states[n];
    forall r | r in s.outbox && s.outbox[r].status == Delivered
      ensures exists k :: 0 <= k < |s.accepted| && s.accepted[k] == Receipt(s.outbox[r].destination, r)
                        && forall j :: 0 <= j < |s.accepted| && s.accepted[j] == s.accepted[k] ==> j == k
    {
      assert Receipt(s.outbox[r].destination, r) in s.accepted;
      var k :| 0 <= k < |s.accepted| && s.accepted[k] == Receipt(s.outbox[r].destination, r);
      assert forall j :: 0 <= j < |s.accepted| && s.accepted[j] == s.accepted[k] ==> j == k;
    }
  }

  /** Attempts */

  lemma {:induction false} SizeOfRange(s: set<nat>, n: nat)
    requires forall a :: a in s ==> 1 <= a < n + 1
    ensures |s| <= n
  {
    if n > 0 {
      SizeOfRange(s - {n}, n - 1);
      assert |s| <= |s - {n}| + 1;
    } else {
      assert s == {};
    }
  }

  // The claims of a row are numbered, and each claim puts the row back at most once and only
  // with a number below MaxAttempts. So a row's attempts are its claims, and they exceed
  // MaxAttempts by no more than its expired leases, even when goroutines share a worker ID.
  lemma AttemptBound(c: Config, states: seq<State>, steps: seq<Step>, n: nat, r: Id)
    requires ValidConfig(c) && FromStart(c, states, steps) && n < |states| && r in states[n].outbox
    ensures
      var h := HistoryOf(states[n].events, r);
      && states[n].outbox[r].attempts == h.first + h.again
      && h.first <= c.maxAttempts
      && states[n].outbox[r].attempts <= c.maxAttempts + h.again
      && (states[n].outbox[r].status == Pending ==> states[n].outbox[r].attempts < c.maxAttempts + h.again)
  {
    RunsKeepInvariant(c, states, steps, n);
    var h := HistoryOf(states[n].events, r);
    assert CountsOk(c, states[n].outbox[r], h);
    SizeOfRange(h.spent, c.maxAttempts - 1);
  }

  /** Leases */

  // Two claims of a row with no finalisation between them are a lease apart.
  lemma LeaseSeparation(c: Config, states: seq<State>, steps: seq<Step>, n: nat, j: nat, k: nat)
    requires ValidConfig(c) && FromStart(c, states, steps) && n < |states|
    requires j < k < |states[n].events| && SameSpell(states[n].events, j, k)
    ensures states[n].events[k].at >= states[n].events[j].at + c.lease
  {
    RunsKeepInvariant(c, states, steps, n);
    assert Apart(c, states[n].events, j, k);
  }

  // With one worker ID per goroutine a superseded claim can no longer finalise its row.
  lemma SupersededIsRejected(c: Config, states: seq<State>, steps: seq<Step>, n: nat, g: nat, now: Time, s': State)
    requires ValidConfig(c) && OneOwnerEach(c) && FromStart(c, states, steps) && n < |states|
    requires g in states[n].holds && states[n].holds[g].row in states[n].outbox
    requires states[n].holds[g].attempt < states[n].outbox[states[n].holds[g].row].attempts
    requires Next(c, states[n], Finish(g, now), s')
    ensures s'.outbox == states[n].outbox && s'.events == states[n].events
  {
    RunsKeepInvariant(c, states, steps, n);
  }

  lemma TerminalStep(c: Config, s: State, step: Step, s': State, r: Id)
    requires Next(c, s, step, s') && r in s.outbox && IsTerminal(s.outbox[r])
    ensures r in s'.outbox && s'.outbox[r] == s.outbox[r]
  {
  }

  // Delivered and failed rows never change again.
  lemma {:induction false} TerminalForever(c: Config, states: seq<State>, steps: seq<Step>, m: nat, n: nat, r: Id)
    requires IsRun(c, states, steps) && m <= n < |states|
    requires r in states[m].outbox && IsTerminal(states[m].outbox[r])
    ensures r in states[n].outbox && states[n].outbox[r] == states[m].outbox[r]
  {
    if m < n {
      TerminalForever(c, states, steps, m, n - 1, r);
      TerminalStep(c, states[n - 1], steps[n - 1], states[n], r);
    }
  }

  ghost predicate DueFrom(r: Row, from: Time) {
    forall now :: now >= from ==> Due(r, now)
  }

  // No row is ever stranded: it is due from some time on until it is delivered or failed.
  lemma NeverStranded(c: Config, states: seq<State>, steps: seq<Step>, n: nat, r: Id)
    requires ValidConfig(c) && FromStart(c, states, steps) && n < |states| && r in states[n].outbox
    ensures (exists from :: DueFrom(states[n].outbox[r], from)) <==> !IsTerminal(states[n].outbox[r])
  {
    RunsKeepInvariant(c, states, steps, n);
    var row := states[n].outbox[r];
    assert CountsOk(c, row, HistoryOf(states[n].events, r));
    if IsTerminal(row) {
      forall from ensures !DueFrom(row, from) { assert !Due(row, from); }
    } else {
      assert DueFrom(row, if row.status == Pending then row.nextAttemptAt else row.leaseUntil.value);
    }
  }

  /** Why a row ended */

  // Goroutine g, holding row r with the verdict v, finalises it in this step.
  ghost predicate Finalises(c: Config, s: State, step: Step, r: Id, v: Verdict, attempt: nat) {
    && step.Finish? && step.g in s.holds
    && s.holds[step.g].row == r && s.holds[step.g].stage == Done(v) && s.holds[step.g].attempt == attempt
    && r in s.outbox && s.outbox[r].status == Delivering && s.outbox[r].leaseOwner == Some(c.owner(step.g))
  }

  // What is reason enough for the status: success for delivered; for failed, a failure that is not
  // retryable or that used up the attempts.
  predicate Justifies(status: NotificationStatus, v: Verdict, attempt: nat, maxAttempts: int) {
    || (status == Delivered && v.Success?)
    || (status == Failed && v.Failure? && (!v.retryable || attempt >= maxAttempts))
  }

  ghost predicate EndedAt(c: Config, states: seq<State>, steps: seq<Step>, k: nat, r: Id, status: NotificationStatus)
    requires k < |steps| < |states|
  {
    exists v, attempt ::
      Finalises(c, states[k], steps[k], r, v, attempt) && Justifies(status, v, attempt, c.maxAttempts)
  }

  lemma EndingStep(c: Config, s: State, step: Step, s': State, r: Id)
    requires ValidConfig(c) && Keyed(s.outbox) && Next(c, s, step, s') && r in s'.outbox && IsTerminal(s'.outbox[r])
    requires r in s.outbox ==> !IsTerminal(s.outbox[r])
    ensures exists v, attempt ::
      Finalises(c, s, step, r, v, attempt) && Justifies(s'.outbox[r].status, v, attempt, c.maxAttempts)
  {
    if step.Finish? && HeldBy(s.outbox, s.holds[step.g].row, c.owner(step.g)) {
      var h := s.holds[step.g];
      FinishSettles(c, s.outbox[h.row], h, step.now);
      assert Finalises(c, s, step, h.row, h.stage.verdict, h.attempt);
    }
  }

  lemma StepEnds(c: Config, s: State, step: Step, s': State, r: Id, v: Verdict, attempt: nat,
                 status: NotificationStatus)
    requires ValidConfig(c) && Next(c, s, step, s')
    requires Finalises(c, s, step, r, v, attempt) && Justifies(status, v, attempt, c.maxAttempts)
    ensures r in s'.outbox && s'.outbox[r].status == status
  {
    FinishSettles(c, s.outbox[r], s.holds[step.g], step.now);
  }

  lemma {:induction false} EndedBecause(c: Config, states: seq<State>, steps: seq<Step>, n: nat, r: Id)
    requires ValidConfig(c) && FromStart(c, states, steps) && n < |states|
    requires r in states[n].outbox && IsTerminal(states[n].outbox[r])
    ensures exists k :: 0 <= k < n && EndedAt(c, states, steps, k, r, states[n].outbox[r].status)
  {
    if n > 0 {
      if r in states[n - 1].outbox && IsTerminal(states[n - 1].outbox[r]) {
        TerminalStep(c, states[n - 1], steps[n - 1], states[n], r);
        EndedBecause(c, states, steps, n - 1, r);
      } else {
        RowsAreKeyed(c, states, steps, n - 1);
        EndingStep(c, states[n - 1], steps[n - 1], states[n], r);
        assert EndedAt(c, states, steps, n - 1, r, states[n].outbox[r].status);
      }
    }
  }

  lemma RowsAreKeyed(c: Config, states: seq<State>, steps: seq<Step>, n: nat)
    requires ValidConfig(c) && FromStart(c, states, steps) && n < |states|
    ensures Keyed(states[n].outbox)
  {
    RunsKeepInvariant(c, states, steps, n);
  }

  // In every run a row is delivered, or failed, exactly when some lease holder finalised it with
  // reason enough.
  lemma EndsForAReason(c: Config, states: seq<State>, steps: seq<Step>, n: nat, r: Id, status: NotificationStatus)
    requires ValidConfig(c) && FromStart(c, states, steps) && n < |states| && status in {Delivered, Failed}
    ensures r in states[n].outbox && states[n].outbox[r].status == status
       <==> exists k :: 0 <= k < n && EndedAt(c, states, steps, k, r, status)
  {
    if r in states[n].outbox && states[n].outbox[r].status == status {
      EndedBecause(c, states, steps, n, r);
    }
    if k :| 0 <= k < n && EndedAt(c, states, steps, k, r, status) {
      var v, attempt :|
        Finalises(c, states[k], steps[k], r, v, attempt) && Justifies(status, v, attempt, c.maxAttempts);
      StepEnds(c, states[k], steps[k], states[k + 1], r, v, attempt, status);
      TerminalForever(c, states, steps, k + 1, n, r);
    }
  }

  /** Fencing */

  // In every run a claim that has been superseded can no longer touch the outbox.
  ghost predicate Fences(c: Config) {
    forall states: seq<State>, steps: seq<Step>, g: nat, now: Time, s': State ::
      FromStart(c, states, steps) && Superseded(states[|steps|], g) && Next(c, states[|steps|], Finish(g, now), s') ==>
        s'.outbox == states[|steps|].outbox
  }

  predicate Superseded(s: State, g: nat) {
    g in s.holds && s.holds[g].row in s.outbox && s.holds[g].attempt < s.outbox[s.holds[g].row].attempts
  }

  const SAMPLE_ID := IncidentId(IncidentKey("", ""))

  const SAMPLE_ROW :=
    Row(SAMPLE_ID, BlankId, "", EventOpened, Pending, 0, 0,
        Payload(BlankId, BlankId, Open, Info, Notify, "", Source("", "", "", "", "", "", "", 0, None), [], [], 0),
        None, None, None, None, 0)

  function TakenTwice(c: Config, f: nat, g: nat): Row {
    Claimed(Claimed(SAMPLE_ROW, c.owner(f), 0, c.lease), c.owner(g), c.lease, c.lease)
  }

  // Goroutine g takes over goroutine f's expired claim.
  lemma TakeOver(c: Config, f: nat, g: nat) returns (states: seq<State>, steps: seq<Step>)
    requires ValidConfig(c) && f != g
    ensures FromStart(c, states, steps) && |states| == 4
    ensures states[3].outbox == map[SAMPLE_ID := TakenTwice(c, f, g)]
    ensures states[3].holds == map[f := Hold(SAMPLE_ID, "", 1, Taken), g := Hold(SAMPLE_ID, "", 2, Taken)]
  {
    var s1 := INITIAL.(outbox := map[SAMPLE_ID := SAMPLE_ROW]);
    var row2 := Claimed(SAMPLE_ROW, c.owner(f), 0, c.lease);
    var s2 := s1.(outbox := map[SAMPLE_ID := row2], holds := map[f := Hold(SAMPLE_ID, "", 1, Taken)],
                  events := [Taking(SAMPLE_ID, c.owner(f), 0, 1, false)]);
    assert s1.outbox[SAMPLE_ID := row2] == s2.outbox;
    var row3 := TakenTwice(c, f, g);
    var s3 := s2.(outbox := map[SAMPLE_ID := row3], holds := s2.holds[g := Hold(SAMPLE_ID, "", 2, Taken)],
                  events := s2.events + [Taking(SAMPLE_ID, c.owner(g), c.lease, 2, true)]);
    assert s2.outbox[SAMPLE_ID := row3] == s3.outbox;
    states := [INITIAL, s1, s2, s3];
    steps := [Arrive(s1.outbox), Claim(f, 0, SAMPLE_ID), Claim(g, c.lease, SAMPLE_ID)];
    assert Next(c, INITIAL, steps[0], s1);
    assert Next(c, s1, steps[1], s2);
    assert Next(c, s2, steps[2], s3);
  }

  // If any two goroutines share an ID, the one that was superseded can end the row under the
  // other's feet.
  lemma SharedIdDoesNotFence(c: Config, f: nat, g: nat)
      returns (states: seq<State>, steps: seq<Step>, s': State)
    requires ValidConfig(c) && f != g && c.owner(f) == c.owner(g)
    ensures FromStart(c, states, steps) && Superseded(states[|steps|], f) && g in states[|steps|].holds
    ensures Next(c, states[|steps|], Finish(f, c.lease), s') && g in s'.holds
    ensures SAMPLE_ID in s'.outbox && s'.outbox[SAMPLE_ID].status == Failed
    ensures s'.outbox != states[|steps|].outbox
  {
    var before, taken := TakeOver(c, f, g);
    var s3, verdict := before[3], Failure(false, 0);
    var s4 := s3.(holds := s3.holds[f := Hold(SAMPLE_ID, "", 1, Done(verdict))]);
    var h := s4.holds[f];
    s' := s4.(outbox := s4.outbox[SAMPLE_ID := FinishedRow(c, s4.outbox[SAMPLE_ID], h, c.lease)],
              holds := s4.holds - {f}, events := s4.events + [FinishEvent(c, h)]);
    assert Next(c, s3, Fail(f, verdict), s4);
    states, steps := before + [s4], taken + [Fail(f, verdict)];
  }

  // Superseded claims are fenced off exactly when every goroutine has an ID of its own.
  lemma FencesIff(c: Config)
    requires ValidConfig(c)
    ensures Fences(c) <==> OneOwnerEach(c)
  {
    if OneOwnerEach(c) {
      forall states: seq<State>, steps: seq<Step>, g: nat, now: Time, s': State |
        FromStart(c, states, steps) && Superseded(states[|steps|], g) && Next(c, states[|steps|], Finish(g, now), s')
        ensures s'.outbox == states[|steps|].outbox
      {
        SupersededIsRejected(c, states, steps, |steps|, g, now, s');
      }
    } else {
      var f, g :| c.owner(f) == c.owner(g) && f != g;
      var states, steps, s' := SharedIdDoesNotFence(c, f, g);
    }
  }

  /** No overtaking */

  // The rows not yet claimed that would be claimed before p.
  ghost function Queue(c: Config, outbox: map<Id, Row>, p: Id): set<Id>
    requires p in outbox
  {
    set r | r in outbox && r != p && outbox[r].status == Pending && Ahead(c.before, outbox[r], outbox[p])
  }

  ghost function Unfinished(c: Config, outbox: map<Id, Row>, p: Id): set<Id>
    requires p in outbox
  {
    set r | r in outbox && r != p && !IsTerminal(outbox[r]) && Ahead(c.before, outbox[r], outbox[p])
  }

  // A dispatcher's step that does not claim p, with its clock read once p was due.
  predicate Passes(step: Step, p: Id, due: Time) {
    && !step.Arrive?
    && (step.Claim? ==> step.row != p)
    && (step.Finish? ==> step.now >= due)
  }

  predicate TakesNew(s: State, step: Step) {
    step.Claim? && step.row in s.outbox && s.outbox[step.row].status == Pending
  }

  lemma FinishLandsBehind(c: Config, s: State, step: Step, s': State, p: Id)
    requires ValidConfig(c) && Keyed(s.outbox) && step.Finish? && Next(c, s, step, s')
    requires p in s.outbox && s.outbox[p].status == Pending && step.now >= s.outbox[p].nextAttemptAt
    ensures s'.outbox[p] == s.outbox[p]
    ensures Queue(c, s'.outbox, p) <= Queue(c, s.outbox, p) && Unfinished(c, s'.outbox, p) <= Unfinished(c, s.outbox, p)
  {
    var h := s.holds[step.g];
    if HeldBy(s.outbox, h.row, c.owner(step.g)) && Retries(c, h) {
      DelayIsClamped(c.initial, c.max, h.attempt, h.stage.verdict.retryAfter);
      assert s'.outbox[h.row].nextAttemptAt > s.outbox[p].nextAttemptAt;
    }
  }

  lemma ClaimTakesAhead(c: Config, s: State, step: Step, s': State, p: Id)
    requires ValidConfig(c) && Keyed(s.outbox) && step.Claim? && Next(c, s, step, s')
    requires p in s.outbox && s.outbox[p].status == Pending && step.row != p
    ensures s'.outbox[p] == s.outbox[p]
    ensures Unfinished(c, s'.outbox, p) <= Unfinished(c, s.outbox, p)
    ensures Queue(c, s'.outbox, p) == Queue(c, s.outbox, p) - {step.row}
    ensures TakesNew(s, step) ==> step.row in Queue(c, s.outbox, p)
  {
    var q := s.outbox[step.row];
    if TakesNew(s, step) && step.now >= s.outbox[p].nextAttemptAt {
      assert Due(s.outbox[p], step.now);
    }
  }

  // Nothing unfinished ever gets ahead of a due row, and every new claim uses up one of the
  // rows that were ahead of it.
  lemma NeverOvertaken(c: Config, s: State, step: Step, s': State, p: Id)
    requires ValidConfig(c) && Inv(c, s) && Next(c, s, step, s')
    requires p in s.outbox && s.outbox[p].status == Pending && Passes(step, p, s.outbox[p].nextAttemptAt)
    ensures p in s'.outbox && s'.outbox[p] == s.outbox[p]
    ensures Unfinished(c, s'.outbox, p) <= Unfinished(c, s.outbox, p)
    ensures |Queue(c, s'.outbox, p)| + (if TakesNew(s, step) then 1 else 0) <= |Queue(c, s.outbox, p)|
  {
    if step.Finish? {
      FinishLandsBehind(c, s, step, s', p);
      Order.SubsetSize(Queue(c, s'.outbox, p), Queue(c, s.outbox, p));
    } else if step.Claim? {
      ClaimTakesAhead(c, s, step, s', p);
      Order.SubsetSize(Queue(c, s'.outbox, p), Queue(c, s.outbox, p));
    }
  }

  // The new claims among the first n steps.
  function NewClaims(states: seq<State>, steps: seq<Step>, n: nat): nat
    requires n <= |steps| < |states|
  {
    if n == 0 then 0
    else NewClaims(states, steps, n - 1) + if TakesNew(states[n - 1], steps[n - 1]) then 1 else 0
  }

  lemma {:induction false} InvAlong(c: Config, states: seq<State>, steps: seq<Step>, n: nat)
    requires ValidConfig(c) && IsRun(c, states, steps) && Inv(c, states[0]) && n < |states|
    ensures Inv(c, states[n])
  {
    if n > 0 {
      InvAlong(c, states, steps, n - 1);
      NextKeeps(c, states[n - 1], steps[n - 1], states[n]);
    }
  }

  // One step of the run past the waiting row.
  lemma PassAt(c: Config, states: seq<State>, steps: seq<Step>, k: nat, p: Id)
    requires ValidConfig(c) && IsRun(c, states, steps) && Inv(c, states[0]) && k < |steps|
    requires p in states[k].outbox && states[k].outbox[p].status == Pending
    requires Passes(steps[k], p, states[k].outbox[p].nextAttemptAt)
    ensures p in states[k + 1].outbox && states[k + 1].outbox[p] == states[k].outbox[p]
    ensures |Queue(c, states[k + 1].outbox, p)| + (if TakesNew(states[k], steps[k]) then 1 else 0)
         <= |Queue(c, states[k].outbox, p)|
  {
    InvAlong(c, states, steps, k);
    NeverOvertaken(c, states[k], steps[k], states[k + 1], p);
  }

  lemma {:induction false} BypassUpTo(c: Config, states: seq<State>, steps: seq<Step>, p: Id, n: nat)
    requires ValidConfig(c) && IsRun(c, states, steps) && Inv(c, states[0]) && n <= |steps|
    requires p in states[0].outbox && states[0].outbox[p].status == Pending
    requires forall k :: 0 <= k < |steps| ==> Passes(steps[k], p, states[0].outbox[p].nextAttemptAt)
    ensures p in states[n].outbox && states[n].outbox[p] == states[0].outbox[p]
    ensures NewClaims(states, steps, n) + |Queue(c, states[n].outbox, p)| <= |Queue(c, states[0].outbox, p)|
  {
    if n > 0 {
      BypassUpTo(c, states, steps, p, n - 1);
      PassAt(c, states, steps, n - 1, p);
    }
  }

  // From the moment a pending row is due, no more new claims can pass it than rows stood ahead
  // of it then; only re-claims of expired leases come on top.
  lemma BoundedBypass(c: Config, states: seq<State>, steps: seq<Step>, p: Id)
    requires ValidConfig(c) && IsRun(c, states, steps) && Inv(c, states[0])
    requires p in states[0].outbox && states[0].outbox[p].status == Pending
    requires forall k :: 0 <= k < |steps| ==> Passes(steps[k], p, states[0].outbox[p].nextAttemptAt)
    ensures var last := states[|steps|];
      && Inv(c, last) && p in last.outbox && last.outbox[p] == states[0].outbox[p]
      && NewClaims(states, steps, |steps|) + |Queue(c, last.outbox, p)| <= |Queue(c, states[0].outbox, p)|
  {
    InvAlong(c, states, steps, |steps|);
    BypassUpTo(c, states, steps, p, |steps|);
  }
}
