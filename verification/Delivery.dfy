/**
 The delivery protocol: dispatcher goroutines claim outbox rows under a lease, send each to a
 receiver over a network that may lose or delay requests and replies, and finalise the row or
 put it back. They may crash anywhere, their clock readings may be stale, and several of them
 may share one worker ID. State.events is a history variable.
 */
module Delivery {
  import opened Domain
  import opened Order
  import opened Store
  import opened Backoff
  import opened Webhook

  datatype Config = Config(lease: int, maxAttempts: int, initial: int, max: int, owner: nat -> string,
                           before: (Id, Id) -> bool)

  // What NewDispatcher and ClaimDelivery insist on.
  ghost predicate ValidConfig(c: Config) {
    && c.lease > 0 && c.maxAttempts > 0 && 0 < c.initial <= c.max
    && StrictTotal(c.before)
    && forall g :: !Blank(c.owner(g))
  }

  datatype Stage = Taken | Sent | Done(verdict: Verdict)

  // A goroutine between its claim and its finalisation; attempt is the row's count at the claim.
  datatype Hold = Hold(row: Id, destination: string, attempt: nat, stage: Stage)

  datatype Packet = Packet(row: Id, destination: string, attempt: nat)

  datatype Reply = Reply(packet: Packet, status: int)

  datatype Receipt = Receipt(destination: string, row: Id)

  datatype Event =
    | Taking(row: Id, owner: string, at: Time, attempt: nat, again: bool)
    | Returning(row: Id, attempt: nat)
    | Ending(row: Id, attempt: nat)

  datatype State = State(outbox: map<Id, Row>, holds: map<nat, Hold>, wire: set<Packet>, replies: set<Reply>,
                         seen: set<Receipt>, accepted: seq<Receipt>, events: seq<Event>)

  const INITIAL := State(map[], map[], {}, {}, {}, [], [])

  datatype Step =
    | Claim(g: nat, now: Time, row: Id)
    | Send(g: nat)
    | Serve(packet: Packet, admitted: bool, refusal: int)
    | Receive(g: nat, exchange: Exchange, now: Time, maxRetryAfter: int)
    | Fail(g: nat, verdict: Verdict)
    | Finish(g: nat, now: Time)
    | Stop(g: nat)
    | Arrive(outbox: map<Id, Row>)

  function PacketOf(h: Hold): Packet { Packet(h.row, h.destination, h.attempt) }

  function ReceiptOf(p: Packet): Receipt { Receipt(p.destination, p.row) }

  function SeenBy(seen: set<Receipt>, destination: string): set<Id> {
    set r | r in seen && r.destination == destination :: r.row
  }

  // Commits only add rows, pending and never tried.
  ghost predicate OnlyAdds(m: map<Id, Row>, n: map<Id, Row>) {
    && (forall r :: r in m ==> r in n && n[r] == m[r])
    && (forall r :: r in n && r !in m ==> n[r].id == r && n[r].status == Pending && n[r].attempts == 0)
  }

  /** The failure branch of DispatchOne */

  predicate Retries(c: Config, h: Hold) {
    h.stage.Done? && h.stage.verdict.Failure? && h.stage.verdict.retryable && h.attempt < c.maxAttempts
  }

  function NextAttempt(c: Config, h: Hold, now: Time): Time
    requires h.stage.Done? && h.stage.verdict.Failure?
  {
    if Retries(c, h) then now + Delay(c.initial, c.max, h.attempt, h.stage.verdict.retryAfter) else now
  }

  function FinishedRow(c: Config, r: Row, h: Hold, now: Time): Row
    requires h.stage.Done?
  {
    if h.stage.verdict.Success? then Completed(r, now)
    else Rescheduled(r, now, NextAttempt(c, h, now), if Retries(c, h) then Retryable else Permanent)
  }

  function FinishEvent(c: Config, h: Hold): Event {
    if Retries(c, h) then Returning(h.row, h.attempt) else Ending(h.row, h.attempt)
  }

  // How a held row ends up, in its own fields and the verdict's: delivered on success, back to
  // pending on a retryable failure that leaves attempts, failed otherwise; a pending row waits for
  // its own attempt's backoff or, if that is longer, for what was asked, within the maximum.
  ghost predicate SettledBy(was: Row, row: Row, v: Verdict, attempt: nat, maxAttempts: int, initial: int, max: int,
                            now: Time) {
    && (row.status == Delivered <==> v.Success?)
    && (row.status == Pending <==> v.Failure? && v.retryable && attempt < maxAttempts)
    && (row.status == Failed <==> v.Failure? && (!v.retryable || attempt >= maxAttempts))
    && (row.deliveredAt == if v.Success? then Some(now) else was.deliveredAt)
    && (row.lastFailure == if v.Success? then was.lastFailure
                           else Some(if row.status == Pending then Retryable else Permanent))
    && (row.status == Pending ==>
          exists backoff :: WaitsFor(backoff, initial, max, attempt)
                            && row.nextAttemptAt == now + Max(backoff, Min(v.retryAfter, max)))
    && (row.status != Pending ==> row.nextAttemptAt == was.nextAttemptAt)
    && row.leaseOwner == None && row.leaseUntil == None && row.updatedAt == now
    && row.id == was.id && row.evaluationId == was.evaluationId && row.destination == was.destination
    && row.eventType == was.eventType && row.payload == was.payload && row.attempts == was.attempts
  }

  lemma FinishSettles(c: Config, r: Row, h: Hold, now: Time)
    requires h.stage.Done? && 0 < c.initial <= c.max
    ensures SettledBy(r, FinishedRow(c, r, h, now), h.stage.verdict, h.attempt, c.maxAttempts, c.initial, c.max, now)
  {
    if Retries(c, h) {
      var backoff := Scheduled(c.initial, c.max, h.attempt);
      DelayIsClamped(c.initial, c.max, h.attempt, h.stage.verdict.retryAfter);
      assert WaitsFor(backoff, c.initial, c.max, h.attempt);
    }
  }

  /** Steps */

  ghost predicate ClaimStep(c: Config, s: State, step: Step, s': State)
    requires step.Claim?
  {
    && step.g !in s.holds
    && IsNext(s.outbox, c.before, step.now, step.row)
    && var was := s.outbox[step.row];
       var row := Claimed(was, c.owner(step.g), step.now, c.lease);
       s' == s.(outbox := s.outbox[step.row := row],
                holds := s.holds[step.g := Hold(step.row, row.destination, row.attempts, Taken)],
                events := s.events + [Taking(step.row, c.owner(step.g), step.now, row.attempts,
                                             was.status == Delivering)])
  }

  ghost predicate ServeStep(s: State, step: Step, s': State)
    requires step.Serve?
  {
    && step.packet in s.wire && !Successful(step.refusal)
    && var status := Answer(SeenBy(s.seen, step.packet.destination), step.packet.row, step.admitted, step.refusal);
       s' == s.(replies := s.replies + {Reply(step.packet, status)},
                seen := if step.admitted then s.seen + {ReceiptOf(step.packet)} else s.seen,
                accepted := if status == 204 then s.accepted + [ReceiptOf(step.packet)] else s.accepted)
  }

  ghost predicate FinishStep(c: Config, s: State, step: Step, s': State)
    requires step.Finish?
  {
    && step.g in s.holds && s.holds[step.g].stage.Done?
    && var h := s.holds[step.g];
       if HeldBy(s.outbox, h.row, c.owner(step.g)) then
         s' == s.(outbox := s.outbox[h.row := FinishedRow(c, s.outbox[h.row], h, step.now)],
                  holds := s.holds - {step.g}, events := s.events + [FinishEvent(c, h)])
       else s' == s.(holds := s.holds - {step.g})
  }

  ghost predicate Next(c: Config, s: State, step: Step, s': State) {
    match step
    case Claim(_, _, _) => ClaimStep(c, s, step, s')
    case Send(g) =>
      g in s.holds && s.holds[g].stage.Taken?
      && s' == s.(holds := s.holds[g := s.holds[g].(stage := Sent)], wire := s.wire + {PacketOf(s.holds[g])})
    case Serve(_, _, _) => ServeStep(s, step, s')
    case Receive(g, x, now, maximum) =>
      g in s.holds && s.holds[g].stage.Sent? && x.Response? && Reply(PacketOf(s.holds[g]), x.status) in s.replies
      && s' == s.(holds := s.holds[g := s.holds[g].(stage := Done(Judgement(x, now, maximum)))])
    case Fail(g, verdict) =>
      g in s.holds && !s.holds[g].stage.Done? && verdict.Failure?
      && s' == s.(holds := s.holds[g := s.holds[g].(stage := Done(verdict))])
    case Finish(_, _) => FinishStep(c, s, step, s')
    case Stop(g) => s' == s.(holds := s.holds - {g})
    case Arrive(outbox) => OnlyAdds(s.outbox, outbox) && s' == s.(outbox := outbox)
  }

  /** Reading the history of a row */

  // Claims from pending, re-claims of an expired lease, and the claim numbers whose holder
  // put the row back.
  datatype History = History(first: nat, again: nat, spent: set<nat>)

  function Extended(h: History, e: Event, row: Id): History {
    if e.row != row then h
    else match e
      case Taking(_, _, _, _, again) => if again then h.(again := h.again + 1) else h.(first := h.first + 1)
      case Returning(_, attempt) => h.(spent := h.spent + {attempt})
      case Ending(_, _) => h
  }

  function HistoryOf(events: seq<Event>, row: Id): History {
    if events == [] then History(0, 0, {})
    else Extended(HistoryOf(events[..|events| - 1], row), events[|events| - 1], row)
  }

  lemma HistoryAppend(events: seq<Event>, e: Event, row: Id)
    ensures HistoryOf(events + [e], row) == Extended(HistoryOf(events, row), e, row)
  {
    assert (events + [e])[..|events|] == events;
  }

  /** Invariants about attempts */

  predicate Leased(r: Row) {
    r.status == Delivering ==> r.leaseOwner.Some? && r.leaseUntil.Some? && r.attempts > 0
  }

  predicate CountsOk(c: Config, r: Row, h: History) {
    && r.attempts == h.first + h.again
    && h.first == |h.spent| + (if r.status == Pending then 0 else 1)
    && (forall a :: a in h.spent ==> 1 <= a < c.maxAttempts && a <= r.attempts)
    && Leased(r)
  }

  ghost predicate RowsOk(c: Config, outbox: map<Id, Row>, events: seq<Event>) {
    && (forall r :: r in outbox ==> outbox[r].id == r && CountsOk(c, outbox[r], HistoryOf(events, r)))
    && (forall k :: 0 <= k < |events| ==> events[k].row in outbox)
  }

  ghost predicate HoldOk(outbox: map<Id, Row>, events: seq<Event>, h: Hold) {
    && h.row in outbox && h.destination == outbox[h.row].destination
    && 1 <= h.attempt <= outbox[h.row].attempts
    && h.attempt !in HistoryOf(events, h.row).spent
  }

  ghost predicate HoldsOk(outbox: map<Id, Row>, events: seq<Event>, holds: map<nat, Hold>) {
    && (forall g :: g in holds ==> HoldOk(outbox, events, holds[g]))
    && (forall f, g :: f in holds && g in holds && f != g && holds[f].row == holds[g].row ==>
          holds[f].attempt != holds[g].attempt)
  }

  ghost predicate AttemptsOk(c: Config, s: State) {
    RowsOk(c, s.outbox, s.events) && HoldsOk(s.outbox, s.events, s.holds)
  }

  lemma NoEventsNoHistory(events: seq<Event>, row: Id)
    requires forall k :: 0 <= k < |events| ==> events[k].row != row
    ensures HistoryOf(events, row) == History(0, 0, {})
  {
  }

  lemma ArriveKeepsAttempts(c: Config, s: State, outbox: map<Id, Row>)
    requires AttemptsOk(c, s) && OnlyAdds(s.outbox, outbox)
    ensures RowsOk(c, outbox, s.events) && HoldsOk(outbox, s.events, s.holds)
  {
    forall r | r in outbox ensures outbox[r].id == r && CountsOk(c, outbox[r], HistoryOf(s.events, r)) {
      if r !in s.outbox { NoEventsNoHistory(s.events, r); }
    }
    forall g | g in s.holds ensures HoldOk(outbox, s.events, s.holds[g]) {
      assert HoldOk(s.outbox, s.events, s.holds[g]);
    }
  }

  lemma AppendKeepsOthers(c: Config, outbox: map<Id, Row>, events: seq<Event>, row: Row, e: Event)
    requires RowsOk(c, outbox, events) && row.id in outbox && e.row == row.id
    requires CountsOk(c, row, Extended(HistoryOf(events, row.id), e, row.id))
    ensures RowsOk(c, outbox[row.id := row], events + [e])
  {
    var outbox', events' := outbox[row.id := row], events + [e];
    forall r | r in outbox' ensures outbox'[r].id == r && CountsOk(c, outbox'[r], HistoryOf(events', r)) {
      HistoryAppend(events, e, r);
    }
  }

  // A step on one row leaves every other holder's claim as it was; a new claim has a number
  // above all the earlier ones.
  lemma AppendKeepsHolds(outbox: map<Id, Row>, events: seq<Event>, holds: map<nat, Hold>, row: Row, e: Event)
    requires HoldsOk(outbox, events, holds) && row.id in outbox && e.row == row.id
    requires row.attempts >= outbox[row.id].attempts && row.destination == outbox[row.id].destination
    requires forall g :: g in holds && holds[g].row == row.id && e.Returning? ==> holds[g].attempt != e.attempt
    ensures HoldsOk(outbox[row.id := row], events + [e], holds)
  {
    var outbox', events' := outbox[row.id := row], events + [e];
    forall g | g in holds ensures HoldOk(outbox', events', holds[g]) {
      assert HoldOk(outbox, events, holds[g]);
      HistoryAppend(events, e, holds[g].row);
    }
  }

  lemma ClaimKeepsAttempts(c: Config, s: State, step: Step, s': State)
    requires ValidConfig(c) && AttemptsOk(c, s) && step.Claim? && Next(c, s, step, s')
    ensures AttemptsOk(c, s')
  {
    var was, row, e := s.outbox[step.row], s'.outbox[step.row], s'.events[|s.events|];
    assert CountsOk(c, was, HistoryOf(s.events, step.row));
    assert s'.events == s.events + [e];
    AppendKeepsOthers(c, s.outbox, s.events, row, e);
    AppendKeepsHolds(s.outbox, s.events, s.holds, row, e);
    HistoryAppend(s.events, e, step.row);
    assert HoldOk(s'.outbox, s'.events, s'.holds[step.g]);
  }

  // A finalised claim is counted once: a returned one as spent, an ending one by leaving pending.
  lemma FinishCounts(c: Config, r: Row, history: History, h: Hold, now: Time)
    requires CountsOk(c, r, history) && r.id == h.row && r.status == Delivering && h.stage.Done?
    requires 1 <= h.attempt <= r.attempts && h.attempt !in history.spent
    ensures CountsOk(c, FinishedRow(c, r, h, now), Extended(history, FinishEvent(c, h), r.id))
  {
  }

  lemma FinishKeepsAttempts(c: Config, s: State, step: Step, s': State)
    requires ValidConfig(c) && AttemptsOk(c, s) && step.Finish? && Next(c, s, step, s')
    ensures AttemptsOk(c, s')
  {
    var h := s.holds[step.g];
    assert HoldOk(s.outbox, s.events, h);
    DropKeepsHolds(s.outbox, s.events, s.holds, step.g);
    if HeldBy(s.outbox, h.row, c.owner(step.g)) {
      var row, e := FinishedRow(c, s.outbox[h.row], h, step.now), FinishEvent(c, h);
      FinishCounts(c, s.outbox[h.row], HistoryOf(s.events, h.row), h, step.now);
      AppendKeepsOthers(c, s.outbox, s.events, row, e);
      AppendKeepsHolds(s.outbox, s.events, s.holds - {step.g}, row, e);
    }
  }

  lemma DropKeepsHolds(outbox: map<Id, Row>, events: seq<Event>, holds: map<nat, Hold>, g: nat)
    requires HoldsOk(outbox, events, holds)
    ensures HoldsOk(outbox, events, holds - {g})
  {
  }

  lemma RestageKeepsHolds(outbox: map<Id, Row>, events: seq<Event>, holds: map<nat, Hold>, g: nat, stage: Stage)
    requires HoldsOk(outbox, events, holds) && g in holds
    ensures HoldsOk(outbox, events, holds[g := holds[g].(stage := stage)])
  {
    var holds' := holds[g := holds[g].(stage := stage)];
    assert HoldOk(outbox, events, holds[g]);
    assert forall f :: f in holds' ==> holds'[f].row == holds[f].row && holds'[f].attempt == holds[f].attempt;
  }

  lemma NextKeepsAttempts(c: Config, s: State, step: Step, s': State)
    requires ValidConfig(c) && AttemptsOk(c, s) && Next(c, s, step, s')
    ensures AttemptsOk(c, s')
  {
    match step
    case Claim(_, _, _) => ClaimKeepsAttempts(c, s, step, s');
    case Send(g) => RestageKeepsHolds(s.outbox, s.events, s.holds, g, Sent);
    case Serve(_, _, _) =>
    case Receive(g, x, now, maximum) =>
      RestageKeepsHolds(s.outbox, s.events, s.holds, g, Done(Judgement(x, now, maximum)));
    case Fail(g, verdict) => RestageKeepsHolds(s.outbox, s.events, s.holds, g, Done(verdict));
    case Finish(_, _) => FinishKeepsAttempts(c, s, step, s');
    case Stop(g) => DropKeepsHolds(s.outbox, s.events, s.holds, g);
    case Arrive(outbox) => ArriveKeepsAttempts(c, s, outbox);
  }

  /** Invariants about what the receivers have seen */

  ghost predicate RepliesOk(replies: set<Reply>, seen: set<Receipt>) {
    forall r :: r in replies && Successful(r.status) ==> ReceiptOf(r.packet) in seen
  }

  ghost predicate VerdictsOk(holds: map<nat, Hold>, seen: set<Receipt>) {
    forall g :: g in holds && holds[g].stage == Done(Success) ==> Receipt(holds[g].destination, holds[g].row) in seen
  }

  ghost predicate DeliveredOk(outbox: map<Id, Row>, seen: set<Receipt>) {
    forall r :: r in outbox && outbox[r].status == Delivered ==> Receipt(outbox[r].destination, r) in seen
  }

  predicate Distinct(accepted: seq<Receipt>) {
    forall j, k :: 0 <= j < k < |accepted| ==> accepted[j] != accepted[k]
  }

  ghost predicate AcceptedOk(accepted: seq<Receipt>, seen: set<Receipt>) {
    Distinct(accepted) && forall r :: r in accepted <==> r in seen
  }

  // Only rows of the outbox are sent and accepted, each at its own destination.
  ghost predicate WireOk(outbox: map<Id, Row>, wire: set<Packet>) {
    forall p :: p in wire ==> p.row in outbox && outbox[p.row].destination == p.destination
  }

  ghost predicate SeenOk(outbox: map<Id, Row>, seen: set<Receipt>) {
    forall x :: x in seen ==> x.row in outbox && outbox[x.row].destination == x.destination
  }

  ghost predicate ReceiptsOk(s: State) {
    WireOk(s.outbox, s.wire) && SeenOk(s.outbox, s.seen)
    && RepliesOk(s.replies, s.seen) && VerdictsOk(s.holds, s.seen) && DeliveredOk(s.outbox, s.seen)
    && AcceptedOk(s.accepted, s.seen)
  }

  lemma ServeKeepsReceipts(s: State, step: Step, s': State)
    requires ReceiptsOk(s) && step.Serve? && ServeStep(s, step, s')
    ensures ReceiptsOk(s')
  {
    var receipt := ReceiptOf(step.packet);
    assert step.packet.row in SeenBy(s.seen, step.packet.destination) <==> receipt in s.seen;
    if step.admitted && receipt !in s.seen {
      assert s'.accepted == s.accepted + [receipt];
      assert forall r :: r in s'.accepted <==> r in s.accepted || r == receipt;
    }
  }

  lemma RowKeepsReceipts(s: State, id: Id, row: Row)
    requires ReceiptsOk(s) && id in s.outbox && row.destination == s.outbox[id].destination
    requires row.status == Delivered ==> Receipt(row.destination, id) in s.seen
    ensures WireOk(s.outbox[id := row], s.wire) && SeenOk(s.outbox[id := row], s.seen)
    ensures DeliveredOk(s.outbox[id := row], s.seen)
  {
  }

  lemma FinishKeepsReceipts(c: Config, s: State, step: Step, s': State)
    requires AttemptsOk(c, s) && ReceiptsOk(s) && step.Finish? && FinishStep(c, s, step, s')
    ensures ReceiptsOk(s')
  {
    var h := s.holds[step.g];
    assert HoldOk(s.outbox, s.events, h);
    if HeldBy(s.outbox, h.row, c.owner(step.g)) {
      RowKeepsReceipts(s, h.row, FinishedRow(c, s.outbox[h.row], h, step.now));
    }
  }

  lemma ClaimKeepsReceipts(c: Config, s: State, step: Step, s': State)
    requires ReceiptsOk(s) && step.Claim? && ClaimStep(c, s, step, s')
    ensures ReceiptsOk(s')
  {
    RowKeepsReceipts(s, step.row, s'.outbox[step.row]);
  }

  lemma RestageKeepsReceipts(holds: map<nat, Hold>, seen: set<Receipt>, g: nat, stage: Stage)
    requires VerdictsOk(holds, seen) && g in holds
    requires stage == Done(Success) ==> Receipt(holds[g].destination, holds[g].row) in seen
    ensures VerdictsOk(holds[g := holds[g].(stage := stage)], seen)
  {
  }

  lemma SendKeepsWire(outbox: map<Id, Row>, wire: set<Packet>, p: Packet)
    requires WireOk(outbox, wire) && p.row in outbox && outbox[p.row].destination == p.destination
    ensures WireOk(outbox, wire + {p})
  {
  }

  lemma SuccessWasSeen(s: State, g: nat, x: Exchange, now: Time, maximum: int)
    requires ReceiptsOk(s) && g in s.holds && x.Response? && Reply(PacketOf(s.holds[g]), x.status) in s.replies
    ensures Judgement(x, now, maximum) == Success ==> Receipt(s.holds[g].destination, s.holds[g].row) in s.seen
  {
  }

  lemma NextKeepsReceipts(c: Config, s: State, step: Step, s': State)
    requires AttemptsOk(c, s) && ReceiptsOk(s) && Next(c, s, step, s')
    ensures ReceiptsOk(s')
  {
    match step
    case Claim(_, _, _) => ClaimKeepsReceipts(c, s, step, s');
    case Serve(_, _, _) => ServeKeepsReceipts(s, step, s');
    case Finish(_, _) => FinishKeepsReceipts(c, s, step, s');
    case Send(g) =>
      assert HoldOk(s.outbox, s.events, s.holds[g]);
      SendKeepsWire(s.outbox, s.wire, PacketOf(s.holds[g]));
      RestageKeepsReceipts(s.holds, s.seen, g, Sent);
    case Receive(g, x, now, maximum) =>
      SuccessWasSeen(s, g, x, now, maximum);
      RestageKeepsReceipts(s.holds, s.seen, g, Done(Judgement(x, now, maximum)));
    case Fail(g, verdict) => RestageKeepsReceipts(s.holds, s.seen, g, Done(verdict));
    case Stop(_) =>
    case Arrive(_) =>
  }

  /** Invariants about leases */

  predicate Ends(e: Event, row: Id) { e.row == row && !e.Taking? }

  // No one has finalised the row since this event.
  predicate StillOpen(events: seq<Event>, k: nat)
    requires k < |events|
  {
    forall j :: k < j < |events| ==> !Ends(events[j], events[k].row)
  }

  ghost predicate OpenClaimOk(c: Config, outbox: map<Id, Row>, e: Event)
    requires e.Taking?
  {
    && e.row in outbox && outbox[e.row].status == Delivering && outbox[e.row].leaseUntil.Some?
    && outbox[e.row].leaseUntil.value >= e.at + c.lease
  }

  ghost predicate LeasesOk(c: Config, outbox: map<Id, Row>, events: seq<Event>) {
    forall k :: 0 <= k < |events| && events[k].Taking? && StillOpen(events, k) ==> OpenClaimOk(c, outbox, events[k])
  }

  predicate Apart(c: Config, events: seq<Event>, j: nat, k: nat)
    requires j < k < |events| && events[j].Taking? && events[k].Taking?
  {
    events[k].at >= events[j].at + c.lease
  }

  predicate SameSpell(events: seq<Event>, j: nat, k: nat)
    requires j < k < |events|
  {
    && events[j].Taking? && events[k].Taking? && events[j].row == events[k].row
    && forall i :: j < i < k ==> !Ends(events[i], events[j].row)
  }

  ghost predicate ClaimsApart(c: Config, events: seq<Event>) {
    forall j, k :: 0 <= j < k < |events| && SameSpell(events, j, k) ==> Apart(c, events, j, k)
  }

  // With one ID per goroutine, whoever the lease names holds the latest claim.
  ghost predicate OneOwnerEach(c: Config) {
    forall f, g :: c.owner(f) == c.owner(g) ==> f == g
  }

  ghost predicate OwnersOk(c: Config, outbox: map<Id, Row>, holds: map<nat, Hold>) {
    OneOwnerEach(c) ==> forall g :: g in holds && HeldBy(outbox, holds[g].row, c.owner(g)) ==>
      holds[g].attempt == outbox[holds[g].row].attempts
  }

  ghost predicate LeaseOk(c: Config, s: State) {
    LeasesOk(c, s.outbox, s.events) && ClaimsApart(c, s.events) && OwnersOk(c, s.outbox, s.holds)
  }

  lemma OpenBefore(events: seq<Event>, e: Event, k: nat)
    requires k < |events|
    ensures StillOpen(events + [e], k) <==> StillOpen(events, k) && !Ends(e, events[k].row)
  {
    var events' := events + [e];
    assert forall j :: 0 <= j < |events| ==> events'[j] == events[j];
    assert events'[|events|] == e;
  }

  lemma SpellBefore(events: seq<Event>, e: Event, j: nat, k: nat)
    requires j < k <= |events| && SameSpell(events + [e], j, k)
    ensures k < |events| ==> SameSpell(events, j, k)
    ensures k == |events| ==> StillOpen(events, j)
  {
    var events' := events + [e];
    forall i | j < i < k ensures !Ends(events[i], events[j].row) {
      assert events'[i] == events[i] && events'[j] == events[j];
    }
  }

  lemma ClaimKeepsLeases(c: Config, s: State, step: Step, s': State)
    requires ValidConfig(c) && AttemptsOk(c, s) && LeaseOk(c, s) && step.Claim? && Next(c, s, step, s')
    ensures LeasesOk(c, s'.outbox, s'.events)
  {
    var e := s'.events[|s.events|];
    assert s'.events == s.events + [e];
    forall k | 0 <= k < |s'.events| && s'.events[k].Taking? && StillOpen(s'.events, k)
      ensures OpenClaimOk(c, s'.outbox, s'.events[k])
    {
      if k < |s.events| {
        OpenBefore(s.events, e, k);
        assert OpenClaimOk(c, s.outbox, s.events[k]);
      }
    }
  }

  lemma ClaimKeepsApart(c: Config, s: State, step: Step, s': State)
    requires ValidConfig(c) && AttemptsOk(c, s) && LeaseOk(c, s) && step.Claim? && Next(c, s, step, s')
    ensures ClaimsApart(c, s'.events)
  {
    var n := |s.events|;
    assert s'.events == s.events + [s'.events[n]];
    forall j, k | 0 <= j < k < n + 1 && SameSpell(s'.events, j, k) ensures Apart(c, s'.events, j, k) {
      SpellBefore(s.events, s'.events[n], j, k);
      if k == n { assert OpenClaimOk(c, s.outbox, s.events[j]); }
    }
  }

  lemma FinishKeepsLeases(c: Config, s: State, step: Step, s': State)
    requires ValidConfig(c) && AttemptsOk(c, s) && LeaseOk(c, s) && step.Finish? && Next(c, s, step, s')
    ensures LeaseOk(c, s')
  {
    var h := s.holds[step.g];
    DropKeepsOwners(c, s.outbox, s.holds, step.g);
    if HeldBy(s.outbox, h.row, c.owner(step.g)) {
      var e := FinishEvent(c, h);
      EndKeepsLeases(c, s.outbox, s.events, s'.outbox[h.row], e);
      EndKeepsApart(c, s.events, e);
      EndKeepsOwners(c, s.outbox, s.holds - {step.g}, h.row, s'.outbox[h.row]);
    }
  }

  lemma EndKeepsLeases(c: Config, outbox: map<Id, Row>, events: seq<Event>, row: Row, e: Event)
    requires LeasesOk(c, outbox, events) && !e.Taking?
    ensures LeasesOk(c, outbox[e.row := row], events + [e])
  {
    var events' := events + [e];
    forall k | 0 <= k < |events'| && events'[k].Taking? && StillOpen(events', k)
      ensures OpenClaimOk(c, outbox[e.row := row], events'[k])
    {
      OpenBefore(events, e, k);
      assert OpenClaimOk(c, outbox, events[k]);
    }
  }

  lemma EndKeepsApart(c: Config, events: seq<Event>, e: Event)
    requires ClaimsApart(c, events) && !e.Taking?
    ensures ClaimsApart(c, events + [e])
  {
    var events' := events + [e];
    forall j, k | 0 <= j < k < |events'| && SameSpell(events', j, k) ensures Apart(c, events', j, k) {
      SpellBefore(events, e, j, k);
    }
  }

  lemma EndKeepsOwners(c: Config, outbox: map<Id, Row>, holds: map<nat, Hold>, id: Id, row: Row)
    requires OwnersOk(c, outbox, holds) && row.status != Delivering
    ensures OwnersOk(c, outbox[id := row], holds)
  {
  }

  lemma DropKeepsOwners(c: Config, outbox: map<Id, Row>, holds: map<nat, Hold>, g: nat)
    requires OwnersOk(c, outbox, holds)
    ensures OwnersOk(c, outbox, holds - {g})
  {
  }

  lemma RestageKeepsOwners(c: Config, outbox: map<Id, Row>, holds: map<nat, Hold>, g: nat, stage: Stage)
    requires OwnersOk(c, outbox, holds) && g in holds
    ensures OwnersOk(c, outbox, holds[g := holds[g].(stage := stage)])
  {
  }

  lemma ArriveKeepsLeases(c: Config, s: State, outbox: map<Id, Row>)
    requires AttemptsOk(c, s) && LeaseOk(c, s) && OnlyAdds(s.outbox, outbox)
    ensures LeaseOk(c, s.(outbox := outbox))
  {
    forall k | 0 <= k < |s.events| && s.events[k].Taking? && StillOpen(s.events, k)
      ensures OpenClaimOk(c, outbox, s.events[k])
    {
      assert OpenClaimOk(c, s.outbox, s.events[k]);
    }
    forall g | g in s.holds ensures HoldOk(s.outbox, s.events, s.holds[g]) {
    }
  }

  lemma ClaimKeepsOwners(c: Config, s: State, step: Step, s': State)
    requires ValidConfig(c) && AttemptsOk(c, s) && LeaseOk(c, s) && step.Claim? && Next(c, s, step, s')
    ensures OwnersOk(c, s'.outbox, s'.holds)
  {
  }

  lemma NextKeepsLease(c: Config, s: State, step: Step, s': State)
    requires ValidConfig(c) && AttemptsOk(c, s) && LeaseOk(c, s) && Next(c, s, step, s')
    ensures LeaseOk(c, s')
  {
    match step
    case Claim(_, _, _) =>
      ClaimKeepsLeases(c, s, step, s');
      ClaimKeepsApart(c, s, step, s');
      ClaimKeepsOwners(c, s, step, s');
    case Finish(_, _) => FinishKeepsLeases(c, s, step, s');
    case Arrive(outbox) => ArriveKeepsLeases(c, s, outbox);
    case Send(g) => RestageKeepsOwners(c, s.outbox, s.holds, g, Sent);
    case Receive(g, x, now, maximum) =>
      RestageKeepsOwners(c, s.outbox, s.holds, g, Done(Judgement(x, now, maximum)));
    case Fail(g, verdict) => RestageKeepsOwners(c, s.outbox, s.holds, g, Done(verdict));
    case Stop(g) => DropKeepsOwners(c, s.outbox, s.holds, g);
    case Serve(_, _, _) =>
  }

  /** Everything together */

  ghost predicate Inv(c: Config, s: State) {
    AttemptsOk(c, s) && ReceiptsOk(s) && LeaseOk(c, s)
  }

  lemma InitialOk(c: Config)
    ensures Inv(c, INITIAL)
  {
  }

  lemma NextKeeps(c: Config, s: State, step: Step, s': State)
    requires ValidConfig(c) && Inv(c, s) && Next(c, s, step, s')
    ensures Inv(c, s')
  {
    NextKeepsAttempts(c, s, step, s');
    NextKeepsReceipts(c, s, step, s');
    NextKeepsLease(c, s, step, s');
  }
}
