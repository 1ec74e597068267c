/**
 The dispatcher (internal/notify/dispatcher.go): DispatchOne, and Run, which drains the outbox
 with several goroutines. Run is modelled with an arbitrary scheduler that lets any goroutine
 make its next store call; at a frozen clock the outcome does not depend on it.
 */
module Dispatcher {
  import opened Domain
  import opened Store
  import opened Backoff
  import opened Webhook
  import opened Delivery

  function DueRows(m: map<Id, Row>, now: Time): set<Id> {
    set r | r in m && Due(m[r], now)
  }

  class Dispatcher {
    const store: Store
    const workerId: string
    const workers: nat
    const lease: int
    const maxAttempts: int
    const initialBackoff: Duration
    const maxBackoff: Duration
    const destinations: set<string>
    // What the notifier of a known destination answers to a claimed row.
    const notify: Row -> Verdict

    ghost predicate Valid()
      reads store
    {
      && store.Valid() && !Blank(workerId) && workers > 0 && lease > 0 && maxAttempts > 0
      && 0 < initialBackoff <= maxBackoff
      && forall r :: r in store.outbox ==> r != BlankId
    }

    constructor (store: Store, workerId: string, workers: nat, lease: int, maxAttempts: int,
                 initialBackoff: Duration, maxBackoff: Duration, destinations: set<string>, notify: Row -> Verdict)
      requires store.Valid() && forall r :: r in store.outbox ==> r != BlankId
      requires !Blank(workerId) && workers > 0 && lease > 0 && maxAttempts > 0 && 0 < initialBackoff <= maxBackoff
      ensures Valid() && this.store == store && this.workers == workers
    {
      this.store, this.workerId, this.workers, this.lease := store, workerId, workers, lease;
      this.maxAttempts, this.initialBackoff, this.maxBackoff := maxAttempts, initialBackoff, maxBackoff;
      this.destinations, this.notify := destinations, notify;
    }

    ghost function AsConfig(): Config {
      Config(lease, maxAttempts, initialBackoff as int, maxBackoff as int, _ => workerId, store.before)
    }

    function VerdictOn(row: Row): Verdict {
      if row.destination in destinations then notify(row) else Failure(false, 0)
    }

    function HoldOf(row: Row): Hold {
      Hold(row.id, row.destination, row.attempts, Done(VerdictOn(row)))
    }

    // A due row once it has been claimed at now and finalised at later.
    ghost function Settled(row: Row, now: Time, later: Time): Row {
      var claimed := Claimed(row, workerId, now, lease);
      FinishedRow(AsConfig(), claimed, HoldOf(claimed), later)
    }

    // The second half of DispatchOne: deliver the claimed row and write the outcome.
    method Finalise(row: Row, now: Time) returns (outcome: Outcome)
      requires Valid()
      modifies store`outbox
      ensures Valid()
      ensures outcome == Ok ==> HeldBy(old(store.outbox), row.id, workerId)
      ensures row.id != BlankId ==> (outcome == Ok <==> HeldBy(old(store.outbox), row.id, workerId))
      ensures var before := old(store.outbox);
              store.outbox == if outcome == Ok
                              then before[row.id := FinishedRow(AsConfig(), before[row.id], HoldOf(row), now)]
                              else before
      ensures outcome == Ok ==>
        var v := if row.destination in destinations then notify(row) else Failure(false, 0);
        SettledBy(old(store.outbox)[row.id], store.outbox[row.id], v, row.attempts, maxAttempts,
                  initialBackoff as int, maxBackoff as int, now)
    {
      var verdict := VerdictOn(row);
      if HeldBy(store.outbox, row.id, workerId) {
        FinishSettles(AsConfig(), store.outbox[row.id], HoldOf(row), now);
      }
      if verdict.Success? {
        outcome := store.CompleteDelivery(row.id, workerId, now);
        return;
      }
      var failure := Permanent;
      var delay: int := 0;
      if verdict.retryable {
        if row.attempts < maxAttempts {
          failure := Retryable;
          var backoff := BackoffFor(initialBackoff, maxBackoff, row.attempts);
          delay := backoff as int;
          if verdict.retryAfter > delay {
            delay := verdict.retryAfter;
            if delay > maxBackoff as int {
              delay := maxBackoff as int;
            }
          }
        }
      }
      DelayIsClamped(initialBackoff as int, maxBackoff as int, row.attempts, verdict.retryAfter);
      outcome := store.RescheduleDelivery(row.id, workerId, now, now + delay, failure);
    }

    // One row through a claim at now and a finalisation at later, in its own fields.
    ghost predicate Dispatched(was: Row, row: Row, now: Time, later: Time) {
      var claimed := was.(status := Delivering, leaseOwner := Some(workerId), leaseUntil := Some(now + lease),
                          updatedAt := now, attempts := was.attempts + 1);
      var v := if was.destination in destinations then notify(claimed) else Failure(false, 0);
      SettledBy(claimed, row, v, was.attempts + 1, maxAttempts, initialBackoff as int, maxBackoff as int, later)
    }

    // One claim and its finalisation; false means that nothing was due.
    method DispatchOne(now: Time, later: Time) returns (processed: bool, outcome: Outcome)
      requires Valid()
      modifies store`outbox
      ensures Valid()
      ensures processed <==> DueRows(old(store.outbox), now) != {}
      ensures outcome == Ok
      ensures !processed ==> store.outbox == old(store.outbox)
      ensures processed ==> exists id ::
        && IsNext(old(store.outbox), store.before, now, id)
        && store.outbox == old(store.outbox)[id := Settled(old(store.outbox)[id], now, later)]
        && Dispatched(old(store.outbox)[id], Settled(old(store.outbox)[id], now, later), now, later)
      ensures processed && later == now ==> |DueRows(store.outbox, now)| + 1 == |DueRows(old(store.outbox), now)|
    {
      var claimed, result := store.ClaimDelivery(workerId, now, lease);
      if claimed.None? {
        assert DueRows(store.outbox, now) == {};
        return false, Ok;
      }
      var row := claimed.value;
      assert row.id in DueRows(old(store.outbox), now);
      outcome := Finalise(row, later);
      assert store.outbox == old(store.outbox)[row.id := Settled(old(store.outbox)[row.id], now, later)];
      SettledIsDispatched(this, old(store.outbox)[row.id], now, later);
      if later == now { OneFewerIsDue(this, old(store.outbox), row.id, now); }
      return true, outcome;
    }
  }

  /** Draining */

  lemma SettledIsDispatched(d: Dispatcher, was: Row, now: Time, later: Time)
    requires 0 < d.initialBackoff <= d.maxBackoff
    ensures d.Dispatched(was, d.Settled(was, now, later), now, later)
  {
    var claimed := Claimed(was, d.workerId, now, d.lease);
    FinishSettles(d.AsConfig(), claimed, d.HoldOf(claimed), later);
  }

  lemma SettledIsNotDue(d: Dispatcher, row: Row, now: Time)
    requires d.lease > 0 && 0 < d.initialBackoff <= d.maxBackoff
    ensures !Due(d.Settled(row, now, now), now) && !Due(Claimed(row, d.workerId, now, d.lease), now)
  {
    var claimed := Claimed(row, d.workerId, now, d.lease);
    var verdict := d.VerdictOn(claimed);
    if verdict.Failure? {
      DelayIsClamped(d.initialBackoff as int, d.maxBackoff as int, claimed.attempts, verdict.retryAfter);
    }
  }

  // At a frozen clock a dispatched row leaves the set of due rows and nothing enters it.
  lemma OneFewerIsDue(d: Dispatcher, m: map<Id, Row>, id: Id, now: Time)
    requires d.lease > 0 && 0 < d.initialBackoff <= d.maxBackoff && id in m && Due(m[id], now)
    ensures DueRows(m[id := d.Settled(m[id], now, now)], now) == DueRows(m, now) - {id}
    ensures |DueRows(m[id := d.Settled(m[id], now, now)], now)| + 1 == |DueRows(m, now)|
  {
    SettledIsNotDue(d, m[id], now);
    assert DueRows(m[id := d.Settled(m[id], now, now)], now) == DueRows(m, now) - {id};
    assert DueRows(m, now) == DueRows(m, now) - {id} + {id};
  }

  // Where each row stands while Run is at work: untouched, claimed by one goroutine, or at its goal.
  ghost predicate RowProgress(was: Row, goal: Row, m: Row, claimed: Row, now: Time, held: bool) {
    if !Due(was, now) then m == was && !held
    else if held then m == claimed
    else m == was || m == goal
  }

  ghost predicate RowsAt(d: Dispatcher, was: map<Id, Row>, goal: map<Id, Row>, m: map<Id, Row>, now: Time,
                         ids: set<Id>) {
    && m.Keys == was.Keys == goal.Keys
    && forall r :: r in was ==>
         RowProgress(was[r], goal[r], m[r], Claimed(was[r], d.workerId, now, d.lease), now, r in ids)
  }

  ghost predicate HoldsAt(m: map<Id, Row>, held: map<nat, Row>) {
    && (forall g :: g in held ==> held[g].id in m && m[held[g].id] == held[g])
    && (forall f, g :: f in held && g in held && held[f].id == held[g].id ==> f == g)
  }

  ghost function HeldIds(held: map<nat, Row>): set<Id> {
    set g | g in held :: held[g].id
  }

  ghost predicate Progress(d: Dispatcher, was: map<Id, Row>, goal: map<Id, Row>, m: map<Id, Row>, now: Time,
                           held: map<nat, Row>) {
    RowsAt(d, was, goal, m, now, HeldIds(held)) && HoldsAt(m, held)
  }

  // A goal no row of which is due.
  ghost predicate IsGoal(was: map<Id, Row>, goal: map<Id, Row>, now: Time) {
    forall r :: r in was && r in goal && Due(was[r], now) ==> !Due(goal[r], now)
  }

  lemma IdsAfterClaim(held: map<nat, Row>, g: nat, row: Row)
    requires g !in held
    ensures HeldIds(held[g := row]) == HeldIds(held) + {row.id}
  {
    var held' := held[g := row];
    forall r | r in HeldIds(held) ensures r in HeldIds(held') {
      var f :| f in held && held[f].id == r;
      assert f in held' && held'[f].id == r;
    }
    assert g in held' && held'[g].id in HeldIds(held');
  }

  lemma HoldsAfterClaim(m: map<Id, Row>, held: map<nat, Row>, g: nat, row: Row)
    requires HoldsAt(m, held) && g !in held && row.id in m && row.id !in HeldIds(held)
    ensures HoldsAt(m[row.id := row], held[g := row])
    ensures held[g := row].Keys == held.Keys + {g} && |held[g := row].Keys| == |held.Keys| + 1
  {
    forall f | f in held ensures held[f].id != row.id {
    }
  }

  lemma HoldsAfterFinish(m: map<Id, Row>, held: map<nat, Row>, g: nat, row: Row)
    requires HoldsAt(m, held) && g in held && row.id == held[g].id
    ensures HoldsAt(m[row.id := row], held - {g}) && HeldIds(held - {g}) == HeldIds(held) - {row.id}
    ensures (held - {g}).Keys == held.Keys - {g} && |(held - {g}).Keys| + 1 == |held.Keys|
  {
    var held' := held - {g};
    forall r | r in HeldIds(held) - {row.id} ensures r in HeldIds(held') {
      var f :| f in held && held[f].id == r;
      assert f in held' && held'[f].id == r;
    }
  }

  lemma DueAfter(m: map<Id, Row>, now: Time, row: Row)
    requires row.id in m && !Due(row, now)
    ensures DueRows(m[row.id := row], now) == DueRows(m, now) - {row.id}
    ensures Due(m[row.id], now) ==> |DueRows(m[row.id := row], now)| + 1 == |DueRows(m, now)| && DueRows(m, now) != {}
  {
    if Due(m[row.id], now) { assert row.id in DueRows(m, now); }
  }

  lemma RowsAfterClaim(d: Dispatcher, was: map<Id, Row>, goal: map<Id, Row>, m: map<Id, Row>, now: Time,
                       ids: set<Id>, row: Row)
    requires d.lease > 0 && IsGoal(was, goal, now) && RowsAt(d, was, goal, m, now, ids)
    requires row.id in m && Due(m[row.id], now) && row == Claimed(m[row.id], d.workerId, now, d.lease)
    ensures row.id !in ids && RowsAt(d, was, goal, m[row.id := row], now, ids + {row.id})
  {
    var r := row.id;
    assert RowProgress(was[r], goal[r], m[r], Claimed(was[r], d.workerId, now, d.lease), now, r in ids);
  }

  lemma RowsAfterFinish(d: Dispatcher, was: map<Id, Row>, goal: map<Id, Row>, m: map<Id, Row>, now: Time,
                        ids: set<Id>, row: Row)
    requires RowsAt(d, was, goal, m, now, ids) && row.id in ids && row.id in was && row == goal[row.id]
    ensures RowsAt(d, was, goal, m[row.id := row], now, ids - {row.id})
  {
    var r := row.id;
    assert RowProgress(was[r], goal[r], m[r], Claimed(was[r], d.workerId, now, d.lease), now, r in ids);
  }

  lemma ClaimProgress(d: Dispatcher, was: map<Id, Row>, goal: map<Id, Row>, m: map<Id, Row>, now: Time,
                      held: map<nat, Row>, g: nat, row: Row)
    requires d.lease > 0 && IsGoal(was, goal, now)
    requires Progress(d, was, goal, m, now, held) && g !in held && row.id in m && Due(m[row.id], now)
    requires row == Claimed(m[row.id], d.workerId, now, d.lease)
    ensures Progress(d, was, goal, m[row.id := row], now, held[g := row])
    ensures |DueRows(m[row.id := row], now)| + 1 == |DueRows(m, now)| && DueRows(m, now) != {}
    ensures held[g := row].Keys == held.Keys + {g} && |held[g := row].Keys| == |held.Keys| + 1
  {
    DueAfter(m, now, row);
    RowsAfterClaim(d, was, goal, m, now, HeldIds(held), row);
    HoldsAfterClaim(m, held, g, row);
    IdsAfterClaim(held, g, row);
  }

  lemma HeldRow(d: Dispatcher, was: map<Id, Row>, goal: map<Id, Row>, m: map<Id, Row>, now: Time, held: map<nat,
                Row>, g: nat)
    requires Progress(d, was, goal, m, now, held) && g in held
    ensures held[g].id in was && held[g].id in HeldIds(held)
    ensures m[held[g].id] == held[g] == Claimed(was[held[g].id], d.workerId, now, d.lease)
    ensures Due(was[held[g].id], now)
  {
    var r := held[g].id;
    assert RowProgress(was[r], goal[r], m[r], Claimed(was[r], d.workerId, now, d.lease), now, r in HeldIds(held));
  }

  lemma FinishProgress(d: Dispatcher, was: map<Id, Row>, goal: map<Id, Row>, m: map<Id, Row>, now: Time,
                       held: map<nat, Row>, g: nat, row: Row)
    requires d.lease > 0 && IsGoal(was, goal, now)
    requires Progress(d, was, goal, m, now, held) && g in held && held[g].id in was
    requires row == goal[held[g].id] && row.id == held[g].id
    ensures Progress(d, was, goal, m[row.id := row], now, held - {g})
    ensures DueRows(m[row.id := row], now) == DueRows(m, now)
    ensures (held - {g}).Keys == held.Keys - {g} && |(held - {g}).Keys| + 1 == |held.Keys|
  {
    HeldRow(d, was, goal, m, now, held, g);
    DueAfter(m, now, row);
    RowsAfterFinish(d, was, goal, m, now, HeldIds(held), row);
    HoldsAfterFinish(m, held, g, row);
  }

  // What Run leaves: every row that was due is settled, every other row untouched.
  ghost function Drained(d: Dispatcher, was: map<Id, Row>, now: Time): map<Id, Row> {
    map r | r in was :: if Due(was[r], now) then d.Settled(was[r], now, now) else was[r]
  }

  lemma DrainedIsGoal(d: Dispatcher, was: map<Id, Row>, now: Time)
    requires d.lease > 0 && 0 < d.initialBackoff <= d.maxBackoff
    ensures IsGoal(was, Drained(d, was, now), now)
  {
    forall r | r in was && Due(was[r], now) ensures !Due(Drained(d, was, now)[r], now) {
      SettledIsNotDue(d, was[r], now);
    }
  }

  lemma ProgressStarts(d: Dispatcher, was: map<Id, Row>, goal: map<Id, Row>, now: Time)
    requires was.Keys == goal.Keys
    ensures Progress(d, was, goal, was, now, map[])
  {
    assert HeldIds(map[]) == {};
  }

  lemma ProgressEnds(d: Dispatcher, was: map<Id, Row>, goal: map<Id, Row>, m: map<Id, Row>, now: Time,
                     held: map<nat, Row>)
    requires Progress(d, was, goal, m, now, held) && held.Keys == {} && DueRows(m, now) == {}
    requires forall r :: r in was && !Due(was[r], now) && r in goal ==> goal[r] == was[r]
    ensures m == goal
  {
    forall r | r in was ensures m[r] == goal[r] {
      assert RowProgress(was[r], goal[r], m[r], Claimed(was[r], d.workerId, now, d.lease), now, r in HeldIds(held));
      assert r !in HeldIds(held) && r !in DueRows(m, now);
    }
  }

  // One goroutine's next store call: claim if it holds nothing, else finalise what it holds.
  method Take(d: Dispatcher, now: Time, g: nat, held: map<nat, Row>, ghost was: map<Id, Row>, ghost goal: map<Id, Row>)
    returns (next: map<nat, Row>, idle: bool)
    requires d.Valid() && Progress(d, was, goal, d.store.outbox, now, held) && IsGoal(was, goal, now) && g !in held
    modifies d.store`outbox
    ensures d.Valid() && Progress(d, was, goal, d.store.outbox, now, next)
    ensures idle ==> next == held && DueRows(d.store.outbox, now) == {} == DueRows(old(d.store.outbox), now)
    ensures !idle ==> next.Keys == held.Keys + {g} && |next.Keys| == |held.Keys| + 1
    ensures !idle ==> |DueRows(d.store.outbox, now)| + 1 == |DueRows(old(d.store.outbox), now)|
    ensures !idle ==> DueRows(old(d.store.outbox), now) != {}
  {
    ghost var before := d.store.outbox;
    var claimed, outcome := d.store.ClaimDelivery(d.workerId, now, d.lease);
    if claimed.None? {
      assert DueRows(before, now) == {};
      return held, true;
    }
    ClaimProgress(d, was, goal, before, now, held, g, claimed.value);
    return held[g := claimed.value], false;
  }

  method Settle(d: Dispatcher, now: Time, g: nat, held: map<nat, Row>, ghost was: map<Id, Row>, ghost goal: map<Id,
                Row>)
    returns (next: map<nat, Row>)
    requires d.Valid() && Progress(d, was, goal, d.store.outbox, now, held) && IsGoal(was, goal, now) && g in held
    requires goal == Drained(d, was, now)
    modifies d.store`outbox
    ensures d.Valid() && Progress(d, was, goal, d.store.outbox, now, next)
    ensures next.Keys == held.Keys - {g} && |next.Keys| + 1 == |held.Keys|
    ensures DueRows(d.store.outbox, now) == DueRows(old(d.store.outbox), now)
  {
    ghost var before := d.store.outbox;
    var row := held[g];
    HeldRow(d, was, goal, before, now, held, g);
    var outcome := d.Finalise(row, now);
    assert d.store.outbox[row.id] == goal[row.id];
    FinishProgress(d, was, goal, before, now, held, g, d.store.outbox[row.id]);
    next := held - {g};
  }

  method Goroutines(n: nat) returns (active: set<nat>)
    ensures |active| == n
  {
    active := {};
    for g := 0 to n
      invariant |active| == g && forall x :: x in active ==> x < g
    {
      active := active + {g};
    }
  }

  ghost function Work(m: map<Id, Row>, now: Time, held: map<nat, Row>, active: set<nat>): nat {
    2 * |DueRows(m, now)| + |held.Keys| + |active|
  }

  lemma KeysWithin(keys: set<nat>, active: set<nat>, g: nat)
    requires keys <= active && g in active
    ensures keys - {g} <= active && keys + {g} <= active
    ensures g !in keys ==> keys <= active - {g}
    ensures |active - {g}| + 1 == |active|
  {
  }

  // One turn of goroutine g; it leaves when it finds nothing due.
  method Turn(d: Dispatcher, now: Time, g: nat, active: set<nat>, held: map<nat, Row>, ghost was: map<Id, Row>,
              ghost goal: map<Id, Row>)
    returns (left: set<nat>, next: map<nat, Row>, claims: nat)
    requires d.Valid() && Progress(d, was, goal, d.store.outbox, now, held) && IsGoal(was, goal, now)
    requires goal == Drained(d, was, now) && g in active && held.Keys <= active
    modifies d.store`outbox
    ensures d.Valid() && Progress(d, was, goal, d.store.outbox, now, next)
    ensures next.Keys <= left && (left == active || DueRows(d.store.outbox, now) == {})
    ensures claims + |DueRows(d.store.outbox, now)| == |DueRows(old(d.store.outbox), now)|
    ensures Work(d.store.outbox, now, next, left) < Work(old(d.store.outbox), now, held, active)
  {
    left, claims := active, 0;
    KeysWithin(held.Keys, active, g);
    if g in held {
      next := Settle(d, now, g, held, was, goal);
    } else {
      var idle;
      next, idle := Take(d, now, g, held, was, goal);
      if idle {
        left := active - {g};
      } else {
        claims := 1;
      }
    }
  }

  // The goroutines of Run, at a clock that stands still, with no commits arriving. Whatever the
  // scheduler does, Run stops, makes one claim per due row, and leaves the same outbox.
  method Run(d: Dispatcher, now: Time) returns (claims: nat)
    requires d.Valid()
    modifies d.store`outbox
    ensures d.Valid()
    ensures d.store.outbox == Drained(d, old(d.store.outbox), now)
    ensures DueRows(d.store.outbox, now) == {}
    ensures claims == |DueRows(old(d.store.outbox), now)|
  {
    ghost var was := d.store.outbox;
    ghost var goal := Drained(d, was, now);
    var active := Goroutines(d.workers);
    ghost var all := active;
    var held: map<nat, Row> := map[];
    claims := 0;
    DrainedIsGoal(d, was, now);
    ProgressStarts(d, was, goal, now);
    while active != {}
      invariant d.Valid() && held.Keys <= active
      invariant Progress(d, was, goal, d.store.outbox, now, held)
      invariant active == all || |DueRows(d.store.outbox, now)| == 0
      invariant claims + |DueRows(d.store.outbox, now)| == |DueRows(was, now)|
      decreases Work(d.store.outbox, now, held, active)
    {
      var g :| g in active;
      var more;
      active, held, more := Turn(d, now, g, active, held, was, goal);
      claims := claims + more;
    }
    ProgressEnds(d, was, goal, d.store.outbox, now, held);
  }
}
