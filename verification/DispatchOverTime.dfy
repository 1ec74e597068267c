/**
 The dispatcher's Run while time passes. A goroutine reads the clock and calls the store in two
 steps, so it may act on a stale reading; leases may expire and be taken over, and rows that were
 put back may fall due again. The scheduler and the clock are arbitrary. What stops Run is
 MaxAttempts: a claim with that number or more ends its row or its goroutine.
 */
module DispatchOverTime {
  import opened Domain
  import opened Store
  import opened Backoff
  import opened Delivery
  import opened Dispatcher

  // Where a goroutine stands: about to read the clock or to call the store, without or with a row.
  datatype Goroutine = Ready | Claiming(now: Time) | Holding(row: Row) | Finalising(row: Row, now: Time)

  predicate Holds(p: Goroutine) { p.Holding? || p.Finalising? }

  // A row is as it was or has been claimed since; finished rows are as they were.
  predicate Moved(was: Row, row: Row) {
    row == was || (row.attempts > was.attempts && !IsTerminal(was))
  }

  ghost predicate AllMoved(was: map<Id, Row>, m: map<Id, Row>) {
    m.Keys == was.Keys && forall r :: r in m ==> Moved(was[r], m[r])
  }

  predicate ClaimedHere(was: map<Id, Row>, m: map<Id, Row>, id: Id) {
    id in m && id in was && m[id].attempts > was[id].attempts
  }

  ghost predicate HeldHere(was: map<Id, Row>, m: map<Id, Row>, gs: map<nat, Goroutine>) {
    forall g :: g in gs && Holds(gs[g]) ==> ClaimedHere(was, m, gs[g].row.id)
  }

  /** Late claims */

  // A claim numbered max or more: its holder cannot put the row back.
  predicate IsLate(p: Goroutine, id: Id, max: int) {
    Holds(p) && p.row.id == id && p.row.attempts >= max
  }

  ghost function Late(gs: map<nat, Goroutine>, id: Id, max: int): set<nat> {
    set g | g in gs && IsLate(gs[g], id, max)
  }

  function Base(was: Row, max: int): int { Max(was.attempts, max - 1) }

  // Late claims of a row are accounted for by their holders and by the goroutines that have left,
  // and there were n goroutines in all.
  predicate RowBounded(was: Row, row: Row, max: int, late: nat, gone: nat, n: nat) {
    && row.attempts <= Base(was, max) + n
    && (IsTerminal(row) || row.attempts <= Base(was, max) + late + gone)
  }

  ghost predicate Bounded(was: map<Id, Row>, m: map<Id, Row>, gs: map<nat, Goroutine>, max: int, n: nat) {
    && |gs.Keys| <= n && m.Keys == was.Keys
    && forall r :: r in m ==> RowBounded(was[r], m[r], max, |Late(gs, r, max)|, n - |gs.Keys|, n)
  }

  function One(b: bool): nat { if b then 1 else 0 }

  lemma LateAfter(gs: map<nat, Goroutine>, g: nat, p: Goroutine, id: Id, max: int)
    requires g in gs
    ensures gs[g := p].Keys == gs.Keys
    ensures |Late(gs[g := p], id, max)| + One(IsLate(gs[g], id, max)) == |Late(gs, id, max)| + One(IsLate(p, id, max))
  {
    var without := Late(gs, id, max) - {g};
    assert Late(gs, id, max) == if IsLate(gs[g], id, max) then without + {g} else without;
    assert Late(gs[g := p], id, max) == if IsLate(p, id, max) then without + {g} else without;
  }

  lemma LateWithout(gs: map<nat, Goroutine>, g: nat, id: Id, max: int)
    requires g in gs
    ensures (gs - {g}).Keys == gs.Keys - {g} && |(gs - {g}).Keys| + 1 == |gs.Keys|
    ensures |Late(gs - {g}, id, max)| + One(IsLate(gs[g], id, max)) == |Late(gs, id, max)|
  {
    var without := Late(gs - {g}, id, max);
    assert Late(gs, id, max) == if IsLate(gs[g], id, max) then without + {g} else without;
  }

  lemma LateAreFew(gs: map<nat, Goroutine>, id: Id, max: int)
    ensures |Late(gs, id, max)| <= |gs.Keys|
  {
    assert gs.Keys == Late(gs, id, max) + (gs.Keys - Late(gs, id, max));
  }

  // Reading the clock changes nothing that is counted.
  lemma ReadKeepsBound(was: map<Id, Row>, m: map<Id, Row>, gs: map<nat, Goroutine>, max: int, n: nat, g: nat,
                       p: Goroutine)
    requires Bounded(was, m, gs, max, n) && g in gs
    requires forall r :: r in m ==> IsLate(gs[g], r, max) == IsLate(p, r, max)
    ensures Bounded(was, m, gs[g := p], max, n)
  {
    forall r | r in m ensures RowBounded(was[r], m[r], max, |Late(gs[g := p], r, max)|, n - |gs[g := p].Keys|, n) {
      LateAfter(gs, g, p, r, max);
    }
  }

  // A goroutine that leaves takes its late claim along, and is counted as gone instead.
  lemma LeaveKeepsBound(was: map<Id, Row>, m: map<Id, Row>, gs: map<nat, Goroutine>, max: int, n: nat, g: nat)
    requires Bounded(was, m, gs, max, n) && g in gs
    ensures Bounded(was, m, gs - {g}, max, n)
  {
    LateWithout(gs, g, BlankId, max);
    forall r | r in m ensures RowBounded(was[r], m[r], max, |Late(gs - {g}, r, max)|, n - |(gs - {g}).Keys|, n) {
      LateWithout(gs, g, r, max);
    }
  }

  // A claim numbered below max is within the base; any other makes its holder late.
  lemma ClaimKeepsBound(was: map<Id, Row>, m: map<Id, Row>, gs: map<nat, Goroutine>, max: int, n: nat, g: nat, row: Row)
    requires Bounded(was, m, gs, max, n) && g in gs && !Holds(gs[g])
    requires row.id in m && !IsTerminal(m[row.id]) && row.attempts == m[row.id].attempts + 1
    ensures Bounded(was, m[row.id := row], gs[g := Holding(row)], max, n)
  {
    var gs' := gs[g := Holding(row)];
    forall r | r in m
      ensures RowBounded(was[r], m[row.id := row][r], max, |Late(gs', r, max)|, n - |gs'.Keys|, n)
    {
      LateAfter(gs, g, Holding(row), r, max);
      LateAreFew(gs', r, max);
    }
  }

  // A finalised row ends, or its holder was not late.
  lemma FinishKeepsBound(was: map<Id, Row>, m: map<Id, Row>, gs: map<nat, Goroutine>, max: int, n: nat, g: nat,
                         row: Row)
    requires Bounded(was, m, gs, max, n) && g in gs && Holds(gs[g]) && gs[g].row.id == row.id
    requires row.id in m && row.attempts == m[row.id].attempts && !IsTerminal(m[row.id])
    requires IsTerminal(row) || gs[g].row.attempts < max
    ensures Bounded(was, m[row.id := row], gs[g := Ready], max, n)
  {
    var gs' := gs[g := Ready];
    forall r | r in m
      ensures RowBounded(was[r], m[row.id := row][r], max, |Late(gs', r, max)|, n - |gs'.Keys|, n)
    {
      LateAfter(gs, g, Ready, r, max);
    }
  }

  /** Work left */

  ghost function Total<K(!new)>(m: map<K, nat>): nat {
    if m == map[] then 0 else var k :| k in m; m[k] + Total(m - {k})
  }

  lemma {:induction false} TotalWithout<K(!new)>(m: map<K, nat>, k: K)
    requires k in m
    ensures Total(m) == m[k] + Total(m - {k})
    decreases |m|
  {
    var j :| j in m && Total(m) == m[j] + Total(m - {j});
    if j != k {
      TotalWithout(m - {j}, k);
      TotalWithout(m - {k}, j);
      assert m - {j} - {k} == m - {k} - {j};
    }
  }

  lemma TotalAfter<K(!new)>(m: map<K, nat>, k: K, v: nat)
    requires k in m
    ensures Total(m[k := v]) + m[k] == Total(m) + v
  {
    TotalWithout(m, k);
    TotalWithout(m[k := v], k);
    assert m[k := v] - {k} == m - {k};
  }

  function Room(was: Row, row: Row, max: int, n: nat): nat {
    if row.attempts <= Base(was, max) + n then Base(was, max) + n - row.attempts else 0
  }

  // The claims still possible.
  ghost function Rooms(was: map<Id, Row>, m: map<Id, Row>, max: int, n: nat): map<Id, nat>
    requires m.Keys == was.Keys
  {
    map r | r in m :: Room(was[r], m[r], max, n)
  }

  // The steps a goroutine can take before it claims or leaves.
  function Weight(p: Goroutine): nat {
    match p
    case Holding(_) => 4
    case Finalising(_, _) => 3
    case Ready => 2
    case Claiming(_) => 1
  }

  ghost function Weights(gs: map<nat, Goroutine>): map<nat, nat> { map g | g in gs :: Weight(gs[g]) }

  ghost function Work(was: map<Id, Row>, m: map<Id, Row>, gs: map<nat, Goroutine>, max: int, n: nat): nat
    requires m.Keys == was.Keys
  {
    4 * Total(Rooms(was, m, max, n)) + Total(Weights(gs))
  }

  lemma WeightAfter(gs: map<nat, Goroutine>, g: nat, p: Goroutine)
    requires g in gs
    ensures Total(Weights(gs[g := p])) + Weight(gs[g]) == Total(Weights(gs)) + Weight(p)
  {
    TotalAfter(Weights(gs), g, Weight(p));
    assert Weights(gs)[g := Weight(p)] == Weights(gs[g := p]);
  }

  lemma WeightWithout(gs: map<nat, Goroutine>, g: nat)
    requires g in gs
    ensures Total(Weights(gs - {g})) < Total(Weights(gs))
  {
    TotalWithout(Weights(gs), g);
    assert Weights(gs) - {g} == Weights(gs - {g});
  }

  lemma RoomsAfter(was: map<Id, Row>, m: map<Id, Row>, max: int, n: nat, id: Id, row: Row)
    requires m.Keys == was.Keys && id in m
    ensures m[id := row].Keys == was.Keys
    ensures Total(Rooms(was, m[id := row], max, n)) + Room(was[id], m[id], max, n)
         == Total(Rooms(was, m, max, n)) + Room(was[id], row, max, n)
  {
    TotalAfter(Rooms(was, m, max, n), id, Room(was[id], row, max, n));
    assert Rooms(was, m, max, n)[id := Room(was[id], row, max, n)] == Rooms(was, m[id := row], max, n);
  }

  /** One store call */

  // Everything the loop keeps about rows and goroutines.
  ghost predicate Kept(d: Dispatcher, was: map<Id, Row>, m: map<Id, Row>, gs: map<nat, Goroutine>) {
    AllMoved(was, m) && HeldHere(was, m, gs) && Bounded(was, m, gs, d.maxAttempts, d.workers)
  }

  lemma MovedAfter(was: map<Id, Row>, m: map<Id, Row>, gs: map<nat, Goroutine>, id: Id, row: Row)
    requires AllMoved(was, m) && HeldHere(was, m, gs) && id in m && !IsTerminal(m[id])
    requires row.attempts >= m[id].attempts && row.attempts > was[id].attempts
    ensures AllMoved(was, m[id := row]) && HeldHere(was, m[id := row], gs)
  {
    forall g | g in gs && Holds(gs[g]) ensures ClaimedHere(was, m[id := row], gs[g].row.id) {
      assert ClaimedHere(was, m, gs[g].row.id);
    }
  }

  lemma HeldAfter(was: map<Id, Row>, m: map<Id, Row>, gs: map<nat, Goroutine>, g: nat, p: Goroutine)
    requires HeldHere(was, m, gs) && (Holds(p) ==> ClaimedHere(was, m, p.row.id))
    ensures HeldHere(was, m, gs[g := p])
  {
  }

  lemma KeptAfterRead(d: Dispatcher, was: map<Id, Row>, m: map<Id, Row>, gs: map<nat, Goroutine>, g: nat, p: Goroutine)
    requires Kept(d, was, m, gs) && g in gs && Holds(p) == Holds(gs[g]) && (Holds(p) ==> p.row == gs[g].row)
    ensures Kept(d, was, m, gs[g := p])
  {
    ReadKeepsBound(was, m, gs, d.maxAttempts, d.workers, g, p);
  }

  lemma KeptAfterLeave(d: Dispatcher, was: map<Id, Row>, m: map<Id, Row>, gs: map<nat, Goroutine>, g: nat)
    requires Kept(d, was, m, gs) && g in gs
    ensures Kept(d, was, m, gs - {g}) && Work(was, m, gs - {g}, d.maxAttempts, d.workers)
                                         < Work(was, m, gs, d.maxAttempts, d.workers)
  {
    LeaveKeepsBound(was, m, gs, d.maxAttempts, d.workers, g);
    WeightWithout(gs, g);
  }

  lemma KeptAfterClaim(d: Dispatcher, was: map<Id, Row>, m: map<Id, Row>, gs: map<nat, Goroutine>, g: nat, row: Row)
    requires Kept(d, was, m, gs) && g in gs && gs[g].Claiming?
    requires row.id in m && !IsTerminal(m[row.id]) && row.attempts == m[row.id].attempts + 1
    ensures var m', gs' := m[row.id := row], gs[g := Holding(row)];
            Kept(d, was, m', gs') && Work(was, m', gs', d.maxAttempts, d.workers)
                                     < Work(was, m, gs, d.maxAttempts, d.workers)
  {
    var m', gs' := m[row.id := row], gs[g := Holding(row)];
    ClaimKeepsBound(was, m, gs, d.maxAttempts, d.workers, g, row);
    RoomsAfter(was, m, d.maxAttempts, d.workers, row.id, row);
    WeightAfter(gs, g, Holding(row));
    assert RowBounded(was[row.id], m'[row.id], d.maxAttempts, |Late(gs', row.id, d.maxAttempts)|,
                      d.workers - |gs'.Keys|, d.workers);
    MovedAfter(was, m, gs, row.id, row);
    HeldAfter(was, m', gs, g, Holding(row));
  }

  lemma KeptAfterFinish(d: Dispatcher, was: map<Id, Row>, m: map<Id, Row>, gs: map<nat, Goroutine>, g: nat, row: Row)
    requires Kept(d, was, m, gs) && g in gs && gs[g].Finalising? && gs[g].row.id == row.id
    requires row.id in m && row.attempts == m[row.id].attempts && !IsTerminal(m[row.id])
    requires IsTerminal(row) || gs[g].row.attempts < d.maxAttempts
    ensures var m', gs' := m[row.id := row], gs[g := Ready];
            Kept(d, was, m', gs') && Work(was, m', gs', d.maxAttempts, d.workers)
                                     < Work(was, m, gs, d.maxAttempts, d.workers)
  {
    var m', gs' := m[row.id := row], gs[g := Ready];
    FinishKeepsBound(was, m, gs, d.maxAttempts, d.workers, g, row);
    RoomsAfter(was, m, d.maxAttempts, d.workers, row.id, row);
    WeightAfter(gs, g, Ready);
    assert ClaimedHere(was, m, row.id);
    MovedAfter(was, m, gs, row.id, row);
    HeldAfter(was, m', gs, g, Ready);
  }

  // Claim a row, or find nothing due and leave.
  method Take(d: Dispatcher, gs: map<nat, Goroutine>, g: nat, ghost was: map<Id, Row>)
    returns (next: map<nat, Goroutine>)
    requires d.Valid() && Kept(d, was, d.store.outbox, gs) && g in gs && gs[g].Claiming?
    modifies d.store`outbox
    ensures d.Valid() && Kept(d, was, d.store.outbox, next)
    ensures Work(was, d.store.outbox, next, d.maxAttempts, d.workers)
            < Work(was, old(d.store.outbox), gs, d.maxAttempts, d.workers)
    ensures || (next == gs - {g} && d.store.outbox == old(d.store.outbox)
                && DueRows(d.store.outbox, gs[g].now) == {})
            || (g in next && next[g].Holding?)
  {
    ghost var before := d.store.outbox;
    var claimed, outcome := d.store.ClaimDelivery(d.workerId, gs[g].now, d.lease);
    if claimed.None? {
      KeptAfterLeave(d, was, before, gs, g);
      return gs - {g};
    }
    KeptAfterClaim(d, was, before, gs, g, claimed.value);
    return gs[g := Holding(claimed.value)];
  }

  // Finalise the row, or find that it was taken over and leave with an error.
  method Settle(d: Dispatcher, gs: map<nat, Goroutine>, g: nat, ghost was: map<Id, Row>)
    returns (next: map<nat, Goroutine>, ok: bool)
    requires d.Valid() && Kept(d, was, d.store.outbox, gs) && g in gs && gs[g].Finalising?
    modifies d.store`outbox
    ensures d.Valid() && Kept(d, was, d.store.outbox, next)
    ensures Work(was, d.store.outbox, next, d.maxAttempts, d.workers)
            < Work(was, old(d.store.outbox), gs, d.maxAttempts, d.workers)
    ensures ok ==> g in next && next[g] == Ready
  {
    var row, now := gs[g].row, gs[g].now;
    ghost var before := d.store.outbox;
    assert ClaimedHere(was, before, row.id);
    if HeldBy(before, row.id, d.workerId) {
      KeptAfterFinish(d, was, before, gs, g, FinishedRow(d.AsConfig(), before[row.id], d.HoldOf(row), now));
    } else {
      KeptAfterLeave(d, was, before, gs, g);
    }
    var outcome := d.Finalise(row, now);
    ok := outcome == Ok;
    next := if ok then gs[g := Ready] else gs - {g};
  }

  /** Run */

  // Some goroutine will read the clock again, or is about to claim with the latest reading.
  ghost predicate Looking(gs: map<nat, Goroutine>, at: Time) {
    exists g :: g in gs && (gs[g].Claiming? ==> gs[g].now == at)
  }

  // Someone is still looking, or nothing is due at the latest reading.
  ghost predicate Drained(gs: map<nat, Goroutine>, m: map<Id, Row>, at: Time) {
    Looking(gs, at) || DueRows(m, at) == {}
  }

  // When all have left nothing is due, and whatever was due has been claimed.
  lemma EndsDrained(was: map<Id, Row>, m: map<Id, Row>, at: Time)
    requires AllMoved(was, m) && Drained(map[], m, at)
    ensures DueRows(m, at) == {}
    ensures forall r :: r in DueRows(was, at) ==> r in m && m[r].attempts > was[r].attempts
  {
    forall r | r in DueRows(was, at) ensures m[r].attempts > was[r].attempts {
      assert r !in DueRows(m, at);
    }
  }

  lemma KeptAtStart(d: Dispatcher, was: map<Id, Row>, gs: map<nat, Goroutine>)
    requires |gs.Keys| == d.workers && forall g :: g in gs ==> gs[g] == Ready
    ensures Kept(d, was, was, gs)
  {
  }

  // An idle goroutine either used the latest reading or was not one that is looking.
  lemma LeaveKeepsDrained(gs: map<nat, Goroutine>, m: map<Id, Row>, at: Time, g: nat)
    requires Drained(gs, m, at) && g in gs && gs[g].Claiming? && DueRows(m, gs[g].now) == {}
    ensures Drained(gs - {g}, m, at)
  {
    if gs[g].now != at && Looking(gs, at) {
      var w :| w in gs && (gs[w].Claiming? ==> gs[w].now == at);
      assert w in gs - {g};
    }
  }

  function AfterReading(p: Goroutine, now: Time): Goroutine {
    match p
    case Ready => Claiming(now)
    case Holding(row) => Finalising(row, now)
    case _ => p
  }

  // One step of goroutine g: read the clock, or call the store with the reading it has.
  method Turn(d: Dispatcher, gs: map<nat, Goroutine>, g: nat, reading: Time, ghost at: Time, ghost was: map<Id, Row>)
    returns (next: map<nat, Goroutine>, ok: bool, read: bool)
    requires d.Valid() && Kept(d, was, d.store.outbox, gs) && g in gs
    modifies d.store`outbox
    ensures d.Valid() && Kept(d, was, d.store.outbox, next)
    ensures Work(was, d.store.outbox, next, d.maxAttempts, d.workers)
            < Work(was, old(d.store.outbox), gs, d.maxAttempts, d.workers)
    ensures read <==> gs[g].Ready? || gs[g].Holding?
    ensures ok && Drained(gs, old(d.store.outbox), at) ==>
      Drained(next, d.store.outbox, if read then reading else at)
  {
    ok, read := true, gs[g].Ready? || gs[g].Holding?;
    if read {
      KeptAfterRead(d, was, d.store.outbox, gs, g, AfterReading(gs[g], reading));
      WeightAfter(gs, g, AfterReading(gs[g], reading));
      next := gs[g := AfterReading(gs[g], reading)];
      assert g in next;
    } else if gs[g].Claiming? {
      if Drained(gs, d.store.outbox, at) && DueRows(d.store.outbox, gs[g].now) == {} {
        LeaveKeepsDrained(gs, d.store.outbox, at, g);
      }
      next := Take(d, gs, g, was);
    } else {
      next, ok := Settle(d, gs, g, was);
    }
  }

  // At most the claims MaxAttempts leaves room for, and one more for each goroutine.
  predicate FewClaims(was: Row, row: Row, max: int, n: nat) {
    row.attempts - was.attempts <= Max(0, max - 1 - was.attempts) + n
  }

  lemma ClaimsAreFew(d: Dispatcher, was: map<Id, Row>, m: map<Id, Row>, gs: map<nat, Goroutine>)
    requires Kept(d, was, m, gs)
    ensures forall r :: r in m ==> FewClaims(was[r], m[r], d.maxAttempts, d.workers)
  {
    forall r | r in m ensures FewClaims(was[r], m[r], d.maxAttempts, d.workers) {
      assert RowBounded(was[r], m[r], d.maxAttempts, |Late(gs, r, d.maxAttempts)|, d.workers - |gs.Keys|, d.workers);
    }
  }

  // What the clock showed last, of so many readings.
  ghost predicate LastReading(clock: nat -> Time, readings: nat, last: Time) {
    readings > 0 && last == clock(readings - 1)
  }

  // No goroutine has read the clock yet.
  ghost predicate Unread(gs: map<nat, Goroutine>) {
    gs != map[] && forall g :: g in gs ==> gs[g] == Ready
  }

  // Turn with the clock: the reading, if one is taken, is the next one.
  method Tick(d: Dispatcher, gs: map<nat, Goroutine>, g: nat, clock: nat -> Time, readings: nat, last: Time,
              ghost was: map<Id, Row>)
    returns (next: map<nat, Goroutine>, ok: bool, readings': nat, last': Time)
    requires d.Valid() && Kept(d, was, d.store.outbox, gs) && g in gs
    requires Unread(gs) || LastReading(clock, readings, last)
    modifies d.store`outbox
    ensures d.Valid() && Kept(d, was, d.store.outbox, next)
    ensures Work(was, d.store.outbox, next, d.maxAttempts, d.workers)
            < Work(was, old(d.store.outbox), gs, d.maxAttempts, d.workers)
    ensures LastReading(clock, readings', last')
    ensures ok && Drained(gs, old(d.store.outbox), last) ==> Drained(next, d.store.outbox, last')
  {
    var now := clock(readings);
    var read;
    assert LastReading(clock, readings + 1, now);
    next, ok, read := Turn(d, gs, g, now, last, was);
    readings', last' := if read then readings + 1 else readings, if read then now else last;
  }

  // Nothing was lost, no row was claimed too often, and without an error nothing is due any more.
  ghost predicate Ended(d: Dispatcher, was: map<Id, Row>, m: map<Id, Row>, at: Time, ok: bool) {
    && m.Keys == was.Keys
    && (forall r :: r in m ==> Moved(was[r], m[r]) && FewClaims(was[r], m[r], d.maxAttempts, d.workers))
    && (ok ==> DueRows(m, at) == {})
    && (ok ==> forall r :: r in DueRows(was, at) ==> m[r].attempts > was[r].attempts)
  }

  lemma EndsClaimed(d: Dispatcher, was: map<Id, Row>, m: map<Id, Row>, at: Time, ok: bool)
    requires Kept(d, was, m, map[]) && (ok ==> Drained(map[], m, at))
    ensures Ended(d, was, m, at, ok)
  {
    ClaimsAreFew(d, was, m, map[]);
    if ok { EndsDrained(was, m, at); }
  }

  // Whatever the clock shows and however the goroutines are scheduled, Run stops. It claims a row
  // at most as often as MaxAttempts leaves room for, and once more for each goroutine. Without an
  // error nothing is due at the last reading, and every row that was due then has been claimed.
  method Run(d: Dispatcher, clock: nat -> Time) returns (ok: bool, readings: nat, last: Time)
    requires d.Valid()
    modifies d.store`outbox
    ensures d.Valid() && Ended(d, old(d.store.outbox), d.store.outbox, last, ok)
    ensures LastReading(clock, readings, last)
  {
    ghost var was := d.store.outbox;
    var active := Goroutines(d.workers);
    var gs := map g | g in active :: Ready;
    assert gs.Keys == active;
    KeptAtStart(d, was, gs);
    ok, readings := true, 0;
    last := clock(0);
    while gs != map[]
      invariant d.Valid() && Kept(d, was, d.store.outbox, gs)
      invariant Unread(gs) || LastReading(clock, readings, last)
      invariant ok ==> Drained(gs, d.store.outbox, last)
      decreases Work(was, d.store.outbox, gs, d.maxAttempts, d.workers)
    {
      var g :| g in gs.Keys;
      var done;
      gs, done, readings, last := Tick(d, gs, g, clock, readings, last, was);
      ok := ok && done;
    }
    EndsClaimed(d, was, d.store.outbox, last, ok);
  }
}
