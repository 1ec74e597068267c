/**
 The webhook notifier's reading of a response (internal/notify/webhook) and the deduplicating
 receiver of cmd/smoke-webhook. Signature verification is an ideal predicate; the bytes on the
 wire, TLS and address checks are not modelled.
 */
module Webhook {
  import opened Domain
  import opened Backoff

  /** The sender's side */

  datatype End = Canceled | DeadlineExceeded

  // What Deliver checks before it sends anything.
  datatype Setup = Setup(ended: Option<End>, id: Id, specVersion: string, schemaVersion: string, hostSafe: bool,
                         encodes: bool, builds: bool)

  // How one HTTP request ended, as the notifier sees it.
  datatype Exchange =
    | Ended(end: End)
    | TransportError
    | BodyUnreadable
    | Response(status: int, oversized: bool, retryAfter: Header)

  // What DispatchOne learns from Deliver. A cancelled delivery counts as permanent, but
  // DispatchOne then finds its own context ended and leaves the row under its lease.
  datatype Verdict = Success | Failure(retryable: bool, retryAfter: int)

  predicate Successful(status: int) { 200 <= status <= 299 }

  predicate RetryableStatus(status: int) {
    status == 408 || status == 409 || status == 425 || status == 429 || 500 <= status <= 599
  }

  function Judgement(x: Exchange, now: Time, maxRetryAfter: int): Verdict {
    match x
    case Ended(end) => Failure(end == DeadlineExceeded, 0)
    case TransportError => Failure(true, 0)
    case BodyUnreadable => Failure(true, 0)
    case Response(status, oversized, header) =>
      if Successful(status) then Success
      else if !oversized && 300 <= status <= 399 then Failure(false, 0)
      else Failure(RetryableStatus(status), Requested(header, now, maxRetryAfter))
  }

  // The envelope, the destination and the request are in order.
  predicate Sends(s: Setup) {
    && s.ended.None? && s.id != BlankId && s.specVersion == "1.0" && s.schemaVersion == "v1"
    && s.hostSafe && s.encodes && s.builds
  }

  // x is what happens if the request is sent.
  method Deliver(s: Setup, x: Exchange, now: Time, maxRetryAfter: Duration) returns (v: Verdict)
    requires maxRetryAfter > 0
    ensures Sends(s) ==> v == Judgement(x, now, maxRetryAfter as int)
    ensures !Sends(s) ==> v == Failure(s.ended == Some(DeadlineExceeded), 0)
    ensures v == Success <==> Sends(s) && x.Response? && 200 <= x.status < 300
    ensures v.Failure? ==> 0 <= v.retryAfter <= maxRetryAfter as int
    ensures v.Failure? && v.retryable <==>
      if !Sends(s) then s.ended == Some(DeadlineExceeded)
      else if x.Response? then x.status in {408, 409, 425, 429} || 500 <= x.status < 600 else x != Ended(Canceled)
  {
    if s.ended.Some? { return Failure(s.ended.value == DeadlineExceeded, 0); }
    if s.id == BlankId || s.specVersion != "1.0" || s.schemaVersion != "v1" { return Failure(false, 0); }
    if !s.hostSafe { return Failure(false, 0); }
    if !s.encodes { return Failure(false, 0); }
    if !s.builds { return Failure(false, 0); }
    match x {
      case Ended(Canceled) => return Failure(false, 0);
      case Ended(DeadlineExceeded) => return Failure(true, 0);
      case TransportError => return Failure(true, 0);
      case BodyUnreadable => return Failure(true, 0);
      case Response(status, oversized, header) =>
        var retryable := RetryableStatus(status);
        if oversized {
          if Successful(status) { return Success; }
          var delay := ParseRetryAfter(header, now, maxRetryAfter);
          return Failure(retryable, delay as int);
        }
        if Successful(status) { return Success; }
        if 300 <= status <= 399 { return Failure(false, 0); }
        var delay := ParseRetryAfter(header, now, maxRetryAfter);
        return Failure(retryable, delay as int);
    }
  }

  /** The receiver's side */

  datatype Envelope = Envelope(specVersion: string, id: Id)

  datatype Request = Request(post: bool, cloudEvent: bool, timestamp: Option<Int64>, bodyReadable: bool,
                             signed: bool, envelope: Option<Envelope>, eventId: Id)

  // -d on 64 bits: the least duration is its own negative.
  function Negated(d: Duration): Duration {
    if d == -0x8000_0000_0000_0000 then d else -d
  }

  newtype Int64 = x: int | -0x8000_0000_0000_0000 <= x < 0x8000_0000_0000_0000

  // The seconds from year 1, where time.Time counts from, to 1970.
  const UNIX_TO_INTERNAL: int := 62135596800

  // The last Unix second whose internal count does not overflow.
  const LAST_SECOND: int := 0x7fff_ffff_ffff_ffff - UNIX_TO_INTERNAL

  // time.Unix(seconds, 0): the internal count wraps on 64 bits.
  function Instant(seconds: Int64): Time {
    if seconds as int <= LAST_SECOND then seconds as int * SECOND as int
    else (seconds as int - 0x1_0000_0000_0000_0000) * SECOND as int
  }

  predicate Timely(window: Duration, seconds: Int64, now: Time) {
    var delta := Between(now, Instant(seconds));
    window > 0 && (if delta < 0 then Negated(delta) else delta) <= window
  }

  // Inside the window; or so far ahead (2^63 ns or more) that the difference saturates and its
  // negation stays negative; or the window is the longest there is, which admits all.
  predicate Admissible(window: Duration, at: Time, now: Time) {
    || -(window as int) <= now - at <= window as int
    || at - now >= 0x8000_0000_0000_0000
    || window == 0x7fff_ffff_ffff_ffff
  }

  lemma TimelyIff(window: Duration, seconds: Int64, now: Time)
    requires window > 0
    ensures Timely(window, seconds, now) <==> Admissible(window, Instant(seconds), now)
  {
  }

  // In terms of the header's seconds, for a clock past year 1: seconds beyond the last one that
  // time.Time can count wrap into the far past and are refused.
  lemma TimelySeconds(window: Duration, seconds: Int64, now: Time)
    requires window > 0 && now >= -UNIX_TO_INTERNAL * SECOND as int
    ensures Timely(window, seconds, now)
       <==> || window == 0x7fff_ffff_ffff_ffff
            || (seconds as int <= LAST_SECOND && Admissible(window, seconds as int * SECOND as int, now))
  {
  }

  // Ten thousand million seconds ahead passes any window, and the last second of all none but the
  // longest.
  lemma FarAhead(window: Duration)
    requires 0 < window < 0x7fff_ffff_ffff_ffff
    ensures Timely(window, 10_000_000_000, 0) && !Timely(window, 0x7fff_ffff_ffff_ffff, 0)
  {
    TimelySeconds(window, 10_000_000_000, 0);
    TimelySeconds(window, 0x7fff_ffff_ffff_ffff, 0);
  }

  // The status a request is turned away with before its ID is looked at.
  function Screened(window: Duration, r: Request, now: Time): Option<int> {
    if !r.post then Some(405)
    else if !r.cloudEvent then Some(415)
    else if r.timestamp.None? || !Timely(window, r.timestamp.value, now) then Some(401)
    else if !r.bodyReadable then Some(400)
    else if !r.signed then Some(401)
    else if r.envelope.None? || r.envelope.value.specVersion != "1.0" || r.envelope.value.id == BlankId then Some(400)
    else if r.eventId == BlankId || r.eventId != r.envelope.value.id then Some(400)
    else None
  }

  class Receiver {
    const window: Duration
    var seen: set<Id>

    constructor (window: Duration)
      ensures this.window == window && seen == {}
    {
      this.window := window;
      seen := {};
    }

    method ServeHTTP(r: Request, now: Time) returns (status: int)
      modifies this
      ensures Screened(window, r, now).Some? ==> status == Screened(window, r, now).value && seen == old(seen)
      ensures Screened(window, r, now).None? ==>
        && status == (if r.eventId in old(seen) then 208 else 204)
        && seen == old(seen) + {r.eventId}
      ensures status == 204 || status == 208 <==>
        && r.post && r.cloudEvent && r.bodyReadable && r.signed
        && r.timestamp.Some? && window > 0 && Admissible(window, Instant(r.timestamp.value), now)
        && r.envelope.Some? && r.envelope.value.specVersion == "1.0" && r.envelope.value.id == r.eventId != BlankId
      ensures (status == 405 <==> !r.post) && (status == 415 <==> r.post && !r.cloudEvent)
      ensures status in {204, 208, 400, 401, 405, 415} && (r.bodyReadable && !r.signed ==> status in {401, 405, 415})
      ensures status == Answer(old(seen), r.eventId, Screened(window, r, now).None?, Refusal(window, r, now))
    {
      if !r.post { return 405; }
      if !r.cloudEvent { return 415; }
      var timely := ValidTimestamp(r.timestamp, now);
      assert timely == (r.timestamp.Some? && Timely(window, r.timestamp.value, now));
      if !timely { return 401; }
      if !r.bodyReadable { return 400; }
      if !r.signed { return 401; }
      if r.envelope.None? || r.envelope.value.specVersion != "1.0" || r.envelope.value.id == BlankId { return 400; }
      if r.eventId == BlankId || r.eventId != r.envelope.value.id { return 400; }
      var duplicate := r.envelope.value.id in seen;
      if !duplicate { seen := seen + {r.envelope.value.id}; }
      return if duplicate then 208 else 204;
    }

    method ValidTimestamp(seconds: Option<Int64>, now: Time) returns (ok: bool)
      ensures ok <==> seconds.Some? && window > 0 && Admissible(window, Instant(seconds.value), now)
    {
      if seconds.None? || window <= 0 { return false; }
      var delta := Between(now, Instant(seconds.value));
      if delta < 0 { delta := Negated(delta); }
      return delta <= window;
    }
  }

  // The receiver as a function of its seen set, for the delivery protocol: admitted says that
  // the request passes Screened.
  function Answer(seen: set<Id>, id: Id, admitted: bool, refusal: int): int {
    if !admitted then refusal else if id in seen then 208 else 204
  }

  function Refusal(window: Duration, r: Request, now: Time): int {
    if Screened(window, r, now).Some? then Screened(window, r, now).value else 0
  }

  // A refusal is never a success, as the delivery protocol assumes of its receivers.
  lemma RefusalsAreNotSuccess(window: Duration, r: Request, now: Time)
    ensures !Successful(Refusal(window, r, now))
  {
  }

  // Every rejection is a client error, so it is never taken for a delivery.
  lemma RefusalsFail(window: Duration, r: Request, now: Time, oversized: bool, h: Header, maxRetryAfter: int)
    requires Screened(window, r, now).Some?
    ensures Judgement(Response(Screened(window, r, now).value, oversized, h), now, maxRetryAfter).Failure?
    ensures !Judgement(Response(Screened(window, r, now).value, oversized, h), now, maxRetryAfter).retryable
  {
  }
}
