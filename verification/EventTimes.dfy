/** Times of position events, from the device's millisecond clock to the server's database. */
module EventTimes {
  import C = EventCodec
  import T = PositionTracker
  import W = Wifi

  // ------------------------------------------------------------- the database record

  datatype Kind = Sound | Position | Luminosity

  /** Seconds and nanoseconds since the epoch. */
  datatype Stamp = Stamp(secs: int, nsecs: int)

  datatype NewEvent = NewEvent(kind: Kind, payload: C.Payload, startedAt: Stamp, endedAt: Stamp, deviceId: nat)

  /** Zero seconds on either side are taken for a device that has no time yet; then both become the
      second of the current minute. */
  function Store(e: C.Event, deviceId: nat, nowSecond: int): NewEvent {
    var unknown := e.startedAtSecs == 0 || e.endedAtSecs == 0;
    NewEvent(
      match e.payload case Sound(_) => Sound case Position(_, _) => Position case Luminosity(_, _) => Luminosity,
      e.payload,
      Stamp(if unknown then nowSecond else e.startedAtSecs, e.startedAtNsecs),
      Stamp(if unknown then nowSecond else e.endedAtSecs, e.endedAtNsecs),
      deviceId)
  }

  /** Kind, payload and device of a record are the event's, for all three kinds. */
  lemma StoreKeeps(e: C.Event, deviceId: nat, nowSecond: int)
    ensures var stored := Store(e, deviceId, nowSecond);
            && stored.payload == e.payload && stored.deviceId == deviceId
            && (stored.kind == Sound <==> e.payload.Sound?)
            && (stored.kind == Position <==> e.payload.Position?)
            && (stored.kind == Luminosity <==> e.payload.Luminosity?)
  {
  }

  predicate AtOrBefore(a: Stamp, b: Stamp) {
    a.secs < b.secs || (a.secs == b.secs && a.nsecs <= b.nsecs)
  }

  /** The clock offset plus milliseconds, split into seconds and nanoseconds. */
  function Offset(ntpSecs: int, millis: int): Stamp {
    Stamp(ntpSecs + millis / 1000, millis % 1000 * 1000000)
  }

  /** The split loses nothing, stays below a second, and keeps the order. */
  lemma OffsetIsExact(ntpSecs: int, millis: int, later: int)
    requires 0 <= millis <= later
    ensures var s := Offset(ntpSecs, millis);
            && s.secs * 1000 + s.nsecs / 1000000 == ntpSecs * 1000 + millis
            && 0 <= s.nsecs < 1000000000 && s.nsecs % 1000000 == 0
            && AtOrBefore(s, Offset(ntpSecs, later))
  {
  }

  // ------------------------------------------------------------- the whole way

  /** What the server stores of an event that the device sends with the given clock offset. */
  function Stored(secret: int, kind: C.BugEvent, tr: C.TimeRange, ntpSecs: int, deviceId: nat, nowSecond: int,
                  utf8: seq<C.byte> -> bool): C.Result<NewEvent>
  {
    match C.Decode(C.Encode(C.Meant(secret, kind, tr, ntpSecs)), utf8)
    case Err(error) => C.Err(error)
    case Ok(event) => C.Ok(Store(event, deviceId, nowSecond))
  }

  /** The record of an event whose times are the sum of the clock offset and the device's uptime. */
  function Expected(kind: C.BugEvent, tr: C.TimeRange, ntpSecs: int, deviceId: nat): NewEvent {
    match kind
    case PositionBug(from, to) =>
      NewEvent(Position, C.Payload.Position(from, to), Offset(ntpSecs, tr.startedAt), Offset(ntpSecs, tr.endedAt), deviceId)
    case LuminosityBug(low, high) =>
      NewEvent(Luminosity, C.Payload.Luminosity(low, high),
               Offset(ntpSecs, tr.startedAt), Offset(ntpSecs, tr.endedAt), deviceId)
  }

  /** With a synchronised clock the kind, the payload and, undistorted, the sums of clock offset and
      uptime of either kind of event arrive in the database; the substitute for unknown times is never
      taken. */
  lemma StoredIsExpected(secret: int, kind: C.BugEvent, tr: C.TimeRange, ntpSecs: int, deviceId: nat, nowSecond: int,
                         utf8: seq<C.byte> -> bool)
    requires C.BugTyped(secret, kind, tr, ntpSecs) && 0 < ntpSecs
    ensures Stored(secret, kind, tr, ntpSecs, deviceId, nowSecond, utf8) == C.Ok(Expected(kind, tr, ntpSecs, deviceId))
  {
    var meant := C.Meant(secret, kind, tr, ntpSecs);
    C.MeantIsTyped(secret, kind, tr, ntpSecs, utf8);
    C.RoundTrip(meant, [], utf8);
    assert C.Encode(meant) + [] == C.Encode(meant);
  }

  /** Without that assumption, those sums are stored if and only if the offset cancels neither of them
      in whole seconds, or the substitute happens to be right for both. */
  lemma WhenTimesAreKept(secret: int, kind: C.BugEvent, tr: C.TimeRange, ntpSecs: int, deviceId: nat, nowSecond: int)
    ensures var stored := Store(C.Meant(secret, kind, tr, ntpSecs), deviceId, nowSecond);
            var from, to := Offset(ntpSecs, tr.startedAt), Offset(ntpSecs, tr.endedAt);
            (stored.startedAt == from && stored.endedAt == to
             <==> (from.secs != 0 && to.secs != 0) || from.secs == to.secs == nowSecond)
  {
  }

  /** A device whose clock offset is still 0: an event that starts or ends within its first second
      gets the substitute for both times; any other is stored as an instant that many milliseconds
      after the beginning of 1970. */
  lemma Unsynchronised(secret: int, kind: C.BugEvent, tr: C.TimeRange, deviceId: nat, nowSecond: int)
    requires 0 <= tr.startedAt && 0 <= tr.endedAt
    ensures var stored := Store(C.Meant(secret, kind, tr, 0), deviceId, nowSecond);
            if tr.startedAt < 1000 || tr.endedAt < 1000
            then stored.startedAt.secs == nowSecond && stored.endedAt.secs == nowSecond
            else && stored.startedAt.secs * 1000 + stored.startedAt.nsecs / 1000000 == tr.startedAt
                 && stored.endedAt.secs * 1000 + stored.endedAt.nsecs / 1000000 == tr.endedAt
  {
  }

  /** An event from half a second to one and a half seconds after the start of such a device is
      stored with no duration at all. */
  lemma EarlyEventLosesItsDuration(secret: int, kind: C.BugEvent, deviceId: nat, nowSecond: int)
    ensures var stored := Store(C.Meant(secret, kind, C.TimeRange(500, 1500), 0), deviceId, nowSecond);
            stored.startedAt == stored.endedAt == Stamp(nowSecond, 500000000)
  {
  }

  // ------------------------------------------------------------- real time

  function Millis(s: Stamp): int {
    s.secs * 1000 + s.nsecs / 1000000
  }

  /** By how much stored times are later than the real ones: the uptime at synchronisation, less what
      the time server's whole seconds leave out.  Real time is in milliseconds, and the device was
      started at `boot`. */
  function Lateness(boot: nat, syncedAt: nat): int {
    syncedAt - (boot + syncedAt) % 1000
  }

  lemma WhenNotLate(boot: nat, syncedAt: nat)
    ensures Lateness(boot, syncedAt) == 0 <==> syncedAt < 1000 && boot % 1000 == 0
    ensures syncedAt - 1000 < Lateness(boot, syncedAt) <= syncedAt
  {
  }

  /** The offset is the time of its synchronisation, not of the device's start, so every stored time is
      late by the uptime at that moment, to the second.  It is exact if and only if the device was
      started on the second and synchronised within that second. */
  lemma StoredIsLate(attempts: seq<W.Attempt>, i: nat, boot: nat,
                     secret: int, kind: C.BugEvent, tr: C.TimeRange, deviceId: nat, nowSecond: int,
                     utf8: seq<C.byte> -> bool)
    requires W.SyncsAt(attempts, i) && attempts[i].answer == (boot + attempts[i].uptime) / 1000
    requires C.BugTyped(secret, kind, tr, attempts[i].answer)
    ensures var stored := Stored(secret, kind, tr, W.OffsetAfter(attempts), deviceId, nowSecond, utf8);
            var late := Lateness(boot, attempts[i].uptime);
            && stored.Ok?
            && Millis(stored.value.startedAt) == boot + tr.startedAt + late
            && Millis(stored.value.endedAt) == boot + tr.endedAt + late
            && (late == 0 <==> attempts[i].uptime < 1000 && boot % 1000 == 0)
  {
    W.OffsetIsFirstAnswer(attempts);
    WhenNotLate(boot, attempts[i].uptime);
    StoredIsExpected(secret, kind, tr, attempts[i].answer, deviceId, nowSecond, utf8);
    OffsetIsExact(attempts[i].answer, tr.startedAt, tr.startedAt);
    OffsetIsExact(attempts[i].answer, tr.endedAt, tr.endedAt);
  }

  /** A device that is started at a round time and is synchronised at the second attempt, after a
      minute: all its times are stored a minute late. */
  lemma SynchronisedAfterAMinute(uptime: nat)
    ensures var attempts := [W.Attempt(5000, -1), W.Attempt(60000, 1600000060)];
            Millis(Offset(W.OffsetAfter(attempts), uptime)) == 1600000000000 + uptime + 60000
  {
    var attempts := [W.Attempt(5000, -1), W.Attempt(60000, 1600000060)];
    W.OffsetIsFirstAnswer(attempts);
    assert W.SyncsAt(attempts, 1);
    OffsetIsExact(1600000060, uptime, uptime);
  }

  // ------------------------------------------------------------- over whole runs

  lemma {:induction false} PositionsAreTyped(release: nat, a: T.Acceleration, ticks: seq<T.Tick>)
    ensures var t := T.Run(T.Initial(release, a), ticks);
            && C.IsTriple(t.position)
            && (t.eventFrom.Some? ==> C.IsTriple(t.eventFrom.value))
            && (forall e :: e in t.sent ==> C.IsTriple(e.from) && C.IsTriple(e.to))
  {
    if ticks != [] {
      PositionsAreTyped(release, a, ticks[..|ticks| - 1]);
    }
  }

  function BugOf(e: T.PositionEvent): C.BugEvent {
    C.PositionBug(e.from, e.to)
  }

  function RangeOf(e: T.PositionEvent): C.TimeRange {
    C.TimeRange(e.startedAt, e.endedAt)
  }

  /** The database record of a sent event. */
  function RecordOf(e: T.PositionEvent, ntpSecs: int, deviceId: nat): NewEvent {
    NewEvent(Position, C.Payload.Position(e.from, e.to),
             Offset(ntpSecs, e.startedAt), Offset(ntpSecs, e.endedAt), deviceId)
  }

  /** For every run of the tracker and a synchronised clock: each sent event is stored with the sums of
      offset and uptime, starts before it ends, and starts after the event before it has ended. */
  lemma StoredInOrder(release: nat, a: T.Acceleration, ticks: seq<T.Tick>,
                      secret: int, ntpSecs: int, deviceId: nat, nowSecond: int, utf8: seq<C.byte> -> bool)
    requires C.IsU64(secret) && C.IsI32(ntpSecs) && 0 < ntpSecs
    requires 0 <= a.tsCurr && T.ClockForward(a.tsCurr, ticks)
    requires forall i :: 0 <= i < |ticks| ==> C.IsU64(ticks[i].at)
    ensures var sent := T.Run(T.Initial(release, a), ticks).sent;
            && (forall i :: 0 <= i < |sent| ==>
                  Stored(secret, BugOf(sent[i]), RangeOf(sent[i]), ntpSecs, deviceId, nowSecond, utf8)
                  == C.Ok(RecordOf(sent[i], ntpSecs, deviceId)))
            && (forall i :: 0 <= i < |sent| ==>
                  var e := RecordOf(sent[i], ntpSecs, deviceId); AtOrBefore(e.startedAt, e.endedAt))
            && (forall i :: 0 < i < |sent| ==>
                  AtOrBefore(RecordOf(sent[i - 1], ntpSecs, deviceId).endedAt, RecordOf(sent[i], ntpSecs, deviceId).startedAt))
  {
    T.EventsInOrder(release, a, ticks);
    PositionsAreTyped(release, a, ticks);
    var t := T.Run(T.Initial(release, a), ticks);
    var sent := t.sent;
    SentAfterStart(release, a, ticks);
    forall i | 0 <= i < |sent|
      ensures Stored(secret, BugOf(sent[i]), RangeOf(sent[i]), ntpSecs, deviceId, nowSecond, utf8)
           == C.Ok(RecordOf(sent[i], ntpSecs, deviceId))
      ensures var e := RecordOf(sent[i], ntpSecs, deviceId); AtOrBefore(e.startedAt, e.endedAt)
    {
      assert sent[i] in sent;
      StoredIsExpected(secret, BugOf(sent[i]), RangeOf(sent[i]), ntpSecs, deviceId, nowSecond, utf8);
      OffsetIsExact(ntpSecs, sent[i].startedAt, sent[i].endedAt);
    }
    forall i | 0 < i < |sent|
      ensures AtOrBefore(RecordOf(sent[i - 1], ntpSecs, deviceId).endedAt, RecordOf(sent[i], ntpSecs, deviceId).startedAt)
    {
      OffsetIsExact(ntpSecs, sent[i - 1].endedAt, sent[i].startedAt);
    }
  }

  lemma {:induction false} SentAfterStart(release: nat, a: T.Acceleration, ticks: seq<T.Tick>)
    requires T.ClockForward(a.tsCurr, ticks)
    ensures var t := T.Run(T.Initial(release, a), ticks);
            && (t.eventFrom.Some? ==> a.tsCurr <= t.startedAt)
            && a.tsCurr <= t.acceleration.tsCurr
            && (forall e :: e in t.sent ==> a.tsCurr <= e.startedAt && a.tsCurr <= e.endedAt)
  {
    if ticks != [] {
      SentAfterStart(release, a, ticks[..|ticks| - 1]);
    }
  }
}
