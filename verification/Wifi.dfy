/** Error counting and clock synchronisation of the device's wireless module. */
module Wifi {

  const DEVICE_ERROR: int := -3012   // the network stack's code for a device error

  /** The slot of an error code. */
  function Slot(err: int): (slot: nat)
    ensures slot <= 20
  {
    if -3020 <= err <= -3001 then -err - 3001 else 20
  }

  /** The twenty known codes have a slot of their own, all others share the last one; the device error
      has slot 11 to itself. */
  lemma SlotsAreApart(err: int, other: int)
    ensures Slot(err) == Slot(other) <==> err == other || (Slot(err) == 20 && Slot(other) == 20)
    ensures Slot(err) == 20 <==> err < -3020 || -3001 < err
    ensures Slot(-3001) == 0 && Slot(-3020) == 19 && (Slot(err) == 11 <==> err == -3012)
  {
  }

  datatype Held = Held(err: int, value: nat)

  /** The counters, and the reporters that have incremented one and hold the value they read. */
  datatype Counters = Counters(
    count: seq<nat>,
    holding: map<nat, Held>,            // by reporter
    reported: seq<nat>,                // errors reported per slot, ever
    reconnects: nat)
  {
    predicate Valid() {
      |count| == 21 && |reported| == 21
    }
  }

  /** The two atomic operations of a report; the second may fail for no reason. */
  datatype Action = Increment(reporter: nat, err: int) | Exchange(reporter: nat, spurious: bool)

  predicate Enabled(c: Counters, a: Action) {
    match a
    case Increment(reporter, _) => reporter !in c.holding
    case Exchange(reporter, _) => reporter in c.holding
  }

  function Next(c: Counters, a: Action): (c': Counters)
    requires c.Valid() && Enabled(c, a)
    ensures c'.Valid()
  {
    match a
    case Increment(reporter, err) =>
      var i := Slot(err);
      var value := (c.count[i] + 1) % 0x1_0000_0000;
      c.(count := c.count[i := value],
         reported := c.reported[i := c.reported[i] + 1],
         holding := c.holding[reporter := Held(err, value)])
    case Exchange(reporter, spurious) =>
      var Held(err, value) := c.holding[reporter];
      var i := Slot(err);
      var released := c.(holding := c.holding - {reporter});
      if err == DEVICE_ERROR && 3 < value && c.count[i] == value && !spurious
      then released.(count := c.count[i := value - 3], reconnects := c.reconnects + 1)
      else released
  }

  function Zeros(): (zeros: seq<nat>)
    ensures |zeros| == 21 && forall i :: 0 <= i < 21 ==> zeros[i] == 0
  {
    seq(21, _ => 0)
  }

  function Initial(): Counters {
    Counters(Zeros(), map[], Zeros(), 0)
  }

  // ------------------------------------------------------------- conservation

  /** Each counter accounts for the errors of its slot, less three for every reconnect in the slot
      of device errors, modulo its 32 bits. */
  ghost predicate Conserved(c: Counters) {
    && c.Valid()
    && forall i :: 0 <= i < 21 ==>
         && c.count[i] < 0x1_0000_0000
         && (c.count[i] + (if i == 11 then 3 * c.reconnects else 0) - c.reported[i]) % 0x1_0000_0000 == 0
  }

  /** Any number of reporters, in any interleaving, with any spurious failures. */
  lemma StepConserves(c: Counters, a: Action)
    requires Conserved(c) && Enabled(c, a)
    ensures Conserved(Next(c, a))
  {
  }

  ghost predicate IsRun(states: nat -> Counters, actions: nat -> Action) {
    && states(0) == Initial()
    && forall n: nat :: states(n).Valid() && Enabled(states(n), actions(n)) && states(n + 1) == Next(states(n), actions(n))
  }

  lemma {:induction false} RunConserves(states: nat -> Counters, actions: nat -> Action, n: nat)
    requires IsRun(states, actions)
    ensures Conserved(states(n))
    ensures states(n).reported[11] < 0x1_0000_0000 ==>
              states(n).count[11] + 3 * states(n).reconnects == states(n).reported[11]
  {
    if n == 0 {
      assert Conserved(Initial());
    } else {
      RunConserves(states, actions, n - 1);
      StepConserves(states(n - 1), actions(n - 1));
      assert states(n) == Next(states(n - 1), actions(n - 1));
    }
  }

  // ------------------------------------------------------------- one report at a time

  /** A device error reported with nobody in between and an exchange that does not fail. */
  function ReportAlone(c: Counters, reporter: nat): Counters
    requires c.Valid() && reporter !in c.holding
  {
    Next(Next(c, Increment(reporter, DEVICE_ERROR)), Exchange(reporter, false))
  }

  lemma ReportAloneStep(c: Counters, reporter: nat)
    requires c.Valid() && c.holding == map[] && c.count[11] <= 3
    ensures var c' := ReportAlone(c, reporter);
            && c'.Valid() && c'.holding == map[]
            && c'.count[11] == (if c.count[11] == 3 then 1 else c.count[11] + 1)
            && c'.reconnects == c.reconnects + (if c.count[11] == 3 then 1 else 0)
  {
    var held := Next(c, Increment(reporter, DEVICE_ERROR));
    assert held.holding - {reporter} == map[];
  }

  function ReportsAlone(n: nat, reporter: nat): (c: Counters)
    ensures c.Valid() && c.holding == map[] && c.count[11] <= 3
    ensures n != 0 ==> c.reconnects == (n - 1) / 3 && c.count[11] == (n - 1) % 3 + 1
    ensures n == 0 ==> c.reconnects == 0 && c.count[11] == 0
  {
    if n == 0 then Initial()
    else
      ReportAloneStep(ReportsAlone(n - 1, reporter), reporter);
      ReportAlone(ReportsAlone(n - 1, reporter), reporter)
  }

  // ------------------------------------------------------------- the clock offset

  /** The offset after an attempt to which the time server answers `ts`. */
  function Synced(offset: int, ts: int): int {
    if offset <= 0 <= ts then ts else offset
  }

  /** An attempt so many milliseconds after the start of the device, and the server's answer. */
  datatype Attempt = Attempt(uptime: nat, answer: int)

  function OffsetAfter(attempts: seq<Attempt>): int {
    if attempts == [] then 0 else Synced(OffsetAfter(attempts[..|attempts| - 1]), attempts[|attempts| - 1].answer)
  }

  /** The i-th attempt is the first that is answered with a time. */
  predicate SyncsAt(attempts: seq<Attempt>, i: nat) {
    i < |attempts| && 0 < attempts[i].answer && forall j :: 0 <= j < i ==> attempts[j].answer <= 0
  }

  /** Over every run of attempts the offset is the first positive answer, whatever comes before and
      after it, and 0 as long as there is none. */
  lemma {:induction false} OffsetIsFirstAnswer(attempts: seq<Attempt>)
    ensures forall i: nat :: SyncsAt(attempts, i) ==> OffsetAfter(attempts) == attempts[i].answer
    ensures (forall i :: 0 <= i < |attempts| ==> attempts[i].answer <= 0) ==> OffsetAfter(attempts) == 0
    ensures 0 <= OffsetAfter(attempts)
  {
    if attempts != [] {
      var front := attempts[..|attempts| - 1];
      OffsetIsFirstAnswer(front);
      assert forall i :: 0 <= i < |front| ==> front[i] == attempts[i];
      assert forall i: nat :: i < |front| ==> SyncsAt(front, i) == SyncsAt(attempts, i);
    }
  }

  // ------------------------------------------------------------- the class

  class Wireless {
    var count: array<nat>
    var reconnectCalls: nat      // connect callbacks queued by error reports
    var ntpSecs: int

    predicate Valid()
      reads this, count
    {
      count.Length == 21
    }

    constructor ()
      ensures Valid() && fresh(count)
      ensures count[..] == Zeros() && reconnectCalls == 0 && ntpSecs == 0
    {
      count := new nat[21](_ => 0);
      reconnectCalls, ntpSecs := 0, 0;
      new;
      assert count[..] == Zeros();
    }

    /** With no other reporter in between; `spurious` tells whether the exchange fails for no reason. */
    method ReportError(err: int, spurious: bool)
      requires Valid()
      modifies this`reconnectCalls, count
      ensures Valid()
      ensures forall c: Counters, r: nat {:trigger Next(c, Increment(r, err))} ::
                c.Valid() && r !in c.holding && c.count == old(count[..]) && c.reconnects == old(reconnectCalls) ==>
                  var c' := Next(Next(c, Increment(r, err)), Exchange(r, spurious));
                  c'.count == count[..] && c'.reconnects == reconnectCalls
    {
      var i := if -3020 <= err <= -3001 then -err - 3001 else 20;
      count[i] := (count[i] + 1) % 0x1_0000_0000;
      var value := count[i];
      if err == DEVICE_ERROR && value > 3 && !spurious {
        count[i] := value - 3;
        reconnectCalls := reconnectCalls + 1;
      }
    }

    /** `ts` is the answer of the time server, negative for an error. */
    method SyncTimestamp(ts: int) returns (ret: int)
      modifies this`ntpSecs
      ensures ntpSecs == Synced(old(ntpSecs), ts)
      ensures ret == if ntpSecs <= 0 && ts < 0 then ts else 0
    {
      if ntpSecs > 0 {
        return 0;
      }
      if ts < 0 {
        return ts;
      }
      ntpSecs := ts;
      return 0;
    }
  }
}
