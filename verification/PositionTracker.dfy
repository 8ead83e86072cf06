/** The device's position tracker: acceleration sampling, its noise gate, integration, and the
    position events it sends. */
module PositionTracker {
  import opened Options
  import opened Vectors
  import Gate = NoiseGate

  // ------------------------------------------------------------- machine integers

  /** The signed number of that width that is congruent. */
  function Wrap16(n: int): (w: int)
    ensures -0x8000 <= w < 0x8000 && (n - w) % 0x1_0000 == 0
    ensures -0x8000 <= n < 0x8000 ==> w == n
  {
    (n + 0x8000) % 0x1_0000 - 0x8000
  }

  function Wrap32(n: int): (w: int)
    ensures -0x8000_0000 <= w < 0x8000_0000 && (n - w) % 0x1_0000_0000 == 0
    ensures -0x8000_0000 <= n < 0x8000_0000 ==> w == n
  {
    (n + 0x8000_0000) % 0x1_0000_0000 - 0x8000_0000
  }

  /** Division that drops the fraction, as in C: what is left over has the sign of the numerator. */
  function TruncDiv(n: int, d: int): (q: int)
    requires 0 < d
    ensures -d < n - q * d < d && (0 <= n ==> 0 <= n - q * d) && (n <= 0 ==> n - q * d <= 0)
  {
    if n >= 0 then n / d else -(-n / d)
  }

  function Abs(n: int): nat {
    if n >= 0 then n else -n
  }

  // ------------------------------------------------------------- acceleration

  datatype Acceleration = Acceleration(bias: Vec, last: Vec, curr: Vec, tsLast: int, tsCurr: int) {
    predicate Over(threshold: int) {
      Abs(curr.x) > threshold || Abs(curr.y) > threshold || Abs(curr.z) > threshold
    }
  }

  /** Readings are corrected by the bias in 16 bits. */
  function Sample(a: Acceleration, reading: Vec, now: int): Acceleration {
    var corrected := Minus(reading, a.bias);
    a.(last := a.curr, tsLast := a.tsCurr, tsCurr := now,
       curr := Vec(Wrap16(corrected.x), Wrap16(corrected.y), Wrap16(corrected.z)))
  }

  /** The constructor reads the bias and takes a first sample. */
  function FirstAcceleration(bias: Vec, reading: Vec, now: int): Acceleration {
    Sample(Acceleration(bias, Zero, Zero, 0, 0), reading, now)
  }

  /** Twice the mean acceleration over the last interval, in 16 bits. */
  function Sums(a: Acceleration): Vec {
    var sum := Plus(a.curr, a.last);
    Vec(Wrap16(sum.x), Wrap16(sum.y), Wrap16(sum.z))
  }

  /** Sums of at most 3 count as noise. */
  function NextVelocity(v: int, sum: int, duration: int): int {
    Wrap32(v + TruncDiv((if Abs(sum) > 3 then sum else 0) * duration, 2))
  }

  function NextPosition(p: int, v: int, duration: int): int {
    Wrap32(p + TruncDiv(v * duration, 100000))
  }

  function VelocityAfter(v: Vec, sum: Vec, d: int): Vec {
    Vec(NextVelocity(v.x, sum.x, d), NextVelocity(v.y, sum.y, d), NextVelocity(v.z, sum.z, d))
  }

  function PositionAfter(p: Vec, v: Vec, d: int): Vec {
    Vec(NextPosition(p.x, v.x, d), NextPosition(p.y, v.y, d), NextPosition(p.z, v.z, d))
  }

  // ------------------------------------------------------------- the machine

  datatype PositionEvent = PositionEvent(from: Vec, to: Vec, startedAt: int, endedAt: int)

  datatype Tracker = Tracker(
    release: nat,
    acceleration: Acceleration,
    gate: Gate.State,
    velocity: Vec,
    position: Vec,
    eventFrom: Option<Vec>,     // the event under construction
    startedAt: int,
    sent: seq<PositionEvent>,
    complaints: nat)                 // calls logged as unexpected

  /** The first record of an episode opens an event and starts from rest. */
  function OpenEvent(t: Tracker): Tracker {
    if t.eventFrom.None?
    then t.(eventFrom := Some(t.position), startedAt := t.acceleration.tsCurr, velocity := Zero)
    else t
  }

  function Integrate(t: Tracker): Tracker {
    var d := t.acceleration.tsCurr - t.acceleration.tsLast;
    var v := VelocityAfter(t.velocity, Sums(t.acceleration), d);
    t.(velocity := v, position := PositionAfter(t.position, v, d))
  }

  function AfterRecord(t: Tracker): Tracker {
    Integrate(OpenEvent(t))
  }

  function AfterEnd(t: Tracker): Tracker {
    match t.eventFrom
    case None => t.(complaints := t.complaints + 1)
    case Some(from) =>
      var e := PositionEvent(from, t.position, t.startedAt, t.acceleration.tsCurr);
      t.(eventFrom := None, sent := if from != t.position then t.sent + [e] else t.sent)
  }

  function Step(t: Tracker, reading: Vec, now: int): Tracker {
    var a := Sample(t.acceleration, reading, now);
    var over := a.Over(10);
    var t1 := t.(acceleration := a, gate := Gate.Next(t.release, t.gate, over));
    match Gate.Emit(t.release, t.gate, over)
    case Recorded => AfterRecord(t1)
    case Ended => AfterEnd(t1)
    case Silent => t1
  }

  function Initial(release: nat, a: Acceleration): Tracker {
    Tracker(release, a, Gate.Closed, Zero, Zero, None, 0, [], 0)
  }

  datatype Tick = Tick(reading: Vec, at: int)

  function Run(t: Tracker, ticks: seq<Tick>): Tracker {
    if ticks == [] then t
    else Step(Run(t, ticks[..|ticks| - 1]), ticks[|ticks| - 1].reading, ticks[|ticks| - 1].at)
  }

  /** A tracker as constructed: one bias reading and a first sample. */
  function Start(release: nat, bias: Vec, first: Tick): Tracker {
    Initial(release, FirstAcceleration(bias, first.reading, first.at))
  }

  /** The n-th sample, counted from the constructor's. */
  function NthSample(first: Tick, ticks: seq<Tick>, n: nat): Tick
    requires n <= |ticks|
  {
    if n == 0 then first else ticks[n - 1]
  }

  /** Over every run the last two samples are the last two readings, the first sample included, each
      less the bias in 16 bits, with their times. */
  lemma {:induction false} RunSamples(release: nat, bias: Vec, first: Tick, ticks: seq<Tick>)
    ensures var a, n := Run(Start(release, bias, first), ticks).acceleration, |ticks|;
            && a.bias == bias
            && a.curr == Corrected(bias, NthSample(first, ticks, n).reading)
            && a.tsCurr == NthSample(first, ticks, n).at
            && (0 < n ==> a.last == Corrected(bias, NthSample(first, ticks, n - 1).reading)
                          && a.tsLast == NthSample(first, ticks, n - 1).at)
  {
    if ticks != [] {
      var n := |ticks| - 1;
      RunSamples(release, bias, first, ticks[..n]);
      StepSamples(Run(Start(release, bias, first), ticks[..n]), ticks[n].reading, ticks[n].at);
      assert NthSample(first, ticks, n) == NthSample(first, ticks[..n], n);
    }
  }

  lemma StepSamples(t: Tracker, reading: Vec, now: int)
    ensures var a, a' := t.acceleration, Step(t, reading, now).acceleration;
            && a'.bias == a.bias && a'.curr == Corrected(a.bias, reading) && a'.tsCurr == now
            && a'.last == a.curr && a'.tsLast == a.tsCurr
  {
  }

  function Corrected(bias: Vec, reading: Vec): Vec {
    Vec(Wrap16(reading.x - bias.x), Wrap16(reading.y - bias.y), Wrap16(reading.z - bias.z))
  }

  // ------------------------------------------------------------- the classes

  datatype GateState = Opened | Closing | Closed

  /** The gate as the device keeps it: a state and a counter of its own, which holds a leftover
      value whenever the state is not closing. */
  class NoiseGate {
    const releaseCount: nat
    var state: GateState
    var remainingReleaseCount: nat

    function View(): Gate.State
      reads this
    {
      match state
      case Opened => Gate.Open
      case Closing => Gate.Closing(remainingReleaseCount)
      case Closed => Gate.Closed
    }

    constructor (releaseCount: nat)
      ensures this.releaseCount == releaseCount && View() == Gate.Closed
    {
      this.releaseCount, state, remainingReleaseCount := releaseCount, Closed, 0;
    }

    predicate IsOpened()
      reads this
      ensures IsOpened() == View().IsOpen()
    {
      state.Opened? || state.Closing?
    }

    method NextState(overThreshold: bool)
      modifies this
      ensures View() == Gate.Next(releaseCount, old(View()), overThreshold)
    {
      match state
      case Opened =>
        if !overThreshold {
          state := Closing;
          remainingReleaseCount := releaseCount;
        }
      case Closing =>
        if overThreshold {
          state := Opened;
        } else if remainingReleaseCount == 0 {
          state := Closed;
        } else {
          remainingReleaseCount := remainingReleaseCount - 1;
        }
      case Closed =>
        if overThreshold {
          state := Opened;
        }
    }

    /** The call the sink is to receive. */
    method Process(overThreshold: bool) returns (signal: Gate.Signal)
      modifies this
      ensures View() == Gate.Next(releaseCount, old(View()), overThreshold)
      ensures signal == Gate.Emit(releaseCount, old(View()), overThreshold)
    {
      var wasOpen := IsOpened();
      NextState(overThreshold);
      signal := if IsOpened() then Gate.Recorded else if wasOpen then Gate.Ended else Gate.Silent;
    }
  }

  class Device {
    const gate: NoiseGate
    var acceleration: Acceleration
    var velocity: Vec
    var position: Vec
    var eventFrom: Option<Vec>
    var startedAt: int
    var sent: seq<PositionEvent>
    var complaints: nat

    function View(): Tracker
      reads this, gate
    {
      Tracker(gate.releaseCount, acceleration, gate.View(), velocity, position, eventFrom, startedAt, sent, complaints)
    }

    constructor (release: nat, bias: Vec, reading: Vec, now: int)
      ensures fresh(gate)
      ensures View() == Initial(release, FirstAcceleration(bias, reading, now))
    {
      gate := new NoiseGate(release);
      acceleration := FirstAcceleration(bias, reading, now);
      velocity, position, eventFrom, startedAt, sent, complaints := Zero, Zero, None, 0, [], 0;
    }

    method Record()
      modifies this`velocity, this`position, this`eventFrom, this`startedAt
      ensures View() == AfterRecord(old(View()))
    {
      if eventFrom.None? {
        startedAt := acceleration.tsCurr;
        eventFrom := Some(position);
        velocity := Zero;
      }
      assert View() == OpenEvent(old(View()));
      ApplyVelocityAndPosition();
    }

    method ApplyVelocityAndPosition()
      modifies this`velocity, this`position
      ensures View() == Integrate(old(View()))
    {
      var duration := acceleration.tsCurr - acceleration.tsLast;
      var sum := Sums(acceleration);
      velocity := velocity.(x := NextVelocity(velocity.x, sum.x, duration));
      velocity := velocity.(y := NextVelocity(velocity.y, sum.y, duration));
      velocity := velocity.(z := NextVelocity(velocity.z, sum.z, duration));
      position := position.(x := NextPosition(position.x, velocity.x, duration));
      position := position.(y := NextPosition(position.y, velocity.y, duration));
      position := position.(z := NextPosition(position.z, velocity.z, duration));
    }

    method EndOfRecord()
      modifies this`eventFrom, this`sent, this`complaints
      ensures View() == AfterEnd(old(View()))
    {
      if eventFrom.None? {
        complaints := complaints + 1;
        return;
      }
      var from := eventFrom.value;
      if from != position {
        sent := sent + [PositionEvent(from, position, startedAt, acceleration.tsCurr)];
      }
      eventFrom := None;
    }

    method SampleCallback(reading: Vec, now: int)
      modifies this, gate
      ensures View() == Step(old(View()), reading, now)
    {
      acceleration := Sample(acceleration, reading, now);
      var signal := gate.Process(acceleration.Over(10));
      match signal
      case Recorded => Record();
      case Ended => EndOfRecord();
      case Silent =>
    }
  }

  // ------------------------------------------------------------- the events chain

  /** Where the next event to be sent will start. */
  function Base(t: Tracker): Vec {
    if t.eventFrom.Some? then t.eventFrom.value else t.position
  }

  function EndOf(sent: seq<PositionEvent>): Vec {
    if sent == [] then Zero else sent[|sent| - 1].to
  }

  /** The events follow one another from the origin on without a gap, and each of them moves. */
  ghost predicate Chained(sent: seq<PositionEvent>) {
    sent == [] ||
    var front, e := sent[..|sent| - 1], sent[|sent| - 1];
    Chained(front) && e.from == EndOf(front) && e.from != e.to
  }

  function TotalDifference(sent: seq<PositionEvent>): Vec {
    if sent == [] then Zero
    else Plus(TotalDifference(sent[..|sent| - 1]), Minus(sent[|sent| - 1].to, sent[|sent| - 1].from))
  }

  lemma {:induction false} ChainTelescopes(sent: seq<PositionEvent>)
    requires Chained(sent)
    ensures TotalDifference(sent) == EndOf(sent)
  {
    if sent != [] {
      ChainTelescopes(sent[..|sent| - 1]);
    }
  }

  lemma {:induction false} ChainLinks(sent: seq<PositionEvent>, i: nat)
    requires Chained(sent) && i < |sent|
    ensures sent[i].from == if i == 0 then Zero else sent[i - 1].to
    ensures sent[i].from != sent[i].to
  {
    if i < |sent| - 1 {
      ChainLinks(sent[..|sent| - 1], i);
    }
  }

  /** An event is under construction exactly while the gate is open, nothing unexpected was ever
      called, and the events sent so far lead to where the next one will start. */
  ghost predicate Consistent(t: Tracker) {
    && (t.eventFrom.Some? <==> t.gate.IsOpen())
    && t.complaints == 0
    && Chained(t.sent)
    && Base(t) == EndOf(t.sent)
  }

  lemma StepConsistent(t: Tracker, reading: Vec, now: int)
    requires Consistent(t)
    ensures Consistent(Step(t, reading, now))
  {
    var sent := Step(t, reading, now).sent;
    if |sent| == |t.sent| + 1 {
      assert sent[..|t.sent|] == t.sent;
    }
  }

  /** Over every run: nothing unexpected is ever called, the first event starts at the origin, each
      later one where the previous one ended although episodes without net movement are not sent,
      and whenever the gate is closed all events together add up to the current position. */
  lemma EventsChain(release: nat, a: Acceleration, ticks: seq<Tick>)
    ensures var t := Run(Initial(release, a), ticks);
            && t.complaints == 0
            && (forall i: nat :: i < |t.sent| ==> t.sent[i].from == EndOf(t.sent[..i]) != t.sent[i].to)
            && (!t.gate.IsOpen() ==> TotalDifference(t.sent) == t.position)
  {
    RunConsistent(release, a, ticks);
    var t := Run(Initial(release, a), ticks);
    forall i: nat | i < |t.sent| ensures t.sent[i].from == EndOf(t.sent[..i]) != t.sent[i].to {
      ChainLinks(t.sent, i);
    }
    ChainTelescopes(t.sent);
  }

  lemma {:induction false} RunConsistent(release: nat, a: Acceleration, ticks: seq<Tick>)
    ensures Consistent(Run(Initial(release, a), ticks))
  {
    if ticks != [] {
      var n := |ticks| - 1;
      RunConsistent(release, a, ticks[..n]);
      StepConsistent(Run(Initial(release, a), ticks[..n]), ticks[n].reading, ticks[n].at);
    }
  }

  // ------------------------------------------------------------- the events' times

  ghost predicate ClockForward(start: int, ticks: seq<Tick>) {
    && (forall i :: 0 <= i < |ticks| ==> start <= ticks[i].at)
    && (forall i, j :: 0 <= i < j < |ticks| ==> ticks[i].at <= ticks[j].at)
  }

  /** Every event starts before it ends, and after the one before it has ended. */
  ghost predicate InOrder(sent: seq<PositionEvent>, now: int) {
    && (forall i :: 0 <= i < |sent| ==> sent[i].startedAt <= sent[i].endedAt <= now)
    && (forall i :: 0 < i < |sent| ==> sent[i - 1].endedAt <= sent[i].startedAt)
  }

  ghost predicate Timely(t: Tracker) {
    && InOrder(t.sent, t.acceleration.tsCurr)
    && (t.eventFrom.Some? ==> t.startedAt <= t.acceleration.tsCurr && InOrder(t.sent, t.startedAt))
  }

  lemma StepTimely(t: Tracker, reading: Vec, now: int)
    requires Timely(t) && t.acceleration.tsCurr <= now
    ensures Timely(Step(t, reading, now)) && Step(t, reading, now).acceleration.tsCurr == now
  {
  }

  lemma {:induction false} EventsInOrder(release: nat, a: Acceleration, ticks: seq<Tick>)
    requires ClockForward(a.tsCurr, ticks)
    ensures var t := Run(Initial(release, a), ticks);
            && Timely(t)
            && t.acceleration.tsCurr == (if ticks == [] then a.tsCurr else ticks[|ticks| - 1].at)
  {
    if ticks != [] {
      var n := |ticks| - 1;
      EventsInOrder(release, a, ticks[..n]);
      StepTimely(Run(Initial(release, a), ticks[..n]), ticks[n].reading, ticks[n].at);
    }
  }
}
