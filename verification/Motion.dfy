/** How far an episode of the position tracker can get, and why its machine integers suffice. */
module Motion {
  import opened Vectors
  import opened PositionTracker

  predicate Within(v: Vec, bound: nat) {
    Abs(v.x) <= bound && Abs(v.y) <= bound && Abs(v.z) <= bound
  }

  /** A sensor whose readings, and so whose bias, stay below 2000 in magnitude. */
  predicate Calm(ticks: seq<Tick>) {
    forall i :: 0 <= i < |ticks| ==> Within(ticks[i].reading, 1999)
  }

  predicate SampledCalmly(a: Acceleration) {
    Within(a.bias, 1999) && Within(a.curr, 3998) && Within(a.last, 3998)
  }

  /** No 16-bit operation overflows: the correction and the sums are the plain integers. */
  lemma SampleExact(a: Acceleration, reading: Vec, now: int)
    requires SampledCalmly(a) && Within(reading, 1999)
    ensures var a' := Sample(a, reading, now);
            && SampledCalmly(a')
            && a'.curr == Minus(reading, a.bias)
            && Sums(a') == Plus(a'.curr, a'.last)
            && Within(Sums(a'), 7996)
  {
  }

  // ------------------------------------------------------------- without machine integers

  function PlainVelocity(v: int, sum: int, d: int): int {
    v + TruncDiv((if Abs(sum) > 3 then sum else 0) * d, 2)
  }

  function PlainPosition(p: int, v: int, d: int): int {
    p + TruncDiv(v * d, 100000)
  }

  /** Velocity and position in unbounded integers. */
  datatype Course = Course(velocity: Vec, position: Vec)

  function PlainVelocities(v: Vec, s: Vec, d: int): Vec {
    Vec(PlainVelocity(v.x, s.x, d), PlainVelocity(v.y, s.y, d), PlainVelocity(v.z, s.z, d))
  }

  function PlainPositions(p: Vec, v: Vec, d: int): Vec {
    Vec(PlainPosition(p.x, v.x, d), PlainPosition(p.y, v.y, d), PlainPosition(p.z, v.z, d))
  }

  /** `sum` is twice the mean acceleration over the `d` milliseconds. */
  function Advance(c: Course, sum: Vec, d: int): Course {
    var v := PlainVelocities(c.velocity, sum, d);
    Course(v, PlainPositions(c.position, v, d))
  }

  /** From one sample to the next. */
  function Proceed(c: Course, bias: Vec, earlier: Tick, later: Tick): Course {
    Advance(c, Plus(Minus(later.reading, bias), Minus(earlier.reading, bias)), later.at - earlier.at)
  }

  // ------------------------------------------------------------- one axis

  lemma ProductBound(a: int, b: nat, bound: nat)
    requires Abs(a) <= bound
    ensures Abs(a * b) <= bound * b
  {
    if a >= 0 {
      assert a * b <= bound * b;
    } else {
      assert -a * b <= bound * b;
    }
  }

  lemma HalfBound(n: int, bound: nat)
    requires Abs(n) <= 2 * bound
    ensures Abs(TruncDiv(n, 2)) <= bound
  {
  }

  lemma ScaleBound(n: int)
    ensures 100000 * Abs(TruncDiv(n, 100000)) <= Abs(n)
  {
  }

  /** A velocity within its bound stays within it, and the addition is exact. */
  lemma VelocityBound(v: int, sum: int, elapsed: nat, d: nat)
    requires Abs(v) <= 3998 * elapsed && Abs(sum) <= 7996 && elapsed + d <= 537139
    ensures var v' := NextVelocity(v, sum, d);
            && v' == PlainVelocity(v, sum, d)
            && Abs(v') <= 3998 * (elapsed + d)
  {
    var felt := if Abs(sum) > 3 then sum else 0;
    ProductBound(felt, d, 7996);
    HalfBound(felt * d, 3998 * d);
  }

  /** Twice the area under a speed that grows by one every millisecond and is held at its value at the
      end of each interval, when intervals last at most `gap`. */
  function Reach(elapsed: nat, gap: nat): nat {
    elapsed * (elapsed + if gap < elapsed then gap else elapsed)
  }

  lemma Spread(a: nat, d: nat, g: nat)
    requires d <= g
    ensures a * (a + g) + 2 * ((a + d) * d) <= (a + d) * (a + d + g)
  {
    ProductBound(d, d, g);
    assert (a + d) * (a + d + g) == a * (a + g) + 2 * (a * d) + d * d + d * g;
    assert (a + d) * d == a * d + d * d;
  }

  lemma ProductGrows(a: nat, b: nat, c: nat)
    requires b <= c
    ensures a * b <= a * c
  {
  }

  lemma ReachGrows(elapsed: nat, d: nat, gap: nat)
    requires d <= gap
    ensures Reach(elapsed, gap) + 2 * ((elapsed + d) * d) <= Reach(elapsed + d, gap)
  {
    if gap < elapsed + d {
      Spread(elapsed, d, gap);
      ProductGrows(elapsed, elapsed + (if gap < elapsed then gap else elapsed), elapsed + gap);
    } else {
      Doubled(elapsed, d);
    }
  }

  lemma Doubled(a: nat, d: nat)
    ensures a * (a + a) + 2 * ((a + d) * d) <= (a + d) * (a + d + (a + d))
  {
    assert (a + d) * (a + d + (a + d)) == 2 * ((a + d) * (a + d));
    assert (a + d) * (a + d) == a * a + a * d + (a + d) * d;
  }

  lemma ReachMonotone(elapsed: nat, longer: nat, gap: nat)
    requires elapsed <= longer
    ensures Reach(elapsed, gap) <= Reach(longer, gap)
  {
    var m := if gap < elapsed then gap else elapsed;
    var n := if gap < longer then gap else longer;
    ProductGrows(elapsed, elapsed + m, longer + n);
    ProductBound(elapsed, longer + n, longer);
  }

  /** The position has room for `elapsed` milliseconds of an episode that starts at `from`. */
  predicate Room(from: int, elapsed: nat, gap: nat) {
    200000 * Abs(from) + 3998 * Reach(elapsed, gap) <= 200000 * 0x7fff_ffff
  }

  lemma PositionBound(p: int, from: int, v: int, elapsed: nat, d: nat, gap: nat)
    requires d <= gap
    requires 200000 * Abs(p - from) <= 3998 * Reach(elapsed, gap)
    requires Abs(v) <= 3998 * (elapsed + d) && Room(from, elapsed + d, gap)
    ensures var p' := NextPosition(p, v, d);
            && p' == PlainPosition(p, v, d)
            && 200000 * Abs(p' - from) <= 3998 * Reach(elapsed + d, gap)
  {
    ProductBound(v, d, 3998 * (elapsed + d));
    ScaleBound(v * d);
    Regroup(elapsed + d, d);
    ReachGrows(elapsed, d, gap);
    var p' := p + TruncDiv(v * d, 100000);
    assert Abs(p' - from) <= Abs(p - from) + Abs(TruncDiv(v * d, 100000));
    assert Abs(p') <= Abs(from) + Abs(p' - from);
  }

  lemma Regroup(t: nat, d: nat)
    ensures 3998 * t * d == 3998 * (t * d)
  {
  }

  /** From the origin there is room for 327746 milliseconds when samples are at most 30 milliseconds
      apart, and for 231762 however far they are; from elsewhere for no more. */
  lemma RoomLimit(from: int, elapsed: nat, gap: nat)
    ensures Room(0, elapsed, 30) <==> elapsed <= 327746
    ensures elapsed <= gap ==> (Room(0, elapsed, gap) <==> elapsed <= 231762)
    ensures Room(from, elapsed, gap) ==> Room(0, elapsed, gap) && elapsed <= 327761
  {
    if elapsed <= 327746 {
      ReachMonotone(elapsed, 327746, 30);
    } else {
      ReachMonotone(327747, elapsed, 30);
    }
    if elapsed <= 231762 {
      SquareGrows(elapsed, 231762);
    } else {
      SquareGrows(231763, elapsed);
    }
    if 327762 <= elapsed {
      SquareGrows(327762, elapsed);
      ProductGrows(elapsed, elapsed, elapsed + if gap < elapsed then gap else elapsed);
    }
    TwiceSquare(elapsed);
  }

  lemma TwiceSquare(a: nat)
    ensures a * (a + a) == 2 * (a * a)
  {
  }

  lemma SquareGrows(a: nat, b: nat)
    requires a <= b
    ensures a * a <= b * b
  {
  }

  // ------------------------------------------------------------- an episode

  /** No component of the position is further from `from` than `elapsed` milliseconds allow. */
  predicate Near(p: Vec, from: Vec, elapsed: nat, gap: nat) {
    && 200000 * Abs(p.x - from.x) <= 3998 * Reach(elapsed, gap)
    && 200000 * Abs(p.y - from.y) <= 3998 * Reach(elapsed, gap)
    && 200000 * Abs(p.z - from.z) <= 3998 * Reach(elapsed, gap)
  }

  predicate RoomFor(from: Vec, elapsed: nat, gap: nat) {
    Room(from.x, elapsed, gap) && Room(from.y, elapsed, gap) && Room(from.z, elapsed, gap)
  }

  lemma RoomForShrinks(from: Vec, elapsed: nat, longer: nat, gap: nat)
    requires RoomFor(from, longer, gap) && elapsed <= longer
    ensures RoomFor(from, elapsed, gap) && longer <= 537139
  {
    ReachMonotone(elapsed, longer, gap);
    RoomLimit(from.x, longer, gap);
  }

  lemma IntegrateVelocity(t: Tracker, elapsed: nat, d: nat)
    requires SampledCalmly(t.acceleration) && d == t.acceleration.tsCurr - t.acceleration.tsLast
    requires Within(t.velocity, 3998 * elapsed) && elapsed + d <= 537139
    ensures Within(Integrate(t).velocity, 3998 * (elapsed + d))
    ensures Integrate(t).velocity == PlainVelocities(t.velocity, Sums(t.acceleration), d)
  {
    var s, v := Sums(t.acceleration), t.velocity;
    VelocityBound(v.x, s.x, elapsed, d);
    VelocityBound(v.y, s.y, elapsed, d);
    VelocityBound(v.z, s.z, elapsed, d);
  }

  lemma IntegratePosition(t: Tracker, from: Vec, elapsed: nat, d: nat, gap: nat)
    requires d == t.acceleration.tsCurr - t.acceleration.tsLast && d <= gap
    requires Near(t.position, from, elapsed, gap) && RoomFor(from, elapsed + d, gap)
    requires Within(Integrate(t).velocity, 3998 * (elapsed + d))
    ensures Near(Integrate(t).position, from, elapsed + d, gap)
    ensures Integrate(t).position == PlainPositions(t.position, Integrate(t).velocity, d)
  {
    var p, v' := t.position, Integrate(t).velocity;
    PositionBound(p.x, from.x, v'.x, elapsed, d, gap);
    PositionBound(p.y, from.y, v'.y, elapsed, d, gap);
    PositionBound(p.z, from.z, v'.z, elapsed, d, gap);
  }

  /** The time of the sample before the current episode, kept while the gate is open. */
  function EpisodeBase(release: nat, bias: Vec, first: Tick, ticks: seq<Tick>): int {
    if ticks == [] then first.at
    else
      var n := |ticks| - 1;
      if Run(Start(release, bias, first), ticks[..n]).gate.IsOpen() then EpisodeBase(release, bias, first, ticks[..n])
      else NthSample(first, ticks, n).at
  }

  /** The current episode in unbounded integers: from rest, at the position before it, sample by sample. */
  function EpisodeCourse(release: nat, bias: Vec, first: Tick, ticks: seq<Tick>): Course {
    if ticks == [] then Course(Zero, Zero)
    else
      var n := |ticks| - 1;
      var before := Run(Start(release, bias, first), ticks[..n]);
      Proceed(if before.gate.IsOpen() then EpisodeCourse(release, bias, first, ticks[..n])
              else Course(Zero, before.position),
              bias, NthSample(first, ticks, n), ticks[n])
  }

  /** An episode that began after the sample at `base` has kept its bounds and its course: the velocity
      as long as its time limit allows, the position as long as it has room. */
  ghost predicate InEpisode(t: Tracker, base: int, course: Course, gap: nat) {
    && t.eventFrom.Some?
    && base <= t.startedAt <= t.acceleration.tsCurr && t.startedAt <= base + gap
    && var elapsed := t.acceleration.tsCurr - base;
       && (elapsed <= 537139 ==> Within(t.velocity, 3998 * elapsed) && t.velocity == course.velocity)
       && (RoomFor(t.eventFrom.value, elapsed, gap) ==>
             Near(t.position, t.eventFrom.value, elapsed, gap) && t.position == course.position)
  }

  lemma IntegrateInEpisode(t: Tracker, base: int, course: Course, gap: nat)
    requires SampledCalmly(t.acceleration) && Sums(t.acceleration) == Plus(t.acceleration.curr, t.acceleration.last)
    requires base <= t.acceleration.tsLast <= t.acceleration.tsCurr <= t.acceleration.tsLast + gap
    requires t.eventFrom.Some? && base <= t.startedAt <= t.acceleration.tsCurr && t.startedAt <= base + gap
    requires var elapsed := t.acceleration.tsLast - base;
             && (elapsed <= 537139 ==> Within(t.velocity, 3998 * elapsed) && t.velocity == course.velocity)
             && (RoomFor(t.eventFrom.value, elapsed, gap) ==>
                   Near(t.position, t.eventFrom.value, elapsed, gap) && t.position == course.position)
    ensures InEpisode(Integrate(t), base,
                      Advance(course, Sums(t.acceleration), t.acceleration.tsCurr - t.acceleration.tsLast), gap)
  {
    var elapsed, d := t.acceleration.tsLast - base, t.acceleration.tsCurr - t.acceleration.tsLast;
    var from := t.eventFrom.value;
    if RoomFor(from, elapsed + d, gap) {
      RoomForShrinks(from, elapsed, elapsed + d, gap);
    }
    if elapsed + d <= 537139 {
      IntegrateVelocity(t, elapsed, d);
      if RoomFor(from, elapsed + d, gap) {
        IntegratePosition(t, from, elapsed, d, gap);
      }
    }
  }

  lemma SampleSums(a: Acceleration, reading: Vec, now: int)
    requires SampledCalmly(a) && Within(reading, 1999)
    ensures var a' := Sample(a, reading, now);
            && SampledCalmly(a') && a'.tsCurr == now && a'.tsLast == a.tsCurr
            && Sums(a') == Plus(a'.curr, a'.last) == Plus(Minus(reading, a.bias), a.curr)
  {
    SampleExact(a, reading, now);
  }

  lemma StepInEpisode(t: Tracker, reading: Vec, now: int, base: int, course: Course, gap: nat)
    requires Consistent(t) && SampledCalmly(t.acceleration) && Within(reading, 1999)
    requires t.acceleration.tsCurr <= now <= t.acceleration.tsCurr + gap
    requires if t.gate.IsOpen() then InEpisode(t, base, course, gap)
             else base == t.acceleration.tsCurr && course == Course(Zero, t.position)
    requires Step(t, reading, now).gate.IsOpen()
    ensures InEpisode(Step(t, reading, now), base,
                      Advance(course, Plus(Minus(reading, t.acceleration.bias), t.acceleration.curr),
                              now - t.acceleration.tsCurr), gap)
  {
    SampleSums(t.acceleration, reading, now);
    var a := Sample(t.acceleration, reading, now);
    var open := OpenEvent(t.(acceleration := a, gate := Step(t, reading, now).gate));
    assert Step(t, reading, now) == Integrate(open);
    IntegrateInEpisode(open, base, course, gap);
  }

  /** How far a sent event can reach, told by its own times. */
  ghost predicate EventNear(e: PositionEvent, gap: nat) {
    && e.startedAt <= e.endedAt
    && var longest := e.endedAt - e.startedAt + gap;
       RoomFor(e.from, longest, gap) ==> Near(e.to, e.from, longest, gap)
  }

  ghost predicate EventsNear(sent: seq<PositionEvent>, gap: nat) {
    forall i :: 0 <= i < |sent| ==> EventNear(sent[i], gap)
  }

  ghost predicate EpisodeKnown(t: Tracker, base: int, course: Course, gap: nat) {
    SampledCalmly(t.acceleration) && EventsNear(t.sent, gap) && (t.gate.IsOpen() ==> InEpisode(t, base, course, gap))
  }

  lemma EndNear(t: Tracker, base: int, course: Course, gap: nat, now: int)
    requires InEpisode(t, base, course, gap) && t.acceleration.tsCurr <= now
    ensures EventNear(PositionEvent(t.eventFrom.value, t.position, t.startedAt, now), gap)
  {
    var elapsed, longest := t.acceleration.tsCurr - base, now - t.startedAt + gap;
    if RoomFor(t.eventFrom.value, longest, gap) {
      RoomForShrinks(t.eventFrom.value, elapsed, longest, gap);
      ReachMonotone(elapsed, longest, gap);
    }
  }

  lemma StepEventsNear(t: Tracker, tick: Tick, base: int, course: Course, gap: nat)
    requires Consistent(t) && EpisodeKnown(t, base, course, gap) && t.acceleration.tsCurr <= tick.at
    ensures EventsNear(Step(t, tick.reading, tick.at).sent, gap)
  {
    if t.gate.IsOpen() {
      EndNear(t, base, course, gap, tick.at);
    }
  }

  lemma StepKnown(t: Tracker, tick: Tick, base: int, course: Course, gap: nat)
    requires Consistent(t) && EpisodeKnown(t, base, course, gap)
    requires Within(tick.reading, 1999) && t.acceleration.tsCurr <= tick.at <= t.acceleration.tsCurr + gap
    ensures EpisodeKnown(Step(t, tick.reading, tick.at), if t.gate.IsOpen() then base else t.acceleration.tsCurr,
                         Advance(if t.gate.IsOpen() then course else Course(Zero, t.position),
                                 Plus(Minus(tick.reading, t.acceleration.bias), t.acceleration.curr),
                                 tick.at - t.acceleration.tsCurr), gap)
  {
    SampleExact(t.acceleration, tick.reading, tick.at);
    StepEventsNear(t, tick, base, course, gap);
    if Step(t, tick.reading, tick.at).gate.IsOpen() {
      StepInEpisode(t, tick.reading, tick.at,
                    if t.gate.IsOpen() then base else t.acceleration.tsCurr,
                    if t.gate.IsOpen() then course else Course(Zero, t.position), gap);
    }
  }

  /** Samples are at most `gap` milliseconds apart, and the clock does not run backwards. */
  ghost predicate Spaced(start: int, ticks: seq<Tick>, gap: nat) {
    && ClockForward(start, ticks)
    && (forall i :: 0 <= i < |ticks| ==> ticks[i].at <= TimeBefore(start, ticks, i) + gap)
  }

  function TimeBefore(start: int, ticks: seq<Tick>, i: nat): int
    requires i <= |ticks|
  {
    if i == 0 then start else ticks[i - 1].at
  }

  lemma SpacedFront(start: int, ticks: seq<Tick>, gap: nat)
    requires Spaced(start, ticks, gap) && ticks != []
    ensures Spaced(start, ticks[..|ticks| - 1], gap)
    ensures ticks[|ticks| - 1].at <= TimeBefore(start, ticks, |ticks| - 1) + gap
  {
    var n := |ticks| - 1;
    forall i | 0 <= i < n ensures ticks[..n][i].at <= TimeBefore(start, ticks[..n], i) + gap {
      assert ticks[i].at <= TimeBefore(start, ticks, i) + gap;
    }
  }

  /** The last sample is the plain difference. */
  ghost predicate LastSample(a: Acceleration, bias: Vec, last: Tick) {
    a.bias == bias && a.curr == Minus(last.reading, bias) && a.tsCurr == last.at
  }

  lemma CalmSample(release: nat, bias: Vec, first: Tick, ticks: seq<Tick>)
    requires Within(bias, 1999) && Within(first.reading, 1999) && Calm(ticks)
    ensures LastSample(Run(Start(release, bias, first), ticks).acceleration, bias, NthSample(first, ticks, |ticks|))
  {
    RunSamples(release, bias, first, ticks);
    assert Within(NthSample(first, ticks, |ticks|).reading, 1999);
  }

  ghost predicate RunKnown(release: nat, bias: Vec, first: Tick, ticks: seq<Tick>, gap: nat) {
    EpisodeKnown(Run(Start(release, bias, first), ticks), EpisodeBase(release, bias, first, ticks),
                 EpisodeCourse(release, bias, first, ticks), gap)
  }

  lemma {:induction false} CourseUnfolds(release: nat, bias: Vec, first: Tick, ticks: seq<Tick>)
    requires ticks != []
    ensures var n := |ticks| - 1;
            var t, last := Run(Start(release, bias, first), ticks[..n]), NthSample(first, ticks, n);
            && EpisodeBase(release, bias, first, ticks)
               == (if t.gate.IsOpen() then EpisodeBase(release, bias, first, ticks[..n]) else last.at)
            && EpisodeCourse(release, bias, first, ticks)
               == Proceed(if t.gate.IsOpen() then EpisodeCourse(release, bias, first, ticks[..n])
                          else Course(Zero, t.position), bias, last, ticks[n])
  {
  }

  lemma ProceedKnown(t: Tracker, bias: Vec, last: Tick, tick: Tick, base: int, course: Course, gap: nat)
    requires Consistent(t) && LastSample(t.acceleration, bias, last) && EpisodeKnown(t, base, course, gap)
    requires Within(tick.reading, 1999) && last.at <= tick.at <= last.at + gap
    ensures EpisodeKnown(Step(t, tick.reading, tick.at), if t.gate.IsOpen() then base else last.at,
                         Proceed(if t.gate.IsOpen() then course else Course(Zero, t.position), bias, last, tick), gap)
  {
    StepKnown(t, tick, base, course, gap);
  }

  lemma {:induction false} NextInEpisode(release: nat, bias: Vec, first: Tick, ticks: seq<Tick>, gap: nat)
    requires ticks != []
    requires var n := |ticks| - 1;
             var t, last := Run(Start(release, bias, first), ticks[..n]), NthSample(first, ticks, n);
             && LastSample(t.acceleration, bias, last) && Consistent(t)
             && RunKnown(release, bias, first, ticks[..n], gap)
             && Within(ticks[n].reading, 1999) && last.at <= ticks[n].at <= last.at + gap
    ensures RunKnown(release, bias, first, ticks, gap)
  {
    var n := |ticks| - 1;
    CourseUnfolds(release, bias, first, ticks);
    ProceedKnown(Run(Start(release, bias, first), ticks[..n]), bias, NthSample(first, ticks, n), ticks[n],
                 EpisodeBase(release, bias, first, ticks[..n]), EpisodeCourse(release, bias, first, ticks[..n]), gap);
  }

  lemma {:induction false} RunInEpisode(release: nat, bias: Vec, first: Tick, ticks: seq<Tick>, gap: nat)
    requires Within(bias, 1999) && Within(first.reading, 1999) && Calm(ticks) && Spaced(first.at, ticks, gap)
    ensures RunKnown(release, bias, first, ticks, gap)
  {
    FirstIsCalm(bias, first.reading, first.at);
    if ticks != [] {
      var n := |ticks| - 1;
      SpacedFront(first.at, ticks, gap);
      RunInEpisode(release, bias, first, ticks[..n], gap);
      RunConsistent(release, FirstAcceleration(bias, first.reading, first.at), ticks[..n]);
      CalmSample(release, bias, first, ticks[..n]);
      assert NthSample(first, ticks, n) == NthSample(first, ticks[..n], n);
      assert NthSample(first, ticks, n).at == TimeBefore(first.at, ticks, n) <= ticks[n].at;
      NextInEpisode(release, bias, first, ticks, gap);
    }
  }

  lemma FirstIsCalm(bias: Vec, reading: Vec, now: int)
    requires Within(bias, 1999) && Within(reading, 1999)
    ensures SampledCalmly(FirstAcceleration(bias, reading, now))
    ensures FirstAcceleration(bias, reading, now).tsCurr == now
  {
    SampleExact(Acceleration(bias, Zero, Zero, 0, 0), reading, now);
  }

  /** Over every run with calm readings at most `gap` milliseconds apart: T milliseconds after the
      sample before the episode the velocity is that of unbounded integers and no component exceeds
      3998 T, provided T is at most 537139; the position is that of unbounded integers and no
      displacement exceeds 3998 T (T + gap) / 200000, provided the position has that much room.  The
      latter holds of every event that was sent, too. */
  lemma EpisodeBounds(release: nat, bias: Vec, first: Tick, ticks: seq<Tick>, gap: nat)
    requires Within(bias, 1999) && Within(first.reading, 1999) && Calm(ticks) && Spaced(first.at, ticks, gap)
    ensures var t := Run(Start(release, bias, first), ticks);
            && (t.gate.IsOpen() ==>
                  InEpisode(t, EpisodeBase(release, bias, first, ticks), EpisodeCourse(release, bias, first, ticks), gap))
            && EventsNear(t.sent, gap)
  {
    RunInEpisode(release, bias, first, ticks, gap);
  }

  /** Whatever the intervals, some gap will do; so displacements are at most 3998 T^2 / 100000. */
  lemma SomeGapWillDo(start: int, ticks: seq<Tick>, elapsed: nat) returns (gap: nat)
    requires ClockForward(start, ticks)
    ensures Spaced(start, ticks, gap)
    ensures elapsed <= gap && Reach(elapsed, gap) == 2 * (elapsed * elapsed)
  {
    gap := elapsed + if ticks == [] then 0 else ticks[|ticks| - 1].at - start;
    forall i | 0 <= i < |ticks|
      ensures ticks[i].at <= TimeBefore(start, ticks, i) + gap
    {
      assert ticks[i].at <= ticks[|ticks| - 1].at;
    }
    TwiceSquare(elapsed);
  }

  // ------------------------------------------------------------- the integrals

  function Times(v: Vec, d: int): Vec {
    Vec(v.x * d, v.y * d, v.z * d)
  }

  /** What the current episode adds up without rounding: its samples, where it began, twice the area
      under the acceleration by the trapezoid rule, and the path at the velocities of the course. */
  datatype Ideal = Ideal(samples: nat, from: Vec, twiceArea: Vec, path: Vec)

  function EpisodeIdeal(release: nat, bias: Vec, first: Tick, ticks: seq<Tick>): Ideal {
    if ticks == [] then Ideal(0, Zero, Zero, Zero)
    else
      var n := |ticks| - 1;
      var before := Run(Start(release, bias, first), ticks[..n]);
      Extended(if before.gate.IsOpen() then EpisodeIdeal(release, bias, first, ticks[..n])
               else Ideal(0, before.position, Zero, Zero),
               bias, NthSample(first, ticks, n), ticks[n], EpisodeCourse(release, bias, first, ticks).velocity)
  }

  function Extended(i: Ideal, bias: Vec, earlier: Tick, later: Tick, velocity: Vec): Ideal {
    var d := later.at - earlier.at;
    Ideal(i.samples + 1, i.from,
          Plus(i.twiceArea, Times(Plus(Minus(later.reading, bias), Minus(earlier.reading, bias)), d)),
          Plus(i.path, Times(velocity, d)))
  }

  lemma VelocityDrift(v: int, area: int, sum: int, d: nat, drift: nat)
    requires Abs(2 * v - area) <= drift
    ensures Abs(2 * PlainVelocity(v, sum, d) - (area + sum * d)) <= drift + 3 * d + 1
  {
    if Abs(sum) <= 3 {
      ProductBound(sum, d, 3);
      assert 0 * d == 0;
    }
  }

  lemma PositionDrift(p: int, from: int, path: int, v: int, d: int, samples: nat)
    requires Abs(100000 * (p - from) - path) <= 99999 * samples
    ensures Abs(100000 * (PlainPosition(p, v, d) - from) - (path + v * d)) <= 99999 * (samples + 1)
  {
  }

  /** Rounding takes at most half a unit of velocity and less than one of position per sample, and what
      counts as noise at most one and a half units of velocity per millisecond. */
  ghost predicate Drifts(c: Course, i: Ideal, elapsed: nat) {
    && Within(Minus(Plus(c.velocity, c.velocity), i.twiceArea), 3 * elapsed + i.samples)
    && Within(Minus(Hundredthousandfold(Minus(c.position, i.from)), i.path), 99999 * i.samples)
  }

  function Hundredthousandfold(v: Vec): Vec {
    Vec(100000 * v.x, 100000 * v.y, 100000 * v.z)
  }

  lemma VelocitiesDrift(v: Vec, area: Vec, sum: Vec, d: nat, drift: nat)
    requires Within(Minus(Plus(v, v), area), drift)
    ensures var v' := PlainVelocities(v, sum, d);
            Within(Minus(Plus(v', v'), Plus(area, Times(sum, d))), drift + 3 * d + 1)
  {
    VelocityDrift(v.x, area.x, sum.x, d, drift);
    VelocityDrift(v.y, area.y, sum.y, d, drift);
    VelocityDrift(v.z, area.z, sum.z, d, drift);
  }

  lemma PositionsDrift(p: Vec, from: Vec, path: Vec, v: Vec, d: int, samples: nat)
    requires Within(Minus(Hundredthousandfold(Minus(p, from)), path), 99999 * samples)
    ensures Within(Minus(Hundredthousandfold(Minus(PlainPositions(p, v, d), from)), Plus(path, Times(v, d))),
                   99999 * (samples + 1))
  {
    PositionDrift(p.x, from.x, path.x, v.x, d, samples);
    PositionDrift(p.y, from.y, path.y, v.y, d, samples);
    PositionDrift(p.z, from.z, path.z, v.z, d, samples);
  }

  lemma AdvanceDrifts(c: Course, i: Ideal, elapsed: nat, sum: Vec, d: nat)
    requires Drifts(c, i, elapsed)
    ensures var c' := Advance(c, sum, d);
            Drifts(c', Ideal(i.samples + 1, i.from, Plus(i.twiceArea, Times(sum, d)), Plus(i.path, Times(c'.velocity, d))),
                   elapsed + d)
  {
    VelocitiesDrift(c.velocity, i.twiceArea, sum, d, 3 * elapsed + i.samples);
    PositionsDrift(c.position, i.from, i.path, PlainVelocities(c.velocity, sum, d), d, i.samples);
  }

  ghost predicate DriftsSince(base: int, c: Course, i: Ideal, now: int) {
    base <= now && Drifts(c, i, now - base)
  }

  lemma RestDrifts(p: Vec, now: int)
    ensures DriftsSince(now, Course(Zero, p), Ideal(0, p, Zero, Zero), now)
  {
  }

  lemma ProceedDrifts(base: int, c: Course, i: Ideal, bias: Vec, earlier: Tick, later: Tick)
    requires DriftsSince(base, c, i, earlier.at) && earlier.at <= later.at
    ensures var c' := Proceed(c, bias, earlier, later);
            DriftsSince(base, c', Extended(i, bias, earlier, later, c'.velocity), later.at)
  {
    AdvanceDrifts(c, i, earlier.at - base, Plus(Minus(later.reading, bias), Minus(earlier.reading, bias)),
                  later.at - earlier.at);
  }

  /** An episode goes on, or begins at rest at `p`. */
  lemma EitherDrifts(open: bool, p: Vec, base: int, c: Course, i: Ideal, bias: Vec, earlier: Tick, later: Tick)
    requires (open ==> DriftsSince(base, c, i, earlier.at)) && earlier.at <= later.at
    ensures var c' := Proceed(if open then c else Course(Zero, p), bias, earlier, later);
            DriftsSince(if open then base else earlier.at, c',
                        Extended(if open then i else Ideal(0, p, Zero, Zero), bias, earlier, later, c'.velocity), later.at)
  {
    if open {
      ProceedDrifts(base, c, i, bias, earlier, later);
    } else {
      RestDrifts(p, earlier.at);
      ProceedDrifts(earlier.at, Course(Zero, p), Ideal(0, p, Zero, Zero), bias, earlier, later);
    }
  }

  lemma {:induction false} IdealUnfolds(release: nat, bias: Vec, first: Tick, ticks: seq<Tick>)
    requires ticks != []
    ensures var n := |ticks| - 1;
            var t := Run(Start(release, bias, first), ticks[..n]);
            EpisodeIdeal(release, bias, first, ticks)
            == Extended(if t.gate.IsOpen() then EpisodeIdeal(release, bias, first, ticks[..n])
                        else Ideal(0, t.position, Zero, Zero),
                        bias, NthSample(first, ticks, n), ticks[n],
                        EpisodeCourse(release, bias, first, ticks).velocity)
  {
  }

  /** `now` is the time of the run's last sample. */
  ghost predicate RunDrifts(release: nat, bias: Vec, first: Tick, ticks: seq<Tick>, now: int) {
    DriftsSince(EpisodeBase(release, bias, first, ticks), EpisodeCourse(release, bias, first, ticks),
                EpisodeIdeal(release, bias, first, ticks), now)
  }

  lemma {:induction false} NextDrifts(release: nat, bias: Vec, first: Tick, ticks: seq<Tick>)
    requires ticks != []
    requires var n := |ticks| - 1;
             NthSample(first, ticks, n).at <= ticks[n].at
             && RunDrifts(release, bias, first, ticks[..n], NthSample(first, ticks, n).at)
    ensures RunDrifts(release, bias, first, ticks, ticks[|ticks| - 1].at)
  {
    var n := |ticks| - 1;
    var t := Run(Start(release, bias, first), ticks[..n]);
    CourseUnfolds(release, bias, first, ticks);
    IdealUnfolds(release, bias, first, ticks);
    EitherDrifts(t.gate.IsOpen(), t.position, EpisodeBase(release, bias, first, ticks[..n]),
                 EpisodeCourse(release, bias, first, ticks[..n]), EpisodeIdeal(release, bias, first, ticks[..n]),
                 bias, NthSample(first, ticks, n), ticks[n]);
  }

  lemma {:induction false} NoDrift(release: nat, bias: Vec, first: Tick, ticks: seq<Tick>)
    requires |ticks| == 0
    ensures RunDrifts(release, bias, first, ticks, first.at)
  {
    RestDrifts(Zero, first.at);
    assert EpisodeBase(release, bias, first, ticks) == first.at;
    assert EpisodeCourse(release, bias, first, ticks) == Course(Zero, Zero);
    assert EpisodeIdeal(release, bias, first, ticks) == Ideal(0, Zero, Zero, Zero);
  }

  /** Over every run, any readings: T milliseconds and n samples into an episode, twice the velocity of
      its course is within 3 T + n of twice the area by the trapezoid rule, and 100000 times its
      displacement within 99999 n of the path at these velocities. */
  lemma {:induction false} CourseIntegrates(release: nat, bias: Vec, first: Tick, ticks: seq<Tick>)
    requires ClockForward(first.at, ticks)
    ensures RunDrifts(release, bias, first, ticks, NthSample(first, ticks, |ticks|).at)
  {
    if ticks == [] {
      NoDrift(release, bias, first, ticks);
    } else {
      var n := |ticks| - 1;
      assert ClockForward(first.at, ticks[..n]);
      CourseIntegrates(release, bias, first, ticks[..n]);
      assert NthSample(first, ticks[..n], n) == NthSample(first, ticks, n);
      NextDrifts(release, bias, first, ticks);
    }
  }

  // ------------------------------------------------------------- the limits are sharp

  /** A calm sensor whose first axis stays at full deflection from its bias. */
  predicate Deflected(a: Acceleration, reading: Vec) {
    SampledCalmly(a) && Within(reading, 1999) && a.curr.x == 3998 && reading.x - a.bias.x == 3998
  }

  lemma FirstIsDeflected(bias: Vec, reading: Vec, now: int)
    requires Within(bias, 1999) && Within(reading, 1999) && bias.x == -1999 && reading.x == 1999
    ensures Deflected(FirstAcceleration(bias, reading, now), reading)
  {
    SampleExact(Acceleration(bias, Zero, Zero, 0, 0), reading, now);
  }

  /** The same reading every 30 milliseconds. */
  function Schedule(reading: Vec, start: int, k: nat): (ticks: seq<Tick>)
    ensures |ticks| == k
  {
    seq(k, i => Tick(reading, start + 30 * (i + 1)))
  }

  lemma ScheduleIsSpaced(reading: Vec, start: int, k: nat)
    ensures Spaced(start, Schedule(reading, start, k), 30)
    ensures Within(reading, 1999) ==> Calm(Schedule(reading, start, k))
  {
  }

  lemma DeflectedSample(a: Acceleration, reading: Vec, now: int)
    requires Deflected(a, reading)
    ensures var a' := Sample(a, reading, now);
            && Deflected(a', reading) && a'.Over(10) && Sums(a').x == 7996
            && a'.tsLast == a.tsCurr && a'.tsCurr == now
  {
    SampleExact(a, reading, now);
  }

  /** The first axis while the sensor stays deflected: k steps of 30 milliseconds. */
  ghost predicate Pushed(t: Tracker, reading: Vec, k: nat, start: int) {
    && Deflected(t.acceleration, reading) && t.acceleration.tsCurr == start + 30 * k
    && (k == 0 ==> t.gate.Closed? && t.eventFrom.None?)
    && (0 < k ==> t.gate.Open? && t.eventFrom.Some?)
  }

  lemma PushStep(t: Tracker, reading: Vec, k: nat, start: int)
    requires Pushed(t, reading, k, start)
    ensures var t' := Step(t, reading, start + 30 * (k + 1));
            && Pushed(t', reading, k + 1, start)
            && t'.velocity.x == NextVelocity(if k == 0 then 0 else t.velocity.x, 7996, 30)
            && t'.position.x == NextPosition(t.position.x, t'.velocity.x, 30)
  {
    DeflectedSample(t.acceleration, reading, start + 30 * (k + 1));
  }

  lemma ScheduleGrows(reading: Vec, start: int, k: nat)
    ensures Schedule(reading, start, k + 1) == Schedule(reading, start, k) + [Tick(reading, start + 30 * (k + 1))]
  {
  }

  lemma RunOneMore(t: Tracker, ticks: seq<Tick>, more: seq<Tick>, tick: Tick)
    requires more == ticks + [tick]
    ensures Run(t, more) == Step(Run(t, ticks), tick.reading, tick.at)
  {
    assert (ticks + [tick])[..|ticks|] == ticks;
  }

  lemma VelocityStep(v: int, k: nat)
    requires v == 119940 * k && k <= 17904
    ensures NextVelocity(v, 7996, 30) == if k < 17904 then 119940 * (k + 1) else 119940 * 17905 - 0x1_0000_0000
  {
    assert TruncDiv(7996 * 30, 2) == 119940;
  }

  /** Twice a thousand times the position lies between these bounds. */
  predicate Between(p: int, k: nat) {
    35982 * (k * (k + 1)) - 2000 * k <= 2000 * p <= 35982 * (k * (k + 1))
  }

  lemma PositionStep(p: int, k: nat)
    requires Between(p, k) && k <= 10924
    ensures var next := NextPosition(p, 119940 * (k + 1), 30);
            if k < 10924 then Between(next, k + 1) else next < 0
  {
    var j := k + 1;
    assert j * (j + 1) == k * (k + 1) + 2 * j;
    var moved := TruncDiv(119940 * j * 30, 100000);
    assert 35982 * j - 1000 < 1000 * moved <= 35982 * j;
    assert Between(p + moved, j);
    if k < 10924 {
      ProductGrows(j, j + 1, 10925);
      ProductGrows(10925, j, 10924);
    }
  }

  function After(release: nat, a: Acceleration, reading: Vec, k: nat): Tracker {
    Run(Initial(release, a), Schedule(reading, a.tsCurr, k))
  }

  lemma NextPush(release: nat, a: Acceleration, reading: Vec, k: nat)
    requires Pushed(After(release, a, reading, k), reading, k, a.tsCurr)
    ensures var t, t' := After(release, a, reading, k), After(release, a, reading, k + 1);
            && Pushed(t', reading, k + 1, a.tsCurr)
            && t'.velocity.x == NextVelocity(if k == 0 then 0 else t.velocity.x, 7996, 30)
            && t'.position.x == NextPosition(t.position.x, t'.velocity.x, 30)
  {
    var ticks, more := Schedule(reading, a.tsCurr, k), Schedule(reading, a.tsCurr, k + 1);
    ScheduleGrows(reading, a.tsCurr, k);
    RunOneMore(Initial(release, a), ticks, more, Tick(reading, a.tsCurr + 30 * (k + 1)));
    PushStep(After(release, a, reading, k), reading, k, a.tsCurr);
  }

  /** The velocity grows with every step, up to its limit. */
  lemma {:induction false} DeflectedVelocity(release: nat, a: Acceleration, reading: Vec, k: nat)
    requires Deflected(a, reading) && k <= 17904
    ensures Pushed(After(release, a, reading, k), reading, k, a.tsCurr)
    ensures After(release, a, reading, k).velocity.x == 119940 * k
  {
    if k != 0 {
      DeflectedVelocity(release, a, reading, k - 1);
      NextPush(release, a, reading, k - 1);
      VelocityStep(119940 * (k - 1), k - 1);
    }
  }

  lemma {:induction false} DeflectedPosition(release: nat, a: Acceleration, reading: Vec, k: nat)
    requires Deflected(a, reading) && k <= 10924
    ensures Between(After(release, a, reading, k).position.x, k)
  {
    if k != 0 {
      DeflectedPosition(release, a, reading, k - 1);
      DeflectedPositionStep(release, a, reading, k - 1);
      PositionStep(After(release, a, reading, k - 1).position.x, k - 1);
    }
  }

  lemma DeflectedPositionStep(release: nat, a: Acceleration, reading: Vec, k: nat)
    requires Deflected(a, reading) && k <= 10924
    ensures After(release, a, reading, k + 1).position.x
         == NextPosition(After(release, a, reading, k).position.x, 119940 * (k + 1), 30)
  {
    DeflectedVelocity(release, a, reading, k);
    DeflectedVelocity(release, a, reading, k + 1);
    NextPush(release, a, reading, k);
  }

  /** The limits are sharp on the schedule of one sample every 30 milliseconds.  At full deflection
      the velocity has grown to 3998 times the elapsed time after 17904 samples and wraps with the
      next one, after 537150 milliseconds; the position has its last room after 10924 samples and
      wraps with the next one, after 327750 milliseconds. */
  lemma LimitsAreSharp(release: nat, bias: Vec, reading: Vec, now: int)
    requires Within(bias, 1999) && Within(reading, 1999) && bias.x == -1999 && reading.x == 1999
    ensures var t := Initial(release, FirstAcceleration(bias, reading, now));
            && Run(t, Schedule(reading, now, 17904)).velocity.x == 3998 * 537120
            && Run(t, Schedule(reading, now, 17905)).velocity.x < 0
            && 2140000000 < Run(t, Schedule(reading, now, 10924)).position.x
            && Run(t, Schedule(reading, now, 10925)).position.x < 0
  {
    var a := FirstAcceleration(bias, reading, now);
    FirstIsDeflected(bias, reading, now);
    DeflectedVelocity(release, a, reading, 17904);
    NextPush(release, a, reading, 17904);
    VelocityStep(119940 * 17904, 17904);
    DeflectedPosition(release, a, reading, 10924);
    DeflectedPositionStep(release, a, reading, 10924);
    PositionStep(After(release, a, reading, 10924).position.x, 10924);
  }
}
