/** What the readings alone say about a run of the position tracker: when its gate is open, and which
    events it sends, with their positions and times. */
module Episodes {
  import opened Options
  import opened Vectors
  import opened PositionTracker
  import Gate = NoiseGate

  // ------------------------------------------------------------- when the gate is open

  /** Some axis of the corrected reading, a 16-bit number, exceeds 10 in magnitude: unless the
      correction overflows, some axis is more than 10 away from the bias. */
  predicate Moves(bias: Vec, reading: Vec): (moves: bool)
    ensures Fits(bias, reading) ==>
              (moves <==> || reading.x - bias.x > 10 || bias.x - reading.x > 10
                          || reading.y - bias.y > 10 || bias.y - reading.y > 10
                          || reading.z - bias.z > 10 || bias.z - reading.z > 10)
  {
    var c := Corrected(bias, reading);
    c.x > 10 || c.x < -10 || c.y > 10 || c.y < -10 || c.z > 10 || c.z < -10
  }

  predicate Fits(bias: Vec, reading: Vec) {
    && -32768 <= reading.x - bias.x <= 32767
    && -32768 <= reading.y - bias.y <= 32767
    && -32768 <= reading.z - bias.z <= 32767
  }

  /** One of the last release + 2 readings up to tick `k` moves. */
  ghost predicate OpenAt(release: nat, bias: Vec, ticks: seq<Tick>, k: int) {
    exists j :: 0 <= j < |ticks| && k - release - 2 < j <= k && Moves(bias, ticks[j].reading)
  }

  function Verdicts(bias: Vec, ticks: seq<Tick>): (louds: seq<bool>)
    ensures |louds| == |ticks|
  {
    seq(|ticks|, i requires 0 <= i < |ticks| => Moves(bias, ticks[i].reading))
  }

  lemma OverMeansMoves(a: Acceleration, reading: Vec, now: int)
    ensures Sample(a, reading, now).Over(10) <==> Moves(a.bias, reading)
  {
  }

  lemma StepGate(t: Tracker, reading: Vec, now: int)
    ensures Step(t, reading, now).gate == Gate.Next(t.release, t.gate, Moves(t.acceleration.bias, reading))
    ensures Step(t, reading, now).release == t.release
  {
    OverMeansMoves(t.acceleration, reading, now);
  }

  lemma {:induction false} AfterVerdicts(release: nat, bias: Vec, ticks: seq<Tick>)
    requires ticks != []
    ensures var n := |ticks| - 1;
            Gate.After(release, Gate.Closed, Verdicts(bias, ticks))
            == Gate.Next(release, Gate.After(release, Gate.Closed, Verdicts(bias, ticks[..n])), Moves(bias, ticks[n].reading))
  {
    var n := |ticks| - 1;
    assert Verdicts(bias, ticks)[..n] == Verdicts(bias, ticks[..n]);
  }

  lemma {:induction false} GateHears(release: nat, bias: Vec, first: Tick, ticks: seq<Tick>)
    ensures var t := Run(Start(release, bias, first), ticks);
            t.release == release && t.gate == Gate.After(release, Gate.Closed, Verdicts(bias, ticks))
  {
    if ticks != [] {
      var n := |ticks| - 1;
      GateHears(release, bias, first, ticks[..n]);
      RunSamples(release, bias, first, ticks[..n]);
      StepGate(Run(Start(release, bias, first), ticks[..n]), ticks[n].reading, ticks[n].at);
      AfterVerdicts(release, bias, ticks);
    }
  }

  /** Over every run: the gate is open if and only if one of the last release + 2 readings moves. */
  lemma OpenWhileMoving(release: nat, bias: Vec, first: Tick, ticks: seq<Tick>)
    ensures Run(Start(release, bias, first), ticks).gate.IsOpen() <==> OpenAt(release, bias, ticks, |ticks| - 1)
  {
    GateHears(release, bias, first, ticks);
    var louds := Verdicts(bias, ticks);
    if ticks != [] {
      var n := |ticks| - 1;
      Gate.GateClosedForm(release, louds, n);
      Gate.SignalsAt(release, Gate.Closed, louds, n);
      if OpenAt(release, bias, ticks, n) {
        var j :| 0 <= j < |ticks| && n - release - 2 < j <= n && Moves(bias, ticks[j].reading);
        assert louds[j];
      }
      if Gate.LoudWithin(louds, n, release + 2) {
        var j :| 0 <= j < |louds| && n - (release + 2) < j <= n && louds[j];
        assert Moves(bias, ticks[j].reading);
      }
    }
  }

  // ------------------------------------------------------------- the episodes

  /** The gate opens at tick `opening` and next closes at tick `closing`. */
  datatype Episode = Episode(opening: int, closing: int)

  ghost predicate IsEpisode(release: nat, bias: Vec, ticks: seq<Tick>, e: Episode) {
    && 0 <= e.opening < e.closing < |ticks|
    && !OpenAt(release, bias, ticks, e.opening - 1) && !OpenAt(release, bias, ticks, e.closing)
    && forall k :: e.opening <= k < e.closing ==> OpenAt(release, bias, ticks, k)
  }

  /** When the gate last opened. */
  ghost function LastOpening(release: nat, bias: Vec, ticks: seq<Tick>): (i: int)
    requires OpenAt(release, bias, ticks, |ticks| - 1)
    ensures 0 <= i < |ticks| && !OpenAt(release, bias, ticks, i - 1)
    ensures forall k :: i <= k < |ticks| ==> OpenAt(release, bias, ticks, k)
  {
    var n := |ticks| - 1;
    if OpenAt(release, bias, ticks, n - 1) then
      (OpenAtFront(release, bias, ticks, n, n - 1);
       var i := LastOpening(release, bias, ticks[..n]);
       OpenAtFronts(release, bias, ticks, n);
       i)
    else n
  }

  lemma OpenAtFront(release: nat, bias: Vec, ticks: seq<Tick>, n: nat, k: int)
    requires k < n <= |ticks|
    ensures OpenAt(release, bias, ticks[..n], k) <==> OpenAt(release, bias, ticks, k)
  {
    if OpenAt(release, bias, ticks, k) {
      var j :| 0 <= j < |ticks| && k - release - 2 < j <= k && Moves(bias, ticks[j].reading);
      assert ticks[..n][j] == ticks[j];
    }
  }

  lemma OpenAtFronts(release: nat, bias: Vec, ticks: seq<Tick>, n: nat)
    requires n <= |ticks|
    ensures forall k :: k < n ==> (OpenAt(release, bias, ticks[..n], k) <==> OpenAt(release, bias, ticks, k))
  {
    forall k | k < n ensures OpenAt(release, bias, ticks[..n], k) <==> OpenAt(release, bias, ticks, k) {
      OpenAtFront(release, bias, ticks, n, k);
    }
  }

  /** All episodes that have ended, in order. */
  ghost function Episodes(release: nat, bias: Vec, ticks: seq<Tick>): seq<Episode> {
    if ticks == [] then []
    else
      var n := |ticks| - 1;
      Episodes(release, bias, ticks[..n]) + (
        if Closes(release, bias, ticks) then [Episode(LastOpening(release, bias, ticks[..n]), n)] else [])
  }

  /** The last tick closes the gate. */
  ghost predicate Closes(release: nat, bias: Vec, ticks: seq<Tick>) {
    ticks != [] && !OpenAt(release, bias, ticks, |ticks| - 1)
    && OpenAt(release, bias, ticks[..|ticks| - 1], |ticks| - 2)
  }

  lemma IsEpisodeFront(release: nat, bias: Vec, ticks: seq<Tick>, n: nat, e: Episode)
    requires n <= |ticks| && e.closing < n
    ensures IsEpisode(release, bias, ticks[..n], e) <==> IsEpisode(release, bias, ticks, e)
  {
    OpenAtFronts(release, bias, ticks, n);
  }

  /** One episode after the other. */
  ghost predicate Apart(episodes: seq<Episode>) {
    forall k, m :: 0 <= k < m < |episodes| ==> episodes[k].closing < episodes[m].opening
  }

  lemma LastEpisode(release: nat, bias: Vec, ticks: seq<Tick>, e: Episode)
    requires ticks != [] && e.closing == |ticks| - 1
    ensures IsEpisode(release, bias, ticks, e)
       <==> Closes(release, bias, ticks) && e.opening == LastOpening(release, bias, ticks[..|ticks| - 1])
  {
    var n := |ticks| - 1;
    OpenAtFronts(release, bias, ticks, n);
  }

  lemma Separate(release: nat, bias: Vec, ticks: seq<Tick>, d: Episode, e: Episode)
    requires IsEpisode(release, bias, ticks, d) && IsEpisode(release, bias, ticks, e) && d.closing < e.closing
    ensures d.closing < e.opening
  {
    assert e.opening <= d.closing < e.closing ==> OpenAt(release, bias, ticks, d.closing);
  }

  /** They are all episodes, each once. */
  lemma {:induction false} EpisodesAreAll(release: nat, bias: Vec, ticks: seq<Tick>)
    ensures forall e :: e in Episodes(release, bias, ticks) <==> IsEpisode(release, bias, ticks, e)
    ensures Apart(Episodes(release, bias, ticks))
  {
    if ticks != [] {
      var n := |ticks| - 1;
      var before, all := Episodes(release, bias, ticks[..n]), Episodes(release, bias, ticks);
      EpisodesAreAll(release, bias, ticks[..n]);
      forall e: Episode ensures e in all <==> IsEpisode(release, bias, ticks, e) {
        if e.closing < n {
          IsEpisodeFront(release, bias, ticks, n, e);
        } else if e.closing == n {
          LastEpisode(release, bias, ticks, e);
        }
      }
      if Closes(release, bias, ticks) {
        forall k | 0 <= k < |before| ensures before[k].closing < all[|before|].opening {
          assert all[k] == before[k] && all[k] in all && all[|before|] in all;
          assert before[k] in before;
          Separate(release, bias, ticks, all[k], all[|before|]);
        }
      }
    }
  }

  // ------------------------------------------------------------- the events

  /** Where the device is after the first `k` ticks. */
  function PositionAt(release: nat, bias: Vec, first: Tick, ticks: seq<Tick>, k: int): Vec
    requires 0 <= k <= |ticks|
  {
    Run(Start(release, bias, first), ticks[..k]).position
  }

  /** The event of an episode: from where the device was before the episode to where it is at its end,
      between the times of the two ticks.  There is none if that is the same place. */
  ghost function EventOf(release: nat, bias: Vec, first: Tick, ticks: seq<Tick>, e: Episode): seq<PositionEvent>
    requires 0 <= e.opening <= e.closing < |ticks|
  {
    var from := PositionAt(release, bias, first, ticks, e.opening);
    var to := PositionAt(release, bias, first, ticks, e.closing);
    if from == to then [] else [PositionEvent(from, to, ticks[e.opening].at, ticks[e.closing].at)]
  }

  ghost function EventsOf(release: nat, bias: Vec, first: Tick, ticks: seq<Tick>, episodes: seq<Episode>): seq<PositionEvent>
    requires forall e :: e in episodes ==> 0 <= e.opening <= e.closing < |ticks|
  {
    if episodes == [] then []
    else
      var n := |episodes| - 1;
      EventsOf(release, bias, first, ticks, episodes[..n]) + EventOf(release, bias, first, ticks, episodes[n])
  }

  lemma {:induction false} EventOfLonger(release: nat, bias: Vec, first: Tick, ticks: seq<Tick>, n: nat, e: Episode)
    requires 0 <= e.opening <= e.closing < n <= |ticks|
    ensures EventOf(release, bias, first, ticks, e) == EventOf(release, bias, first, ticks[..n], e)
  {
    assert ticks[..n][..e.opening] == ticks[..e.opening] && ticks[..n][..e.closing] == ticks[..e.closing];
  }

  lemma {:induction false} EventsOfLonger(release: nat, bias: Vec, first: Tick, ticks: seq<Tick>, n: nat,
                                          episodes: seq<Episode>)
    requires n <= |ticks| && forall e :: e in episodes ==> 0 <= e.opening <= e.closing < n
    ensures EventsOf(release, bias, first, ticks, episodes) == EventsOf(release, bias, first, ticks[..n], episodes)
  {
    if episodes != [] {
      var k := |episodes| - 1;
      EventsOfLonger(release, bias, first, ticks, n, episodes[..k]);
      EventOfLonger(release, bias, first, ticks, n, episodes[k]);
    }
  }

  lemma {:induction false} EventsOfSnoc(release: nat, bias: Vec, first: Tick, ticks: seq<Tick>,
                                        before: seq<Episode>, all: seq<Episode>, e: Episode)
    requires forall d :: d in before ==> 0 <= d.opening <= d.closing < |ticks|
    requires all == before + [e] && 0 <= e.opening <= e.closing < |ticks|
    ensures EventsOf(release, bias, first, ticks, all)
         == EventsOf(release, bias, first, ticks, before) + EventOf(release, bias, first, ticks, e)
  {
    assert (before + [e])[..|before|] == before;
  }

  /** The event under construction started with the last opening, where the device was before it. */
  ghost predicate Recording(release: nat, bias: Vec, first: Tick, ticks: seq<Tick>) {
    OpenAt(release, bias, ticks, |ticks| - 1) ==>
      var t, i := Run(Start(release, bias, first), ticks), LastOpening(release, bias, ticks);
      t.eventFrom == Some(PositionAt(release, bias, first, ticks, i)) && t.startedAt == ticks[i].at
  }

  /** What one step does to the event under construction and to what was sent. */
  lemma StepEvents(t: Tracker, tick: Tick)
    requires Consistent(t)
    ensures var t' := Step(t, tick.reading, tick.at);
            && (t.gate.IsOpen() && t'.gate.IsOpen() ==>
                  t'.eventFrom == t.eventFrom && t'.startedAt == t.startedAt && t'.sent == t.sent)
            && (!t.gate.IsOpen() && t'.gate.IsOpen() ==>
                  t'.eventFrom == Some(t.position) && t'.startedAt == tick.at && t'.sent == t.sent)
            && (!t.gate.IsOpen() && !t'.gate.IsOpen() ==> t'.sent == t.sent)
            && (t.gate.IsOpen() && !t'.gate.IsOpen() ==>
                  t'.sent == t.sent + if t.eventFrom.value == t.position then []
                                      else [PositionEvent(t.eventFrom.value, t.position, t.startedAt, tick.at)])
  {
  }

  lemma {:induction false} PositionAtFront(release: nat, bias: Vec, first: Tick, ticks: seq<Tick>, n: nat, k: nat)
    requires k <= n <= |ticks|
    ensures PositionAt(release, bias, first, ticks[..n], k) == PositionAt(release, bias, first, ticks, k)
  {
    assert ticks[..n][..k] == ticks[..k];
  }

  lemma {:induction false} LastOpeningStays(release: nat, bias: Vec, ticks: seq<Tick>)
    requires ticks != [] && OpenAt(release, bias, ticks, |ticks| - 1)
    ensures var n := |ticks| - 1;
            LastOpening(release, bias, ticks) ==
            if OpenAt(release, bias, ticks[..n], n - 1) then LastOpening(release, bias, ticks[..n]) else n
  {
    OpenAtFront(release, bias, ticks, |ticks| - 1, |ticks| - 2);
  }

  /** The gate before and after the last tick. */
  lemma {:induction false} LastGates(release: nat, bias: Vec, first: Tick, ticks: seq<Tick>)
    requires ticks != []
    ensures var n := |ticks| - 1;
            && (Run(Start(release, bias, first), ticks[..n]).gate.IsOpen() <==> OpenAt(release, bias, ticks[..n], n - 1))
            && (Run(Start(release, bias, first), ticks).gate.IsOpen() <==> OpenAt(release, bias, ticks, n))
  {
    OpenWhileMoving(release, bias, first, ticks[..|ticks| - 1]);
    OpenWhileMoving(release, bias, first, ticks);
  }

  lemma {:induction false} LastStep(release: nat, bias: Vec, first: Tick, ticks: seq<Tick>) returns (t: Tracker)
    requires ticks != []
    ensures var n := |ticks| - 1;
            && t == Run(Start(release, bias, first), ticks[..n]) && Consistent(t)
            && Run(Start(release, bias, first), ticks) == Step(t, ticks[n].reading, ticks[n].at)
  {
    t := Run(Start(release, bias, first), ticks[..|ticks| - 1]);
    RunConsistent(release, FirstAcceleration(bias, first.reading, first.at), ticks[..|ticks| - 1]);
  }

  lemma {:induction false} StaysRecording(release: nat, bias: Vec, first: Tick, ticks: seq<Tick>)
    requires ticks != [] && Recording(release, bias, first, ticks[..|ticks| - 1])
    ensures Recording(release, bias, first, ticks)
  {
    var n := |ticks| - 1;
    if OpenAt(release, bias, ticks, n) {
      var t := LastStep(release, bias, first, ticks);
      StepEvents(t, ticks[n]);
      LastGates(release, bias, first, ticks);
      LastOpeningStays(release, bias, ticks);
      if OpenAt(release, bias, ticks[..n], n - 1) {
        var i := LastOpening(release, bias, ticks[..n]);
        PositionAtFront(release, bias, first, ticks, n, i);
      }
    }
  }

  /** What the closing tick sends is the event of the episode. */
  lemma {:induction false} ClosingEvent(release: nat, bias: Vec, first: Tick, ticks: seq<Tick>, t: Tracker, i: nat)
    requires i < |ticks| - 1 && t == Run(Start(release, bias, first), ticks[..|ticks| - 1])
    requires t.eventFrom == Some(PositionAt(release, bias, first, ticks, i)) && t.startedAt == ticks[i].at
    ensures EventOf(release, bias, first, ticks, Episode(i, |ticks| - 1))
         == if t.eventFrom.value == t.position then []
            else [PositionEvent(t.eventFrom.value, t.position, t.startedAt, ticks[|ticks| - 1].at)]
  {
  }

  lemma {:induction false} SendsLast(release: nat, bias: Vec, first: Tick, ticks: seq<Tick>)
    requires ticks != [] && Recording(release, bias, first, ticks[..|ticks| - 1])
    ensures var n := |ticks| - 1;
            var before := Run(Start(release, bias, first), ticks[..n]).sent;
            Run(Start(release, bias, first), ticks).sent == before +
            if Closes(release, bias, ticks)
            then EventOf(release, bias, first, ticks, Episode(LastOpening(release, bias, ticks[..n]), n))
            else []
  {
    var n := |ticks| - 1;
    var t := LastStep(release, bias, first, ticks);
    StepEvents(t, ticks[n]);
    LastGates(release, bias, first, ticks);
    if Closes(release, bias, ticks) {
      var i := LastOpening(release, bias, ticks[..n]);
      PositionAtFront(release, bias, first, ticks, n, i);
      ClosingEvent(release, bias, first, ticks, t, i);
    }
  }

  lemma EpisodesInRange(release: nat, bias: Vec, ticks: seq<Tick>)
    ensures forall e :: e in Episodes(release, bias, ticks) ==> 0 <= e.opening <= e.closing < |ticks|
  {
    EpisodesAreAll(release, bias, ticks);
  }

  lemma {:induction false} EventsOfNext(release: nat, bias: Vec, first: Tick, ticks: seq<Tick>)
    requires ticks != []
    requires forall e :: e in Episodes(release, bias, ticks[..|ticks| - 1]) ==> 0 <= e.opening <= e.closing < |ticks| - 1
    requires forall e :: e in Episodes(release, bias, ticks) ==> 0 <= e.opening <= e.closing < |ticks|
    ensures var n := |ticks| - 1;
            EventsOf(release, bias, first, ticks, Episodes(release, bias, ticks)) ==
            EventsOf(release, bias, first, ticks[..n], Episodes(release, bias, ticks[..n])) +
            if Closes(release, bias, ticks)
            then EventOf(release, bias, first, ticks, Episode(LastOpening(release, bias, ticks[..n]), n))
            else []
  {
    var n := |ticks| - 1;
    var before, all := Episodes(release, bias, ticks[..n]), Episodes(release, bias, ticks);
    EventsOfLonger(release, bias, first, ticks, n, before);
    if Closes(release, bias, ticks) {
      EventsOfSnoc(release, bias, first, ticks, before, all, Episode(LastOpening(release, bias, ticks[..n]), n));
    } else {
      assert all == before;
    }
  }

  /** Over every run the events that were sent are those of the episodes, one for each that leads to
      another place, in order: from the position before the reading that opened the gate to the one at
      its closing, and between the times of these two ticks. */
  lemma {:induction false} EventsAreEpisodes(release: nat, bias: Vec, first: Tick, ticks: seq<Tick>)
    ensures Recording(release, bias, first, ticks)
    ensures forall e :: e in Episodes(release, bias, ticks) ==> 0 <= e.opening <= e.closing < |ticks|
    ensures Run(Start(release, bias, first), ticks).sent
         == EventsOf(release, bias, first, ticks, Episodes(release, bias, ticks))
  {
    EpisodesInRange(release, bias, ticks);
    if ticks != [] {
      var n := |ticks| - 1;
      EventsAreEpisodes(release, bias, first, ticks[..n]);
      StaysRecording(release, bias, first, ticks);
      SendsLast(release, bias, first, ticks);
      EventsOfNext(release, bias, first, ticks);
    }
  }
}
