/** The three-state noise gate shared by the audio client and the device firmware.

    The state machine works on a stream of loudness verdicts, one per sample, because
    that is all it looks at.  The closed form says what it emits at each position by
    looking at the verdicts alone, without any state.
 */
module NoiseGate {

  datatype State = Open | Closing(remaining: nat) | Closed {
    predicate IsOpen() { !Closed? }
  }

  /** What one sample makes the gate tell its sink. */
  datatype Signal = Silent | Recorded | Ended

  function Next(release: nat, s: State, loud: bool): State {
    match s
    case Open => if loud then Open else Closing(release)
    case Closing(remaining) =>
      if loud then Open else if remaining == 0 then Closed else Closing(remaining - 1)
    case Closed => if loud then Open else Closed
  }

  /** The sink is told to record while open, and told once that the recording ended. */
  function Emit(release: nat, s: State, loud: bool): Signal {
    if Next(release, s, loud).IsOpen() then Recorded else if s.IsOpen() then Ended else Silent
  }

  /** State after a whole stream. */
  function After(release: nat, s: State, louds: seq<bool>): State {
    if louds == [] then s else Next(release, After(release, s, louds[..|louds| - 1]), louds[|louds| - 1])
  }

  /** One signal per sample. */
  function Signals(release: nat, s: State, louds: seq<bool>): (signals: seq<Signal>)
    ensures |signals| == |louds|
  {
    if louds == [] then []
    else
      var front := louds[..|louds| - 1];
      Signals(release, s, front) + [Emit(release, After(release, s, front), louds[|louds| - 1])]
  }

  // ---------------------------------------------------------------- closed form

  /** Some verdict among the `width` positions up to and including `i` is loud. */
  ghost predicate LoudWithin(louds: seq<bool>, i: int, width: int) {
    exists j {:trigger louds[j]} :: 0 <= j < |louds| && i - width < j <= i && louds[j]
  }

  /** The last loud verdict of the stream is the one at `j`. */
  ghost predicate LastLoudAt(louds: seq<bool>, i: int, j: int) {
    && 0 <= j <= i < |louds|
    && louds[j]
    && forall k {:trigger louds[k]} :: j < k <= i ==> !louds[k]
  }

  /** The state a gate that started closed must have when its last loud verdict lies `gap` samples back. */
  function StateAtGap(release: nat, gap: nat): State {
    if gap == 0 then Open else if gap <= release + 1 then Closing(release + 1 - gap) else Closed
  }

  lemma {:induction false} StateNeverLoud(release: nat, louds: seq<bool>)
    requires forall j :: 0 <= j < |louds| ==> !louds[j]
    ensures After(release, Closed, louds) == Closed
  {
    if louds != [] {
      StateNeverLoud(release, louds[..|louds| - 1]);
    }
  }

  /** Only the distance to the last loud verdict matters. */
  lemma {:induction false} StateSinceLoud(release: nat, s: State, louds: seq<bool>, j: int)
    requires LastLoudAt(louds, |louds| - 1, j)
    ensures After(release, s, louds) == StateAtGap(release, |louds| - 1 - j)
  {
    if j < |louds| - 1 {
      var front := louds[..|louds| - 1];
      assert LastLoudAt(front, |front| - 1, j);
      StateSinceLoud(release, s, front, j);
    }
  }

  lemma {:induction false} LastLoudExists(louds: seq<bool>) returns (j: int)
    ensures j == -1 ==> forall k :: 0 <= k < |louds| ==> !louds[k]
    ensures j != -1 ==> LastLoudAt(louds, |louds| - 1, j)
  {
    if louds == [] {
      j := -1;
    } else if louds[|louds| - 1] {
      j := |louds| - 1;
    } else {
      j := LastLoudExists(louds[..|louds| - 1]);
      if j != -1 {
        assert LastLoudAt(louds[..|louds| - 1], |louds| - 2, j);
      }
    }
  }

  lemma {:induction false} SignalsAt(release: nat, s: State, louds: seq<bool>, i: nat)
    requires i < |louds|
    ensures Signals(release, s, louds)[i] == Emit(release, After(release, s, louds[..i]), louds[i])
  {
    var front := louds[..|louds| - 1];
    if i < |front| {
      SignalsAt(release, s, front, i);
      assert front[..i] == louds[..i];
    }
  }

  /** The gate without its state: a sample is recorded exactly when a loud one lies at most
      release + 1 positions before it (or is it), and the end is announced exactly release + 2
      positions after the last loud one. */
  lemma GateClosedForm(release: nat, louds: seq<bool>, i: nat)
    requires i < |louds|
    ensures Signals(release, Closed, louds)[i].Recorded? <==> LoudWithin(louds, i, release + 2)
    ensures Signals(release, Closed, louds)[i].Ended? <==> LastLoudAt(louds, i, i - release - 2)
  {
    SignalsAt(release, Closed, louds, i);
    var before, upto := louds[..i], louds[..i + 1];
    assert upto[..i] == before;
    assert forall k :: 0 <= k <= i ==> louds[k] == upto[k];
    var j := LastLoudExists(upto);
    if j == -1 {
      StateNeverLoud(release, before);
      StateNeverLoud(release, upto);
    } else {
      assert LastLoudAt(louds, i, j);
      StateSinceLoud(release, Closed, upto, j);
      if j < i {
        assert LastLoudAt(before, i - 1, j);
        StateSinceLoud(release, Closed, before, j);
      }
      assert LoudWithin(louds, i, release + 2) <==> i - j <= release + 1;
    }
  }

  /** Cutting the stream into blocks changes neither the state nor a signal. */
  lemma {:induction false} BlocksCompose(release: nat, s: State, first: seq<bool>, second: seq<bool>)
    ensures After(release, s, first + second) == After(release, After(release, s, first), second)
    ensures Signals(release, s, first + second)
         == Signals(release, s, first) + Signals(release, After(release, s, first), second)
  {
    if second == [] {
      assert first + second == first;
    } else {
      var front := second[..|second| - 1];
      BlocksCompose(release, s, first, front);
      assert (first + second)[..|first + second| - 1] == first + front;
    }
  }
}
