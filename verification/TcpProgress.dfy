/** Once the network works, every submitted buffer is acknowledged and freed. */
module TcpProgress {
  import opened TcpClient

  /** The environment of a working network: nothing fails any more.  Submissions and the start-up
      timer are still free to happen. */
  predicate Good(c: Client, a: Action) {
    match a
    case LinkChanges(up) => up
    case AttemptFails(_) => false
    case SendDone(sent, response) => c.up ==> 0 <= sent && 0 <= response
    case _ => true
  }

  /** An action of the dispatching thread. */
  predicate Works(a: Action) {
    a.Dispatch? || a.AttemptSucceeds? || a.SendDone? || a.Requeue?
  }

  function Position(queue: seq<Callback>, cb: Callback): nat {
    if queue == [] || queue[0] == cb then 0 else 1 + Position(queue[1..], cb)
  }

  function Cost(r: Running): nat {
    match r case Idle => 0 case Connecting => 1 case Requeueing(_) => 1 case Sending(_) => 2
  }

  /** The socket is up, or is about to be. */
  predicate Ready(c: Client) {
    c.up || c.running.Connecting?
  }

  function Phase(c: Client, b: nat): nat {
    if Ready(c) then if c.running == Requeueing(b) then 1 else 0
    else if Connects(c.queue) != 0 then 2
    else 3
  }

  function Distance(c: Client, b: nat): nat {
    match Phase(c, b)
    case 0 => if c.running == Sending(b) then 2 else 3 * (Position(c.queue, Send(b)) + 1) + Cost(c.running)
    case 1 => 0
    case 2 => 3 * (Position(c.queue, Connect) + 1) + Cost(c.running)
    case _ => match c.running case Requeueing(_) => 2 case Idle => 1 case _ => 0
  }

  predicate Smaller(p: nat, d: nat, p': nat, d': nat) {
    p < p' || (p == p' && d < d')
  }

  lemma {:induction false} PositionAppend(queue: seq<Callback>, cb: Callback, more: Callback)
    requires cb in queue
    ensures Position(queue + [more], cb) == Position(queue, cb)
  {
    if queue[0] != cb {
      PositionAppend(queue[1..], cb, more);
      assert (queue + [more])[1..] == queue[1..] + [more];
    }
  }

  lemma {:induction false} ConnectsIsMembership(queue: seq<Callback>)
    ensures Connects(queue) != 0 <==> Connect in queue
  {
    if queue != [] {
      ConnectsIsMembership(queue[1..]);
    }
  }

  lemma {:induction false} SendsIsMembership(queue: seq<Callback>, b: nat)
    ensures Sends(queue, b) != 0 <==> Send(b) in queue
  {
    if queue != [] {
      SendsIsMembership(queue[1..], b);
    }
  }

  /** Where a buffer that is not freed yet must be. */
  lemma PendingSomewhere(c: Client, b: nat)
    requires Inv(c) && b < c.submitted && b !in c.freed
    ensures Send(b) in c.queue || c.running == Sending(b) || c.running == Requeueing(b)
  {
    assert References(c, b) == 1;
    CountIsMembership(c.freed, b);
    SendsIsMembership(c.queue, b);
  }

  /** No action of a working network leads the buffer away from its release, and every action of
      the dispatching thread leads it closer. */
  lemma StepApproaches(c: Client, a: Action, b: nat)
    requires Inv(c) && Enabled(c, a) && Good(c, a)
    requires b < c.submitted && b !in c.freed
    ensures var c' := Next(c, a);
            || b in c'.freed
            || Smaller(Phase(c', b), Distance(c', b), Phase(c, b), Distance(c, b))
            || (!Works(a) && Phase(c', b) == Phase(c, b) && Distance(c', b) == Distance(c, b))
  {
    var c' := Next(c, a);
    PendingSomewhere(c, b);
    PendingSomewhereAfter(c, a, b);
    ConnectsIsMembership(c.queue);
    ConnectsIsMembership(c'.queue);
    match a
    case Submit => AppendKeeps(c, Send(c.submitted), b);
    case StartupFires => AppendKeeps(c, Connect, b);
    case Requeue => AppendKeeps(c, Send(c.running.buf), b);
    case SendDone(_, _) => AppendKeeps(c, Connect, b);
    case _ =>
  }

  lemma PendingSomewhereAfter(c: Client, a: Action, b: nat)
    requires Inv(c) && Enabled(c, a) && b < c.submitted
    ensures var c' := Next(c, a);
            b in c'.freed || Send(b) in c'.queue || c'.running == Sending(b) || c'.running == Requeueing(b)
  {
    StepInv(c, a);
    if b !in Next(c, a).freed {
      PendingSomewhere(Next(c, a), b);
    }
  }

  lemma AppendKeeps(c: Client, more: Callback, b: nat)
    ensures Send(b) in c.queue ==> Position(c.queue + [more], Send(b)) == Position(c.queue, Send(b))
    ensures Connect in c.queue ==> Position(c.queue + [more], Connect) == Position(c.queue, Connect)
  {
    if Send(b) in c.queue {
      PositionAppend(c.queue, Send(b), more);
    }
    if Connect in c.queue {
      PositionAppend(c.queue, Connect, more);
    }
  }

  /** The dispatching thread is never stuck while a buffer is pending. */
  lemma NeverStuck(c: Client, b: nat)
    requires Inv(c) && b < c.submitted && b !in c.freed
    ensures exists a :: Enabled(c, a) && Good(c, a) && Works(a)
  {
    PendingSomewhere(c, b);
    var a := match c.running
      case Idle => Dispatch
      case Connecting => AttemptSucceeds
      case Sending(_) => SendDone(0, 0)
      case Requeueing(_) => Requeue;
    assert Enabled(c, a) && Good(c, a) && Works(a);
  }

  ghost predicate GoodFrom(states: nat -> Client, actions: nat -> Action, start: nat) {
    forall n: nat :: start <= n ==> Good(states(n), actions(n))
  }

  ghost predicate WorksAfter(actions: nat -> Action, n: nat) {
    exists m: nat :: n <= m && Works(actions(m))
  }

  /** There is something for the dispatching thread to do. */
  predicate Busy(c: Client) {
    !c.running.Idle? || c.queue != []
  }

  lemma BusyMeansEnabled(c: Client)
    ensures Busy(c) <==> exists a :: Enabled(c, a) && Works(a)
  {
    if Busy(c) {
      var a := match c.running
        case Idle => Dispatch
        case Connecting => AttemptSucceeds
        case Sending(_) => SendDone(0, 0)
        case Requeueing(_) => Requeue;
      assert Enabled(c, a) && Works(a);
    }
  }

  /** The dispatching thread is fair: whenever it has something to do it acts, sooner or later.  It
      may rest when there is nothing to do. */
  ghost predicate KeepsWorking(states: nat -> Client, actions: nat -> Action) {
    forall n: nat :: ActsWhenBusy(states, actions, n)
  }

  ghost predicate ActsWhenBusy(states: nat -> Client, actions: nat -> Action, n: nat) {
    Busy(states(n)) ==> WorksAfter(actions, n)
  }

  /** The buffer is freed in the second state, or closer to it than in the first. */
  ghost predicate Closer(c: Client, c': Client, b: nat) {
    b in c'.freed || Smaller(Phase(c', b), Distance(c', b), Phase(c, b), Distance(c, b))
  }

  lemma RunApproaches(states: nat -> Client, actions: nat -> Action, start: nat, b: nat, n: nat)
    requires IsRun(states, actions) && GoodFrom(states, actions, start) && start <= n
    requires b < states(n).submitted && b !in states(n).freed
    ensures b < states(n + 1).submitted
    ensures Closer(states(n), states(n + 1), b)
         || (!Works(actions(n)) && Phase(states(n + 1), b) == Phase(states(n), b)
             && Distance(states(n + 1), b) == Distance(states(n), b))
  {
    RunInv(states, actions, n);
    assert Steps(states, actions, n);
    StepApproaches(states(n), actions(n), b);
  }

  /** By the next action of the dispatching thread at the latest, the buffer has come closer. */
  lemma {:induction false} NextApproach(states: nat -> Client, actions: nat -> Action, start: nat, b: nat,
                                        n: nat, next: nat) returns (later: nat)
    requires IsRun(states, actions) && GoodFrom(states, actions, start)
    requires start <= n <= next && Works(actions(next))
    requires b < states(n).submitted && b !in states(n).freed
    ensures n < later && b < states(later).submitted && Closer(states(n), states(later), b)
    decreases next - n
  {
    RunApproaches(states, actions, start, b, n);
    if Closer(states(n), states(n + 1), b) {
      later := n + 1;
    } else {
      later := NextApproach(states, actions, start, b, n + 1, next);
    }
  }

  /** Liveness: in every run, however bad its beginning and whether or not buffers are still being
      submitted, a buffer submitted before the network works for good is freed in finitely many
      steps. */
  lemma {:induction false} EventuallyFreed(states: nat -> Client, actions: nat -> Action, start: nat, b: nat)
    returns (end: nat)
    requires IsRun(states, actions) && GoodFrom(states, actions, start) && KeepsWorking(states, actions)
    requires b < states(start).submitted
    ensures start <= end && b in states(end).freed
    decreases Phase(states(start), b), Distance(states(start), b)
  {
    if b in states(start).freed {
      return start;
    }
    RunInv(states, actions, start);
    NeverStuck(states(start), b);
    BusyMeansEnabled(states(start));
    assert ActsWhenBusy(states, actions, start);
    var next: nat :| start <= next && Works(actions(next));
    var n := NextApproach(states, actions, start, b, start, next);
    if b in states(n).freed {
      return n;
    }
    end := EventuallyFreed(states, actions, n, b);
  }

  lemma {:induction false} FreedStaysFreed(states: nat -> Client, actions: nat -> Action, n: nat, m: nat, b: nat)
    requires IsRun(states, actions) && n <= m && b in states(n).freed
    ensures b in states(m).freed
  {
    if n < m {
      FreedStaysFreed(states, actions, n, m - 1, b);
      assert Steps(states, actions, m - 1);
    }
  }

  ghost predicate AllFreed(c: Client, count: nat) {
    forall b :: 0 <= b < count ==> b in c.freed
  }

  lemma {:induction false} AllStayFreed(states: nat -> Client, actions: nat -> Action, n: nat, m: nat, count: nat)
    requires IsRun(states, actions) && n <= m && AllFreed(states(n), count)
    ensures AllFreed(states(m), count)
  {
    if count != 0 {
      AllStayFreed(states, actions, n, m, count - 1);
      FreedStaysFreed(states, actions, n, m, count - 1);
    }
  }

  /** There is a point at which all buffers submitted so far are freed, and so they stay. */
  lemma {:induction false} AllEventuallyFreed(states: nat -> Client, actions: nat -> Action, start: nat, count: nat)
    returns (end: nat)
    requires IsRun(states, actions) && GoodFrom(states, actions, start) && KeepsWorking(states, actions)
    requires count <= states(start).submitted
    ensures start <= end && AllFreed(states(end), count)
  {
    if count == 0 {
      return start;
    }
    var before := AllEventuallyFreed(states, actions, start, count - 1);
    var last := EventuallyFreed(states, actions, start, count - 1);
    end := if before < last then last else before;
    AllStayFreed(states, actions, before, end, count - 1);
    FreedStaysFreed(states, actions, last, end, count - 1);
  }

  // ------------------------------------------------------------- a quiet run

  /** One buffer is submitted, its first sending fails, the network comes back, and nothing is
      submitted any more. */
  function StoryAction(n: nat): Action {
    match n
    case 0 => Submit
    case 1 => Dispatch
    case 2 => SendDone(0, 0)
    case 3 => StartupFires
    case 4 => Requeue
    case 5 => Dispatch
    case 6 => AttemptFails(WifiDown)
    case 7 => AttemptSucceeds
    case 8 => Dispatch
    case 9 => AttemptSucceeds
    case 10 => Dispatch
    case 11 => SendDone(1, 1)
    case _ => LinkChanges(true)
  }

  function Story(n: nat): Client {
    match n
    case 0 => Initial()
    case 1 => Client([Send(0)], Idle, true, false, false, false, 1, [], [], [])
    case 2 => Client([], Sending(0), true, false, false, false, 1, [], [], [])
    case 3 => Client([Connect], Requeueing(0), true, true, false, false, 1, [], [], [0])
    case 4 => Client([Connect, Connect], Requeueing(0), false, true, false, false, 1, [], [], [0])
    case 5 => Client([Connect, Connect, Send(0)], Idle, false, true, false, false, 1, [], [], [0])
    case 6 => Client([Connect, Send(0)], Connecting, false, true, false, false, 1, [], [], [0])
    case 7 => Client([Connect, Send(0)], Connecting, false, true, false, false, 1, [], [], [0])
    case 8 => Client([Connect, Send(0)], Idle, false, false, true, true, 1, [], [], [0])
    case 9 => Client([Send(0)], Connecting, false, false, false, false, 1, [], [], [0])
    case 10 => Client([Send(0)], Idle, false, false, true, true, 1, [], [], [0])
    case 11 => Client([], Sending(0), false, false, true, true, 1, [], [], [0])
    case _ => Client([], Idle, false, false, true, true, 1, [0], [0], [0])
  }

  lemma StoryStep(n: nat)
    ensures Steps(Story, StoryAction, n)
  {
  }

  lemma StoryIsRun()
    ensures IsRun(Story, StoryAction)
  {
    forall n: nat ensures Steps(Story, StoryAction, n) {
      StoryStep(n);
    }
  }

  lemma StoryIsGood()
    ensures GoodFrom(Story, StoryAction, 7)
  {
  }

  lemma StoryWorks(n: nat)
    ensures ActsWhenBusy(Story, StoryAction, n)
  {
    if n < 12 {
      assert Works(StoryAction(11));
    }
  }

  lemma StoryKeepsWorking()
    ensures KeepsWorking(Story, StoryAction)
  {
    forall n: nat ensures ActsWhenBusy(Story, StoryAction, n) {
      StoryWorks(n);
    }
  }

  /** Runs that meet all the hypotheses need not submit for ever: here nothing is submitted after the
      first action, and the network works from the eighth on. */
  lemma QuietRun()
    ensures IsRun(Story, StoryAction) && GoodFrom(Story, StoryAction, 7) && KeepsWorking(Story, StoryAction)
    ensures forall n: nat :: 0 < n ==> !StoryAction(n).Submit?
    ensures Story(7).submitted == 1 && 0 !in Story(7).freed && Story(12).freed == [0]
  {
    StoryIsRun();
    StoryIsGood();
    StoryKeepsWorking();
  }
}
