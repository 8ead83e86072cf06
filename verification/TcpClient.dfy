/** The device's TCP client: a single-threaded callback queue that resends a buffer until the
    server has acknowledged it, and reconnects when a send fails.

    `Next` is the machine, one atomic action at a time, so that other threads may submit buffers
    and the start-up timer may fire between any two of them.  `Device` is the class; each of its
    callbacks amounts to a fixed sequence of actions.
 */
module TcpClient {

  /** Buffers are numbered in the order of their allocation. */
  datatype Callback = Connect | Send(buf: nat)

  /** What the dispatching thread is in the middle of. */
  datatype Running = Idle | Connecting | Sending(buf: nat) | Requeueing(buf: nat)

  datatype Client = Client(
    queue: seq<Callback>,
    running: Running,
    startup: bool,        // the delayed connect of the constructor has yet to be queued
    connecting: bool,     // the flag of that name
    open: bool,           // there is a socket that has been connected
    up: bool,             // what the connected test answers
    submitted: nat,
    freed: seq<nat>,
    wire: seq<nat>,       // buffers handed to the network, with repetitions
    reports: seq<int>)    // errors reported to the wireless module

  datatype Failure = WifiDown | OpenFails(err: int) | ConnectFails(err: int)

  datatype Action =
    | Submit
    | StartupFires
    | LinkChanges(up: bool)
    | Dispatch
    | AttemptFails(why: Failure)
    | AttemptSucceeds
    | SendDone(sent: int, response: int)   // return values of the two socket calls
    | Requeue

  predicate Enabled(c: Client, a: Action) {
    match a
    case Submit => true
    case StartupFires => c.startup
    case LinkChanges(up) => up ==> c.open
    case Dispatch => c.running.Idle? && c.queue != []
    case AttemptFails(why) => c.running.Connecting? && (why.WifiDown? || why.err < 0)
    case AttemptSucceeds => c.running.Connecting?
    case SendDone(_, _) => c.running.Sending?
    case Requeue => c.running.Requeueing?
  }

  function Next(c: Client, a: Action): Client
    requires Enabled(c, a)
  {
    match a
    case Submit => c.(queue := c.queue + [Send(c.submitted)], submitted := c.submitted + 1)
    case StartupFires => c.(queue := c.queue + [Connect], startup := false)
    case LinkChanges(up) => c.(up := up)
    case Dispatch =>
      (match c.queue[0]
       case Connect => Closed(c).(queue := c.queue[1..], running := Connecting)
       case Send(b) => c.(queue := c.queue[1..], running := Sending(b)))
    case AttemptFails(why) => if why.WifiDown? then c else c.(reports := c.reports + [why.err])
    case AttemptSucceeds => c.(running := Idle, connecting := false, open := true, up := true)
    case SendDone(sent, response) =>
      var b := c.running.buf;
      var wire := if c.up && 0 <= sent then c.wire + [b] else c.wire;
      if Acknowledged(c, a) then c.(running := Idle, freed := c.freed + [b], wire := wire)
      else if c.connecting then c.(running := Requeueing(b), wire := wire)
      else
        c.(running := Requeueing(b), wire := wire, connecting := true,
           queue := c.queue + [Connect], reports := c.reports + [ErrorCode(c, a)])
    case Requeue => c.(running := Idle, queue := c.queue + [Send(c.running.buf)])
  }

  /** Connecting starts with closing the socket. */
  function Closed(c: Client): Client {
    c.(open := false, up := false)
  }

  predicate Acknowledged(c: Client, a: Action) {
    c.up && a.SendDone? && 0 <= a.sent && 0 <= a.response
  }

  /** A link that is down counts as error 0. */
  function ErrorCode(c: Client, a: Action): int
    requires a.SendDone?
  {
    if !c.up then 0 else if a.sent < 0 then a.sent else a.response
  }

  function Initial(): Client {
    Client([], Idle, true, false, false, false, 0, [], [], [])
  }

  // ------------------------------------------------------------- the class

  class Device {
    var queue: seq<Callback>
    var running: Running
    var startup: bool
    var connecting: bool
    var open: bool
    var up: bool
    var submitted: nat
    var freed: seq<nat>
    var wire: seq<nat>
    var reports: seq<int>

    function View(): Client
      reads this
    {
      Client(queue, running, startup, connecting, open, up, submitted, freed, wire, reports)
    }

    constructor ()
      ensures View() == Initial()
    {
      queue, running, startup, connecting, open, up := [], Idle, true, false, false, false;
      submitted, freed, wire, reports := 0, [], [], [];
    }

    method Submit()
      modifies this
      ensures View() == Next(old(View()), Action.Submit)
    {
      var buf := submitted;
      submitted := submitted + 1;
      Enqueue(buf);
    }

    method Enqueue(buf: nat)
      modifies this`queue
      ensures queue == old(queue) + [Send(buf)]
    {
      queue := queue + [Send(buf)];
    }

    /** `failures` are the rounds of the loop that fail before the one that succeeds. */
    method ConnectSocketCallback(failures: seq<Failure>)
      requires running.Connecting?
      requires forall f :: f in failures ==> f.WifiDown? || f.err < 0
      modifies this
      ensures View() == Next(AfterFailures(Closed(old(View())), failures), AttemptSucceeds)
    {
      Close();
      var round := 0;
      while round < |failures|
        invariant 0 <= round <= |failures|
        invariant View() == Closed(old(View())).(reports := reports)
        invariant reports == AfterFailures(Closed(old(View())), failures[..round]).reports
      {
        var ret := match failures[round] case WifiDown => 0 case OpenFails(err) => err case ConnectFails(err) => err;
        if ret < 0 {
          Close();
          reports := reports + [ret];
        }
        assert failures[..round + 1][..round] == failures[..round];
        round := round + 1;
      }
      assert failures[..|failures|] == failures;
      open, up, connecting, running := true, true, false, Idle;
    }

    method Close()
      modifies this`open, this`up
      ensures View() == Closed(old(View()))
    {
      open, up := false, false;
    }

    /** `sent` and `response` are what the two socket calls would return. */
    method SendCallback(buf: nat, sent: int, response: int)
      requires running == Sending(buf)
      modifies this
      ensures var done := Next(old(View()), SendDone(sent, response));
              View() == if done.running.Requeueing? then Next(done, Requeue) else done
    {
      var ret := 0;
      if up {
        ret := sent;
        if 0 <= ret {
          wire := wire + [buf];
          ret := response;
        }
        if 0 <= ret {
          freed := freed + [buf];
          running := Idle;
          return;
        }
      }
      if !connecting {
        connecting := true;
        reports := reports + [ret];
        queue := queue + [Connect];
      }
      Enqueue(buf);
      running := Idle;
    }
  }

  function AfterFailures(c: Client, failures: seq<Failure>): (c': Client)
    requires c.running.Connecting?
    requires forall f :: f in failures ==> f.WifiDown? || f.err < 0
    ensures c'.(reports := c.reports) == c
  {
    if failures == [] then c
    else Next(AfterFailures(c, failures[..|failures| - 1]), AttemptFails(failures[|failures| - 1]))
  }

  // ------------------------------------------------------------- bookkeeping of connects

  function Connects(queue: seq<Callback>): nat {
    if queue == [] then 0 else (if queue[0].Connect? then 1 else 0) + Connects(queue[1..])
  }

  function One(b: bool): nat {
    if b then 1 else 0
  }

  /** Connects queued or running; the start-up one not before it is queued. */
  function Pending(c: Client): nat {
    Connects(c.queue) + One(c.running.Connecting?)
  }

  /** The flag always has a connect behind it, in the queue itself and not just in the start-up
      timer, and there is at most one connect more than the flag accounts for. */
  ghost predicate ConnectsBalance(c: Client) {
    One(c.connecting) <= Pending(c) && Pending(c) + One(c.startup) <= 1 + One(c.connecting)
  }

  lemma {:induction false} ConnectsAppend(queue: seq<Callback>, cb: Callback)
    ensures Connects(queue + [cb]) == Connects(queue) + One(cb.Connect?)
  {
    if queue != [] {
      ConnectsAppend(queue[1..], cb);
      assert (queue + [cb])[1..] == queue[1..] + [cb];
    }
  }

  // ------------------------------------------------------------- bookkeeping of buffers

  function Sends(queue: seq<Callback>, b: nat): nat {
    if queue == [] then 0 else One(queue[0] == Send(b)) + Sends(queue[1..], b)
  }

  function Count(bufs: seq<nat>, b: nat): nat {
    if bufs == [] then 0 else Count(bufs[..|bufs| - 1], b) + One(bufs[|bufs| - 1] == b)
  }

  /** How many times the client refers to the buffer, pending or freed. */
  function References(c: Client, b: nat): nat {
    Count(c.freed, b) + Pendings(c, b)
  }

  function Pendings(c: Client, b: nat): nat {
    Sends(c.queue, b) + One(c.running == Sending(b) || c.running == Requeueing(b))
  }

  /** Every submitted buffer is either pending exactly once or freed exactly once; no other buffer
      is referred to at all, and what is freed has been on the wire. */
  ghost predicate BuffersConserved(c: Client) {
    && (forall b: nat :: References(c, b) == One(b < c.submitted))
    && (forall b :: b in c.freed ==> b in c.wire)
  }

  /** The connected test never answers yes without a socket, and there is none while connecting. */
  predicate SocketKnown(c: Client) {
    (c.up ==> c.open) && (c.running.Connecting? ==> !c.open)
  }

  lemma {:induction false} SendsAppend(queue: seq<Callback>, cb: Callback, b: nat)
    ensures Sends(queue + [cb], b) == Sends(queue, b) + One(cb == Send(b))
  {
    if queue != [] {
      SendsAppend(queue[1..], cb, b);
      assert (queue + [cb])[1..] == queue[1..] + [cb];
    }
  }

  lemma CountAppend(bufs: seq<nat>, x: nat, b: nat)
    ensures Count(bufs + [x], b) == Count(bufs, b) + One(x == b)
  {
    assert (bufs + [x])[..|bufs|] == bufs;
  }

  // ------------------------------------------------------------- every reachable state

  ghost predicate Inv(c: Client) {
    ConnectsBalance(c) && BuffersConserved(c) && SocketKnown(c)
  }

  lemma StepBalances(c: Client, a: Action)
    requires ConnectsBalance(c) && Enabled(c, a)
    ensures ConnectsBalance(Next(c, a))
  {
    match a
    case Submit => ConnectsAppend(c.queue, Send(c.submitted));
    case StartupFires => ConnectsAppend(c.queue, Connect);
    case Dispatch => DispatchKeepsPending(c);
    case SendDone(_, _) => ConnectsAppend(c.queue, Connect);
    case Requeue => ConnectsAppend(c.queue, Send(c.running.buf));
    case _ =>
  }

  lemma DispatchKeepsPending(c: Client)
    requires Enabled(c, Dispatch)
    ensures Pending(Next(c, Dispatch)) == Pending(c)
  {
  }

  lemma SendDoneConserves(c: Client, a: Action, b: nat)
    requires Enabled(c, a) && a.SendDone?
    ensures References(Next(c, a), b) == References(c, b)
  {
    var sent := c.running.buf;
    if Acknowledged(c, a) {
      CountAppend(c.freed, sent, b);
      assert Next(c, a).freed == c.freed + [sent] && Next(c, a).queue == c.queue;
    } else {
      SendsAppend(c.queue, Connect, b);
      assert Next(c, a).freed == c.freed && Next(c, a).running == Requeueing(sent);
    }
  }

  lemma StepReferences(c: Client, a: Action, b: nat)
    requires Enabled(c, a)
    ensures References(Next(c, a), b) == References(c, b) + One(a.Submit? && b == c.submitted)
  {
    match a
    case Submit => SendsAppend(c.queue, Send(c.submitted), b);
    case Requeue => SendsAppend(c.queue, Send(c.running.buf), b);
    case SendDone(_, _) => SendDoneConserves(c, a, b);
    case _ => SendsAppend(c.queue, Connect, b);
  }

  lemma StepConserves(c: Client, a: Action)
    requires BuffersConserved(c) && Enabled(c, a)
    ensures BuffersConserved(Next(c, a))
  {
    var c' := Next(c, a);
    forall b: nat ensures References(c', b) == One(b < c'.submitted) {
      assert References(c, b) == One(b < c.submitted);
      StepReferences(c, a, b);
    }
    FreedWereSent(c, a);
  }

  lemma FreedWereSent(c: Client, a: Action)
    requires Enabled(c, a) && forall b :: b in c.freed ==> b in c.wire
    ensures forall b :: b in Next(c, a).freed ==> b in Next(c, a).wire
  {
  }

  lemma StepInv(c: Client, a: Action)
    requires Inv(c) && Enabled(c, a)
    ensures Inv(Next(c, a))
  {
    StepBalances(c, a);
    StepConserves(c, a);
  }

  ghost predicate Steps(states: nat -> Client, actions: nat -> Action, n: nat) {
    Enabled(states(n), actions(n)) && states(n + 1) == Next(states(n), actions(n))
  }

  /** A run: consecutive states joined by enabled actions, from the constructor on. */
  ghost predicate IsRun(states: nat -> Client, actions: nat -> Action) {
    states(0) == Initial() && forall n: nat :: Steps(states, actions, n)
  }

  lemma {:induction false} RunInv(states: nat -> Client, actions: nat -> Action, n: nat)
    requires IsRun(states, actions)
    ensures Inv(states(n))
    ensures Pending(states(n)) + One(states(n).startup) <= 2
  {
    if n != 0 {
      RunInv(states, actions, n - 1);
      assert Steps(states, actions, n - 1);
      StepInv(states(n - 1), actions(n - 1));
    }
  }

  lemma {:induction false} CountIsMembership(bufs: seq<nat>, b: nat)
    ensures Count(bufs, b) != 0 <==> b in bufs
  {
    if bufs != [] {
      CountIsMembership(bufs[..|bufs| - 1], b);
      assert bufs == bufs[..|bufs| - 1] + [bufs[|bufs| - 1]];
    }
  }

  /** A buffer is freed at most once, only after it went out over a link that was up and an OK came
      back, and nothing that is still pending refers to it. */
  lemma {:induction false} FreedWasAcknowledged(states: nat -> Client, actions: nat -> Action, n: nat, b: nat)
    requires IsRun(states, actions) && b in states(n).freed
    ensures Count(states(n).freed, b) == 1 && Pendings(states(n), b) == 0
    ensures exists m: nat :: m < n && states(m).running == Sending(b) && states(m).up && actions(m).SendDone?
                             && 0 <= actions(m).sent && 0 <= actions(m).response
  {
    RunInv(states, actions, n);
    assert References(states(n), b) <= 1;
    CountIsMembership(states(n).freed, b);
    if n != 0 {
      if b in states(n - 1).freed {
        FreedWasAcknowledged(states, actions, n - 1, b);
      } else {
        assert Steps(states, actions, n - 1);
        assert states(n - 1).running == Sending(b) && Acknowledged(states(n - 1), actions(n - 1));
      }
    }
  }

  // ------------------------------------------------------------- what is reported

  /** A send fails when the link is down or one of its two calls does. */
  predicate SendFails(c: Client, a: Action) {
    a.SendDone? && (!c.up || a.sent < 0 || a.response < 0)
  }

  /** A send has failed since the client last connected. */
  ghost predicate FailedSinceConnect(states: nat -> Client, actions: nat -> Action, n: nat) {
    exists m: nat {:trigger actions(m)} :: m < n && SendFails(states(m), actions(m)) && NeverConnects(actions, m + 1, n)
  }

  ghost predicate NeverConnects(actions: nat -> Action, m: nat, n: nat) {
    forall k :: m <= k < n ==> !actions(k).AttemptSucceeds?
  }

  /** That is what the flag stands for. */
  lemma {:induction false} FlagMeans(states: nat -> Client, actions: nat -> Action, n: nat)
    requires IsRun(states, actions)
    ensures states(n).connecting <==> FailedSinceConnect(states, actions, n)
  {
    if n != 0 {
      FlagMeans(states, actions, n - 1);
      assert Steps(states, actions, n - 1);
      StepFlag(states, actions, n);
    }
  }

  lemma StepFlag(states: nat -> Client, actions: nat -> Action, n: nat)
    requires n != 0
    ensures FailedSinceConnect(states, actions, n)
       <==> !actions(n - 1).AttemptSucceeds?
            && (SendFails(states(n - 1), actions(n - 1)) || FailedSinceConnect(states, actions, n - 1))
  {
    if FailedSinceConnect(states, actions, n) {
      var m: nat :| m < n && SendFails(states(m), actions(m)) && NeverConnects(actions, m + 1, n);
      assert m < n - 1 ==> NeverConnects(actions, m + 1, n - 1);
    }
    if !actions(n - 1).AttemptSucceeds? {
      if SendFails(states(n - 1), actions(n - 1)) {
        assert NeverConnects(actions, n, n);
      } else if FailedSinceConnect(states, actions, n - 1) {
        var m: nat :| m < n - 1 && SendFails(states(m), actions(m)) && NeverConnects(actions, m + 1, n - 1);
        assert NeverConnects(actions, m + 1, n);
      }
    }
  }

  /** Every failed attempt to connect for which the network is to blame, and of the sends that fail
      between two connects the first: with the error of the call that failed, or 0 for a link that is
      down. */
  ghost function Reported(states: nat -> Client, actions: nat -> Action, n: nat): seq<int> {
    if n == 0 then []
    else
      Reported(states, actions, n - 1) + (
        match actions(n - 1)
        case AttemptFails(OpenFails(err)) => [err]
        case AttemptFails(ConnectFails(err)) => [err]
        case SendDone(sent, response) =>
          if !SendFails(states(n - 1), actions(n - 1)) || FailedSinceConnect(states, actions, n - 1) then []
          else if !states(n - 1).up then [0]
          else if sent < 0 then [sent]
          else [response]
        case _ => [])
  }

  /** The buffer of a send whose first call succeeds over a link that is up. */
  function WiredBy(c: Client, a: Action): seq<nat> {
    match (c.running, a)
    case (Sending(b), SendDone(sent, _)) => if c.up && 0 <= sent then [b] else []
    case _ => []
  }

  /** The buffer of a send of which both calls succeed over such a link. */
  function AnsweredBy(c: Client, a: Action): seq<nat> {
    match (c.running, a)
    case (Sending(b), SendDone(sent, response)) => if c.up && 0 <= sent && 0 <= response then [b] else []
    case _ => []
  }

  ghost function Wired(states: nat -> Client, actions: nat -> Action, n: nat): seq<nat> {
    if n == 0 then [] else Wired(states, actions, n - 1) + WiredBy(states(n - 1), actions(n - 1))
  }

  ghost function Answered(states: nat -> Client, actions: nat -> Action, n: nat): seq<nat> {
    if n == 0 then [] else Answered(states, actions, n - 1) + AnsweredBy(states(n - 1), actions(n - 1))
  }

  lemma {:induction false} ReportsAreExact(states: nat -> Client, actions: nat -> Action, n: nat)
    requires IsRun(states, actions)
    ensures states(n).reports == Reported(states, actions, n)
  {
    if n != 0 {
      ReportsAreExact(states, actions, n - 1);
      FlagMeans(states, actions, n - 1);
      assert Steps(states, actions, n - 1);
    }
  }

  lemma StepLogs(c: Client, a: Action)
    requires Enabled(c, a)
    ensures Next(c, a).wire == c.wire + WiredBy(c, a)
    ensures Next(c, a).freed == c.freed + AnsweredBy(c, a)
  {
  }

  /** Over every run exactly these errors are reported, exactly these buffers go out, and exactly these
      are freed, in this order. */
  lemma {:induction false} LogsAreExact(states: nat -> Client, actions: nat -> Action, n: nat)
    requires IsRun(states, actions)
    ensures states(n).reports == Reported(states, actions, n)
    ensures states(n).wire == Wired(states, actions, n)
    ensures states(n).freed == Answered(states, actions, n)
  {
    ReportsAreExact(states, actions, n);
    if n != 0 {
      LogsAreExact(states, actions, n - 1);
      assert Steps(states, actions, n - 1);
      StepLogs(states(n - 1), actions(n - 1));
    }
  }
}
