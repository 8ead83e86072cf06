/** The audio server: it binds each client address to one handler, and so to one device. */
module AudioServer {
  import opened AudioTypes
  import opened Options
  import opened AudioFiles
  import H = AudioHandler

  type Address = nat

  /** One datagram.  The server itself decodes it as a packet of float samples; a bound handler
      decodes it with its client's own sample format.  `devices` is the secret-to-device table at
      that moment; the server handles nothing else while the lookup runs. */
  datatype Datagram = Datagram(
    client: Address,
    asF32: Option<Audio>,
    native: Option<Audio>,
    devices: map<nat, nat>,
    at: int)

  datatype Server = Server(handlers: map<Address, H.Handler>, handshakes: seq<Address>)

  function Step(s: Server, d: Datagram): Server {
    if d.client in s.handlers then
      s.(handlers := s.handlers[d.client := H.Step(s.handlers[d.client], H.Arrival(d.native, d.at))])
    else
      match d.asF32
      case None => s
      case Some(SpecOf(secret, spec)) =>
        if secret in d.devices
        then s.(handlers := s.handlers[d.client := H.Initial(d.devices[secret], spec.sampleFormat)])
        else s
      case Some(_) => s.(handshakes := s.handshakes + [d.client])
  }

  function Run(datagrams: seq<Datagram>): Server {
    if datagrams == [] then Server(map[], []) else Step(Run(datagrams[..|datagrams| - 1]), datagrams[|datagrams| - 1])
  }

  class Actor {
    var handlers: map<Address, H.Actor>
    var handshakes: seq<Address>   // answers that ask for the stream description
    ghost var repr: set<object>    // the handlers and their writers

    /** No two clients share a handler or a writer. */
    ghost predicate Valid()
      reads this, repr
    {
      && this !in repr
      && (forall c :: c in handlers ==> handlers[c] in repr && handlers[c].repr <= repr && handlers[c].Valid())
      && (forall c, e :: c in handlers && e in handlers && c != e ==>
            handlers[c] != handlers[e] && handlers[c].repr !! handlers[e].repr)
    }

    ghost function View(): Server
      requires Valid()
      reads this, repr
    {
      Server(map c | c in handlers :: handlers[c].View(), handshakes)
    }

    constructor ()
      ensures Valid() && View() == Run([])
    {
      handlers, handshakes, repr := map[], [], {};
    }

    /** `device` is what the lookup of the secret has found. */
    method NewHandler(client: Address, spec: Spec, device: Option<nat>)
      requires Valid() && client !in handlers
      modifies this`handlers, this`repr
      ensures Valid() && old(repr) <= repr && fresh(repr - old(repr))
      ensures View() == if device.Some?
                        then old(View()).(handlers := old(View()).handlers[client := H.Initial(device.value, spec.sampleFormat)])
                        else old(View())
    {
      if device.Some? {
        var handler := new H.Actor(device.value, spec.sampleFormat);
        Insert(client, handler);
      }
    }

    method Insert(client: Address, handler: H.Actor)
      requires Valid() && client !in handlers
      requires handler !in repr && handler.repr == {} && handler.Valid()
      modifies this`handlers, this`repr
      ensures Valid() && repr == old(repr) + {handler}
      ensures View() == old(View()).(handlers := old(View()).handlers[client := handler.View()])
    {
      ghost var before := View().handlers;
      handlers, repr := handlers[client := handler], repr + {handler};
      PutView(before, client, handler.View());
    }

    lemma PutView(before: map<Address, H.Handler>, client: Address, h: H.Handler)
      requires Valid() && handlers.Keys == before.Keys + {client}
      requires handlers[client].View() == h
      requires forall c :: c in before && c != client ==> handlers[c].View() == before[c]
      ensures View().handlers == before[client := h]
    {
    }

    method Forward(client: Address, a: H.Arrival)
      requires Valid() && client in handlers
      modifies this`repr, handlers[client], handlers[client].repr
      ensures Valid() && old(repr) <= repr && fresh(repr - old(repr))
      ensures handlers[client].View() == H.Step(old(handlers[client].View()), a)
      ensures forall c :: c in handlers && c != client ==> handlers[c].View() == old(handlers[c].View())
    {
      handlers[client].Handle(a);
      repr := repr + handlers[client].repr;
    }

    method Handle(d: Datagram)
      requires Valid()
      modifies this, repr
      ensures Valid() && old(repr) <= repr && fresh(repr - old(repr))
      ensures View() == Step(old(View()), d)
    {
      if d.client in handlers {
        ghost var before := View().handlers;
        Forward(d.client, H.Arrival(d.native, d.at));
        PutView(before, d.client, H.Step(before[d.client], H.Arrival(d.native, d.at)));
      } else {
        Stranger(d);
      }
    }

    method Stranger(d: Datagram)
      requires Valid() && d.client !in handlers
      modifies this
      ensures Valid() && old(repr) <= repr && fresh(repr - old(repr))
      ensures View() == Step(old(View()), d)
    {
      match d.asF32
      case None =>
      case Some(SpecOf(secret, spec)) =>
        NewHandler(d.client, spec, if secret in d.devices then Some(d.devices[secret]) else None);
      case Some(_) => AskForSpec(d.client);
    }

    method AskForSpec(client: Address)
      requires Valid()
      modifies this`handshakes
      ensures Valid()
      ensures View() == old(View()).(handshakes := old(handshakes) + [client])
    {
      handshakes := handshakes + [client];
    }
  }

  // ------------------------------------------------------------- attribution

  /** The datagram is a stream description from `client` whose secret names a device. */
  predicate Binds(d: Datagram, client: Address) {
    && d.client == client
    && d.asF32.Some? && d.asF32.value.SpecOf?
    && d.asF32.value.secret in d.devices
  }

  predicate FirstBinding(datagrams: seq<Datagram>, client: Address, i: nat) {
    && i < |datagrams|
    && Binds(datagrams[i], client)
    && forall j :: 0 <= j < i ==> !Binds(datagrams[j], client)
  }

  function DeviceOf(d: Datagram, client: Address): nat
    requires Binds(d, client)
  {
    d.devices[d.asF32.value.secret]
  }

  function FormatOf(d: Datagram, client: Address): SampleFormat
    requires Binds(d, client)
  {
    d.asF32.value.spec.sampleFormat
  }

  /** What the handler of `client` receives. */
  function From(datagrams: seq<Datagram>, client: Address): seq<H.Arrival> {
    if datagrams == [] then []
    else
      var front, d := From(datagrams[..|datagrams| - 1], client), datagrams[|datagrams| - 1];
      if d.client == client then front + [H.Arrival(d.native, d.at)] else front
  }

  lemma {:induction false} UnboundWithoutBinding(datagrams: seq<Datagram>, client: Address)
    requires forall j :: 0 <= j < |datagrams| ==> !Binds(datagrams[j], client)
    ensures client !in Run(datagrams).handlers
  {
    if datagrams != [] {
      UnboundWithoutBinding(datagrams[..|datagrams| - 1], client);
    }
  }

  lemma FromSnoc(datagrams: seq<Datagram>, d: Datagram, client: Address)
    ensures From(datagrams + [d], client)
         == From(datagrams, client) + if d.client == client then [H.Arrival(d.native, d.at)] else []
  {
    assert (datagrams + [d])[..|datagrams|] == datagrams;
  }

  /** A bound client's handler takes a step with that client's datagrams and with no others. */
  lemma BoundStep(s: Server, d: Datagram, client: Address)
    requires client in s.handlers
    ensures client in Step(s, d).handlers
    ensures Step(s, d).handlers[client] ==
            if d.client == client then H.Step(s.handlers[client], H.Arrival(d.native, d.at)) else s.handlers[client]
  {
  }

  lemma BoundStaysBound(s: Server, d: Datagram, client: Address, deviceId: nat, format: SampleFormat, later: seq<Datagram>)
    requires client in s.handlers
    requires s.handlers[client] == H.Run(H.Initial(deviceId, format), From(later, client))
    ensures client in Step(s, d).handlers
    ensures Step(s, d).handlers[client] == H.Run(H.Initial(deviceId, format), From(later + [d], client))
  {
    BoundStep(s, d, client);
    FromSnoc(later, d, client);
    if d.client == client {
      H.RunSnoc(H.Initial(deviceId, format), From(later, client), H.Arrival(d.native, d.at));
    } else {
      assert From(later + [d], client) == From(later, client);
    }
  }

  /** The first binding decides for good: from then on the address is bound to the device its
      secret named at that moment, and its handler is exactly a handler of that device fed with
      the datagrams of that address that follow. */
  lemma {:induction false} BindingDecides(datagrams: seq<Datagram>, client: Address, i: nat)
    requires FirstBinding(datagrams, client, i)
    ensures client in Run(datagrams).handlers
    ensures Run(datagrams).handlers[client]
         == H.Run(H.Initial(DeviceOf(datagrams[i], client), FormatOf(datagrams[i], client)), From(datagrams[i + 1..], client))
  {
    var n := |datagrams| - 1;
    var front, d := datagrams[..n], datagrams[n];
    if i == n {
      UnboundWithoutBinding(front, client);
      assert datagrams[i + 1..] == [];
    } else {
      BindingDecides(front, client, i);
      assert datagrams[i + 1..] == front[i + 1..] + [d];
      BoundStaysBound(Run(front), d, client, DeviceOf(front[i], client), FormatOf(front[i], client), front[i + 1..]);
    }
  }

  /** An address has a handler exactly when it has sent a valid description, and then every writer
      and every event of its handler belongs to the device that the first one named. */
  lemma EventsBelongToTheBoundDevice(datagrams: seq<Datagram>, client: Address)
    ensures client in Run(datagrams).handlers <==> exists i: nat :: FirstBinding(datagrams, client, i)
    ensures forall i: nat :: FirstBinding(datagrams, client, i) ==>
              var h := Run(datagrams).handlers[client];
              && h.deviceId == DeviceOf(datagrams[i], client)
              && Attributed(h)
              && WritersCreated(Packets(From(datagrams[i + 1..], client))) == |h.events| + |h.live|
  {
    forall i: nat | FirstBinding(datagrams, client, i)
      ensures client in Run(datagrams).handlers
      ensures var h := Run(datagrams).handlers[client];
              && h.deviceId == DeviceOf(datagrams[i], client)
              && Attributed(h)
              && WritersCreated(Packets(From(datagrams[i + 1..], client))) == |h.events| + |h.live|
    {
      BindingDecides(datagrams, client, i);
      WriterAccounting(DeviceOf(datagrams[i], client), FormatOf(datagrams[i], client), From(datagrams[i + 1..], client));
    }
    if !exists i: nat :: FirstBinding(datagrams, client, i) {
      NoFirstNoBinding(datagrams, client, |datagrams|);
      UnboundWithoutBinding(datagrams, client);
    }
  }

  lemma {:induction false} NoFirstNoBinding(datagrams: seq<Datagram>, client: Address, n: nat)
    requires n <= |datagrams| && !exists i: nat :: FirstBinding(datagrams, client, i)
    ensures forall j :: 0 <= j < n ==> !Binds(datagrams[j], client)
  {
    if n != 0 {
      NoFirstNoBinding(datagrams, client, n - 1);
      assert !FirstBinding(datagrams, client, n - 1);
    }
  }

  // ------------------------------------------------------------- handshakes

  /** The clients of the datagrams that come before any valid description of theirs and decode as
      something else than a description. */
  ghost function Strangers(datagrams: seq<Datagram>): seq<Address> {
    if datagrams == [] then []
    else
      var n := |datagrams| - 1;
      var d := datagrams[n];
      Strangers(datagrams[..n]) +
      if d.asF32.Some? && !d.asF32.value.SpecOf? && (forall j :: 0 <= j < n ==> !Binds(datagrams[j], d.client))
      then [d.client] else []
  }

  lemma BoundExactlyByBinding(datagrams: seq<Datagram>, client: Address)
    ensures client in Run(datagrams).handlers <==> exists j :: 0 <= j < |datagrams| && Binds(datagrams[j], client)
  {
    if exists j :: 0 <= j < |datagrams| && Binds(datagrams[j], client) {
      if !exists i: nat :: FirstBinding(datagrams, client, i) {
        NoFirstNoBinding(datagrams, client, |datagrams|);
      }
      var i: nat :| FirstBinding(datagrams, client, i);
      BindingDecides(datagrams, client, i);
    } else {
      UnboundWithoutBinding(datagrams, client);
    }
  }

  lemma UnboundBefore(datagrams: seq<Datagram>, client: Address, n: nat)
    requires n <= |datagrams|
    ensures client !in Run(datagrams[..n]).handlers <==> forall j :: 0 <= j < n ==> !Binds(datagrams[j], client)
  {
    BoundExactlyByBinding(datagrams[..n], client);
    assert forall j :: 0 <= j < n ==> datagrams[..n][j] == datagrams[j];
  }

  /** Exactly the strangers are asked for their description, once per datagram. */
  lemma {:induction false} HandshakesGoToStrangers(datagrams: seq<Datagram>)
    ensures Run(datagrams).handshakes == Strangers(datagrams)
  {
    if datagrams != [] {
      var n := |datagrams| - 1;
      HandshakesGoToStrangers(datagrams[..n]);
      UnboundBefore(datagrams, datagrams[n].client, n);
    }
  }

  // ------------------------------------------------------------- sample sizes

  function SampleSize(format: SampleFormat): nat {
    if format.F32? then 4 else 2
  }

  /** The bytes of a packet on the wire: four for its kind, then its fields at fixed width, an
      identifier with the length of its bytes in front. */
  function WireSize(format: SampleFormat, p: Audio): nat {
    4 + match p
        case Handshake => 0
        case SpecOf(_, _) => 8 + 2 + 4 + 2 + 4
        case WavChunk(_) => 8 + 16 + 4 + 1 + 512 * SampleSize(format)
        case WavEnd(_) => 8 + 16
  }

  /** What a packet of another format is to the server, which expects float samples: a chunk runs
      out of bytes, and everything else does not depend on the format. */
  function AsF32(format: SampleFormat, p: Audio): Option<Audio> {
    if WireSize(format, p) < WireSize(F32, p) then None else Some(p)
  }

  /** All that comes from the client are packets in its own format. */
  ghost predicate Speaks(datagrams: seq<Datagram>, client: Address, format: SampleFormat) {
    forall i :: 0 <= i < |datagrams| && datagrams[i].client == client ==>
      datagrams[i].native.Some? && datagrams[i].asF32 == AsF32(format, datagrams[i].native.value)
  }

  /** Packets that make the server ask an unbound client for its description. */
  predicate Provokes(format: SampleFormat, p: Audio) {
    p.WavEnd? || p.Handshake? || (p.WavChunk? && format.F32?)
  }

  /** How many such packets come from the client before its first valid description. */
  ghost function Provocations(datagrams: seq<Datagram>, client: Address, format: SampleFormat): nat {
    if datagrams == [] then 0
    else
      var n := |datagrams| - 1;
      var d := datagrams[n];
      Provocations(datagrams[..n], client, format) +
      if d.client == client && d.native.Some? && Provokes(format, d.native.value)
         && (forall j :: 0 <= j < n ==> !Binds(datagrams[j], client))
      then 1 else 0
  }

  /** A client with float samples is asked at each of its chunks, one with 16-bit samples only when
      an end packet of it comes, because its chunks are too short for the server to decode. */
  lemma {:induction false} HandshakesPerFormat(datagrams: seq<Datagram>, client: Address, format: SampleFormat)
    requires Speaks(datagrams, client, format)
    ensures multiset(Run(datagrams).handshakes)[client] == Provocations(datagrams, client, format)
  {
    if datagrams != [] {
      var n := |datagrams| - 1;
      HandshakesPerFormat(datagrams[..n], client, format);
      UnboundBefore(datagrams, client, n);
      HandshakeStep(Run(datagrams[..n]), datagrams[n], client, format);
    }
  }

  lemma HandshakeStep(s: Server, d: Datagram, client: Address, format: SampleFormat)
    requires d.client == client ==> d.native.Some? && d.asF32 == AsF32(format, d.native.value)
    ensures multiset(Step(s, d).handshakes)[client] == multiset(s.handshakes)[client] +
            if d.client == client && client !in s.handlers && Provokes(format, d.native.value) then 1 else 0
  {
  }
}
