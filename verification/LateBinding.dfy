/** A client whose start-up description is lost: what the guarantee of `AudioPipeline.ServerEndToEnd`
    means for it, and that its hypotheses are met. */
module LateBinding {
  import opened AudioTypes
  import opened Options
  import P = Packetizer
  import C = AudioClient
  import H = AudioHandler
  import S = AudioServer
  import F = AudioFiles
  import D = AudioDelivery
  import W = AudioPipeline

  /** The datagrams of a client with float samples whose secret names `device`. */
  function Datagrams(packets: seq<Audio>, client: S.Address, secret: nat, device: nat): (datagrams: seq<S.Datagram>)
    ensures |datagrams| == |packets|
  {
    seq(|packets|, i requires 0 <= i < |packets| =>
      S.Datagram(client, S.AsF32(F32, packets[i]), Some(packets[i]), map[secret := device], 0))
  }

  lemma {:induction false} DatagramsArrive(packets: seq<Audio>, client: S.Address, secret: nat, device: nat)
    ensures F.Packets(S.From(Datagrams(packets, client, secret, device), client)) == packets
  {
    var datagrams := Datagrams(packets, client, secret, device);
    if packets != [] {
      var n := |packets| - 1;
      DatagramsArrive(packets[..n], client, secret, device);
      assert datagrams == Datagrams(packets[..n], client, secret, device) + [datagrams[n]];
      W.PacketsFromSnoc(datagrams[..n], datagrams[n], client);
    }
  }

  /** Every packet arrives once. */
  function Once(packets: seq<Audio>): (log: D.Log)
    ensures |log| == |packets|
  {
    seq(|packets|, i requires 0 <= i < |packets| => D.Transmission(packets[i], 1))
  }

  lemma {:induction false} OnceDelivers(packets: seq<Audio>, lost: Audio)
    ensures D.Deliver([D.Transmission(lost, 0)] + Once(packets)) == packets
  {
    var log := [D.Transmission(lost, 0)] + Once(packets);
    if packets == [] {
      assert log[..0] == [];
    } else {
      var n := |packets| - 1;
      OnceDelivers(packets[..n], lost);
      assert log == ([D.Transmission(lost, 0)] + Once(packets[..n])) + [D.Transmission(packets[n], 1)];
      D.DeliverSnoc([D.Transmission(lost, 0)] + Once(packets[..n]), D.Transmission(packets[n], 1));
      assert D.Repeat(packets[n], 1) == [packets[n]];
    }
  }

  /** The packets of a client whose run starts with its description. */
  lemma StartsWithSpec(secret: nat, spec: Spec, ops: seq<P.Op>)
    ensures P.Run(P.Initial(secret, spec), [P.SendSpec] + ops).out
         == [SpecOf(secret, spec)] + P.Run(P.Initial(secret, spec), ops).out
  {
    var s := P.Initial(secret, spec);
    P.RunAppend(s, [P.SendSpec], ops);
    assert [P.SendSpec][..0] == [];
    assert P.Run(s, [P.SendSpec]) == s.(out := [SpecOf(secret, spec)] + s.out);
    P.RunBehind(s, [SpecOf(secret, spec)], ops);
  }

  lemma {:induction false} EveryStrangerIsAsked(packets: seq<Audio>, client: S.Address, secret: nat, device: nat)
    requires forall i :: 0 <= i < |packets| ==> !packets[i].SpecOf?
    ensures S.Run(Datagrams(packets, client, secret, device))
         == S.Server(map[], seq(|packets|, _ => client))
  {
    if packets != [] {
      var n := |packets| - 1;
      EveryStrangerIsAsked(packets[..n], client, secret, device);
      assert Datagrams(packets, client, secret, device)[..n] == Datagrams(packets[..n], client, secret, device);
    }
  }

  lemma {:induction false} CollectorStep(c: C.Config, front: seq<C.Input>, inputs: seq<C.Input>, input: C.Input)
    requires inputs == front + [input]
    ensures C.CollectorAfter(c, inputs) == C.InputAfter(c, C.CollectorAfter(c, front), input)
    ensures C.CollectorOps(c, inputs)
         == C.CollectorOps(c, front) + C.InputOps(c, C.CollectorAfter(c, front), input)
  {
    C.CollectorSnoc(c, front, inputs, input);
    assert (front + [input])[..|front|] == front;
  }

  lemma {:induction false} StartsAlone(c: C.Config)
    ensures C.CollectorAfter(c, [C.Started]) == C.CollectorAfter(c, [])
    ensures C.CollectorOps(c, [C.Started]) == [P.SendSpec]
  {
    CollectorStep(c, [], [C.Started], C.Started);
  }

  lemma OpsInFront(first: seq<P.Op>, ops: seq<P.Op>, more: seq<P.Op>)
    ensures first + ops + more == first + (ops + more)
  {
  }

  /** The two runs do the same, but for the first call. */
  ghost predicate OneBehind(c: C.Config, inputs: seq<C.Input>, started: seq<C.Input>) {
    && C.CollectorAfter(c, started) == C.CollectorAfter(c, inputs)
    && C.CollectorOps(c, started) == [P.SendSpec] + C.CollectorOps(c, inputs)
  }

  lemma {:induction false} StaysBehind(c: C.Config, inputs: seq<C.Input>, started: seq<C.Input>,
                                       more: seq<C.Input>, startedMore: seq<C.Input>, input: C.Input)
    requires OneBehind(c, inputs, started) && more == inputs + [input] && startedMore == started + [input]
    ensures OneBehind(c, more, startedMore)
  {
    CollectorStep(c, inputs, more, input);
    CollectorStep(c, started, startedMore, input);
    OpsInFront([P.SendSpec], C.CollectorOps(c, inputs), C.InputOps(c, C.CollectorAfter(c, inputs), input));
  }

  lemma {:induction false} StartsTheRun(c: C.Config, inputs: seq<C.Input>)
    ensures OneBehind(c, inputs, [C.Started] + inputs)
  {
    if inputs == [] {
      StartsAlone(c);
      assert [C.Started] + inputs == [C.Started];
    } else {
      var n := |inputs| - 1;
      StartsTheRun(c, inputs[..n]);
      C.InputsExtend([C.Started], inputs);
      assert inputs == inputs[..n] + [inputs[n]];
      StaysBehind(c, inputs[..n], [C.Started] + inputs[..n], inputs, [C.Started] + inputs, inputs[n]);
    }
  }

  lemma {:induction false} OutGrows(s: P.Sink, ops: seq<P.Op>)
    requires s.Valid()
    ensures s.out <= P.Run(s, ops).out
  {
    if ops != [] {
      OutGrows(s, ops[..|ops| - 1]);
    }
  }

  /** The packets of the longer run begin with those of the shorter. */
  ghost predicate Grows(c: C.Config, s: P.Sink, some: seq<C.Input>, inputs: seq<C.Input>)
    requires s.Valid()
  {
    P.Run(s, C.CollectorOps(c, some)).out <= P.Run(s, C.CollectorOps(c, inputs)).out
  }

  lemma {:induction false} InputGrows(c: C.Config, s: P.Sink, front: seq<C.Input>, inputs: seq<C.Input>, input: C.Input)
    requires s.Valid() && inputs == front + [input]
    ensures Grows(c, s, front, inputs)
  {
    C.CollectorSnoc(c, front, inputs, input);
    var ops := C.InputOps(c, C.CollectorAfter(c, front), input);
    P.RunAppend(s, C.CollectorOps(c, front), ops);
    OutGrows(P.Run(s, C.CollectorOps(c, front)), ops);
  }

  lemma {:induction false} GrowsOn(c: C.Config, s: P.Sink, some: seq<C.Input>, front: seq<C.Input>, inputs: seq<C.Input>)
    requires s.Valid() && Grows(c, s, some, front) && Grows(c, s, front, inputs)
    ensures Grows(c, s, some, inputs)
  {
  }

  lemma {:induction false} CollectorGrows(c: C.Config, s: P.Sink, some: seq<C.Input>, more: seq<C.Input>,
                                          inputs: seq<C.Input>)
    requires s.Valid() && inputs == some + more
    ensures Grows(c, s, some, inputs)
  {
    if more == [] {
      assert inputs == some;
    } else {
      var n := |more| - 1;
      CollectorGrows(c, s, some, more[..n], some + more[..n]);
      C.InputsExtend(some, more);
      InputGrows(c, s, some + more[..n], inputs, more[n]);
      GrowsOn(c, s, some, some + more[..n], inputs);
    }
  }

  lemma AnswerFollows(c: C.Config, secret: nat, spec: Spec, inputs: seq<C.Input>, more: seq<C.Input>)
    requires more == inputs + [C.Packet(true, Handshake)]
    ensures P.Run(P.Initial(secret, spec), C.CollectorOps(c, more)).out
         == P.Run(P.Initial(secret, spec), C.CollectorOps(c, inputs)).out + [SpecOf(secret, spec)]
  {
    var ops := C.CollectorOps(c, inputs);
    SecretsStay(secret, spec, ops);
    C.CollectorSnoc(c, inputs, more, C.Packet(true, Handshake));
    RunOneMore(P.Initial(secret, spec), ops, C.CollectorOps(c, more), P.SendSpec);
  }

  lemma SilentBefore(c: C.Config, secret: nat, spec: Spec, inputs: seq<C.Input>)
    requires forall k :: 0 <= k < |inputs| ==> !inputs[k].Started? && inputs[k] != C.Packet(true, Handshake)
    ensures var out := P.Run(P.Initial(secret, spec), C.CollectorOps(c, inputs)).out;
            forall k :: 0 <= k < |out| ==> !out[k].SpecOf?
  {
    C.DescriptionsAnswer(c, secret, spec, inputs);
    NobodyAsks(inputs);
    C.NoneDescribed(P.Run(P.Initial(secret, spec), C.CollectorOps(c, inputs)).out);
  }

  /** Until it is asked, a client without a start describes nothing; the answer is its next packet. */
  lemma AnswersFirstHandshake(c: C.Config, secret: nat, spec: Spec, inputs: seq<C.Input>,
                              before: seq<C.Input>, asked: seq<C.Input>)
    requires asked == before + [C.Packet(true, Handshake)] && asked <= inputs
    requires forall k :: 0 <= k < |before| ==> !before[k].Started? && before[k] != C.Packet(true, Handshake)
    ensures var out := P.Run(P.Initial(secret, spec), C.CollectorOps(c, before)).out;
            && (forall k :: 0 <= k < |out| ==> !out[k].SpecOf?)
            && out + [SpecOf(secret, spec)] <= P.Run(P.Initial(secret, spec), C.CollectorOps(c, inputs)).out
  {
    SilentBefore(c, secret, spec, before);
    AnswerFollows(c, secret, spec, before, asked);
    CollectorGrows(c, P.Initial(secret, spec), asked, inputs[|asked|..], inputs);
  }

  lemma {:induction false} NobodyAsks(inputs: seq<C.Input>)
    requires forall k :: 0 <= k < |inputs| ==> !inputs[k].Started? && inputs[k] != C.Packet(true, Handshake)
    ensures C.Starts(inputs) == C.Handshakes(inputs) == 0
  {
    if inputs != [] {
      NobodyAsks(inputs[..|inputs| - 1]);
    }
  }

  /** With `out` the packets behind the lost description, each of which arrives once: packet `first` of
      these binds the client to `device`, every one before it provokes a handshake, and the hypotheses of
      `AudioPipeline.ServerEndToEnd` hold for the sink calls `ops`. */
  ghost predicate BindsLate(secret: nat, spec: Spec, ops: seq<P.Op>, out: seq<Audio>,
                            client: S.Address, device: nat, first: nat) {
    var datagrams := Datagrams(out, client, secret, device);
    && S.FirstBinding(datagrams, client, first)
    && S.DeviceOf(datagrams[first], client) == device
    && S.Run(datagrams[..first]).handshakes == seq(first, _ => client)
    && D.Connected(secret, spec, ops, [D.Transmission(SpecOf(secret, spec), 0)] + Once(out), S.From(datagrams, client))
  }

  lemma {:induction false} AnswerBinds(c: C.Config, secret: nat, spec: Spec, inputs: seq<C.Input>,
                                       before: seq<C.Input>, asked: seq<C.Input>, client: S.Address, device: nat)
    requires asked == before + [C.Packet(true, Handshake)] && asked <= inputs
    requires forall k :: 0 <= k < |before| ==> !before[k].Started? && before[k] != C.Packet(true, Handshake)
    ensures BindsLate(secret, spec, [P.SendSpec] + C.CollectorOps(c, inputs),
                      P.Run(P.Initial(secret, spec), C.CollectorOps(c, inputs)).out, client, device,
                      |P.Run(P.Initial(secret, spec), C.CollectorOps(c, before)).out|)
  {
    AnswersFirstHandshake(c, secret, spec, inputs, before, asked);
    BoundByDescription(secret, spec, C.CollectorOps(c, inputs), client, device,
                       |P.Run(P.Initial(secret, spec), C.CollectorOps(c, before)).out|);
  }

  /** The start-up description of any client with float samples is lost and everything else arrives
      once.  Each packet before the client's answer to the first handshake that reaches it provokes
      a handshake, that answer binds the client, and however many more of them are on their way,
      `AudioPipeline.ServerEndToEnd` applies. */
  lemma {:induction false} LostDescription(c: C.Config, secret: nat, spec: Spec, inputs: seq<C.Input>, i: nat,
                                           client: S.Address, device: nat)
    requires i < |inputs| && inputs[i] == C.Packet(true, Handshake)
    requires forall k :: 0 <= k < i ==> !inputs[k].Started? && inputs[k] != C.Packet(true, Handshake)
    ensures BindsLate(secret, spec, C.CollectorOps(c, [C.Started] + inputs),
                      P.Run(P.Initial(secret, spec), C.CollectorOps(c, inputs)).out, client, device,
                      |P.Run(P.Initial(secret, spec), C.CollectorOps(c, inputs[..i])).out|)
  {
    StartsTheRun(c, inputs);
    AnswerBinds(c, secret, spec, inputs, inputs[..i], inputs[..i + 1], client, device);
  }

  /** The same of any sink calls whose first description is packet `first`. */
  lemma {:induction false} BoundByDescription(secret: nat, spec: Spec, ops: seq<P.Op>, client: S.Address, device: nat,
                                              first: nat)
    requires var out := P.Run(P.Initial(secret, spec), ops).out;
             first < |out| && out[first].SpecOf? && forall i :: 0 <= i < first ==> !out[i].SpecOf?
    ensures BindsLate(secret, spec, [P.SendSpec] + ops, P.Run(P.Initial(secret, spec), ops).out, client, device, first)
  {
    var out := P.Run(P.Initial(secret, spec), ops).out;
    SecretsAgree(secret, spec, ops, first);
    BindsAtFirst(out, client, secret, device, first);
    ConnectedOnce(secret, spec, ops, client, device);
    HandshakesBefore(out, client, secret, device, first);
  }

  lemma {:induction false} HandshakesBefore(out: seq<Audio>, client: S.Address, secret: nat, device: nat, first: nat)
    requires first <= |out| && forall i :: 0 <= i < first ==> !out[i].SpecOf?
    ensures S.Run(Datagrams(out, client, secret, device)[..first]).handshakes == seq(first, _ => client)
  {
    assert Datagrams(out, client, secret, device)[..first] == Datagrams(out[..first], client, secret, device);
    EveryStrangerIsAsked(out[..first], client, secret, device);
  }

  lemma {:induction false} ConnectedOnce(secret: nat, spec: Spec, ops: seq<P.Op>, client: S.Address, device: nat)
    ensures var out := P.Run(P.Initial(secret, spec), ops).out;
            D.Connected(secret, spec, [P.SendSpec] + ops, [D.Transmission(SpecOf(secret, spec), 0)] + Once(out),
                        S.From(Datagrams(out, client, secret, device), client))
  {
    var out := P.Run(P.Initial(secret, spec), ops).out;
    StartsWithSpec(secret, spec, ops);
    DatagramsArrive(out, client, secret, device);
    OnceDelivers(out, SpecOf(secret, spec));
    OncePackets(out, SpecOf(secret, spec));
  }

  lemma OncePackets(packets: seq<Audio>, lost: Audio)
    ensures D.PacketsOf([D.Transmission(lost, 0)] + Once(packets)) == [lost] + packets
  {
  }

  lemma BindsAtFirst(out: seq<Audio>, client: S.Address, secret: nat, device: nat, first: nat)
    requires first < |out| && out[first].SpecOf? && out[first].secret == secret
    requires forall i :: 0 <= i < first ==> !out[i].SpecOf?
    ensures var datagrams := Datagrams(out, client, secret, device);
            S.FirstBinding(datagrams, client, first) && S.DeviceOf(datagrams[first], client) == device
  {
  }

  /** A client only ever sends its own description. */
  lemma {:induction false} SecretsAgree(secret: nat, spec: Spec, ops: seq<P.Op>, i: nat)
    requires var out := P.Run(P.Initial(secret, spec), ops).out; i < |out| && out[i].SpecOf?
    ensures var s := P.Run(P.Initial(secret, spec), ops); s.out[i] == SpecOf(secret, spec)
    ensures P.Run(P.Initial(secret, spec), ops).secret == secret && P.Run(P.Initial(secret, spec), ops).spec == spec
  {
    var front := ops[..|ops| - 1];
    SecretsStay(secret, spec, ops);
    SecretsStay(secret, spec, front);
    if i < |P.Run(P.Initial(secret, spec), front).out| {
      SecretsAgree(secret, spec, front, i);
    }
  }

  lemma {:induction false} SecretsStay(secret: nat, spec: Spec, ops: seq<P.Op>)
    ensures P.Run(P.Initial(secret, spec), ops).secret == secret && P.Run(P.Initial(secret, spec), ops).spec == spec
  {
    if ops != [] {
      SecretsStay(secret, spec, ops[..|ops| - 1]);
    }
  }

  function Records(xs: seq<Sample>): (ops: seq<P.Op>)
    ensures |ops| == |xs|
  {
    seq(|xs|, i requires 0 <= i < |xs| => P.Record(xs[i]))
  }

  lemma {:induction false} SplitOfRecords(xs: seq<Sample>)
    ensures P.Split([P.End] + Records(xs)) == P.Transcript([], xs, true)
  {
    var ops := [P.End] + Records(xs);
    if xs == [] {
      assert ops == [P.End] && ops[..0] == [];
    } else {
      var n := |xs| - 1;
      SplitOfRecords(xs[..n]);
      assert ops[..|ops| - 1] == [P.End] + Records(xs[..n]);
      assert xs == xs[..n] + [xs[n]];
    }
  }

  /** Descriptions are sent on request only. */
  lemma {:induction false} NoSpecUnasked(s: P.Sink, ops: seq<P.Op>)
    requires s.Valid() && s.out == [] && forall i :: 0 <= i < |ops| ==> !ops[i].SendSpec?
    ensures forall i :: 0 <= i < |P.Run(s, ops).out| ==> !P.Run(s, ops).out[i].SpecOf?
  {
    if ops != [] {
      NoSpecUnasked(s, ops[..|ops| - 1]);
    }
  }

  lemma {:induction false} NothingToRemove(out: seq<Audio>)
    requires forall i :: 0 <= i < |out| ==> !out[i].SpecOf?
    ensures P.WithoutSpecs(out) == out
  {
    if out != [] {
      NothingToRemove(out[..|out| - 1]);
    }
  }

  lemma TwoChunks(xs: seq<Sample>)
    requires |xs| == 1024
    ensures |P.Packets(P.Transcript([], xs, true))| == 2
  {
    assert P.AllFinished([]) == [];
  }

  /** The sink after an end and 1024 samples. */
  predicate AfterTwoChunks(s: P.Sink) {
    && |s.out| == 2 && !s.out[0].SpecOf? && !s.out[1].SpecOf?
    && s.buf == DefaultSamples(512) && s.bufPos == 0 && s.id == 0 && s.seqNo == 2 && s.firstPayloadIgnored
  }

  lemma HoldsTwoChunks(s: P.Sink, xs: seq<Sample>)
    requires |xs| == 1024 && P.Holds(s, P.Transcript([], xs, true))
    ensures s.buf == DefaultSamples(512) && s.bufPos == 0 && s.id == 0 && s.seqNo == 2 && s.firstPayloadIgnored
  {
    assert |xs| / 512 == 2;
    assert xs[1024..] == [];
    assert Padded([]) == DefaultSamples(512);
  }

  lemma TwoChunksSent(secret: nat, spec: Spec, xs: seq<Sample>)
    requires |xs| == 1024
    ensures AfterTwoChunks(P.Run(P.Initial(secret, spec), [P.End] + Records(xs)))
  {
    var ops := [P.End] + Records(xs);
    SplitOfRecords(xs);
    P.PacketizerClosedForm(secret, spec, ops);
    HoldsTwoChunks(P.Run(P.Initial(secret, spec), ops), xs);
    NoSpecUnasked(P.Initial(secret, spec), ops);
    NothingToRemove(P.Run(P.Initial(secret, spec), ops).out);
    TwoChunks(xs);
  }

  lemma {:induction false} RunOneMore(s: P.Sink, ops: seq<P.Op>, more: seq<P.Op>, op: P.Op)
    requires s.Valid() && more == ops + [op]
    ensures P.Run(s, more) == P.Apply(P.Run(s, ops), op)
  {
    assert (ops + [op])[..|ops|] == ops;
  }

  lemma {:induction false} RunTwo(s: P.Sink, a: P.Op, b: P.Op)
    requires s.Valid()
    ensures P.Run(s, [a, b]) == P.Apply(P.Apply(s, a), b)
  {
    RunOneMore(s, [], [a], a);
    RunOneMore(s, [a], [a, b], b);
  }

  lemma {:induction false} RunFour(s: P.Sink, a: P.Op, b: P.Op, c: P.Op, d: P.Op)
    requires s.Valid()
    ensures P.Run(s, [a, b, c, d]) == P.Apply(P.Apply(P.Apply(P.Apply(s, a), b), c), d)
  {
    RunTwo(s, a, b);
    RunOneMore(s, [a, b], [a, b, c], c);
    RunOneMore(s, [a, b, c], [a, b, c, d], d);
  }

  lemma {:induction false} TwoAnswers(s: P.Sink)
    requires s.Valid()
    ensures P.Apply(P.Apply(s, P.SendSpec), P.SendSpec)
         == s.(out := s.out + [SpecOf(s.secret, s.spec), SpecOf(s.secret, s.spec)])
  {
    var d := SpecOf(s.secret, s.spec);
    assert s.out + [d] + [d] == s.out + [d, d];
  }

  lemma {:induction false} SampleAndEnd(s: P.Sink, y: Sample)
    requires s.Valid() && s.buf == DefaultSamples(512) && s.bufPos == 0 && s.firstPayloadIgnored
    ensures P.Apply(P.Apply(s, P.Record(y)), P.End).out
         == s.out + [WavChunk(Chunk(s.id, s.seqNo, 1, Padded([y]))), WavEnd(s.id)]
  {
    assert DefaultSamples(512)[0 := y] == Padded([y]);
    var c := WavChunk(Chunk(s.id, s.seqNo, 1, Padded([y])));
    assert s.out + [c] + [WavEnd(s.id)] == s.out + [c, WavEnd(s.id)];
  }

  /** Two answers to handshakes, a sample, and the end. */
  lemma {:induction false} FourMoreCalls(s: P.Sink, y: Sample)
    requires s.Valid() && s.buf == DefaultSamples(512) && s.bufPos == 0 && s.firstPayloadIgnored
    ensures var d := SpecOf(s.secret, s.spec);
            P.Run(s, [P.SendSpec, P.SendSpec, P.Record(y), P.End]).out
            == s.out + [d, d, WavChunk(Chunk(s.id, s.seqNo, 1, Padded([y]))), WavEnd(s.id)]
  {
    RunFour(s, P.SendSpec, P.SendSpec, P.Record(y), P.End);
    TwoAnswers(s);
    var d := SpecOf(s.secret, s.spec);
    SampleAndEnd(s.(out := s.out + [d, d]), y);
    Join(s.out, [d, d], [WavChunk(Chunk(s.id, s.seqNo, 1, Padded([y]))), WavEnd(s.id)]);
  }

  lemma Join(a: seq<Audio>, b: seq<Audio>, c: seq<Audio>)
    requires |b| == |c| == 2
    ensures a + b + c == a + [b[0], b[1], c[0], c[1]]
  {
  }

  /** Such a run: the start-up description is lost, two chunks provoke a handshake each, the client
      answers both, the first answer binds it and the second reaches its handler.  All that is left
      of the recording is what follows. */
  lemma LateBindingExample(secret: nat, spec: Spec, xs: seq<Sample>, y: Sample, client: S.Address, device: nat)
    requires |xs| == 1024 && spec.sampleFormat.F32?
    ensures var ops := [P.End] + Records(xs) + [P.SendSpec, P.SendSpec, P.Record(y), P.End];
            var out := P.Run(P.Initial(secret, spec), ops).out;
            var datagrams := Datagrams(out, client, secret, device);
            var log := [D.Transmission(SpecOf(secret, spec), 0)] + Once(out);
            && S.FirstBinding(datagrams, client, 2)
            && S.Run(datagrams[..2]).handshakes == [client, client]
            && D.Connected(secret, spec, [P.SendSpec] + ops, log, S.From(datagrams, client))
            && D.Arrived(W.Heard(log, datagrams, client, 2), WavEnd(0))
            && client in S.Run(datagrams).handlers
            && F.Project(S.Run(datagrams).handlers[client], 0) == F.Track(F32, None, Some(Padded([y])), 1)
  {
    var before, more := [P.End] + Records(xs), [P.SendSpec, P.SendSpec, P.Record(y), P.End];
    var s := P.Run(P.Initial(secret, spec), before);
    TwoChunksSent(secret, spec, xs);
    P.RunAppend(P.Initial(secret, spec), before, more);
    SecretsStay(secret, spec, before);
    FourMoreCalls(s, y);
    var out := P.Run(P.Initial(secret, spec), before + more).out;
    var datagrams := Datagrams(out, client, secret, device);
    BoundByDescription(secret, spec, before + more, client, device, 2);
    assert seq(2, _ => client) == [client, client];
    var rest := [SpecOf(secret, spec), WavChunk(Chunk(0, 2, 1, Padded([y]))), WavEnd(0)];
    assert datagrams[3..] == Datagrams(rest, client, secret, device);
    DatagramsArrive(rest, client, secret, device);
    LastIsHeard([D.Transmission(SpecOf(secret, spec), 0)] + Once(out), 3);
    S.BindingDecides(datagrams, client, 2);
    F.RunProjects(H.Initial(device, F32), S.From(datagrams[3..], client), 0);
    TrackOfRest(rest[0], rest[1].chunk);
  }

  lemma LastIsHeard(log: D.Log, k: nat)
    requires log != [] && log[|log| - 1].copies == 1 && 1 < k
    ensures D.Arrived(D.LastArrivals(log, k), log[|log| - 1].packet)
  {
    assert D.LastArrivals(log, k)[|log| - 1] == log[|log| - 1];
  }

  lemma {:induction false} TrackOfRest(d: Audio, c: Chunk)
    requires d.SpecOf? && c.id == 0 && c.seqNo == 2
    ensures F.TrackRun(0, F.Untouched(F32), [d, WavChunk(c), WavEnd(0)]) == F.Track(F32, None, Some(c.payload), 1)
  {
    DescriptionIgnored(d);
    ChunkWritten(F.Untouched(F32), [d], c);
    EndFinishes([d, WavChunk(c)], c.payload);
  }

  lemma {:induction false} DescriptionIgnored(d: Audio)
    requires d.SpecOf?
    ensures F.TrackRun(0, F.Untouched(F32), [d]) == F.Untouched(F32)
  {
    F.TrackRunSnoc(0, F.Untouched(F32), [], d);
    assert [] + [d] == [d];
  }

  lemma {:induction false} ChunkWritten(t: F.Track, before: seq<Audio>, c: Chunk)
    requires F.TrackRun(0, t, before) == F.Untouched(F32) && |before| == 1 && c.id == 0 && c.seqNo == 2
    ensures F.TrackRun(0, t, [before[0], WavChunk(c)]) == F.Track(F32, Some(F.Live(2, c.payload)), None, 0)
  {
    F.TrackRunSnoc(0, t, before, WavChunk(c));
    assert before + [WavChunk(c)] == [before[0], WavChunk(c)];
    ConvertsEntirely(F32, c.payload);
    assert [] + c.payload == c.payload;
  }

  lemma {:induction false} EndFinishes(before: seq<Audio>, file: seq<Sample>)
    requires |before| == 2
    requires F.TrackRun(0, F.Untouched(F32), before) == F.Track(F32, Some(F.Live(2, file)), None, 0)
    ensures F.TrackRun(0, F.Untouched(F32), [before[0], before[1], WavEnd(0)]) == F.Track(F32, None, Some(file), 1)
  {
    F.TrackRunSnoc(0, F.Untouched(F32), before, WavEnd(0));
    assert before + [WavEnd(0)] == [before[0], before[1], WavEnd(0)];
  }
}
