/** The audio client: the noise gate over real samples, the packetizing sink it drives,
    and the collector that owns both. */
module AudioClient {
  import opened AudioTypes
  import Gate = NoiseGate
  import P = Packetizer

  // ------------------------------------------------------------- loudness

  /** Unsigned samples are centred on their equilibrium. */
  function Signed(format: SampleFormat, sample: Sample): Sample {
    if format.U16? then sample - 32768.0 else sample
  }

  /** Negation of a signed sample.  The smallest 16-bit value is its own negation. */
  function Negated(format: SampleFormat, x: Sample): Sample {
    if !format.F32? && x == -32768.0 then x else -x
  }

  predicate BelowThreshold(format: SampleFormat, sample: Sample, threshold: Sample) {
    var t := Signed(format, threshold);
    var magnitude := if t >= 0.0 then t else Negated(format, t);
    Negated(format, magnitude) < Signed(format, sample) < magnitude
  }

  function Abs(x: real): real {
    if x >= 0.0 then x else -x
  }

  /** Below the threshold means strictly nearer to the equilibrium than it, which lies at 32768 for
      unsigned samples, except that a 16-bit threshold at the smallest value makes every sample loud. */
  lemma BelowThresholdMeaning(format: SampleFormat, sample: Sample, threshold: Sample)
    ensures BelowThreshold(format, sample, threshold) <==>
            match format
            case U16 => Abs(sample - 32768.0) < Abs(threshold - 32768.0) && threshold != 0.0
            case I16 => Abs(sample) < Abs(threshold) && threshold != -32768.0
            case F32 => Abs(sample) < Abs(threshold)
  {
    var t := Signed(format, threshold);
    if !format.F32? && t == -32768.0 {
      assert !BelowThreshold(format, sample, threshold);
    }
  }

  /** With that threshold silence is loud, in both 16-bit formats. */
  lemma SilenceCanBeLoud()
    ensures !BelowThreshold(I16, 0.0, -32768.0) && !BelowThreshold(U16, 32768.0, 0.0)
    ensures BelowThreshold(I16, 0.0, -32767.0) && BelowThreshold(F32, 0.0, -32768.0)
  {
  }

  // ------------------------------------------------------------- the calls a stream causes

  datatype Config = Config(format: SampleFormat, threshold: Sample, release: nat)

  function Louds(c: Config, samples: seq<Sample>): (louds: seq<bool>)
    ensures |louds| == |samples|
  {
    seq(|samples|, i requires 0 <= i < |samples| => !BelowThreshold(c.format, samples[i], c.threshold))
  }

  function OpOf(signal: Gate.Signal, sample: Sample): seq<P.Op> {
    match signal
    case Recorded => [P.Record(sample)]
    case Ended => [P.End]
    case Silent => []
  }

  /** The calls for one verdict per sample, in order. */
  function OpsOf(signals: seq<Gate.Signal>, samples: seq<Sample>): seq<P.Op>
    requires |signals| == |samples|
  {
    if samples == [] then []
    else
      var n := |samples| - 1;
      OpsOf(signals[..n], samples[..n]) + OpOf(signals[n], samples[n])
  }

  /** The sink calls caused by a stream that meets the gate in state `s`. */
  function StreamOps(c: Config, s: Gate.State, samples: seq<Sample>): seq<P.Op> {
    OpsOf(Gate.Signals(c.release, s, Louds(c, samples)), samples)
  }

  function StreamAfter(c: Config, s: Gate.State, samples: seq<Sample>): Gate.State {
    Gate.After(c.release, s, Louds(c, samples))
  }

  lemma StreamSnoc(c: Config, s: Gate.State, samples: seq<Sample>, x: Sample)
    ensures var before, loud := StreamAfter(c, s, samples), !BelowThreshold(c.format, x, c.threshold);
            && StreamAfter(c, s, samples + [x]) == Gate.Next(c.release, before, loud)
            && StreamOps(c, s, samples + [x])
               == StreamOps(c, s, samples) + OpOf(Gate.Emit(c.release, before, loud), x)
  {
    var all := samples + [x];
    assert Louds(c, all)[..|samples|] == Louds(c, samples);
    assert all[..|samples|] == samples;
    var signals := Gate.Signals(c.release, s, Louds(c, all));
    assert signals[..|samples|] == Gate.Signals(c.release, s, Louds(c, samples));
  }

  lemma OpsOfSnoc(signals: seq<Gate.Signal>, samples: seq<Sample>, signal: Gate.Signal, sample: Sample)
    requires |signals| == |samples|
    ensures OpsOf(signals + [signal], samples + [sample]) == OpsOf(signals, samples) + OpOf(signal, sample)
  {
    assert (signals + [signal])[..|samples|] == signals;
    assert (samples + [sample])[..|samples|] == samples;
  }

  lemma {:induction false} OpsOfAppend(s1: seq<Gate.Signal>, x1: seq<Sample>, s2: seq<Gate.Signal>, x2: seq<Sample>)
    requires |s1| == |x1| && |s2| == |x2|
    ensures OpsOf(s1 + s2, x1 + x2) == OpsOf(s1, x1) + OpsOf(s2, x2)
  {
    if x2 == [] {
      assert s1 + s2 == s1 && x1 + x2 == x1;
    } else {
      var n := |x2| - 1;
      var s, x := s2[..n], x2[..n];
      calc {
        OpsOf(s1 + s2, x1 + x2);
      == { assert s1 + s2 == (s1 + s) + [s2[n]] && x1 + x2 == (x1 + x) + [x2[n]]; }
        OpsOf((s1 + s) + [s2[n]], (x1 + x) + [x2[n]]);
      == { OpsOfSnoc(s1 + s, x1 + x, s2[n], x2[n]); }
        OpsOf(s1 + s, x1 + x) + OpOf(s2[n], x2[n]);
      == { OpsOfAppend(s1, x1, s, x); }
        OpsOf(s1, x1) + OpsOf(s, x) + OpOf(s2[n], x2[n]);
      == // associativity
        OpsOf(s1, x1) + (OpsOf(s, x) + OpOf(s2[n], x2[n]));
      ==
        OpsOf(s1, x1) + OpsOf(s2, x2);
      }
    }
  }

  /** Feeding two blocks in turn causes the calls of the joined block. */
  lemma StreamOpsCompose(c: Config, s: Gate.State, first: seq<Sample>, second: seq<Sample>)
    ensures StreamAfter(c, s, first + second) == StreamAfter(c, StreamAfter(c, s, first), second)
    ensures StreamOps(c, s, first + second)
         == StreamOps(c, s, first) + StreamOps(c, StreamAfter(c, s, first), second)
  {
    assert Louds(c, first + second) == Louds(c, first) + Louds(c, second);
    Gate.BlocksCompose(c.release, s, Louds(c, first), Louds(c, second));
    OpsOfAppend(Gate.Signals(c.release, s, Louds(c, first)), first,
                Gate.Signals(c.release, StreamAfter(c, s, first), Louds(c, second)), second);
  }

  /** The calls told without the gate's state: a sample is recorded when a loud one lies within
      the release window, and the end is announced when the last loud one leaves it. */
  ghost function OpsByWindow(c: Config, samples: seq<Sample>): seq<P.Op> {
    if samples == [] then []
    else
      var n, louds := |samples| - 1, Louds(c, samples);
      OpsByWindow(c, samples[..n]) +
      (if Gate.LoudWithin(louds, n, c.release + 2) then [P.Record(samples[n])]
       else if Gate.LastLoudAt(louds, n, n - c.release - 2) then [P.End]
       else [])
  }

  lemma {:induction false} StreamClosedForm(c: Config, samples: seq<Sample>)
    ensures StreamOps(c, Gate.Closed, samples) == OpsByWindow(c, samples)
  {
    if samples != [] {
      var n, louds := |samples| - 1, Louds(c, samples);
      StreamClosedForm(c, samples[..n]);
      Gate.GateClosedForm(c.release, louds, n);
      LastSignal(c, samples);
    }
  }

  lemma LastSignal(c: Config, samples: seq<Sample>)
    requires samples != []
    ensures var n := |samples| - 1;
            (StreamOps(c, Gate.Closed, samples)
             == StreamOps(c, Gate.Closed, samples[..n])
                + OpOf(Gate.Signals(c.release, Gate.Closed, Louds(c, samples))[n], samples[n]))
  {
    var n, louds := |samples| - 1, Louds(c, samples);
    assert louds[..n] == Louds(c, samples[..n]);
    assert Gate.Signals(c.release, Gate.Closed, louds)[..n] == Gate.Signals(c.release, Gate.Closed, louds[..n]);
  }

  // ------------------------------------------------------------- the sink

  class AudioSink {
    const secret: nat
    const spec: Spec
    var buf: array<Sample>
    var bufPos: nat
    var id: Uuid
    var seqNo: nat
    var firstPayloadIgnored: bool
    var sent: seq<Audio>

    predicate Valid()
      reads this
    {
      buf.Length == 512 && bufPos < 512
    }

    function View(): P.Sink
      reads this, buf
    {
      P.Sink(secret, spec, buf[..], bufPos, id, seqNo, firstPayloadIgnored, sent)
    }

    constructor (secret: nat, spec: Spec)
      ensures Valid() && fresh(buf)
      ensures View() == P.Initial(secret, spec)
    {
      this.secret, this.spec := secret, spec;
      buf := new Sample[512](_ => 0.0);
      bufPos, id, seqNo, firstPayloadIgnored, sent := 0, 0, 0, false, [];
      new;
      assert buf[..] == DefaultSamples(512);
    }

    method WriteSpec()
      modifies this`sent
      ensures View() == P.WriteSpec(old(View()))
    {
      sent := sent + [SpecOf(secret, spec)];
    }

    /** Sends the whole buffer and replaces it by one of default samples. */
    method WritePayload()
      requires buf.Length == 512
      modifies this`sent, this`buf, this`bufPos, this`seqNo
      ensures Valid() && fresh(buf)
      ensures View() == P.WritePayload(old(View()))
    {
      sent := sent + [WavChunk(Chunk(id, seqNo, bufPos % 256, buf[..]))];
      buf := new Sample[512](_ => 0.0);
      assert buf[..] == DefaultSamples(512);
      bufPos := 0;
      seqNo := (seqNo + 1) % 0x1_0000_0000;
    }

    method WriteEof()
      modifies this`sent, this`id, this`seqNo
      ensures View() == P.WriteEof(old(View()))
    {
      sent := sent + [WavEnd(id)];
      id, seqNo := id + 1, 0;
    }

    method Record(sample: Sample)
      requires Valid()
      modifies this, buf
      ensures Valid() && (buf == old(buf) || fresh(buf))
      ensures View() == P.Apply(old(View()), P.Record(sample))
    {
      buf[bufPos] := sample;
      bufPos := bufPos + 1;
      if bufPos == 512 {
        WritePayload();
      }
    }

    method EndOfTransmission()
      requires Valid()
      modifies this
      ensures Valid() && (buf == old(buf) || fresh(buf))
      ensures View() == P.Apply(old(View()), P.End)
    {
      if !firstPayloadIgnored {
        firstPayloadIgnored := true;
        return;
      }
      if bufPos != 0 {
        WritePayload();
        WriteEof();
      }
    }
  }

  // ------------------------------------------------------------- the gate

  class SampleGate {
    const config: Config
    var state: Gate.State

    constructor (config: Config)
      ensures this.config == config && state == Gate.Closed
    {
      this.config, state := config, Gate.Closed;
    }

    method NextState(sample: Sample)
      modifies this
      ensures state == Gate.Next(config.release, old(state), IsLoud(config, sample))
    {
      var below := BelowThreshold(config.format, sample, config.threshold);
      match state
      case Open =>
        state := if below then Gate.Closing(config.release) else Gate.Open;
      case Closing(remaining) =>
        if below {
          state := if remaining == 0 then Gate.Closed else Gate.Closing(remaining - 1);
        } else {
          state := Gate.Open;
        }
      case Closed =>
        state := if below then Gate.Closed else Gate.Open;
    }

    method ProcessSample(sample: Sample, sink: AudioSink)
      requires sink.Valid()
      modifies this, sink, sink.buf
      ensures sink.Valid() && (sink.buf == old(sink.buf) || fresh(sink.buf))
      ensures state == Gate.Next(config.release, old(state), IsLoud(config, sample))
      ensures sink.View() ==
              AfterSignal(old(sink.View()), Gate.Emit(config.release, old(state), IsLoud(config, sample)), sample)
    {
      var wasOpen := state.IsOpen();
      NextState(sample);
      if state.IsOpen() {
        sink.Record(sample);
      } else if wasOpen {
        sink.EndOfTransmission();
      }
    }

    method Process(samples: seq<Sample>, sink: AudioSink)
      requires sink.Valid()
      modifies this, sink, sink.buf
      ensures sink.Valid() && (sink.buf == old(sink.buf) || fresh(sink.buf))
      ensures state == StreamAfter(config, old(state), samples)
      ensures sink.View() == P.Run(old(sink.View()), StreamOps(config, old(state), samples))
    {
      for i := 0 to |samples|
        invariant sink.Valid() && (sink.buf == old(sink.buf) || fresh(sink.buf))
        invariant state == StreamAfter(config, old(state), samples[..i])
        invariant sink.View() == P.Run(old(sink.View()), StreamOps(config, old(state), samples[..i]))
      {
        StreamStep(config, old(state), old(sink.View()), samples[..i], samples[..i + 1], samples[i]);
        ProcessSample(samples[i], sink);
      }
      assert samples[..|samples|] == samples;
    }
  }

  predicate IsLoud(c: Config, sample: Sample) {
    !BelowThreshold(c.format, sample, c.threshold)
  }

  /** The sink after the call that the gate's signal causes, if any. */
  function AfterSignal(s: P.Sink, signal: Gate.Signal, sample: Sample): P.Sink
    requires s.Valid()
  {
    match signal
    case Recorded => P.Apply(s, P.Record(sample))
    case Ended => P.Apply(s, P.End)
    case Silent => s
  }

  /** One more sample takes the sink one call further, or none. */
  lemma {:induction false} StreamStep(c: Config, g: Gate.State, s: P.Sink,
                                      samples: seq<Sample>, more: seq<Sample>, x: Sample)
    requires s.Valid() && more == samples + [x]
    ensures StreamAfter(c, g, more) == Gate.Next(c.release, StreamAfter(c, g, samples), IsLoud(c, x))
    ensures P.Run(s, StreamOps(c, g, more)) ==
            AfterSignal(P.Run(s, StreamOps(c, g, samples)),
                        Gate.Emit(c.release, StreamAfter(c, g, samples), IsLoud(c, x)), x)
  {
    StreamSnoc(c, g, samples, x);
    RunSignal(s, StreamOps(c, g, samples), Gate.Emit(c.release, StreamAfter(c, g, samples), IsLoud(c, x)), x);
  }

  lemma {:induction false} RunSignal(s: P.Sink, ops: seq<P.Op>, signal: Gate.Signal, x: Sample)
    requires s.Valid()
    ensures P.Run(s, ops + OpOf(signal, x)) == AfterSignal(P.Run(s, ops), signal, x)
  {
    if signal.Silent? {
      assert ops + OpOf(signal, x) == ops;
    } else {
      assert (ops + OpOf(signal, x))[..|ops|] == ops;
    }
  }

  // ------------------------------------------------------------- the collector

  /** What reaches the collector: its start, captured blocks, the end of capture, and packets
      with the address of their sender (or the decoding error). */
  datatype Input =
    | Started
    | Block(samples: seq<Sample>)
    | Finished
    | Packet(fromServer: bool, audio: Audio)
    | Undecodable

  /** The sink calls one input causes. */
  function InputOps(c: Config, s: Gate.State, input: Input): seq<P.Op> {
    match input
    case Started => [P.SendSpec]
    case Block(samples) => StreamOps(c, s, samples)
    case Finished => [P.End]
    case Packet(fromServer, audio) => if fromServer && audio.Handshake? then [P.SendSpec] else []
    case Undecodable => []
  }

  function InputAfter(c: Config, s: Gate.State, input: Input): Gate.State {
    if input.Block? then StreamAfter(c, s, input.samples) else s
  }

  class AudioCollector {
    const gate: SampleGate
    const sink: AudioSink

    constructor (config: Config, secret: nat, spec: Spec)
      ensures fresh(gate) && fresh(sink) && fresh(sink.buf) && sink.Valid()
      ensures gate.config == config && gate.state == Gate.Closed
      ensures sink.View() == P.Initial(secret, spec)
    {
      gate := new SampleGate(config);
      sink := new AudioSink(secret, spec);
    }

    method Handle(input: Input)
      requires sink.Valid()
      modifies gate, sink, sink.buf
      ensures sink.Valid() && (sink.buf == old(sink.buf) || fresh(sink.buf))
      ensures gate.state == InputAfter(gate.config, old(gate.state), input)
      ensures sink.View() == P.Run(old(sink.View()), InputOps(gate.config, old(gate.state), input))
    {
      ghost var before := sink.View();
      assert forall op :: P.Run(before, [op]) == P.Apply(before, op) by {
        forall op ensures P.Run(before, [op]) == P.Apply(before, op) {
          assert [op][..0] == [];
        }
      }
      match input
      case Started => sink.WriteSpec();
      case Block(samples) => gate.Process(samples, sink);
      case Finished => sink.EndOfTransmission();
      case Packet(fromServer, audio) =>
        if fromServer && audio.Handshake? {
          sink.WriteSpec();
        }
      case Undecodable =>
    }
  }

  /** All sink calls of a run that starts with a closed gate. */
  function CollectorAfter(c: Config, inputs: seq<Input>): Gate.State {
    if inputs == [] then Gate.Closed
    else InputAfter(c, CollectorAfter(c, inputs[..|inputs| - 1]), inputs[|inputs| - 1])
  }

  function CollectorOps(c: Config, inputs: seq<Input>): seq<P.Op> {
    if inputs == [] then []
    else
      var front := inputs[..|inputs| - 1];
      CollectorOps(c, front) + InputOps(c, CollectorAfter(c, front), inputs[|inputs| - 1])
  }

  /** All captured samples of a run. */
  function Captured(inputs: seq<Input>): seq<Sample> {
    if inputs == [] then []
    else
      var front := Captured(inputs[..|inputs| - 1]);
      if inputs[|inputs| - 1].Block? then front + inputs[|inputs| - 1].samples else front
  }

  lemma {:induction false} SplitSnoc(ops: seq<P.Op>, more: seq<P.Op>, op: P.Op)
    requires more == ops + [op]
    ensures P.Split(more) == P.Note(P.Split(ops), op)
  {
    assert (ops + [op])[..|ops|] == ops;
  }

  lemma ExtendTail(first: seq<P.Op>, more: seq<P.Op>)
    requires more != []
    ensures first + more == (first + more[..|more| - 1]) + [more[|more| - 1]]
  {
  }

  lemma {:induction false} SplitFrom(first: seq<P.Op>, other: seq<P.Op>, more: seq<P.Op>)
    requires P.Split(first) == P.Split(other)
    ensures P.Split(first + more) == P.Split(other + more)
  {
    if more == [] {
      assert first + more == first && other + more == other;
    } else {
      var n := |more| - 1;
      SplitFrom(first, other, more[..n]);
      ExtendTail(first, more);
      ExtendTail(other, more);
      SplitSnoc(first + more[..n], first + more, more[n]);
      SplitSnoc(other + more[..n], other + more, more[n]);
    }
  }

  lemma NoBlockNoSample(c: Config, s: Gate.State, ops: seq<P.Op>, input: Input)
    requires !input.Finished? && !input.Block?
    ensures P.Split(ops + InputOps(c, s, input)) == P.Split(ops)
  {
    assert ops + [] == ops;
    SplitSnoc(ops, ops + [P.SendSpec], P.SendSpec);
  }

  /** How the capture is cut into blocks, and when the server asks for the stream description,
      has no bearing on which samples go under which identifier: only the joined stream counts. */
  lemma {:induction false} OnlyTheStreamCounts(c: Config, inputs: seq<Input>)
    requires forall i :: 0 <= i < |inputs| ==> !inputs[i].Finished?
    ensures CollectorAfter(c, inputs) == StreamAfter(c, Gate.Closed, Captured(inputs))
    ensures P.Split(CollectorOps(c, inputs)) == P.Split(StreamOps(c, Gate.Closed, Captured(inputs)))
  {
    if inputs != [] {
      var front, input := inputs[..|inputs| - 1], inputs[|inputs| - 1];
      OnlyTheStreamCounts(c, front);
      var state, ops, all := CollectorAfter(c, front), CollectorOps(c, front), Captured(front);
      if input.Block? {
        StreamOpsCompose(c, Gate.Closed, all, input.samples);
        SplitFrom(ops, StreamOps(c, Gate.Closed, all), StreamOps(c, state, input.samples));
      } else {
        NoBlockNoSample(c, state, ops, input);
      }
    }
  }

  lemma CollectorSnoc(c: Config, front: seq<Input>, inputs: seq<Input>, input: Input)
    requires inputs == front + [input]
    ensures CollectorOps(c, inputs) == CollectorOps(c, front) + InputOps(c, CollectorAfter(c, front), input)
  {
    assert (front + [input])[..|front|] == front;
  }

  lemma PacketAddsNothing(c: Config, front: seq<Input>, inputs: seq<Input>, input: Input)
    requires inputs == front + [input] && !input.Finished? && !input.Block?
    ensures P.Split(CollectorOps(c, inputs)) == P.Split(CollectorOps(c, front))
  {
    CollectorSnoc(c, front, inputs, input);
    NoBlockNoSample(c, CollectorAfter(c, front), CollectorOps(c, front), input);
  }

  lemma InputsExtend(before: seq<Input>, after: seq<Input>)
    requires after != []
    ensures before + after == (before + after[..|after| - 1]) + [after[|after| - 1]]
  {
  }

  lemma {:induction false} OnlyPacketsFollow(c: Config, before: seq<Input>, after: seq<Input>)
    requires forall i :: 0 <= i < |after| ==> !after[i].Finished? && !after[i].Block?
    ensures P.Split(CollectorOps(c, before + after)) == P.Split(CollectorOps(c, before))
  {
    if after == [] {
      assert before + after == before;
    } else {
      var n := |after| - 1;
      OnlyPacketsFollow(c, before, after[..n]);
      InputsExtend(before, after);
      PacketAddsNothing(c, before + after[..n], before + after, after[n]);
    }
  }

  lemma {:induction false} FinishEnds(c: Config, before: seq<Input>)
    requires forall i :: 0 <= i < |before| ==> !before[i].Finished?
    ensures P.Split(CollectorOps(c, before + [Finished]))
         == P.Note(P.Split(StreamOps(c, Gate.Closed, Captured(before))), P.End)
  {
    OnlyTheStreamCounts(c, before);
    CollectorSnoc(c, before, before + [Finished], Finished);
    SplitSnoc(CollectorOps(c, before), CollectorOps(c, before + [Finished]), P.End);
  }

  /** A run ends with the end of capture, behind which only packets still reach the collector.  The
      recording under way is then finished, unless it lies on a chunk boundary or the gate had never
      closed before: the sink ignores the first end, whatever caused it. */
  lemma {:induction false} CaptureEnds(c: Config, before: seq<Input>, after: seq<Input>)
    requires forall i :: 0 <= i < |before| ==> !before[i].Finished?
    requires forall i :: 0 <= i < |after| ==> !after[i].Finished? && !after[i].Block?
    ensures var ops := StreamOps(c, Gate.Closed, Captured(before));
            var t := P.Split(ops);
            P.Split(CollectorOps(c, before + [Finished] + after)) ==
            if P.End in ops && |t.current| % 512 != 0
            then P.Transcript(t.done + [t.current], [], true)
            else P.Transcript(t.done, t.current, true)
  {
    OnlyPacketsFollow(c, before + [Finished], after);
    FinishEnds(c, before);
    P.EndedMeans(StreamOps(c, Gate.Closed, Captured(before)));
  }

  // ------------------------------------------------------------- descriptions

  function Descriptions(packets: seq<Audio>): nat {
    if packets == [] then 0
    else Descriptions(packets[..|packets| - 1]) + if packets[|packets| - 1].SpecOf? then 1 else 0
  }

  function Starts(inputs: seq<Input>): nat {
    if inputs == [] then 0
    else Starts(inputs[..|inputs| - 1]) + if inputs[|inputs| - 1].Started? then 1 else 0
  }

  function Handshakes(inputs: seq<Input>): nat {
    if inputs == [] then 0
    else Handshakes(inputs[..|inputs| - 1]) + if inputs[|inputs| - 1] == Packet(true, Handshake) then 1 else 0
  }

  lemma DescriptionsSnoc(out: seq<Audio>, p: Audio)
    ensures Descriptions(out + [p]) == Descriptions(out) + if p.SpecOf? then 1 else 0
  {
    assert (out + [p])[..|out|] == out;
  }

  lemma {:induction false} ApplyDescribes(s: P.Sink, op: P.Op)
    requires s.Valid()
    ensures Descriptions(P.Apply(s, op).out) == Descriptions(s.out) + if op.SendSpec? then 1 else 0
  {
    var n, out := |s.out|, P.Apply(s, op).out;
    assert s.out <= out && |out| <= n + 2;
    if n < |out| {
      DescriptionsSnoc(s.out, out[n]);
      assert out[..n + 1] == s.out + [out[n]];
    }
    if n + 2 == |out| {
      DescriptionsSnoc(out[..n + 1], out[n + 1]);
      assert out == out[..n + 1] + [out[n + 1]];
    } else {
      assert out == out[..|out|];
    }
  }

  lemma {:induction false} RunDescribesNothing(s: P.Sink, ops: seq<P.Op>)
    requires s.Valid() && forall i :: 0 <= i < |ops| ==> !ops[i].SendSpec?
    ensures Descriptions(P.Run(s, ops).out) == Descriptions(s.out)
  {
    if ops != [] {
      var n := |ops| - 1;
      RunDescribesNothing(s, ops[..n]);
      ApplyDescribes(P.Run(s, ops[..n]), ops[n]);
    }
  }

  lemma {:induction false} GateNeverDescribes(signals: seq<Gate.Signal>, samples: seq<Sample>)
    requires |signals| == |samples|
    ensures forall i :: 0 <= i < |OpsOf(signals, samples)| ==> !OpsOf(signals, samples)[i].SendSpec?
  {
    if samples != [] {
      GateNeverDescribes(signals[..|samples| - 1], samples[..|samples| - 1]);
    }
  }

  lemma InputDescribes(c: Config, g: Gate.State, s: P.Sink, input: Input)
    requires s.Valid()
    ensures Descriptions(P.Run(s, InputOps(c, g, input)).out)
         == Descriptions(s.out) + if input.Started? || input == Packet(true, Handshake) then 1 else 0
  {
    match input
    case Block(samples) =>
      GateNeverDescribes(Gate.Signals(c.release, g, Louds(c, samples)), samples);
      RunDescribesNothing(s, StreamOps(c, g, samples));
    case Finished => RunDescribesNothing(s, [P.End]);
    case _ =>
      assert [P.SendSpec][..0] == [];
      ApplyDescribes(s, P.SendSpec);
  }

  /** The client describes its stream once for its start and once for every handshake of its server,
      and at no other occasion. */
  lemma {:induction false} DescriptionsAnswer(c: Config, secret: nat, spec: Spec, inputs: seq<Input>)
    ensures Descriptions(P.Run(P.Initial(secret, spec), CollectorOps(c, inputs)).out)
         == Starts(inputs) + Handshakes(inputs)
  {
    if inputs != [] {
      var front, input := inputs[..|inputs| - 1], inputs[|inputs| - 1];
      DescriptionsAnswer(c, secret, spec, front);
      var s, g := P.Run(P.Initial(secret, spec), CollectorOps(c, front)), CollectorAfter(c, front);
      P.RunAppend(P.Initial(secret, spec), CollectorOps(c, front), InputOps(c, g, input));
      InputDescribes(c, g, s, input);
    }
  }

  lemma {:induction false} NoneDescribed(out: seq<Audio>)
    ensures Descriptions(out) == 0 <==> forall i :: 0 <= i < |out| ==> !out[i].SpecOf?
  {
    if out != [] {
      NoneDescribed(out[..|out| - 1]);
      assert out == out[..|out| - 1] + [out[|out| - 1]];
    }
  }
}
