/** From the captured sample stream to the files on the server. */
module AudioPipeline {
  import opened AudioTypes
  import opened AudioClient
  import Gate = NoiseGate
  import P = Packetizer
  import H = AudioHandler
  import S = AudioServer
  import F = AudioFiles
  import D = AudioDelivery

  /** What the capture of `samples` records under each identifier, told by the release window
      alone: no gate state, no buffer, no block boundaries. */
  ghost function Recording(c: Config, samples: seq<Sample>): P.Transcript {
    P.Split(OpsByWindow(c, samples) + [P.End])
  }

  lemma CollectorRecords(c: Config, inputs: seq<Input>)
    requires forall i :: 0 <= i < |inputs| ==> !inputs[i].Finished?
    ensures P.Split(CollectorOps(c, inputs + [Finished])) == Recording(c, Captured(inputs))
  {
    assert (inputs + [Finished])[..|inputs|] == inputs;
    OnlyTheStreamCounts(c, inputs);
    StreamClosedForm(c, Captured(inputs));
    SplitFrom(CollectorOps(c, inputs), OpsByWindow(c, Captured(inputs)), [P.End]);
  }

  /** The whole path: capture in any blocks, with any requests for the description in between,
      over a network that duplicates but does not lose.  Every identifier the recording finishes
      gets exactly one event, and a file with all of its samples after the first 512, padded, if and
      only if it fits the 32-bit sequence numbers and these samples can be stored. */
  lemma StreamToFile(c: Config, secret: nat, spec: Spec, inputs: seq<Input>, log: D.Log,
                     deviceId: nat, arrivals: seq<H.Arrival>, id: Uuid)
    requires forall i :: 0 <= i < |inputs| ==> !inputs[i].Finished?
    requires D.Connected(secret, spec, CollectorOps(c, inputs + [Finished]), log, arrivals)
    requires D.Lossless(log)
    requires id < |Recording(c, Captured(inputs)).done|
    ensures var h, xs := H.Run(H.Initial(deviceId, spec.sampleFormat), arrivals), Recording(c, Captured(inputs)).done[id];
            && id !in h.live && F.EventsOf(h.events, id) == 1
            && id in h.disk && 512 <= |D.PaddedUp(xs)|
            && (h.disk[id] == D.PaddedUp(xs)[512..] <==>
                |xs| <= 0x200_0000_0000 && forall i :: 512 <= i < |xs| && spec.sampleFormat.U16? ==> xs[i] <= 32767.0)
  {
    CollectorRecords(c, inputs);
    D.LosslessLaw(secret, spec, CollectorOps(c, inputs + [Finished]), log, deviceId, spec.sampleFormat, arrivals, id);
  }

  // ------------------------------------------------------------- many clients

  lemma {:induction false} FromAppend(first: seq<S.Datagram>, second: seq<S.Datagram>, client: S.Address)
    ensures F.Packets(S.From(first + second, client))
         == F.Packets(S.From(first, client)) + F.Packets(S.From(second, client))
  {
    if second == [] {
      assert first + second == first;
    } else {
      var n := |second| - 1;
      FromAppend(first, second[..n], client);
      assert first + second == (first + second[..n]) + [second[n]];
      assert second[..n] + [second[n]] == second;
      PacketsFromSnoc(first + second[..n], second[n], client);
      PacketsFromSnoc(second[..n], second[n], client);
      D.Reassociate(F.Packets(S.From(first, client)), F.Packets(S.From(second[..n], client)), PacketFrom(second[n], client));
    }
  }

  /** The packet of a datagram, if it comes from the client and decodes. */
  function PacketFrom(d: S.Datagram, client: S.Address): seq<Audio> {
    if d.client == client && d.native.Some? then [d.native.value] else []
  }

  lemma PacketsFromSnoc(datagrams: seq<S.Datagram>, d: S.Datagram, client: S.Address)
    ensures F.Packets(S.From(datagrams + [d], client)) == F.Packets(S.From(datagrams, client)) + PacketFrom(d, client)
  {
    S.FromSnoc(datagrams, d, client);
    var before := S.From(datagrams, client);
    if d.client == client {
      assert (before + [H.Arrival(d.native, d.at)])[..|before|] == before;
    } else {
      assert before + [] == before;
    }
  }

  /** The client's transmissions as its handler hears them: what arrives behind the first valid
      description. */
  function Heard(log: D.Log, datagrams: seq<S.Datagram>, client: S.Address, first: nat): D.Log
    requires first < |datagrams|
  {
    D.LastArrivals(log, |F.Packets(S.From(datagrams[first + 1..], client))|)
  }

  /** A handler hears its client's transmissions from the first valid description on. */
  lemma HeardArrives(secret: nat, spec: Spec, ops: seq<P.Op>, log: D.Log,
                     datagrams: seq<S.Datagram>, client: S.Address, first: nat)
    requires first < |datagrams|
    requires D.Connected(secret, spec, ops, log, S.From(datagrams, client))
    ensures D.Connected(secret, spec, ops, Heard(log, datagrams, client, first), S.From(datagrams[first + 1..], client))
  {
    var before, after := datagrams[..first + 1], datagrams[first + 1..];
    assert before + after == datagrams;
    FromAppend(before, after, client);
    var all, rest := F.Packets(S.From(datagrams, client)), F.Packets(S.From(after, client));
    var missed := D.LastArrivalsDeliver(log, |rest|);
    SameEnd(F.Packets(S.From(before, client)), rest, missed, D.Deliver(Heard(log, datagrams, client, first)));
  }

  lemma SameEnd(a: seq<Audio>, b: seq<Audio>, c: seq<Audio>, d: seq<Audio>)
    requires a + b == c + d && |b| == |d|
    ensures b == d
  {
    assert b == (a + b)[|a|..] && d == (c + d)[|c|..];
  }

  /** The same guarantee as `AudioDelivery.EndToEnd` on the server that serves many clients: what
      comes from a client up to its first valid description counts as lost, and the handler that
      receives the rest belongs to the device which that description named. */
  lemma ServerEndToEnd(secret: nat, spec: Spec, ops: seq<P.Op>, log: D.Log,
                       datagrams: seq<S.Datagram>, client: S.Address, first: nat, id: Uuid)
    requires S.FirstBinding(datagrams, client, first)
    requires D.Connected(secret, spec, ops, log, S.From(datagrams, client))
    requires id < |P.Split(ops).done| && D.Arrived(Heard(log, datagrams, client, first), WavEnd(id))
    ensures client in S.Run(datagrams).handlers
    ensures var h := S.Run(datagrams).handlers[client];
            && h.deviceId == S.DeviceOf(datagrams[first], client) && F.Attributed(h)
            && h.format == S.FormatOf(datagrams[first], client)
            && D.Fulfilled(h, id, P.Split(ops).done[id], D.Own(id, Heard(log, datagrams, client, first)))
  {
    var deviceId, format := S.DeviceOf(datagrams[first], client), S.FormatOf(datagrams[first], client);
    var arrivals := S.From(datagrams[first + 1..], client);
    S.BindingDecides(datagrams, client, first);
    F.WriterAccounting(deviceId, format, arrivals);
    F.HandlerFormat(deviceId, format, arrivals);
    HeardArrives(secret, spec, ops, log, datagrams, client, first);
    D.EndToEnd(secret, spec, ops, Heard(log, datagrams, client, first), deviceId, format, arrivals, id);
  }

  // ------------------------------------------------------------- what is recorded

  /** The identifiers partition the recorded samples, and a sample is recorded exactly when a loud
      one lies in its release window. */
  lemma RecordingIsComplete(c: Config, samples: seq<Sample>)
    ensures var t := Recording(c, samples); Concat(t.done) + t.current == WindowSamples(c, samples)
  {
    P.SplitConserves(OpsByWindow(c, samples) + [P.End]);
    var ops := OpsByWindow(c, samples);
    assert (ops + [P.End])[..|ops|] == ops;
    WindowSamplesRecorded(c, samples);
  }

  ghost function WindowSamples(c: Config, samples: seq<Sample>): seq<Sample> {
    if samples == [] then []
    else
      var n := |samples| - 1;
      WindowSamples(c, samples[..n]) +
      if exists j :: n - c.release - 2 < j <= n && 0 <= j && Loud(c, samples, j) then [samples[n]] else []
  }

  predicate Loud(c: Config, samples: seq<Sample>, j: int) {
    0 <= j < |samples| && !BelowThreshold(c.format, samples[j], c.threshold)
  }

  lemma {:induction false} WindowSamplesRecorded(c: Config, samples: seq<Sample>)
    ensures P.RecordedBy(OpsByWindow(c, samples)) == WindowSamples(c, samples)
  {
    if samples != [] {
      var n, louds := |samples| - 1, Louds(c, samples);
      WindowSamplesRecorded(c, samples[..n]);
      assert forall j :: 0 <= j <= n ==> louds[j] == Loud(c, samples, j);
      var ops := OpsByWindow(c, samples[..n]);
      RecordedBySnoc(ops, P.Record(samples[n]));
      RecordedBySnoc(ops, P.End);
      assert ops + [] == ops;
      if Gate.LoudWithin(louds, n, c.release + 2) {
        var j :| 0 <= j <= n && n - (c.release + 2) < j && louds[j];
        assert Loud(c, samples, j);
      }
    }
  }

  lemma RecordedBySnoc(ops: seq<P.Op>, op: P.Op)
    ensures P.RecordedBy(ops + [op]) == P.RecordedBy(ops) + if op.Record? then [op.sample] else []
  {
    assert (ops + [op])[..|ops|] == ops;
  }
}
