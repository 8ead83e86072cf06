/** The audio client and the server's handler joined by a network that keeps the order but may
    drop any packet and deliver any packet several times in a row. */
module AudioDelivery {
  import opened AudioTypes
  import opened Options
  import P = Packetizer
  import H = AudioHandler
  import opened AudioFiles

  /** One packet the client sends, and how many copies of it arrive, one after the other. */
  datatype Transmission = Transmission(packet: Audio, copies: nat)

  type Log = seq<Transmission>

  function PacketsOf(log: Log): (packets: seq<Audio>)
    ensures |packets| == |log|
    ensures forall i :: 0 <= i < |log| ==> packets[i] == log[i].packet
  {
    seq(|log|, i requires 0 <= i < |log| => log[i].packet)
  }

  function Repeat(p: Audio, n: nat): (packets: seq<Audio>)
    ensures |packets| == n && forall i :: 0 <= i < n ==> packets[i] == p
  {
    seq(n, _ => p)
  }

  function Deliver(log: Log): seq<Audio> {
    if log == [] then []
    else Deliver(log[..|log| - 1]) + Repeat(log[|log| - 1].packet, log[|log| - 1].copies)
  }

  /** What arrives at all, each packet once. */
  function Through(log: Log): seq<Audio> {
    if log == [] then []
    else Through(log[..|log| - 1]) + if log[|log| - 1].copies == 0 then [] else [log[|log| - 1].packet]
  }

  predicate Arrived(log: Log, p: Audio) {
    exists i :: 0 <= i < |log| && log[i].packet == p && log[i].copies != 0
  }

  predicate Lossless(log: Log) {
    forall i :: 0 <= i < |log| ==> log[i].copies != 0
  }

  lemma DeliverSnoc(log: Log, x: Transmission)
    ensures Deliver(log + [x]) == Deliver(log) + Repeat(x.packet, x.copies)
  {
    assert (log + [x])[..|log|] == log;
  }

  // ------------------------------------------------------------- duplicates

  /** The chunk is one that the track's writer writes, but not to its end. */
  predicate WritesInPart(id: Uuid, t: Track, p: Audio) {
    && p.WavChunk? && p.chunk.id == id
    && (if t.live.Some? then t.live.value.seqNo else 0) < p.chunk.seqNo
    && !Complete(t.format, p.chunk) && Convertible(t.format, p.chunk.payload) != []
  }

  /** A second copy right behind the first changes nothing, if and only if the first was not a chunk of
      which only a part could be stored. */
  lemma SecondCopyIsIdle(id: Uuid, t: Track, p: Audio)
    ensures TrackStep(id, TrackStep(id, t, p), p) == TrackStep(id, t, p) <==> !WritesInPart(id, t, p)
  {
    if WritesInPart(id, t, p) {
      var once, twice := TrackStep(id, t, p), TrackStep(id, TrackStep(id, t, p), p);
      assert |twice.live.value.file| > |once.live.value.file|;
    } else if p.WavChunk? && p.chunk.id == id && !Complete(t.format, p.chunk) {
      var live := if t.live.Some? then t.live.value else Live(0, []);
      assert live.seqNo < p.chunk.seqNo ==> live.file + [] == live.file;
    }
  }

  lemma {:induction false} CopiesCollapse(id: Uuid, t: Track, p: Audio, n: nat)
    requires n <= 1 || !WritesInPart(id, t, p)
    ensures TrackRun(id, t, Repeat(p, n)) == if n == 0 then t else TrackStep(id, t, p)
  {
    if n != 0 {
      CopiesCollapse(id, t, p, n - 1);
      assert Repeat(p, n) == Repeat(p, n - 1) + [p];
      TrackRunSnoc(id, t, Repeat(p, n - 1), p);
      SecondCopyIsIdle(id, t, p);
    }
  }

  /** Only what can be stored to the end arrives several times. */
  ghost predicate RepeatsComplete(format: SampleFormat, log: Log) {
    forall i :: 0 <= i < |log| && 1 < log[i].copies && log[i].packet.WavChunk? ==> Complete(format, log[i].packet.chunk)
  }

  /** Then copies in a row count once. */
  lemma {:induction false} DeliverCollapses(id: Uuid, t: Track, log: Log)
    requires RepeatsComplete(t.format, log)
    ensures TrackRun(id, t, Deliver(log)) == TrackRun(id, t, Through(log))
  {
    if log != [] {
      var front, x := log[..|log| - 1], log[|log| - 1];
      DeliverCollapses(id, t, front);
      TrackRunAppend(id, t, Deliver(front), Repeat(x.packet, x.copies));
      FormatStays(id, t, Through(front));
      CopiesCollapse(id, TrackRun(id, t, Through(front)), x.packet, x.copies);
      if x.copies == 0 {
        assert Through(log) == Through(front);
      } else {
        TrackRunSnoc(id, t, Through(front), x.packet);
      }
    }
  }

  // ------------------------------------------------------------- other identifiers

  predicate Concerns(id: Uuid, p: Audio) {
    (p.WavChunk? && p.chunk.id == id) || (p.WavEnd? && p.id == id)
  }

  /** The transmissions of an identifier's own packets. */
  function Own(id: Uuid, log: Log): Log {
    if log == [] then []
    else Own(id, log[..|log| - 1]) + if Concerns(id, log[|log| - 1].packet) then [log[|log| - 1]] else []
  }

  lemma {:induction false} ForeignCopies(id: Uuid, t: Track, p: Audio, n: nat)
    requires !Concerns(id, p)
    ensures TrackRun(id, t, Repeat(p, n)) == t
  {
    if n != 0 {
      ForeignCopies(id, t, p, n - 1);
      assert Repeat(p, n) == Repeat(p, n - 1) + [p];
      TrackRunSnoc(id, t, Repeat(p, n - 1), p);
    }
  }

  /** Only its own packets matter to an identifier. */
  lemma {:induction false} OwnSuffices(id: Uuid, t: Track, log: Log)
    ensures TrackRun(id, t, Deliver(log)) == TrackRun(id, t, Deliver(Own(id, log)))
  {
    if log != [] {
      var front, x := log[..|log| - 1], log[|log| - 1];
      OwnSuffices(id, t, front);
      TrackRunAppend(id, t, Deliver(front), Repeat(x.packet, x.copies));
      if Concerns(id, x.packet) {
        DeliverSnoc(Own(id, front), x);
        TrackRunAppend(id, t, Deliver(Own(id, front)), Repeat(x.packet, x.copies));
      } else {
        ForeignCopies(id, TrackRun(id, t, Deliver(front)), x.packet, x.copies);
        assert Own(id, log) == Own(id, front);
      }
    }
  }

  lemma {:induction false} OwnMembers(id: Uuid, log: Log)
    ensures forall x :: x in Own(id, log) <==> x in log && Concerns(id, x.packet)
  {
    if log != [] {
      OwnMembers(id, log[..|log| - 1]);
      assert log == log[..|log| - 1] + [log[|log| - 1]];
    }
  }

  function Concerning(id: Uuid, out: seq<Audio>): seq<Audio> {
    if out == [] then []
    else Concerning(id, out[..|out| - 1]) + if Concerns(id, out[|out| - 1]) then [out[|out| - 1]] else []
  }

  lemma {:induction false} OwnPackets(id: Uuid, log: Log)
    ensures PacketsOf(Own(id, log)) == Concerning(id, PacketsOf(log))
  {
    if log != [] {
      OwnPackets(id, log[..|log| - 1]);
      assert PacketsOf(log)[..|log| - 1] == PacketsOf(log[..|log| - 1]);
    }
  }

  lemma ConcerningSnoc(id: Uuid, out: seq<Audio>, p: Audio)
    ensures Concerning(id, out + [p]) == Concerning(id, out) + if Concerns(id, p) then [p] else []
  {
    assert (out + [p])[..|out|] == out;
  }

  lemma {:induction false} ConcerningAppend(id: Uuid, first: seq<Audio>, second: seq<Audio>)
    ensures Concerning(id, first + second) == Concerning(id, first) + Concerning(id, second)
  {
    if second == [] {
      assert first + second == first;
    } else {
      var n := |second| - 1;
      ConcerningAppend(id, first, second[..n]);
      ConcerningSnoc(id, first + second[..n], second[n]);
      assert first + second == (first + second[..n]) + [second[n]];
    }
  }

  lemma {:induction false} ConcerningSpecs(id: Uuid, out: seq<Audio>)
    ensures Concerning(id, out) == Concerning(id, P.WithoutSpecs(out))
  {
    if out != [] {
      var front, p := out[..|out| - 1], out[|out| - 1];
      ConcerningSpecs(id, front);
      if !p.SpecOf? {
        ConcerningSnoc(id, P.WithoutSpecs(front), p);
      }
    }
  }

  /** A list of packets that all belong to one identifier. */
  lemma {:induction false} ConcerningUniform(id: Uuid, owner: Uuid, out: seq<Audio>)
    requires forall i :: 0 <= i < |out| ==> Concerns(owner, out[i])
    ensures Concerning(id, out) == if id == owner then out else []
  {
    if out != [] {
      ConcerningUniform(id, owner, out[..|out| - 1]);
      assert Concerns(owner, out[|out| - 1]);
    }
  }

  lemma ChunksConcern(id: Uuid, xs: seq<Sample>, n: nat)
    requires n <= P.ChunkCount(|xs|)
    ensures forall i :: 0 <= i < n ==> Concerns(id, P.Chunks(id, xs, n)[i])
  {
  }

  lemma FinishedConcerns(id: Uuid, xs: seq<Sample>)
    ensures forall i :: 0 <= i < |P.Finished(id, xs)| ==> Concerns(id, P.Finished(id, xs)[i])
    ensures forall i :: 0 <= i < |P.Finished(id, xs)| - 1 ==> P.Finished(id, xs)[i].WavChunk?
    ensures |P.Finished(id, xs)| == P.ChunkCount(|xs|) + 1 && P.Finished(id, xs)[P.ChunkCount(|xs|)] == WavEnd(id)
  {
  }

  lemma {:induction false} ConcerningFinished(id: Uuid, done: seq<seq<Sample>>)
    ensures Concerning(id, P.AllFinished(done)) == if id < |done| then P.Finished(id, done[id]) else []
  {
    if done != [] {
      var n := |done| - 1;
      ConcerningFinished(id, done[..n]);
      FinishedConcerns(n, done[n]);
      ConcerningUniform(id, n, P.Finished(n, done[n]));
      ConcerningAppend(id, P.AllFinished(done[..n]), P.Finished(n, done[n]));
    }
  }

  /** What a transcript prescribes for one identifier. */
  function Share(id: Uuid, t: P.Transcript): seq<Audio> {
    if id < |t.done| then P.Finished(id, t.done[id])
    else if id == |t.done| then P.Chunks(id, t.current, |t.current| / 512)
    else []
  }

  lemma ConcerningPackets(id: Uuid, t: P.Transcript)
    ensures Concerning(id, P.Packets(t)) == Share(id, t)
  {
    var n := |t.current| / 512;
    var rest := P.Chunks(|t.done|, t.current, n);
    ConcerningAppend(id, P.AllFinished(t.done), rest);
    ConcerningFinished(id, t.done);
    ChunksConcern(|t.done|, t.current, n);
    ConcerningUniform(id, |t.done|, rest);
    WithNothing(Concerning(id, P.AllFinished(t.done)), Concerning(id, rest));
  }

  lemma WithNothing(first: seq<Audio>, second: seq<Audio>)
    ensures second == [] ==> first + second == first
    ensures first == [] ==> first + second == second
  {
  }

  // ------------------------------------------------------------- one identifier

  function Copies(c: Chunk, n: nat): (chunks: seq<Chunk>)
    ensures |chunks| == n
  {
    seq(n, _ => c)
  }

  /** The chunks that arrive, with their copies, in order. */
  function DeliveredChunks(own: Log): seq<Chunk> {
    if own == [] then []
    else
      var x := own[|own| - 1];
      DeliveredChunks(own[..|own| - 1]) + if x.packet.WavChunk? then Copies(x.packet.chunk, x.copies) else []
  }

  /** The transmissions of the first chunks of the samples `xs`. */
  ghost predicate Carries(own: Log, id: Uuid, xs: seq<Sample>) {
    |own| <= P.ChunkCount(|xs|) && PacketsOf(own) == P.Chunks(id, xs, |own|)
  }

  lemma CarriesFront(own: Log, id: Uuid, xs: seq<Sample>)
    requires Carries(own, id, xs) && own != []
    ensures Carries(own[..|own| - 1], id, xs)
    ensures own[|own| - 1].packet == P.ChunkOf(id, xs, |own| - 1)
  {
    var n := |own| - 1;
    assert PacketsOf(own[..n]) == PacketsOf(own)[..n];
    assert PacketsOf(own)[n] == own[n].packet;
    assert P.Chunks(id, xs, n + 1) == P.Chunks(id, xs, n) + [P.ChunkOf(id, xs, n)];
  }

  lemma NumberOf(id: Uuid, xs: seq<Sample>, k: nat)
    requires k < P.ChunkCount(|xs|) && k < 0x1_0000_0000
    ensures P.ChunkOf(id, xs, k).chunk.seqNo == k
    ensures P.ChunkOf(id, xs, k).chunk.payload == Padded(P.Slice(xs, k))
  {
  }

  /** The padded payloads of the delivered chunks 1, 2, .., in order.  Chunk 0 is not among them: a
      fresh writer's number is 0 already. */
  function DeliveredSamples(xs: seq<Sample>, own: Log): seq<Sample>
    requires |own| <= P.ChunkCount(|xs|)
  {
    if own == [] then []
    else
      var k := |own| - 1;
      DeliveredSamples(xs, own[..k]) + if 0 < k && own[k].copies != 0 then Padded(P.Slice(xs, k)) else []
  }

  lemma OneMoreSample(xs: seq<Sample>, own: Log)
    requires 0 < |own| <= P.ChunkCount(|xs|)
    ensures var k := |own| - 1;
            (DeliveredSamples(xs, own)
             == DeliveredSamples(xs, own[..k]) + if 0 < k && own[k].copies != 0 then Padded(P.Slice(xs, k)) else [])
  {
  }

  lemma BothConvert(format: SampleFormat, xs: seq<Sample>, ys: seq<Sample>)
    ensures AllConvert(format, xs + ys) <==> AllConvert(format, xs) && AllConvert(format, ys)
  {
    if AllConvert(format, xs + ys) {
      assert forall i :: 0 <= i < |xs| ==> xs[i] == (xs + ys)[i];
      assert forall i :: 0 <= i < |ys| ==> ys[i] == (xs + ys)[|xs| + i];
    }
  }

  lemma OneMoreCopy(cs: seq<Chunk>, c: Chunk, n: nat)
    ensures Repeat(WavChunk(c), n + 1) == Repeat(WavChunk(c), n) + [WavChunk(c)]
    ensures cs + Copies(c, n + 1) == cs + Copies(c, n) + [c]
    ensures cs + Copies(c, 0) == cs
  {
  }

  lemma {:induction false} CopiesFollow(id: Uuid, t: Track, cs: seq<Chunk>, c: Chunk, n: nat)
    requires Follows(t, cs) && c.id == id
    ensures Follows(TrackRun(id, t, Repeat(WavChunk(c), n)), cs + Copies(c, n))
    ensures TrackRun(id, t, Repeat(WavChunk(c), n)).ended == t.ended
  {
    if n == 0 {
      OneMoreCopy(cs, c, 0);
    } else {
      CopiesFollow(id, t, cs, c, n - 1);
      OneMoreCopy(cs, c, n - 1);
      AnotherCopy(id, t, Repeat(WavChunk(c), n - 1), cs + Copies(c, n - 1), c);
    }
  }

  lemma AnotherCopy(id: Uuid, t: Track, packets: seq<Audio>, cs: seq<Chunk>, c: Chunk)
    requires Follows(TrackRun(id, t, packets), cs) && c.id == id
    ensures Follows(TrackRun(id, t, packets + [WavChunk(c)]), cs + [c])
    ensures TrackRun(id, t, packets + [WavChunk(c)]).ended == TrackRun(id, t, packets).ended
  {
    TrackRunSnoc(id, t, packets, WavChunk(c));
    StepFollows(id, TrackRun(id, t, packets), cs, WavChunk(c));
  }

  /** The track of an identifier whose transmissions are `own`. */
  function OwnTrack(id: Uuid, format: SampleFormat, own: Log): Track {
    TrackRun(id, Untouched(format), Deliver(own))
  }

  lemma OwnTrackSnoc(id: Uuid, format: SampleFormat, own: Log)
    requires own != []
    ensures var x := own[|own| - 1];
            OwnTrack(id, format, own) == TrackRun(id, OwnTrack(id, format, own[..|own| - 1]), Repeat(x.packet, x.copies))
    ensures OwnTrack(id, format, own[..|own| - 1]).format == format
  {
    var x := own[|own| - 1];
    TrackRunAppend(id, Untouched(format), Deliver(own[..|own| - 1]), Repeat(x.packet, x.copies));
    FormatStays(id, Untouched(format), Deliver(own[..|own| - 1]));
  }

  /** The writer receives exactly the delivered chunks, however many there are. */
  lemma {:induction false} ChunksFollow(id: Uuid, format: SampleFormat, xs: seq<Sample>, own: Log)
    requires Carries(own, id, xs)
    ensures Follows(OwnTrack(id, format, own), DeliveredChunks(own))
    ensures OwnTrack(id, format, own).ended == 0
  {
    if own != [] {
      var front, x := own[..|own| - 1], own[|own| - 1];
      CarriesFront(own, id, xs);
      ChunksFollow(id, format, xs, front);
      OwnTrackSnoc(id, format, own);
      CopiesFollow(id, OwnTrack(id, format, front), DeliveredChunks(front), x.packet.chunk, x.copies);
    }
  }

  function FileSoFar(t: Track): seq<Sample> {
    if t.live.Some? then t.live.value.file else []
  }

  /** A chunk with the next number, which can be stored, is appended once; number 0 is not written. */
  lemma NextDelivered(id: Uuid, t: Track, c: Chunk, n: nat)
    requires c.id == id && (t.live.Some? ==> t.live.value.seqNo <= c.seqNo) && (c.seqNo != 0 ==> Complete(t.format, c))
    requires c.seqNo != 0 && t.live.Some? ==> t.live.value.seqNo < c.seqNo
    ensures var t' := TrackRun(id, t, Repeat(WavChunk(c), n));
            && FileSoFar(t') == FileSoFar(t) + (if 0 < c.seqNo && n != 0 then c.payload else [])
            && (t'.live.Some? ==> t'.live.value.seqNo <= c.seqNo)
  {
    CopiesCollapse(id, t, WavChunk(c), n);
    ConvertsEntirely(t.format, c.payload);
    assert FileSoFar(t) + [] == FileSoFar(t);
  }

  /** Below the wrap, the file is the delivered samples when all of them convert. */
  lemma {:induction false} FileWithoutWrap(id: Uuid, format: SampleFormat, xs: seq<Sample>, own: Log)
    requires Carries(own, id, xs) && |own| <= 0x1_0000_0000 && AllConvert(format, DeliveredSamples(xs, own))
    ensures var t := OwnTrack(id, format, own);
            FileSoFar(t) == DeliveredSamples(xs, own) && (t.live.Some? ==> t.live.value.seqNo < |own|)
  {
    if own != [] {
      var k := |own| - 1;
      var c := P.ChunkOf(id, xs, k).chunk;
      CarriesFront(own, id, xs);
      NumberOf(id, xs, k);
      OneMoreSample(xs, own);
      BothConvert(format, DeliveredSamples(xs, own[..k]),
                  if 0 < k && own[k].copies != 0 then Padded(P.Slice(xs, k)) else []);
      FileWithoutWrap(id, format, xs, own[..k]);
      OwnTrackSnoc(id, format, own);
      if own[k].copies != 0 {
        NextDelivered(id, OwnTrack(id, format, own[..k]), c, own[k].copies);
      }
    }
  }

  /** Below the wrap the file is the delivered chunks but chunk 0, each once and in order, if and only if
      all their samples convert. */
  lemma RecordsWithoutWrap(id: Uuid, format: SampleFormat, xs: seq<Sample>, own: Log)
    requires Carries(own, id, xs) && |own| <= 0x1_0000_0000
    ensures FileOf(format, DeliveredChunks(own)) == DeliveredSamples(xs, own)
       <==> AllConvert(format, DeliveredSamples(xs, own))
  {
    ChunksFollow(id, format, xs, own);
    FormatStays(id, Untouched(format), Deliver(own));
    PayloadsConvert(format, Records(format, DeliveredChunks(own)));
    if AllConvert(format, DeliveredSamples(xs, own)) {
      FileWithoutWrap(id, format, xs, own);
    }
  }

  // ------------------------------------------------------------- end to end

  /** A run of both ends: the calls made on the client's sink, and the arrivals at the server,
      which are the client's packets as the network delivers them. */
  ghost predicate Connected(secret: nat, spec: Spec, ops: seq<P.Op>, log: Log, arrivals: seq<H.Arrival>) {
    && PacketsOf(log) == P.Run(P.Initial(secret, spec), ops).out
    && Packets(arrivals) == Deliver(log)
  }

  lemma ServerTrack(secret: nat, spec: Spec, ops: seq<P.Op>, log: Log,
                    deviceId: nat, format: SampleFormat, arrivals: seq<H.Arrival>, id: Uuid)
    requires Connected(secret, spec, ops, log, arrivals)
    ensures Project(H.Run(H.Initial(deviceId, format), arrivals), id) == OwnTrack(id, format, Own(id, log))
    ensures PacketsOf(Own(id, log)) == Share(id, P.Split(ops))
  {
    RunProjects(H.Initial(deviceId, format), arrivals, id);
    OwnSuffices(id, Untouched(format), log);
    OwnPackets(id, log);
    ConcerningSpecs(id, PacketsOf(log));
    P.PacketizerClosedForm(secret, spec, ops);
    ConcerningPackets(id, P.Split(ops));
  }

  /** A finished identifier's transmissions are those of its chunks and the one of its end. */
  lemma FinishedLog(id: Uuid, xs: seq<Sample>, own: Log)
    requires PacketsOf(own) == P.Finished(id, xs)
    ensures var n := P.ChunkCount(|xs|);
            && |own| == n + 1 && Carries(own[..n], id, xs)
            && own[n].packet == WavEnd(id)
            && DeliveredChunks(own) == DeliveredChunks(own[..n])
            && Deliver(own) == Deliver(own[..n]) + Repeat(WavEnd(id), own[n].copies)
  {
    var n := P.ChunkCount(|xs|);
    assert |PacketsOf(own)| == n + 1;
    assert PacketsOf(own[..n]) == PacketsOf(own)[..n];
    assert P.Finished(id, xs)[..n] == P.Chunks(id, xs, n);
    assert PacketsOf(own)[n] == WavEnd(id);
    assert DeliveredChunks(own) == DeliveredChunks(own[..n]) + [];
  }

  lemma EndArrived(id: Uuid, xs: seq<Sample>, log: Log)
    requires PacketsOf(Own(id, log)) == P.Finished(id, xs)
    ensures var own := Own(id, log);
            && own != [] && (own[|own| - 1].copies != 0 <==> Arrived(log, WavEnd(id)))
  {
    var own := Own(id, log);
    var n := |own| - 1;
    OwnMembers(id, log);
    FinishedConcerns(id, xs);
    assert own[n].packet == PacketsOf(own)[n];
    assert own[n] in log;
    if Arrived(log, WavEnd(id)) {
      var i :| 0 <= i < |log| && log[i].packet == WavEnd(id) && log[i].copies != 0;
      assert log[i] in own;
      var j :| 0 <= j < |own| && own[j] == log[i];
      assert !PacketsOf(own)[j].WavChunk?;
    }
  }

  lemma EndCloses(id: Uuid, t: Track, cs: seq<Chunk>)
    requires Follows(t, cs) && t.ended == 0
    ensures var t' := TrackStep(id, t, WavEnd(id));
            && t'.live.None?
            && t'.ended == (if cs == [] then 0 else 1)
            && (cs != [] ==> t'.disk == Some(FileOf(t.format, cs)))
  {
  }

  lemma {:induction false} FinishedTrack(id: Uuid, format: SampleFormat, xs: seq<Sample>, own: Log)
    requires PacketsOf(own) == P.Finished(id, xs) && own[|own| - 1].copies != 0
    ensures var t, received := OwnTrack(id, format, own), DeliveredChunks(own);
            && t.live.None?
            && t.ended == (if received == [] then 0 else 1)
            && (received != [] ==> t.disk == Some(FileOf(format, received)))
    ensures OwnTrack(id, format, own) == TrackStep(id, OwnTrack(id, format, own[..|own| - 1]), WavEnd(id))
  {
    var chunks := own[..|own| - 1];
    FinishedLog(id, xs, own);
    ChunksFollow(id, format, xs, chunks);
    OwnTrackSnoc(id, format, own);
    CopiesCollapse(id, OwnTrack(id, format, chunks), WavEnd(id), own[|own| - 1].copies);
    EndCloses(id, OwnTrack(id, format, chunks), DeliveredChunks(chunks));
  }

  /** What the server owes an identifier whose end packet has come through: exactly one event if at
      least one of its chunks came through, and none otherwise; and a file made of the chunks that
      arrived, copies and all.  As long as the sequence numbers have not wrapped, that is the delivered
      chunks above 0, each once, in recording order, if and only if all their samples convert. */
  ghost predicate Fulfilled(h: H.Handler, id: Uuid, xs: seq<Sample>, own: Log) {
    var n, received := P.ChunkCount(|xs|), DeliveredChunks(own);
    && PacketsOf(own) == P.Finished(id, xs)
    && id !in h.live
    && EventsOf(h.events, id) == (if received == [] then 0 else 1)
    && (received != [] ==> id in h.disk && h.disk[id] == FileOf(h.format, received))
    && (n <= 0x1_0000_0000 ==>
          (FileOf(h.format, received) == DeliveredSamples(xs, own[..n])
           <==> AllConvert(h.format, DeliveredSamples(xs, own[..n]))))
  }

  /** Whatever is lost or duplicated, the server fulfils what it owes every identifier whose end
      packet has come through. */
  lemma EndToEnd(secret: nat, spec: Spec, ops: seq<P.Op>, log: Log,
                 deviceId: nat, format: SampleFormat, arrivals: seq<H.Arrival>, id: Uuid)
    requires Connected(secret, spec, ops, log, arrivals)
    requires id < |P.Split(ops).done| && Arrived(log, WavEnd(id))
    ensures Fulfilled(H.Run(H.Initial(deviceId, format), arrivals), id, P.Split(ops).done[id], Own(id, log))
  {
    var xs, own := P.Split(ops).done[id], Own(id, log);
    var n := P.ChunkCount(|xs|);
    ServerTrack(secret, spec, ops, log, deviceId, format, arrivals, id);
    HandlerFormat(deviceId, format, arrivals);
    EndArrived(id, xs, log);
    FinishedTrack(id, format, xs, own);
    if n <= 0x1_0000_0000 {
      FinishedLog(id, xs, own);
      RecordsWithoutWrap(id, format, xs, own[..n]);
    }
  }

  /** Without the end packet, because it was lost or has not been sent, there is no event yet, and
      the writer, if any chunk has come through, holds what the delivered chunks make of it. */
  lemma StillOpen(secret: nat, spec: Spec, ops: seq<P.Op>, log: Log,
                  deviceId: nat, format: SampleFormat, arrivals: seq<H.Arrival>, id: Uuid)
    requires Connected(secret, spec, ops, log, arrivals)
    requires id <= |P.Split(ops).done| && !Arrived(log, WavEnd(id))
    ensures var h, own := H.Run(H.Initial(deviceId, format), arrivals), Own(id, log);
            && PacketsOf(own) == Share(id, P.Split(ops))
            && EventsOf(h.events, id) == 0
            && Follows(Project(h, id), DeliveredChunks(own))
  {
    var t, own := P.Split(ops), Own(id, log);
    ServerTrack(secret, spec, ops, log, deviceId, format, arrivals, id);
    if id < |t.done| {
      var n := P.ChunkCount(|t.done[id]|);
      FinishedLog(id, t.done[id], own);
      EndArrived(id, t.done[id], log);
      ChunksFollow(id, format, t.done[id], own[..n]);
      assert Deliver(own) == Deliver(own[..n]);
    } else {
      ChunksFollow(id, format, t.current, own);
    }
  }

  /** Identifiers the client has not reached own nothing on the server. */
  lemma NothingUnsent(secret: nat, spec: Spec, ops: seq<P.Op>, log: Log,
                      deviceId: nat, format: SampleFormat, arrivals: seq<H.Arrival>, id: Uuid)
    requires Connected(secret, spec, ops, log, arrivals) && |P.Split(ops).done| < id
    ensures Project(H.Run(H.Initial(deviceId, format), arrivals), id) == Untouched(format)
  {
    ServerTrack(secret, spec, ops, log, deviceId, format, arrivals, id);
    assert Own(id, log) == [];
  }

  // ------------------------------------------------------------- late listeners

  /** The same transmissions to somebody who only hears the last k arrivals. */
  function LastArrivals(log: Log, k: nat): (heard: Log)
    ensures |heard| == |log|
    ensures PacketsOf(heard) == PacketsOf(log)
  {
    if log == [] then []
    else
      var front, x := log[..|log| - 1], log[|log| - 1];
      if k <= x.copies then LastArrivals(front, 0) + [x.(copies := k)]
      else LastArrivals(front, k - x.copies) + [x]
  }

  lemma SplitRepeat(before: seq<Audio>, p: Audio, m: nat, n: nat)
    ensures before + Repeat(p, m + n) == before + Repeat(p, m) + Repeat(p, n)
  {
  }

  lemma Reassociate(a: seq<Audio>, b: seq<Audio>, c: seq<Audio>)
    ensures a + b + c == a + (b + c)
  {
  }

  /** What is heard is the last k arrivals; what is not is returned. */
  lemma {:induction false} LastArrivalsDeliver(log: Log, k: nat) returns (missed: seq<Audio>)
    requires k <= |Deliver(log)|
    ensures Deliver(log) == missed + Deliver(LastArrivals(log, k)) && |Deliver(LastArrivals(log, k))| == k
  {
    if log == [] {
      return [];
    }
    var front, x := log[..|log| - 1], log[|log| - 1];
    assert log == front + [x];
    DeliverSnoc(front, x);
    if k <= x.copies {
      missed := LastArrivalsDeliver(front, 0);
      DeliverSnoc(LastArrivals(front, 0), x.(copies := k));
      missed := Deliver(front) + Repeat(x.packet, x.copies - k);
      SplitRepeat(Deliver(front), x.packet, x.copies - k, k);
      assert Deliver(LastArrivals(log, k)) == Repeat(x.packet, k);
    } else {
      missed := LastArrivalsDeliver(front, k - x.copies);
      DeliverSnoc(LastArrivals(front, k - x.copies), x);
      Reassociate(missed, Deliver(LastArrivals(front, k - x.copies)), Repeat(x.packet, x.copies));
    }
  }

  /** Before some transmission nothing is heard, and behind it everything. */
  lemma {:induction false} LastArrivalsCut(log: Log, k: nat) returns (cut: nat)
    ensures cut <= |log|
    ensures forall i :: 0 <= i < cut - 1 ==> LastArrivals(log, k)[i].copies == 0
    ensures forall i :: cut <= i < |log| ==> LastArrivals(log, k)[i] == log[i]
  {
    if log == [] {
      return 0;
    }
    var n := |log| - 1;
    if k <= log[n].copies {
      NothingHeard(log[..n]);
      cut := n + 1;
    } else {
      cut := LastArrivalsCut(log[..n], k - log[n].copies);
    }
  }

  lemma {:induction false} NothingHeard(log: Log)
    ensures forall i :: 0 <= i < |log| ==> LastArrivals(log, 0)[i].copies == 0
  {
    if log != [] {
      NothingHeard(log[..|log| - 1]);
    }
  }

  // ------------------------------------------------------------- without loss

  function Min(a: nat, b: nat): nat {
    if a <= b then a else b
  }

  /** The samples with default samples up to the next multiple of 512. */
  function PaddedUp(xs: seq<Sample>): (padded: seq<Sample>)
    ensures |padded| == 512 * P.ChunkCount(|xs|)
  {
    xs + DefaultSamples(512 * P.ChunkCount(|xs|) - |xs|)
  }

  lemma PaddedSlice(xs: seq<Sample>, k: nat)
    requires k < P.ChunkCount(|xs|)
    ensures Padded(P.Slice(xs, k)) == PaddedUp(xs)[512 * k..512 * k + 512]
  {
  }

  lemma CutAgain(xs: seq<Sample>, a: nat, b: nat, c: nat)
    requires a <= b <= c <= |xs|
    ensures xs[a..b] + xs[b..c] == xs[a..c]
  {
  }

  /** The writer after n chunks without loss. */
  function LosslessLive(xs: seq<Sample>, n: nat): Live
    requires 0 < n <= P.ChunkCount(|xs|)
  {
    var top := Min(n, 0x1_0000_0000);
    Live(top - 1, PaddedUp(xs)[512..512 * top])
  }

  /** What the file of n chunks should be. */
  function LosslessSamples(xs: seq<Sample>, n: nat): seq<Sample>
    requires 0 < n <= P.ChunkCount(|xs|)
  {
    LosslessLive(xs, n).file
  }

  lemma GrowingSamples(xs: seq<Sample>, n: nat)
    requires 0 < n < P.ChunkCount(|xs|)
    ensures LosslessSamples(xs, n + 1)
         == LosslessSamples(xs, n) + if n < 0x1_0000_0000 then Padded(P.Slice(xs, n)) else []
  {
    PaddedSlice(xs, n);
    if n < 0x1_0000_0000 {
      CutAgain(PaddedUp(xs), 512, 512 * n, 512 * (n + 1));
    }
  }

  lemma NextLossless(id: Uuid, format: SampleFormat, xs: seq<Sample>, n: nat, copies: nat)
    requires 0 < n < P.ChunkCount(|xs|) && 0 < copies
    requires n < 0x1_0000_0000 ==> AllConvert(format, Padded(P.Slice(xs, n)))
    ensures TrackRun(id, Track(format, Some(LosslessLive(xs, n)), None, 0), Repeat(P.ChunkOf(id, xs, n), copies))
         == Track(format, Some(LosslessLive(xs, n + 1)), None, 0)
  {
    var t, c := Track(format, Some(LosslessLive(xs, n)), None, 0), P.ChunkOf(id, xs, n).chunk;
    CopiesCollapse(id, t, WavChunk(c), copies);
    GrowingSamples(xs, n);
    ConvertsEntirely(format, c.payload);
    if 0x1_0000_0000 <= n {
      assert LosslessLive(xs, n + 1) == LosslessLive(xs, n);
    }
  }

  /** Without loss, and however many chunks there are, the writer ends up with chunks 1 up to the
      last one before the sequence numbers wrap, provided that their samples convert. */
  lemma {:induction false} LosslessChunks(id: Uuid, format: SampleFormat, xs: seq<Sample>, own: Log)
    requires Carries(own, id, xs) && own != [] && Lossless(own)
    requires AllConvert(format, LosslessSamples(xs, |own|))
    ensures OwnTrack(id, format, own) == Track(format, Some(LosslessLive(xs, |own|)), None, 0)
  {
    var n := |own| - 1;
    CarriesFront(own, id, xs);
    OwnTrackSnoc(id, format, own);
    if n == 0 {
      FirstLossless(id, format, xs, own[0].copies);
    } else {
      GrowingSamples(xs, n);
      BothConvert(format, LosslessSamples(xs, n), if n < 0x1_0000_0000 then Padded(P.Slice(xs, n)) else []);
      LosslessChunks(id, format, xs, own[..n]);
      NextLossless(id, format, xs, n, own[n].copies);
    }
  }

  lemma FirstLossless(id: Uuid, format: SampleFormat, xs: seq<Sample>, copies: nat)
    requires 0 < P.ChunkCount(|xs|) && 0 < copies
    ensures TrackRun(id, Untouched(format), Repeat(P.ChunkOf(id, xs, 0), copies))
         == Track(format, Some(LosslessLive(xs, 1)), None, 0)
  {
    CopiesCollapse(id, Untouched(format), P.ChunkOf(id, xs, 0), copies);
    assert LosslessLive(xs, 1) == Live(0, []);
  }

  lemma OwnLossless(id: Uuid, log: Log)
    requires Lossless(log)
    ensures Lossless(Own(id, log))
  {
    OwnMembers(id, log);
    forall i | 0 <= i < |Own(id, log)| ensures Own(id, log)[i].copies != 0 {
      assert Own(id, log)[i] in Own(id, log);
    }
  }

  lemma {:induction false} LosslessTrack(id: Uuid, format: SampleFormat, xs: seq<Sample>, own: Log)
    requires PacketsOf(own) == P.Finished(id, xs) && Lossless(own) && 0 < P.ChunkCount(|xs|)
    ensures var t, file := OwnTrack(id, format, own), LosslessSamples(xs, P.ChunkCount(|xs|));
            && t.live.None? && t.ended == 1 && t.disk.Some? && AllConvert(format, t.disk.value)
            && (AllConvert(format, file) ==> t.disk.value == file)
  {
    var n := P.ChunkCount(|xs|);
    FinishedLog(id, xs, own);
    FinishedTrack(id, format, xs, own);
    SomeDelivered(own[..n], id, xs);
    PayloadsConvert(format, Records(format, DeliveredChunks(own)));
    if AllConvert(format, LosslessSamples(xs, n)) {
      LosslessChunks(id, format, xs, own[..n]);
      assert OwnTrack(id, format, own).disk == Some(LosslessSamples(xs, n));
    }
  }

  lemma SomeDelivered(own: Log, id: Uuid, xs: seq<Sample>)
    requires Carries(own, id, xs) && own != [] && Lossless(own)
    ensures DeliveredChunks(own) != []
  {
    CarriesFront(own, id, xs);
  }

  /** Without loss the file of a finished identifier is its recorded samples, padded with default
      samples to a multiple of 512, from index 512 on, up to where the sequence numbers wrap, if and
      only if these convert. */
  lemma LosslessFile(secret: nat, spec: Spec, ops: seq<P.Op>, log: Log,
                     deviceId: nat, format: SampleFormat, arrivals: seq<H.Arrival>, id: Uuid)
    requires Connected(secret, spec, ops, log, arrivals) && Lossless(log)
    requires id < |P.Split(ops).done|
    ensures var h, xs := H.Run(H.Initial(deviceId, format), arrivals), P.Split(ops).done[id];
            && 0 < P.ChunkCount(|xs|)
            && id !in h.live && EventsOf(h.events, id) == 1 && id in h.disk
            && AllConvert(format, h.disk[id])
            && var file := LosslessSamples(xs, P.ChunkCount(|xs|));
               (h.disk[id] == file <==> AllConvert(format, file))
  {
    var xs, own := P.Split(ops).done[id], Own(id, log);
    FinishedHasChunks(ops, id);
    ServerTrack(secret, spec, ops, log, deviceId, format, arrivals, id);
    OwnLossless(id, log);
    LosslessTrack(id, format, xs, own);
  }

  lemma {:induction false} FinishedHasChunks(ops: seq<P.Op>, id: Uuid)
    requires id < |P.Split(ops).done|
    ensures 0 < P.ChunkCount(|P.Split(ops).done[id]|)
  {
    var front := ops[..|ops| - 1];
    if id < |P.Split(front).done| {
      FinishedHasChunks(front, id);
    }
  }

  /** Default samples convert, so padding does not matter. */
  lemma RestConverts(format: SampleFormat, xs: seq<Sample>)
    requires 512 <= |PaddedUp(xs)|
    ensures AllConvert(format, PaddedUp(xs)[512..]) <==> forall i :: 512 <= i < |xs| ==> Converts(format, xs[i])
  {
    var all := PaddedUp(xs);
    forall i | 512 <= i < |all| ensures all[i] == all[512..][i - 512] {
    }
    assert forall i :: 512 <= i < |xs| ==> xs[i] == all[512..][i - 512];
  }

  lemma FrontConverts(format: SampleFormat, xs: seq<Sample>, n: nat)
    requires n <= |xs| && AllConvert(format, xs)
    ensures AllConvert(format, xs[..n])
  {
  }

  /** The law the recording is for: everything after the first 512 samples is kept, if and only if
      the identifier fits the 32-bit sequence numbers and these samples can be stored. */
  lemma LosslessLaw(secret: nat, spec: Spec, ops: seq<P.Op>, log: Log,
                    deviceId: nat, format: SampleFormat, arrivals: seq<H.Arrival>, id: Uuid)
    requires Connected(secret, spec, ops, log, arrivals) && Lossless(log)
    requires id < |P.Split(ops).done|
    ensures var h, xs := H.Run(H.Initial(deviceId, format), arrivals), P.Split(ops).done[id];
            && id !in h.live && EventsOf(h.events, id) == 1
            && id in h.disk && 512 <= |PaddedUp(xs)|
            && (h.disk[id] == PaddedUp(xs)[512..] <==>
                |xs| <= 0x200_0000_0000 && forall i :: 512 <= i < |xs| && format.U16? ==> xs[i] <= 32767.0)
  {
    LosslessFile(secret, spec, ops, log, deviceId, format, arrivals, id);
    var h, xs := H.Run(H.Initial(deviceId, format), arrivals), P.Split(ops).done[id];
    var n, all := P.ChunkCount(|xs|), PaddedUp(xs);
    RestConverts(format, xs);
    assert |xs| <= 0x200_0000_0000 <==> n <= 0x1_0000_0000;
    if n <= 0x1_0000_0000 {
      assert all[512..512 * n] == all[512..];
    } else if AllConvert(format, all[512..]) {
      assert all[512..][..512 * 0xffff_ffff] == LosslessSamples(xs, n);
      FrontConverts(format, all[512..], 512 * 0xffff_ffff);
      assert |h.disk[id]| < |all[512..]|;
    }
  }
}
