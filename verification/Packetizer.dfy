/** How the audio client cuts the recorded samples into packets.

    `Run` is the machine of the sink, one call at a time.  `Transcript` is the reference:
    the plain lists of samples that belong to each identifier.  The closed form ties the
    whole machine state, every packet it has sent included, to the transcript.
 */
module Packetizer {
  import opened AudioTypes

  /** The calls the sink receives. */
  datatype Op = Record(sample: Sample) | End | SendSpec

  datatype Sink = Sink(
    secret: nat, spec: Spec,
    buf: seq<Sample>, bufPos: nat, id: Uuid, seqNo: nat, firstPayloadIgnored: bool,
    out: seq<Audio>)
  {
    predicate Valid() {
      |buf| == 512 && bufPos < 512
    }
  }

  function Initial(secret: nat, spec: Spec): Sink {
    Sink(secret, spec, DefaultSamples(512), 0, 0, 0, false, [])
  }

  function WriteSpec(s: Sink): Sink {
    s.(out := s.out + [SpecOf(s.secret, s.spec)])
  }

  /** The size travels in one byte and the sequence number in four. */
  function WritePayload(s: Sink): Sink {
    s.(out := s.out + [WavChunk(Chunk(s.id, s.seqNo, s.bufPos % 256, s.buf))],
       buf := DefaultSamples(512),
       bufPos := 0,
       seqNo := (s.seqNo + 1) % 0x1_0000_0000)
  }

  function WriteEof(s: Sink): Sink {
    s.(out := s.out + [WavEnd(s.id)], id := s.id + 1, seqNo := 0)
  }

  function Apply(s: Sink, op: Op): (s': Sink)
    requires s.Valid()
    ensures s'.Valid()
  {
    match op
    case SendSpec => WriteSpec(s)
    case Record(x) =>
      var t := s.(buf := s.buf[s.bufPos := x], bufPos := s.bufPos + 1);
      if t.bufPos == 512 then WritePayload(t) else t
    case End =>
      if !s.firstPayloadIgnored then s.(firstPayloadIgnored := true)
      else if s.bufPos != 0 then WriteEof(WritePayload(s))
      else s
  }

  function Run(s: Sink, ops: seq<Op>): (s': Sink)
    requires s.Valid()
    ensures s'.Valid()
  {
    if ops == [] then s else Apply(Run(s, ops[..|ops| - 1]), ops[|ops| - 1])
  }

  lemma {:induction false} RunAppend(s: Sink, first: seq<Op>, second: seq<Op>)
    requires s.Valid()
    ensures Run(s, first + second) == Run(Run(s, first), second)
  {
    if second == [] {
      assert first + second == first;
    } else {
      RunAppend(s, first, second[..|second| - 1]);
      assert (first + second)[..|first + second| - 1] == first + second[..|second| - 1];
    }
  }

  /** What was sent before has no bearing on what follows. */
  lemma {:induction false} RunBehind(s: Sink, before: seq<Audio>, ops: seq<Op>)
    requires s.Valid()
    ensures Run(s.(out := before + s.out), ops) == Run(s, ops).(out := before + Run(s, ops).out)
  {
    if ops != [] {
      RunBehind(s, before, ops[..|ops| - 1]);
      ApplyBehind(Run(s, ops[..|ops| - 1]), before, ops[|ops| - 1]);
    }
  }

  lemma ApplyBehind(s: Sink, before: seq<Audio>, op: Op)
    requires s.Valid()
    ensures Apply(s.(out := before + s.out), op) == Apply(s, op).(out := before + Apply(s, op).out)
  {
    assert forall p: Audio :: before + s.out + [p] == before + (s.out + [p]);
    assert forall p: Audio, q: Audio :: before + s.out + [p] + [q] == before + (s.out + [p] + [q]);
  }

  // ------------------------------------------------------------- the reference

  /** The samples of every finished identifier, those of the current one, and whether an
      end has been seen at all. */
  datatype Transcript = Transcript(done: seq<seq<Sample>>, current: seq<Sample>, ended: bool)

  /** An end closes the current identifier unless it is the very first end of the run or
      falls on a chunk boundary. */
  function Note(t: Transcript, op: Op): Transcript {
    match op
    case SendSpec => t
    case Record(x) => t.(current := t.current + [x])
    case End =>
      if t.ended && |t.current| % 512 != 0
      then Transcript(t.done + [t.current], [], true)
      else t.(ended := true)
  }

  function Split(ops: seq<Op>): Transcript {
    if ops == [] then Transcript([], [], false) else Note(Split(ops[..|ops| - 1]), ops[|ops| - 1])
  }

  function RecordedBy(ops: seq<Op>): seq<Sample> {
    if ops == [] then []
    else
      var front := RecordedBy(ops[..|ops| - 1]);
      if ops[|ops| - 1].Record? then front + [ops[|ops| - 1].sample] else front
  }

  /** Number of chunks that hold n samples, the last of them perhaps partly filled. */
  function ChunkCount(n: nat): nat {
    (n + 512 - 1) / 512
  }

  /** The samples of the k-th chunk, without padding. */
  function Slice(xs: seq<Sample>, k: nat): (slice: seq<Sample>)
    requires k < ChunkCount(|xs|)
    ensures 0 < |slice| <= 512
  {
    var lo := 512 * k;
    if lo + 512 <= |xs| then xs[lo..lo + 512] else xs[lo..]
  }

  /** The k-th packet of the identifier that owns the samples `xs`. */
  function ChunkOf(id: Uuid, xs: seq<Sample>, k: nat): Audio
    requires k < ChunkCount(|xs|)
  {
    WavChunk(Chunk(id, k % 0x1_0000_0000, |Slice(xs, k)| % 256, Padded(Slice(xs, k))))
  }

  function Chunks(id: Uuid, xs: seq<Sample>, n: nat): (packets: seq<Audio>)
    requires n <= ChunkCount(|xs|)
    ensures |packets| == n
    ensures forall k :: 0 <= k < n ==> packets[k] == ChunkOf(id, xs, k)
  {
    if n == 0 then [] else Chunks(id, xs, n - 1) + [ChunkOf(id, xs, n - 1)]
  }

  /** All chunks of one identifier and its closing packet. */
  function Finished(id: Uuid, xs: seq<Sample>): seq<Audio> {
    Chunks(id, xs, ChunkCount(|xs|)) + [WavEnd(id)]
  }

  function AllFinished(done: seq<seq<Sample>>): seq<Audio> {
    if done == [] then []
    else AllFinished(done[..|done| - 1]) + Finished(|done| - 1, done[|done| - 1])
  }

  /** Everything sent so far, according to the transcript. */
  function Packets(t: Transcript): seq<Audio> {
    AllFinished(t.done) + Chunks(|t.done|, t.current, |t.current| / 512)
  }

  /** The packets without the stream descriptions sent on start-up and on request. */
  function WithoutSpecs(out: seq<Audio>): seq<Audio> {
    if out == [] then []
    else
      var front := WithoutSpecs(out[..|out| - 1]);
      if out[|out| - 1].SpecOf? then front else front + [out[|out| - 1]]
  }

  // ------------------------------------------------------------- the closed form

  /** The fields of the machine are what the transcript prescribes. */
  ghost predicate Holds(s: Sink, t: Transcript) {
    var full := |t.current| / 512;
    && s.buf == Padded(t.current[512 * full..])
    && s.bufPos == |t.current| % 512
    && s.id == |t.done|
    && s.seqNo == full % 0x1_0000_0000
    && s.firstPayloadIgnored == t.ended
  }

  /** The whole machine state, the packets sent so far included. */
  ghost predicate Reflects(s: Sink, t: Transcript) {
    s.Valid() && Holds(s, t) && WithoutSpecs(s.out) == Packets(t)
  }

  lemma {:induction false} ChunksOfLonger(id: Uuid, xs: seq<Sample>, more: seq<Sample>, n: nat)
    requires 512 * n <= |xs|
    ensures Chunks(id, xs + more, n) == Chunks(id, xs, n)
  {
    if n != 0 {
      ChunksOfLonger(id, xs, more, n - 1);
      assert Slice(xs + more, n - 1) == Slice(xs, n - 1);
    }
  }

  lemma WithoutSpecsSnoc(out: seq<Audio>, p: Audio)
    ensures WithoutSpecs(out + [p]) == if p.SpecOf? then WithoutSpecs(out) else WithoutSpecs(out) + [p]
  {
    assert (out + [p])[..|out + [p]| - 1] == out;
  }

  lemma StoreInBuffer(tail: seq<Sample>, x: Sample)
    requires |tail| < 512
    ensures Padded(tail)[|tail| := x] == Padded(tail + [x])
  {
  }

  lemma DropOfLonger(xs: seq<Sample>, x: Sample, k: nat)
    requires k <= |xs|
    ensures (xs + [x])[k..] == xs[k..] + [x]
  {
  }

  lemma Rejoin(before: seq<Sample>, xs: seq<Sample>, k: nat)
    requires k <= |xs|
    ensures before + xs[..k] + xs[k..] == before + xs
  {
  }

  lemma StayHolds(s: Sink, t: Transcript, x: Sample)
    requires s.Valid() && Holds(s, t) && s.bufPos + 1 < 512
    ensures |t.current + [x]| / 512 == |t.current| / 512
    ensures Holds(Apply(s, Record(x)), Note(t, Record(x)))
  {
    var full := |t.current| / 512;
    assert (|t.current| + 1) / 512 == full;
    DropOfLonger(t.current, x, 512 * full);
    StoreInBuffer(t.current[512 * full..], x);
  }

  lemma RecordStays(s: Sink, t: Transcript, x: Sample)
    requires Reflects(s, t) && s.bufPos + 1 < 512
    ensures Reflects(Apply(s, Record(x)), Note(t, Record(x)))
  {
    StayHolds(s, t, x);
    ChunksOfLonger(|t.done|, t.current, [x], |t.current| / 512);
  }

  lemma NextSeqNo(n: nat)
    ensures (n % 0x1_0000_0000 + 1) % 0x1_0000_0000 == (n + 1) % 0x1_0000_0000
  {
  }

  lemma FillHolds(s: Sink, t: Transcript, x: Sample)
    requires s.Valid() && Holds(s, t) && s.bufPos + 1 == 512
    ensures Holds(Apply(s, Record(x)), Note(t, Record(x)))
  {
    var full, more := |t.current| / 512, t.current + [x];
    assert |more| == 512 * (full + 1);
    NextSeqNo(full);
    assert more[512 * (full + 1)..] == [];
    assert Padded([]) == DefaultSamples(512);
  }

  lemma FillSends(s: Sink, t: Transcript, x: Sample)
    requires s.Valid() && Holds(s, t) && s.bufPos + 1 == 512
    ensures var full := |t.current| / 512;
            && full < ChunkCount(|t.current + [x]|)
            && Apply(s, Record(x)).out == s.out + [ChunkOf(|t.done|, t.current + [x], full)]
  {
    var full, more := |t.current| / 512, t.current + [x];
    assert |more| == 512 * (full + 1);
    DropOfLonger(t.current, x, 512 * full);
    StoreInBuffer(t.current[512 * full..], x);
    assert Slice(more, full) == more[512 * full..];
  }

  lemma FillPackets(t: Transcript, x: Sample)
    requires (|t.current| + 1) % 512 == 0
    ensures var full, more := |t.current| / 512, t.current + [x];
            && full < ChunkCount(|more|)
            && Packets(t.(current := more)) == Packets(t) + [ChunkOf(|t.done|, more, full)]
  {
    var full, more, id := |t.current| / 512, t.current + [x], |t.done|;
    assert |more| / 512 == full + 1;
    ChunksOfLonger(id, t.current, [x], full);
    Regroup(AllFinished(t.done), Chunks(id, more, full), [ChunkOf(id, more, full)], []);
  }

  lemma RecordFills(s: Sink, t: Transcript, x: Sample)
    requires Reflects(s, t) && s.bufPos + 1 == 512
    ensures Reflects(Apply(s, Record(x)), Note(t, Record(x)))
  {
    FillHolds(s, t, x);
    FillSends(s, t, x);
    FillPackets(t, x);
    WithoutSpecsSnoc(s.out, ChunkOf(|t.done|, t.current + [x], |t.current| / 512));
  }

  lemma CloseSends(s: Sink, t: Transcript)
    requires s.Valid() && Holds(s, t) && t.ended && s.bufPos != 0
    ensures var full := |t.current| / 512;
            && ChunkCount(|t.current|) == full + 1
            && Apply(s, End).out == s.out + [ChunkOf(|t.done|, t.current, full)] + [WavEnd(|t.done|)]
  {
    var full := |t.current| / 512;
    assert ChunkCount(|t.current|) == full + 1;
    assert Slice(t.current, full) == t.current[512 * full..];
  }

  lemma ClosePackets(t: Transcript)
    requires |t.current| % 512 != 0
    ensures var full := |t.current| / 512;
            && ChunkCount(|t.current|) == full + 1
            && Packets(Transcript(t.done + [t.current], [], true))
               == Packets(t) + [ChunkOf(|t.done|, t.current, full)] + [WavEnd(|t.done|)]
  {
    var full, id := |t.current| / 512, |t.done|;
    assert ChunkCount(|t.current|) == full + 1;
    assert (t.done + [t.current])[..id] == t.done;
    Regroup(AllFinished(t.done), Chunks(id, t.current, full), [ChunkOf(id, t.current, full)], [WavEnd(id)]);
  }

  lemma Regroup(a: seq<Audio>, b: seq<Audio>, c: seq<Audio>, d: seq<Audio>)
    ensures a + (b + c + d) == a + b + c + d
    ensures a + (b + c) == a + b + c
  {
  }

  lemma CloseReflects(s: Sink, t: Transcript)
    requires Reflects(s, t) && t.ended && s.bufPos != 0
    ensures Reflects(Apply(s, End), Note(t, End))
  {
    CloseSends(s, t);
    ClosePackets(t);
    var last := ChunkOf(|t.done|, t.current, |t.current| / 512);
    WithoutSpecsSnoc(s.out, last);
    WithoutSpecsSnoc(s.out + [last], WavEnd(|t.done|));
    assert Padded([]) == DefaultSamples(512);
  }

  /** Over every sequence of calls, the sink holds and has sent exactly what the transcript says. */
  lemma {:induction false} PacketizerClosedForm(secret: nat, spec: Spec, ops: seq<Op>)
    ensures Reflects(Run(Initial(secret, spec), ops), Split(ops))
  {
    if ops == [] {
      assert DefaultSamples(512) == Padded([]);
    } else {
      var front, op := ops[..|ops| - 1], ops[|ops| - 1];
      PacketizerClosedForm(secret, spec, front);
      var s, t := Run(Initial(secret, spec), front), Split(front);
      match op
      case SendSpec => WithoutSpecsSnoc(s.out, SpecOf(s.secret, s.spec));
      case Record(x) => if s.bufPos + 1 == 512 { RecordFills(s, t, x); } else { RecordStays(s, t, x); }
      case End => if t.ended && s.bufPos != 0 { CloseReflects(s, t); }
    }
  }

  // ------------------------------------------------------------- consequences

  lemma {:induction false} EndedMeans(ops: seq<Op>)
    ensures Split(ops).ended <==> End in ops
  {
    if ops != [] {
      EndedMeans(ops[..|ops| - 1]);
      assert ops == ops[..|ops| - 1] + [ops[|ops| - 1]];
    }
  }

  /** An end sends something if and only if it is not the first one and the samples since the last
      end packet do not fill whole chunks.  It then sends the chunk that is not full and the end
      packet. */
  lemma WhenAnEndIsSent(secret: nat, spec: Spec, ops: seq<Op>)
    ensures var s, t := Run(Initial(secret, spec), ops), Split(ops);
            var k := |t.current| / 512;
            Apply(s, End).out ==
            if End in ops && |t.current| % 512 != 0
            then s.out + [ChunkOf(|t.done|, t.current, k)] + [WavEnd(|t.done|)]
            else s.out
  {
    PacketizerClosedForm(secret, spec, ops);
    EndedMeans(ops);
    var s, t := Run(Initial(secret, spec), ops), Split(ops);
    if t.ended && s.bufPos != 0 {
      CloseSends(s, t);
    }
  }

  /** No recorded sample is lost, repeated or reordered by the cutting. */
  lemma {:induction false} SplitConserves(ops: seq<Op>)
    ensures Concat(Split(ops).done) + Split(ops).current == RecordedBy(ops)
  {
    if ops != [] {
      var front, op := ops[..|ops| - 1], ops[|ops| - 1];
      SplitConserves(front);
      var t := Split(front);
      match op
      case SendSpec =>
      case Record(x) => assert Concat(t.done) + (t.current + [x]) == Concat(t.done) + t.current + [x];
      case End => assert (t.done + [t.current])[..|t.done|] == t.done;
    }
  }

  /** The first n chunks hold, padding aside, exactly the first 512 n samples. */
  function Slices(xs: seq<Sample>, n: nat): seq<seq<Sample>>
    requires n <= ChunkCount(|xs|)
  {
    if n == 0 then [] else Slices(xs, n - 1) + [Slice(xs, n - 1)]
  }

  lemma {:induction false} SlicesConserve(xs: seq<Sample>, n: nat)
    requires n <= ChunkCount(|xs|)
    ensures Concat(Slices(xs, n)) == if 512 * n <= |xs| then xs[..512 * n] else xs
  {
    if n != 0 {
      SlicesConserve(xs, n - 1);
      assert Slices(xs, n)[..|Slices(xs, n)| - 1] == Slices(xs, n - 1);
      var lo := 512 * (n - 1);
      if 512 * n <= |xs| {
        assert xs[..lo] + xs[lo..512 * n] == xs[..512 * n];
      } else {
        assert xs[..lo] + xs[lo..] == xs;
      }
    }
  }

  lemma SlicesAndRest(done: seq<Sample>, xs: seq<Sample>)
    ensures var full := |xs| / 512;
            && full <= ChunkCount(|xs|)
            && done + Concat(Slices(xs, full)) + xs[512 * full..] == done + xs
  {
    var full := |xs| / 512;
    SlicesConserve(xs, full);
    Rejoin(done, xs, 512 * full);
  }

  /** Conservation over every run: the unpadded chunks of all identifiers, those of the current
      one, and what waits in the buffer add up to the recorded samples, in order. */
  lemma PacketizerConserves(secret: nat, spec: Spec, ops: seq<Op>)
    ensures var s, t := Run(Initial(secret, spec), ops), Split(ops);
            && WithoutSpecs(s.out) == Packets(t)
            && Concat(t.done) + Concat(Slices(t.current, |t.current| / 512)) + s.buf[..s.bufPos]
               == RecordedBy(ops)
    ensures forall k :: 0 <= k < |Split(ops).done| ==>
              var xs := Split(ops).done[k];
              Concat(Slices(xs, ChunkCount(|xs|))) == xs
  {
    PacketizerClosedForm(secret, spec, ops);
    SplitConserves(ops);
    var s, t := Run(Initial(secret, spec), ops), Split(ops);
    assert s.buf[..s.bufPos] == t.current[512 * (|t.current| / 512)..];
    SlicesAndRest(Concat(t.done), t.current);
    forall k | 0 <= k < |t.done|
      ensures Concat(Slices(t.done[k], ChunkCount(|t.done[k]|))) == t.done[k]
    {
      SlicesConserve(t.done[k], ChunkCount(|t.done[k]|));
    }
  }
}
