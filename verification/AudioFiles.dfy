/** What the server's files and events contain, under any loss, duplication and reordering. */
module AudioFiles {
  import opened AudioTypes
  import opened Options
  import opened AudioHandler

  // ------------------------------------------------------------- one identifier

  datatype Live = Live(seqNo: nat, file: seq<Sample>)

  /** The handler seen through one identifier, clocks aside. */
  datatype Track = Track(format: SampleFormat, live: Option<Live>, disk: Option<seq<Sample>>, ended: nat)

  /** All of its samples can be stored. */
  predicate Complete(format: SampleFormat, c: Chunk) {
    AllConvert(format, c.payload)
  }

  function Extend(format: SampleFormat, live: Live, c: Chunk): Live {
    if live.seqNo < c.seqNo
    then Live(if Complete(format, c) then c.seqNo else live.seqNo, live.file + Convertible(format, c.payload))
    else live
  }

  function TrackStep(id: Uuid, t: Track, packet: Audio): Track {
    match packet
    case WavChunk(c) =>
      if c.id != id then t
      else t.(live := Some(Extend(t.format, if t.live.Some? then t.live.value else Live(0, []), c)), disk := None)
    case WavEnd(e) =>
      if e != id || t.live.None? then t else Track(t.format, None, Some(t.live.value.file), t.ended + 1)
    case _ => t
  }

  function TrackRun(id: Uuid, t: Track, packets: seq<Audio>): Track {
    if packets == [] then t
    else TrackStep(id, TrackRun(id, t, packets[..|packets| - 1]), packets[|packets| - 1])
  }

  function Untouched(format: SampleFormat): Track {
    Track(format, None, None, 0)
  }

  /** The events of a run that announce the file of `id`. */
  function EventsOf(events: seq<SoundEvent>, id: Uuid): nat {
    if events == [] then 0
    else EventsOf(events[..|events| - 1], id) + if events[|events| - 1].wavFile == id then 1 else 0
  }

  function Project(h: Handler, id: Uuid): Track {
    Track(
      h.format,
      if id in h.live then Some(Live(h.live[id].seqNo, h.live[id].file)) else None,
      if id in h.disk && id !in h.live then Some(h.disk[id]) else None,
      EventsOf(h.events, id))
  }

  function Packets(arrivals: seq<Arrival>): seq<Audio> {
    if arrivals == [] then []
    else
      var front := Packets(arrivals[..|arrivals| - 1]);
      match arrivals[|arrivals| - 1].packet
      case None => front
      case Some(packet) => front + [packet]
  }

  lemma {:induction false} StepProjects(h: Handler, a: Arrival, id: Uuid)
    ensures Project(Step(h, a), id)
         == if a.packet.None? then Project(h, id) else TrackStep(id, Project(h, id), a.packet.value)
  {
    match a.packet
    case Some(WavEnd(e)) =>
      if e in h.live {
        var e' := SoundEvent(e, h.live[e].startedAt, a.at, h.live[e].deviceId);
        assert (h.events + [e'])[..|h.events|] == h.events;
      }
    case _ =>
  }

  lemma TrackRunSnoc(id: Uuid, t: Track, packets: seq<Audio>, p: Audio)
    ensures TrackRun(id, t, packets + [p]) == TrackStep(id, TrackRun(id, t, packets), p)
  {
    assert (packets + [p])[..|packets|] == packets;
  }

  lemma {:induction false} TrackRunAppend(id: Uuid, t: Track, first: seq<Audio>, second: seq<Audio>)
    ensures TrackRun(id, t, first + second) == TrackRun(id, TrackRun(id, t, first), second)
  {
    if second == [] {
      assert first + second == first;
    } else {
      var n := |second| - 1;
      TrackRunAppend(id, t, first, second[..n]);
      TrackRunSnoc(id, t, first + second[..n], second[n]);
      assert first + second == (first + second[..n]) + [second[n]];
    }
  }

  /** Identifiers do not disturb one another: each sees the whole run as its own machine. */
  lemma {:induction false} RunProjects(h: Handler, arrivals: seq<Arrival>, id: Uuid)
    ensures Project(Run(h, arrivals), id) == TrackRun(id, Project(h, id), Packets(arrivals))
  {
    if arrivals != [] {
      var front, a := arrivals[..|arrivals| - 1], arrivals[|arrivals| - 1];
      RunProjects(h, front, id);
      StepProjects(Run(h, front), a, id);
      if a.packet.Some? {
        TrackRunSnoc(id, Project(h, id), Packets(front), a.packet.value);
      }
    }
  }

  // ------------------------------------------------------------- running maxima

  function SinceStep(id: Uuid, cs: seq<Chunk>, p: Audio): seq<Chunk> {
    match p
    case WavChunk(c) => if c.id == id then cs + [c] else cs
    case WavEnd(e) => if e == id then [] else cs
    case _ => cs
  }

  /** The chunks of `id` delivered since its last end packet. */
  function Since(id: Uuid, packets: seq<Audio>): seq<Chunk> {
    if packets == [] then [] else SinceStep(id, Since(id, packets[..|packets| - 1]), packets[|packets| - 1])
  }

  /** The i-th chunk exceeds 0 and every complete chunk before it. */
  ghost predicate IsRecord(format: SampleFormat, cs: seq<Chunk>, i: nat)
    requires i < |cs|
  {
    0 < cs[i].seqNo && forall j :: 0 <= j < i && Complete(format, cs[j]) ==> cs[j].seqNo < cs[i].seqNo
  }

  ghost function Records(format: SampleFormat, cs: seq<Chunk>): seq<Chunk> {
    if cs == [] then []
    else
      var n := |cs| - 1;
      Records(format, cs[..n]) + if IsRecord(format, cs, n) then [cs[n]] else []
  }

  /** What can be stored of the payloads. */
  function Payloads(format: SampleFormat, cs: seq<Chunk>): seq<Sample> {
    if cs == [] then [] else Payloads(format, cs[..|cs| - 1]) + Convertible(format, cs[|cs| - 1].payload)
  }

  /** `m` is the largest sequence number of a complete chunk, or 0 when there is none. */
  ghost predicate IsMax(format: SampleFormat, cs: seq<Chunk>, m: nat) {
    && (forall i :: 0 <= i < |cs| && Complete(format, cs[i]) ==> cs[i].seqNo <= m)
    && (m != 0 ==> exists i :: 0 <= i < |cs| && Complete(format, cs[i]) && cs[i].seqNo == m)
  }

  lemma PayloadsSnoc(format: SampleFormat, cs: seq<Chunk>, c: Chunk)
    ensures Payloads(format, cs + [c]) == Payloads(format, cs) + Convertible(format, c.payload)
  {
    assert (cs + [c])[..|cs|] == cs;
  }

  /** The file of a writer that has received exactly the chunks `cs`. */
  ghost function FileOf(format: SampleFormat, cs: seq<Chunk>): seq<Sample> {
    Payloads(format, Records(format, cs))
  }

  /** A writer that has received exactly the chunks `cs`. */
  ghost predicate Received(format: SampleFormat, live: Live, cs: seq<Chunk>) {
    IsMax(format, cs, live.seqNo) && live.file == FileOf(format, cs)
  }

  lemma MaxGrows(format: SampleFormat, cs: seq<Chunk>, m: nat, c: Chunk)
    requires IsMax(format, cs, m)
    ensures IsMax(format, cs + [c], if m < c.seqNo && Complete(format, c) then c.seqNo else m)
    ensures IsRecord(format, cs + [c], |cs|) <==> m < c.seqNo
  {
    var all := cs + [c];
    assert all[|cs|] == c;
    if m != 0 {
      var i :| 0 <= i < |cs| && Complete(format, cs[i]) && cs[i].seqNo == m;
      assert all[i].seqNo == m && Complete(format, all[i]);
    }
  }

  lemma ExtendReceives(format: SampleFormat, cs: seq<Chunk>, live: Live, c: Chunk)
    requires Received(format, live, cs)
    ensures Received(format, Extend(format, live, c), cs + [c])
  {
    MaxGrows(format, cs, live.seqNo, c);
    assert (cs + [c])[..|cs|] == cs;
    if live.seqNo < c.seqNo {
      PayloadsSnoc(format, Records(format, cs), c);
    } else {
      assert Records(format, cs) + [] == Records(format, cs);
    }
  }

  /** A track whose writer exists exactly when chunks have come, and has received them. */
  ghost predicate Follows(t: Track, cs: seq<Chunk>) {
    (t.live.Some? <==> cs != []) && (t.live.Some? ==> Received(t.format, t.live.value, cs))
  }

  lemma {:induction false} ChunkFollows(id: Uuid, t: Track, cs: seq<Chunk>, c: Chunk)
    requires Follows(t, cs) && c.id == id
    ensures Follows(TrackStep(id, t, WavChunk(c)), cs + [c])
  {
    var live := if t.live.Some? then t.live.value else Live(0, []);
    if t.live.None? {
      NothingReceived(t.format);
    }
    ExtendReceives(t.format, cs, live, c);
    assert TrackStep(id, t, WavChunk(c)).live == Some(Extend(t.format, live, c));
  }

  lemma NothingReceived(format: SampleFormat)
    ensures Received(format, Live(0, []), [])
  {
  }

  lemma {:induction false} StepFollows(id: Uuid, t: Track, cs: seq<Chunk>, p: Audio)
    requires Follows(t, cs)
    ensures Follows(TrackStep(id, t, p), SinceStep(id, cs, p))
  {
    if p.WavChunk? && p.chunk.id == id {
      ChunkFollows(id, t, cs, p.chunk);
      assert SinceStep(id, cs, p) == cs + [p.chunk];
    } else {
      OtherFollows(id, t, cs, p);
    }
  }

  lemma {:induction false} OtherFollows(id: Uuid, t: Track, cs: seq<Chunk>, p: Audio)
    requires Follows(t, cs) && !(p.WavChunk? && p.chunk.id == id)
    ensures Follows(TrackStep(id, t, p), SinceStep(id, cs, p))
  {
    if p.WavEnd? && p.id == id {
      assert TrackStep(id, t, p).live.None? && SinceStep(id, cs, p) == [];
    } else {
      assert TrackStep(id, t, p) == t && SinceStep(id, cs, p) == cs;
    }
  }

  lemma {:induction false} FormatStays(id: Uuid, t: Track, packets: seq<Audio>)
    ensures TrackRun(id, t, packets).format == t.format
  {
    if packets != [] {
      FormatStays(id, t, packets[..|packets| - 1]);
    }
  }

  /** Under any delivery whatever: there is a writer exactly when chunks have come since the last
      end, its file is what can be stored of the chunks whose numbers exceed 0 and those of all
      complete chunks before them, and its own number is the maximum of the complete ones.  When all
      samples convert these are the strict running maxima. */
  lemma {:induction false} LiveFileIsRunningMaxima(id: Uuid, format: SampleFormat, packets: seq<Audio>)
    ensures Follows(TrackRun(id, Untouched(format), packets), Since(id, packets))
    ensures TrackRun(id, Untouched(format), packets).format == format
  {
    FormatStays(id, Untouched(format), packets);
    if packets != [] {
      var front := packets[..|packets| - 1];
      LiveFileIsRunningMaxima(id, format, front);
      StepFollows(id, TrackRun(id, Untouched(format), front), Since(id, front), packets[|packets| - 1]);
    }
  }

  /** The same for the handler itself, over every run of arrivals. */
  lemma HandlerFileIsRunningMaxima(deviceId: nat, format: SampleFormat, arrivals: seq<Arrival>, id: Uuid)
    ensures var h, cs := Run(Initial(deviceId, format), arrivals), Since(id, Packets(arrivals));
            && (id in h.live <==> cs != [])
            && (id in h.live ==> Received(format, Live(h.live[id].seqNo, h.live[id].file), cs))
  {
    RunProjects(Initial(deviceId, format), arrivals, id);
    LiveFileIsRunningMaxima(id, format, Packets(arrivals));
  }

  /** A number that has already come in a complete chunk, or that lies below one that has, changes
      nothing. */
  lemma RedeliveryIsIgnored(deviceId: nat, format: SampleFormat, arrivals: seq<Arrival>, c: Chunk, earlier: Chunk, at: int)
    requires earlier in Since(c.id, Packets(arrivals)) && Complete(format, earlier) && c.seqNo <= earlier.seqNo
    ensures var h := Run(Initial(deviceId, format), arrivals);
            Step(h, Arrival(Some(WavChunk(c)), at)) == h
  {
    HandlerFileIsRunningMaxima(deviceId, format, arrivals, c.id);
    var h, cs := Run(Initial(deviceId, format), arrivals), Since(c.id, Packets(arrivals));
    var w := h.live[c.id];
    var i :| 0 <= i < |cs| && cs[i] == earlier;
    assert cs[i].seqNo <= w.seqNo;
    WritingBack(h.live, c.id);
    HandlerFormat(deviceId, format, arrivals);
    assert WriteChunk(format, w, c) == w;
  }

  lemma {:induction false} HandlerFormat(deviceId: nat, format: SampleFormat, arrivals: seq<Arrival>)
    ensures Run(Initial(deviceId, format), arrivals).format == format
  {
    if arrivals != [] {
      HandlerFormat(deviceId, format, arrivals[..|arrivals| - 1]);
    }
  }

  lemma WritingBack<V>(m: map<Uuid, V>, id: Uuid)
    requires id in m
    ensures m[id := m[id]] == m
  {
  }

  lemma RecordsSnoc(format: SampleFormat, cs: seq<Chunk>)
    requires cs != []
    ensures Records(format, cs) == Records(format, cs[..|cs| - 1])
         || (IsRecord(format, cs, |cs| - 1) && Records(format, cs) == Records(format, cs[..|cs| - 1]) + [cs[|cs| - 1]])
  {
  }

  /** The written chunks are delivered ones, never number 0, and each exceeds every complete one before
      it.  So the file is a repeat-free selection of what was sent, in sending order, when all samples
      convert. */
  lemma {:induction false} RecordsAreSelection(format: SampleFormat, cs: seq<Chunk>)
    ensures forall r :: r in Records(format, cs) ==> r in cs && 0 < r.seqNo
    ensures forall i, j :: 0 <= i < j < |Records(format, cs)| && Complete(format, Records(format, cs)[i]) ==>
              Records(format, cs)[i].seqNo < Records(format, cs)[j].seqNo
  {
    if cs != [] {
      var n := |cs| - 1;
      RecordsAreSelection(format, cs[..n]);
      RecordsSnoc(format, cs);
      if IsRecord(format, cs, n) {
        forall r | r in Records(format, cs[..n]) && Complete(format, r) ensures r.seqNo < cs[n].seqNo {
          var j :| 0 <= j < n && cs[j] == r;
        }
      }
    }
  }

  /** Nothing gets into a file but what converts. */
  lemma {:induction false} PayloadsConvert(format: SampleFormat, cs: seq<Chunk>)
    ensures AllConvert(format, Payloads(format, cs))
  {
    if cs != [] {
      PayloadsConvert(format, cs[..|cs| - 1]);
    }
  }

  /** An unsigned recording at rest, at half its range, writes nothing at all, and a chunk that gets
      beyond the signed range after its first samples is written anew by every copy. */
  lemma UnsignedChunks(w: Writer, c: Chunk, x: Sample)
    requires w.seqNo < c.seqNo && 1 < |c.payload| && x <= 32767.0
    ensures c.payload[0] == 32768.0 ==> WriteChunk(U16, w, c) == w
    ensures c.payload[0] == x && c.payload[1] == 32768.0 ==>
              WriteChunk(U16, WriteChunk(U16, w, c), c) == w.(file := w.file + [x, x])
  {
    if c.payload[0] == 32768.0 {
      ConvertibleUpTo(U16, c.payload, 0);
    } else if c.payload[0] == x && c.payload[1] == 32768.0 {
      ConvertibleUpTo(U16, c.payload, 1);
      assert c.payload[..1] == [x];
      assert w.file + [x] + [x] == w.file + [x, x];
    }
  }

  // ------------------------------------------------------------- finished files

  /** The ends of `id` that find chunks. */
  function Closings(id: Uuid, packets: seq<Audio>): nat {
    if packets == [] then 0
    else
      var front, p := packets[..|packets| - 1], packets[|packets| - 1];
      Closings(id, front) + if p == WavEnd(id) && Since(id, front) != [] then 1 else 0
  }

  /** The chunks that the last of these ends has closed. */
  function LastClosed(id: Uuid, packets: seq<Audio>): Option<seq<Chunk>> {
    if packets == [] then None
    else
      var front, p := packets[..|packets| - 1], packets[|packets| - 1];
      if p == WavEnd(id) && Since(id, front) != [] then Some(Since(id, front)) else LastClosed(id, front)
  }

  ghost function FinishedFile(id: Uuid, format: SampleFormat, packets: seq<Audio>): Option<seq<Sample>> {
    match LastClosed(id, packets)
    case None => None
    case Some(cs) => if Since(id, packets) == [] then Some(FileOf(format, cs)) else None
  }

  lemma StepFinishes(id: Uuid, t: Track, front: seq<Audio>, p: Audio)
    requires Follows(t, Since(id, front)) && t.disk == FinishedFile(id, t.format, front) && t.ended == Closings(id, front)
    ensures TrackStep(id, t, p).disk == FinishedFile(id, t.format, front + [p])
    ensures TrackStep(id, t, p).ended == Closings(id, front + [p])
  {
    assert (front + [p])[..|front|] == front;
  }

  /** Under any delivery whatever: the events of an identifier are the ends that found chunks, and the
      finished file is what the last of them closed, as long as no chunk has come since. */
  lemma {:induction false} TrackFinishes(id: Uuid, format: SampleFormat, packets: seq<Audio>)
    ensures TrackRun(id, Untouched(format), packets).disk == FinishedFile(id, format, packets)
    ensures TrackRun(id, Untouched(format), packets).ended == Closings(id, packets)
  {
    if packets != [] {
      var n := |packets| - 1;
      TrackFinishes(id, format, packets[..n]);
      LiveFileIsRunningMaxima(id, format, packets[..n]);
      assert packets == packets[..n] + [packets[n]];
      StepFinishes(id, TrackRun(id, Untouched(format), packets[..n]), packets[..n], packets[n]);
    }
  }

  lemma {:induction false} LiveIsNotFinished(deviceId: nat, format: SampleFormat, arrivals: seq<Arrival>, id: Uuid)
    ensures id in Run(Initial(deviceId, format), arrivals).live ==> id !in Run(Initial(deviceId, format), arrivals).disk
  {
    if arrivals != [] {
      LiveIsNotFinished(deviceId, format, arrivals[..|arrivals| - 1], id);
    }
  }

  /** The same for the handler itself, over every run of arrivals. */
  lemma HandlerFinishes(deviceId: nat, format: SampleFormat, arrivals: seq<Arrival>, id: Uuid)
    ensures var h, packets := Run(Initial(deviceId, format), arrivals), Packets(arrivals);
            && EventsOf(h.events, id) == Closings(id, packets)
            && (id in h.disk <==> Since(id, packets) == [] && LastClosed(id, packets).Some?)
            && (id in h.disk ==> h.disk[id] == FileOf(format, LastClosed(id, packets).value))
  {
    RunProjects(Initial(deviceId, format), arrivals, id);
    TrackFinishes(id, format, Packets(arrivals));
    LiveIsNotFinished(deviceId, format, arrivals, id);
  }

  /** So a chunk behind its end truncates the finished file, and one more end makes one more event. */
  lemma LateChunkTruncates(id: Uuid, t: Track, c: Chunk)
    requires t.live.None? && c.id == id
    ensures TrackRun(id, t, [WavChunk(c)]).disk == None
    ensures TrackRun(id, t, [WavChunk(c), WavEnd(id)])
         == Track(t.format, None, Some(if 0 < c.seqNo then Convertible(t.format, c.payload) else []), t.ended + 1)
  {
    TrackRunSnoc(id, t, [], WavChunk(c));
    TrackRunSnoc(id, t, [WavChunk(c)], WavEnd(id));
    assert [] + [WavChunk(c)] == [WavChunk(c)];
    assert [WavChunk(c)] + [WavEnd(id)] == [WavChunk(c), WavEnd(id)];
    assert [] + Convertible(t.format, c.payload) == Convertible(t.format, c.payload);
  }

  // ------------------------------------------------------------- accounting

  /** The chunks that find no writer: those that come first or right after an end of their own
      identifier, other identifiers disregarded. */
  function WritersCreated(packets: seq<Audio>): nat {
    if packets == [] then 0
    else
      var front, p := packets[..|packets| - 1], packets[|packets| - 1];
      WritersCreated(front) + if p.WavChunk? && Since(p.chunk.id, front) == [] then 1 else 0
  }

  /** Every writer and event of the handler belongs to its device. */
  ghost predicate Attributed(h: Handler) {
    && (forall id :: id in h.live ==> h.live[id].deviceId == h.deviceId)
    && (forall e :: e in h.events ==> e.deviceId == h.deviceId)
  }

  lemma StepAttributes(h: Handler, a: Arrival)
    requires Attributed(h)
    ensures Attributed(Step(h, a)) && Step(h, a).deviceId == h.deviceId
  {
  }

  lemma PutSize<V>(m: map<Uuid, V>, id: Uuid, v: V)
    ensures |m[id := v]| == |m| + if id in m then 0 else 1
  {
    assert m[id := v].Keys == m.Keys + {id};
  }

  lemma RemoveSize<V>(m: map<Uuid, V>, id: Uuid)
    requires id in m
    ensures |m - {id}| == |m| - 1
  {
    assert (m - {id}).Keys == m.Keys - {id};
  }

  lemma ChunkCounts(h: Handler, c: Chunk, at: int)
    ensures var h' := Step(h, Arrival(Some(WavChunk(c)), at));
            h'.events == h.events && |h'.live| == |h.live| + if c.id in h.live then 0 else 1
  {
    var created := Create(h, c.id, at).live;
    PutSize(h.live, c.id, Writer(0, [], at, h.deviceId));
    PutSize(created, c.id, WriteChunk(h.format, created[c.id], c));
  }

  lemma EndCounts(h: Handler, id: Uuid, at: int)
    ensures var h' := Step(h, Arrival(Some(WavEnd(id)), at));
            |h'.events| + |h'.live| == |h.events| + |h.live|
  {
    if id in h.live {
      RemoveSize(h.live, id);
    }
  }

  lemma {:induction false} StepCounts(h: Handler, a: Arrival)
    ensures |Step(h, a).events| + |Step(h, a).live| ==
            |h.events| + |h.live| +
            (if a.packet.Some? && a.packet.value.WavChunk? && a.packet.value.chunk.id !in h.live then 1 else 0)
  {
    match a.packet
    case Some(WavChunk(c)) => ChunkCounts(h, c, a.at);
    case Some(WavEnd(id)) => EndCounts(h, id, a.at);
    case _ =>
  }

  lemma WritersCreatedSnoc(packets: seq<Audio>, p: Audio)
    ensures WritersCreated(packets + [p])
         == WritersCreated(packets) + if p.WavChunk? && Since(p.chunk.id, packets) == [] then 1 else 0
  {
    assert (packets + [p])[..|packets|] == packets;
  }

  /** Every writer ever created is live or has sent exactly one event, and every event names the
      handler's device. */
  lemma {:induction false} WriterAccounting(deviceId: nat, format: SampleFormat, arrivals: seq<Arrival>)
    ensures var h := Run(Initial(deviceId, format), arrivals);
            && WritersCreated(Packets(arrivals)) == |h.events| + |h.live|
            && Attributed(h) && h.deviceId == deviceId
  {
    if arrivals != [] {
      var front, a := arrivals[..|arrivals| - 1], arrivals[|arrivals| - 1];
      WriterAccounting(deviceId, format, front);
      var h := Run(Initial(deviceId, format), front);
      StepAttributes(h, a);
      StepCounts(h, a);
      if a.packet.Some? {
        WritersCreatedSnoc(Packets(front), a.packet.value);
        if a.packet.value.WavChunk? {
          HandlerFileIsRunningMaxima(deviceId, format, front, a.packet.value.chunk.id);
        }
      }
    }
  }

  ghost predicate ClockForward(arrivals: seq<Arrival>) {
    forall i, j :: 0 <= i < j < |arrivals| ==> arrivals[i].at <= arrivals[j].at
  }

  ghost predicate StartedBy(h: Handler, now: int) {
    && (forall e :: e in h.events ==> e.startedAt <= e.endedAt)
    && (forall id :: id in h.live ==> h.live[id].startedAt <= now)
  }

  lemma StepStartedBy(h: Handler, a: Arrival, now: int)
    requires StartedBy(h, now) && now <= a.at
    ensures StartedBy(Step(h, a), a.at)
  {
  }

  /** With a clock that does not run backwards, no event ends before it starts. */
  lemma {:induction false} EventsSpanForward(deviceId: nat, format: SampleFormat, arrivals: seq<Arrival>)
    requires ClockForward(arrivals)
    ensures forall e :: e in Run(Initial(deviceId, format), arrivals).events ==> e.startedAt <= e.endedAt
    ensures arrivals != [] ==> StartedBy(Run(Initial(deviceId, format), arrivals), arrivals[|arrivals| - 1].at)
  {
    if arrivals != [] {
      var n := |arrivals| - 1;
      EventsSpanForward(deviceId, format, arrivals[..n]);
      StepStartedBy(Run(Initial(deviceId, format), arrivals[..n]), arrivals[n],
                    if n == 0 then arrivals[0].at else arrivals[n - 1].at);
    }
  }

  /** The i-th arrival is a chunk of `id` that found no writer, and no end of `id` has come after. */
  ghost predicate OpenedAt(arrivals: seq<Arrival>, id: Uuid, i: int) {
    && 0 <= i < |arrivals|
    && arrivals[i].packet.Some? && arrivals[i].packet.value.WavChunk? && arrivals[i].packet.value.chunk.id == id
    && Since(id, Packets(arrivals[..i])) == []
    && forall j :: i < j < |arrivals| ==> arrivals[j].packet != Some(WavEnd(id))
  }

  /** A live writer has started when the first of its chunks came. */
  lemma {:induction false} StartedByItsFirstChunk(deviceId: nat, format: SampleFormat, arrivals: seq<Arrival>, id: Uuid) returns (i: int)
    ensures id in Run(Initial(deviceId, format), arrivals).live ==>
              OpenedAt(arrivals, id, i) && Run(Initial(deviceId, format), arrivals).live[id].startedAt == arrivals[i].at
  {
    if arrivals == [] {
      return 0;
    }
    var n := |arrivals| - 1;
    i := StartedByItsFirstChunk(deviceId, format, arrivals[..n], id);
    var h := Run(Initial(deviceId, format), arrivals[..n]);
    if id in h.live {
      assert arrivals[..n][..i] == arrivals[..i];
    } else {
      i := n;
      HandlerFileIsRunningMaxima(deviceId, format, arrivals[..n], id);
    }
  }

  // ------------------------------------------------------------- what the events say

  /** The j-th arrival is an end packet that finds chunks of its identifier. */
  ghost predicate EndsAt(arrivals: seq<Arrival>, j: int) {
    && 0 <= j < |arrivals|
    && arrivals[j].packet.Some? && arrivals[j].packet.value.WavEnd?
    && Since(arrivals[j].packet.value.id, Packets(arrivals[..j])) != []
  }

  /** The positions of all such ends, in order. */
  ghost function Endings(arrivals: seq<Arrival>): seq<int> {
    if arrivals == [] then []
    else
      var n := |arrivals| - 1;
      Endings(arrivals[..n]) + if EndsAt(arrivals, n) then [n] else []
  }

  lemma EndsAtFront(arrivals: seq<Arrival>, n: nat, j: int)
    requires n <= |arrivals| && j < n
    ensures EndsAt(arrivals[..n], j) <==> EndsAt(arrivals, j)
  {
    if 0 <= j {
      assert arrivals[..n][..j] == arrivals[..j];
    }
  }

  ghost predicate Increasing(xs: seq<int>) {
    forall k, m :: 0 <= k < m < |xs| ==> xs[k] < xs[m]
  }

  lemma IncreasingSnoc(xs: seq<int>, n: int)
    requires Increasing(xs) && forall x :: x in xs ==> x < n
    ensures Increasing(xs + [n])
  {
    assert forall k :: 0 <= k < |xs| ==> xs[k] in xs;
  }

  /** They are all such ends, each once. */
  lemma {:induction false} EndingsAreAll(arrivals: seq<Arrival>)
    ensures forall j :: j in Endings(arrivals) <==> EndsAt(arrivals, j)
    ensures Increasing(Endings(arrivals))
  {
    if arrivals != [] {
      var n := |arrivals| - 1;
      var before := Endings(arrivals[..n]);
      EndingsAreAll(arrivals[..n]);
      forall j ensures j in before <==> j < n && EndsAt(arrivals, j) {
        if j < n {
          EndsAtFront(arrivals, n, j);
        }
      }
      if EndsAt(arrivals, n) {
        IncreasingSnoc(before, n);
        assert Endings(arrivals) == before + [n];
      } else {
        assert Endings(arrivals) == before;
      }
    }
  }

  /** The event tells of the writer that the j-th arrival has ended: it started when the first chunk
      since the end before came, and ended when this end came. */
  ghost predicate TellsOf(e: SoundEvent, arrivals: seq<Arrival>, j: int, deviceId: nat) {
    && EndsAt(arrivals, j)
    && arrivals[j].packet == Some(WavEnd(e.wavFile))
    && e.endedAt == arrivals[j].at && e.deviceId == deviceId
    && exists i :: OpenedAt(arrivals[..j], e.wavFile, i) && e.startedAt == arrivals[i].at
  }

  lemma TellsOfLonger(e: SoundEvent, arrivals: seq<Arrival>, n: nat, j: int, deviceId: nat)
    requires n <= |arrivals| && j < n && TellsOf(e, arrivals[..n], j, deviceId)
    ensures TellsOf(e, arrivals, j, deviceId)
  {
    EndsAtFront(arrivals, n, j);
    assert arrivals[..n][..j] == arrivals[..j];
    var i :| OpenedAt(arrivals[..n][..j], e.wavFile, i) && e.startedAt == arrivals[..n][i].at;
    assert arrivals[..n][i] == arrivals[i];
  }

  lemma LastTold(deviceId: nat, format: SampleFormat, arrivals: seq<Arrival>)
    requires arrivals != []
    ensures var n := |arrivals| - 1;
            var before, after := Run(Initial(deviceId, format), arrivals[..n]), Run(Initial(deviceId, format), arrivals);
            if EndsAt(arrivals, n)
            then |after.events| == |before.events| + 1 && after.events[..|before.events|] == before.events
                 && TellsOf(after.events[|before.events|], arrivals, n, deviceId)
            else after.events == before.events
  {
    var n := |arrivals| - 1;
    var a := arrivals[n];
    if a.packet.Some? && a.packet.value.WavEnd? {
      var id := a.packet.value.id;
      HandlerFileIsRunningMaxima(deviceId, format, arrivals[..n], id);
      if EndsAt(arrivals, n) {
        var i := StartedByItsFirstChunk(deviceId, format, arrivals[..n], id);
        WriterAccounting(deviceId, format, arrivals[..n]);
        assert arrivals[..n][i] == arrivals[i];
      }
    }
  }

  /** Events and ends that found chunks correspond one to one and in order, and each event tells of its
      end: its identifier, its device, when its writer was opened and when it was ended. */
  lemma {:induction false} EventsAreEndings(deviceId: nat, format: SampleFormat, arrivals: seq<Arrival>)
    ensures var events, ends := Run(Initial(deviceId, format), arrivals).events, Endings(arrivals);
            && |events| == |ends|
            && forall k :: 0 <= k < |ends| ==> TellsOf(events[k], arrivals, ends[k], deviceId)
  {
    if arrivals != [] {
      var n := |arrivals| - 1;
      EventsAreEndings(deviceId, format, arrivals[..n]);
      LastTold(deviceId, format, arrivals);
      var events, ends := Run(Initial(deviceId, format), arrivals).events, Endings(arrivals);
      var before := Run(Initial(deviceId, format), arrivals[..n]).events;
      EndingsAreAll(arrivals[..n]);
      forall k | 0 <= k < |before| ensures TellsOf(events[k], arrivals, ends[k], deviceId) {
        assert ends[k] == Endings(arrivals[..n])[k] && ends[k] in Endings(arrivals[..n]);
        assert events[k] == before[k];
        TellsOfLonger(before[k], arrivals, n, ends[k], deviceId);
      }
    }
  }

  // ------------------------------------------------------------- stopping

  lemma {:induction false} TrackOfEnds(id: Uuid, t: Track, order: seq<Uuid>, now: int)
    ensures TrackRun(id, t, Packets(Ends(order, now)))
         == if id in order && t.live.Some? then Track(t.format, None, Some(t.live.value.file), t.ended + 1) else t
  {
    if order != [] {
      var front, last := order[..|order| - 1], order[|order| - 1];
      TrackOfEnds(id, t, front, now);
      assert Ends(order, now)[..|front|] == Ends(front, now);
      TrackRunSnoc(id, t, Packets(Ends(front, now)), WavEnd(last));
      assert id in order <==> id in front || id == last;
    }
  }

  /** Ends only add events, and these end at that time. */
  lemma {:induction false} EndsTellTheTime(h: Handler, order: seq<Uuid>, now: int)
    ensures var events := Run(h, Ends(order, now)).events;
            && h.events <= events
            && forall k :: |h.events| <= k < |events| ==> events[k].endedAt == now
  {
    if order != [] {
      var front, last := order[..|order| - 1], order[|order| - 1];
      EndsTellTheTime(h, front, now);
      assert order == front + [last];
      OneMoreEnd(h, front, last, now);
    }
  }

  lemma {:induction false} EndsConserve(h: Handler, order: seq<Uuid>, now: int)
    ensures var h' := Run(h, Ends(order, now)); |h'.events| + |h'.live| == |h.events| + |h.live|
  {
    if order != [] {
      var front, last := order[..|order| - 1], order[|order| - 1];
      EndsConserve(h, front, now);
      assert order == front + [last];
      OneMoreEnd(h, front, last, now);
    }
  }

  /** Stopping leaves no writer and sends exactly one event for each that was live, whose file
      then holds what the writer had written. */
  lemma StoppingEmpties(h: Handler, order: seq<Uuid>, now: int)
    requires Enumerates(order, h.live.Keys)
    ensures var h' := Run(h, Ends(order, now));
            && h'.live == map[]
            && |h'.events| == |h.events| + |h.live|
            && (forall k :: |h.events| <= k < |h'.events| ==> h'.events[k].endedAt == now)
            && forall id :: EventsOf(h'.events, id) == EventsOf(h.events, id) + if id in h.live then 1 else 0
    ensures forall id :: id in h.live ==>
              Project(Run(h, Ends(order, now)), id).disk == Some(h.live[id].file)
  {
    var h' := Run(h, Ends(order, now));
    forall id
      ensures id !in h'.live
      ensures EventsOf(h'.events, id) == EventsOf(h.events, id) + if id in h.live then 1 else 0
      ensures id in h.live ==> Project(h', id).disk == Some(h.live[id].file)
    {
      RunProjects(h, Ends(order, now), id);
      TrackOfEnds(id, Project(h, id), order, now);
    }
    EndsConserve(h, order, now);
    EndsTellTheTime(h, order, now);
  }
}
