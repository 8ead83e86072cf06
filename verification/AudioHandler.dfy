/** The server side of one audio client: a writer per identifier, and one event per writer.

    `Step` is the machine.  `Track` is what the machine looks like for a single identifier,
    clocks aside; most properties are proved there and carried over by `RunProjects`.
 */
module AudioHandler {
  import opened AudioTypes
  import opened Options

  datatype SoundEvent = SoundEvent(wavFile: Uuid, startedAt: int, endedAt: int, deviceId: nat)

  datatype Writer = Writer(seqNo: nat, file: seq<Sample>, startedAt: int, deviceId: nat)

  datatype Handler = Handler(
    deviceId: nat,
    format: SampleFormat,           // of the client's samples
    live: map<Uuid, Writer>,
    disk: map<Uuid, seq<Sample>>,   // files whose writer is gone
    events: seq<SoundEvent>)

  /** What arrives, when: a packet, or bytes that do not decode. */
  datatype Arrival = Arrival(packet: Option<Audio>, at: int)

  /** Only a strictly larger sequence number is written, and then the payload up to the first sample
      that does not convert.  The number is taken over if there is no such sample. */
  function WriteChunk(format: SampleFormat, w: Writer, chunk: Chunk): Writer {
    if w.seqNo < chunk.seqNo
    then w.(file := w.file + Convertible(format, chunk.payload),
            seqNo := if AllConvert(format, chunk.payload) then chunk.seqNo else w.seqNo)
    else w
  }

  /** A new writer truncates the file of that name. */
  function Create(h: Handler, id: Uuid, now: int): Handler {
    if id in h.live then h
    else h.(live := h.live[id := Writer(0, [], now, h.deviceId)], disk := h.disk - {id})
  }

  function Finalize(h: Handler, id: Uuid, now: int): Handler
    requires id in h.live
  {
    var w := h.live[id];
    h.(live := h.live - {id},
       disk := h.disk[id := w.file],
       events := h.events + [SoundEvent(id, w.startedAt, now, w.deviceId)])
  }

  function Step(h: Handler, a: Arrival): Handler {
    match a.packet
    case None => h
    case Some(WavChunk(c)) =>
      var h1 := Create(h, c.id, a.at);
      h1.(live := h1.live[c.id := WriteChunk(h.format, h1.live[c.id], c)])
    case Some(WavEnd(id)) => if id in h.live then Finalize(h, id, a.at) else h
    case Some(_) => h
  }

  function Initial(deviceId: nat, format: SampleFormat): Handler {
    Handler(deviceId, format, map[], map[], [])
  }

  function Run(h: Handler, arrivals: seq<Arrival>): Handler {
    if arrivals == [] then h else Step(Run(h, arrivals[..|arrivals| - 1]), arrivals[|arrivals| - 1])
  }

  // ------------------------------------------------------------- the classes

  class AudioWriter {
    const id: Uuid
    const startedAt: int
    const deviceId: nat
    var open: bool
    var file: seq<Sample>
    var seqNo: nat

    function View(): Writer
      reads this
    {
      Writer(seqNo, file, startedAt, deviceId)
    }

    constructor (id: Uuid, now: int, deviceId: nat)
      ensures this.id == id && open
      ensures View() == Writer(0, [], now, deviceId)
    {
      this.id, startedAt, this.deviceId := id, now, deviceId;
      open, file, seqNo := true, [], 0;
    }

    method Write(format: SampleFormat, chunk: Chunk) returns (ok: bool)
      modifies this
      ensures open == old(open)
      ensures ok <==> old(open) && (chunk.seqNo <= old(seqNo) || AllConvert(format, chunk.payload))
      ensures View() == if old(open) then WriteChunk(format, old(View()), chunk) else old(View())
    {
      if !open {
        return false;
      }
      if seqNo < chunk.seqNo {
        for i := 0 to |chunk.payload|
          invariant file == old(file) + chunk.payload[..i] && seqNo == old(seqNo) && open
          invariant AllConvert(format, chunk.payload[..i])
        {
          if !Converts(format, chunk.payload[i]) {
            ConvertibleUpTo(format, chunk.payload, i);
            return false;
          }
          file := file + [chunk.payload[i]];
        }
        assert chunk.payload[..|chunk.payload|] == chunk.payload;
        ConvertsEntirely(format, chunk.payload);
        seqNo := chunk.seqNo;
      }
      return true;
    }

    method FinalizeAsNewEvent(now: int) returns (r: Option<SoundEvent>)
      modifies this`open
      ensures !open
      ensures r == if old(open) then Some(SoundEvent(id, startedAt, now, deviceId)) else None
    {
      r := if open then Some(SoundEvent(id, startedAt, now, deviceId)) else None;
      open := false;
    }
  }

  class Actor {
    const deviceId: nat
    const format: SampleFormat
    var writers: map<Uuid, AudioWriter>
    var disk: map<Uuid, seq<Sample>>
    var events: seq<SoundEvent>       // sent to the event processor
    ghost var repr: set<AudioWriter>  // every writer ever created

    ghost predicate Valid()
      reads this, repr
    {
      forall id :: id in writers ==> writers[id] in repr && writers[id].id == id && writers[id].open
    }

    ghost function View(): Handler
      requires Valid()
      reads this, repr
    {
      Handler(deviceId, format, map id | id in writers :: writers[id].View(), disk, events)
    }

    constructor (deviceId: nat, format: SampleFormat)
      ensures Valid() && repr == {} && writers == map[]
      ensures View() == Initial(deviceId, format)
    {
      this.deviceId, this.format := deviceId, format;
      writers, disk, events, repr := map[], map[], [], {};
    }

    /** The writer of `id`, created and its file truncated if there was none. */
    method WriterFor(id: Uuid, now: int) returns (writer: AudioWriter)
      requires Valid()
      modifies this
      ensures Valid() && old(repr) <= repr && fresh(repr - old(repr))
      ensures id in writers && writers[id] == writer
      ensures View() == Create(old(View()), id, now)
    {
      if id !in writers {
        writer := new AudioWriter(id, now, deviceId);
        writers, repr := writers[id := writer], repr + {writer};
        disk := disk - {id};
        assert View().live == old(View()).live[id := writer.View()];
      } else {
        writer := writers[id];
      }
    }

    method HandleChunk(c: Chunk, now: int)
      requires Valid()
      modifies this, repr
      ensures Valid() && old(repr) <= repr && fresh(repr - old(repr))
      ensures View() == Step(old(View()), Arrival(Some(WavChunk(c)), now))
    {
      var writer := WriterFor(c.id, now);
      ghost var created := View().live;
      var ok := writer.Write(format, c);
      assert View().live == created[c.id := WriteChunk(format, created[c.id], c)];
    }

    method HandleEnd(id: Uuid, now: int)
      requires Valid()
      modifies this, repr
      ensures Valid() && repr == old(repr) && writers == old(writers) - {id}
      ensures View() == Step(old(View()), Arrival(Some(WavEnd(id)), now))
    {
      if id in writers {
        var writer := writers[id];
        writers := writers - {id};
        FinalizeWriter(id, writer, now);
      } else {
        assert writers == writers - {id};
      }
    }

    /** `writer` has just been taken out of the table. */
    method FinalizeWriter(id: Uuid, writer: AudioWriter, now: int)
      requires Valid() && writer !in writers.Values
      modifies this`disk, this`events, writer`open
      ensures Valid() && !writer.open
      ensures View() == if old(writer.open)
                        then old(View()).(
                          disk := old(disk)[id := writer.file],
                          events := old(events) + [SoundEvent(writer.id, writer.startedAt, now, writer.deviceId)])
                        else old(View())
    {
      var newEvent := writer.FinalizeAsNewEvent(now);
      if newEvent.Some? {
        disk := disk[id := writer.file];
        events := events + [newEvent.value];
      }
      assert View().live == old(View()).live;
    }

    method Handle(a: Arrival)
      requires Valid()
      modifies this, repr
      ensures Valid() && old(repr) <= repr && fresh(repr - old(repr))
      ensures View() == Step(old(View()), a)
    {
      match a.packet
      case None =>
      case Some(WavChunk(c)) => HandleChunk(c, a.at);
      case Some(WavEnd(id)) => HandleEnd(id, a.at);
      case Some(_) =>
    }

    /** Drains the table; the order is the table's own.  It amounts to one end packet for every
        live identifier, in that order. */
    method FinalizeAll(now: int) returns (ghost order: seq<Uuid>)
      requires Valid()
      modifies this, repr
      ensures Valid() && repr == old(repr) && writers == map[]
      ensures Enumerates(order, old(writers.Keys))
      ensures View() == Run(old(View()), Ends(order, now))
    {
      order := [];
      assert Run(View(), Ends(order, now)) == View();
      while writers != map[]
        invariant Valid() && repr == old(repr)
        invariant Enumerates(order, old(writers.Keys) - writers.Keys)
        invariant writers.Keys <= old(writers.Keys)
        invariant View() == Run(old(View()), Ends(order, now))
        decreases writers.Keys
      {
        var id :| id in writers;
        OneMoreEnd(old(View()), order, id, now);
        EnumeratesOneMore(order, old(writers.Keys) - writers.Keys, id);
        assert old(writers.Keys) - (writers - {id}).Keys == old(writers.Keys) - writers.Keys + {id};
        order := order + [id];
        HandleEnd(id, now);
      }
    }
  }

  /** `order` lists every element of `ids` once. */
  ghost predicate Enumerates(order: seq<Uuid>, ids: set<Uuid>) {
    && (forall id :: id in order <==> id in ids)
    && (forall i, j :: 0 <= i < j < |order| ==> order[i] != order[j])
  }

  function Ends(order: seq<Uuid>, now: int): (arrivals: seq<Arrival>)
    ensures |arrivals| == |order|
  {
    seq(|order|, i requires 0 <= i < |order| => Arrival(Some(WavEnd(order[i])), now))
  }

  lemma EnumeratesOneMore(order: seq<Uuid>, ids: set<Uuid>, id: Uuid)
    requires Enumerates(order, ids) && id !in ids
    ensures Enumerates(order + [id], ids + {id})
  {
  }

  lemma RunSnoc(h: Handler, arrivals: seq<Arrival>, a: Arrival)
    ensures Run(h, arrivals + [a]) == Step(Run(h, arrivals), a)
  {
    assert (arrivals + [a])[..|arrivals|] == arrivals;
  }

  lemma OneMoreEnd(h: Handler, order: seq<Uuid>, id: Uuid, now: int)
    ensures Run(h, Ends(order + [id], now)) == Step(Run(h, Ends(order, now)), Arrival(Some(WavEnd(id)), now))
  {
    assert Ends(order + [id], now) == Ends(order, now) + [Arrival(Some(WavEnd(id)), now)];
    RunSnoc(h, Ends(order, now), Arrival(Some(WavEnd(id)), now));
  }
}
