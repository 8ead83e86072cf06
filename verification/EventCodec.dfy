/** The wire format of events: what the device writes into its buffer and what the server reads. */
module EventCodec {
  import opened Options
  import opened Vectors

  type byte = n: int | 0 <= n < 256

  datatype Result<T> = Ok(value: T) | Err(error: Error)

  datatype Error = UnexpectedEof | InvalidTag | InvalidUtf8

  datatype Payload =
    | Sound(wavFile: seq<byte>)
    | Position(from: Vec, to: Vec)
    | Luminosity(low: int, high: int)   // its `from` and `to`

  datatype Event = Event(
    secret: int,
    startedAtSecs: int, startedAtNsecs: int,
    endedAtSecs: int, endedAtNsecs: int,
    payload: Payload)

  predicate IsI32(n: int) { -0x8000_0000 <= n < 0x8000_0000 }
  predicate IsU32(n: int) { 0 <= n < 0x1_0000_0000 }
  predicate IsI64(n: int) { -0x8000_0000_0000_0000 <= n < 0x8000_0000_0000_0000 }
  predicate IsU64(n: int) { 0 <= n < 0x1_0000_0000_0000_0000 }
  predicate IsTriple(v: Vec) { IsI32(v.x) && IsI32(v.y) && IsI32(v.z) }

  /** The values the server's types can hold.  `utf8` is the library's test for valid text. */
  predicate Typed(e: Event, utf8: seq<byte> -> bool) {
    && IsU64(e.secret)
    && IsI64(e.startedAtSecs) && IsU32(e.startedAtNsecs)
    && IsI64(e.endedAtSecs) && IsU32(e.endedAtNsecs)
    && match e.payload
       case Sound(wavFile) => utf8(wavFile) && IsU64(|wavFile|)
       case Position(from, to) => IsTriple(from) && IsTriple(to)
       case Luminosity(low, high) => IsI32(low) && IsI32(high)
  }

  // ------------------------------------------------------------- little endian

  function Power256(k: nat): (p: int)
    ensures 0 < p
  {
    if k == 0 then 1 else 0x100 * Power256(k - 1)
  }

  /** The k least significant bytes of n, least significant first; negative numbers in two's
      complement. */
  function LE(n: int, k: nat): (bytes: seq<byte>)
    ensures |bytes| == k
  {
    seq(k, i requires 0 <= i < k => n / Power256(i) % 0x100)
  }

  function FromLE(b: seq<byte>): (n: int)
    ensures 0 <= n
  {
    if b == [] then 0 else var low: int := b[0]; low + 0x100 * FromLE(b[1..])
  }

  lemma MultipleIsFar(d: int, k: int)
    requires 0 < d && k != 0
    ensures d * k >= d || d * k <= -d
  {
    if k > 0 {
      assert d * (k - 1) >= 0;
    } else {
      assert d * (-k - 1) >= 0;
    }
  }

  lemma DivisionIsUnique(n: int, d: int, q: int, r: int)
    requires 0 < d && n == d * q + r && 0 <= r < d
    ensures n / d == q && n % d == r
  {
    var k := n / d - q;
    assert d * k == r - n % d;
    if k != 0 {
      MultipleIsFar(d, k);
    }
  }

  /** Dividing by 256 first splits quotient and remainder of a division by 256 p. */
  lemma SplitDivision(n: int, p: int)
    requires 0 < p
    ensures n / (0x100 * p) == n / 0x100 / p
    ensures n % (0x100 * p) == n % 0x100 + 0x100 * (n / 0x100 % p)
  {
    var q := n / 0x100;
    assert q == p * (q / p) + q % p;
    assert n == (0x100 * p) * (q / p) + (n % 0x100 + 0x100 * (q % p));
    DivisionIsUnique(n, 0x100 * p, q / p, n % 0x100 + 0x100 * (q % p));
  }

  lemma FirstByte(n: int, k: nat)
    requires 0 < k
    ensures LE(n, k) == [n % 0x100] + LE(n / 0x100, k - 1)
  {
    var rest := LE(n / 0x100, k - 1);
    assert Power256(0) == 1;
    forall i | 1 <= i < k ensures LE(n, k)[i] == rest[i - 1] {
      assert Power256(i) == 0x100 * Power256(i - 1);
      SplitDivision(n, Power256(i - 1));
    }
  }

  lemma {:induction false} FromLEOfLE(n: int, k: nat)
    ensures FromLE(LE(n, k)) == n % Power256(k)
    decreases k
  {
    if k != 0 {
      FirstByte(n, k);
      assert LE(n, k)[1..] == LE(n / 0x100, k - 1);
      FromLEOfLE(n / 0x100, k - 1);
      SplitDivision(n, Power256(k - 1));
    }
  }

  /** Reading is the inverse of writing in both directions. */
  lemma {:induction false} LEOfFromLE(b: seq<byte>)
    ensures LE(FromLE(b), |b|) == b
  {
    if b != [] {
      var n, rest := FromLE(b), FromLE(b[1..]);
      FirstByte(n, |b|);
      assert n % 0x100 == b[0] && n / 0x100 == rest;
      LEOfFromLE(b[1..]);
    }
  }

  function U32(b: seq<byte>): int
    requires |b| == 4
  {
    FromLE(b)
  }

  function I32(b: seq<byte>): int
    requires |b| == 4
  {
    if FromLE(b) < 0x8000_0000 then FromLE(b) else FromLE(b) - 0x1_0000_0000
  }

  function U64(b: seq<byte>): int
    requires |b| == 8
  {
    FromLE(b)
  }

  function I64(b: seq<byte>): int
    requires |b| == 8
  {
    if FromLE(b) < 0x8000_0000_0000_0000 then FromLE(b) else FromLE(b) - 0x1_0000_0000_0000_0000
  }

  lemma FourBytes(n: int)
    ensures FromLE(LE(n, 4)) == n % 0x1_0000_0000
    ensures IsU32(n) ==> U32(LE(n, 4)) == n
    ensures IsI32(n) ==> I32(LE(n, 4)) == n
  {
    FromLEOfLE(n, 4);
    assert Power256(4) == 0x1_0000_0000;
  }

  lemma EightBytes(n: int)
    ensures FromLE(LE(n, 8)) == n % 0x1_0000_0000_0000_0000
    ensures IsU64(n) ==> U64(LE(n, 8)) == n
    ensures IsI64(n) ==> I64(LE(n, 8)) == n
  {
    FromLEOfLE(n, 8);
    assert Power256(8) == 0x1_0000_0000_0000_0000;
  }

  lemma LowPowers()
    ensures Power256(0) == 1 && Power256(1) == 0x100 && Power256(2) == 0x1_0000 && Power256(3) == 0x100_0000
  {
  }

  /** Eight bytes are the low four followed by the high four. */
  lemma EightBytesAreHalves(n: int)
    ensures LE(n, 8) == LE(n, 4) + LE(n / 0x1_0000_0000, 4)
  {
    var n1 := n / 0x100;
    var n2 := n1 / 0x100;
    var n3 := n2 / 0x100;
    FirstByte(n, 8);
    FirstByte(n1, 7);
    FirstByte(n2, 6);
    FirstByte(n3, 5);
    FirstByte(n, 4);
    FirstByte(n1, 3);
    FirstByte(n2, 2);
    FirstByte(n3, 1);
    assert n3 / 0x100 == n / 0x1_0000_0000;
  }

  /** Only the value modulo the word matters. */
  lemma {:induction false} OnlyTheWordCounts(n: int, k: nat)
    ensures LE(n % Power256(k), k) == LE(n, k)
    decreases k
  {
    if k != 0 {
      var p := Power256(k - 1);
      SplitDivision(n, p);
      var m := n % (0x100 * p);
      assert m % 0x100 == n % 0x100 && m / 0x100 == n / 0x100 % p;
      OnlyTheWordCounts(n / 0x100, k - 1);
      FirstByte(n, k);
      FirstByte(m, k);
    }
  }

  // ------------------------------------------------------------- the server's format

  function EncodeTriple(v: Vec): (bytes: seq<byte>)
    ensures |bytes| == 12
  {
    LE(v.x, 4) + LE(v.y, 4) + LE(v.z, 4)
  }

  function Tag(p: Payload): int {
    match p case Sound(_) => 0 case Position(_, _) => 1 case Luminosity(_, _) => 2
  }

  function EncodePayload(p: Payload): seq<byte> {
    match p
    case Sound(wavFile) => LE(|wavFile|, 8) + wavFile
    case Position(from, to) => EncodeTriple(from) + EncodeTriple(to)
    case Luminosity(low, high) => LE(low, 4) + LE(high, 4)
  }

  function EncodeHeader(e: Event): (bytes: seq<byte>)
    ensures |bytes| == 36
  {
    LE(e.secret, 8) + LE(e.startedAtSecs, 8) + LE(e.startedAtNsecs, 4)
    + LE(e.endedAtSecs, 8) + LE(e.endedAtNsecs, 4) + LE(Tag(e.payload), 4)
  }

  function Encode(e: Event): seq<byte> {
    EncodeHeader(e) + EncodePayload(e.payload)
  }

  function DecodeTriple(b: seq<byte>): Vec
    requires |b| == 12
  {
    Vec(I32(b[..4]), I32(b[4..8]), I32(b[8..]))
  }

  /** The payload that follows the tag; bytes behind it are not looked at. */
  function DecodePayload(tag: int, b: seq<byte>, utf8: seq<byte> -> bool): Result<Payload> {
    if tag == 0 then
      if |b| < 8 || |b| - 8 < U64(b[..8]) then Err(UnexpectedEof)
      else if utf8(b[8..8 + U64(b[..8])]) then Ok(Sound(b[8..8 + U64(b[..8])]))
      else Err(InvalidUtf8)
    else if tag == 1 then
      if |b| < 24 then Err(UnexpectedEof) else Ok(Position(DecodeTriple(b[..12]), DecodeTriple(b[12..24])))
    else if tag == 2 then
      if |b| < 8 then Err(UnexpectedEof) else Ok(Luminosity(I32(b[..4]), I32(b[4..8])))
    else Err(InvalidTag)
  }

  function Decode(b: seq<byte>, utf8: seq<byte> -> bool): Result<Event> {
    if |b| < 36 then Err(UnexpectedEof)
    else
      match DecodePayload(U32(b[32..36]), b[36..], utf8)
      case Err(error) => Err(error)
      case Ok(payload) =>
        Ok(Event(U64(b[..8]), I64(b[8..16]), U32(b[16..20]), I64(b[20..28]), U32(b[28..32]), payload))
  }

  // ------------------------------------------------------------- round trips

  lemma TripleRoundTrip(v: Vec)
    requires IsTriple(v)
    ensures DecodeTriple(EncodeTriple(v)) == v
  {
    var b := EncodeTriple(v);
    assert b[..4] == LE(v.x, 4) && b[4..8] == LE(v.y, 4) && b[8..] == LE(v.z, 4);
    FourBytes(v.x);
    FourBytes(v.y);
    FourBytes(v.z);
  }

  lemma PayloadRoundTrip(e: Event, rest: seq<byte>, utf8: seq<byte> -> bool)
    requires Typed(e, utf8)
    ensures DecodePayload(Tag(e.payload), EncodePayload(e.payload) + rest, utf8) == Ok(e.payload)
  {
    var b := EncodePayload(e.payload) + rest;
    match e.payload
    case Sound(wavFile) =>
      EightBytes(|wavFile|);
      assert b[..8] == LE(|wavFile|, 8);
      assert b[8..8 + |wavFile|] == wavFile;
    case Position(from, to) =>
      assert b[..12] == EncodeTriple(from) && b[12..24] == EncodeTriple(to);
      TripleRoundTrip(from);
      TripleRoundTrip(to);
    case Luminosity(low, high) =>
      assert b[..4] == LE(low, 4) && b[4..8] == LE(high, 4);
      FourBytes(low);
      FourBytes(high);
  }

  lemma SixFields(f0: seq<byte>, f1: seq<byte>, f2: seq<byte>, f3: seq<byte>, f4: seq<byte>, f5: seq<byte>, rest: seq<byte>)
    requires |f0| == 8 && |f1| == 8 && |f2| == 4 && |f3| == 8 && |f4| == 4 && |f5| == 4
    ensures var b := f0 + f1 + f2 + f3 + f4 + f5 + rest;
            && b[..8] == f0 && b[8..16] == f1 && b[16..20] == f2
            && b[20..28] == f3 && b[28..32] == f4 && b[32..36] == f5 && b[36..] == rest
  {
  }

  lemma HeaderFields(e: Event, rest: seq<byte>)
    ensures var b := EncodeHeader(e) + rest;
            && b[..8] == LE(e.secret, 8)
            && b[8..16] == LE(e.startedAtSecs, 8)
            && b[16..20] == LE(e.startedAtNsecs, 4)
            && b[20..28] == LE(e.endedAtSecs, 8)
            && b[28..32] == LE(e.endedAtNsecs, 4)
            && b[32..36] == LE(Tag(e.payload), 4)
            && b[36..] == rest
  {
    SixFields(LE(e.secret, 8), LE(e.startedAtSecs, 8), LE(e.startedAtNsecs, 4),
              LE(e.endedAtSecs, 8), LE(e.endedAtNsecs, 4), LE(Tag(e.payload), 4), rest);
  }

  /** All three kinds survive the wire, whatever follows them in the same read. */
  lemma {:induction false} RoundTrip(e: Event, rest: seq<byte>, utf8: seq<byte> -> bool)
    requires Typed(e, utf8)
    ensures Decode(Encode(e) + rest, utf8) == Ok(e)
  {
    var tail := EncodePayload(e.payload) + rest;
    assert Encode(e) + rest == EncodeHeader(e) + tail;
    HeaderFields(e, tail);
    EightBytes(e.secret);
    EightBytes(e.startedAtSecs);
    FourBytes(e.startedAtNsecs);
    EightBytes(e.endedAtSecs);
    FourBytes(e.endedAtNsecs);
    FourBytes(Tag(e.payload));
    PayloadRoundTrip(e, rest, utf8);
  }

  /** No strict prefix of a frame decodes. */
  lemma PrefixFails(e: Event, n: nat, utf8: seq<byte> -> bool)
    requires Typed(e, utf8) && n < |Encode(e)|
    ensures Decode(Encode(e)[..n], utf8) == Err(UnexpectedEof)
  {
    if 36 <= n {
      var b, part := Encode(e)[..n], EncodePayload(e.payload)[..n - 36];
      assert b == EncodeHeader(e) + part;
      HeaderFields(e, part);
      FourBytes(Tag(e.payload));
      if e.payload.Sound? && 8 <= |part| {
        assert part[..8] == LE(|e.payload.wavFile|, 8);
        EightBytes(|e.payload.wavFile|);
      }
    }
  }

  // ------------------------------------------------------------- what decodes at all

  lemma {:induction false} FromLEBound(b: seq<byte>)
    ensures FromLE(b) < Power256(|b|)
  {
    if b != [] {
      FromLEBound(b[1..]);
    }
  }

  lemma FourBytesBack(b: seq<byte>)
    requires |b| == 4
    ensures IsU32(U32(b)) && LE(U32(b), 4) == b
    ensures IsI32(I32(b)) && LE(I32(b), 4) == b
  {
    LowPowers();
    assert Power256(4) == 0x1_0000_0000;
    FromLEBound(b);
    LEOfFromLE(b);
    OnlyTheWordCounts(I32(b), 4);
    assert I32(b) % 0x1_0000_0000 == FromLE(b);
  }

  lemma EightBytesBack(b: seq<byte>)
    requires |b| == 8
    ensures IsU64(U64(b)) && LE(U64(b), 8) == b
    ensures IsI64(I64(b)) && LE(I64(b), 8) == b
  {
    assert Power256(8) == 0x1_0000_0000_0000_0000;
    FromLEBound(b);
    LEOfFromLE(b);
    OnlyTheWordCounts(I64(b), 8);
    assert I64(b) % 0x1_0000_0000_0000_0000 == FromLE(b);
  }

  lemma TripleBack(b: seq<byte>)
    requires |b| == 12
    ensures IsTriple(DecodeTriple(b)) && EncodeTriple(DecodeTriple(b)) == b
  {
    FourBytesBack(b[..4]);
    FourBytesBack(b[4..8]);
    FourBytesBack(b[8..]);
    assert b == b[..4] + b[4..8] + b[8..];
  }

  lemma PayloadBack(tag: int, b: seq<byte>, utf8: seq<byte> -> bool)
    requires DecodePayload(tag, b, utf8).Ok?
    ensures var p := DecodePayload(tag, b, utf8).value;
            && Tag(p) == tag && EncodePayload(p) <= b
            && match p
               case Sound(wavFile) => utf8(wavFile) && IsU64(|wavFile|)
               case Position(from, to) => IsTriple(from) && IsTriple(to)
               case Luminosity(low, high) => IsI32(low) && IsI32(high)
  {
    if tag == 0 {
      EightBytesBack(b[..8]);
      var n := U64(b[..8]);
      assert b[..8] + b[8..8 + n] == b[..8 + n];
    } else if tag == 1 {
      TripleBack(b[..12]);
      TripleBack(b[12..24]);
      assert b[..12] + b[12..24] == b[..24];
    } else {
      FourBytesBack(b[..4]);
      FourBytesBack(b[4..8]);
      assert b[..4] + b[4..8] == b[..8];
    }
  }

  lemma HeaderBack(b: seq<byte>)
    requires 36 <= |b|
    ensures b[..8] + b[8..16] + b[16..20] + b[20..28] + b[28..32] + b[32..36] == b[..36]
  {
  }

  lemma JoinPrefix(b: seq<byte>, n: nat, rest: seq<byte>)
    requires n <= |b| && rest <= b[n..]
    ensures b[..n] + rest <= b
  {
  }

  /** Whatever decodes begins with a frame, and is read as that frame's event. */
  lemma {:induction false} DecodedIsFrame(b: seq<byte>, utf8: seq<byte> -> bool)
    requires Decode(b, utf8).Ok?
    ensures Typed(Decode(b, utf8).value, utf8) && Encode(Decode(b, utf8).value) <= b
  {
    var e := Decode(b, utf8).value;
    EightBytesBack(b[..8]);
    EightBytesBack(b[8..16]);
    FourBytesBack(b[16..20]);
    EightBytesBack(b[20..28]);
    FourBytesBack(b[28..32]);
    FourBytesBack(b[32..36]);
    PayloadBack(U32(b[32..36]), b[36..], utf8);
    HeaderBack(b);
    assert EncodeHeader(e) == b[..36];
    JoinPrefix(b, 36, EncodePayload(e.payload));
  }

  /** A sequence of bytes decodes as an event if and only if the event's frame is its beginning. */
  lemma {:induction false} DecodesExactlyFrames(b: seq<byte>, e: Event, utf8: seq<byte> -> bool)
    ensures Decode(b, utf8) == Ok(e) <==> Typed(e, utf8) && Encode(e) <= b
  {
    if Decode(b, utf8) == Ok(e) {
      DecodedIsFrame(b, utf8);
    }
    if Typed(e, utf8) && Encode(e) <= b {
      assert b == Encode(e) + b[|Encode(e)|..];
      RoundTrip(e, b[|Encode(e)|..], utf8);
    }
  }

  // ------------------------------------------------------------- fixed layouts

  lemma FourOf(n: int, b0: byte, b1: byte, b2: byte, b3: byte)
    requires FromLE([b0, b1, b2, b3]) == n
    ensures LE(n, 4) == [b0, b1, b2, b3]
  {
    LEOfFromLE([b0, b1, b2, b3]);
  }

  /** A small number fills only the low half of eight bytes. */
  lemma EightOf(n: int, low: seq<byte>)
    requires LE(n, 4) == low && 0 <= n < 0x1_0000_0000
    ensures LE(n, 8) == low + [0, 0, 0, 0]
  {
    EightBytesAreHalves(n);
    ReadFour(0, 0, 0, 0);
    FourOf(0, 0, 0, 0, 0);
  }

  lemma ReadFour(b0: byte, b1: byte, b2: byte, b3: byte)
    ensures var low: int, b: int, c: int, d: int := b0, b1, b2, b3;
            FromLE([b0, b1, b2, b3]) == low + 0x100 * b + 0x1_0000 * c + 0x100_0000 * d
  {
    assert [b0, b1, b2, b3][1..] == [b1, b2, b3];
    assert [b1, b2, b3][1..] == [b2, b3];
    assert [b2, b3][1..] == [b3];
    assert [b3][1..] == [];
    assert FromLE([b3]) == b3 as int;
    assert FromLE([b2, b3]) == b2 as int + 0x100 * FromLE([b3]);
    assert FromLE([b1, b2, b3]) == b1 as int + 0x100 * FromLE([b2, b3]);
  }

  lemma Four(n: int, b0: byte, b1: byte, b2: byte, b3: byte)
    requires var low: int, b: int, c: int, d: int := b0, b1, b2, b3;
             n == low + 0x100 * b + 0x1_0000 * c + 0x100_0000 * d
    ensures LE(n, 4) == [b0, b1, b2, b3]
    ensures LE(n, 8) == [b0, b1, b2, b3] + [0, 0, 0, 0]
  {
    ReadFour(b0, b1, b2, b3);
    FourOf(n, b0, b1, b2, b3);
    EightOf(n, [b0, b1, b2, b3]);
  }

  /** The layout of the event test vectors, byte by byte: the header they share up to its tag. */
  lemma HeaderLayout(payload: Payload)
    ensures EncodeHeader(Event(12345678, 1608119495, 142000000, 1608123495, 532000000, payload)) ==
            ([78, 97, 188, 0] + [0, 0, 0, 0]) +
            ([199, 244, 217, 95] + [0, 0, 0, 0]) +
            [128, 191, 118, 8] +
            ([103, 4, 218, 95] + [0, 0, 0, 0]) +
            [0, 173, 181, 31] +
            [match payload case Sound(_) => 0 case Position(_, _) => 1 case Luminosity(_, _) => 2, 0, 0, 0]
  {
    Four(12345678, 78, 97, 188, 0);
    Four(1608119495, 199, 244, 217, 95);
    Four(142000000, 128, 191, 118, 8);
    Four(1608123495, 103, 4, 218, 95);
    Four(532000000, 0, 173, 181, 31);
    Four(Tag(payload), Tag(payload), 0, 0, 0);
  }

  /** What follows it in each of them. */
  lemma PositionLayout()
    ensures EncodePayload(Position(Vec(0, 3, 12), Vec(400, 600, 11))) ==
            ([0, 0, 0, 0] + [3, 0, 0, 0] + [12, 0, 0, 0]) + ([144, 1, 0, 0] + [88, 2, 0, 0] + [11, 0, 0, 0])
  {
    Four(0, 0, 0, 0, 0);
    Four(3, 3, 0, 0, 0);
    Four(12, 12, 0, 0, 0);
    Four(400, 144, 1, 0, 0);
    Four(600, 88, 2, 0, 0);
    Four(11, 11, 0, 0, 0);
  }

  lemma LuminosityLayout()
    ensures EncodePayload(Luminosity(10, 800)) == [10, 0, 0, 0] + [32, 3, 0, 0]
  {
    Four(10, 10, 0, 0, 0);
    Four(800, 32, 3, 0, 0);
  }

  lemma SoundLayout(text: seq<byte>)
    requires |text| == 40
    ensures EncodePayload(Sound(text)) == ([40, 0, 0, 0] + [0, 0, 0, 0]) + text
  {
    Four(40, 40, 0, 0, 0);
  }

  // ------------------------------------------------------------- the server's codec

  class Buffer {
    var data: seq<byte>

    constructor (data: seq<byte>)
      ensures this.data == data
    {
      this.data := data;
    }
  }

  /** One event per read: the whole buffer is dropped whether or not it decodes, and with it any
      second frame that came in the same read. */
  method DecodeBuffer(buf: Buffer, utf8: seq<byte> -> bool) returns (r: Result<Option<Event>>)
    modifies buf
    ensures buf.data == []
    ensures old(buf.data) == [] ==> r == Ok(None)
    ensures old(buf.data) != [] ==>
              r == match Decode(old(buf.data), utf8) case Ok(e) => Ok(Some(e)) case Err(error) => Err(error)
  {
    if buf.data != [] {
      r := match Decode(buf.data, utf8) case Ok(e) => Ok(Some(e)) case Err(error) => Err(error);
      buf.data := [];
    } else {
      r := Ok(None);
    }
  }

  method EncodeInto(e: Event, buf: Buffer)
    modifies buf
    ensures buf.data == old(buf.data) + Encode(e)
  {
    buf.data := buf.data + EncodeHeader(e);
    buf.data := buf.data + EncodePayload(e.payload);
    assert old(buf.data) + EncodeHeader(e) + EncodePayload(e.payload) == old(buf.data) + Encode(e);
  }

  // ------------------------------------------------------------- the device's encoder

  datatype BugEvent = PositionBug(from: Vec, to: Vec) | LuminosityBug(low: int, high: int)

  /** Milliseconds since the device started. */
  datatype TimeRange = TimeRange(startedAt: int, endedAt: int)

  /** What the device's C types can hold. */
  predicate BugTyped(secret: int, kind: BugEvent, tr: TimeRange, ntpSecs: int) {
    && IsU64(secret) && IsU64(tr.startedAt) && IsU64(tr.endedAt) && IsI32(ntpSecs)
    && match kind
       case PositionBug(from, to) => IsTriple(from) && IsTriple(to)
       case LuminosityBug(low, high) => IsI32(low) && IsI32(high)
  }

  function PayloadOf(kind: BugEvent): Payload {
    match kind
    case PositionBug(from, to) => Position(from, to)
    case LuminosityBug(low, high) => Luminosity(low, high)
  }

  /** The event the device means to send. */
  function Meant(secret: int, kind: BugEvent, tr: TimeRange, ntpSecs: int): Event {
    Event(secret,
          ntpSecs + tr.startedAt / 1000, tr.startedAt % 1000 * 1000000,
          ntpSecs + tr.endedAt / 1000, tr.endedAt % 1000 * 1000000,
          PayloadOf(kind))
  }

  /** From the bytes the server reads this secret, the payload of this kind, and the sums of clock offset
      and milliseconds, whatever it takes for text. */
  ghost predicate ReadsAs(bytes: seq<byte>, secret: int, kind: BugEvent, tr: TimeRange, ntpSecs: int) {
    forall utf8: seq<byte> -> bool ::
      var r := Decode(bytes, utf8);
      && r.Ok? && r.value.secret == secret
      && r.value.payload == (match kind
                             case PositionBug(from, to) => Payload.Position(from, to)
                             case LuminosityBug(low, high) => Payload.Luminosity(low, high))
      && r.value.startedAtSecs * 1000 + r.value.startedAtNsecs / 1000000 == ntpSecs * 1000 + tr.startedAt
      && r.value.endedAtSecs * 1000 + r.value.endedAtNsecs / 1000000 == ntpSecs * 1000 + tr.endedAt
      && r.value.startedAtNsecs < 1000000000 && r.value.startedAtNsecs % 1000000 == 0
      && r.value.endedAtNsecs < 1000000000 && r.value.endedAtNsecs % 1000000 == 0
  }

  lemma MeantReads(secret: int, kind: BugEvent, tr: TimeRange, ntpSecs: int, rest: seq<byte>)
    requires BugTyped(secret, kind, tr, ntpSecs)
    ensures ReadsAs(Encode(Meant(secret, kind, tr, ntpSecs)) + rest, secret, kind, tr, ntpSecs)
  {
    var e := Meant(secret, kind, tr, ntpSecs);
    forall utf8: seq<byte> -> bool ensures Decode(Encode(e) + rest, utf8) == Ok(e) {
      MeantIsTyped(secret, kind, tr, ntpSecs, utf8);
      RoundTrip(e, rest, utf8);
    }
  }

  /** The device's frames of the events in the server's test vectors are these vectors. */
  lemma DeviceVectors()
    ensures var tr := TimeRange(142, 4000532);
            var stamps := ([78, 97, 188, 0] + [0, 0, 0, 0]) + ([199, 244, 217, 95] + [0, 0, 0, 0]) + [128, 191, 118, 8]
                          + ([103, 4, 218, 95] + [0, 0, 0, 0]) + [0, 173, 181, 31];
            && Encode(Meant(12345678, PositionBug(Vec(0, 3, 12), Vec(400, 600, 11)), tr, 1608119495)) ==
               (stamps + [1, 0, 0, 0]) +
               (([0, 0, 0, 0] + [3, 0, 0, 0] + [12, 0, 0, 0]) + ([144, 1, 0, 0] + [88, 2, 0, 0] + [11, 0, 0, 0]))
            && Encode(Meant(12345678, LuminosityBug(10, 800), tr, 1608119495)) ==
               (stamps + [2, 0, 0, 0]) + ([10, 0, 0, 0] + [32, 3, 0, 0])
  {
    HeaderLayout(Position(Vec(0, 3, 12), Vec(400, 600, 11)));
    HeaderLayout(Luminosity(10, 800));
    PositionLayout();
    LuminosityLayout();
  }

  /** The buffer with `bytes` written at `offset`. */
  function Overwrite(buf: seq<byte>, offset: nat, bytes: seq<byte>): (after: seq<byte>)
    requires offset + |bytes| <= |buf|
    ensures |after| == |buf|
  {
    buf[..offset] + bytes + buf[offset + |bytes|..]
  }

  lemma OverwriteNext(buf: seq<byte>, offset: nat, first: seq<byte>, second: seq<byte>)
    requires offset + |first| + |second| <= |buf|
    ensures Overwrite(Overwrite(buf, offset, first), offset + |first|, second)
         == Overwrite(buf, offset, first + second)
  {
  }

  lemma OverwriteThree(buf: seq<byte>, a: seq<byte>, b: seq<byte>, c: seq<byte>)
    requires |a| + |b| + |c| <= |buf|
    ensures Overwrite(Overwrite(Overwrite(buf, 0, a), |a|, b), |a| + |b|, c) == Overwrite(buf, 0, a + b + c)
  {
    OverwriteNext(buf, 0, a, b);
    OverwriteNext(buf, 0, a + b, c);
  }

  /** Four bytes in place, the most significant first. */
  method EncodeLittleEndian4(buf: array<byte>, offset: nat, data: int) returns (next: nat)
    requires offset + 4 <= buf.Length
    modifies buf
    ensures next == offset + 4
    ensures buf[..] == Overwrite(old(buf[..]), offset, LE(data, 4))
  {
    LowPowers();
    buf[offset + 3] := data / 0x100_0000 % 0x100;
    buf[offset + 2] := data / 0x1_0000 % 0x100;
    buf[offset + 1] := data / 0x100 % 0x100;
    buf[offset] := data % 0x100;
    next := offset + 4;
  }

  /** A 64-bit value is written as its two halves. */
  method EncodeLittleEndian8(buf: array<byte>, offset: nat, data: int) returns (next: nat)
    requires offset + 8 <= buf.Length
    modifies buf
    ensures next == offset + 8
    ensures buf[..] == Overwrite(old(buf[..]), offset, LE(data, 8))
  {
    EightBytesAreHalves(data);
    OverwriteNext(buf[..], offset, LE(data, 4), LE(data / 0x1_0000_0000, 4));
    next := EncodeLittleEndian4(buf, offset, data);
    next := EncodeLittleEndian4(buf, next, data / 0x1_0000_0000);
  }

  method EncodeTripleAt(buf: array<byte>, offset: nat, v: Vec) returns (next: nat)
    requires offset + 12 <= buf.Length
    modifies buf
    ensures next == offset + 12
    ensures buf[..] == Overwrite(old(buf[..]), offset, EncodeTriple(v))
  {
    OverwriteNext(buf[..], offset, LE(v.x, 4), LE(v.y, 4));
    OverwriteNext(buf[..], offset, LE(v.x, 4) + LE(v.y, 4), LE(v.z, 4));
    next := EncodeLittleEndian4(buf, offset, v.x);
    next := EncodeLittleEndian4(buf, next, v.y);
    next := EncodeLittleEndian4(buf, next, v.z);
  }

  /** Seconds are added in 64 unsigned bits. */
  function Secs(ntpSecs: int, millis: int): int {
    (ntpSecs + millis / 1000) % 0x1_0000_0000_0000_0000
  }

  lemma SecsOnTheWire(ntpSecs: int, millis: int)
    ensures LE(Secs(ntpSecs, millis), 8) == LE(ntpSecs + millis / 1000, 8)
  {
    assert Power256(8) == 0x1_0000_0000_0000_0000;
    OnlyTheWordCounts(ntpSecs + millis / 1000, 8);
  }

  /** One time: its seconds and its nanoseconds. */
  method EncodeTime(buf: array<byte>, offset: nat, millis: int, ntpSecs: int) returns (next: nat)
    requires offset + 12 <= buf.Length
    modifies buf
    ensures next == offset + 12
    ensures buf[..] == Overwrite(old(buf[..]), offset, LE(ntpSecs + millis / 1000, 8) + LE(millis % 1000 * 1000000, 4))
  {
    SecsOnTheWire(ntpSecs, millis);
    OverwriteNext(buf[..], offset, LE(ntpSecs + millis / 1000, 8), LE(millis % 1000 * 1000000, 4));
    next := EncodeLittleEndian8(buf, offset, Secs(ntpSecs, millis));
    next := EncodeLittleEndian4(buf, next, millis % 1000 * 1000000);
  }

  method EncodeKind(buf: array<byte>, offset: nat, kind: BugEvent) returns (next: nat)
    requires offset + (if kind.PositionBug? then 28 else 12) <= buf.Length
    modifies buf
    ensures var bytes := LE(if kind.PositionBug? then 1 else 2, 4) + EncodePayload(PayloadOf(kind));
            && next == offset + |bytes|
            && buf[..] == Overwrite(old(buf[..]), offset, bytes)
  {
    match kind
    case PositionBug(from, to) =>
      OverwriteNext(buf[..], offset, LE(1, 4), EncodeTriple(from));
      OverwriteNext(buf[..], offset, LE(1, 4) + EncodeTriple(from), EncodeTriple(to));
      assert LE(1, 4) + EncodeTriple(from) + EncodeTriple(to) == LE(1, 4) + EncodePayload(PayloadOf(kind));
      next := EncodeLittleEndian4(buf, offset, 1);
      next := EncodeTripleAt(buf, next, from);
      next := EncodeTripleAt(buf, next, to);
    case LuminosityBug(low, high) =>
      OverwriteNext(buf[..], offset, LE(2, 4), LE(low, 4));
      OverwriteNext(buf[..], offset, LE(2, 4) + LE(low, 4), LE(high, 4));
      assert LE(2, 4) + LE(low, 4) + LE(high, 4) == LE(2, 4) + EncodePayload(PayloadOf(kind));
      next := EncodeLittleEndian4(buf, offset, 2);
      next := EncodeLittleEndian4(buf, next, low);
      next := EncodeLittleEndian4(buf, next, high);
  }

  function Stamps(e: Event): (bytes: seq<byte>)
    ensures |bytes| == 32
  {
    LE(e.secret, 8) + (LE(e.startedAtSecs, 8) + LE(e.startedAtNsecs, 4)) + (LE(e.endedAtSecs, 8) + LE(e.endedAtNsecs, 4))
  }

  function TagAndPayload(e: Event): seq<byte> {
    LE(Tag(e.payload), 4) + EncodePayload(e.payload)
  }

  lemma EncodeInTwoParts(e: Event)
    ensures Encode(e) == Stamps(e) + TagAndPayload(e)
  {
  }

  method EncodeStamps(buf: array<byte>, secret: int, kind: BugEvent, tr: TimeRange, ntpSecs: int) returns (offset: nat)
    requires 32 <= buf.Length
    modifies buf
    ensures offset == 32
    ensures buf[..] == Overwrite(old(buf[..]), 0, Stamps(Meant(secret, kind, tr, ntpSecs)))
  {
    ghost var e := Meant(secret, kind, tr, ntpSecs);
    OverwriteThree(buf[..], LE(secret, 8), LE(e.startedAtSecs, 8) + LE(e.startedAtNsecs, 4),
                   LE(e.endedAtSecs, 8) + LE(e.endedAtNsecs, 4));
    offset := EncodeLittleEndian8(buf, 0, secret);
    offset := EncodeTime(buf, offset, tr.startedAt, ntpSecs);
    offset := EncodeTime(buf, offset, tr.endedAt, ntpSecs);
  }

  /** The device writes byte for byte what the server's own encoder would produce for the event
      it means, and leaves the rest of the buffer alone. */
  method EncodeBug(buf: array<byte>, secret: int, kind: BugEvent, tr: TimeRange, ntpSecs: int) returns (offset: nat)
    requires 60 <= buf.Length
    modifies buf
    ensures offset == |Encode(Meant(secret, kind, tr, ntpSecs))|
    ensures buf[..] == Overwrite(old(buf[..]), 0, Encode(Meant(secret, kind, tr, ntpSecs)))
    ensures BugTyped(secret, kind, tr, ntpSecs) ==> ReadsAs(buf[..], secret, kind, tr, ntpSecs)
  {
    ghost var e := Meant(secret, kind, tr, ntpSecs);
    EncodeInTwoParts(e);
    assert |TagAndPayload(e)| == if kind.PositionBug? then 28 else 12;
    OverwriteNext(buf[..], 0, Stamps(e), TagAndPayload(e));
    offset := EncodeStamps(buf, secret, kind, tr, ntpSecs);
    offset := EncodeKind(buf, offset, kind);
    if BugTyped(secret, kind, tr, ntpSecs) {
      assert buf[..] == Encode(e) + buf[offset..];
      MeantReads(secret, kind, tr, ntpSecs, buf[offset..]);
    }
  }

  /** What the client allocates, fills and hands to its queue. */
  method Frame(secret: int, kind: BugEvent, tr: TimeRange, ntpSecs: int) returns (frame: seq<byte>)
    ensures frame == Encode(Meant(secret, kind, tr, ntpSecs))
    ensures |frame| == if kind.PositionBug? then 60 else 44
    ensures BugTyped(secret, kind, tr, ntpSecs) ==> ReadsAs(frame, secret, kind, tr, ntpSecs)
  {
    var buf := new byte[128];
    var len := EncodeBug(buf, secret, kind, tr, ntpSecs);
    frame := buf[..len];
    if BugTyped(secret, kind, tr, ntpSecs) {
      MeantReads(secret, kind, tr, ntpSecs, []);
      assert frame + [] == frame;
    }
  }

  lemma MeantIsTyped(secret: int, kind: BugEvent, tr: TimeRange, ntpSecs: int, utf8: seq<byte> -> bool)
    requires BugTyped(secret, kind, tr, ntpSecs)
    ensures Typed(Meant(secret, kind, tr, ntpSecs), utf8)
  {
  }

  /** Across the languages: from the device's frame, which is the encoding below by the contract of
      `EncodeBug`, the server reads exactly the secret, the times and the payload that the device was
      to send, with or without anything after it, and nothing from any strict prefix. */
  lemma CrossLanguageRoundTrip(secret: int, kind: BugEvent, tr: TimeRange, ntpSecs: int, utf8: seq<byte> -> bool)
    requires BugTyped(secret, kind, tr, ntpSecs)
    ensures var frame := Encode(Meant(secret, kind, tr, ntpSecs));
            && |frame| == (if kind.PositionBug? then 60 else 44)
            && (forall rest :: ReadsAs(frame + rest, secret, kind, tr, ntpSecs))
            && (forall n: nat :: n < |frame| ==> Decode(frame[..n], utf8) == Err(UnexpectedEof))
  {
    var e := Meant(secret, kind, tr, ntpSecs);
    MeantIsTyped(secret, kind, tr, ntpSecs, utf8);
    forall rest ensures ReadsAs(Encode(e) + rest, secret, kind, tr, ntpSecs) {
      MeantReads(secret, kind, tr, ntpSecs, rest);
    }
    forall n: nat | n < |Encode(e)| ensures Decode(Encode(e)[..n], utf8) == Err(UnexpectedEof) {
      PrefixFails(e, n, utf8);
    }
  }
}
