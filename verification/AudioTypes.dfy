/** Samples and the packets that travel between the audio client and the server. */
module AudioTypes {

  /** A raw sample as captured.  All three capture formats embed in the reals. */
  type Sample = real

  /** The n-th identifier drawn from the version 4 source of section 4.4 of RFC 4122;
      distinct draws are distinct. */
  type Uuid = nat

  datatype SampleFormat = U16 | I16 | F32

  datatype Spec = Spec(channels: nat, sampleRate: nat, bitsPerSample: nat, sampleFormat: SampleFormat)

  datatype Chunk = Chunk(id: Uuid, seqNo: nat, size: nat, payload: seq<Sample>)

  datatype Audio =
    | Handshake
    | SpecOf(secret: nat, spec: Spec)
    | WavChunk(chunk: Chunk)
    | WavEnd(id: Uuid)

  /** The sample type's default value, repeated. */
  function DefaultSamples(n: nat): (xs: seq<Sample>)
    ensures |xs| == n
  {
    seq(n, _ => 0.0)
  }

  /** A full payload holding `xs` and default samples after it. */
  function Padded(xs: seq<Sample>): (payload: seq<Sample>)
    requires |xs| <= 512
    ensures |payload| == 512
  {
    xs + DefaultSamples(512 - |xs|)
  }

  /** Zeros go behind the samples. */
  lemma PaddingIsZero(xs: seq<Sample>)
    requires |xs| <= 512
    ensures xs <= Padded(xs) && forall i :: |xs| <= i < 512 ==> Padded(xs)[i] == 0.0
  {
  }

  // ------------------------------------------------------------- conversion

  /** Whether the server can store the sample: unsigned samples are stored as signed ones of 16 bits. */
  predicate Converts(format: SampleFormat, x: Sample) {
    format.U16? ==> x <= 32767.0
  }

  predicate AllConvert(format: SampleFormat, xs: seq<Sample>) {
    forall i :: 0 <= i < |xs| ==> Converts(format, xs[i])
  }

  /** The samples before the first that does not convert. */
  function Convertible(format: SampleFormat, xs: seq<Sample>): (prefix: seq<Sample>)
    ensures prefix <= xs && AllConvert(format, prefix)
    ensures prefix == xs || !Converts(format, xs[|prefix|])
  {
    if xs == [] || !Converts(format, xs[0]) then [] else [xs[0]] + Convertible(format, xs[1..])
  }

  lemma {:induction false} ConvertibleUpTo(format: SampleFormat, xs: seq<Sample>, i: nat)
    requires i <= |xs| && AllConvert(format, xs[..i]) && (i < |xs| ==> !Converts(format, xs[i]))
    ensures Convertible(format, xs) == xs[..i]
  {
    if i != 0 {
      assert xs[1..][..i - 1] == xs[..i][1..];
      assert xs[0] == xs[..i][0];
      ConvertibleUpTo(format, xs[1..], i - 1);
    }
  }

  lemma ConvertsEntirely(format: SampleFormat, xs: seq<Sample>)
    ensures AllConvert(format, xs) <==> Convertible(format, xs) == xs
  {
    if AllConvert(format, xs) {
      ConvertibleUpTo(format, xs, |xs|);
    }
  }

  function Concat<T>(xss: seq<seq<T>>): seq<T> {
    if xss == [] then [] else Concat(xss[..|xss| - 1]) + xss[|xss| - 1]
  }
}
