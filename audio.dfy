/**
 * The microphone level of the visualiser (frontend.py): the byte buffer a
 * read returns is padded or cut to one chunk of 16-bit samples, decoded,
 * and reduced to an amplitude in [0, 1] by its root mean square.
 */
module Audio {
  import opened Wrappers

  newtype byte = x: int | 0 <= x < 256

  /** CHUNK: samples per read. */
  const CHUNK: nat := 1024

  /** Bytes per read: paInt16 takes two bytes a sample. */
  const EXPECTED: nat := CHUNK * 2

  /** The RMS that maps to full amplitude. */
  const FULL_SCALE: real := 3000.0

  /** What the read at the top of a frame produced. */
  datatype Read =
    | Got(data: seq<byte>)  // stream.read, first try or after reopening
    | Failed                // both reads raised: the silent fallback

  function Zeros(n: nat): (z: seq<byte>)
    ensures |z| == n && forall i :: 0 <= i < n ==> z[i] == 0
  {
    seq(n, _ => 0)
  }

  /** The bytes a frame works on. */
  function Bytes(r: Read): seq<byte> {
    match r
    case Got(data) => data
    case Failed => Zeros(EXPECTED)
  }

  /** `data.ljust(expected, b'\x00')` when short, `data[:expected]` when long. */
  function Normalize(data: seq<byte>): (r: seq<byte>)
    ensures |r| == EXPECTED
    ensures |data| <= EXPECTED ==> r[..|data|] == data && forall i :: |data| <= i < EXPECTED ==> r[i] == 0
    ensures |data| >= EXPECTED ==> r == data[..EXPECTED]
  {
    if |data| < EXPECTED then data + Zeros(EXPECTED - |data|)
    else if |data| > EXPECTED then data[..EXPECTED]
    else data
  }

  /** One little-endian signed 16-bit sample. */
  function Sample(lo: byte, hi: byte): (v: int)
    ensures -32768 <= v <= 32767
    ensures lo == 0 && hi == 0 ==> v == 0
    ensures (v + 65536) % 65536 == lo as int + 256 * hi as int
    ensures v < 0 <==> hi >= 128
  {
    var u := lo as int + 256 * hi as int;
    if u >= 32768 then u - 65536 else u
  }

  /** `struct.unpack('1024h', data)`: fails unless the buffer holds exactly one chunk. */
  function Unpack(data: seq<byte>): (r: Option<seq<int>>)
    ensures r.Some? <==> |data| == EXPECTED
    ensures r.Some? ==>
      |r.value| == CHUNK && forall i :: 0 <= i < CHUNK ==> r.value[i] == Sample(data[2 * i], data[2 * i + 1])
  {
    if |data| != EXPECTED then None
    else Some(seq(CHUNK, i requires 0 <= i < CHUNK => Sample(data[2 * i], data[2 * i + 1])))
  }

  /** The unpacked buffer, or CHUNK silent samples where unpack raises. */
  function Decoded(buffer: seq<byte>): (s: seq<int>)
    ensures |s| == CHUNK
  {
    match Unpack(buffer)
    case Some(s) => s
    case None => seq(CHUNK, _ => 0)
  }

  /** The samples of a frame. */
  function Samples(r: Read): seq<int> {
    Decoded(Normalize(Bytes(r)))
  }

  /** Normalising first makes the unpack fallback dead: unpack always succeeds. */
  lemma UnpackAlwaysSucceeds(r: Read)
    ensures Unpack(Normalize(Bytes(r))).Some?
    ensures |Samples(r)| == CHUNK
  {
  }

  function SumSquares(s: seq<int>): (total: int)
    ensures total >= 0
  {
    if s == [] then 0 else SumSquares(s[..|s| - 1]) + s[|s| - 1] * s[|s| - 1]
  }

  /** The accumulation loop over the samples. */
  method SumOfSquares(samples: seq<int>) returns (total: int)
    ensures total == SumSquares(samples)
    ensures total >= 0
  {
    total := 0;
    var i := 0;
    while i < |samples|
      invariant 0 <= i <= |samples|
      invariant total == SumSquares(samples[..i])
    {
      assert samples[..i + 1][..i] == samples[..i];
      total := total + samples[i] * samples[i];
      i := i + 1;
    }
    assert samples[..i] == samples;
  }

  lemma {:induction false} SumSquaresZero(s: seq<int>)
    requires forall i :: 0 <= i < |s| ==> s[i] == 0
    ensures SumSquares(s) == 0
    decreases |s|
  {
    if s != [] {
      SumSquaresZero(s[..|s| - 1]);
    }
  }

  /** `min(rms / 3000.0, 1.0)`, where rms is the square root of the mean square. */
  function Amplitude(sumSq: int, rms: real): (amp: real)
    requires sumSq >= 0 && rms >= 0.0 && rms * rms == sumSq as real / CHUNK as real
    ensures 0.0 <= amp <= 1.0
  {
    if rms / FULL_SCALE < 1.0 then rms / FULL_SCALE else 1.0
  }

  lemma SquareMonotone(a: real, b: real)
    requires 0.0 <= a && 0.0 <= b
    ensures a <= b <==> a * a <= b * b
  {
    if a <= b {
      assert a * a <= a * b <= b * b;
    } else {
      var d := a - b;
      assert d > 0.0 && a > 0.0;
      assert d * a > 0.0;
      assert d * b >= 0.0;
      assert a * a - b * b == d * a + d * b;
    }
  }

  /** The amplitude saturates exactly when the mean square reaches 3000 squared. */
  lemma FullAmplitude(sumSq: int, rms: real)
    requires sumSq >= 0 && rms >= 0.0 && rms * rms == sumSq as real / CHUNK as real
    ensures Amplitude(sumSq, rms) == 1.0 <==> sumSq >= 3000 * 3000 * CHUNK
  {
    SquareMonotone(FULL_SCALE, rms);
  }

  /** A frame triggers a pulse's threshold exactly when the mean square exceeds 450 squared. */
  lemma AboveThreshold(sumSq: int, rms: real)
    requires sumSq >= 0 && rms >= 0.0 && rms * rms == sumSq as real / CHUNK as real
    ensures Amplitude(sumSq, rms) > 0.15 <==> sumSq > 450 * 450 * CHUNK
  {
    SquareMonotone(rms, 450.0);
    SquareMonotone(FULL_SCALE, rms);
  }

  /** A silent frame, the read fallback included, has amplitude 0. */
  lemma SilenceIsZero(r: Read, rms: real)
    requires forall i :: 0 <= i < |Bytes(r)| ==> Bytes(r)[i] == 0
    requires rms >= 0.0 && rms * rms == SumSquares(Samples(r)) as real / CHUNK as real
    ensures Amplitude(SumSquares(Samples(r)), rms) == 0.0
  {
    var data := Bytes(r);
    var buffer := Normalize(data);
    assert forall i :: 0 <= i < |buffer| ==> buffer[i] == 0 by {
      if |data| >= EXPECTED {
        assert buffer == data[..EXPECTED];
      } else {
        assert buffer[..|data|] == data;
        forall i | 0 <= i < |data| ensures buffer[i] == 0 {
          assert buffer[i] == buffer[..|data|][i];
        }
      }
    }
    var s := Samples(r);
    assert forall i :: 0 <= i < |s| ==> s[i] == 0;
    SumSquaresZero(s);
    SquareMonotone(rms, 0.0);
  }

  /** When both reads fail the frame is silent. */
  lemma FallbackIsSilent(rms: real)
    requires rms >= 0.0 && rms * rms == SumSquares(Samples(Failed)) as real / CHUNK as real
    ensures Amplitude(SumSquares(Samples(Failed)), rms) == 0.0
  {
    SilenceIsZero(Failed, rms);
  }
}
