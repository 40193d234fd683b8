/**
 The framing of the cluster link: a 32-bit little-endian length and the payload. The decoder
 is the one-shot reading of a byte stream that the connection performs piece by piece.
 */
module ClusterFraming {

  type byte = x: int | 0 <= x < 256

  type Bytes = seq<byte>

  const WORD: int := 0x1_0000_0000

  function Little(n: nat): (r: Bytes)
    requires n < WORD
    ensures |r| == 4
  {
    [n % 256, n / 256 % 256, n / 65536 % 256, n / 16777216]
  }

  function FromLittle(b: Bytes): (n: nat)
    requires |b| >= 4
    ensures n < WORD
  {
    b[0] as int + 256 * (b[1] as int) + 65536 * (b[2] as int) + 16777216 * (b[3] as int)
  }

  lemma LittleRoundTrip(n: nat)
    requires n < WORD
    ensures FromLittle(Little(n)) == n
  {
    assert n == n % 256 + 256 * (n / 256);
    assert n / 256 == n / 256 % 256 + 256 * (n / 65536);
    assert n / 65536 == n / 65536 % 256 + 256 * (n / 16777216);
  }

  function Power256(k: nat): (r: nat)
    ensures r > 0
  {
    if k == 0 then 1 else 256 * Power256(k - 1)
  }

  /** The lowest byte of a length comes first: byte k counts for 256 to the k. */
  lemma LowestByteFirst(n: nat, k: nat)
    requires n < WORD && k < 4
    ensures Little(n)[k] == n / Power256(k) % 256
  {
    assert Power256(1) == 256;
    assert Power256(2) == 256 * Power256(1);
    assert Power256(3) == 256 * Power256(2);
  }

  /** What one message puts on the wire; the length is cut to 32 bits. */
  function Frame(m: Bytes): Bytes {
    Little(|m| % WORD) + m
  }

  function Wire(ms: seq<Bytes>): Bytes {
    if ms == [] then [] else Wire(ms[..|ms| - 1]) + Frame(ms[|ms| - 1])
  }

  predicate InRange(m: Bytes) {
    0 < |m| < WORD
  }

  predicate AllInRange(ms: seq<Bytes>) {
    forall i :: 0 <= i < |ms| ==> InRange(ms[i])
  }

  /**
   The messages read so far, the length held (0 when none is), the bytes not yet used, and
   whether a zero length has been met, which ends the reading.
   */
  datatype Decoded = Decoded(messages: seq<Bytes>, len: nat, buffer: Bytes, bad: bool)

  function Decode(len: nat, buffer: Bytes, done: seq<Bytes>): (d: Decoded)
    ensures !d.bad ==> if d.len == 0 then |d.buffer| < 4 else |d.buffer| < d.len
    ensures done <= d.messages
    decreases |buffer|
  {
    if len != 0 then
      if |buffer| < len then Decoded(done, len, buffer, false)
      else Decode(0, buffer[len..], done + [buffer[..len]])
    else if |buffer| < 4 then Decoded(done, 0, buffer, false)
    else if FromLittle(buffer) == 0 then Decoded(done, 0, buffer[4..], true)
    else Decode(FromLittle(buffer), buffer[4..], done)
  }

  // ---------------------------------------------------------------- chunks

  /** Reading a stream in two pieces is reading it at once; a zero length stops both alike. */
  lemma {:induction false} DecodeInPieces(len: nat, a: Bytes, b: Bytes, done: seq<Bytes>)
    ensures var d := Decode(len, a, done); var e := Decode(len, a + b, done);
            if d.bad then e.bad && e.messages == d.messages
            else e == Decode(d.len, d.buffer + b, d.messages)
    decreases |a|
  {
    if len != 0 && |a| >= len {
      assert (a + b)[len..] == a[len..] + b && (a + b)[..len] == a[..len];
      DecodeInPieces(0, a[len..], b, done + [a[..len]]);
    } else if len == 0 && |a| >= 4 {
      assert (a + b)[4..] == a[4..] + b;
      if FromLittle(a) != 0 {
        DecodeInPieces(FromLittle(a), a[4..], b, done);
      }
    }
  }

  function Concat(chunks: seq<Bytes>): Bytes {
    if chunks == [] then [] else Concat(chunks[..|chunks| - 1]) + chunks[|chunks| - 1]
  }

  /** What successive reads of the given chunks leave behind; nothing is read after a zero length. */
  function DecodeChunks(chunks: seq<Bytes>): Decoded {
    if chunks == [] then Decoded([], 0, [], false)
    else
      var d := DecodeChunks(chunks[..|chunks| - 1]);
      if d.bad then d else Decode(d.len, d.buffer + chunks[|chunks| - 1], d.messages)
  }

  /** However a stream is cut into chunks, the same messages come out and the same zero length stops it. */
  lemma {:induction false} ChunksDoNotMatter(chunks: seq<Bytes>)
    ensures var d := DecodeChunks(chunks); var e := Decode(0, Concat(chunks), []);
            d.bad == e.bad && d.messages == e.messages && (!d.bad ==> d == e)
    decreases |chunks|
  {
    if chunks != [] {
      var init := chunks[..|chunks| - 1];
      ChunksDoNotMatter(init);
      DecodeInPieces(0, Concat(init), chunks[|chunks| - 1], []);
    }
  }

  // ---------------------------------------------------------------- what decoding means

  /** The bytes of a stream after its complete frames. */
  function Pending(d: Decoded): Bytes
    requires d.len < WORD
  {
    if d.bad then Little(0) + d.buffer
    else if d.len != 0 then Little(d.len) + d.buffer
    else d.buffer
  }

  lemma LittleOfFrom(b: Bytes)
    requires |b| >= 4
    ensures Little(FromLittle(b)) + b[4..] == b
  {
    var n := FromLittle(b);
    var b1: int, b2: int, b3: int := b[1], b[2], b[3];
    assert n / 256 == b1 + 256 * b2 + 65536 * b3;
    assert n / 65536 == b2 + 256 * b3;
    assert n / 16777216 == b3;
    assert Little(n) == b[..4];
  }

  lemma WireMore(ms: seq<Bytes>, m: Bytes)
    ensures Wire(ms + [m]) == Wire(ms) + Frame(m)
  {
    assert (ms + [m])[..|ms|] == ms;
  }

  lemma SplitFrame(before: Bytes, len: nat, buffer: Bytes)
    requires 0 < len < WORD && len <= |buffer|
    ensures before + (Little(len) + buffer) == before + Frame(buffer[..len]) + buffer[len..]
  {
    var m, rest := buffer[..len], buffer[len..];
    assert buffer == m + rest;
    assert Frame(m) == Little(len) + m;
    assert Little(len) + (m + rest) == (Little(len) + m) + rest;
    assert before + (Frame(m) + rest) == (before + Frame(m)) + rest;
  }

  /** The stream is the frames of the decoded messages, all of payloads 1 to 2^32 - 1, and then the rest. */
  lemma {:induction false} DecodeSound(len: nat, buffer: Bytes, done: seq<Bytes>)
    requires len < WORD && AllInRange(done)
    ensures var d := Decode(len, buffer, done);
            d.len < WORD && AllInRange(d.messages)
            && Wire(done) + (if len == 0 then buffer else Little(len) + buffer) == Wire(d.messages) + Pending(d)
    decreases |buffer|
  {
    if len != 0 && |buffer| >= len {
      var m := buffer[..len];
      DecodeSound(0, buffer[len..], done + [m]);
      WireMore(done, m);
      SplitFrame(Wire(done), len, buffer);
    } else if len == 0 && |buffer| >= 4 {
      LittleOfFrom(buffer);
      if FromLittle(buffer) != 0 {
        DecodeSound(FromLittle(buffer), buffer[4..], done);
      }
    }
  }

  lemma {:induction false} DecodeFrame(m: Bytes, rest: Bytes, done: seq<Bytes>)
    requires InRange(m)
    ensures Decode(0, Frame(m) + rest, done) == Decode(0, rest, done + [m])
  {
    FrameParts(m, rest);
  }

  lemma FrameParts(m: Bytes, rest: Bytes)
    requires InRange(m)
    ensures var t := Frame(m) + rest;
            |t| == 4 + |m| + |rest| && FromLittle(t) == |m| && t[4..] == m + rest
            && (m + rest)[..|m|] == m && (m + rest)[|m|..] == rest
  {
    var t := Frame(m) + rest;
    LittleRoundTrip(|m|);
    assert t[..4] == Little(|m|);
    assert FromLittle(t) == FromLittle(t[..4]);
  }

  lemma {:induction false} DecodeWire(ms: seq<Bytes>, rest: Bytes)
    requires AllInRange(ms)
    ensures Decode(0, Wire(ms) + rest, []) == Decode(0, rest, ms)
    decreases |ms|
  {
    if ms == [] {
      assert Wire(ms) + rest == rest;
    } else {
      var init, m := ms[..|ms| - 1], ms[|ms| - 1];
      assert Wire(ms) + rest == Wire(init) + (Frame(m) + rest);
      DecodeWire(init, Frame(m) + rest);
      DecodeFrame(m, rest, init);
      assert init + [m] == ms;
    }
  }

  /** Of any part of a stream of good frames, only messages of that stream are read, in order. */
  lemma PrefixDecodes(ms: seq<Bytes>, part: Bytes)
    requires AllInRange(ms) && part <= Wire(ms)
    ensures var d := Decode(0, part, []); !d.bad && d.messages <= ms
  {
    var rest := Wire(ms)[|part|..];
    assert part + rest == Wire(ms) == Wire(ms) + [];
    DecodeInPieces(0, part, rest, []);
    DecodeWire(ms, []);
  }

  /** A message survives framing exactly when its size is 1 to 2^32 - 1. */
  lemma FrameRoundTripIff(m: Bytes)
    ensures Decode(0, Frame(m), []) == Decoded([m], 0, [], false) <==> InRange(m)
  {
    if InRange(m) {
      assert Frame(m) == Frame(m) + [];
      DecodeFrame(m, [], []);
    } else {
      var n := |m| % WORD;
      LittleRoundTrip(n);
      assert Frame(m)[..4] == Little(n);
      assert FromLittle(Frame(m)) == n;
      if n != 0 {
        assert Frame(m)[4..] == m;
        var d := Decode(n, m, []);
        assert d == Decode(0, Frame(m), []);
        assert ([] + [m[..n]])[0] == m[..n];
        assert d.messages[0] == m[..n] && |m[..n]| < |m|;
      }
    }
  }
}
