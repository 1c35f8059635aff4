/**
Length-prefixed frames: a 4-byte big-endian length, then the body. The reader is a stream that
hands out its bytes in chunks of any size; the writer may stop early.
*/
module Framing {
  import opened Bytes

  const HEADER_LEN: nat := 4
  const MAX_FRAME: nat := 4096
  const UINT32: nat := 0x1_0000_0000

  /** binary.BigEndian.PutUint32. */
  function BigEndian(n: nat): (r: seq<byte>)
    requires n < UINT32
    ensures |r| == HEADER_LEN
  {
    [n / 0x100_0000, n / 0x1_0000 % 0x100, n / 0x100 % 0x100, n % 0x100]
  }

  /** binary.BigEndian.Uint32. */
  function Uint32(b: seq<byte>): (n: nat)
    requires |b| == HEADER_LEN
    ensures n < UINT32
  {
    (((b[0] as int) * 0x100 + b[1] as int) * 0x100 + b[2] as int) * 0x100 + b[3] as int
  }

  lemma Uint32RoundTrip(n: nat)
    requires n < UINT32
    ensures Uint32(BigEndian(n)) == n
  {
    var q := n / 0x100;
    assert n / 0x1_0000 == q / 0x100 && n / 0x100_0000 == q / 0x100 / 0x100;
  }

  /** The most significant byte goes first. */
  lemma HeaderBytes()
    ensures BigEndian(0x0102_0304) == [1, 2, 3, 4]
  {
  }

  /** What writeFrame puts on the wire; the length is truncated to 32 bits. */
  function Encode(data: seq<byte>): seq<byte> {
    BigEndian(|data| % UINT32) + data
  }

  datatype ReadError = Eof | UnexpectedEof | TooLarge(length: nat)

  /** Either way `rest` is what the reader still holds. */
  datatype Decoded = Frame(body: seq<byte>, rest: seq<byte>) | Failed(err: ReadError, rest: seq<byte>)

  /** io.ReadFull on a stream that ends too early. */
  function ShortRead(got: seq<byte>): ReadError {
    if got == [] then Eof else UnexpectedEof
  }

  /** What readFrame makes of the bytes in front of it. */
  function Decode(s: seq<byte>): Decoded {
    if |s| < HEADER_LEN then Failed(ShortRead(s), [])
    else
      var length := Uint32(s[..HEADER_LEN]);
      var tail := s[HEADER_LEN..];
      if length > MAX_FRAME then Failed(TooLarge(length), tail)
      else if |tail| < length then Failed(ShortRead(tail), [])
      else Frame(tail[..length], tail[length..])
  }

  // ----- The chunked reader -----

  class Reader {
    var rest: seq<byte>

    constructor (data: seq<byte>)
      ensures rest == data
    {
      rest := data;
    }

    /** One Read: some bytes, at least one unless the stream is at its end. */
    method Read(limit: nat) returns (chunk: seq<byte>)
      requires limit > 0
      modifies this
      ensures |chunk| <= limit && chunk + rest == old(rest)
      ensures chunk == [] <==> old(rest) == []
    {
      if rest == [] {
        return [];
      }
      var most := if limit < |rest| then limit else |rest|;
      var k :| 1 <= k <= most;
      chunk := rest[..k];
      rest := rest[k..];
    }

    /** io.ReadFull: exactly n bytes, or everything there was and an error. */
    method ReadFull(n: nat) returns (data: seq<byte>, err: Option<ReadError>)
      modifies this
      ensures data + rest == old(rest)
      ensures n <= |old(rest)| ==> err == None && data == old(rest)[..n] && rest == old(rest)[n..]
      ensures n > |old(rest)| ==> err == Some(ShortRead(data)) && data == old(rest) && rest == []
    {
      data := [];
      while |data| < n
        invariant |data| <= n && data + rest == old(rest)
        decreases n - |data|
      {
        var chunk := Read(n - |data|);
        if chunk == [] {
          return data, Some(ShortRead(data));
        }
        data := data + chunk;
      }
      assert data == old(rest)[..n];
      return data, None;
    }

    /** readFrame gives the same answer and leaves the same bytes behind however the stream is chunked. */
    method ReadFrame() returns (body: seq<byte>, err: Option<ReadError>)
      modifies this
      ensures var d := Decode(old(rest));
        && rest == d.rest
        && (d.Frame? ==> err == None && body == d.body)
        && (d.Failed? ==> err == Some(d.err))
    {
      var header, e := ReadFull(HEADER_LEN);
      if e.Some? {
        return [], e;
      }
      var length := Uint32(header);
      if length > MAX_FRAME {
        return [], Some(TooLarge(length));
      }
      ghost var tail := rest;
      body, e := ReadFull(length);
      if e.Some? {
        assert body == tail;
        return [], e;
      }
      return body, None;
    }
  }

  // ----- The writer -----

  /** What one Write call reports: how many bytes it took and whether it failed. */
  datatype WriteOutcome = WriteOutcome(n: nat, failed: bool)

  datatype WriteResult = Written | HeaderFailed | BodyFailed | ShortWrite

  /** writeFrame against the outcomes of its two Write calls: the bytes that got out, and the result. */
  function WriteFrame(data: seq<byte>, header: WriteOutcome, body: WriteOutcome): (seq<byte>, WriteResult)
    requires header.n <= HEADER_LEN && body.n <= |data|
  {
    var prefix := BigEndian(|data| % UINT32);
    if header.failed then (prefix[..header.n], HeaderFailed)
    else
      var out := prefix[..header.n] + data[..body.n];
      if body.failed then (out, BodyFailed)
      else if body.n != |data| then (out, ShortWrite)
      else (out, Written)
  }

  /** io.Writer's rule: a short write reports an error. */
  predicate Honest(o: WriteOutcome, length: nat) {
    o.n < length ==> o.failed
  }

  /** One Write call: how many bytes it was given and what became of them. */
  datatype Wrote = Wrote(asked: nat, outcome: WriteOutcome)

  /** A call that took something and reported no error. */
  predicate Good(w: Wrote) {
    !w.outcome.failed && w.outcome.n > 0
  }

  /** `log` lists every Write call. */
  class Writer {
    var out: seq<byte>
    const honest: bool
    ghost var log: seq<Wrote>

    constructor (honest: bool)
      ensures out == [] && log == [] && this.honest == honest
    {
      out := [];
      log := [];
      this.honest := honest;
    }

    /** One Write: takes some prefix of the data; an honest writer reports a short one as failed. */
    method Write(data: seq<byte>) returns (o: WriteOutcome)
      modifies this
      ensures o.n <= |data| && out == old(out) + data[..o.n]
      ensures honest ==> Honest(o, |data|)
      ensures log == old(log) + [Wrote(|data|, o)]
    {
      var k :| 0 <= k <= |data|;
      var failed: bool := *;
      out := out + data[..k];
      o := WriteOutcome(k, failed || (honest && k < |data|));
      log := log + [Wrote(|data|, o)];
    }

    /** writeFrame: two Write calls, whose outcomes decide what got out and what is reported. */
    method Frame(data: seq<byte>) returns (r: WriteResult, ghost header: WriteOutcome, ghost body: WriteOutcome)
      modifies this
      ensures header.n <= HEADER_LEN && body.n <= |data|
      ensures out == old(out) + WriteFrame(data, header, body).0 && r == WriteFrame(data, header, body).1
      ensures honest && r == Written ==> out == old(out) + Encode(data)
      ensures log == old(log) + [Wrote(HEADER_LEN, header)] + if header.failed then [] else [Wrote(|data|, body)]
      ensures r == HeaderFailed <==> header.failed
      ensures r == BodyFailed <==> !header.failed && body.failed
      ensures r == Written <==> !header.failed && !body.failed && body.n == |data|
    {
      body := WriteOutcome(0, false);
      var h := Write(BigEndian(|data| % UINT32));
      header := h;
      if h.failed {
        return HeaderFailed, header, body;
      }
      ghost var prefix := BigEndian(|data| % UINT32)[..h.n];
      var b := Write(data);
      body := b;
      assert (old(out) + prefix) + data[..b.n] == old(out) + (prefix + data[..b.n]);
      if !b.failed && b.n == |data| {
        WrittenIsWholeFrameIff(data, header, body);
      }
      if b.failed {
        return BodyFailed, header, body;
      }
      if b.n != |data| {
        return ShortWrite, header, body;
      }
      return Written, header, body;
    }
  }

  /**
  Success means that exactly one frame went out if and only if the header was written whole.
  A writer that keeps io.Writer's rule always ensures it; writeFrame itself checks only the body.
  */
  lemma WrittenIsWholeFrameIff(data: seq<byte>, header: WriteOutcome, body: WriteOutcome)
    requires header.n <= HEADER_LEN && body.n <= |data|
    requires WriteFrame(data, header, body).1 == Written
    ensures WriteFrame(data, header, body).0 == Encode(data) <==> header.n == HEADER_LEN
    ensures Honest(header, HEADER_LEN) ==> WriteFrame(data, header, body).0 == Encode(data)
  {
    var out := WriteFrame(data, header, body).0;
    assert |out| == header.n + |data|;
    assert data[..|data|] == data;
  }

  /** Whatever an honest writer does, what got out is a prefix of the frame. */
  lemma FailureLeavesPrefix(data: seq<byte>, header: WriteOutcome, body: WriteOutcome)
    requires header.n <= HEADER_LEN && body.n <= |data| && Honest(header, HEADER_LEN)
    ensures WriteFrame(data, header, body).0 <= Encode(data)
    ensures WriteFrame(data, header, body).1 == Written ==> WriteFrame(data, header, body).0 == Encode(data)
  {
    var out := WriteFrame(data, header, body).0;
    assert out == Encode(data)[..|out|];
  }

  // ----- Round trips -----

  lemma HeaderOf(data: seq<byte>, rest: seq<byte>)
    ensures var s := Encode(data) + rest;
      && |s| >= HEADER_LEN
      && Uint32(s[..HEADER_LEN]) == |data| % UINT32
      && s[HEADER_LEN..] == data + rest
  {
    var s := Encode(data) + rest;
    var h := BigEndian(|data| % UINT32);
    assert s == h + (data + rest);
    assert s[..HEADER_LEN] == h;
    Uint32RoundTrip(|data| % UINT32);
  }

  /** A frame is read back, leaving the following bytes untouched, if and only if its body fits. */
  lemma RoundTripIff(data: seq<byte>, rest: seq<byte>)
    ensures Decode(Encode(data) + rest) == Frame(data, rest) <==> |data| <= 4096
  {
    HeaderOf(data, rest);
    hide Encode, Uint32;
    if |data| <= MAX_FRAME {
      assert (data + rest)[..|data|] == data && (data + rest)[|data|..] == rest;
    }
  }

  /** An oversized body, up to the 32-bit limit, is refused after exactly the header was consumed. */
  lemma OversizedIsRefused(data: seq<byte>, rest: seq<byte>)
    requires MAX_FRAME < |data| < UINT32
    ensures Decode(Encode(data) + rest) == Failed(TooLarge(|data|), data + rest)
  {
    HeaderOf(data, rest);
  }

  /** From 2^32 bytes on the length wraps, and a reader may take a part of the body for the whole. */
  lemma WrappedLengthMisreads(data: seq<byte>, rest: seq<byte>)
    requires |data| >= UINT32 && |data| % UINT32 <= MAX_FRAME
    ensures var n := |data| % UINT32;
      Decode(Encode(data) + rest) == Frame(data[..n], data[n..] + rest)
  {
    HeaderOf(data, rest);
    var n := |data| % UINT32;
    assert (data + rest)[..n] == data[..n] && (data + rest)[n..] == data[n..] + rest;
  }

  /** Every strict prefix of an acceptable frame is an error, and the reader is at its end. */
  lemma StrictPrefixFails(data: seq<byte>, k: nat)
    requires |data| <= MAX_FRAME && k < |Encode(data)|
    ensures Decode(Encode(data)[..k]) == Failed(if k == 0 || k == HEADER_LEN then Eof else UnexpectedEof, [])
  {
    HeaderOf(data, []);
    var s, p := Encode(data), Encode(data)[..k];
    assert s + [] == s;
    if k >= HEADER_LEN {
      assert p[..HEADER_LEN] == s[..HEADER_LEN];
      assert |p[HEADER_LEN..]| == k - HEADER_LEN;
    }
  }

  // ----- Any number of frames -----

  function EncodeAll(bodies: seq<seq<byte>>): seq<byte> {
    if bodies == [] then [] else Encode(bodies[0]) + EncodeAll(bodies[1..])
  }

  /** Read n frames, stopping at the first error. */
  function DecodeMany(s: seq<byte>, n: nat): (seq<seq<byte>>, Decoded) {
    if n == 0 then ([], Frame([], s))
    else
      var d := Decode(s);
      if d.Failed? then ([], d)
      else
        var (bodies, last) := DecodeMany(d.rest, n - 1);
        ([d.body] + bodies, last)
  }

  /** Repeated reading recovers exactly the list of bodies and leaves what follows untouched. */
  lemma {:induction false} ListRoundTrip(bodies: seq<seq<byte>>, rest: seq<byte>)
    requires forall i :: 0 <= i < |bodies| ==> |bodies[i]| <= MAX_FRAME
    ensures DecodeMany(EncodeAll(bodies) + rest, |bodies|) == (bodies, Frame([], rest))
  {
    hide Encode, Decode;
    if bodies == [] {
      assert EncodeAll(bodies) + rest == rest;
    } else {
      var tail := EncodeAll(bodies[1..]) + rest;
      assert EncodeAll(bodies) + rest == Encode(bodies[0]) + tail;
      RoundTripIff(bodies[0], tail);
      ListRoundTrip(bodies[1..], rest);
      DecodeManyNext(EncodeAll(bodies) + rest, bodies[0], tail, |bodies| - 1);
      hide EncodeAll, DecodeMany;
      assert bodies == [bodies[0]] + bodies[1..];
    }
  }

  lemma DecodeManyNext(s: seq<byte>, body: seq<byte>, tail: seq<byte>, n: nat)
    requires Decode(s) == Frame(body, tail)
    ensures DecodeMany(s, n + 1) == ([body] + DecodeMany(tail, n).0, DecodeMany(tail, n).1)
  {
    hide Decode;
  }

  /** The loop that reads n frames off one connection computes DecodeMany. */
  method ReadFrames(r: Reader, n: nat) returns (bodies: seq<seq<byte>>, err: Option<ReadError>)
    modifies r
    ensures var (want, last) := DecodeMany(old(r.rest), n);
      bodies == want && r.rest == last.rest && (err.None? <==> last.Frame?) && (last.Failed? ==> err == Some(last.err))
  {
    hide Decode;
    bodies := [];
    var i := 0;
    assert bodies + DecodeMany(r.rest, n).0 == DecodeMany(r.rest, n).0;
    while i < n
      invariant 0 <= i <= n
      invariant DecodeMany(old(r.rest), n)
             == (bodies + DecodeMany(r.rest, n - i).0, DecodeMany(r.rest, n - i).1)
    {
      var body;
      ghost var before := r.rest;
      body, err := r.ReadFrame();
      if err.Some? {
        assert DecodeMany(before, n - i).0 == [];
        return;
      }
      assert bodies + ([body] + DecodeMany(r.rest, n - i - 1).0) == (bodies + [body]) + DecodeMany(r.rest, n - i - 1).0;
      bodies := bodies + [body];
      i := i + 1;
    }
    err := None;
  }
}
