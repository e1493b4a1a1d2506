/**
 The wire format of control messages: a four-byte big-endian length, a version byte, a
 type byte and the payload. Payloads are JSON in the source; here they are opaque bytes.
 (internal/protocol/codec.go, internal/protocol/message.go)
 */
module Codec {
  import opened Wrappers

  type byte = x: int | 0 <= x < 256

  const PROTOCOL_VERSION: byte := 1
  const MAX_MESSAGE_SIZE := 0x10_0000
  const TWO_32 := 0x1_0000_0000
  const HEADER_SIZE := 6

  datatype Message = Message(msgType: byte, payload: seq<byte>)

  // ---------------------------------------------------------------- frames

  function PutUint32(n: nat): (b: seq<byte>)
    requires n < TWO_32
    ensures |b| == 4
  {
    [n / 0x100_0000, n / 0x1_0000 % 0x100, n / 0x100 % 0x100, n % 0x100]
  }

  function Uint32(b: seq<byte>): nat
    requires |b| == 4
  {
    var (b0, b1, b2, b3) := (b[0] as int, b[1] as int, b[2] as int, b[3] as int);
    b0 * 0x100_0000 + b1 * 0x1_0000 + b2 * 0x100 + b3
  }

  /** A number is its two digits to the base 256. */
  lemma TwoDigits(n: nat)
    ensures n == n / 0x100 * 0x100 + n % 0x100
  {
  }

  lemma Uint32OfPut(n: nat)
    requires n < TWO_32
    ensures Uint32(PutUint32(n)) == n
  {
    var n1, n2, n3 := n / 0x100, n / 0x1_0000, n / 0x100_0000;
    TwoDigits(n);
    TwoDigits(n1);
    TwoDigits(n2);
    DivideTwice(n, 0x100);
    DivideTwice(n, 0x1_0000);
  }

  lemma DivideTwice(n: nat, d: nat)
    requires d == 0x100 || d == 0x1_0000
    ensures n / d / 0x100 == n / (d * 0x100)
  {
  }

  lemma PutOfUint32(b: seq<byte>)
    requires |b| == 4
    ensures Uint32(b) < TWO_32 && PutUint32(Uint32(b)) == b
  {
    var v := Uint32(b);
    var (b0, b1, b2) := (b[0] as int, b[1] as int, b[2] as int);
    assert v / 0x100_0000 == b0;
    assert v / 0x1_0000 == b0 * 0x100 + b1;
    assert v / 0x100 == b0 * 0x1_0000 + b1 * 0x100 + b2;
  }

  /** The length field counts version, type and payload, in 32 bits. */
  function Header(m: Message): (h: seq<byte>)
    ensures |h| == HEADER_SIZE
  {
    PutUint32((2 + |m.payload|) % TWO_32) + [PROTOCOL_VERSION, m.msgType]
  }

  function Frame(m: Message): seq<byte> {
    Header(m) + m.payload
  }

  /** A frame byte by byte: the length of what follows, most significant byte first and in 32
      bits, then the version, the type, and the payload. */
  lemma FrameBytes(m: Message)
    ensures var f := Frame(m);
            && |f| == 6 + |m.payload|
            && f[0] as int * 16777216 + f[1] as int * 65536 + f[2] as int * 256 + f[3] as int
               == (2 + |m.payload|) % 4294967296
            && f[4] == 1 && f[5] == m.msgType && f[6..] == m.payload
  {
    var f, n := Frame(m), (2 + |m.payload|) % TWO_32;
    Uint32OfPut(n);
    assert f[..4] == PutUint32(n);
    assert f[..4][0] == f[0] && f[..4][1] == f[1] && f[..4][2] == f[2] && f[..4][3] == f[3];
  }

  // ---------------------------------------------------------------- decoding a byte stream

  datatype DecodeError = NoLength | TooShort | TooLarge | NoMeta | BadVersion | NoPayload

  /** The stream ended inside the frame. */
  predicate IsTruncation(e: DecodeError) {
    e.NoLength? || e.NoMeta? || e.NoPayload?
  }

  /** The next message and what is left of the stream. */
  function Decode(s: seq<byte>): (r: Result<(Message, seq<byte>), DecodeError>)
    ensures r.Ok? ==> |r.value.1| < |s|
  {
    if |s| < 4 then Err(NoLength)
    else
      var frameLen := Uint32(s[..4]);
      if frameLen < 2 then Err(TooShort)
      else if frameLen - 2 > MAX_MESSAGE_SIZE then Err(TooLarge)
      else if |s| < HEADER_SIZE then Err(NoMeta)
      else if s[4] != PROTOCOL_VERSION then Err(BadVersion)
      else if |s| < 4 + frameLen then Err(NoPayload)
      else Ok((Message(s[5], s[HEADER_SIZE..4 + frameLen]), s[4 + frameLen..]))
  }

  /** A stream that starts like a frame announces the frame's length. */
  lemma FrameAnnounces(m: Message, s: seq<byte>)
    requires |s| >= 4 && s[..4] == Frame(m)[..4]
    ensures Uint32(s[..4]) == (2 + |m.payload|) % TWO_32
  {
    Uint32OfPut((2 + |m.payload|) % TWO_32);
    assert Frame(m)[..4] == PutUint32((2 + |m.payload|) % TWO_32);
  }

  /** Decoding gives back an encoded message and the rest of the stream exactly when its
      payload is within the cap, for payloads of any length, also past the 32-bit wrap. */
  lemma DecodeFrameIff(m: Message, rest: seq<byte>)
    ensures Decode(Frame(m) + rest) == Ok((m, rest)) <==> |m.payload| <= 1_048_576
  {
    var s := Frame(m) + rest;
    var n := (2 + |m.payload|) % TWO_32;
    assert s[..4] == Frame(m)[..4];
    FrameAnnounces(m, s);
    if |m.payload| <= MAX_MESSAGE_SIZE {
      assert n == 2 + |m.payload|;
      assert s[HEADER_SIZE..4 + n] == m.payload;
      assert s[4 + n..] == rest;
    } else if Decode(s).Ok? {
      assert |Decode(s).value.0.payload| == n - 2 < |m.payload|;
    }
  }

  /** A successful decode consumed exactly the bytes that encoding its result produces. */
  lemma DecodeConsumesFrame(s: seq<byte>)
    requires Decode(s).Ok?
    ensures var (m, rest) := Decode(s).value;
            s == Frame(m) + rest && |m.payload| <= MAX_MESSAGE_SIZE
  {
    var (m, rest) := Decode(s).value;
    var n := Uint32(s[..4]);
    PutOfUint32(s[..4]);
    assert (2 + |m.payload|) % TWO_32 == n;
    assert s == s[..4] + s[4..HEADER_SIZE] + s[HEADER_SIZE..4 + n] + s[4 + n..];
    assert s[4..HEADER_SIZE] == [s[4], s[5]];
  }

  /** Every strict prefix of a frame is rejected, and as a truncated stream. */
  lemma StrictPrefixRejected(m: Message, k: nat)
    requires |m.payload| <= MAX_MESSAGE_SIZE && k < |Frame(m)|
    ensures Decode(Frame(m)[..k]).Err? && IsTruncation(Decode(Frame(m)[..k]).error)
  {
    var p := Frame(m)[..k];
    if k >= 4 {
      assert p[..4] == Frame(m)[..4];
      FrameAnnounces(m, p);
      assert Uint32(p[..4]) == 2 + |m.payload|;
      assert k > 4 ==> p[4] == PROTOCOL_VERSION;
    }
  }

  /** What is wrong with a stream that does not decode, byte by byte: the first of these. */
  lemma WhichError(s: seq<byte>)
    requires Decode(s).Err?
    ensures var e := Decode(s).error;
            if |s| < 4 then e == NoLength
            else
              var n := s[0] as int * 16777216 + s[1] as int * 65536 + s[2] as int * 256 + s[3] as int;
              if n < 2 then e == TooShort
              else if n > 1_048_578 then e == TooLarge
              else if |s| < 6 then e == NoMeta
              else if s[4] != 1 then e == BadVersion
              else e == NoPayload && |s| < 4 + n
  {
  }

  // ---------------------------------------------------------------- whole streams

  function Frames(ms: seq<Message>): seq<byte> {
    if ms == [] then [] else Frame(ms[0]) + Frames(ms[1..])
  }

  /** What a reader gets by decoding until the first failure, and where it stops. */
  function DecodeAll(s: seq<byte>): (seq<Message>, seq<byte>)
    decreases |s|
  {
    match Decode(s)
    case Err(_) => ([], s)
    case Ok((m, rest)) =>
      var (ms, end) := DecodeAll(rest);
      ([m] + ms, end)
  }

  ghost predicate AllFit(ms: seq<Message>) {
    forall i :: 0 <= i < |ms| ==> |ms[i].payload| <= MAX_MESSAGE_SIZE
  }

  /** A stream of frames followed by something that does not decode yields exactly those
      messages and stops exactly there. */
  lemma {:induction false} DecodeAllInverts(ms: seq<Message>, tail: seq<byte>)
    requires AllFit(ms) && Decode(tail).Err?
    ensures DecodeAll(Frames(ms) + tail) == (ms, tail)
  {
    var s := Frames(ms) + tail;
    if ms == [] {
      assert s == tail;
    } else {
      var rest := Frames(ms[1..]) + tail;
      assert s == Frame(ms[0]) + rest;
      DecodeFrameIff(ms[0], rest);
      DecodeAllInverts(ms[1..], tail);
      assert [ms[0]] + ms[1..] == ms;
    }
  }

  /** And whatever a reader decodes, the stream was the frames of it up to where it stopped. */
  lemma {:induction false} FramesOfDecodeAll(s: seq<byte>)
    ensures var (ms, end) := DecodeAll(s);
            s == Frames(ms) + end && Decode(end).Err? && AllFit(ms)
    decreases |s|
  {
    if Decode(s).Ok? {
      var (m, rest) := Decode(s).value;
      DecodeConsumesFrame(s);
      FramesOfDecodeAll(rest);
      var (ms, end) := DecodeAll(rest);
      assert ([m] + ms)[1..] == ms;
      assert Frames([m] + ms) == Frame(m) + Frames(ms);
    }
  }

  lemma {:induction false} FramesConcat(a: seq<Message>, b: seq<Message>)
    ensures Frames(a + b) == Frames(a) + Frames(b)
  {
    if a == [] {
      assert a + b == b;
    } else {
      assert (a + b)[1..] == a[1..] + b;
      FramesConcat(a[1..], b);
    }
  }

  // ---------------------------------------------------------------- encoder and decoder

  /** An io.Writer that fails once `room` bytes have been written. */
  class Writer {
    var out: seq<byte>
    var room: nat

    method Write(b: seq<byte>) returns (ok: bool)
      modifies this
      ensures ok <==> |b| <= old(room)
      ensures out == old(out) + b[..if ok then |b| else old(room)]
      ensures room == if ok then old(room) - |b| else 0
    {
      ok := |b| <= room;
      if ok {
        out, room := out + b, room - |b|;
        assert b[..|b|] == b;
      } else {
        out, room := out + b[..room], 0;
      }
    }
  }

  class Encoder {
    const w: Writer

    constructor (w: Writer)
      ensures this.w == w
    {
      this.w := w;
    }

    /** With the lock held throughout: the whole frame is written, or the writer failed and
        what it took is a strict prefix of the frame. */
    method Encode(m: Message) returns (ok: bool)
      modifies w
      ensures ok <==> old(w.room) >= |Frame(m)|
      ensures w.out == old(w.out) + Frame(m)[..if ok then |Frame(m)| else old(w.room)]
    {
      var frameLen := (2 + |m.payload|) % TWO_32;
      var header := new byte[HEADER_SIZE](_ => 0);
      header[0] := frameLen / 0x100_0000;
      header[1] := frameLen / 0x1_0000 % 0x100;
      header[2] := frameLen / 0x100 % 0x100;
      header[3] := frameLen % 0x100;
      header[4] := PROTOCOL_VERSION;
      header[5] := m.msgType;
      assert header[..] == Header(m);
      ok := w.Write(header[..]);
      if !ok {
        assert Frame(m)[..old(w.room)] == Header(m)[..old(w.room)];
        return;
      }
      if |m.payload| > 0 {
        ok := w.Write(m.payload);
        assert ok ==> Frame(m)[..|Frame(m)|] == Header(m) + m.payload;
        assert !ok ==> Frame(m)[..old(w.room)] == Header(m) + m.payload[..old(w.room) - HEADER_SIZE];
      } else {
        assert Frame(m)[..|Frame(m)|] == Header(m);
      }
    }
  }

  /** An io.Reader: each Read returns some of the bytes that are left, however many it likes. */
  class Reader {
    var rest: seq<byte>

    method Read(max: nat) returns (b: seq<byte>)
      requires max > 0
      modifies this
      ensures |b| <= max && old(rest) == b + rest
      ensures b == [] <==> old(rest) == []
    {
      if rest == [] {
        return [];
      }
      var n: nat :| 1 <= n <= max && n <= |rest|;
      b, rest := rest[..n], rest[n..];
    }

    /** io.ReadFull */
    method ReadFull(n: nat) returns (b: seq<byte>, ok: bool)
      modifies this
      ensures ok <==> |old(rest)| >= n
      ensures ok ==> b == old(rest)[..n] && rest == old(rest)[n..]
    {
      b := [];
      while |b| < n
        invariant |b| <= n && old(rest) == b + rest
        decreases n - |b|
      {
        var chunk := Read(n - |b|);
        if chunk == [] {
          return b, false;
        }
        b := b + chunk;
      }
      ok := true;
    }
  }

  class Decoder {
    const r: Reader

    constructor (r: Reader)
      ensures this.r == r
    {
      this.r := r;
    }

    /** Whatever sizes the reader hands out, the result is that of decoding the stream. */
    method DecodeNext() returns (res: Result<Message, DecodeError>)
      modifies r
      ensures match Decode(old(r.rest))
              case Ok((m, rest)) => res == Ok(m) && r.rest == rest
              case Err(e) => res == Err(e)
    {
      ghost var s := r.rest;
      var lenBuf, ok := r.ReadFull(4);
      if !ok {
        return Err(NoLength);
      }
      var frameLen := Uint32(lenBuf);
      if frameLen < 2 {
        return Err(TooShort);
      }
      var payloadLen := frameLen - 2;
      if payloadLen > MAX_MESSAGE_SIZE {
        return Err(TooLarge);
      }
      var meta;
      meta, ok := r.ReadFull(2);
      if !ok {
        return Err(NoMeta);
      }
      assert meta[0] == s[4] && meta[1] == s[5];
      if meta[0] != PROTOCOL_VERSION {
        return Err(BadVersion);
      }
      var payload: seq<byte> := [];
      if payloadLen > 0 {
        payload, ok := r.ReadFull(payloadLen);
        if !ok {
          return Err(NoPayload);
        }
      }
      assert r.rest == s[4 + frameLen..];
      assert payload == s[HEADER_SIZE..4 + frameLen];
      return Ok(Message(meta[1], payload));
    }
  }
}
