/** RTMP chunk streams: the reader that reassembles messages and the writer of the server's replies, against the
    chunk format of section 5.3.1 of the RTMP 1.0 specification. */
module Rtmp {
  import opened Bytes

  const MAX_CHUNK_SIZE: nat := 65536

  datatype Message = Message(typeId: byte, timestamp: nat, streamId: nat, payload: seq<byte>)

  /** The low `n` bytes of `v`, least significant first. */
  function LeDigits(v: nat, n: nat): (r: seq<byte>)
    ensures |r| == n
    decreases n
  {
    if n == 0 then [] else [v % 0x100] + LeDigits(v / 0x100, n - 1)
  }

  function LeNumber(s: seq<byte>): nat {
    if s == [] then 0 else s[0] + 0x100 * LeNumber(s[1..])
  }

  // ----- The reader -----

  function BasicHeaderLength(first: byte): nat {
    if first % 0x40 == 0 then 2 else if first % 0x40 == 1 then 3 else 1
  }

  function MessageHeaderLength(fmt: nat): nat {
    if fmt == 0 then 11 else if fmt == 1 then 7 else if fmt == 2 then 3 else 0
  }

  /** The fields a message header gives: the timestamp field, the payload length, type and stream. */
  datatype Header = Header(timestamp: nat, length: nat, typeId: byte, streamId: nat)

  function HeaderOf(fmt: nat, h: seq<byte>): Header
    requires |h| == MessageHeaderLength(fmt)
  {
    if fmt == 0 then Header(Number(h[..3]), Number(h[3..6]), h[6], LeNumber(h[7..]))
    else if fmt == 1 then Header(Number(h[..3]), Number(h[3..6]), h[6], 0)
    else if fmt == 2 then Header(Number(h), 0, 0, 0)
    else Header(0, 0, 0, 0)
  }

  function Min(a: nat, b: nat): nat {
    if a < b then a else b
  }

  /** Takes `remaining` payload bytes off `d`, dropping one byte between chunks. */
  function PayloadOf(d: seq<byte>, remaining: nat, chunkSize: nat): Option<(seq<byte>, seq<byte>)>
    decreases |d|
  {
    var n := Min(remaining, chunkSize);
    if remaining == 0 then Some(([], d))
    else if |d| < n then None
    else if remaining == n then Some((d[..n], d[n..]))
    else if |d| < n + 1 then None
    else
      var tail := PayloadOf(d[n + 1..], remaining - n, chunkSize);
      if tail.None? then None else Some((d[..n] + tail.value.0, tail.value.1))
  }

  /** From behind the message header: the extended timestamp, if there is one, and the payload. */
  function BodyOf(h: Header, d: seq<byte>, chunkSize: nat): Option<(Message, seq<byte>)> {
    var extended := h.timestamp == 0xFF_FFFF;
    if extended && |d| < 4 then None
    else
      var body := PayloadOf(if extended then d[4..] else d, h.length, chunkSize);
      if body.None? then None
      else Some((Message(h.typeId, if extended then Number(d[..4]) else h.timestamp, h.streamId, body.value.0),
                 body.value.1))
  }

  /** The message at the head of `d` and the bytes behind it, if `d` has all of it. */
  function MessageOf(d: seq<byte>, chunkSize: nat): Option<(Message, seq<byte>)> {
    if d == [] then None
    else
      var fmt := d[0] / 0x40;
      var b := BasicHeaderLength(d[0]);
      var n := MessageHeaderLength(fmt);
      if |d| < b + n then None else BodyOf(HeaderOf(fmt, d[b..b + n]), d[b + n..], chunkSize)
  }

  /** A connection whose bytes so far unread are `input`; reading past them ends the connection. */
  class Socket {
    var input: seq<byte>

    constructor (input: seq<byte>)
      ensures this.input == input
    {
      this.input := input;
    }

    method ReadExact(n: nat) returns (r: Option<seq<byte>>)
      modifies this
      ensures r.Some? <==> n <= |old(input)|
      ensures r.Some? ==> r.value == old(input)[..n] && input == old(input)[n..]
    {
      if n > |input| {
        input := [];
        return None;
      }
      r := Some(input[..n]);
      input := input[n..];
    }
  }

  class ChunkReader {
    var chunkSize: nat

    constructor ()
      ensures chunkSize == 128
    {
      chunkSize := 128;
    }

    method SetChunkSize(size: nat)
      modifies this
      ensures chunkSize <= 65536 && chunkSize <= size
      ensures chunkSize == size || chunkSize == 65536
    {
      chunkSize := Min(size, MAX_CHUNK_SIZE);
    }

    method ReadPayload(socket: Socket, length: nat) returns (r: Option<seq<byte>>)
      modifies socket
      ensures r.Some? <==> PayloadOf(old(socket.input), length, chunkSize).Some?
      ensures r.Some? ==> PayloadOf(old(socket.input), length, chunkSize) == Some((r.value, socket.input))
    {
      var data := [];
      var remaining := length;
      ghost var whole := PayloadOf(socket.input, length, chunkSize);
      BehindStart(whole);
      while remaining > 0
        invariant Behind(whole, data, PayloadOf(socket.input, remaining, chunkSize))
        decreases |socket.input|, remaining
      {
        ghost var d := socket.input;
        var toRead := Min(remaining, chunkSize);
        BehindNext(whole, data, d, remaining, chunkSize);
        var piece := socket.ReadExact(toRead);
        if piece.None? {
          return None;
        }
        data := data + piece.value;
        remaining := remaining - toRead;
        if remaining > 0 {
          var cont := socket.ReadExact(1);
          if cont.None? {
            return None;
          }
          assert socket.input == d[toRead + 1..];
        } else {
          assert toRead == remaining + toRead;
        }
      }
      assert data + [] == data;
      return Some(data);
    }

    method ReadMessage(socket: Socket) returns (r: Option<Message>)
      modifies socket
      ensures r.Some? <==> MessageOf(old(socket.input), chunkSize).Some?
      ensures r.Some? ==> MessageOf(old(socket.input), chunkSize) == Some((r.value, socket.input))
    {
      ghost var d := socket.input;
      var first := socket.ReadExact(1);
      if first.None? {
        return None;
      }
      var fmt := first.value[0] / 0x40;
      var b := BasicHeaderLength(first.value[0]);
      var csid := socket.ReadExact(b - 1);
      if csid.None? {
        return None;
      }
      assert socket.input == d[b..];
      var n := MessageHeaderLength(fmt);
      var headerBytes := socket.ReadExact(n);
      if headerBytes.None? {
        return None;
      }
      assert headerBytes.value == d[b..b + n] && socket.input == d[b + n..];
      var header := HeaderOf(fmt, headerBytes.value);
      var timestamp := header.timestamp;
      if timestamp == 0xFF_FFFF {
        var ext := socket.ReadExact(4);
        if ext.None? {
          return None;
        }
        timestamp := Number(ext.value);
      }
      var data := ReadPayload(socket, header.length);
      if data.None? {
        return None;
      }
      return Some(Message(header.typeId, timestamp, header.streamId, data.value));
    }
  }

  /** `data` is what the payload `whole` has before the part `more`. */
  ghost predicate Behind(
    whole: Option<(seq<byte>, seq<byte>)>, data: seq<byte>, more: Option<(seq<byte>, seq<byte>)>)
  {
    && (whole.Some? <==> more.Some?)
    && (more.Some? ==> whole.value == (data + more.value.0, more.value.1))
  }

  lemma {:induction false} BehindStart(whole: Option<(seq<byte>, seq<byte>)>)
    ensures Behind(whole, [], whole)
  {
    if whole.Some? {
      assert [] + whole.value.0 == whole.value.0;
    }
  }

  /** One turn of the payload loop. */
  lemma {:induction false} BehindNext(
    whole: Option<(seq<byte>, seq<byte>)>, data: seq<byte>, d: seq<byte>, remaining: nat, chunkSize: nat)
    requires remaining > 0 && Behind(whole, data, PayloadOf(d, remaining, chunkSize))
    ensures var n := Min(remaining, chunkSize);
      if |d| < n || (remaining > n && |d| < n + 1) then whole.None?
      else if remaining == n then Behind(whole, data + d[..n], PayloadOf(d[n..], 0, chunkSize))
      else Behind(whole, data + d[..n], PayloadOf(d[n + 1..], remaining - n, chunkSize))
  {
    var n := Min(remaining, chunkSize);
    if |d| >= n && remaining == n {
      assert data + d[..n] + [] == data + d[..n];
    } else if |d| >= n + 1 {
      var tail := PayloadOf(d[n + 1..], remaining - n, chunkSize);
      if tail.Some? {
        assert data + (d[..n] + tail.value.0) == data + d[..n] + tail.value.0;
      }
    }
  }

  // ----- The chunk format -----

  /** Section 5.3.1.1: one byte for stream ids up to 63, two up to 319, three up to 65599. */
  function BasicHeader(fmt: nat, csid: nat): seq<byte>
    requires fmt < 4 && 2 <= csid <= 65599
  {
    if csid < 64 then [0x40 * fmt + csid]
    else if csid < 320 then [0x40 * fmt, csid - 64]
    else [0x40 * fmt + 1, (csid - 64) % 0x100, (csid - 64) / 0x100]
  }

  /** The payload in chunks, with `cont` between one and the next. */
  function Chunks(payload: seq<byte>, chunkSize: nat, cont: seq<byte>): seq<byte>
    requires chunkSize > 0
    decreases |payload|
  {
    if |payload| <= chunkSize then payload
    else payload[..chunkSize] + (cont + Chunks(payload[chunkSize..], chunkSize, cont))
  }

  predicate InRange(m: Message) {
    |m.payload| < 0x100_0000 && m.timestamp < TWO_TO_32 && m.streamId < TWO_TO_32
  }

  function Extension(m: Message): seq<byte> {
    if m.timestamp >= 0xFF_FFFF then U32(m.timestamp) else []
  }

  function Type0Header(m: Message): (h: seq<byte>)
    ensures |h| == 11
  {
    U24(Min(m.timestamp, 0xFF_FFFF)) + U24(|m.payload|) + [m.typeId] + LeDigits(m.streamId, 4)
  }

  /** What a continuation chunk starts with: a type-3 header and, section 5.3.1.3, the extended timestamp again. */
  function Continuation(m: Message, csid: nat): seq<byte>
    requires 2 <= csid <= 65599
  {
    BasicHeader(3, csid) + Extension(m)
  }

  /** A message as a type-0 chunk and its continuations. */
  function Wire(m: Message, csid: nat, chunkSize: nat): seq<byte>
    requires 2 <= csid <= 65599 && chunkSize > 0
  {
    BasicHeader(0, csid) + (Type0Header(m) + (Extension(m) + Chunks(m.payload, chunkSize, Continuation(m, csid))))
  }

  // ----- Reassembly -----

  lemma {:induction false} LeNumberOfDigits(v: nat, n: nat)
    requires v < Pow256(n)
    ensures LeNumber(LeDigits(v, n)) == v
  {
    if n > 0 {
      LeNumberOfDigits(v / 0x100, n - 1);
      assert LeDigits(v, n)[1..] == LeDigits(v / 0x100, n - 1);
    }
  }

  /** One-byte continuations are exactly what the reader drops. */
  lemma {:induction false} PayloadRead(payload: seq<byte>, chunkSize: nat, cont: seq<byte>, rest: seq<byte>)
    requires chunkSize > 0 && (|payload| <= chunkSize || |cont| == 1)
    ensures PayloadOf(Chunks(payload, chunkSize, cont) + rest, |payload|, chunkSize) == Some((payload, rest))
    decreases |payload|
  {
    if |payload| <= chunkSize {
      LastChunkRead(payload, chunkSize, rest);
    } else {
      var first, more := payload[..chunkSize], payload[chunkSize..];
      var tail := Chunks(more, chunkSize, cont) + rest;
      assert Chunks(payload, chunkSize, cont) + rest == first + (cont + tail);
      PayloadRead(more, chunkSize, cont, rest);
      ChunkRead(first, cont, tail, |payload|, chunkSize);
      assert payload == first + more;
    }
  }

  lemma {:induction false} LastChunkRead(payload: seq<byte>, chunkSize: nat, rest: seq<byte>)
    requires |payload| <= chunkSize
    ensures PayloadOf(payload + rest, |payload|, chunkSize) == Some((payload, rest))
  {
    var d := payload + rest;
    assert d[..|payload|] == payload && d[|payload|..] == rest;
    assert payload == [] ==> d == rest;
  }

  lemma {:induction false} ChunkRead(first: seq<byte>, cont: seq<byte>, tail: seq<byte>, n: nat, chunkSize: nat)
    requires |first| == chunkSize < n && |cont| == 1
    ensures var more := PayloadOf(tail, n - chunkSize, chunkSize);
      PayloadOf(first + (cont + tail), n, chunkSize)
      == if more.None? then None else Some((first + more.value.0, more.value.1))
  {
    var d := first + (cont + tail);
    assert d[..chunkSize] == first && d[chunkSize + 1..] == tail;
  }

  /** How many chunk boundaries `n` payload bytes have. */
  function Boundaries(n: nat, chunkSize: nat): nat
    requires chunkSize > 0
  {
    if n <= chunkSize then 0 else 1 + Boundaries(n - chunkSize, chunkSize)
  }

  /** The reader consumes one byte a boundary. */
  lemma {:induction false} PayloadConsumes(d: seq<byte>, n: nat, chunkSize: nat)
    requires chunkSize > 0 && PayloadOf(d, n, chunkSize).Some?
    ensures |PayloadOf(d, n, chunkSize).value.1| == |d| - n - Boundaries(n, chunkSize)
    decreases |d|
  {
    if n > chunkSize {
      PayloadConsumes(d[chunkSize + 1..], n - chunkSize, chunkSize);
    }
  }

  lemma {:induction false} ChunksLength(payload: seq<byte>, chunkSize: nat, cont: seq<byte>)
    requires chunkSize > 0 && |cont| > 1
    ensures |Chunks(payload, chunkSize, cont)| >= |payload| + Boundaries(|payload|, chunkSize)
    ensures |payload| > chunkSize ==>
              |Chunks(payload, chunkSize, cont)| > |payload| + Boundaries(|payload|, chunkSize)
    decreases |payload|
  {
    if |payload| > chunkSize {
      ChunksLength(payload[chunkSize..], chunkSize, cont);
    }
  }

  lemma {:induction false} HeaderRead(m: Message)
    requires InRange(m)
    ensures HeaderOf(0, Type0Header(m))
         == Header(Min(m.timestamp, 0xFF_FFFF), |m.payload|, m.typeId, m.streamId)
  {
    var t, n, sid := U24(Min(m.timestamp, 0xFF_FFFF)), U24(|m.payload|), LeDigits(m.streamId, 4);
    assert Number(t) == Min(m.timestamp, 0xFF_FFFF) && Number(n) == |m.payload| by {
      U24Value(Min(m.timestamp, 0xFF_FFFF));
      U24Value(|m.payload|);
    }
    assert LeNumber(sid) == m.streamId by {
      Pow256Values();
      LeNumberOfDigits(m.streamId, 4);
    }
    HeaderParts(t, n, m.typeId, sid);
  }

  lemma {:induction false} HeaderParts(t: seq<byte>, n: seq<byte>, typeId: byte, sid: seq<byte>)
    requires |t| == |n| == 3 && |sid| == 4
    ensures HeaderOf(0, t + n + [typeId] + sid) == Header(Number(t), Number(n), typeId, LeNumber(sid))
  {
    var h := t + n + [typeId] + sid;
    assert h[..3] == t && h[3..6] == n && h[7..] == sid;
  }

  lemma {:induction false} BasicHeaderRead(csid: nat, h: seq<byte>, rest: seq<byte>, chunkSize: nat)
    requires 2 <= csid <= 65599 && |h| == 11
    ensures MessageOf(BasicHeader(0, csid) + (h + rest), chunkSize) == BodyOf(HeaderOf(0, h), rest, chunkSize)
  {
    var d := BasicHeader(0, csid) + (h + rest);
    var b := |BasicHeader(0, csid)|;
    assert d[0] == BasicHeader(0, csid)[0];
    assert BasicHeaderLength(d[0]) == b && d[0] / 0x40 == 0;
    assert d[b..b + 11] == h && d[b + 11..] == rest;
  }

  lemma {:induction false} BodyRead(m: Message, body: seq<byte>, chunkSize: nat)
    requires InRange(m)
    ensures var h := Header(Min(m.timestamp, 0xFF_FFFF), |m.payload|, m.typeId, m.streamId);
      var payload := PayloadOf(body, |m.payload|, chunkSize);
      BodyOf(h, Extension(m) + body, chunkSize)
      == if payload.None? then None else Some((m.(payload := payload.value.0), payload.value.1))
  {
    var d := Extension(m) + body;
    if m.timestamp >= 0xFF_FFFF {
      U32Value(m.timestamp);
      assert d[..4] == U32(m.timestamp) && d[4..] == body;
    } else {
      assert d == body;
    }
  }

  /** Reading a message off the wire comes down to reassembling its payload. */
  lemma {:induction false} WireRead(m: Message, csid: nat, chunkSize: nat, rest: seq<byte>)
    requires InRange(m) && 2 <= csid <= 65599 && chunkSize > 0
    ensures var payload := PayloadOf(Chunks(m.payload, chunkSize, Continuation(m, csid)) + rest,
                                     |m.payload|, chunkSize);
      MessageOf(Wire(m, csid, chunkSize) + rest, chunkSize)
      == if payload.None? then None else Some((m.(payload := payload.value.0), payload.value.1))
  {
    var body := Chunks(m.payload, chunkSize, Continuation(m, csid)) + rest;
    var h := Type0Header(m);
    HeaderRead(m);
    assert Wire(m, csid, chunkSize) + rest == BasicHeader(0, csid) + (h + (Extension(m) + body));
    BasicHeaderRead(csid, h, Extension(m) + body, chunkSize);
    BodyRead(m, body, chunkSize);
  }

  /** A message comes back whole, with exactly its bytes consumed, if and only if it fits one chunk or its
      continuation headers are a single byte: a stream id below 64 and no extended timestamp. */
  lemma {:induction false} ChunkRoundTrip(m: Message, csid: nat, chunkSize: nat, rest: seq<byte>)
    requires InRange(m) && 2 <= csid <= 65599 && chunkSize > 0
    ensures MessageOf(Wire(m, csid, chunkSize) + rest, chunkSize) == Some((m, rest))
       <==> |m.payload| <= chunkSize || (csid < 64 && m.timestamp < 0xFF_FFFF)
  {
    var cont := Continuation(m, csid);
    var d := Chunks(m.payload, chunkSize, cont) + rest;
    WireRead(m, csid, chunkSize, rest);
    if |m.payload| <= chunkSize || |cont| == 1 {
      PayloadRead(m.payload, chunkSize, cont, rest);
    } else if PayloadOf(d, |m.payload|, chunkSize).Some? {
      PayloadConsumes(d, |m.payload|, chunkSize);
      ChunksLength(m.payload, chunkSize, cont);
    }
  }

  // ----- Shorter message headers -----

  /** Section 5.3.1.2.2: a type-1 header has no stream id. */
  function Type1Header(m: Message): (h: seq<byte>)
    ensures |h| == 7
  {
    U24(Min(m.timestamp, 0xFF_FFFF)) + U24(|m.payload|) + [m.typeId]
  }

  function Type1Wire(m: Message, csid: nat, chunkSize: nat): seq<byte>
    requires 2 <= csid <= 65599 && chunkSize > 0
  {
    BasicHeader(1, csid) + (Type1Header(m) + (Extension(m) + Chunks(m.payload, chunkSize, Continuation(m, csid))))
  }

  lemma {:induction false} ShortHeaderRead(fmt: nat, csid: nat, h: seq<byte>, rest: seq<byte>, chunkSize: nat)
    requires 1 <= fmt < 4 && 2 <= csid <= 65599 && |h| == (if fmt == 1 then 7 else if fmt == 2 then 3 else 0)
    ensures MessageOf(BasicHeader(fmt, csid) + (h + rest), chunkSize) == BodyOf(HeaderOf(fmt, h), rest, chunkSize)
  {
    var d := BasicHeader(fmt, csid) + (h + rest);
    var b := |BasicHeader(fmt, csid)|;
    assert d[0] == BasicHeader(fmt, csid)[0];
    assert BasicHeaderLength(d[0]) == b && d[0] / 0x40 == fmt;
    assert d[b..b + |h|] == h && d[b + |h|..] == rest;
  }

  lemma {:induction false} Type1HeaderRead(m: Message)
    requires InRange(m)
    ensures HeaderOf(1, Type1Header(m)) == Header(Min(m.timestamp, 0xFF_FFFF), |m.payload|, m.typeId, 0)
  {
    var t, n := U24(Min(m.timestamp, 0xFF_FFFF)), U24(|m.payload|);
    assert Number(t) == Min(m.timestamp, 0xFF_FFFF) && Number(n) == |m.payload| by {
      U24Value(Min(m.timestamp, 0xFF_FFFF));
      U24Value(|m.payload|);
    }
    Type1Parts(t, n, m.typeId);
  }

  lemma {:induction false} Type1Parts(t: seq<byte>, n: seq<byte>, typeId: byte)
    requires |t| == |n| == 3
    ensures HeaderOf(1, t + n + [typeId]) == Header(Number(t), Number(n), typeId, 0)
  {
    var h := t + n + [typeId];
    assert h[..3] == t && h[3..6] == n;
  }

  /** A message under a type-1 header comes back whole under the same condition as under a type-0 one, with its
      timestamp field for the timestamp and 0 for the stream. */
  lemma {:induction false} Type1RoundTrip(m: Message, csid: nat, chunkSize: nat, rest: seq<byte>)
    requires InRange(m) && 2 <= csid <= 65599 && chunkSize > 0
    ensures MessageOf(Type1Wire(m, csid, chunkSize) + rest, chunkSize) == Some((m.(streamId := 0), rest))
       <==> |m.payload| <= chunkSize || (csid < 64 && m.timestamp < 0xFF_FFFF)
  {
    var cont := Continuation(m, csid);
    var d := Chunks(m.payload, chunkSize, cont) + rest;
    Type1Read(m, csid, chunkSize, rest, d);
    if |m.payload| <= chunkSize || |cont| == 1 {
      PayloadRead(m.payload, chunkSize, cont, rest);
    } else if PayloadOf(d, |m.payload|, chunkSize).Some? {
      PayloadConsumes(d, |m.payload|, chunkSize);
      ChunksLength(m.payload, chunkSize, cont);
    }
  }

  lemma {:induction false} Type1Read(m: Message, csid: nat, chunkSize: nat, rest: seq<byte>, body: seq<byte>)
    requires InRange(m) && 2 <= csid <= 65599 && chunkSize > 0
    requires body == Chunks(m.payload, chunkSize, Continuation(m, csid)) + rest
    ensures var payload := PayloadOf(body, |m.payload|, chunkSize);
      MessageOf(Type1Wire(m, csid, chunkSize) + rest, chunkSize)
      == if payload.None? then None else Some((m.(streamId := 0, payload := payload.value.0), payload.value.1))
  {
    var h := Type1Header(m);
    Type1HeaderRead(m);
    assert Type1Wire(m, csid, chunkSize) + rest == BasicHeader(1, csid) + (h + (Extension(m) + body));
    ShortHeaderRead(1, csid, h, Extension(m) + body, chunkSize);
    BodyRead(m.(streamId := 0), body, chunkSize);
  }

  /** At the start of a message, headers of type 2 and 3 give an empty message: of the first the time is kept. */
  lemma {:induction false} ShorterHeadersEmpty(timestamp: nat, csid: nat, chunkSize: nat, rest: seq<byte>)
    requires timestamp < 0xFF_FFFF && 2 <= csid <= 65599
    ensures MessageOf(BasicHeader(2, csid) + (U24(timestamp) + rest), chunkSize)
         == Some((Message(0, timestamp, 0, []), rest))
    ensures MessageOf(BasicHeader(3, csid) + ([] + rest), chunkSize) == Some((Message(0, 0, 0, []), rest))
  {
    U24Value(timestamp);
    ShortHeaderRead(2, csid, U24(timestamp), rest, chunkSize);
    ShortHeaderRead(3, csid, [], rest, chunkSize);
  }

  // ----- Runs of messages -----

  function WireAll(ms: seq<Message>, csid: nat, chunkSize: nat): seq<byte>
    requires 2 <= csid <= 65599 && chunkSize > 0
  {
    if ms == [] then [] else Wire(ms[0], csid, chunkSize) + WireAll(ms[1..], csid, chunkSize)
  }

  /** Reads `n` messages one after the other. */
  function MessagesOf(d: seq<byte>, chunkSize: nat, n: nat): Option<(seq<Message>, seq<byte>)>
    decreases n
  {
    if n == 0 then Some(([], d))
    else
      var first := MessageOf(d, chunkSize);
      if first.None? then None
      else
        var more := MessagesOf(first.value.1, chunkSize, n - 1);
        if more.None? then None else Some(([first.value.0] + more.value.0, more.value.1))
  }

  /** A whole connection phase at one chunk size is read back message by message. */
  lemma {:induction false} MessagesRoundTrip(ms: seq<Message>, csid: nat, chunkSize: nat, rest: seq<byte>)
    requires 2 <= csid < 64 && chunkSize > 0
    requires forall i :: 0 <= i < |ms| ==> InRange(ms[i]) && ms[i].timestamp < 0xFF_FFFF
    ensures MessagesOf(WireAll(ms, csid, chunkSize) + rest, chunkSize, |ms|) == Some((ms, rest))
  {
    if ms == [] {
      assert WireAll(ms, csid, chunkSize) + rest == rest;
    } else {
      var tail := WireAll(ms[1..], csid, chunkSize) + rest;
      assert WireAll(ms, csid, chunkSize) + rest == Wire(ms[0], csid, chunkSize) + tail;
      ChunkRoundTrip(ms[0], csid, chunkSize, tail);
      MessagesRoundTrip(ms[1..], csid, chunkSize, rest);
      assert ms == [ms[0]] + ms[1..];
    }
  }

  /** At chunk size zero, which a peer may ask for, no message with a payload is ever completed. */
  lemma {:induction false} ZeroChunkSizeStalls(d: seq<byte>, remaining: nat)
    requires remaining > 0
    ensures PayloadOf(d, remaining, 0) == None
    decreases |d|
  {
    if d != [] {
      ZeroChunkSizeStalls(d[1..], remaining);
    }
  }

  // ----- The server's replies -----

  function ReplyStream(typeId: byte): nat {
    if typeId == 20 then 3 else 2
  }

  function Reply(typeId: byte, streamId: nat, data: seq<byte>): seq<byte> {
    [ReplyStream(typeId)] + (ReplyHeader(typeId, streamId, |data|) + data)
  }

  /** A type-0 header with timestamp zero and the low 24 bits of the length. */
  function ReplyHeader(typeId: byte, streamId: nat, length: nat): (h: seq<byte>)
    ensures |h| == 11
  {
    U24(0) + U24(length) + [typeId] + LeDigits(streamId, 4)
  }

  /** `write_rtmp_message`. */
  method WriteRtmpMessage(buf: BytesMut, typeId: byte, streamId: nat, data: seq<byte>)
    modifies buf
    ensures buf.data == old(buf.data) + Reply(typeId, streamId, data)
  {
    buf.PutU8(ReplyStream(typeId));
    WriteReplyHeader(buf, typeId, streamId, |data|);
    buf.PutSlice(data);
    Regroup(old(buf.data), [ReplyStream(typeId)], ReplyHeader(typeId, streamId, |data|), data, [], []);
  }

  method WriteReplyHeader(buf: BytesMut, typeId: byte, streamId: nat, length: nat)
    modifies buf
    ensures buf.data == old(buf.data) + ReplyHeader(typeId, streamId, length)
  {
    ZeroTimestamp();
    buf.PutU8(0);
    buf.PutU8(0);
    buf.PutU8(0);
    assert buf.data == old(buf.data) + U24(0);
    buf.PutSlice(U24(length));
    buf.PutU8(typeId);
    buf.PutSlice(LeDigits(streamId, 4));
    Regroup(old(buf.data), U24(0), U24(length), [typeId], LeDigits(streamId, 4), []);
  }

  lemma {:induction false} ZeroTimestamp()
    ensures U24(0) == [0, 0, 0]
  {
    assert Digits(0, 0) == [];
    assert Digits(0, 1) == [0];
    assert Digits(0, 2) == [0, 0];
  }

  /** As much of a length as its 24-bit field keeps. */
  function Low24(n: nat): (r: nat)
    ensures r <= n && r < 0x100_0000
    ensures n < 0x100_0000 ==> r == n
  {
    n % 0x100_0000
  }

  /** A reply is a chunk basic header, the type-0 header of as much of the payload as the length field counts,
      and the whole payload. */
  lemma {:induction false} ReplyParts(typeId: byte, streamId: nat, data: seq<byte>)
    ensures var m := Message(typeId, 0, streamId, data[..Low24(|data|)]);
      Reply(typeId, streamId, data) == BasicHeader(0, ReplyStream(typeId)) + (Type0Header(m) + data)
  {
    U24Congruent(|data|);
    SameHeader(Message(typeId, 0, streamId, data[..Low24(|data|)]), |data|);
  }

  lemma {:induction false} SameHeader(m: Message, length: nat)
    requires m.timestamp == 0 && U24(length) == U24(|m.payload|)
    ensures ReplyHeader(m.typeId, m.streamId, length) == Type0Header(m)
  {
    assert Min(m.timestamp, 0xFF_FFFF) == 0;
  }

  lemma {:induction false} Regroup(a: seq<byte>, b: seq<byte>, c: seq<byte>, d: seq<byte>, e: seq<byte>, f: seq<byte>)
    ensures a + b + c + d == a + (b + (c + d))
    ensures a + b + c + d + e == a + (b + c + d + e)
  {
  }

  /** A reply that fits one chunk is what the chunk format prescribes for that message: a command on chunk stream 3,
      anything else on chunk stream 2, which section 5.4 of RTMP 1.0 reserves for control messages. */
  lemma {:induction false} ReplyIsSingleChunk(typeId: byte, streamId: nat, data: seq<byte>, chunkSize: nat)
    requires |data| <= chunkSize && 0 < chunkSize < 0x100_0000
    ensures Reply(typeId, streamId, data)
         == Wire(Message(typeId, 0, streamId, data), if typeId == 20 then 3 else 2, chunkSize)
  {
    var m := Message(typeId, 0, streamId, data);
    SameHeader(m, |data|);
    SingleChunk(m, ReplyStream(typeId), chunkSize, Type0Header(m));
  }

  lemma {:induction false} SingleChunk(m: Message, csid: nat, chunkSize: nat, h: seq<byte>)
    requires 2 <= csid < 64 && |m.payload| <= chunkSize && chunkSize > 0 && m.timestamp < 0xFF_FFFF
    requires h == Type0Header(m)
    ensures Wire(m, csid, chunkSize) == BasicHeader(0, csid) + (h + m.payload)
  {
    assert [] + m.payload == m.payload;
  }

  /** Reading a reply comes down to reassembling the payload its length field counts. */
  lemma {:induction false} ReplyRead(typeId: byte, streamId: nat, data: seq<byte>, chunkSize: nat, rest: seq<byte>)
    requires streamId < TWO_TO_32
    ensures var payload := PayloadOf(data + rest, Low24(|data|), chunkSize);
      MessageOf(Reply(typeId, streamId, data) + rest, chunkSize)
      == if payload.None? then None
         else Some((Message(typeId, 0, streamId, payload.value.0), payload.value.1))
  {
    var m := Message(typeId, 0, streamId, data[..Low24(|data|)]);
    var h := Type0Header(m);
    assert HeaderOf(0, h) == Header(0, |m.payload|, typeId, streamId) by {
      HeaderRead(m);
    }
    assert Reply(typeId, streamId, data) == BasicHeader(0, ReplyStream(typeId)) + (h + data) by {
      ReplyParts(typeId, streamId, data);
    }
    ReplyReadFrom(h, ReplyStream(typeId), m, data, chunkSize, rest);
  }

  lemma {:induction false} ReplyReadFrom(
    h: seq<byte>, csid: nat, m: Message, data: seq<byte>, chunkSize: nat, rest: seq<byte>)
    requires |h| == 11 && HeaderOf(0, h) == Header(0, |m.payload|, m.typeId, m.streamId)
    requires 2 <= csid < 64 && InRange(m) && m.timestamp == 0
    ensures var payload := PayloadOf(data + rest, |m.payload|, chunkSize);
      MessageOf(BasicHeader(0, csid) + (h + data) + rest, chunkSize)
      == if payload.None? then None else Some((m.(payload := payload.value.0), payload.value.1))
  {
    assert BasicHeader(0, csid) + (h + data) + rest == BasicHeader(0, csid) + (h + (data + rest));
    BasicHeaderRead(csid, h, data + rest, chunkSize);
    BodyRead(m, data + rest, chunkSize);
    assert [] + (data + rest) == data + rest;
  }

  /** A peer reads a reply back if and only if it fits its chunk size and the 24-bit length field: the writer
      never starts a second chunk. */
  lemma {:induction false} ReplyRoundTrip(typeId: byte, streamId: nat, data: seq<byte>, chunkSize: nat, rest: seq<byte>)
    requires chunkSize > 0 && streamId < TWO_TO_32
    ensures MessageOf(Reply(typeId, streamId, data) + rest, chunkSize)
            == Some((Message(typeId, 0, streamId, data), rest))
       <==> |data| <= chunkSize && |data| < 0x100_0000
  {
    ReplyRead(typeId, streamId, data, chunkSize, rest);
    var cut := Low24(|data|);
    if |data| < 0x100_0000 && |data| <= chunkSize {
      LastChunkRead(data, chunkSize, rest);
    } else if PayloadOf(data + rest, cut, chunkSize).Some? {
      PayloadConsumes(data + rest, cut, chunkSize);
      PayloadLength(data + rest, cut, chunkSize);
    }
  }

  lemma {:induction false} U24Congruent(n: nat)
    ensures U24(n) == U24(Low24(n))
  {
    NumberOfDigits(n, 3);
    Pow256Values();
    DigitsOfNumber(U24(n));
  }

  lemma {:induction false} PayloadLength(d: seq<byte>, n: nat, chunkSize: nat)
    requires PayloadOf(d, n, chunkSize).Some?
    ensures |PayloadOf(d, n, chunkSize).value.0| == n
    decreases |d|
  {
    if n > chunkSize {
      PayloadLength(d[chunkSize + 1..], n - chunkSize, chunkSize);
    }
  }
}
