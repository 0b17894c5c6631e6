/**
  The protobuf byte stream: a varint length, an RpcHeader, then the body whose
  size the header gives. The client's send loop writes it in arbitrary pieces;
  the server's OnMessage decodes whatever has arrived.
 */
module ProtobufWire {
  import opened Common
  import opened Socket
  import HeaderCodec
  import Varint

  type Header = HeaderCodec.Header

  const MAGIC: nat := 0x6b72_7063
  const VERSION: nat := 1
  const REQUEST := 1
  const PING := 3
  const PONG := 4

  datatype Message = Message(header: Header, body: seq<Byte>)

  // ---------------------------------------------------------------- sending

  function Frame(m: Message): seq<Byte> {
    var h := HeaderCodec.Serialize(m.header);
    Varint.Encode(|h|) + (h + m.body)
  }

  function Stream(ms: seq<Message>): seq<Byte> {
    if ms == [] then [] else Frame(ms[0]) + Stream(ms[1..])
  }

  function SegmentLength(idx: nat, h0: seq<Byte>, h1: seq<Byte>, b: seq<Byte>): nat {
    if idx == 0 then |h0| else if idx == 1 then |h1| else |b|
  }

  /** Bytes before segment idx. */
  function SegmentStart(idx: nat, h0: seq<Byte>, h1: seq<Byte>, b: seq<Byte>): nat {
    if idx == 0 then 0 else if idx == 1 then |h0| else if idx == 2 then |h0| + |h1| else |h0| + |h1| + |b|
  }

  /** The inner loop of SendLoop: where writing stands after `sent` more bytes. */
  method Advance(idx0: nat, offset0: nat, sent0: nat, h0: seq<Byte>, h1: seq<Byte>, b: seq<Byte>)
    returns (idx: nat, offset: nat)
    requires idx0 < 3 && h0 != [] && h1 != [] && offset0 <= SegmentLength(idx0, h0, h1, b)
    requires SegmentStart(idx0, h0, h1, b) + offset0 + sent0 <= |h0| + |h1| + |b|
    requires sent0 > 0 && (offset0 < SegmentLength(idx0, h0, h1, b))
    ensures idx <= 3 && SegmentStart(idx, h0, h1, b) + offset == SegmentStart(idx0, h0, h1, b) + offset0 + sent0
    ensures idx < 3 ==> offset < SegmentLength(idx, h0, h1, b) || (idx == 2 && b == [] && offset == 0)
    ensures idx == 3 ==> offset == 0 && b != []
  {
    idx, offset := idx0, offset0;
    var sent: nat := sent0;
    while sent > 0 && idx < 3
      invariant idx <= 3 && sent <= sent0
      invariant SegmentStart(idx, h0, h1, b) + offset + sent == SegmentStart(idx0, h0, h1, b) + offset0 + sent0
      invariant idx < 3 ==> offset < SegmentLength(idx, h0, h1, b) || (idx == 2 && b == [] && offset == 0)
      invariant idx == 3 ==> offset == 0 && b != []
      decreases sent, 3 - idx
    {
      var remaining := SegmentLength(idx, h0, h1, b) - offset;
      if sent < remaining {
        offset := offset + sent;
        sent := 0;
      } else {
        sent := sent - remaining;
        idx, offset := idx + 1, 0;
      }
    }
  }

  /**
    One task of SendLoop. With a body it succeeds exactly when everything was
    written. Without one it never does: once header and length are out the loop
    asks to write nothing, takes the answer 0 for a closed connection and closes.
   */
  method SendOne(sock: Socket, h0: seq<Byte>, h1: seq<Byte>, b: seq<Byte>) returns (ok: bool)
    requires h0 != [] && h1 != []
    modifies sock
    ensures old(sock.sent) <= sock.sent <= old(sock.sent) + (h0 + (h1 + b))
    ensures ok <==> b != [] && sock.sent == old(sock.sent) + (h0 + (h1 + b))
    ensures Healthy(old(sock.script)) && Accepts(old(sock.script)) >= |h0| + |h1| + |b| ==>
      && sock.sent == old(sock.sent) + (h0 + (h1 + b)) && Healthy(sock.script)
      && (b != [] ==> Accepts(sock.script) >= Accepts(old(sock.script)) - |h0| - |h1| - |b|)
  {
    hide Accepts, Healthy, Concat;
    var idx: nat, offset: nat := 0, 0;
    ghost var all, before, script, done := h0 + (h1 + b), sock.sent, sock.script, 0;
    ok := true;
    while idx < 3
      invariant idx <= 3 && ok
      invariant idx < 3 ==> offset < SegmentLength(idx, h0, h1, b) || (idx == 2 && b == [] && offset == 0)
      invariant idx == 3 ==> offset == 0 && b != []
      invariant done == SegmentStart(idx, h0, h1, b) + offset && done <= |all|
      invariant sock.sent == before + all[..done]
      invariant Healthy(script) ==> Healthy(sock.script) && (done < |all| || b != [] ==> Accepts(sock.script) + done >= Accepts(script))
      decreases |sock.script|
    {
      var iov := if idx == 0 then [h0[offset..], h1, b] else if idx == 1 then [h1[offset..], b] else [b[offset..]];
      IovIsRest(idx, offset, h0, h1, b);
      var n, interrupted := sock.Writev(iov);
      if n < 0 {
        if interrupted {
          continue;
        }
        ok := false;
        break;
      }
      if n == 0 {
        ok := false;
        break;
      }
      WriteMore(before, all, done, n);
      done := done + n;
      idx, offset := Advance(idx, offset, n, h0, h1, b);
    }
    WrittenPrefix(before, all, done);
  }

  lemma IovIsRest(idx: nat, offset: nat, h0: seq<Byte>, h1: seq<Byte>, b: seq<Byte>)
    requires idx < 3 && offset <= SegmentLength(idx, h0, h1, b)
    ensures Concat(if idx == 0 then [h0[offset..], h1, b] else if idx == 1 then [h1[offset..], b] else [b[offset..]])
         == (h0 + (h1 + b))[SegmentStart(idx, h0, h1, b) + offset..]
  {
    if idx == 0 {
      ConcatTwo(h1, b);
      assert [h0[offset..], h1, b][1..] == [h1, b];
    } else if idx == 1 {
      ConcatTwo(h1[offset..], b);
    } else {
      ConcatOne(b[offset..]);
    }
  }

  // ---------------------------------------------------------------- decoding

  datatype Decoded = NeedMore | Malformed | Complete(message: Message, size: nat)

  /** What OnMessage makes of the bytes at the front of its buffer. */
  function DecodeFront(s: seq<Byte>): (d: Decoded)
    ensures d.Complete? ==> 0 < d.size <= |s|
  {
    match Varint.Decode32(s)
    case None => NeedMore
    case Some(r) =>
      if |s| < r.size + r.value then NeedMore
      else if r.value > INT32_MAX then Malformed
      else DecodeBody(HeaderCodec.Parse(HeaderCodec.EMPTY, s[r.size..r.size + r.value]), s, r.size + r.value)
  }

  function DecodeBody(parsed: Option<Header>, s: seq<Byte>, at: nat): (d: Decoded)
    requires 0 < at <= |s|
    ensures d.Complete? ==> 0 < d.size <= |s|
  {
    match parsed
    case None => Malformed
    case Some(h) =>
      if h.magic != MAGIC || h.version != VERSION then Malformed
      else if |s| < at + h.bodySize then NeedMore
      else if h.bodySize > INT32_MAX then Malformed
      else Complete(Message(h, s[at..at + h.bodySize]), at + h.bodySize)
  }

  /** Messages taken out of the bytes, what is left, and whether the connection was closed over them. */
  datatype Progress = Progress(messages: seq<Message>, rest: seq<Byte>, closed: bool)

  predicate Supported(h: Header) {
    h.msgType == PING || h.msgType == PONG || h.msgType == REQUEST
  }

  function Process(s: seq<Byte>): Progress
    decreases |s|
  {
    match DecodeFront(s)
    case NeedMore => Progress([], s, false)
    case Malformed => Progress([], s, true)
    case Complete(m, k) =>
      if !Supported(m.header) then Progress([m], s[k..], true)
      else
        var p := Process(s[k..]);
        Progress([m] + p.messages, p.rest, p.closed)
  }

  /** More bytes after some were processed; a closed connection takes no more. */
  function Resume(p: Progress, chunk: seq<Byte>): Progress {
    if p.closed then p
    else
      var q := Process(p.rest + chunk);
      Progress(p.messages + q.messages, q.rest, q.closed)
  }

  function Deliver(chunks: seq<seq<Byte>>): Progress {
    if chunks == [] then Progress([], [], false)
    else Resume(Deliver(chunks[..|chunks| - 1]), chunks[|chunks| - 1])
  }

  /** Same messages and same verdict; the same remainder too unless closed. */
  predicate SameOutcome(p: Progress, q: Progress) {
    p.messages == q.messages && p.closed == q.closed && (!p.closed ==> p.rest == q.rest)
  }

  // ---------------------------------------------------------------- any chunking

  /** A decision about the front of the buffer does not change when more bytes arrive. */
  lemma DecodeFrontExtend(s: seq<Byte>, more: seq<Byte>)
    requires !DecodeFront(s).NeedMore?
    ensures DecodeFront(s + more) == DecodeFront(s)
  {
    hide Varint.Decode, HeaderCodec.Parse;
    Varint.DecodeExtend(s, more, Varint.MAX_VARINT);
    var r := Varint.Decode32(s).value;
    var at := r.size + r.value;
    assert (s + more)[r.size..at] == s[r.size..at];
    var parsed := HeaderCodec.Parse(HeaderCodec.EMPTY, s[r.size..at]);
    if r.value <= INT32_MAX && parsed.Some? && parsed.value.bodySize <= |s| - at {
      assert (s + more)[at..at + parsed.value.bodySize] == s[at..at + parsed.value.bodySize];
    }
  }

  lemma {:induction false} ProcessAppend(a: seq<Byte>, b: seq<Byte>)
    ensures SameOutcome(Process(a + b), Resume(Process(a), b))
    decreases |a|
  {
    hide DecodeFront, Supported;
    match DecodeFront(a)
    case NeedMore =>
    case Malformed => DecodeFrontExtend(a, b);
    case Complete(m, k) =>
      DecodeFrontExtend(a, b);
      assert (a + b)[k..] == a[k..] + b;
      if Supported(m.header) {
        ProcessAppend(a[k..], b);
        ResumeOneMore(m, Process(a[k..]), b);
      }
  }

  /** A message in front does not matter for what more bytes do. */
  lemma ResumeOneMore(m: Message, p: Progress, b: seq<Byte>)
    ensures var q := Resume(p, b);
            Resume(p.(messages := [m] + p.messages), b) == q.(messages := [m] + q.messages)
  {
    hide Process;
    var q := Process(p.rest + b);
    assert [m] + (p.messages + q.messages) == [m] + p.messages + q.messages;
  }

  /**
    For any bytes, malformed ones included, the messages passed on, whether the
    connection is closed and otherwise the remainder depend on the bytes alone,
    not on how they were split into deliveries.
   */
  lemma {:induction false} ChunkIndependence(chunks: seq<seq<Byte>>)
    ensures SameOutcome(Deliver(chunks), Process(Concat(chunks)))
  {
    hide DecodeFront;
    if chunks == [] {
      EmptyNeedsMore();
    } else {
      var init, last := chunks[..|chunks| - 1], chunks[|chunks| - 1];
      ChunkIndependence(init);
      ProcessAppend(Concat(init), last);
      ConcatAppend(init, [last]);
      ConcatOne(last);
      assert chunks == init + [last];
    }
  }

  // ---------------------------------------------------------------- what was sent is decoded

  /** The messages the client builds: its magic and version, and the size of its body. */
  predicate WellFormed(m: Message) {
    && m.header.magic == MAGIC && m.header.version == VERSION && Supported(m.header)
    && m.header.bodySize == |m.body| && |m.body| <= INT32_MAX
    && |HeaderCodec.Serialize(m.header)| <= INT32_MAX
    && |m.header.serviceName| <= HeaderCodec.MAX_FIELD && |m.header.methodName| <= HeaderCodec.MAX_FIELD
  }

  lemma FrameDecodes(m: Message, rest: seq<Byte>)
    requires WellFormed(m)
    ensures DecodeFront(Frame(m) + rest) == Complete(m, |Frame(m)|)
    ensures (Frame(m) + rest)[|Frame(m)|..] == rest
  {
    hide HeaderCodec.Serialize, HeaderCodec.Parse, Varint.Encode;
    var h := HeaderCodec.Serialize(m.header);
    var length := Varint.Encode(|h|);
    var s := Frame(m) + rest;
    assert s == length + (h + (m.body + rest));
    Varint.DecodeEncode32(|h|, h + (m.body + rest));
    Middle(length, h, m.body + rest);
    HeaderCodec.RoundTrip(m.header);
    assert s == (length + h) + (m.body + rest);
    Middle(length + h, m.body, rest);
  }

  lemma {:induction false} StreamDecodes(ms: seq<Message>)
    requires forall m :: m in ms ==> WellFormed(m)
    ensures Process(Stream(ms)) == Progress(ms, [], false)
  {
    hide DecodeFront, Frame, Process;
    if ms == [] {
      EmptyNeedsMore();
      ProcessIncomplete([]);
    } else {
      FrameDecodes(ms[0], Stream(ms[1..]));
      StreamDecodes(ms[1..]);
      ProcessComplete(Stream(ms), ms[0], |Frame(ms[0])|);
      HeadTail(ms);
    }
  }

  /**
    What the server makes of any header the client can serialise: a foreign magic
    or version is malformed, whatever follows; otherwise the message is complete
    with as many body bytes as the header says, and waited for until then.
   */
  lemma HeaderDecides(h: Header, rest: seq<Byte>)
    requires |HeaderCodec.Serialize(h)| <= INT32_MAX
    requires |h.serviceName| <= HeaderCodec.MAX_FIELD && |h.methodName| <= HeaderCodec.MAX_FIELD
    ensures var text := HeaderCodec.Serialize(h); var length := Varint.Encode(|text|);
      DecodeFront(length + (text + rest)) ==
        if h.magic != 0x6b72_7063 || h.version != 1 then Malformed
        else if |rest| < h.bodySize then NeedMore
        else if h.bodySize > INT32_MAX then Malformed
        else Complete(Message(h, rest[..h.bodySize]), |length| + |text| + h.bodySize)
  {
    hide HeaderCodec.Serialize, HeaderCodec.Parse, Varint.Encode;
    var text := HeaderCodec.Serialize(h);
    var length := Varint.Encode(|text|);
    var s := length + (text + rest);
    Varint.DecodeEncode32(|text|, text + rest);
    Middle(length, text, rest);
    HeaderCodec.RoundTrip(h);
    assert |s| == |length| + |text| + |rest|;
    if h.bodySize <= |rest| {
      assert s == (length + text) + (rest[..h.bodySize] + rest[h.bodySize..]);
      Middle(length + text, rest[..h.bodySize], rest[h.bodySize..]);
    }
  }

  /** A first frame with a foreign magic or version closes the connection, and nothing is passed on. */
  lemma ForeignHeaderCloses(h: Header, rest: seq<Byte>)
    requires |HeaderCodec.Serialize(h)| <= INT32_MAX
    requires |h.serviceName| <= HeaderCodec.MAX_FIELD && |h.methodName| <= HeaderCodec.MAX_FIELD
    requires h.magic != 0x6b72_7063 || h.version != 1
    ensures var text := HeaderCodec.Serialize(h); var s := Varint.Encode(|text|) + (text + rest);
      Process(s) == Progress([], s, true)
  {
    hide HeaderCodec.Serialize, Varint.Encode, DecodeFront;
    HeaderDecides(h, rest);
  }

  /** A well-formed frame of a request or heartbeat is passed on and decoding continues behind it; any other type is the last. */
  lemma TypeDecides(m: Message, rest: seq<Byte>)
    requires |HeaderCodec.Serialize(m.header)| <= INT32_MAX
    requires |m.header.serviceName| <= HeaderCodec.MAX_FIELD && |m.header.methodName| <= HeaderCodec.MAX_FIELD
    requires m.header.magic == 0x6b72_7063 && m.header.version == 1 && m.header.bodySize == |m.body| && |m.body| <= INT32_MAX
    ensures var p := Process(rest);
      Process(Frame(m) + rest) ==
        if m.header.msgType == 1 || m.header.msgType == 3 || m.header.msgType == 4
        then Progress([m] + p.messages, p.rest, p.closed) else Progress([m], rest, true)
  {
    hide HeaderCodec.Serialize, Varint.Encode, DecodeFront;
    var text := HeaderCodec.Serialize(m.header);
    var length := Varint.Encode(|text|);
    HeaderDecides(m.header, m.body + rest);
    assert Frame(m) + rest == length + (text + (m.body + rest));
    assert (m.body + rest)[..|m.body|] == m.body;
    assert (Frame(m) + rest)[|Frame(m)|..] == rest;
  }

  predicate OurFrame(m: Message) {
    m.header.magic == 0x6b72_7063 && m.header.version == 1 && |m.body| == m.header.bodySize
  }

  predicate RequestOrHeartbeat(m: Message) {
    m.header.msgType == 1 || m.header.msgType == 3 || m.header.msgType == 4
  }

  lemma CompleteIsOurs(s: seq<Byte>)
    requires DecodeFront(s).Complete?
    ensures OurFrame(DecodeFront(s).message)
  {
    hide HeaderCodec.Parse, Varint.Decode;
  }

  ghost predicate AllValid(p: Progress) {
    && (forall m :: m in p.messages ==> OurFrame(m))
    && forall i :: 0 <= i < |p.messages| && (i < |p.messages| - 1 || !p.closed) ==> RequestOrHeartbeat(p.messages[i])
  }

  lemma OneMoreValid(m: Message, p: Progress)
    requires OurFrame(m) && RequestOrHeartbeat(m) && AllValid(p)
    ensures AllValid(Progress([m] + p.messages, p.rest, p.closed))
  {
    hide OurFrame, RequestOrHeartbeat;
    var all := [m] + p.messages;
    forall i | 0 <= i < |all| && (i < |all| - 1 || !p.closed) ensures RequestOrHeartbeat(all[i]) {
      if i > 0 {
        assert all[i] == p.messages[i - 1];
      }
    }
  }

  /**
    Every message passed on, from any bytes, has the protocol's magic and version
    and the body size it announces; all are requests or heartbeats, but for a last
    one of another type, which closes the connection.
   */
  lemma {:induction false} PassedOnAreValid(s: seq<Byte>)
    ensures AllValid(Process(s))
    decreases |s|
  {
    hide DecodeFront, OurFrame;
    match DecodeFront(s)
    case NeedMore =>
    case Malformed =>
    case Complete(m, k) =>
      CompleteIsOurs(s);
      if Supported(m.header) {
        PassedOnAreValid(s[k..]);
        OneMoreValid(m, Process(s[k..]));
      }
  }

  lemma ProcessIncomplete(s: seq<Byte>)
    requires DecodeFront(s).NeedMore?
    ensures Process(s) == Progress([], s, false)
  {
  }

  lemma ProcessComplete(s: seq<Byte>, m: Message, k: nat)
    requires k <= |s| && DecodeFront(s) == Complete(m, k) && Supported(m.header)
    ensures var p := Process(s[k..]); Process(s) == Progress([m] + p.messages, p.rest, p.closed)
  {
  }

  lemma EmptyNeedsMore()
    ensures DecodeFront([]) == NeedMore
  {
  }

  /**
    End to end: any part of the sent stream, delivered in any chunks, decodes to
    the first messages in order, never closes the connection, and gives all of
    them once every byte arrived.
   */
  lemma {:induction false} EndToEnd(ms: seq<Message>, chunks: seq<seq<Byte>>)
    requires forall m :: m in ms ==> WellFormed(m)
    requires Concat(chunks) <= Stream(ms)
    ensures Deliver(chunks).messages <= ms && !Deliver(chunks).closed
    ensures Concat(chunks) == Stream(ms) ==> Deliver(chunks) == Progress(ms, [], false)
  {
    hide DecodeFront, Stream, Process;
    var arrived := Concat(chunks);
    ChunkIndependence(chunks);
    StreamDecodes(ms);
    ProcessAppend(arrived, Stream(ms)[|arrived|..]);
    assert arrived + Stream(ms)[|arrived|..] == Stream(ms);
  }

  /** SendLoop on one connection: true once every message is out. An empty body ends the run. */
  method SendQueue(sock: Socket, ms: seq<Message>) returns (ok: bool)
    requires forall m :: m in ms ==> m.header.magic != 0
    modifies sock
    ensures old(sock.sent) <= sock.sent <= old(sock.sent) + Stream(ms)
    ensures ok ==> sock.sent == old(sock.sent) + Stream(ms) && forall m :: m in ms ==> m.body != []
    ensures Healthy(old(sock.script)) && Accepts(old(sock.script)) >= |Stream(ms)| ==>
      (ok <==> forall m :: m in ms ==> m.body != [])
  {
    hide HeaderCodec.Serialize, Accepts, Varint.Encode;
    ghost var before := sock.sent;
    var i := 0;
    assert ms[..0] == [];
    while i < |ms|
      invariant 0 <= i <= |ms|
      invariant sock.sent == before + Stream(ms[..i])
      invariant forall j :: 0 <= j < i ==> ms[j].body != []
      invariant Healthy(old(sock.script)) && Accepts(old(sock.script)) >= |Stream(ms)| ==>
        Healthy(sock.script) && Accepts(sock.script) >= |Stream(ms)| - |Stream(ms[..i])|
    {
      SplitStream(ms, i);
      ExtendStream(ms, i);
      ghost var done := Stream(ms[..i]);
      var h := HeaderCodec.Serialize(ms[i].header);
      HeaderNotEmpty(ms[i].header);
      var one := SendOne(sock, Varint.Encode(|h|), h, ms[i].body);
      assert Frame(ms[i]) == Varint.Encode(|h|) + (h + ms[i].body);
      if !one {
        PrefixInside(before, done, Frame(ms[i]), Stream(ms[i + 1..]), sock.sent);
        return false;
      }
      i := i + 1;
    }
    assert ms[..i] == ms;
    ok := true;
  }

  lemma HeaderNotEmpty(h: Header)
    requires h.magic != 0
    ensures HeaderCodec.Serialize(h) != []
  {
    assert |HeaderCodec.VarintField(8, h.magic)| > 0;
  }

  lemma {:induction false} StreamAppend(xs: seq<Message>, ys: seq<Message>)
    ensures Stream(xs + ys) == Stream(xs) + Stream(ys)
  {
    hide Frame;
    if xs == [] {
      assert xs + ys == ys;
    } else {
      StreamAppend(xs[1..], ys);
      DropAppend(xs, ys, 1);
      Assoc(Frame(xs[0]), Stream(xs[1..]), Stream(ys));
    }
  }

  lemma StreamOne(m: Message)
    ensures Stream([m]) == Frame(m)
  {
  }

  lemma StreamCons(ms: seq<Message>)
    requires ms != []
    ensures Stream(ms) == Frame(ms[0]) + Stream(ms[1..])
  {
  }

  lemma SplitStream(ms: seq<Message>, i: nat)
    requires i < |ms|
    ensures Stream(ms) == Stream(ms[..i]) + (Frame(ms[i]) + Stream(ms[i + 1..]))
  {
    hide Frame, Stream;
    StreamCons(ms[i..]);
    StreamAppend(ms[..i], ms[i..]);
    assert ms[..i] + ms[i..] == ms && ms[i..][1..] == ms[i + 1..];
  }

  lemma ExtendStream(ms: seq<Message>, i: nat)
    requires i < |ms|
    ensures Stream(ms[..i + 1]) == Stream(ms[..i]) + Frame(ms[i])
  {
    StreamOne(ms[i]);
    hide Frame, Stream;
    StreamAppend(ms[..i], [ms[i]]);
    PrefixNext(ms, i);
  }

  // ---------------------------------------------------------------- the server's connection

  class ServerConnection {
    var buffer: seq<Byte>
    var messages: seq<Message>
    var closed: bool

    constructor ()
      ensures buffer == [] && messages == [] && !closed
    {
      buffer, messages, closed := [], [], false;
    }

    /** OnMessage up to and including the message type check; `messages` is what it goes on with. */
    method OnMessage(chunk: seq<Byte>)
      requires !closed
      modifies this
      ensures Progress(messages, buffer, closed) == Resume(Progress(old(messages), old(buffer), false), chunk)
    {
      hide Varint.Decode32, HeaderCodec.Parse;
      buffer := buffer + chunk;
      ghost var all := Process(buffer);
      while true
        invariant !closed
        invariant messages + Process(buffer).messages == old(messages) + all.messages
        invariant Process(buffer).rest == all.rest && Process(buffer).closed == all.closed
        decreases |buffer|
      {
        if |buffer| == 0 {
          EmptyNeedsMore();
          break;
        }
        var headerSize := Varint.Decode32(buffer);
        if headerSize.None? {
          break;
        }
        var at := headerSize.value.size + headerSize.value.value;
        if |buffer| < at {
          break;
        }
        if headerSize.value.value > INT32_MAX {
          closed := true;
          return;
        }
        var header := HeaderCodec.Parse(HeaderCodec.EMPTY, buffer[headerSize.value.size..at]);
        if header.None? || header.value.magic != MAGIC || header.value.version != VERSION {
          closed := true;
          return;
        }
        var required := at + header.value.bodySize;
        if |buffer| < required {
          break;
        }
        if header.value.bodySize > INT32_MAX {
          closed := true;
          return;
        }
        var m := Message(header.value, buffer[at..required]);
        assert DecodeFront(buffer) == Complete(m, required);
        ghost var later := Process(buffer[required..]).messages;
        assert messages + ([m] + later) == messages + [m] + later;
        buffer := buffer[required..];
        messages := messages + [m];
        if m.header.msgType == PING || m.header.msgType == PONG {
          continue;
        }
        if m.header.msgType != REQUEST {
          closed := true;
          return;
        }
      }
    }
  }
}
