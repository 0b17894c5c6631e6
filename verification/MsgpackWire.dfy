/**
  The msgpack byte stream: frames are a 4-byte big-endian length and a body.
  The send loop writes them in arbitrary pieces, the receiving side collects them
  from arbitrary pieces.
 */
module MsgpackWire {
  import opened Common
  import opened Socket

  // ---------------------------------------------------------------- frames

  /** htonl of the length cast to 32 bits. */
  function BuildHeader(body: seq<Byte>): (h: seq<Byte>)
    ensures |h| == 4
  {
    var n := |body| % TWO_32;
    [n / 0x100_0000, n / 0x1_0000 % 256, n / 256 % 256, n % 256]
  }

  function Ntohl(h: seq<Byte>): (n: nat)
    requires |h| >= 4
    ensures n < TWO_32
  {
    var a: nat, b: nat, c: nat, d: nat := h[0], h[1], h[2], h[3];
    a * 0x100_0000 + b * 0x1_0000 + c * 256 + d
  }

  function Frame(body: seq<Byte>): seq<Byte> {
    BuildHeader(body) + body
  }

  function Stream(bodies: seq<seq<Byte>>): seq<Byte> {
    if bodies == [] then [] else Frame(bodies[0]) + Stream(bodies[1..])
  }

  /** The first frame of the bytes, if it is complete. */
  function ParseFrame(s: seq<Byte>): (r: Option<seq<Byte>>)
    ensures r.Some? ==> 4 + |r.value| <= |s|
  {
    if |s| < 4 then None
    else if |s| < 4 + Ntohl(s) then None
    else Some(s[4..4 + Ntohl(s)])
  }

  datatype Drained = Drained(bodies: seq<seq<Byte>>, rest: seq<Byte>)

  /** All complete frames at the front, and what is left. */
  function Drain(s: seq<Byte>): Drained
    decreases |s|
  {
    match ParseFrame(s)
    case None => Drained([], s)
    case Some(body) =>
      var d := Drain(s[4 + |body|..]);
      Drained([body] + d.bodies, d.rest)
  }

  lemma HeaderRoundTrip(body: seq<Byte>, rest: seq<Byte>)
    ensures Ntohl(BuildHeader(body) + rest) == |body| % TWO_32
  {
    var n := |body| % TWO_32;
    assert n / 0x1_0000 == n / 256 / 256 && n / 0x100_0000 == n / 256 / 256 / 256;
    assert n == n / 256 / 256 / 256 * 0x100_0000 + n / 256 / 256 % 256 * 0x1_0000 + n / 256 % 256 * 256 + n % 256;
    var s := BuildHeader(body) + rest;
    assert s[..4] == BuildHeader(body);
    assert s[0] == n / 0x100_0000 && s[1] == n / 0x1_0000 % 256 && s[2] == n / 256 % 256 && s[3] == n % 256;
  }

  /** A frame reads back as its body exactly when the length fits the 32-bit header. */
  lemma FrameRoundTrip(body: seq<Byte>, rest: seq<Byte>)
    ensures ParseFrame(Frame(body) + rest) == Some(body) <==> |body| < TWO_32
  {
    hide BuildHeader, Ntohl;
    assert Frame(body) + rest == BuildHeader(body) + (body + rest);
    HeaderRoundTrip(body, body + rest);
    if |body| < TWO_32 {
      Middle(BuildHeader(body), body, rest);
    }
  }

  /** The length goes out in network byte order, the most significant byte first. */
  lemma NetworkOrder(body: seq<Byte>)
    ensures var h := BuildHeader(body); var a: nat, b: nat, c: nat, d: nat := h[0], h[1], h[2], h[3];
      a * 0x100_0000 + b * 0x1_0000 + c * 0x100 + d == |body| % 0x1_0000_0000
  {
    hide BuildHeader;
    HeaderRoundTrip(body, []);
    assert BuildHeader(body) + [] == BuildHeader(body);
  }

  // ---------------------------------------------------------------- any chunking

  lemma ParseFrameExtend(a: seq<Byte>, b: seq<Byte>)
    requires ParseFrame(a).Some?
    ensures ParseFrame(a + b) == ParseFrame(a)
  {
    assert Ntohl(a + b) == Ntohl(a);
    hide Ntohl;
    assert (a + b)[4..4 + Ntohl(a)] == a[4..4 + Ntohl(a)];
  }

  /** Draining in two deliveries, the remainder kept in between, is draining everything at once. */
  lemma {:induction false} DrainAppend(a: seq<Byte>, b: seq<Byte>)
    ensures var first := Drain(a); var second := Drain(first.rest + b);
            Drain(a + b) == Drained(first.bodies + second.bodies, second.rest)
    decreases |a|
  {
    hide ParseFrame;
    match ParseFrame(a)
    case None =>
    case Some(body) =>
      ParseFrameExtend(a, b);
      var tail := a[4 + |body|..];
      assert (a + b)[4 + |body|..] == tail + b;
      DrainAppend(tail, b);
      var second := Drain(Drain(tail).rest + b);
      assert [body] + (Drain(tail).bodies + second.bodies) == [body] + Drain(tail).bodies + second.bodies;
  }

  lemma {:induction false} DrainStream(bodies: seq<seq<Byte>>)
    requires forall b :: b in bodies ==> |b| < TWO_32
    ensures Drain(Stream(bodies)) == Drained(bodies, [])
  {
    hide Ntohl, BuildHeader;
    if bodies != [] {
      FrameRoundTrip(bodies[0], Stream(bodies[1..]));
      assert (Frame(bodies[0]) + Stream(bodies[1..]))[4 + |bodies[0]|..] == Stream(bodies[1..]);
      DrainStream(bodies[1..]);
      assert bodies == [bodies[0]] + bodies[1..];
    }
  }

  /** Whatever part of the stream has arrived decodes to the first bodies, in order. */
  lemma DrainPrefix(bodies: seq<seq<Byte>>, arrived: seq<Byte>)
    requires forall b :: b in bodies ==> |b| < TWO_32
    requires arrived <= Stream(bodies)
    ensures Drain(arrived).bodies <= bodies
    ensures arrived == Stream(bodies) ==> Drain(arrived) == Drained(bodies, [])
  {
    DrainStream(bodies);
    DrainAppend(arrived, Stream(bodies)[|arrived|..]);
    assert arrived + Stream(bodies)[|arrived|..] == Stream(bodies);
  }

  lemma {:induction false} StreamAppend(xs: seq<seq<Byte>>, ys: seq<seq<Byte>>)
    ensures Stream(xs + ys) == Stream(xs) + Stream(ys)
  {
    hide Frame;
    if xs == [] {
      assert xs + ys == ys;
    } else {
      StreamAppend(xs[1..], ys);
      DropAppend(xs, ys, 1);
      Assoc(Frame(xs[0]), Stream(xs[1..]), Stream(ys));
    }
  }

  // ---------------------------------------------------------------- the send loop

  datatype SendTask = SendTask(header: seq<Byte>, body: seq<Byte>)

  function TaskFor(body: seq<Byte>): SendTask {
    SendTask(BuildHeader(body), body)
  }

  lemma RestOfHeader(h: seq<Byte>, b: seq<Byte>, offset: nat)
    requires offset <= |h|
    ensures (h + b)[offset..] == h[offset..] + b
    ensures b == [] ==> h[offset..] + b == h[offset..]
  {
  }

  lemma RestOfBody(h: seq<Byte>, b: seq<Byte>, offset: nat)
    requires offset <= |b|
    ensures (h + b)[|h| + offset..] == b[offset..]
  {
  }

  /** The segments offered to writev: what is left of the header, and the body unless it is empty. */
  method BuildIov(h: seq<Byte>, b: seq<Byte>, idx: nat, offset: nat) returns (iov: seq<seq<Byte>>)
    requires |h| == 4 && idx < 2 && if idx == 0 then offset <= 4 else offset <= |b|
    ensures Concat(iov) == (h + b)[idx * 4 + offset..]
  {
    hide Concat;
    if idx == 0 {
      iov := [h[offset..]];
      ConcatOne(h[offset..]);
      if |b| > 0 {
        iov := iov + [b];
        assert iov == [h[offset..], b];
        ConcatTwo(h[offset..], b);
      }
      RestOfHeader(h, b, offset);
    } else {
      iov := [b[offset..]];
      ConcatOne(b[offset..]);
      RestOfBody(h, b, offset);
    }
  }

  /** One task of SendLoop: header and body through as many writev calls as it takes. */
  method SendOne(sock: Socket, task: SendTask) returns (ok: bool)
    requires |task.header| == 4
    modifies sock
    ensures old(sock.sent) <= sock.sent <= old(sock.sent) + (task.header + task.body)
    ensures ok <==> sock.sent == old(sock.sent) + (task.header + task.body)
    ensures Healthy(old(sock.script)) && Accepts(old(sock.script)) >= |task.header| + |task.body| ==>
      ok && Healthy(sock.script) && Accepts(sock.script) >= Accepts(old(sock.script)) - |task.header| - |task.body|
  {
    hide Accepts, Healthy, Concat;
    var h, b := task.header, task.body;
    var idx, offset := 0, 0;
    ghost var all, before, script, done := h + b, sock.sent, sock.script, 0;
    ok := false;
    while idx < 2
      invariant 0 <= idx < 2 && 0 <= offset && !ok
      invariant done == idx * 4 + offset && (if idx == 0 then offset < 4 else offset < |b|)
      invariant sock.sent == before + all[..done]
      invariant Healthy(script) ==> Healthy(sock.script) && Accepts(sock.script) + done >= Accepts(script)
      decreases |sock.script|
    {
      if idx == 1 && offset >= |b| {
        break;
      }
      var iov := BuildIov(h, b, idx, offset);
      var n, interrupted := sock.Writev(iov);
      if n < 0 {
        if interrupted {
          continue;
        }
        break;
      }
      if n == 0 {
        break;
      }
      WriteMore(before, all, done, n);
      done := done + n;
      if idx == 0 {
        var remaining := 4 - offset;
        if n < remaining {
          offset := offset + n;
          continue;
        }
        idx, offset := 1, n - remaining;
        if |b| == 0 || offset >= |b| {
          ok := true;
          break;
        }
        continue;
      }
      offset := offset + n;
      if offset >= |b| {
        ok := true;
        break;
      }
    }
    WrittenPrefix(before, all, done);
  }

  /** SendLoop on one connection: queued tasks in order, until one fails. */
  method SendQueue(sock: Socket, bodies: seq<seq<Byte>>) returns (ok: bool)
    modifies sock
    ensures old(sock.sent) <= sock.sent <= old(sock.sent) + Stream(bodies)
    ensures ok ==> sock.sent == old(sock.sent) + Stream(bodies)
    ensures Healthy(old(sock.script)) && Accepts(old(sock.script)) >= |Stream(bodies)| ==> ok
  {
    hide BuildHeader;
    ghost var before, all := sock.sent, Stream(bodies);
    var i := 0;
    assert bodies[..0] == [];
    while i < |bodies|
      invariant 0 <= i <= |bodies|
      invariant sock.sent == before + Stream(bodies[..i])
      invariant Healthy(old(sock.script)) && Accepts(old(sock.script)) >= |all| ==>
        Healthy(sock.script) && Accepts(sock.script) >= |all| - |Stream(bodies[..i])|
    {
      SplitStream(bodies, i);
      ExtendStream(bodies, i);
      ghost var sent := Stream(bodies[..i]);
      var sentOne := SendOne(sock, TaskFor(bodies[i]));
      if !sentOne {
        PrefixInside(before, sent, Frame(bodies[i]), Stream(bodies[i + 1..]), sock.sent);
        return false;
      }
      i := i + 1;
    }
    assert bodies[..i] == bodies;
    ok := true;
  }

  lemma StreamCons(bodies: seq<seq<Byte>>)
    requires bodies != []
    ensures Stream(bodies) == Frame(bodies[0]) + Stream(bodies[1..])
  {
  }

  lemma SplitStream(bodies: seq<seq<Byte>>, i: nat)
    requires i < |bodies|
    ensures Stream(bodies) == Stream(bodies[..i]) + (Frame(bodies[i]) + Stream(bodies[i + 1..]))
  {
    hide Frame, Stream;
    StreamCons(bodies[i..]);
    StreamAppend(bodies[..i], bodies[i..]);
    assert bodies[..i] + bodies[i..] == bodies && bodies[i..][1..] == bodies[i + 1..];
  }

  lemma ExtendStream(bodies: seq<seq<Byte>>, i: nat)
    requires i < |bodies|
    ensures Stream(bodies[..i + 1]) == Stream(bodies[..i]) + Frame(bodies[i])
  {
    StreamOne(bodies[i]);
    hide Frame, Stream;
    StreamAppend(bodies[..i], [bodies[i]]);
    assert bodies[..i] + [bodies[i]] == bodies[..i + 1];
  }

  lemma StreamOne(body: seq<Byte>)
    ensures Stream([body]) == Frame(body)
  {
  }

  // ---------------------------------------------------------------- the receiving side

  /** ReadFrame on the server, ParseFrame on the client: bytes collect until frames are complete. */
  class FrameReader {
    var buffer: seq<Byte>
    var bodies: seq<seq<Byte>>

    constructor ()
      ensures buffer == [] && bodies == []
    {
      buffer, bodies := [], [];
    }

    method OnBytes(chunk: seq<Byte>)
      modifies this
      ensures var d := Drain(old(buffer) + chunk);
              bodies == old(bodies) + d.bodies && buffer == d.rest
    {
      buffer := buffer + chunk;
      ghost var all := Drain(buffer);
      var payload := ParseFrame(buffer);
      while payload.Some?
        invariant payload == ParseFrame(buffer)
        invariant bodies + Drain(buffer).bodies == old(bodies) + all.bodies && Drain(buffer).rest == all.rest
        decreases |buffer|
      {
        ghost var first, later := [payload.value], Drain(buffer[4 + |payload.value|..]).bodies;
        assert bodies + (first + later) == bodies + first + later;
        buffer := buffer[4 + |payload.value|..];
        bodies := bodies + [payload.value];
        payload := ParseFrame(buffer);
      }
    }
  }

  /** The reader's fields after any series of deliveries. */
  function Deliver(chunks: seq<seq<Byte>>): Drained {
    if chunks == [] then Drained([], [])
    else
      var d := Deliver(chunks[..|chunks| - 1]);
      var e := Drain(d.rest + chunks[|chunks| - 1]);
      Drained(d.bodies + e.bodies, e.rest)
  }

  /** Any bytes, split in any way, are decoded as if they had arrived at once. */
  lemma {:induction false} ChunkIndependence(chunks: seq<seq<Byte>>)
    ensures Deliver(chunks) == Drain(Concat(chunks))
  {
    if chunks != [] {
      var init, last := chunks[..|chunks| - 1], chunks[|chunks| - 1];
      ChunkIndependence(init);
      DrainAppend(Concat(init), last);
      ConcatAppend(init, [last]);
      ConcatOne(last);
      assert chunks == init + [last];
    }
  }

  /**
    End to end: if the connection carried a prefix of the queued frames and the
    reader got a prefix of that in any chunks, it decoded the first bodies in
    order, and all of them once every byte arrived.
   */
  lemma {:induction false} EndToEnd(bodies: seq<seq<Byte>>, sent: seq<Byte>, chunks: seq<seq<Byte>>)
    requires forall b :: b in bodies ==> |b| < TWO_32
    requires Concat(chunks) <= sent <= Stream(bodies)
    ensures Deliver(chunks).bodies <= bodies
    ensures Concat(chunks) == Stream(bodies) ==> Deliver(chunks) == Drained(bodies, [])
  {
    ChunkIndependence(chunks);
    DrainPrefix(bodies, Concat(chunks));
  }

  /** The whole path: a queue, a kernel script and a way of cutting what was sent into deliveries. */
  method Transmit(bodies: seq<seq<Byte>>, script: seq<Answer>, chunks: seq<nat>) returns (decoded: seq<seq<Byte>>, ok: bool)
    requires forall b :: b in bodies ==> |b| < TWO_32
    ensures decoded <= bodies
    ensures Healthy(script) && Accepts(script) >= |Stream(bodies)| && Sum(chunks) >= |Stream(bodies)| ==> decoded == bodies
  {
    hide Drain, Stream, Accepts;
    var sock := new Socket(script);
    ok := SendQueue(sock, bodies);
    var reader := new FrameReader();
    var at, i := 0, 0;
    ghost var wire := sock.sent;
    assert wire <= Stream(bodies) && wire[..0] == [];
    DrainEmpty();
    while i < |chunks|
      invariant 0 <= i <= |chunks| && 0 <= at <= |wire| && wire == sock.sent
      invariant Drained(reader.bodies, reader.buffer) == Drain(wire[..at])
      invariant at == |wire| || at + Sum(chunks[i..]) == Sum(chunks)
    {
      var next := if at + chunks[i] < |sock.sent| then at + chunks[i] else |sock.sent|;
      DrainAppend(wire[..at], wire[at..next]);
      assert wire[..at] + wire[at..next] == wire[..next];
      reader.OnBytes(sock.sent[at..next]);
      at, i := next, i + 1;
    }
    DrainPrefix(bodies, wire[..at]);
    decoded := reader.bodies;
  }

  lemma DrainEmpty()
    ensures Drain([]) == Drained([], [])
  {
  }

  function Sum(sizes: seq<nat>): nat {
    if sizes == [] then 0 else sizes[0] + Sum(sizes[1..])
  }
}
