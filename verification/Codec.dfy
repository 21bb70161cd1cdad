/** The frame decoder loop and the frame encoder, on the real buffer and connection. */
module Codec {

  import opened Basics
  import opened Wire
  import ByteBuffer
  import TcpConnection

  /** The two header words, in host order, without consuming them. */
  method PeekHeader(buf: ByteBuffer.Buffer) returns (magic: nat, n: nat)
    requires buf.Valid() && buf.Readable() >= HEADER
    ensures magic == FromBigEndian(buf.View().content[..4])
    ensures n == FromBigEndian(buf.View().content[4..8])
  {
    var header := buf.Peek(HEADER);
    assert header[..4] == buf.View().content[..4] && header[4..8] == buf.View().content[4..8];
    magic, n := FromBigEndian(header[..4]), FromBigEndian(header[4..8]);
  }

  /** Consume the header, then the body. */
  method TakeBody(buf: ByteBuffer.Buffer, n: nat) returns (body: Bytes)
    requires buf.Valid() && HEADER + n <= buf.Readable()
    modifies buf
    ensures buf.Valid() && buf.buf == old(buf.buf)
    ensures body == old(buf.View().content)[HEADER..HEADER + n]
    ensures buf.View() == old(buf.View()).Retrieve(HEADER + n)
  {
    RetrieveTwice(buf.View(), HEADER, n);
    buf.Retrieve(HEADER);
    body := buf.RetrieveAsString(n);
  }

  /** One turn of the decoder loop on the buffer: it takes a frame, or stops with a verdict. */
  method TakeFrame(buf: ByteBuffer.Buffer, capped: bool) returns (found: bool, body: Bytes, verdict: Verdict)
    requires buf.Valid()
    modifies buf
    ensures buf.Valid() && buf.buf == old(buf.buf)
    ensures !found ==> StopsWith(old(buf.View().content), verdict, capped) && buf.View() == old(buf.View())
    ensures found ==> Peel(old(buf.View().content), capped).Frame?
                      && body == Peel(old(buf.View().content), capped).body
                      && HEADER + |body| <= |old(buf.View().content)|
                      && buf.View() == old(buf.View()).Retrieve(HEADER + |body|)
  {
    if buf.Readable() < HEADER {
      return false, [], NeedMore;
    }
    var magic, n := PeekHeader(buf);
    if magic != MAGIC {
      return false, [], BadMagic;
    }
    if capped && n > MAX_BODY {
      return false, [], TooLarge;
    }
    if buf.Readable() < HEADER + n {
      return false, [], NeedMore;
    }
    found, verdict := true, NeedMore;
    body := TakeBody(buf, n);
  }

  /** Consuming a frame in two retrieves, header then body, equals consuming it in one. */
  lemma RetrieveTwice(s: ByteBuffer.Shape, a: nat, b: nat)
    requires s.Valid() && a + b <= |s.content|
    ensures s.Retrieve(a).Valid() && b <= |s.Retrieve(a).content|
    ensures s.Retrieve(a).Retrieve(b) == s.Retrieve(a + b)
    ensures s.Retrieve(a + b).content == s.content[a + b..]
  {
    if a < |s.content| {
      assert s.content[a..][b..] == s.content[a + b..];
    }
  }

  lemma DrainStep(s: ByteBuffer.Shape, capped: bool)
    requires s.Valid() && Peel(s.content, capped).Frame?
    ensures var h := Peel(s.content, capped);
            var n := HEADER + |h.body|;
            && n <= |s.content| && s.Retrieve(n).Valid() && s.Retrieve(n).content == h.rest
            && ByteBuffer.Drain(s, capped) == ByteBuffer.Drain(s.Retrieve(n), capped)
  {
    var h := Peel(s.content, capped);
    var n := HEADER + |h.body|;
    var d := Decode(h.rest, capped);
    RetrieveTwice(s, n, 0);
    RetrieveTwice(s, n, |h.rest| - |d.rest|);
  }

  /** The loop has delivered `frames` of what `start` holds and has `now` before it. */
  ghost predicate Midway(start: ByteBuffer.Shape, frames: seq<Bytes>, now: ByteBuffer.Shape, capped: bool)
    requires start.Valid()
  {
    && now.Valid()
    && (var d := Decode(now.content, capped);
        Decode(start.content, capped) == Decoded(frames + d.frames, d.rest, d.verdict))
    && ByteBuffer.Drain(start, capped) == ByteBuffer.Drain(now, capped)
  }

  lemma MidwayAdvances(start: ByteBuffer.Shape, frames: seq<Bytes>, now: ByteBuffer.Shape, capped: bool)
    requires start.Valid() && Midway(start, frames, now, capped) && Peel(now.content, capped).Frame?
    ensures var body := Peel(now.content, capped).body;
            && HEADER + |body| <= |now.content|
            && Midway(start, frames + [body], now.Retrieve(HEADER + |body|), capped)
  {
    DrainStep(now, capped);
    var h := Peel(now.content, capped);
    var d := Decode(h.rest, capped);
    assert Decode(now.content, capped) == Decoded([h.body] + d.frames, d.rest, d.verdict);
    assert frames + ([h.body] + d.frames) == (frames + [h.body]) + d.frames;
  }

  lemma MidwayEnds(start: ByteBuffer.Shape, frames: seq<Bytes>, now: ByteBuffer.Shape, why: Verdict, capped: bool)
    requires start.Valid() && Midway(start, frames, now, capped) && StopsWith(now.content, why, capped)
    ensures Decode(start.content, capped) == Decoded(frames, now.content, why)
    ensures now == ByteBuffer.Drain(start, capped)
  {
  }

  /** The decoder loop: the server's with the size cap, the client reader's without. The frames are
      handed out in the order returned. */
  method DecodeLoop(buf: ByteBuffer.Buffer, capped: bool) returns (frames: seq<Bytes>, verdict: Verdict)
    requires buf.Valid()
    modifies buf
    ensures buf.Valid() && buf.buf == old(buf.buf)
    ensures Decode(old(buf.View().content), capped) == Decoded(frames, buf.View().content, verdict)
    ensures buf.View() == ByteBuffer.Drain(old(buf.View()), capped)
  {
    ghost var start := buf.View();
    frames := [];
    while true
      invariant buf.Valid() && buf.buf == old(buf.buf)
      invariant Midway(start, frames, buf.View(), capped)
      decreases buf.Readable()
    {
      ghost var now := buf.View();
      var found, body, why := TakeFrame(buf, capped);
      if !found {
        MidwayEnds(start, frames, now, why, capped);
        return frames, why;
      }
      MidwayAdvances(start, frames, now, capped);
      frames := frames + [body];
    }
  }

  /** The input buffer shares nothing with the connection's output buffer. */
  ghost predicate Apart(conn: TcpConnection.Connection, buf: ByteBuffer.Buffer)
    reads conn, conn.output, buf
  {
    buf != conn.output && buf.buf != conn.output.buf
  }

  /** What the server's decoder does to the connection: it is closed by force exactly when the stream is
      rejected. */
  function AfterVerdict(c: TcpConnection.Conn, verdict: Verdict): TcpConnection.Conn {
    if verdict == NeedMore then c else TcpConnection.ForceClose(c)
  }

  /** A stream rejected for other magic bytes or for its length leaves an open connection disconnected once
      the functors queued for it have been run; any other stream leaves it as it was. */
  lemma RejectedStreamDisconnects(c: TcpConnection.Conn, input: Bytes,
                                  conns: seq<TcpConnection.Conn>, ops: seq<TcpConnection.Op>)
    requires c.state == TcpConnection.Connected || c.state == TcpConnection.Disconnecting
    requires TcpConnection.IsRunFrom(AfterVerdict(c, Decode(input, true).verdict), conns, ops)
    requires |ops| == |conns[0].queue| && forall i :: 0 <= i < |ops| ==> ops[i].FunctorOp?
    ensures var h := Peel(Decode(input, true).rest, true);
            if h == Corrupt(BadMagic) || h == Corrupt(TooLarge) then conns[|ops|].state == TcpConnection.Disconnected
            else conns[0] == c
  {
    StoppedBy(input, true);
    if Decode(input, true).verdict != NeedMore {
      TcpConnection.ForcedCloseDisconnects(c, conns, ops);
    }
  }

  /** The decoder stops where no frame is at the front, and its verdict says why. */
  lemma {:induction false} StoppedBy(input: Bytes, capped: bool)
    ensures var d := Decode(input, capped);
            match Peel(d.rest, capped)
            case Partial => d.verdict == NeedMore
            case Corrupt(why) => d.verdict == why && (why == BadMagic || why == TooLarge)
            case Frame(_, _) => false
    decreases |input|
  {
    if Peel(input, capped).Frame? {
      StoppedBy(Peel(input, capped).rest, capped);
    }
  }

  /** The server's decoder: the loop, and a forced close of the connection on a rejected stream. */
  method OnMessage(conn: TcpConnection.Connection, buf: ByteBuffer.Buffer)
    returns (frames: seq<Bytes>, verdict: Verdict)
    requires conn.Valid() && buf.Valid() && Apart(conn, buf)
    modifies conn, buf
    ensures conn.Valid() && buf.Valid() && buf.buf == old(buf.buf)
    ensures Decode(old(buf.View().content), true) == Decoded(frames, buf.View().content, verdict)
    ensures buf.View() == ByteBuffer.Drain(old(buf.View()), true)
    ensures conn.View() == AfterVerdict(old(conn.View()), verdict)
  {
    frames, verdict := DecodeLoop(buf, true);
    if verdict != NeedMore {
      conn.CloseByForce();
    }
  }

  method EncodeFrame(body: Bytes) returns (data: Bytes)
    ensures data == Encode(body)
  {
    var buf := new ByteBuffer.Buffer();
    buf.Append(BigEndian(MAGIC));
    buf.Append(BigEndian(|body| % WORD));
    buf.Append(body);
    data := buf.RetrieveAsString(buf.Readable());
  }

  /** Frame a body in a fresh buffer and give its bytes to the connection. */
  method SendRaw(conn: TcpConnection.Connection, body: Bytes, inLoop: bool, r: TcpConnection.WriteResult)
    requires conn.Valid() && TcpConnection.Takes(conn.View(), r, HEADER + |body|)
    modifies conn, conn.output, conn.output.buf
    ensures conn.Valid()
    ensures conn.View() == TcpConnection.Send(old(conn.View()), Encode(body), inLoop, r)
  {
    var data := EncodeFrame(body);
    conn.SendBytes(data, inLoop, r);
  }

  /** What a read on the socket reports: some bytes, the end of the stream, or an error. */
  datatype ReadResult = Data(input: Bytes) | EndOfStream | ReadError

  /** One read event of the server: bytes go through the decoder; the end of the stream and every
      error close the connection and leave the input buffer alone. */
  method HandleRead(conn: TcpConnection.Connection, buf: ByteBuffer.Buffer, result: ReadResult)
    returns (frames: seq<Bytes>, verdict: Verdict)
    requires conn.Valid() && buf.Valid() && Apart(conn, buf)
    requires result.Data? ==> 0 < |result.input| <= buf.View().Offered()
    modifies conn, buf, buf.buf
    ensures conn.Valid() && buf.Valid()
    ensures result.Data? ==>
              && ByteBuffer.Serve(old(buf.View()), result.input, old(buf.View()).ReadFd(result.input), buf.View())
              && Decode(old(buf.View().content) + result.input, true) == Decoded(frames, buf.View().content, verdict)
              && conn.View() == AfterVerdict(old(conn.View()), verdict)
    ensures !result.Data? ==>
              && frames == [] && buf.View() == old(buf.View())
              && conn.View() == TcpConnection.HandleClose(old(conn.View()))
  {
    match result {
      case Data(input) =>
        buf.ReadFd(input);
        frames, verdict := OnMessage(conn, buf);
      case EndOfStream =>
        conn.OnClose();
        frames, verdict := [], NeedMore;
      case ReadError =>
        conn.OnClose();
        frames, verdict := [], NeedMore;
    }
  }

  /** From the sender's output path to the receiver's frames: at every point of every run of a
      connection that accepted the frames of `bodies`, a receiver that read any part of the wire, in any
      chunks, has delivered a prefix of the bodies in order; and all of them once a connection not
      disconnected has drained its output and the receiver has read it. */
  lemma FramesArriveInOrder(conns: seq<TcpConnection.Conn>, ops: seq<TcpConnection.Op>, k: nat,
                            bodies: seq<Bytes>, chunks: seq<Bytes>, capped: bool)
    requires TcpConnection.IsRun(conns, ops) && k <= |ops|
    requires conns[k].accepted == EncodeAll(bodies) && AllFit(bodies, capped) && Flatten(chunks) <= conns[k].wire
    ensures FeedAll(chunks, capped).frames <= bodies && FeedAll(chunks, capped).verdict == NeedMore
    ensures conns[k].state != TcpConnection.Disconnected && conns[k].out == [] && Flatten(chunks) == conns[k].wire ==>
              FeedAll(chunks, capped) == Decoded(bodies, [], NeedMore)
  {
    TcpConnection.OutputConserved(conns, ops, k);
    PartOfStreamDecodes(bodies, chunks, capped);
    if conns[k].out == [] {
      assert conns[k].wire + conns[k].out == conns[k].wire;
    }
  }
}
