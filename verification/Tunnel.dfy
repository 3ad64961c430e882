/** The two ends together: what the client frames is what the server writes to its tun device, and when the
    server's buffer is large enough for that. */
module Tunnel {
  import opened Wire
  import opened Config
  import opened Wrappers
  import opened LeaseTable
  import opened EpollServer
  import opened ServerRuns
  import opened Sequences
  import Client

  // ----- uplink

  /** What the client can say: `FetchConfig`, `HandleHeartbeat` and `HandleTunnel` each write one frame. */
  datatype Saying = Ask | Beat | Packet(data: seq<byte>)

  function FrameOf(m: Saying): Frame {
    match m
    case Ask => Frame(IP_REQUEST, [])
    case Beat => Frame(KEEPALIVE, [])
    case Packet(data) => Frame(DATA_UP, data)
  }

  function FramesOf(ms: seq<Saying>): (fs: seq<Frame>)
    ensures |fs| == |ms| && forall i | 0 <= i < |ms| :: fs[i] == FrameOf(ms[i])
  {
    seq(|ms|, i requires 0 <= i < |ms| => FrameOf(ms[i]))
  }

  /** The packets among what was said, in order. */
  function PacketsSaid(ms: seq<Saying>): seq<seq<byte>>
    decreases |ms|
  {
    if ms == [] then []
    else
      PacketsSaid(ms[..|ms| - 1]) + (if ms[|ms| - 1].Packet? then [ms[|ms| - 1].data] else [])
  }

  lemma {:induction false} FramedPackets(ms: seq<Saying>)
    requires forall m | m in ms && m.Packet? :: m.data != []
    ensures TunWrites(FramesOf(ms)) == PacketsSaid(ms)
    decreases |ms|
  {
    if ms != [] {
      FramedPackets(ms[..|ms| - 1]);
      assert FramesOf(ms)[..|ms| - 1] == FramesOf(ms[..|ms| - 1]);
    }
  }

  lemma PacketsPrefix(fs: seq<Frame>, gs: seq<Frame>)
    requires fs <= gs
    ensures TunWrites(fs) <= TunWrites(gs)
  {
    PacketsAppend(fs, gs[|fs|..]);
    assert fs + gs[|fs|..] == gs;
  }

  // ----- what the client writes

  /** One call of a handler of the client: what it had to say, and how many bytes of the frame it wrote. */
  datatype Call = Call(m: Saying, sent: nat)

  predicate Sayable(m: Saying) {
    m.Packet? ==> 0 < |m.data| <= Client.BUFFER_SIZE
  }

  predicate Whole(c: Call) {
    c.sent == Size(FrameOf(c.m))
  }

  ghost predicate Wrote(out: seq<byte>, c: Call, out': seq<byte>) {
    Sayable(c.m) && c.sent <= Size(FrameOf(c.m)) && out' == out + Encode(FrameOf(c.m))[..c.sent]
  }

  method SayPacket(client: Client.Client, data: seq<byte>) returns (ok: bool, ghost c: Call)
    requires Sayable(Packet(data))
    modifies client
    ensures c.m == Packet(data) && Wrote(old(client.toServer), c, client.toServer) && (ok <==> Whole(c))
  {
    ghost var sent;
    ok, sent := client.HandleTunnel(Some(data));
    c := Call(Packet(data), sent);
  }

  method SayAsk(client: Client.Client) returns (ok: bool, ghost c: Call)
    modifies client
    ensures c.m == Ask && Wrote(old(client.toServer), c, client.toServer) && (ok <==> Whole(c))
  {
    ghost var sent;
    ok, sent := client.FetchConfig();
    c := Call(Ask, sent);
  }

  /** A check of the heartbeat that has nothing to say writes nothing. */
  method SayBeat(client: Client.Client, now: int) returns (ok: bool, ghost c: Call)
    modifies client
    ensures var beat := Client.Check(now, client.lastFrom, old(client.lastTo));
            if beat.Due? then
              c.m == Beat && Wrote(old(client.toServer), c, client.toServer) && (ok <==> Whole(c))
            else client.toServer == old(client.toServer)
  {
    ghost var sent;
    ok, sent := client.HandleHeartbeat(now);
    c := Call(Beat, sent);
  }

  /** The stream after each call. A frame not written whole makes the client leave its loop. */
  ghost predicate ClientWrote(outs: seq<seq<byte>>, calls: seq<Call>) {
    && |outs| == |calls| + 1 && outs[0] == []
    && forall i | 0 <= i < |calls| ::
         Wrote(outs[i], calls[i], outs[i + 1]) && (i < |calls| - 1 ==> Whole(calls[i]))
  }

  function Said(calls: seq<Call>): (ms: seq<Saying>)
    ensures |ms| == |calls| && forall i | 0 <= i < |ms| :: ms[i] == calls[i].m
  {
    seq(|calls|, i requires 0 <= i < |calls| => calls[i].m)
  }

  lemma SaidStep(calls: seq<Call>, n: nat)
    requires n < |calls|
    ensures FramesOf(Said(calls[..n + 1])) == FramesOf(Said(calls[..n])) + [FrameOf(calls[n].m)]
  {
  }

  /** What the client has written is the frames of what it said, the last of them perhaps not whole. */
  lemma {:induction false} WroteFrames(outs: seq<seq<byte>>, calls: seq<Call>, n: nat)
    requires ClientWrote(outs, calls) && n <= |calls|
    ensures var fs := FramesOf(Said(calls[..n]));
            && Encodable(fs) && outs[n] <= EncodeAll(fs)
            && (n == 0 || Whole(calls[n - 1]) ==> outs[n] == EncodeAll(fs))
  {
    if n > 0 {
      WroteFrames(outs, calls, n - 1);
      SaidStep(calls, n - 1);
      assert n > 1 ==> Whole(calls[n - 2]);
      var f := FrameOf(calls[n - 1].m);
      assert Wrote(outs[n - 1], calls[n - 1], outs[n]);
      EncodeAllStep(FramesOf(Said(calls[..n - 1])), f);
      assert Encode(f)[..|Encode(f)|] == Encode(f);
    }
  }

  // ----- from one end to the other

  lemma SaidPackets(calls: seq<Call>)
    requires forall c | c in calls :: Sayable(c.m)
    ensures TunWrites(FramesOf(Said(calls))) == PacketsSaid(Said(calls))
  {
    forall m | m in Said(calls) && m.Packet? ensures m.data != [] {
      var i :| 0 <= i < |calls| && Said(calls)[i] == m;
      assert calls[i] in calls;
    }
    FramedPackets(Said(calls));
  }

  lemma WroteSayable(outs: seq<seq<byte>>, calls: seq<Call>)
    requires ClientWrote(outs, calls)
    ensures forall c | c in calls :: Sayable(c.m)
  {
    forall c | c in calls ensures Sayable(c.m) {
      var i :| 0 <= i < |calls| && calls[i] == c;
      assert Wrote(outs[i], calls[i], outs[i + 1]);
    }
  }

  lemma DonePrefix(c: Conn, inFlight: seq<byte>, fs: seq<Frame>)
    requires ConnOk(c) && Encodable(fs) && c.got + inFlight <= EncodeAll(fs)
    ensures c.done <= fs
  {
    ConnParses(c);
    var later := EncodeAll(fs)[|c.got|..];
    assert c.got <= c.got + inFlight;
    assert c.got + later == EncodeAll(fs);
    PrefixOfStream(c.got, later, fs);
  }

  lemma ConnHasPrefix(c: Conn, inFlight: seq<byte>, fs: seq<Frame>)
    requires ConnOk(c) && Encodable(fs) && c.got + inFlight <= EncodeAll(fs)
    ensures c.done <= fs && c.up <= TunWrites(fs)
  {
    DonePrefix(c, inFlight, fs);
    PacketsPrefix(c.done, fs);
  }

  lemma ConnHasAll(c: Conn, fs: seq<Frame>)
    requires ConnOk(c) && Encodable(fs) && c.got == EncodeAll(fs) && Parse(c.buf).frames == []
    ensures c.done == fs && c.buf == []
  {
    ConnParses(c);
    Units(c.got);
    PrefixOfStream(c.got, [], fs);
    Units(c.done);
    Reassemble(c.buf);
    Units(Parse(c.buf).rest);
  }

  /** Over every run of the server and of its client, with any reads, short writes, stalls and failures in
      between: the packets written to the server's tun device for a connection are a prefix of those the
      client's handlers were given, each whole, in order. */
  lemma UplinkPrefix(run: Run, n: nat, fd: int, outs: seq<seq<byte>>, calls: seq<Call>, inFlight: seq<byte>)
    requires n < |run.states| && fd in run.states[n].conns
    requires ClientWrote(outs, calls) && run.states[n].conns[fd].got + inFlight == outs[|calls|]
    ensures run.states[n].conns[fd].up <= PacketsSaid(Said(calls))
    ensures run.states[n].conns[fd].done <= FramesOf(Said(calls))
  {
    RunKeeps(run, n);
    WroteFrames(outs, calls, |calls|);
    assert calls[..|calls|] == calls;
    WroteSayable(outs, calls);
    SaidPackets(calls);
    ConnHasPrefix(run.states[n].conns[fd], inFlight, FramesOf(Said(calls)));
  }

  lemma DrainedBuffer(run: Run, n: nat, fd: int)
    requires n < |run.events| && run.events[n].Read? && run.events[n].fd == fd && run.events[n].stop == Drained
    ensures fd in run.states[n + 1].conns && Parse(run.states[n + 1].conns[fd].buf).frames == []
  {
    var s, e := run.states[n], run.events[n];
    assert Next(s, e, run.states[n + 1]);
    var p := Parse(s.conns[fd].buf + e.chunk);
    assert p.frames[e.handled..] == [];
    Units(p.rest);
    RestIsWaiting(s.conns[fd].buf + e.chunk);
  }

  /** Once everything the client wrote has been read, its last frame was whole and the last read was drained,
      exactly the client's packets have been written: none lost, none merged, none invented. */
  lemma UplinkExact(run: Run, n: nat, fd: int, outs: seq<seq<byte>>, calls: seq<Call>)
    requires n < |run.events| && run.events[n].Read? && run.events[n].fd == fd && run.events[n].stop == Drained
    requires ClientWrote(outs, calls) && (calls == [] || Whole(calls[|calls| - 1]))
    requires fd in run.states[n + 1].conns && run.states[n + 1].conns[fd].got == outs[|calls|]
    ensures run.states[n + 1].conns[fd].up == PacketsSaid(Said(calls))
    ensures run.states[n + 1].conns[fd].buf == []
  {
    RunKeeps(run, n + 1);
    DrainedBuffer(run, n, fd);
    WroteFrames(outs, calls, |calls|);
    assert calls[..|calls|] == calls;
    WroteSayable(outs, calls);
    SaidPackets(calls);
    ConnHasAll(run.states[n + 1].conns[fd], FramesOf(Said(calls)));
  }

  // ----- the address a client is told is the address its packets are routed by

  /** The reply is sent without a terminator: the client reads from it the address 13.8.0.i, which is the one the
      table routes by, and the four constants, whatever lies behind it in memory, exactly when that does not
      begin with a digit. */
  lemma ReplyReadBackIff(i: byte, c: byte)
    ensures (forall t: seq<byte> ::
               ReadMany(LeaseReply(i).payload + ([c] + t), 5)
               == Some([[13, 8, 0, i], [0, 0, 0, 0], [166, 111, 8, 28], [166, 111, 8, 29], [8, 8, 8, 8]]))
            <==> !(48 <= c <= 57)
    ensures U32([13, 8, 0, i]) == LeaseAddr(i)
  {
    assert LeaseReplyQuads(i) == [[13, 8, 0, i], [0, 0, 0, 0], [166, 111, 8, 28], [166, 111, 8, 29], [8, 8, 8, 8]];
    TerminatorExact(LeaseReplyQuads(i), c);
  }
}
