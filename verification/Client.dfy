/** The native client: it frames packets from its tun device, drains the server's frames and watches the
    server's heartbeat. */
module Client {
  import opened Wire
  import opened Config
  import opened DrainBuffer
  import opened Wrappers
  import opened Sequences

  const BUFFER_SIZE := 4194304
  const HEARTBEAT_TIMEOUT_SECS := 60
  const HEARTBEAT_INTERVAL_SECS := 20
  const U64 := 0x1_0000_0000_0000_0000

  // ----- the heartbeat

  datatype Beat = TimedOut | Quiet | Due

  /** The two comparisons of `handle_heartbeat`, in their order. */
  function Check(now: int, lastFrom: int, lastTo: int): Beat {
    if now - lastFrom > HEARTBEAT_TIMEOUT_SECS then TimedOut
    else if now - lastTo > HEARTBEAT_INTERVAL_SECS then Due
    else Quiet
  }

  // ----- what the server's frames do

  /** The part of the client's state that received frames change. */
  datatype View = View(lastFrom: int, inBytes: int, inPackets: int, replies: seq<seq<byte>>)

  predicate Known(f: Frame) {
    f.kind == IP_REPLY || f.kind == KEEPALIVE || f.kind == DATA_DOWN
  }

  function See(v: View, f: Frame, now: int, tunOpen: bool): View {
    if f.kind == IP_REPLY then v.(replies := v.replies + [f.payload])
    else if f.kind == KEEPALIVE then v.(lastFrom := now)
    else if f.kind == DATA_DOWN && tunOpen then
      v.(inBytes := (v.inBytes + Size(f)) % U64, inPackets := (v.inPackets + 1) % U64)
    else v
  }

  function SeeAll(v: View, fs: seq<Frame>, now: int, tunOpen: bool): View
    decreases |fs|
  {
    if fs == [] then v else See(SeeAll(v, fs[..|fs| - 1], now, tunOpen), fs[|fs| - 1], now, tunOpen)
  }

  /** Whatever was received: only a keep-alive stamps the client, with the time of the call, and the replies handled
      are the texts of the address replies, in order. A closed tun device counts nothing. */
  lemma {:induction false} SeenOf(v: View, fs: seq<Frame>, now: int, tunOpen: bool)
    ensures var v' := SeeAll(v, fs, now, tunOpen);
            && v'.lastFrom == (if exists f | f in fs :: f.kind == 104 then now else v.lastFrom)
            && v'.replies == v.replies + Payloads(fs, 101)
            && (!tunOpen ==> v'.inBytes == v.inBytes && v'.inPackets == v.inPackets)
    decreases |fs|
  {
    if fs == [] {
      Units(v.replies);
    } else {
      var front, f := fs[..|fs| - 1], fs[|fs| - 1];
      SeenOf(v, front, now, tunOpen);
      assert fs == front + [f];
      PayloadsStep(front, f, 101);
      Associative(v.replies, Payloads(front, 101), [f.payload]);
      Units(v.replies + Payloads(front, 101));
      Units(Payloads(front, 101));
    }
  }

  /** The packets of the frames that reach an open tun device. */
  function Downlink(fs: seq<Frame>, tunOpen: bool): seq<seq<byte>> {
    if tunOpen then Payloads(fs, DATA_DOWN) else []
  }

  lemma DownlinkOne(f: Frame, tunOpen: bool)
    ensures Downlink([f], tunOpen) == if f.kind == DATA_DOWN && tunOpen then [f.payload] else []
  {
    PayloadsStep([], f, DATA_DOWN);
    Units([f]);
  }

  /** Each write to the tun device takes five bytes more than the packet: whatever follows it in memory. */
  predicate Overruns(writes: seq<seq<byte>>, packets: seq<seq<byte>>) {
    && |writes| == |packets|
    && forall i | 0 <= i < |writes| :: |writes[i]| == |packets[i]| + HEADER && packets[i] <= writes[i]
  }

  /** The frames `fs` have been dispatched: `v'` is what they made of `v`, and `added` are the tun writes. */
  ghost predicate Handled(v: View, fs: seq<Frame>, now: int, tunOpen: bool, v': View, added: seq<seq<byte>>) {
    && (forall f | f in fs :: Known(f))
    && v' == SeeAll(v, fs, now, tunOpen)
    && Overruns(added, Downlink(fs, tunOpen))
  }

  lemma SeeAllStep(v: View, fs: seq<Frame>, n: nat, now: int, tunOpen: bool)
    requires n < |fs|
    ensures SeeAll(v, fs[..n + 1], now, tunOpen) == See(SeeAll(v, fs[..n], now, tunOpen), fs[n], now, tunOpen)
  {
    assert fs[..n + 1][..n] == fs[..n];
  }

  lemma DownlinkStep(fs: seq<Frame>, n: nat, tunOpen: bool)
    requires n < |fs|
    ensures Downlink(fs[..n + 1], tunOpen) == Downlink(fs[..n], tunOpen) + Downlink([fs[n]], tunOpen)
  {
    assert fs[..n] + [fs[n]] == fs[..n + 1];
    PayloadsAppend(fs[..n], [fs[n]], DATA_DOWN);
  }

  lemma KnownStep(fs: seq<Frame>, n: nat)
    requires n < |fs| && (forall f | f in fs[..n] :: Known(f)) && Known(fs[n])
    ensures forall f | f in fs[..n + 1] :: Known(f)
  {
    assert fs[..n] + [fs[n]] == fs[..n + 1];
  }

  lemma OverrunsAppend(ws: seq<seq<byte>>, ps: seq<seq<byte>>, ws': seq<seq<byte>>, ps': seq<seq<byte>>)
    requires Overruns(ws, ps) && Overruns(ws', ps')
    ensures Overruns(ws + ws', ps + ps')
  {
  }

  lemma HandledStep(v: View, fs: seq<Frame>, n: nat, now: int, tunOpen: bool, v': View,
                    added: seq<seq<byte>>, writes: seq<seq<byte>>)
    requires n < |fs| && Handled(v, fs[..n], now, tunOpen, v', added) && Known(fs[n])
    requires Overruns(writes, Downlink([fs[n]], tunOpen))
    ensures Handled(v, fs[..n + 1], now, tunOpen, See(v', fs[n], now, tunOpen), added + writes)
  {
    SeeAllStep(v, fs, n, now, tunOpen);
    KnownStep(fs, n);
    DownlinkStep(fs, n, tunOpen);
    OverrunsAppend(added, Downlink(fs[..n], tunOpen), writes, Downlink([fs[n]], tunOpen));
  }

  /** The outcome of draining `c`: `handled` frames took effect and the rest is still in the buffer; the
      drain succeeds only when it leaves no whole frame. */
  ghost predicate Drained(c: seq<byte>, v: View, now: int, tunOpen: bool, ok: bool, handled: nat,
                          c': seq<byte>, v': View, added: seq<seq<byte>>) {
    var p := Parse(c);
    && handled <= |p.frames| && Encodable(p.frames[handled..])
    && c' == EncodeAll(p.frames[handled..]) + p.rest
    && (ok ==> handled == |p.frames| && p.sane)
    && Handled(v, p.frames[..handled], now, tunOpen, v', added)
  }

  /** A drain of `c0` under way: the first `handled` frames have been dispatched and took `v0` to `v`, the tun
      device took the writes `added`, and the buffer holds `c`. */
  datatype DrainState = DrainState(c0: seq<byte>, v0: View, now: int, tunOpen: bool,
                               handled: nat, c: seq<byte>, v: View, added: seq<seq<byte>>)

  ghost predicate Holds(d: DrainState) {
    var p := Parse(d.c0);
    && d.handled <= |p.frames|
    && Parse(d.c) == Parsed(p.frames[d.handled..], p.rest, p.sane)
    && Handled(d.v0, p.frames[..d.handled], d.now, d.tunOpen, d.v, d.added)
  }

  type Draining = d: DrainState | Holds(d)
    ghost witness DrainState([], View(0, 0, 0, []), 0, false, 0, [], View(0, 0, 0, []), [])

  lemma DrainingStarts(c0: seq<byte>, v0: View, now: int, tunOpen: bool) returns (d: Draining)
    ensures d == DrainState(c0, v0, now, tunOpen, 0, c0, v0, [])
  {
    assert Parse(c0).frames[0..] == Parse(c0).frames;
    d := DrainState(c0, v0, now, tunOpen, 0, c0, v0, []);
  }

  lemma HeadIsNext(d: Draining, f: Frame)
    requires HeadOf(d.c, Ready(f))
    ensures var p := Parse(d.c0);
            && d.handled < |p.frames| && p.frames[d.handled] == f
            && Parse(d.c[Size(f)..]) == Parsed(p.frames[d.handled + 1..], p.rest, p.sane)
  {
    TakeFirst(Parse(d.c0).frames, d.handled, f, Parse(d.c[Size(f)..]).frames);
  }

  lemma DrainingGoesOn(d: Draining, c: seq<byte>, v: View, writes: seq<seq<byte>>) returns (d': Draining)
    requires Holds(DrainState(d.c0, d.v0, d.now, d.tunOpen, d.handled + 1, c, v, d.added + writes))
    ensures d' == DrainState(d.c0, d.v0, d.now, d.tunOpen, d.handled + 1, c, v, d.added + writes)
  {
    d' := DrainState(d.c0, d.v0, d.now, d.tunOpen, d.handled + 1, c, v, d.added + writes);
  }

  lemma DrainingStep(d: Draining, f: Frame, writes: seq<seq<byte>>) returns (d': Draining)
    requires HeadOf(d.c, Ready(f)) && Known(f) && Overruns(writes, Downlink([f], d.tunOpen))
    ensures d' == d.(handled := d.handled + 1, c := d.c[Size(f)..], v := See(d.v, f, d.now, d.tunOpen),
                     added := d.added + writes)
  {
    HeadIsNext(d, f);
    HandledStep(d.v0, Parse(d.c0).frames, d.handled, d.now, d.tunOpen, d.v, d.added, writes);
    d' := DrainingGoesOn(d, d.c[Size(f)..], See(d.v, f, d.now, d.tunOpen), writes);
  }

  lemma DrainingEnds(d: Draining, head: Head)
    requires HeadOf(d.c, head)
    ensures Drained(d.c0, d.v0, d.now, d.tunOpen, head.Waiting?, d.handled, d.c, d.v, d.added)
  {
    Reassemble(d.c);
  }

  // ----- the answer to an address reply

  /** What the client passes to its Java service for a reply: five addresses and the socket. `beyond` is the
      memory behind the text, which carries no terminator of its own. */
  ghost predicate IsAnswer(text: seq<byte>, socketFd: int, answer: seq<byte>)
    requires 0 <= socketFd < 0x8000_0000
  {
    && |answer| == 24 && answer[20..] == Le32(socketFd)
    && exists beyond: seq<byte> :: AreRead(text + beyond, answer[..20])
  }

  /** The octets are those of the five addresses at the head of memory, if there are five. */
  ghost predicate AreRead(memory: seq<byte>, octets: seq<byte>) {
    |octets| == 20 && (ReadMany(memory, 5).Some? ==> octets == Flat(ReadMany(memory, 5).value))
  }

  lemma ReadIsAnswered(text: seq<byte>, beyond: seq<byte>, octets: seq<byte>, socketFd: int)
    requires 0 <= socketFd < 0x8000_0000 && AreRead(text + beyond, octets)
    ensures IsAnswer(text, socketFd, octets + Le32(socketFd))
  {
    var answer := octets + Le32(socketFd);
    assert answer[..20] == octets;
    assert AreRead(text + beyond, answer[..20]);
  }

  /** Each reply has its answer. */
  ghost predicate Answered(replies: seq<seq<byte>>, socketFd: int, answers: seq<seq<byte>>)
    requires 0 <= socketFd < 0x8000_0000
    decreases |replies|
  {
    && |answers| == |replies|
    && (replies == [] ||
        var n := |replies| - 1;
        Answered(replies[..n], socketFd, answers[..n]) && IsAnswer(replies[n], socketFd, answers[n]))
  }

  lemma AnsweredStep(replies: seq<seq<byte>>, socketFd: int, answers: seq<seq<byte>>, text: seq<byte>, answer: seq<byte>)
    requires 0 <= socketFd < 0x8000_0000 && Answered(replies, socketFd, answers) && IsAnswer(text, socketFd, answer)
    ensures Answered(replies + [text], socketFd, answers + [answer])
  {
    assert (replies + [text])[..|replies|] == replies && (answers + [answer])[..|answers|] == answers;
  }

  /** A reply with a terminator is passed on as it was printed. */
  lemma TerminatedReplyAnswered(qs: seq<Quad>, socketFd: int, answer: seq<byte>)
    requires |qs| == 5 && 0 <= socketFd < 0x8000_0000 && IsAnswer(ConfigText(qs) + [NUL], socketFd, answer)
    ensures answer == Flat(qs) + Le32(socketFd)
  {
    var beyond: seq<byte> :| AreRead((ConfigText(qs) + [NUL]) + beyond, answer[..20]);
    Associative(ConfigText(qs), [NUL], beyond);
    ConfigRoundTrip(qs, [NUL] + beyond);
    SplitAt(answer, 20);
  }

  /** The scanning of a reply, of which `all` comes in the end, after `j` addresses. */
  ghost predicate Scanning(all: Option<seq<Quad>>, j: nat, ptr: seq<byte>, octets: seq<byte>)
    requires j <= 5 && (all.Some? ==> |all.value| == 5)
  {
    && |octets| == 4 * j
    && (all.Some? ==> ReadMany(ptr, 5 - j) == Some(all.value[j..]) && octets == Flat(all.value[..j]))
  }

  lemma ScanningStep(all: Option<seq<Quad>>, j: nat, ptr: seq<byte>, octets: seq<byte>, ip: Quad)
    requires j < 5 && ptr != [] && (all.Some? ==> |all.value| == 5) && Scanning(all, j, ptr, octets)
    requires ScanQuad(ptr).Some? ==> ip == ScanQuad(ptr).value
    ensures Scanning(all, j + 1, Advance(ptr), octets + ip)
  {
    if all.Some? {
      var qs := all.value;
      FlatStep(qs, j);
      assert qs[j..][0] == qs[j] && qs[j..][1..] == qs[j + 1..];
      assert ReadMany(ptr, 5 - j).value[1..] == ReadMany(Advance(ptr), 4 - j).value;
    }
  }

  // ----- the handlers

  class Client {
    const inbox: Inbox
    const socketFd: int
    var tunFd: int
    var lastFrom: int
    var lastTo: int
    var inBytes: int
    var outBytes: int
    var inPackets: int
    var outPackets: int
    ghost var toServer: seq<byte>
    ghost var toTun: seq<seq<byte>>
    ghost var replies: seq<seq<byte>>
    ghost var answers: seq<seq<byte>>

    /** Every reply handled has been answered to the Java service. */
    ghost predicate Valid()
      reads this, inbox
    {
      inbox.Holds(BUFFER_SIZE) && 0 <= socketFd < 0x8000_0000 && Answered(replies, socketFd, answers)
    }

    ghost function Seen(): View
      reads this
    {
      View(lastFrom, inBytes, inPackets, replies)
    }

    /** `protocol_init`. */
    constructor (now: int, socketFd: int)
      requires 0 <= socketFd < 0x8000_0000
      ensures this.socketFd == socketFd && Valid() && fresh(inbox) && fresh(inbox.buf) && inbox.Content() == []
      ensures inbox.Holds(4194304)
      ensures Seen() == View(now, 0, 0, []) && lastTo == now && tunFd == -1
      ensures outBytes == 0 && outPackets == 0 && toServer == [] && toTun == []
    {
      inbox := new Inbox(BUFFER_SIZE);
      this.socketFd := socketFd;
      tunFd, lastFrom, lastTo := -1, now, now;
      inBytes, outBytes, inPackets, outPackets := 0, 0, 0, 0;
      toServer, toTun, replies, answers := [], [], [], [];
    }

    /** One `write` to the server; the client takes a short one for a failure. */
    method WriteServer(data: seq<byte>) returns (ok: bool, ghost sent: nat)
      modifies `toServer
      ensures sent <= |data| && (ok <==> sent == |data|) && toServer == old(toServer) + data[..sent]
    {
      var some: nat := *;
      sent := some % (|data| + 1);
      ok := some % (|data| + 1) == |data|;
      toServer := toServer + data[..sent];
    }

    /** `handle_tunnel`: one packet read from the tun device becomes one frame; a failed write leaves a part. */
    method HandleTunnel(read: Option<seq<byte>>) returns (ok: bool, ghost sent: nat)
      requires read.Some? ==> |read.value| <= 4194304
      modifies `toServer, `outBytes, `outPackets
      ensures read.None? ==> !ok && sent == 0
      ensures read == Some([]) ==> ok && sent == 0
      ensures sent == 0 ==> toServer == old(toServer)
      ensures read.Some? && read.value != [] ==>
                var f := Frame(102, read.value);
                sent <= Size(f) && (ok <==> sent == Size(f)) && toServer == old(toServer) + Encode(f)[..sent]
      ensures ok && read.value != [] ==>
                outBytes == (old(outBytes) + |read.value|) % U64 && outPackets == (old(outPackets) + 1) % U64
      ensures !ok || read.value == [] ==> outBytes == old(outBytes) && outPackets == old(outPackets)
    {
      if read.None? {
        return false, 0;
      }
      var data := read.value;
      if data == [] {
        return true, 0;
      }
      ghost var whole := Encode(Frame(DATA_UP, data));
      var header := Le32(HEADER + |data|) + [DATA_UP];
      assert whole == header + data;
      ok, sent := WriteServer(header);
      assert header[..sent] == whole[..sent];
      if !ok {
        return;
      }
      ghost var more: nat;
      ok, more := WriteServer(data);
      sent := HEADER + more;
      Associative(old(toServer), header, data[..more]);
      assert header + data[..more] == whole[..sent];
      if !ok {
        return;
      }
      outPackets := (outPackets + 1) % U64;
      outBytes := (outBytes + |data|) % U64;
    }

    /** `handle_heartbeat`: false makes the client leave its loop. */
    method HandleHeartbeat(now: int) returns (ok: bool, ghost sent: nat)
      modifies `toServer, `lastTo
      ensures match Check(now, lastFrom, old(lastTo))
              case TimedOut => !ok && toServer == old(toServer)
              case Quiet => ok && toServer == old(toServer)
              case Due =>
                var beat := Frame(KEEPALIVE, []);
                && sent <= Size(beat) && (ok <==> sent == Size(beat))
                && toServer == old(toServer) + Encode(beat)[..sent]
      // after more than a minute of silence nothing is written, whatever is due
      ensures now - lastFrom > 60 ==> !ok && toServer == old(toServer) && lastTo == old(lastTo)
      // a keep-alive is written when the last one is more than twenty seconds old, and not before
      ensures now - lastFrom <= 60 && now - old(lastTo) <= 20 ==>
                ok && toServer == old(toServer) && lastTo == old(lastTo)
      ensures now - lastFrom <= 60 && now - old(lastTo) > 20 ==>
                && sent <= 5 && toServer == old(toServer) + [5, 0, 0, 0, 104][..sent]
                && (ok <==> sent == 5) && lastTo == if ok then now else old(lastTo)
    {
      sent := 0;
      OnTheWire(Frame(KEEPALIVE, []));
      if now - lastFrom > HEARTBEAT_TIMEOUT_SECS {
        return false, sent;
      }
      ok := true;
      if now - lastTo > HEARTBEAT_INTERVAL_SECS {
        ok, sent := WriteServer(Encode(Frame(KEEPALIVE, [])));
        if ok {
          lastTo := now;
        }
      }
    }

    /** The five bytes too many are those behind the packet in the buffer, and behind the buffer at its end. */
    method WriteTun(f: Frame) returns (ok: bool, ghost packet: seq<byte>)
      requires Valid() && Size(f) <= inbox.used && inbox.Content()[HEADER..Size(f)] == f.payload
      modifies `toTun
      ensures |packet| == Size(f) && f.payload <= packet
      ensures toTun == old(toTun) + (if ok then [packet] else [])
    {
      var to := if HEADER + Size(f) <= inbox.buf.Length then HEADER + Size(f) else inbox.buf.Length;
      assert |seq(HEADER + Size(f) - to, _ => 0 as byte)| == HEADER + Size(f) - to;
      ghost var beyond: seq<byte> :| |beyond| == HEADER + Size(f) - to;
      packet := inbox.buf[HEADER..to] + beyond;
      forall i | 0 <= i < |f.payload| ensures packet[i] == f.payload[i] {
        assert f.payload[i] == inbox.Content()[HEADER..Size(f)][i] == inbox.Content()[HEADER + i];
        assert inbox.Content()[HEADER + i] == inbox.buf[HEADER + i] == inbox.buf[HEADER..to][i];
      }
      ok := *;
      if ok {
        toTun := toTun + [packet];
      }
    }

    /** Five calls of `READ_IP` on a copy of the text, with `behind` the memory behind the copy. `READ_IP` leaves
        numbers it does not find unset. */
    method ReadReply(text: seq<byte>, behind: seq<byte>) returns (octets: seq<byte>)
      requires Ends(behind, 6)
      ensures AreRead(text + behind, octets)
    {
      var ptr := text + behind;
      ghost var all := ReadMany(ptr, 5);
      octets := [];
      assert all.Some? ==> all.value[0..] == all.value && all.value[..0] == [];
      for j := 0 to 5
        invariant Ends(ptr, 6 - j) && Scanning(all, j, ptr, octets)
      {
        AdvanceEnds(ptr, 6 - j);
        EndsStop(ptr, 6 - j);
        var ip: Option<Quad>;
        var q: Quad := *;
        ghost var before := ptr;
        ip, ptr := ReadIp(ptr);
        if ip.Some? {
          q := ip.value;
        }
        ScanningStep(all, j, before, octets, q);
        octets := octets + q;
      }
      assert all.Some? ==> all.value[..5] == all.value;
    }

    /** The branch for an address reply; it fails when a write to the response pipe does. */
    method AnswerReply(text: seq<byte>) returns (ok: bool)
      requires Valid()
      modifies `replies, `answers
      ensures Valid() && old(answers) <= answers
      ensures replies == if ok then old(replies) + [text] else old(replies)
    {
      var behind: seq<byte> := *;
      behind := behind + [NUL, NUL, NUL, NUL, NUL, NUL];
      var octets := ReadReply(text, behind);
      ReadIsAnswered(text, behind, octets, socketFd);
      ghost var answer := octets + Le32(socketFd);
      ok := *;
      AnsweredStep(replies, socketFd, answers, text, answer);
      if ok {
        replies, answers := replies + [text], answers + [answer];
      }
    }

    /** The dispatch of one frame in `handle_socket`; `writes` are what the tun device took. */
    method HandleFrame(f: Frame, now: int) returns (ok: bool, ghost writes: seq<seq<byte>>)
      requires Valid() && Size(f) <= inbox.used && inbox.Content()[HEADER..Size(f)] == f.payload
      modifies `lastFrom, `inBytes, `inPackets, `replies, `answers, `toTun
      ensures Valid() && old(answers) <= answers && toTun == old(toTun) + writes
      ensures ok ==> Known(f) && Seen() == See(old(Seen()), f, now, tunFd >= 0)
                     && Overruns(writes, Downlink([f], tunFd >= 0))
      ensures !ok ==> Seen() == old(Seen()) && writes == []
    {
      writes := [];
      DownlinkOne(f, tunFd >= 0);
      if f.kind == IP_REPLY {
        ok := AnswerReply(f.payload);
        return;
      } else if f.kind == KEEPALIVE {
        lastFrom := now;
      } else if f.kind == DATA_DOWN {
        if tunFd >= 0 {
          ghost var packet;
          ok, packet := WriteTun(f);
          if !ok {
            return;
          }
          writes := [packet];
          inBytes := (inBytes + Size(f)) % U64;
          inPackets := (inPackets + 1) % U64;
        }
      } else {
        return false, writes;
      }
      ok := true;
    }

    /** The body of the loop of `handle_socket`; a frame that is not handled stays in the buffer. */
    method ServeHead(now: int) returns (head: Head, ok: bool, ghost writes: seq<seq<byte>>)
      requires Valid()
      modifies `lastFrom, `inBytes, `inPackets, `replies, `answers, `toTun, inbox`used, inbox.buf
      ensures Valid() && old(answers) <= answers && HeadOf(old(inbox.Content()), head)
      ensures toTun == old(toTun) + writes
      ensures !head.Ready? || !ok ==>
                inbox.Content() == old(inbox.Content()) && Seen() == old(Seen()) && writes == []
      ensures head.Ready? && ok ==>
                var f := head.f;
                && Known(f) && Overruns(writes, Downlink([f], tunFd >= 0))
                && inbox.Content() == old(inbox.Content())[Size(f)..] && inbox.used < old(inbox.used)
                && Seen() == See(old(Seen()), f, now, tunFd >= 0)
    {
      ok, writes := true, [];
      head := inbox.Peek();
      if head.Ready? {
        ok, writes := HandleFrame(head.f, now);
        if ok {
          inbox.Consume(Size(head.f));
        }
      }
    }

    /** The loop of `handle_socket`; `added` are the writes the tun device took. */
    method Drain(now: int) returns (ok: bool, ghost handled: nat, ghost added: seq<seq<byte>>)
      requires Valid()
      modifies `lastFrom, `inBytes, `inPackets, `replies, `answers, `toTun, inbox`used, inbox.buf
      ensures Valid() && toTun == old(toTun) + added
      ensures Drained(old(inbox.Content()), old(Seen()), now, tunFd >= 0, ok, handled, inbox.Content(), Seen(), added)
    {
      ghost var d := DrainingStarts(inbox.Content(), Seen(), now, tunFd >= 0);
      while true
        invariant Valid() && toTun == old(toTun) + d.added
        invariant d.c == inbox.Content() && d.v == Seen()
        invariant d == DrainState(old(inbox.Content()), old(Seen()), now, tunFd >= 0, d.handled, d.c, d.v, d.added)
        decreases inbox.used
      {
        ghost var writes;
        var head;
        head, ok, writes := ServeHead(now);
        if !head.Ready? || !ok {
          DrainingEnds(d, head);
          return head.Waiting?, d.handled, d.added;
        }
        Associative(old(toTun), d.added, writes);
        d := DrainingStep(d, head.f, writes);
      }
    }

    /** `handle_socket`. It gives up, leaving the frame in the buffer, at a frame of unknown type, when the tun
        device refuses a packet and when the response pipe does not take an answer. */
    method HandleSocket(read: Option<seq<byte>>, now: int)
        returns (ok: bool, ghost handled: nat, ghost added: seq<seq<byte>>)
      requires Valid() && (read.Some? ==> |read.value| <= BUFFER_SIZE - inbox.used)
      modifies `lastFrom, `inBytes, `inPackets, `replies, `answers, `toTun, inbox`used, inbox.buf
      ensures Valid() && toTun == old(toTun) + added
      ensures ok ==> read.Some? &&
                     forall f | f in Parse(old(inbox.Content()) + read.value).frames :: f.kind in {101, 103, 104}
      ensures read.None? ==> !ok && Seen() == old(Seen()) && added == []
      ensures read.Some? ==>
                Drained(old(inbox.Content()) + read.value, old(Seen()), now, tunFd >= 0, ok, handled,
                        inbox.Content(), Seen(), added)
    {
      if read.None? {
        return false, 0, [];
      }
      inbox.Fill(read.value);
      ghost var fs := Parse(inbox.Content()).frames;
      ok, handled, added := Drain(now);
      assert fs[..|fs|] == fs;
    }

    /** The branch of `handle_command` that asks the server for an address. */
    method FetchConfig() returns (ok: bool, ghost sent: nat)
      modifies `toServer
      ensures var request := Frame(IP_REQUEST, []);
              && sent <= Size(request) && (ok <==> sent == Size(request))
              && toServer == old(toServer) + Encode(request)[..sent]
      ensures sent <= 5 && toServer == old(toServer) + [5, 0, 0, 0, 100][..sent]
    {
      OnTheWire(Frame(IP_REQUEST, []));
      ok, sent := WriteServer(Encode(Frame(IP_REQUEST, [])));
    }
  }

  /** Bytes of packets, each with its header. */
  function Weight(packets: seq<seq<byte>>): int {
    |Flat(packets)| + 5 * |packets|
  }

  lemma AddModulo(a: int, b: int, c: int)
    ensures ((a + b) % U64 + c) % U64 == (a + (b + c)) % U64
  {
  }

  /** The byte counters of the two directions do not measure the same thing: a packet sent counts its own
      bytes, a packet received counts its header too. Both are 64 bits wide. */
  lemma {:induction false} CountersOfDownlink(v: View, fs: seq<Frame>, now: int)
    requires 0 <= v.inBytes < U64 && 0 <= v.inPackets < U64
    ensures var v', packets := SeeAll(v, fs, now, true), Payloads(fs, 103);
            && v'.inPackets == (v.inPackets + |packets|) % 0x1_0000_0000_0000_0000
            && v'.inBytes == (v.inBytes + |Flat(packets)| + 5 * |packets|) % 0x1_0000_0000_0000_0000
    decreases |fs|
  {
    if fs != [] {
      var front, f := fs[..|fs| - 1], fs[|fs| - 1];
      CountersOfDownlink(v, front, now);
      if f.kind == DATA_DOWN {
        var ps := Downlink(front, true);
        FlatAppend(ps, f.payload);
        assert Weight(ps + [f.payload]) == Weight(ps) + Size(f);
        AddModulo(v.inBytes, Weight(ps), Size(f));
        AddModulo(v.inPackets, |ps|, 1);
      } else {
        assert Downlink(fs, true) == Downlink(front, true);
      }
    }
  }

  lemma FlatAppend(ps: seq<seq<byte>>, p: seq<byte>)
    ensures Flat(ps + [p]) == Flat(ps) + p
  {
    FlatStep(ps + [p], |ps|);
    assert (ps + [p])[..|ps| + 1] == ps + [p] && (ps + [p])[..|ps|] == ps;
  }
}
