/** The single-client server with non-blocking sockets: packets from the tun device collect in a buffer that
    keeps growing while a frame cut from it is still being written. */
module PipeServer {
  import opened Wire
  import opened Config
  import opened Wrappers
  import opened DrainBuffer
  import opened Sequences

  const PIPE_BUF_LEN := 6553600
  const READ_SIZE := 65536

  /** The way to the client: the buffered bytes, how many of them the frame being written still lacks, and
      the bytes written so far. Of those, `done` are the frames completed and `body` the payload already sent
      of the open one; `fromTun` is everything read from the tun device. */
  datatype Pipe = Pipe(buf: seq<byte>, remain: int, wire: seq<byte>,
                       done: seq<Frame>, body: seq<byte>, fromTun: seq<byte>)

  function HeaderOf(length: int): (h: seq<byte>)
    requires 0 <= length < 0x8000_0000
    ensures |h| == HEADER
  {
    Le32(length) + [DATA_DOWN]
  }

  /** The part of the open frame that is on the wire. */
  function Open(p: Pipe): seq<byte>
    requires 0 <= p.remain && HEADER + |p.body| + p.remain < 0x8000_0000
  {
    if p.remain == 0 then [] else HeaderOf(HEADER + |p.body| + p.remain) + p.body
  }

  /** The payloads of the packet frames, run together. */
  function Carried(fs: seq<Frame>): seq<byte>
    decreases |fs|
  {
    if fs == [] then []
    else
      var f := fs[|fs| - 1];
      Carried(fs[..|fs| - 1]) + (if f.kind == DATA_DOWN then f.payload else [])
  }

  /** The wire is whole frames and then one that lacks exactly the first `remain` bytes of the buffer; and
      every byte from the tun device is in a completed frame, in the open one, or still buffered. */
  ghost predicate Framed(p: Pipe) {
    && 0 <= p.remain <= |p.buf| <= PIPE_BUF_LEN
    && Encodable(p.done) && HEADER + |p.body| + p.remain < 0x8000_0000
    && (p.remain == 0 ==> p.body == [])
    && p.wire == EncodeAll(p.done) + Open(p)
    && p.fromTun == Carried(p.done) + (p.body + p.buf)
  }

  // ----- the four things that happen to it

  function Absorb(p: Pipe, data: seq<byte>): Pipe {
    p.(buf := p.buf + data, fromTun := p.fromTun + data)
  }

  function Taken(n: int): nat {
    if n < 0 then 0 else n
  }

  /** The buffer after `memmove(buffer, buffer + n, used - n)`, also for a failed write (`n == -1`). */
  function Shifted(buf: seq<byte>, n: int, junk: byte): seq<byte>
    requires -1 <= n <= |buf|
  {
    if n < 0 then [junk] + buf else buf[n..]
  }

  predicate WriteResults(p: Pipe, hdr: int, n: int) {
    && -1 <= hdr <= HEADER
    && -1 <= n <= (if p.remain == 0 then |p.buf| else p.remain)
    && 0 <= p.remain <= |p.buf| <= PIPE_BUF_LEN
  }

  /** `rawToOver6`, whatever its writes return: `hdr` for the header, `n` for the data. */
  function Flush(p: Pipe, hdr: int, n: int, junk: byte): Pipe
    requires WriteResults(p, hdr, n)
  {
    if p.buf == [] then p
    else if p.remain == 0 then
      var len := |p.buf|;
      var wire := p.wire + (HeaderOf(HEADER + len)[..Taken(hdr)] + p.buf[..Taken(n)]);
      if n == len then
        Pipe([], 0, wire, p.done + [Frame(DATA_DOWN, p.buf)], [], p.fromTun)
      else
        Pipe(Shifted(p.buf, n, junk), len - n, wire, p.done, p.buf[..Taken(n)], p.fromTun)
    else
      var wire, body := p.wire + p.buf[..Taken(n)], p.body + p.buf[..Taken(n)];
      if n == p.remain then
        Pipe(p.buf[n..], 0, wire, p.done + [Frame(DATA_DOWN, body)], [], p.fromTun)
      else
        Pipe(Shifted(p.buf, n, junk), p.remain - n, wire, p.done, body, p.fromTun)
  }

  /** A frame of its own, written wherever the wire stands: `hdr` and `n` are the results of the writes of its
      header and its payload, the second of which is made whatever the first returned. */
  function Insert(p: Pipe, f: Frame, hdr: int, n: int): Pipe
    requires InsertResults(f, hdr, n)
  {
    p.(wire := p.wire + (Encode(f)[..Taken(hdr)] + f.payload[..Taken(n)]),
       done := if hdr == HEADER && n == |f.payload| then p.done + [f] else p.done)
  }

  predicate InsertResults(f: Frame, hdr: int, n: int) {
    Size(f) < 0x8000_0000 && -1 <= hdr <= HEADER && -1 <= n <= |f.payload|
  }

  const HEARTBEAT_FRAME := Frame(KEEPALIVE, [])

  function ReplyQuads(): seq<Quad> {
    [[10, 10, 10, 2], [255, 255, 255, 0], [166, 111, 8, 28], [166, 111, 8, 29], [8, 8, 8, 8]]
  }

  /** This server's reply ends in a terminator. */
  function ReplyFrame(): (f: Frame)
    ensures f.kind == IP_REPLY && Size(f) < 0x8000_0000
  {
    TextIsShort(ReplyQuads());
    Frame(IP_REPLY, ConfigText(ReplyQuads()) + [NUL])
  }

  lemma ReplyReadBack(after: seq<byte>)
    ensures ReadMany(ReplyFrame().payload + after, 5)
         == Some([[10, 10, 10, 2], [255, 255, 255, 0], [166, 111, 8, 28], [166, 111, 8, 29], [8, 8, 8, 8]])
  {
    ConfigRoundTrip(ReplyQuads(), [NUL] + after);
    Associative(ConfigText(ReplyQuads()), [NUL], after);
  }

  // ----- what they keep, and exactly when

  lemma {:induction false} CarriedStep(fs: seq<Frame>, f: Frame)
    ensures Carried(fs + [f]) == Carried(fs) + (if f.kind == DATA_DOWN then f.payload else [])
  {
    assert (fs + [f])[..|fs|] == fs;
  }

  lemma AbsorbKeeps(p: Pipe, data: seq<byte>)
    requires Framed(p) && |p.buf + data| <= PIPE_BUF_LEN
    ensures Framed(Absorb(p, data))
  {
    Associative(p.body, p.buf, data);
    Associative(Carried(p.done), p.body + p.buf, data);
  }

  lemma BetweenFrames(p: Pipe)
    requires Framed(p) && p.remain == 0
    ensures p.wire == EncodeAll(p.done) && p.fromTun == Carried(p.done) + p.buf
  {
    Units(EncodeAll(p.done));
    Units(p.buf);
  }

  /** Opening a frame with everything buffered, without finishing it. */
  lemma OpenPartKeeps(p: Pipe, n: nat, junk: byte)
    requires Framed(p) && p.remain == 0 && n < |p.buf|
    ensures Framed(Flush(p, HEADER, n, junk))
  {
    BetweenFrames(p);
    var header := HeaderOf(HEADER + |p.buf|);
    assert header[..HEADER] == header;
    SplitAt(p.buf, n);
  }

  /** Writing a whole frame at once. */
  lemma OpenWholeKeeps(p: Pipe, junk: byte)
    requires Framed(p) && p.remain == 0 && p.buf != []
    ensures Framed(Flush(p, HEADER, |p.buf|, junk))
  {
    BetweenFrames(p);
    var f := Frame(DATA_DOWN, p.buf);
    EncodeAllStep(p.done, f);
    CarriedStep(p.done, f);
    var header := HeaderOf(HEADER + |p.buf|);
    assert header[..HEADER] + p.buf[..|p.buf|] == Encode(f);
    Units(EncodeAll(p.done + [f]));
    Units(Carried(p.done + [f]));
    Units<byte>([]);
  }

  /** The wire after `more` of the open frame's payload. */
  lemma OpenGrows(p: Pipe, more: seq<byte>)
    requires Framed(p) && p.remain > 0
    ensures p.wire + more == EncodeAll(p.done) + (HeaderOf(HEADER + |p.body| + p.remain) + (p.body + more))
  {
    Associative(HeaderOf(HEADER + |p.body| + p.remain), p.body, more);
    Associative(EncodeAll(p.done), Open(p), more);
  }

  /** Going on with the open frame without finishing it. */
  lemma ContinueKeeps(p: Pipe, n: nat, hdr: int, junk: byte)
    requires Framed(p) && n < p.remain && -1 <= hdr <= HEADER
    ensures Framed(Flush(p, hdr, n, junk))
  {
    OpenGrows(p, p.buf[..n]);
    SplitAt(p.buf, n);
    Associative(p.body, p.buf[..n], p.buf[n..]);
  }

  /** Finishing the open frame. */
  lemma FinishKeeps(p: Pipe, hdr: int, junk: byte)
    requires Framed(p) && p.remain > 0 && -1 <= hdr <= HEADER
    ensures Framed(Flush(p, hdr, p.remain, junk))
  {
    var more, later := p.buf[..p.remain], p.buf[p.remain..];
    var f := Frame(DATA_DOWN, p.body + more);
    OpenGrows(p, more);
    assert HeaderOf(HEADER + |p.body| + p.remain) + (p.body + more) == Encode(f);
    EncodeAllStep(p.done, f);
    CarriedStep(p.done, f);
    assert EncodeAll(p.done + [f]) + [] == EncodeAll(p.done + [f]);
    SplitAt(p.buf, p.remain);
    Associative(p.body, more, later);
    Associative(Carried(p.done), p.body + more, later);
    assert [] + later == later;
  }

  /** `rawToOver6` keeps the framing exactly when its data write did not fail and, where it starts a frame,
      the header was taken whole. */
  lemma FlushKeepsIff(p: Pipe, hdr: int, n: int, junk: byte)
    requires Framed(p) && p.buf != [] && WriteResults(p, hdr, n)
    ensures Framed(Flush(p, hdr, n, junk)) <==> n >= 0 && (p.remain == 0 ==> hdr == HEADER)
  {
    var q := Flush(p, hdr, n, junk);
    if n >= 0 && (p.remain == 0 ==> hdr == HEADER) {
      if p.remain == 0 {
        if n < |p.buf| {
          OpenPartKeeps(p, n, junk);
        } else {
          OpenWholeKeeps(p, junk);
        }
      } else if n < p.remain {
        ContinueKeeps(p, n, hdr, junk);
      } else {
        FinishKeeps(p, hdr, junk);
      }
    } else if n < 0 {
      // one byte more is buffered than was ever read
      assert |q.body + q.buf| == |p.body + p.buf| + 1;
    } else {
      // the header on the wire is short
      assert |q.wire| == |p.wire| + Taken(hdr) + n;
      if n == |p.buf| {
        EncodeAllStep(p.done, Frame(DATA_DOWN, p.buf));
      }
    }
  }

  /** The type byte where the open frame began would have to be that of both frames. */
  lemma InsertBreaks(p: Pipe, f: Frame)
    requires Framed(p) && f.kind != DATA_DOWN && Size(f) < 0x8000_0000 && p.remain > 0
    ensures !Framed(Insert(p, f, HEADER, |f.payload|))
  {
    var e, o, k := Encode(f), Open(p), |EncodeAll(p.done)|;
    EncodeAllStep(p.done, f);
    assert e[..HEADER] + f.payload[..|f.payload|] == e;
    assert ((EncodeAll(p.done) + o) + e)[k + 4] == o[4] == DATA_DOWN;
    assert ((EncodeAll(p.done) + e) + o)[k + 4] == e[4] == f.kind;
  }

  lemma InsertWholeKeeps(p: Pipe, f: Frame)
    requires Framed(p) && f.kind != DATA_DOWN && Size(f) < 0x8000_0000 && p.remain == 0
    ensures Framed(Insert(p, f, HEADER, |f.payload|))
  {
    assert Encode(f)[..HEADER] + f.payload[..|f.payload|] == Encode(f);
    EncodeAllStep(p.done, f);
    CarriedStep(p.done, f);
    Units(Carried(p.done));
    Units(EncodeAll(p.done));
    Units(EncodeAll(p.done + [f]));
  }

  lemma InsertPartKeepsIff(p: Pipe, f: Frame, hdr: int, n: int)
    requires Framed(p) && InsertResults(f, hdr, n) && !(hdr == HEADER && n == |f.payload|)
    ensures Framed(Insert(p, f, hdr, n)) <==> hdr <= 0 && n <= 0
  {
    Units(p.wire);
    assert |Insert(p, f, hdr, n).wire| == |p.wire| + Taken(hdr) + Taken(n);
  }

  /** A heartbeat or an address reply keeps the framing exactly when none of it was written, or all of it while
      no frame was open. */
  lemma InsertKeepsIff(p: Pipe, f: Frame, hdr: int, n: int)
    requires Framed(p) && f.kind != DATA_DOWN && InsertResults(f, hdr, n)
    ensures Framed(Insert(p, f, hdr, n)) <==>
            (hdr <= 0 && n <= 0) || (p.remain == 0 && hdr == HEADER && n == |f.payload|)
  {
    if hdr == HEADER && n == |f.payload| {
      if p.remain == 0 {
        InsertWholeKeeps(p, f);
      } else {
        InsertBreaks(p, f);
      }
    } else {
      InsertPartKeepsIff(p, f, hdr, n);
    }
  }

  // ----- runs

  /** `hdr` and `n` are results of writes. */
  datatype Event =
    | FromTun(data: seq<byte>)
    | Writable(hdr: int, n: int, junk: byte)
    | BeatDue(hdr: int)
    | Asked(reply: Frame, hdr: int, n: int)

  predicate Possible(p: Pipe, e: Event) {
    match e
    case FromTun(data) => |p.buf + data| <= PIPE_BUF_LEN
    case Writable(hdr, n, _) => WriteResults(p, hdr, n)
    case BeatDue(hdr) => InsertResults(HEARTBEAT_FRAME, hdr, 0)
    case Asked(reply, hdr, n) => reply.kind == IP_REPLY && InsertResults(reply, hdr, n)
  }

  function Next(p: Pipe, e: Event): Pipe
    requires Possible(p, e)
  {
    match e
    case FromTun(data) => Absorb(p, data)
    case Writable(hdr, n, junk) => Flush(p, hdr, n, junk)
    // the event loop sends a heartbeat only between frames
    case BeatDue(hdr) => if p.remain == 0 then Insert(p, HEARTBEAT_FRAME, hdr, 0) else p
    case Asked(reply, hdr, n) => Insert(p, reply, hdr, n)
  }

  /** Data writes do not fail, headers go out whole, and heartbeats and replies whole or not at all, a reply only
      between frames. */
  predicate Orderly(p: Pipe, e: Event) {
    && Possible(p, e)
    && match e
       case FromTun(_) => true
       case Writable(hdr, n, _) => p.buf == [] || (n >= 0 && (p.remain == 0 ==> hdr == HEADER))
       case BeatDue(hdr) => p.remain != 0 || hdr <= 0 || hdr == HEADER
       case Asked(reply, hdr, n) =>
         (hdr <= 0 && n <= 0) || (p.remain == 0 && hdr == HEADER && n == |reply.payload|)
  }

  predicate Run(ps: seq<Pipe>, es: seq<Event>) {
    && |ps| == |es| + 1 && ps[0] == Pipe([], 0, [], [], [], [])
    && forall i | 0 <= i < |es| :: Orderly(ps[i], es[i]) && ps[i + 1] == Next(ps[i], es[i])
  }

  /** Each event keeps the framing exactly when it is orderly. */
  lemma NextFramedIff(p: Pipe, e: Event)
    requires Framed(p) && Possible(p, e)
    ensures Framed(Next(p, e)) <==> Orderly(p, e)
  {
    match e {
      case FromTun(data) => AbsorbKeeps(p, data);
      case Writable(hdr, k, junk) =>
        if p.buf != [] {
          FlushKeepsIff(p, hdr, k, junk);
        }
      case BeatDue(hdr) => InsertKeepsIff(p, HEARTBEAT_FRAME, hdr, 0);
      case Asked(reply, hdr, n) => InsertKeepsIff(p, reply, hdr, n);
    }
  }

  lemma {:induction false} RunFramed(ps: seq<Pipe>, es: seq<Event>, n: nat)
    requires Run(ps, es) && n < |ps|
    ensures Framed(ps[n])
  {
    if n == 0 {
      assert EncodeAll([]) + [] == [] && Carried([]) + ([] + []) == [];
    } else {
      RunFramed(ps, es, n - 1);
      NextFramedIff(ps[n - 1], es[n - 1]);
    }
  }

  /** What the client makes of the wire at any moment of a run: the completed frames, with the open one as
      its residue; and the packet bytes among them are a prefix of what the tun device delivered. */
  lemma RunReceived(ps: seq<Pipe>, es: seq<Event>, n: nat)
    requires Run(ps, es) && n < |ps|
    ensures var p := ps[n];
            && Framed(p)
            && Parse(p.wire) == Parsed(p.done, Open(p), true)
            && Carried(p.done) + p.body <= p.fromTun
            && |p.fromTun| == |Carried(p.done)| + |p.body| + |p.buf|
  {
    RunFramed(ps, es, n);
    var p := ps[n];
    ParseEncoded(p.done, Open(p));
    assert p.done + [] == p.done;
    if p.remain > 0 {
      OpenWaits(p);
    }
    Associative(Carried(p.done), p.body, p.buf);
  }

  lemma OpenWaits(p: Pipe)
    requires p.remain > 0 && HEADER + |p.body| + p.remain < 0x8000_0000
    ensures Parse(Open(p)) == Parsed([], Open(p), true)
  {
    var length := HEADER + |p.body| + p.remain;
    U32OfLe32(length);
    assert Open(p)[..4] == Le32(length);
    assert U32(Open(p)) == U32(Open(p)[..4]);
  }

  // ----- the handlers

  datatype Unsigned = More | Bad | Whole(f: Frame)

  /** What the head of a buffer offers the loop of `over6Handle`. */
  ghost predicate UnsignedHead(s: seq<byte>, head: Unsigned) {
    match head
    case More => ParseUnsigned(s) == Parsed([], s, true)
    case Bad => ParseUnsigned(s) == Parsed([], s, false)
    case Whole(f) => Size(f) <= |s| && ParseUnsigned(s) == ParseUnsigned(s[Size(f)..]).After([f])
  }

  /** One write to the tun device, and whether it took the packet. */
  datatype Try = Try(packet: seq<byte>, ok: bool)

  function Tried(ts: seq<Try>): (ps: seq<seq<byte>>)
    ensures |ps| == |ts| && forall i | 0 <= i < |ts| :: ps[i] == ts[i].packet
  {
    seq(|ts|, i requires 0 <= i < |ts| => ts[i].packet)
  }

  /** One address reply for each pair of write results. */
  function Answers(p: Pipe, results: seq<(int, int)>, reply: Frame): Pipe
    requires forall r | r in results :: InsertResults(reply, r.0, r.1)
    decreases |results|
  {
    if results == [] then p
    else
      var last := results[|results| - 1];
      Insert(Answers(p, results[..|results| - 1], reply), reply, last.0, last.1)
  }

  lemma AnswerStep(p: Pipe, results: seq<(int, int)>, reply: Frame, hdr: int, n: int)
    requires (forall r | r in results :: InsertResults(reply, r.0, r.1)) && InsertResults(reply, hdr, n)
    ensures Answers(p, results + [(hdr, n)], reply) == Insert(Answers(p, results, reply), reply, hdr, n)
  {
    assert (results + [(hdr, n)])[..|results|] == results;
  }

  /** The invariant of the loop of `over6Handle`: the first `n` frames are dispatched, the others buffered. */
  ghost predicate Handling(p: Parsed, n: nat, c: seq<byte>, added: seq<Try>) {
    && n <= |p.frames|
    && ParseUnsigned(c) == Parsed(p.frames[n..], p.rest, p.sane)
    && Tried(added) == Payloads(p.frames[..n], DATA_UP)
  }

  lemma HandlingStep(p: Parsed, n: nat, c: seq<byte>, added: seq<Try>, f: Frame, more: seq<Try>)
    requires Handling(p, n, c, added) && UnsignedHead(c, Whole(f))
    requires Tried(more) == if f.kind == DATA_UP then [f.payload] else []
    ensures n < |p.frames| && p.frames[n] == f
    ensures Handling(p, n + 1, c[Size(f)..], added + more)
  {
    TakeFirst(p.frames, n, f, ParseUnsigned(c[Size(f)..]).frames);
    PayloadsStep(p.frames[..n], f, DATA_UP);
    assert p.frames[..n] + [f] == p.frames[..n + 1];
    assert Tried(added + more) == Tried(added) + Tried(more);
  }

  /** The requests among the first `n` frames have been answered. */
  ghost predicate Answering(p: Parsed, n: nat, results: seq<(int, int)>, pipe: Pipe, reply: Frame, pipe': Pipe) {
    && n <= |p.frames| && (forall r | r in results :: InsertResults(reply, r.0, r.1))
    && |results| == Requests(p.frames[..n]) && pipe' == Answers(pipe, results, reply)
  }

  lemma AnsweringStep(p: Parsed, n: nat, results: seq<(int, int)>, pipe: Pipe, reply: Frame, pipe': Pipe,
                      f: Frame, hdr: int, text: int)
    requires Answering(p, n, results, pipe, reply, pipe') && InsertResults(reply, hdr, text)
    requires n < |p.frames| && p.frames[n] == f
    ensures Answering(p, n + 1, if f.kind == IP_REQUEST then results + [(hdr, text)] else results, pipe, reply,
                      if f.kind == IP_REQUEST then Insert(pipe', reply, hdr, text) else pipe')
  {
    assert p.frames[..n + 1][..n] == p.frames[..n];
    AnswerStep(pipe, results, reply, hdr, text);
  }

  class PipeServer {
    const ip: Inbox
    const over6: Inbox
    const reply: Frame
    var remain: int
    var lastBeat: int
    ghost var wire: seq<byte>
    ghost var done: seq<Frame>
    ghost var body: seq<byte>
    ghost var fromTun: seq<byte>
    ghost var tried: seq<Try>

    ghost predicate Valid()
      reads this, ip, over6
    {
      && ip.Holds(PIPE_BUF_LEN) && over6.Holds(PIPE_BUF_LEN)
      && ip != over6 && ip.buf != over6.buf
      && 0 <= remain <= ip.used && Size(reply) < 0x8000_0000
    }

    ghost function PipeNow(): Pipe
      requires Valid()
      reads this, ip, over6, ip.buf
    {
      Pipe(ip.Content(), remain, wire, done, body, fromTun)
    }

    /** `reply` is the constant text of the program, `ReplyFrame()`. */
    constructor (now: int, reply: Frame)
      requires Size(reply) < 0x8000_0000
      ensures Valid() && fresh(ip) && fresh(ip.buf) && fresh(over6) && fresh(over6.buf)
      ensures PipeNow() == Pipe([], 0, [], [], [], []) && over6.Content() == [] && tried == [] && lastBeat == now
      ensures this.reply == reply && ip.Holds(6553600) && over6.Holds(6553600)
    {
      ip := new Inbox(PIPE_BUF_LEN);
      over6 := new Inbox(PIPE_BUF_LEN);
      remain, lastBeat := 0, now;
      this.reply := reply;
      wire, done, body, fromTun, tried := [], [], [], [], [];
    }

    /** `readToBuf`: `arriving` is what successive reads return, `last` what the read after those does
        (0 at end of file, -1 when it would block). `taken` counts the reads that fitted. */
    static method ReadToBuf(inbox: Inbox, arriving: seq<seq<byte>>, last: int) returns (ret: int, taken: nat)
      requires inbox.Holds(PIPE_BUF_LEN) && -1 <= last <= 0
      requires forall r | r in arriving :: 0 < |r| <= 65536
      modifies inbox`used, inbox.buf
      ensures inbox.Holds(PIPE_BUF_LEN) && taken <= |arriving|
      ensures inbox.Content() == old(inbox.Content()) + Flat(arriving[..taken])
      ensures taken < |arriving| ==> inbox.used >= PIPE_BUF_LEN - READ_SIZE
      ensures ret == if taken > 0 then inbox.used - old(inbox.used)
                     else if inbox.used >= PIPE_BUF_LEN - READ_SIZE then 0 else last
    {
      var total := 0;
      ret, taken := 0, 0;
      assert old(inbox.Content()) + [] == inbox.Content();
      while inbox.used < PIPE_BUF_LEN - READ_SIZE
        invariant inbox.Holds(PIPE_BUF_LEN) && taken <= |arriving|
        invariant inbox.Content() == old(inbox.Content()) + Flat(arriving[..taken])
        invariant total == inbox.used - old(inbox.used) >= taken
        invariant taken == 0 ==> total == 0 && ret == 0
        decreases |arriving| - taken
      {
        if taken == |arriving| {
          ret := last;
          break;
        }
        FlatStep(arriving, taken);
        Associative(old(inbox.Content()), Flat(arriving[..taken]), arriving[taken]);
        assert arriving[taken] in arriving;
        inbox.Fill(arriving[taken]);
        ret := |arriving[taken]|;
        total := total + ret;
        taken := taken + 1;
      }
      if total != 0 {
        ret := total;
      }
    }

    /** The event loop's `readToBuf` on the tun device. */
    method ReadTun(arriving: seq<seq<byte>>, last: int) returns (ret: int, taken: nat)
      requires Valid() && -1 <= last <= 0
      requires forall r | r in arriving :: 0 < |r| <= 65536
      modifies `fromTun, ip`used, ip.buf
      ensures Valid() && taken <= |arriving|
      ensures PipeNow() == Absorb(old(PipeNow()), Flat(arriving[..taken]))
    {
      ret, taken := ReadToBuf(ip, arriving, last);
      fromTun := fromTun + Flat(arriving[..taken]);
    }

    /** `memmove(buffer, buffer + n, *used - n); *used -= n;` */
    method Move(n: int, junk: byte)
      requires ip.Holds(PIPE_BUF_LEN) && ip.used < PIPE_BUF_LEN && -1 <= n <= ip.used
      modifies ip`used, ip.buf
      ensures ip.Holds(PIPE_BUF_LEN) && ip.used == old(ip.used) - n
      ensures ip.Content() == Shifted(old(ip.Content()), n, junk)
    {
      if n < 0 {
        ip.ShiftUp(junk);
      } else {
        ip.Consume(n);
      }
    }

    /** Any result a `write` of `size` bytes may have. */
    static method SomeResult(size: nat) returns (n: int)
      ensures -1 <= n <= size
    {
      var some: nat := *;
      n := some % (size + 2) - 1;
    }

    /** The branch that cuts a frame from everything buffered. */
    method BeginFrame(junk: byte) returns (hdr: int, n: int)
      requires Valid() && 0 < ip.used < PIPE_BUF_LEN && remain == 0
      modifies `remain, `wire, `done, `body, ip`used, ip.buf
      ensures Valid() && WriteResults(old(PipeNow()), hdr, n)
      ensures PipeNow() == Flush(old(PipeNow()), hdr, n, junk)
      ensures remain == ip.used == old(ip.used) - n
    {
      var transf := ip.used;
      ghost var c := ip.Content();
      hdr := SomeResult(HEADER);
      n := SomeResult(transf);
      wire := wire + (HeaderOf(HEADER + transf)[..Taken(hdr)] + c[..Taken(n)]);
      body := c[..Taken(n)];
      Move(n, junk);
      remain := transf - n;
      if n == transf {
        assert c[..n] == c && ip.Content() == [];
        done, body := done + [Frame(DATA_DOWN, body)], [];
      }
    }

    /** The branch that goes on with the frame begun earlier. */
    method ResumeFrame(junk: byte) returns (n: int)
      requires Valid() && ip.used < PIPE_BUF_LEN && remain > 0
      modifies `remain, `wire, `done, `body, ip`used, ip.buf
      ensures Valid() && WriteResults(old(PipeNow()), 0, n)
      ensures PipeNow() == Flush(old(PipeNow()), 0, n, junk)
      ensures remain == old(remain) - n && ip.used == old(ip.used) - n
    {
      ghost var c := ip.Content();
      n := SomeResult(remain);
      wire, body := wire + c[..Taken(n)], body + c[..Taken(n)];
      Move(n, junk);
      remain := remain - n;
      if remain == 0 {
        done, body := done + [Frame(DATA_DOWN, body)], [];
      }
    }

    /** `rawToOver6`. `hdr` and `n` are what the writes returned (0 for one not made). */
    method RawToOver6(junk: byte) returns (hdr: int, n: int)
      requires Valid() && ip.used < PIPE_BUF_LEN
      modifies `remain, `wire, `done, `body, ip`used, ip.buf
      ensures Valid() && WriteResults(old(PipeNow()), hdr, n)
      ensures PipeNow() == Flush(old(PipeNow()), hdr, n, junk)
    {
      hdr, n := 0, 0;
      if ip.used == 0 {
        return;
      }
      if remain == 0 {
        hdr, n := BeginFrame(junk);
      } else {
        n := ResumeFrame(junk);
      }
    }

    /** The effect of the writes of a frame of its own. */
    ghost method AddToWire(f: Frame, hdr: int, n: int)
      requires Valid() && InsertResults(f, hdr, n)
      modifies `wire, `done
      ensures Valid() && PipeNow() == Insert(old(PipeNow()), f, hdr, n)
    {
      wire := wire + (Encode(f)[..Taken(hdr)] + f.payload[..Taken(n)]);
      done := if hdr == HEADER && n == |f.payload| then done + [f] else done;
    }

    /** The heartbeat of the event loop; `hdr` is what its write returned (0 for one not made). The time is noted
        even when the write fails. */
    method Heartbeat(now: int) returns (hdr: int)
      requires Valid()
      modifies `lastBeat, `wire, `done
      ensures Valid() && InsertResults(HEARTBEAT_FRAME, hdr, 0)
      ensures var due := now - old(lastBeat) > 20 && remain == 0;
              && lastBeat == (if due then now else old(lastBeat))
              && PipeNow() == (if due then Insert(old(PipeNow()), HEARTBEAT_FRAME, hdr, 0) else old(PipeNow()))
              && wire == old(wire) + (if due then [5, 0, 0, 0, 104][..Taken(hdr)] else [])
    {
      hdr := 0;
      OnTheWire(HEARTBEAT_FRAME);
      if now - lastBeat > 20 && remain == 0 {
        hdr := SomeResult(HEADER);
        AddToWire(HEARTBEAT_FRAME, hdr, 0);
        lastBeat := now;
      }
    }

    /** The guards at the head of the loop of `over6Handle`. */
    method PeekUnsigned() returns (head: Unsigned)
      requires Valid()
      ensures UnsignedHead(over6.Content(), head)
    {
      if over6.used < 4 {
        return More;
      }
      var content := over6.buf[..over6.used];
      var length := U32(content);
      if length < HEADER {
        return Bad;
      }
      if over6.used < length {
        return More;
      }
      head := Whole(Frame(content[4], content[HEADER..length]));
    }

    /** The write of a packet to the tun device; the server does not care how it ends. */
    method WriteTun(packet: seq<byte>) returns (ok: bool)
      modifies `tried
      ensures tried == old(tried) + [Try(packet, ok)]
    {
      ok := *;
      tried := tried + [Try(packet, ok)];
    }

    /** The dispatch of one frame: a packet is written once, a request is answered on the spot, with `hdr` and `n`
        the results of the two writes. */
    method HandleFrame(f: Frame) returns (hdr: int, n: int, ghost more: seq<Try>)
      requires Valid()
      modifies `wire, `done, `tried
      ensures Valid() && InsertResults(reply, hdr, n) && tried == old(tried) + more
      ensures Tried(more) == if f.kind == DATA_UP then [f.payload] else []
      ensures PipeNow() == if f.kind == IP_REQUEST then Insert(old(PipeNow()), reply, hdr, n) else old(PipeNow())
    {
      hdr, n, more := 0, 0, [];
      if f.kind == DATA_UP {
        var ok := WriteTun(f.payload);
        more := [Try(f.payload, ok)];
      } else if f.kind == IP_REQUEST {
        hdr := SomeResult(HEADER);
        n := SomeResult(|reply.payload|);
        AddToWire(reply, hdr, n);
      }
    }

    /** The body of the loop of `over6Handle`. */
    method ServeHead() returns (head: Unsigned, hdr: int, n: int, ghost more: seq<Try>)
      requires Valid()
      modifies `wire, `done, `tried, over6`used, over6.buf
      ensures Valid() && UnsignedHead(old(over6.Content()), head) && InsertResults(reply, hdr, n)
      ensures tried == old(tried) + more
      ensures !head.Whole? ==> over6.Content() == old(over6.Content()) && more == [] && PipeNow() == old(PipeNow())
      ensures head.Whole? ==>
                && over6.Content() == old(over6.Content())[Size(head.f)..] && over6.used < old(over6.used)
                && Tried(more) == (if head.f.kind == DATA_UP then [head.f.payload] else [])
                && PipeNow() == if head.f.kind == IP_REQUEST then Insert(old(PipeNow()), reply, hdr, n)
                                else old(PipeNow())
    {
      hdr, n, more := 0, 0, [];
      head := PeekUnsigned();
      if head.Whole? {
        hdr, n, more := HandleFrame(head.f);
        over6.Consume(Size(head.f));
      }
    }

    /** `over6Handle`: every whole frame is dispatched and the rest stays. */
    method Over6Handle() returns (ok: bool, ghost added: seq<Try>, ghost results: seq<(int, int)>)
      requires Valid()
      modifies `wire, `done, `tried, over6`used, over6.buf
      ensures Valid() && forall r | r in results :: InsertResults(reply, r.0, r.1)
      ensures var p := ParseUnsigned(old(over6.Content()));
              && over6.Content() == p.rest && ok == p.sane
              && tried == old(tried) + added && Tried(added) == Payloads(p.frames, DATA_UP)
              && |results| == Requests(p.frames) && PipeNow() == Answers(old(PipeNow()), results, reply)
    {
      ghost var p, pipe0 := ParseUnsigned(over6.Content()), PipeNow();
      ghost var n := 0;
      added, results := [], [];
      assert p.frames[0..] == p.frames;
      while true
        invariant Valid() && tried == old(tried) + added
        invariant Handling(p, n, over6.Content(), added)
        invariant Answering(p, n, results, pipe0, reply, PipeNow())
        decreases over6.used
      {
        ghost var c, pipe := over6.Content(), PipeNow();
        ghost var more;
        var head, hdr, text;
        head, hdr, text, more := ServeHead();
        if !head.Whole? {
          assert p.frames[..|p.frames|] == p.frames;
          return head.More?, added, results;
        }
        HandlingStep(p, n, c, added, head.f, more);
        AnsweringStep(p, n, results, pipe0, reply, pipe, head.f, hdr, text);
        if head.f.kind == IP_REQUEST {
          results := results + [(hdr, text)];
        }
        Associative(old(tried), added, more);
        added, n := added + more, n + 1;
      }
    }
  }
}
