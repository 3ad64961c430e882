/** One connection of the threaded server: a writer, a keep-alive and a reader thread send messages through
    `sendMessage`, one socket and one mutex between them, while the tun reader feeds the writer's queue. */
module Threads {
  import opened Wire
  import opened Wrappers
  import opened Sequences

  /** A `Msg`; `data` is its data array, of which a prefix counts. */
  datatype Msg = Msg(length: int, kind: byte, data: seq<byte>)

  /** Only replies and packets are sent with a payload. */
  predicate HasPayload(m: Msg) {
    m.kind == IP_REPLY || m.kind == DATA_DOWN
  }

  /** The bytes the second loop sends; `data` stands for the memory from the data array on. */
  function Payload(m: Msg): seq<byte> {
    if HasPayload(m) && HEADER <= m.length <= HEADER + |m.data| then m.data[..m.length - HEADER] else []
  }

  function Header(m: Msg): (h: seq<byte>)
    ensures |h| == HEADER
  {
    Le32(m.length % 0x1_0000_0000) + [m.kind]
  }

  /** What one complete `sendMessage` puts on the socket. */
  function Bytes(m: Msg): (s: seq<byte>)
    ensures |s| >= HEADER
  {
    Header(m) + Payload(m)
  }

  function AllBytes(ms: seq<Msg>): seq<byte>
    decreases |ms|
  {
    if ms == [] then [] else AllBytes(ms[..|ms| - 1]) + Bytes(ms[|ms| - 1])
  }

  /** What the messages of one kind carry. */
  function Contents(ms: seq<Msg>, kind: byte): seq<seq<byte>>
    decreases |ms|
  {
    if ms == [] then []
    else
      var m := ms[|ms| - 1];
      Contents(ms[..|ms| - 1], kind) + (if m.kind == kind then [Payload(m)] else [])
  }

  lemma BytesStep(ms: seq<Msg>, m: Msg)
    ensures AllBytes(ms + [m]) == AllBytes(ms) + Bytes(m)
    ensures forall kind :: Contents(ms + [m], kind) == Contents(ms, kind) + (if m.kind == kind then [Payload(m)] else [])
  {
    assert (ms + [m])[..|ms|] == ms;
  }

  lemma {:induction false} ContentsAppend(ms: seq<Msg>, ns: seq<Msg>, kind: byte)
    ensures Contents(ms + ns, kind) == Contents(ms, kind) + Contents(ns, kind)
    decreases |ns|
  {
    if ns == [] {
      assert ms + ns == ms;
    } else {
      var front, m := ns[..|ns| - 1], ns[|ns| - 1];
      assert front + [m] == ns;
      ContentsAppend(ms, front, kind);
      Associative(ms, front, [m]);
      BytesStep(ms + front, m);
      BytesStep(front, m);
      Associative(Contents(ms, kind), Contents(front, kind), if m.kind == kind then [Payload(m)] else []);
    }
  }

  // ----- one call of sendMessage

  class Socket {
    ghost var wire: seq<byte>

    /** One of the two loops of `sendMessage`. `answers` are the answers of the first writes; writes after
        those take everything. */
    method WriteLoop(data: seq<byte>, answers: seq<Answer>) returns (ok: bool, left: seq<Answer>, ghost sent: nat)
      requires Progress(answers)
      modifies this
      ensures sent <= |data| && (ok <==> sent == |data|) && wire == old(wire) + data[..sent]
      ensures Progress(left)
      ensures Error !in answers ==> ok && Error !in left
    {
      var total, i := 0, 0;
      assert wire + [] == wire && data[..0] == [];
      while total < |data|
        invariant 0 <= total <= |data| && 0 <= i <= |answers|
        invariant wire == old(wire) + data[..total]
        decreases |answers| - i, |data| - total
      {
        var current := |data| - total;
        if i < |answers| {
          var a := answers[i];
          i := i + 1;
          if a.Again? {
            continue;
          }
          if a.Error? {
            return false, answers[i..], total;
          }
          current := if a.n < current then a.n else current;
        }
        Associative(old(wire), data[..total], data[total..total + current]);
        assert data[..total] + data[total..total + current] == data[..total + current];
        wire := wire + data[total..total + current];
        total := total + current;
      }
      return true, answers[i..], total;
    }

    /** `sendMessage`: with the mutex held for the whole call, all of the message or a strict part of it and
        a failure; short writes and retries make no difference. */
    method SendMessage(m: Msg, answers: seq<Answer>) returns (ret: int, ghost sent: nat)
      requires (HasPayload(m) ==> m.length <= HEADER + |m.data|) && Progress(answers)
      modifies this
      ensures sent <= |Bytes(m)| && wire == old(wire) + Bytes(m)[..sent]
      ensures (ret == 0 <==> sent == |Bytes(m)|) && (ret == 0 || ret == -1)
      ensures Error !in answers ==> ret == 0
    {
      var header := Header(m);
      ghost var all := Bytes(m);
      var ok, left;
      ok, left, sent := WriteLoop(header, answers);
      assert header[..sent] == all[..sent];
      if !ok {
        return -1, sent;
      }
      if HasPayload(m) && HEADER <= m.length {
        ghost var more;
        ok, left, more := WriteLoop(m.data[..m.length - HEADER], left);
        Associative(old(wire), header, Payload(m)[..more]);
        assert header + Payload(m)[..more] == all[..HEADER + more];
        sent := HEADER + more;
        if !ok {
          return -1, sent;
        }
      }
      return 0, sent;
    }
  }

  // ----- all interleavings

  datatype Thread = Writer | Keeper | Reader

  /** `Stopped` is after a call that failed, with the message that it did not send whole. */
  datatype Pc = Idle | Wanting(m: Msg) | Sending(m: Msg, sent: nat) | Stopped(m: Msg)

  datatype Pcs = Pcs(writer: Pc, keeper: Pc, reader: Pc) {
    function At(t: Thread): Pc {
      match t
      case Writer => writer
      case Keeper => keeper
      case Reader => reader
    }

    function To(t: Thread, pc: Pc): Pcs {
      match t
      case Writer => this.(writer := pc)
      case Keeper => this.(keeper := pc)
      case Reader => this.(reader := pc)
    }
  }

  /** What one finished call of `sendMessage` put on the socket: the first `sent` bytes of the message. */
  datatype Piece = Piece(m: Msg, sent: nat)

  /** `pc` maps each thread to where it is in `sendMessage`; `pieces` are what the finished calls left on the
      socket, `log` the messages sent whole, `routed` the packets routed here and `told` the texts of the replies
      the reader was to send. */
  datatype State = State(pc: Pcs, holder: Option<Thread>, wire: seq<byte>, pieces: seq<Piece>,
                         log: seq<Msg>, queue: seq<Msg>, routed: seq<seq<byte>>, told: seq<seq<byte>>)

  datatype Action =
    | Route(packet: seq<byte>)
    | Pop
    | Reply(text: seq<byte>)
    | KeepAlive
    | Lock(t: Thread)
    | Write(t: Thread, n: nat)
    | Unlock(t: Thread)
    | Fail(t: Thread)

  /** `push_to_write_queue(len + 5, 103, packet)`. */
  function PacketMsg(packet: seq<byte>): Msg {
    Msg(|packet| + HEADER, DATA_DOWN, packet)
  }

  /** The keep-alive thread sends a length of zero. */
  const KEEPALIVE_MSG := Msg(0, KEEPALIVE, [])

  function ReplyMsg(text: seq<byte>): Msg {
    Msg(|text| + HEADER, IP_REPLY, text)
  }

  predicate Start(s: State) {
    s == State(Pcs(Idle, Idle, Idle), None, [], [], [], [], [], [])
  }

  predicate Enabled(s: State, a: Action) {
    match a
    case Route(packet) => |packet| <= 1600
    case Pop => s.pc.At(Writer) == Idle && s.queue != []
    case Reply(text) => s.pc.At(Reader) == Idle && |text| <= 4096 - HEADER
    case KeepAlive => s.pc.At(Keeper) == Idle
    case Lock(t) => s.pc.At(t).Wanting? && s.holder == None
    case Write(t, n) => s.pc.At(t).Sending? && 0 < n <= |Bytes(s.pc.At(t).m)| - s.pc.At(t).sent
    case Unlock(t) => s.pc.At(t).Sending? && s.pc.At(t).sent == |Bytes(s.pc.At(t).m)|
    case Fail(t) => s.pc.At(t).Sending? && s.pc.At(t).sent < |Bytes(s.pc.At(t).m)|
  }

  function Next(s: State, a: Action): State
    requires Enabled(s, a)
  {
    match a
    case Route(packet) => s.(queue := s.queue + [PacketMsg(packet)], routed := s.routed + [packet])
    case Pop => s.(pc := s.pc.To(Writer, Wanting(s.queue[0])), queue := s.queue[1..])
    case Reply(text) => s.(pc := s.pc.To(Reader, Wanting(ReplyMsg(text))), told := s.told + [text])
    case KeepAlive => s.(pc := s.pc.To(Keeper, Wanting(KEEPALIVE_MSG)))
    case Lock(t) => s.(pc := s.pc.To(t, Sending(s.pc.At(t).m, 0)), holder := Some(t))
    case Write(t, n) =>
      var m, k := s.pc.At(t).m, s.pc.At(t).sent;
      s.(pc := s.pc.To(t, Sending(m, k + n)), wire := s.wire + Bytes(m)[k..k + n])
    case Unlock(t) =>
      var m := s.pc.At(t).m;
      s.(pc := s.pc.To(t, Idle), holder := None,
         pieces := s.pieces + [Piece(m, |Bytes(m)|)], log := s.log + [m])
    case Fail(t) =>
      var m, k := s.pc.At(t).m, s.pc.At(t).sent;
      s.(pc := s.pc.To(t, Stopped(m)), holder := None, pieces := s.pieces + [Piece(m, k)])
  }

  predicate Run(ss: seq<State>, acts: seq<Action>) {
    && |ss| == |acts| + 1 && Start(ss[0])
    && forall i | 0 <= i < |acts| :: Enabled(ss[i], acts[i]) && ss[i + 1] == Next(ss[i], acts[i])
  }

  // ----- frame atomicity

  /** The message a thread is busy with, or stopped at. */
  function Busy(pc: Pc): seq<Msg> {
    if pc == Idle then [] else [pc.m]
  }

  predicate ThreadOk(s: State, t: Thread) {
    var pc := s.pc.At(t);
    && (pc.Sending? <==> s.holder == Some(t))
    && (pc.Sending? ==> pc.sent <= |Bytes(pc.m)|)
  }

  /** Only the holder of the mutex is sending. */
  predicate Mutex(s: State) {
    ThreadOk(s, Writer) && ThreadOk(s, Keeper) && ThreadOk(s, Reader)
  }

  /** What the holder of the mutex has sent of its message. */
  function Partial(s: State): seq<byte>
    requires Mutex(s)
  {
    if s.holder == None then []
    else
      var pc := s.pc.At(s.holder.value);
      Bytes(pc.m)[..pc.sent]
  }

  predicate Possible(p: Piece) {
    p.sent <= |Bytes(p.m)|
  }

  predicate Whole(p: Piece) {
    p.sent == |Bytes(p.m)|
  }

  function PieceBytes(ps: seq<Piece>): seq<byte>
    requires forall p | p in ps :: Possible(p)
    decreases |ps|
  {
    if ps == [] then []
    else
      var p := ps[|ps| - 1];
      assert Possible(p);
      PieceBytes(ps[..|ps| - 1]) + Bytes(p.m)[..p.sent]
  }

  function WholeOnes(ps: seq<Piece>): seq<Msg>
    decreases |ps|
  {
    if ps == [] then []
    else
      var p := ps[|ps| - 1];
      WholeOnes(ps[..|ps| - 1]) + (if Whole(p) then [p.m] else [])
  }

  /** The wire is the pieces of the finished calls, one after the other and never mixed, and then what the holder
      of the mutex has sent of its message; the messages sent whole are the whole pieces. */
  predicate Atomic(s: State)
    requires Mutex(s)
  {
    && (forall p | p in s.pieces :: Possible(p))
    && s.wire == PieceBytes(s.pieces) + Partial(s)
    && s.log == WholeOnes(s.pieces)
  }

  lemma PieceStep(ps: seq<Piece>, p: Piece)
    requires (forall q | q in ps :: Possible(q)) && Possible(p)
    ensures PieceBytes(ps + [p]) == PieceBytes(ps) + Bytes(p.m)[..p.sent]
    ensures WholeOnes(ps + [p]) == WholeOnes(ps) + (if Whole(p) then [p.m] else [])
  {
    assert (ps + [p])[..|ps|] == ps;
  }

  lemma {:induction false} FewerWholeOnes(ps: seq<Piece>)
    ensures |WholeOnes(ps)| <= |ps|
    decreases |ps|
  {
    if ps != [] {
      FewerWholeOnes(ps[..|ps| - 1]);
    }
  }

  /** When no call has failed, the pieces are the messages. */
  lemma {:induction false} AllWhole(ps: seq<Piece>)
    requires (forall p | p in ps :: Possible(p)) && |WholeOnes(ps)| == |ps|
    ensures PieceBytes(ps) == AllBytes(WholeOnes(ps))
    decreases |ps|
  {
    if ps != [] {
      var front, p := ps[..|ps| - 1], ps[|ps| - 1];
      FewerWholeOnes(front);
      AllWhole(front);
      BytesStep(WholeOnes(front), p.m);
      assert Bytes(p.m)[..|Bytes(p.m)|] == Bytes(p.m);
    }
  }

  lemma ThreadKept(s: State, a: Action, t: Thread)
    requires Mutex(s) && Enabled(s, a)
    ensures ThreadOk(Next(s, a), t)
  {
  }

  lemma MutexKept(s: State, a: Action)
    requires Mutex(s) && Enabled(s, a)
    ensures Mutex(Next(s, a))
  {
    ThreadKept(s, a, Writer);
    ThreadKept(s, a, Keeper);
    ThreadKept(s, a, Reader);
  }

  lemma MoreSent(sent: seq<byte>, b: seq<byte>, k: nat, n: nat)
    requires k + n <= |b|
    ensures (sent + b[..k]) + b[k..k + n] == sent + b[..k + n]
  {
    Associative(sent, b[..k], b[k..k + n]);
    assert b[..k] + b[k..k + n] == b[..k + n];
  }

  lemma WriteKeepsAtomic(s: State, t: Thread, n: nat)
    requires Mutex(s) && Atomic(s) && Enabled(s, Write(t, n)) && Mutex(Next(s, Write(t, n)))
    ensures Atomic(Next(s, Write(t, n)))
  {
    var m, k, s' := s.pc.At(t).m, s.pc.At(t).sent, Next(s, Write(t, n));
    assert s.holder == Some(t) && s'.holder == Some(t);
    assert s'.pc.At(t) == Sending(m, k + n);
    assert s.pc.At(t).sent == k && Partial(s) == Bytes(m)[..k] && Partial(s') == Bytes(m)[..k + n];
    assert s'.pieces == s.pieces && s'.log == s.log;
    MoreSent(PieceBytes(s.pieces), Bytes(m), k, n);
  }

  /** The end of a call, whole or not. */
  lemma EndKeepsAtomic(s: State, t: Thread, a: Action)
    requires (a == Unlock(t) || a == Fail(t))
    requires Mutex(s) && Atomic(s) && Enabled(s, a) && Mutex(Next(s, a))
    ensures Atomic(Next(s, a))
  {
    var p := Piece(s.pc.At(t).m, s.pc.At(t).sent);
    PieceStep(s.pieces, p);
    Units(s.log);
    Units(PieceBytes(s.pieces + [p]));
  }

  lemma LockKeepsAtomic(s: State, t: Thread)
    requires Mutex(s) && Atomic(s) && Enabled(s, Lock(t)) && Mutex(Next(s, Lock(t)))
    ensures Atomic(Next(s, Lock(t)))
  {
    assert Bytes(s.pc.At(t).m)[..0] == [];
  }

  /** Steps that write nothing: the holder of the mutex is not among those that take them. */
  lemma OthersKeepAtomic(s: State, a: Action)
    requires Mutex(s) && Atomic(s) && Enabled(s, a) && Mutex(Next(s, a))
    requires a.Route? || a.Pop? || a.Reply? || a.KeepAlive?
    ensures Atomic(Next(s, a))
  {
    var s' := Next(s, a);
    assert s'.holder == s.holder && s'.wire == s.wire;
    assert s.holder.Some? ==> s'.pc.At(s.holder.value) == s.pc.At(s.holder.value);
  }

  lemma AtomicKept(s: State, a: Action)
    requires Mutex(s) && Atomic(s) && Enabled(s, a) && Mutex(Next(s, a))
    ensures Atomic(Next(s, a))
  {
    match a {
      case Write(t, n) => WriteKeepsAtomic(s, t, n);
      case Unlock(t) => EndKeepsAtomic(s, t, a);
      case Fail(t) => EndKeepsAtomic(s, t, a);
      case Lock(t) => LockKeepsAtomic(s, t);
      case _ => OthersKeepAtomic(s, a);
    }
  }

  // ----- order of the packets and of the replies

  /** Each thread sends one kind of message. */
  predicate KindOk(pc: Pc, kind: byte) {
    pc != Idle ==> pc.m.kind == kind
  }

  predicate KindsOk(s: State) {
    && KindOk(s.pc.writer, DATA_DOWN) && KindOk(s.pc.keeper, KEEPALIVE) && KindOk(s.pc.reader, IP_REPLY)
    && forall m | m in s.queue :: m.kind == DATA_DOWN
  }

  /** Packets sent, then the one the writer is busy with or stopped at, then those queued: in this order they
      are the packets routed to the connection. */
  predicate PacketsInOrder(s: State) {
    Contents(s.log, DATA_DOWN) + (Contents(Busy(s.pc.writer), DATA_DOWN) + Contents(s.queue, DATA_DOWN)) == s.routed
  }

  /** So it is with the texts of the replies and the reader. */
  predicate RepliesInOrder(s: State) {
    Contents(s.log, IP_REPLY) + Contents(Busy(s.pc.reader), IP_REPLY) == s.told
  }

  lemma KindsKept(s: State, a: Action)
    requires KindsOk(s) && Enabled(s, a)
    ensures KindsOk(Next(s, a))
  {
    if a.Pop? {
      assert s.queue[0] in s.queue;
    }
  }

  lemma ContentsOfOne(m: Msg, kind: byte)
    ensures Contents([m], kind) == if m.kind == kind then [Payload(m)] else []
  {
    BytesStep([], m);
    Units([m]);
  }

  lemma RouteKeepsOrder(s: State, packet: seq<byte>)
    requires PacketsInOrder(s) && Enabled(s, Route(packet))
    ensures PacketsInOrder(Next(s, Route(packet)))
  {
    ContentsOfOne(PacketMsg(packet), DATA_DOWN);
    ContentsAppend(s.queue, [PacketMsg(packet)], DATA_DOWN);
    assert Payload(PacketMsg(packet)) == packet;
    var mine, queued := Contents(Busy(s.pc.writer), DATA_DOWN), Contents(s.queue, DATA_DOWN);
    Associative(mine, queued, [packet]);
    Associative(Contents(s.log, DATA_DOWN), mine + queued, [packet]);
  }

  lemma PopKeepsOrder(s: State)
    requires PacketsInOrder(s) && Enabled(s, Pop)
    ensures PacketsInOrder(Next(s, Pop))
  {
    var m, more := s.queue[0], s.queue[1..];
    assert [m] + more == s.queue;
    ContentsAppend([m], more, DATA_DOWN);
    Units(Contents(s.queue, DATA_DOWN));
  }

  lemma ReplyKeepsOrder(s: State, text: seq<byte>)
    requires RepliesInOrder(s) && Enabled(s, Reply(text))
    ensures RepliesInOrder(Next(s, Reply(text)))
  {
    ContentsOfOne(ReplyMsg(text), IP_REPLY);
    assert Payload(ReplyMsg(text)) == text;
    Units(Contents(s.log, IP_REPLY));
  }

  /** A message sent whole goes from the thread that was busy with it to the log. */
  lemma UnlockKeepsPackets(s: State, t: Thread)
    requires KindsOk(s) && PacketsInOrder(s) && Enabled(s, Unlock(t))
    ensures PacketsInOrder(Next(s, Unlock(t)))
  {
    var m := s.pc.At(t).m;
    BytesStep(s.log, m);
    ContentsOfOne(m, DATA_DOWN);
    Units(Contents(s.queue, DATA_DOWN));
    Units(Contents(s.log, DATA_DOWN));
    Associative(Contents(s.log, DATA_DOWN), Contents([m], DATA_DOWN), Contents(s.queue, DATA_DOWN));
  }

  lemma UnlockKeepsReplies(s: State, t: Thread)
    requires KindsOk(s) && RepliesInOrder(s) && Enabled(s, Unlock(t))
    ensures RepliesInOrder(Next(s, Unlock(t)))
  {
    var m := s.pc.At(t).m;
    BytesStep(s.log, m);
    ContentsOfOne(m, IP_REPLY);
    Units(Contents(s.log, IP_REPLY));
    Units(Contents(s.log + [m], IP_REPLY));
  }

  /** Steps that only begin, carry on with or give up a message. */
  lemma OthersKeepOrder(s: State, a: Action)
    requires PacketsInOrder(s) && RepliesInOrder(s) && Enabled(s, a)
    requires a.KeepAlive? || a.Lock? || a.Write? || a.Fail?
    ensures PacketsInOrder(Next(s, a)) && RepliesInOrder(Next(s, a))
  {
    var s' := Next(s, a);
    assert Busy(s'.pc.writer) == Busy(s.pc.writer) && Busy(s'.pc.reader) == Busy(s.pc.reader);
  }

  lemma OrderKept(s: State, a: Action)
    requires KindsOk(s) && PacketsInOrder(s) && RepliesInOrder(s) && Enabled(s, a)
    ensures PacketsInOrder(Next(s, a)) && RepliesInOrder(Next(s, a))
  {
    match a {
      case Route(packet) => RouteKeepsOrder(s, packet);
      case Pop => PopKeepsOrder(s);
      case Reply(text) => ReplyKeepsOrder(s, text);
      case Unlock(t) =>
        UnlockKeepsPackets(s, t);
        UnlockKeepsReplies(s, t);
      case _ => OthersKeepOrder(s, a);
    }
  }

  /** However the three threads and the tun reader interleave, however short the writes are and whatever fails:
      messages are never mixed on the wire, and the packets and replies whole on it are, in order, a prefix of the
      packets routed here and of the texts the reader was to send. */
  lemma {:induction false} RunKeeps(ss: seq<State>, acts: seq<Action>, n: nat)
    requires Run(ss, acts) && n < |ss|
    ensures Mutex(ss[n]) && Atomic(ss[n])
    ensures KindsOk(ss[n]) && PacketsInOrder(ss[n]) && RepliesInOrder(ss[n])
    ensures Contents(ss[n].log, 103) <= ss[n].routed && Contents(ss[n].log, 101) <= ss[n].told
  {
    if n == 0 {
      Units(AllBytes([]));
      Units(Contents([], DATA_DOWN));
    } else {
      RunKeeps(ss, acts, n - 1);
      MutexKept(ss[n - 1], acts[n - 1]);
      KindsKept(ss[n - 1], acts[n - 1]);
      OrderKept(ss[n - 1], acts[n - 1]);
      AtomicKept(ss[n - 1], acts[n - 1]);
    }
  }

  // ----- what the receiver makes of it

  /** The two shapes of message this server sends. */
  predicate WellMade(m: Msg) {
    m == KEEPALIVE_MSG || (HasPayload(m) && m.length == HEADER + |m.data| <= 4096)
  }

  predicate AllWellMade(ms: seq<Msg>) {
    forall m | m in ms :: WellMade(m)
  }

  predicate MakesWell(pc: Pc) {
    pc.Wanting? || pc.Sending? ==> WellMade(pc.m)
  }

  predicate Made(s: State) {
    && AllWellMade(s.log) && AllWellMade(s.queue)
    && MakesWell(s.pc.writer) && MakesWell(s.pc.keeper) && MakesWell(s.pc.reader)
  }

  lemma AppendMade(ms: seq<Msg>, m: Msg)
    requires AllWellMade(ms) && WellMade(m)
    ensures AllWellMade(ms + [m])
  {
  }

  lemma MadeKept(s: State, a: Action)
    requires Made(s) && Enabled(s, a)
    ensures Made(Next(s, a))
  {
    match a {
      case Route(packet) =>
        AppendMade(s.queue, PacketMsg(packet));
      case Pop =>
        assert s.queue[0] in s.queue;
      case Unlock(t) =>
        AppendMade(s.log, s.pc.At(t).m);
      case _ =>
    }
  }

  lemma {:induction false} RunMade(ss: seq<State>, acts: seq<Action>, n: nat)
    requires Run(ss, acts) && n < |ss|
    ensures Made(ss[n])
  {
    if n > 0 {
      RunMade(ss, acts, n - 1);
      MadeKept(ss[n - 1], acts[n - 1]);
    }
  }

  function MsgFrame(m: Msg): Frame {
    Frame(m.kind, Payload(m))
  }

  function MsgFrames(ms: seq<Msg>): seq<Frame>
    decreases |ms|
  {
    if ms == [] then [] else MsgFrames(ms[..|ms| - 1]) + [MsgFrame(ms[|ms| - 1])]
  }

  lemma BytesEncode(m: Msg)
    requires WellMade(m) && m != KEEPALIVE_MSG
    ensures Size(MsgFrame(m)) < 0x8000_0000 && Bytes(m) == Encode(MsgFrame(m))
  {
    assert Payload(m) == m.data;
  }

  lemma {:induction false} FramedBytes(ms: seq<Msg>)
    requires AllWellMade(ms) && KEEPALIVE_MSG !in ms
    ensures Encodable(MsgFrames(ms)) && EncodeAll(MsgFrames(ms)) == AllBytes(ms)
    decreases |ms|
  {
    if ms != [] {
      var front, m := ms[..|ms| - 1], ms[|ms| - 1];
      assert m in ms;
      FramedBytes(front);
      BytesEncode(m);
      EncodeAllAppend(MsgFrames(front), [MsgFrame(m)]);
      EncodeAllCons(MsgFrame(m), []);
      Units([MsgFrame(m)]);
      Units(Encode(MsgFrame(m)));
    }
  }

  lemma {:induction false} AllBytesAppend(ms: seq<Msg>, ns: seq<Msg>)
    ensures AllBytes(ms + ns) == AllBytes(ms) + AllBytes(ns)
    decreases |ns|
  {
    if ns == [] {
      Units(ms);
      Units(AllBytes(ms));
    } else {
      var front, m := ns[..|ns| - 1], ns[|ns| - 1];
      assert front + [m] == ns;
      AllBytesAppend(ms, front);
      Associative(ms, front, [m]);
      BytesStep(ms + front, m);
      Associative(AllBytes(ms), AllBytes(front), Bytes(m));
    }
  }

  /** A keep-alive announces a length of zero: the drain loops of this protocol stop at it for good. */
  lemma KeepAliveStops(t: seq<byte>)
    ensures Parse(Bytes(KEEPALIVE_MSG) + t) == Parsed([], Bytes(KEEPALIVE_MSG) + t, false)
  {
    var s := Bytes(KEEPALIVE_MSG) + t;
    assert s[0] == 0 && s[1] == 0 && s[2] == 0 && s[3] == 0;
  }

  /** The `k`-th message is the first keep-alive, or there is none and `k` counts them all. */
  predicate FirstKeepAlive(ms: seq<Msg>, k: nat) {
    k <= |ms| && KEEPALIVE_MSG !in ms[..k] && (k < |ms| ==> ms[k] == KEEPALIVE_MSG)
  }

  lemma StopsAtKeepAlive(ms: seq<Msg>)
    requires ms != [] && ms[0] == KEEPALIVE_MSG
    ensures Parse(AllBytes(ms)).frames == [] && !Parse(AllBytes(ms)).sane
  {
    assert [KEEPALIVE_MSG] + ms[1..] == ms;
    AllBytesAppend([KEEPALIVE_MSG], ms[1..]);
    BytesStep([], KEEPALIVE_MSG);
    Units([KEEPALIVE_MSG]);
    Units(Bytes(KEEPALIVE_MSG));
    KeepAliveStops(AllBytes(ms[1..]));
  }

  lemma Received(ms: seq<Msg>, k: nat)
    requires AllWellMade(ms) && FirstKeepAlive(ms, k)
    ensures Parse(AllBytes(ms)).frames == MsgFrames(ms[..k])
    ensures Parse(AllBytes(ms)).sane <==> k == |ms|
  {
    var before, after := ms[..k], ms[k..];
    FramedBytes(before);
    SplitAt(ms, k);
    AllBytesAppend(before, after);
    ParseEncoded(MsgFrames(before), AllBytes(after));
    Units(MsgFrames(before));
    if k < |ms| {
      StopsAtKeepAlive(after);
    }
  }

  /** Whenever the mutex is free and no call has failed, the client's drain loop recognises exactly the
      messages before the first keep-alive, and goes on past it never. */
  lemma RunReceived(ss: seq<State>, acts: seq<Action>, n: nat, k: nat)
    requires Run(ss, acts) && n < |ss| && ss[n].holder == None && |ss[n].pieces| == |ss[n].log|
    requires FirstKeepAlive(ss[n].log, k)
    ensures Parse(ss[n].wire).frames == MsgFrames(ss[n].log[..k])
    ensures Parse(ss[n].wire).sane <==> k == |ss[n].log|
  {
    RunKeeps(ss, acts, n);
    RunMade(ss, acts, n);
    AllWhole(ss[n].pieces);
    Units(AllBytes(ss[n].log));
    Received(ss[n].log, k);
  }
}
