/** The way from the tun device of the epoll server to that of a client: what is written to a client's socket,
    whose packets those are, and what the client makes of them. */
module Downlink {
  import opened Wire
  import opened Config
  import opened LeaseTable
  import opened EpollServer
  import opened ServerRuns
  import opened TunBatches
  import opened Sequences
  import BufferBounds
  import Client

  // ----- frames on the sockets

  lemma EncodeOne(f: Frame)
    requires Size(f) < 0x8000_0000
    ensures Encodable([f]) && EncodeAll([f]) == Encode(f)
  {
    EncodeAllStep([], f);
    Units([f]);
    Units(Encode(f));
  }

  lemma ReplySent(w: World, fd: int, f: Frame, now: int)
    ensures Encodable(ReplyTo(w, f))
    ensures SockOf(Handle(w, fd, f, now).socks, fd) == SockOf(w.socks, fd) + EncodeAll(ReplyTo(w, f))
    ensures forall g | g != fd :: SockOf(Handle(w, fd, f, now).socks, g) == SockOf(w.socks, g)
  {
    if f.kind == IP_REQUEST && Accepts(w, f) {
      EncodeOne(LeaseReply(FreeEntry(w.table.users)));
    } else {
      Units(SockOf(w.socks, fd));
    }
  }

  lemma {:induction false} RepliesSent(w: World, fd: int, fs: seq<Frame>, now: int)
    ensures Encodable(Replies(w, fd, fs, now))
    ensures SockOf(HandleAll(w, fd, fs, now).socks, fd) == SockOf(w.socks, fd) + EncodeAll(Replies(w, fd, fs, now))
    ensures forall g | g != fd :: SockOf(HandleAll(w, fd, fs, now).socks, g) == SockOf(w.socks, g)
    decreases |fs|
  {
    if fs == [] {
      Units(SockOf(w.socks, fd));
    } else {
      var front, f := fs[..|fs| - 1], fs[|fs| - 1];
      var before := HandleAll(w, fd, front, now);
      RepliesSent(w, fd, front, now);
      ReplySent(before, fd, f, now);
      EncodeAllAppend(Replies(w, fd, front, now), ReplyTo(before, f));
      Associative(SockOf(w.socks, fd), EncodeAll(Replies(w, fd, front, now)), EncodeAll(ReplyTo(before, f)));
    }
  }

  lemma {:induction false} BeatsAreFrames(n: nat)
    ensures Encodable(BeatFrames(n)) && EncodeAll(BeatFrames(n)) == Beats(n)
  {
    if n > 0 {
      BeatsAreFrames(n - 1);
      EncodeAllStep(BeatFrames(n - 1), Frame(KEEPALIVE, []));
    }
  }

  /** Unless a write to it failed, a socket has received exactly the frames of its connection, whole. */
  predicate SentOk(socks: map<int, seq<byte>>, fd: int, c: Conn) {
    Encodable(c.down) && (!c.cut ==> SockOf(socks, fd) == EncodeAll(c.down))
  }

  ghost predicate AllSent(s: Sys) {
    forall fd | fd in s.conns :: SentOk(s.world.socks, fd, s.conns[fd])
  }

  lemma MoreSent(socks: map<int, seq<byte>>, fd: int, c: Conn, socks': map<int, seq<byte>>, fs: seq<Frame>, c': Conn)
    requires SentOk(socks, fd, c) && Encodable(fs) && c'.down == c.down + fs && (c.cut ==> c'.cut)
    requires !c'.cut ==> SockOf(socks', fd) == SockOf(socks, fd) + EncodeAll(fs)
    ensures SentOk(socks', fd, c')
  {
    EncodeAllAppend(c.down, fs);
  }

  /** What serving a connection writes: whole replies to its own socket, unless one is interrupted. */
  lemma ServedSent(w: World, fd: int, p: Parsed, now: int, stop: Stop, handled: nat, w': World)
    requires handled <= |p.frames| && Served(w, fd, p, now, stop, handled, w')
    ensures forall g | g != fd :: SockOf(w'.socks, g) == SockOf(w.socks, g)
    ensures Encodable(Replies(w, fd, p.frames[..handled], now))
    ensures !(stop == WriteFailed && p.frames[handled].kind == IP_REQUEST) ==>
              SockOf(w'.socks, fd) == SockOf(w.socks, fd) + EncodeAll(Replies(w, fd, p.frames[..handled], now))
  {
    RepliesSent(w, fd, p.frames[..handled], now);
  }

  lemma OthersSent(s: Sys, fd: int, s': Sys)
    requires AllSent(s) && s'.conns.Keys <= s.conns.Keys + {fd}
    requires fd in s'.conns ==> SentOk(s'.world.socks, fd, s'.conns[fd])
    requires forall g | g != fd && g in s'.conns ::
               s'.conns[g] == s.conns[g] && SockOf(s'.world.socks, g) == SockOf(s.world.socks, g)
    ensures AllSent(s')
  {
    forall g | g in s'.conns && g != fd ensures SentOk(s'.world.socks, g, s'.conns[g]) {
      assert SentOk(s.world.socks, g, s.conns[g]);
    }
  }

  lemma ReadSent(s: Sys, e: Event, s': Sys)
    requires AllSent(s) && e.Read? && Next(s, e, s')
    ensures AllSent(s')
  {
    var Read(fd, chunk, now, stop, handled) := e;
    var p := Parse(s.conns[fd].buf + chunk);
    ServedSent(s.world, fd, p, now, stop, handled, s'.world);
    MoreSent(s.world.socks, fd, s.conns[fd], s'.world.socks,
             Replies(s.world, fd, p.frames[..handled], now), s'.conns[fd]);
    OthersSent(s, fd, s');
  }

  lemma PacketSent(s: Sys, b: Batch, gone: bool, s': Sys)
    requires AllSent(s) && Touched(s, b, gone, s')
    ensures AllSent(s')
  {
    if b.to in s.conns {
      assert SentOk(s.world.socks, b.to, s.conns[b.to]);
      if gone {
        var f := Frame(DATA_DOWN, DataOf(b.parts));
        EncodeOne(f);
        MoreSent(s.world.socks, b.to, s.conns[b.to], s'.world.socks, [f], s'.conns[b.to]);
      }
    }
    OthersSent(s, b.to, s');
  }

  lemma SweepSent(s: Sys, clock: seq<int>, failed: set<int>, s': Sys)
    requires AllSent(s) && Next(s, SweepAt(clock, failed), s')
    ensures AllSent(s')
  {
    forall fd | fd in s'.conns ensures SentOk(s'.world.socks, fd, s'.conns[fd]) {
      var k := BeatsDue(s.world.table.users, MAX_CLIENTS, clock, fd);
      BeatsAreFrames(k);
      MoreSent(s.world.socks, fd, s.conns[fd], s'.world.socks, BeatFrames(k), s'.conns[fd]);
    }
  }

  lemma NextSent(s: Sys, e: Event, s': Sys)
    requires Inv(s) && AllSent(s) && Next(s, e, s')
    ensures AllSent(s')
  {
    match e {
      case Accept(fd) =>
        forall f | f in s'.conns ensures SentOk(s'.world.socks, f, s'.conns[f]) {
          if f != fd {
            assert SentOk(s.world.socks, f, s.conns[f]);
          }
        }
      case Read(_, _, _, _, _) => ReadSent(s, e, s');
      case HangUp(_) =>
      case FromTun(chunk, rest) =>
        TunTouches(s, chunk, rest, s');
        PacketSent(s, BatchOf(s.world.table.users, HeldWith(s.device, chunk)), rest == [], s');
      case SweepAt(clock, failed) => SweepSent(s, clock, failed, s');
    }
  }

  lemma EventSent(run: Run, n: nat)
    requires 0 < n < |run.states| && Inv(run.states[n - 1]) && AllSent(run.states[n - 1])
    ensures AllSent(run.states[n])
  {
    NextSent(run.states[n - 1], run.events[n - 1], run.states[n]);
  }

  /** Over every run, with any interleaving of replies, packets and keep-alives: a socket on which no write has
      failed carries whole frames only, those of its connection in order. */
  lemma {:induction false} RunSent(run: Run, n: nat)
    requires n < |run.states|
    ensures AllSent(run.states[n])
  {
    if n > 0 {
      RunSent(run, n - 1);
      RunKeeps(run, n - 1);
      EventSent(run, n);
    }
  }

  // ----- whose packets they are

  /** The frame tells `fd` its address, or is addressed to it. */
  ghost predicate Proper(users: seq<User>, fd: int, f: Frame) {
    && (f.kind == DATA_DOWN ==>
          |f.payload| >= IP_HEADER && exists i | HeldBy(users, i, fd) :: Destination(f.payload) == LeaseAddr(i))
    && (f.kind == IP_REPLY ==> exists i: byte | HeldBy(users, i, fd) :: f == LeaseReply(i))
  }

  ghost predicate AllProper(s: Sys) {
    forall fd, f | fd in s.conns && f in s.conns[fd].down :: Proper(s.world.table.users, fd, f)
  }

  lemma StillProper(users: seq<User>, users': seq<User>, fd: int, f: Frame)
    requires Proper(users, fd, f) && forall i | HeldBy(users, i, fd) :: HeldBy(users', i, fd)
    ensures Proper(users', fd, f)
  {
    if f.kind == DATA_DOWN {
      var i :| HeldBy(users, i, fd) && Destination(f.payload) == LeaseAddr(i);
      assert HeldBy(users', i, fd);
    }
    if f.kind == IP_REPLY {
      var i: byte :| HeldBy(users, i, fd) && f == LeaseReply(i);
      assert HeldBy(users', i, fd);
    }
  }

  lemma GrantKeepsLeases(t: Table, fd: int, now: int, i: int, g: int)
    requires HeldBy(t.users, i, g) && FreeEntry(t.users) >= 0
    ensures HeldBy(Grant(t, fd, now).users, i, g)
  {
    assert t.users[FreeEntry(t.users)].free;
  }

  lemma TouchKeepsLeases(t: Table, fd: int, now: int, i: int, g: int)
    requires HeldBy(t.users, i, g)
    ensures HeldBy(Touch(t, fd, now).users, i, g)
  {
  }

  lemma HandleKeepsLeases(w: World, fd: int, f: Frame, now: int)
    ensures forall i, g | HeldBy(w.table.users, i, g) :: HeldBy(Handle(w, fd, f, now).table.users, i, g)
  {
    var t' := Handle(w, fd, f, now).table;
    if t' == w.table {
      return;
    }
    forall i, g | HeldBy(w.table.users, i, g) ensures HeldBy(t'.users, i, g) {
      if f.kind == IP_REQUEST {
        GrantKeepsLeases(w.table, fd, now, i, g);
      } else {
        TouchKeepsLeases(w.table, fd, now, i, g);
      }
    }
  }

  lemma {:induction false} LeasesStay(w: World, fd: int, fs: seq<Frame>, now: int)
    ensures forall i, g | HeldBy(w.table.users, i, g) :: HeldBy(HandleAll(w, fd, fs, now).table.users, i, g)
    decreases |fs|
  {
    if fs != [] {
      LeasesStay(w, fd, fs[..|fs| - 1], now);
      HandleKeepsLeases(HandleAll(w, fd, fs[..|fs| - 1], now), fd, fs[|fs| - 1], now);
    }
  }

  lemma ReplyProper(w: World, fd: int, f: Frame, now: int)
    requires TableOk(w.table) && fd >= 0
    ensures forall g | g in ReplyTo(w, f) :: Proper(Handle(w, fd, f, now).table.users, fd, g)
  {
    if f.kind == IP_REQUEST && Accepts(w, f) {
      var i: byte := FreeEntry(w.table.users);
      assert HeldBy(Grant(w.table, fd, now).users, i, fd);
    }
  }

  lemma {:induction false} RepliesProper(w: World, fd: int, fs: seq<Frame>, now: int)
    requires TableOk(w.table) && fd >= 0
    ensures forall f | f in Replies(w, fd, fs, now) :: Proper(HandleAll(w, fd, fs, now).table.users, fd, f)
    decreases |fs|
  {
    if fs != [] {
      var front, last := fs[..|fs| - 1], fs[|fs| - 1];
      var before, after := HandleAll(w, fd, front, now), HandleAll(w, fd, fs, now);
      HandleAllKeeps(w, fd, front, now);
      RepliesProper(w, fd, front, now);
      ReplyProper(before, fd, last, now);
      HandleKeepsLeases(before, fd, last, now);
      forall f | f in Replies(w, fd, front, now) ensures Proper(after.table.users, fd, f) {
        StillProper(before.table.users, after.table.users, fd, f);
      }
    }
  }

  lemma ReadProper(s: Sys, e: Event, s': Sys)
    requires Inv(s) && AllProper(s) && e.Read? && Next(s, e, s') && Polite(s, e)
    ensures AllProper(s')
  {
    var Read(fd, chunk, now, stop, handled) := e;
    var fs := Parse(s.conns[fd].buf + chunk).frames[..handled];
    var users, users' := s.world.table.users, s'.world.table.users;
    assert s'.world.table == HandleAll(s.world, fd, fs, now).table;
    LeasesStay(s.world, fd, fs, now);
    RepliesProper(s.world, fd, fs, now);
    forall g, f | g in s'.conns && f in s'.conns[g].down ensures Proper(users', g, f) {
      if f in s.conns[g].down {
        StillProper(users, users', g, f);
      }
    }
  }

  lemma HangUpProper(s: Sys, fd: int, s': Sys)
    requires Inv(s) && AllProper(s) && Next(s, HangUp(fd), s')
    ensures AllProper(s')
  {
    forall g, f | g in s'.conns && f in s'.conns[g].down ensures Proper(s'.world.table.users, g, f) {
      StillProper(s.world.table.users, s'.world.table.users, g, f);
    }
  }

  lemma RoutedIsProper(t: Table, packet: seq<byte>)
    requires TableOk(t) && RouteOf(t.users, packet) >= 0
    ensures Proper(t.users, RouteOf(t.users, packet), Frame(DATA_DOWN, packet))
  {
    var i := AddrEntry(t.users, Destination(packet));
    assert EntryOk(t, i);
    assert HeldBy(t.users, i, RouteOf(t.users, packet));
  }

  lemma PacketProper(s: Sys, b: Batch, gone: bool, s': Sys)
    requires Inv(s) && AllProper(s) && Touched(s, b, gone, s')
    requires b.to == RouteOf(s.world.table.users, DataOf(b.parts))
    ensures AllProper(s')
  {
    if b.to in s.conns && gone {
      RoutedIsProper(s.world.table, DataOf(b.parts));
    }
  }

  lemma SweepProper(s: Sys, clock: seq<int>, failed: set<int>, s': Sys)
    requires Inv(s) && Owned(s) && AllProper(s) && Next(s, SweepAt(clock, failed), s')
    ensures AllProper(s')
  {
    var users, users' := s.world.table.users, s'.world.table.users;
    InjectiveComeFirst(s.world.table, s.conns.Keys, MAX_CLIENTS, clock);
    SweepIsPointwise(s.world.table, s.conns.Keys, MAX_CLIENTS, clock);
    forall g, f | g in s'.conns && f in s'.conns[g].down ensures Proper(users', g, f) {
      forall i | HeldBy(users, i, g) ensures HeldBy(users', i, g) {
        assert !Silent(users[i], clock[i]);
      }
      if f in s.conns[g].down {
        StillProper(users, users', g, f);
      } else {
        BeatsOnly(BeatsDue(users, MAX_CLIENTS, clock, g), f);
      }
    }
  }

  lemma {:induction false} BeatsOnly(n: nat, f: Frame)
    requires f in BeatFrames(n)
    ensures f == Frame(104, [])
  {
    if f in BeatFrames(n - 1) {
      BeatsOnly(n - 1, f);
    }
  }

  lemma NextProper(s: Sys, e: Event, s': Sys)
    requires Inv(s) && Owned(s) && AllProper(s) && Next(s, e, s') && Polite(s, e)
    ensures AllProper(s')
  {
    match e {
      case Accept(_) =>
      case Read(_, _, _, _, _) => ReadProper(s, e, s');
      case HangUp(fd) => HangUpProper(s, fd, s');
      case FromTun(chunk, rest) =>
        TunTouches(s, chunk, rest, s');
        PacketProper(s, BatchOf(s.world.table.users, HeldWith(s.device, chunk)), rest == [], s');
      case SweepAt(clock, failed) => SweepProper(s, clock, failed, s');
    }
  }

  lemma EventProper(run: PoliteRun, n: nat)
    requires 0 < n < |run.states| && Inv(run.states[n - 1]) && Owned(run.states[n - 1]) && AllProper(run.states[n - 1])
    ensures AllProper(run.states[n])
  {
    NextProper(run.states[n - 1], run.events[n - 1], run.states[n]);
  }

  /** Over runs with polite clients, the destination at the head of every packet frame a connection was ever
      sent is the lease it holds now, and every reply told it that lease. */
  lemma {:induction false} RunProper(run: PoliteRun, n: nat)
    requires n < |run.states|
    ensures AllProper(run.states[n])
  {
    if n > 0 {
      RunProper(run, n - 1);
      RunKeeps(run, n - 1);
      RunOwned(run, n - 1);
      EventProper(run, n);
    }
  }

  // ----- the packets in the frames

  /** The payloads that batches make. */
  function Joined(bs: seq<Batch>): (ps: seq<seq<byte>>)
    ensures |ps| == |bs|
    decreases |bs|
  {
    if bs == [] then [] else Joined(bs[..|bs| - 1]) + [DataOf(bs[|bs| - 1].parts)]
  }

  lemma JoinedStep(bs: seq<Batch>, b: Batch)
    ensures Joined(bs + [b]) == Joined(bs) + [DataOf(b.parts)]
  {
    assert (bs + [b])[..|bs|] == bs;
  }

  lemma {:induction false} JoinedHas(bs: seq<Batch>, b: Batch)
    requires b in bs
    ensures DataOf(b.parts) in Joined(bs)
    decreases |bs|
  {
    var front := bs[..|bs| - 1];
    if b in front {
      JoinedHas(front, b);
    } else {
      assert b == bs[|bs| - 1];
      assert Joined(bs)[|bs| - 1] == DataOf(b.parts);
    }
  }

  /** The packet frames of a connection are batches of tun reads that left for it. */
  ghost predicate ViaOk(d: Device, fd: int, c: Conn) {
    && Client.Downlink(c.down, true) == Joined(c.via)
    && forall b | b in c.via :: b in d.left && b.to == fd
  }

  ghost predicate AllVia(s: Sys) {
    forall fd | fd in s.conns :: ViaOk(s.device, fd, s.conns[fd])
  }

  lemma DownlinkAppend(fs: seq<Frame>, gs: seq<Frame>, open: bool)
    ensures Client.Downlink(fs + gs, open) == Client.Downlink(fs, open) + Client.Downlink(gs, open)
  {
    PayloadsAppend(fs, gs, DATA_DOWN);
  }

  /** No packet among the frames, or nowhere to write one. */
  lemma {:induction false} NoDownlink(fs: seq<Frame>, open: bool)
    ensures Client.Downlink(fs, open) == [] <==> !open || forall f | f in fs :: f.kind != DATA_DOWN
    decreases |fs|
  {
    if fs != [] {
      var front, f := fs[..|fs| - 1], fs[|fs| - 1];
      NoDownlink(front, open);
      assert fs == front + [f];
    }
  }

  lemma NoPacketsVia(d: Device, fd: int, c: Conn, fs: seq<Frame>, c': Conn)
    requires ViaOk(d, fd, c) && c'.via == c.via && c'.down == c.down + fs
    requires forall f | f in fs :: f.kind != DATA_DOWN
    ensures ViaOk(d, fd, c')
  {
    DownlinkAppend(c.down, fs, true);
    NoDownlink(fs, true);
    Units(Client.Downlink(c.down, true));
  }

  lemma {:induction false} RepliesOnly(w: World, fd: int, fs: seq<Frame>, now: int, f: Frame)
    requires f in Replies(w, fd, fs, now)
    ensures f.kind == IP_REPLY
    decreases |fs|
  {
    var front := fs[..|fs| - 1];
    if f in Replies(w, fd, front, now) {
      RepliesOnly(w, fd, front, now, f);
    }
  }

  lemma ReadVia(s: Sys, e: Event, s': Sys)
    requires AllVia(s) && e.Read? && Next(s, e, s')
    ensures AllVia(s')
  {
    var Read(fd, chunk, now, stop, handled) := e;
    var fs := Parse(s.conns[fd].buf + chunk).frames[..handled];
    forall f | f in Replies(s.world, fd, fs, now) ensures f.kind != DATA_DOWN {
      RepliesOnly(s.world, fd, fs, now, f);
    }
    NoPacketsVia(s.device, fd, s.conns[fd], Replies(s.world, fd, fs, now), s'.conns[fd]);
    forall g | g in s'.conns && g != fd ensures ViaOk(s'.device, g, s'.conns[g]) {
      assert ViaOk(s.device, g, s.conns[g]);
    }
  }

  lemma PacketsVia(down: seq<Frame>, via: seq<Batch>, b: Batch)
    requires Client.Downlink(down, true) == Joined(via)
    ensures Client.Downlink(down + [Frame(DATA_DOWN, DataOf(b.parts))], true) == Joined(via + [b])
  {
    var f := Frame(DATA_DOWN, DataOf(b.parts));
    DownlinkAppend(down, [f], true);
    Client.DownlinkOne(f, true);
    JoinedStep(via, b);
  }

  lemma BatchVia(d: Device, fd: int, c: Conn, d': Device, b: Batch, c': Conn)
    requires ViaOk(d, fd, c) && d'.left == d.left + [b] && b.to == fd
    requires c'.via == c.via + [b] && c'.down == c.down + [Frame(DATA_DOWN, DataOf(b.parts))]
    ensures ViaOk(d', fd, c')
  {
    PacketsVia(c.down, c.via, b);
  }

  lemma PacketVia(s: Sys, b: Batch, gone: bool, s': Sys)
    requires AllVia(s) && Touched(s, b, gone, s')
    ensures AllVia(s')
  {
    forall g | g in s'.conns ensures ViaOk(s'.device, g, s'.conns[g]) {
      assert ViaOk(s.device, g, s.conns[g]);
      if g == b.to && gone {
        BatchVia(s.device, g, s.conns[g], s'.device, b, s'.conns[g]);
      }
    }
  }

  lemma SweepVia(s: Sys, clock: seq<int>, failed: set<int>, s': Sys)
    requires AllVia(s) && Next(s, SweepAt(clock, failed), s')
    ensures AllVia(s')
  {
    forall g | g in s'.conns ensures ViaOk(s'.device, g, s'.conns[g]) {
      var beats := BeatFrames(BeatsDue(s.world.table.users, MAX_CLIENTS, clock, g));
      forall f | f in beats ensures f.kind != DATA_DOWN {
        BeatsOnly(BeatsDue(s.world.table.users, MAX_CLIENTS, clock, g), f);
      }
      NoPacketsVia(s.device, g, s.conns[g], beats, s'.conns[g]);
    }
  }

  lemma NextVia(s: Sys, e: Event, s': Sys)
    requires Inv(s) && AllVia(s) && Next(s, e, s')
    ensures AllVia(s')
  {
    match e {
      case Accept(_) =>
      case Read(_, _, _, _, _) => ReadVia(s, e, s');
      case HangUp(_) =>
      case FromTun(chunk, rest) =>
        TunTouches(s, chunk, rest, s');
        PacketVia(s, BatchOf(s.world.table.users, HeldWith(s.device, chunk)), rest == [], s');
      case SweepAt(clock, failed) => SweepVia(s, clock, failed, s');
    }
  }

  lemma EventVia(run: Run, n: nat)
    requires 0 < n < |run.states| && Inv(run.states[n - 1]) && AllVia(run.states[n - 1])
    ensures AllVia(run.states[n])
  {
    NextVia(run.states[n - 1], run.events[n - 1], run.states[n]);
  }

  /** Over every run: the packet frames a connection was sent are, in order and byte for byte, batches of tun
      reads that left for it. */
  lemma {:induction false} RunVia(run: Run, n: nat)
    requires n < |run.states|
    ensures AllVia(run.states[n])
  {
    if n > 0 {
      RunVia(run, n - 1);
      RunKeeps(run, n - 1);
      EventVia(run, n);
    }
  }

  lemma {:induction false} PayloadsHas(fs: seq<Frame>, kind: byte, payload: seq<byte>)
    requires payload in Payloads(fs, kind)
    ensures Frame(kind, payload) in fs
    decreases |fs|
  {
    var front := fs[..|fs| - 1];
    if payload in Payloads(front, kind) {
      PayloadsHas(front, kind, payload);
    }
  }

  lemma FrameOfBatch(run: Run, n: nat, fd: int, b: Batch)
    requires n < |run.states| && fd in run.states[n].conns && b in run.states[n].conns[fd].via
    ensures b in run.states[n].device.left && BatchOk(b)
    ensures Frame(DATA_DOWN, DataOf(b.parts)) in run.states[n].conns[fd].down
  {
    RunVia(run, n);
    RunKeeps(run, n);
    var c := run.states[n].conns[fd];
    assert ViaOk(run.states[n].device, fd, c);
    JoinedHas(c.via, b);
    PayloadsHas(c.down, DATA_DOWN, DataOf(b.parts));
  }

  lemma SameLease(users: seq<User>, fd: int, reply: Frame, packet: Frame) returns (i: byte)
    requires Injective(users) && Proper(users, fd, reply) && Proper(users, fd, packet)
    requires reply.kind == IP_REPLY && packet.kind == DATA_DOWN
    ensures reply == LeaseReply(i) && Destination(packet.payload) == LeaseAddr(i)
  {
    i :| HeldBy(users, i, fd) && reply == LeaseReply(i);
    var j :| HeldBy(users, j, fd) && Destination(packet.payload) == LeaseAddr(j);
    assert i == j;
  }

  /** Of the packets sent to a client that was told an address, those that found the tun buffer empty are
      addressed to it; the others travel behind one of these, and TunBatches says exactly when there are any. */
  lemma AddressedAsTold(run: PoliteRun, n: nat, fd: int, reply: Frame, b: Batch) returns (i: byte)
    requires n < |run.states| && fd in run.states[n].conns
    requires reply in run.states[n].conns[fd].down && reply.kind == IP_REPLY && b in run.states[n].conns[fd].via
    ensures reply == LeaseReply(i) && BatchOk(b)
    ensures forall k | 0 <= k < |b.parts| && b.parts[k].onEmpty && |b.parts[k].data| >= IP_HEADER ::
              Destination(b.parts[k].data) == LeaseAddr(i)
  {
    RunProper(run, n);
    RunOwned(run, n);
    FrameOfBatch(run, n, fd, b);
    i := SameLease(run.states[n].world.table.users, fd, reply, Frame(DATA_DOWN, DataOf(b.parts)));
    BytesStart(b.parts);
    if |b.parts[0].data| >= IP_HEADER {
      assert DataOf(b.parts)[16..20] == b.parts[0].data[16..20];
    }
  }

  /** When every read of the tun device finds its buffer empty, a client that was told an address is sent single
      packets for that address and nothing else from the tun device. */
  lemma OnlyAddressedAsTold(run: PoliteRun, n: nat, fd: int, reply: Frame, b: Batch) returns (i: byte)
    requires n < |run.states| && fd in run.states[n].conns
    requires reply in run.states[n].conns[fd].down && reply.kind == IP_REPLY && b in run.states[n].conns[fd].via
    requires forall r | r in run.states[n].device.taken :: r.onEmpty
    ensures reply == LeaseReply(i) && |b.parts| == 1
    ensures |b.parts[0].data| >= IP_HEADER ==> Destination(b.parts[0].data) == LeaseAddr(i)
  {
    i := AddressedAsTold(run, n, fd, reply, b);
    FrameOfBatch(run, n, fd, b);
    AllOwnIff(run, n);
    OwnIffSingle(b, 0);
  }

  // ----- what the client makes of them

  /** The client between two calls of `handle_socket`; `shut` and `seen` are the frames it handled while its tun
      device was closed and open. */
  datatype Side = Side(content: seq<byte>, view: Client.View, tun: seq<seq<byte>>,
                       shut: seq<Frame>, seen: seq<Frame>)

  /** A call that succeeds. */
  ghost predicate Received(c: Side, chunk: seq<byte>, now: int, open: bool, c': Side) {
    exists handled: nat, added: seq<seq<byte>> ::
      && Client.Drained(c.content + chunk, c.view, now, open, true, handled, c'.content, c'.view, added)
      && c'.tun == c.tun + added
      && var fs := Parse(c.content + chunk).frames;
      if open then c'.shut == c.shut && c'.seen == c.seen + fs else c'.shut == c.shut + fs && c'.seen == c.seen
  }

  /** The tun device is closed at first; once `SET_TUN` has opened it, it stays open. */
  ghost predicate ClientRun(cs: seq<Side>, chunks: seq<seq<byte>>, times: seq<int>, opens: seq<bool>) {
    && |cs| == |chunks| + 1 && |times| == |opens| == |chunks|
    && cs[0] == Side([], cs[0].view, [], [], [])
    && (forall i, j | 0 <= i < j < |opens| && opens[i] :: opens[j])
    && forall i | 0 <= i < |chunks| :: Received(cs[i], chunks[i], times[i], opens[i], cs[i + 1])
  }

  /** What the client has made of the bytes `s`. */
  ghost predicate Caught(s: seq<byte>, c: Side) {
    var p := Parse(s);
    && p.sane && c.content == p.rest && p.frames == c.shut + c.seen
    && Client.Overruns(c.tun, Client.Downlink(c.seen, true))
  }

  lemma ReceivedCatches(s: seq<byte>, c: Side, chunk: seq<byte>, now: int, open: bool, c': Side)
    requires Caught(s, c) && (!open ==> c.seen == []) && Received(c, chunk, now, open, c')
    ensures Caught(s + chunk, c') && (!open ==> c'.seen == [])
  {
    var handled: nat, added: seq<seq<byte>> :|
      && Client.Drained(c.content + chunk, c.view, now, open, true, handled, c'.content, c'.view, added)
      && c'.tun == c.tun + added
      && var fs := Parse(c.content + chunk).frames;
      if open then c'.shut == c.shut && c'.seen == c.seen + fs else c'.shut == c.shut + fs && c'.seen == c.seen;
    var p := Parse(c.content + chunk);
    assert p.frames[..handled] == p.frames && p.frames[handled..] == [];
    Units(p.rest);
    ParseAppend(s, chunk);
    if open {
      Associative(c.shut, c.seen, p.frames);
      DownlinkAppend(c.seen, p.frames, true);
      Client.OverrunsAppend(c.tun, Client.Downlink(c.seen, true), added, Client.Downlink(p.frames, true));
    } else {
      Units(c.shut);
      Units(c'.shut);
      NoDownlink(p.frames, false);
      Units(c.tun);
    }
  }

  /** However the stream is cut into reads: the frames received so far are those handled with the tun device
      closed, followed by those handled with it open, and the client's writes to the device are the packets of
      the latter, one by one and each with five bytes more. */
  lemma {:induction false} ClientRunReceives(cs: seq<Side>, chunks: seq<seq<byte>>, times: seq<int>,
                                             opens: seq<bool>, n: nat)
    requires ClientRun(cs, chunks, times, opens) && n <= |chunks|
    ensures Caught(Flat(chunks[..n]), cs[n])
    ensures n > 0 && !opens[n - 1] ==> cs[n].seen == []
  {
    if n > 0 {
      ClientRunReceives(cs, chunks, times, opens, n - 1);
      FlatStep(chunks, n - 1);
      assert n > 1 && opens[n - 2] ==> opens[n - 1];
      ReceivedCatches(Flat(chunks[..n - 1]), cs[n - 1], chunks[n - 1], times[n - 1], opens[n - 1], cs[n]);
    }
  }

  /** The frames that call `k` of the client handles. */
  function HandledBy(cs: seq<Side>, chunks: seq<seq<byte>>, k: nat): seq<Frame>
    requires k < |cs| && k < |chunks|
  {
    Parse(cs[k].content + chunks[k]).frames
  }

  /** When the client last heard the server, if it was `start` before the first call. */
  function LastBeat(cs: seq<Side>, chunks: seq<seq<byte>>, times: seq<int>, start: int, n: nat): int
    requires n < |cs| && n <= |chunks| && n <= |times|
  {
    if n == 0 then start
    else if exists f | f in HandledBy(cs, chunks, n - 1) :: f.kind == 104 then times[n - 1]
    else LastBeat(cs, chunks, times, start, n - 1)
  }

  lemma ReceivedSees(c: Side, chunk: seq<byte>, now: int, open: bool, c': Side)
    requires Received(c, chunk, now, open, c')
    ensures c'.view == Client.SeeAll(c.view, Parse(c.content + chunk).frames, now, open)
  {
    var fs := Parse(c.content + chunk).frames;
    assert fs[..|fs|] == fs;
  }

  /** The replies a client has handled since `start` are the texts of the address replies in `s`, in order. */
  ghost predicate Told(start: seq<seq<byte>>, s: seq<byte>, c: Side) {
    c.view.replies == start + Payloads(Parse(s).frames, 101)
  }

  /** The replies of one more call are those of what it adds to the stream. */
  lemma RepliesStep(start: seq<seq<byte>>, s: seq<byte>, c: Side, chunk: seq<byte>, s': seq<byte>, c': Side)
    requires c.content == Parse(s).rest && s' == s + chunk
    requires Told(start, s, c) && c'.view.replies == c.view.replies + Payloads(Parse(c.content + chunk).frames, 101)
    ensures Told(start, s', c')
  {
    var got, more := Parse(s).frames, Parse(c.content + chunk).frames;
    ParseAppend(s, chunk);
    PayloadsAppend(got, more, 101);
    Associative(start, Payloads(got, 101), Payloads(more, 101));
  }

  lemma CallSees(c: Side, chunk: seq<byte>, now: int, open: bool, c': Side)
    requires Received(c, chunk, now, open, c')
    ensures var fs := Parse(c.content + chunk).frames;
            && c'.view.lastFrom == (if exists f | f in fs :: f.kind == 104 then now else c.view.lastFrom)
            && c'.view.replies == c.view.replies + Payloads(fs, 101)
  {
    ReceivedSees(c, chunk, now, open, c');
    Client.SeenOf(c.view, Parse(c.content + chunk).frames, now, open);
  }

  lemma RunCallSees(cs: seq<Side>, chunks: seq<seq<byte>>, times: seq<int>, opens: seq<bool>, k: nat)
    requires ClientRun(cs, chunks, times, opens) && k < |chunks|
    ensures var fs := HandledBy(cs, chunks, k);
            && cs[k + 1].view.lastFrom == (if exists f | f in fs :: f.kind == 104 then times[k] else cs[k].view.lastFrom)
            && cs[k + 1].view.replies == cs[k].view.replies + Payloads(fs, 101)
  {
    CallSees(cs[k], chunks[k], times[k], opens[k], cs[k + 1]);
  }

  /** Whatever the reads, the client's stamp is the time of the last call that handled a keep-alive. */
  lemma {:induction false} ClientRunHears(cs: seq<Side>, chunks: seq<seq<byte>>, times: seq<int>,
                                          opens: seq<bool>, n: nat)
    requires ClientRun(cs, chunks, times, opens) && n <= |chunks|
    ensures cs[n].view.lastFrom == LastBeat(cs, chunks, times, cs[0].view.lastFrom, n)
  {
    if n > 0 {
      ClientRunHears(cs, chunks, times, opens, n - 1);
      RunCallSees(cs, chunks, times, opens, n - 1);
    }
  }

  lemma ContentIsRest(cs: seq<Side>, chunks: seq<seq<byte>>, times: seq<int>, opens: seq<bool>, n: nat)
    requires ClientRun(cs, chunks, times, opens) && n <= |chunks|
    ensures cs[n].content == Parse(Flat(chunks[..n])).rest
  {
    ClientRunReceives(cs, chunks, times, opens, n);
  }

  /** And the replies it has handled are those in what it received. */
  lemma {:induction false} ClientRunTold(cs: seq<Side>, chunks: seq<seq<byte>>, times: seq<int>,
                                         opens: seq<bool>, n: nat)
    requires ClientRun(cs, chunks, times, opens) && n <= |chunks|
    ensures Told(cs[0].view.replies, Flat(chunks[..n]), cs[n])
  {
    if n == 0 {
      Units(cs[0].view.replies);
    } else {
      ClientRunTold(cs, chunks, times, opens, n - 1);
      RunCallSees(cs, chunks, times, opens, n - 1);
      ContentIsRest(cs, chunks, times, opens, n - 1);
      FlatStep(chunks, n - 1);
      RepliesStep(cs[0].view.replies, Flat(chunks[..n - 1]), cs[n - 1], chunks[n - 1], Flat(chunks[..n]), cs[n]);
    }
  }

  lemma DownlinkPrefix(fs: seq<Frame>, gs: seq<Frame>)
    requires fs <= gs
    ensures Client.Downlink(fs, true) <= Client.Downlink(gs, true)
  {
    DownlinkAppend(fs, gs[|fs|..], true);
    assert fs + gs[|fs|..] == gs;
  }

  /** How the packets sent are shared out: dropped with the tun device closed, written to it, or under way. */
  ghost predicate Shared(sent: seq<seq<byte>>, c: Side, allRead: bool) {
    var dropped := Client.Downlink(c.shut, true);
    && dropped <= sent && |dropped| + |c.tun| <= |sent|
    && Client.Overruns(c.tun, sent[|dropped|..|dropped| + |c.tun|])
    && (allRead ==>
          && |dropped| + |c.tun| == |sent| && c.content == []
          && (|c.tun| == |sent| <==> forall f | f in c.shut :: f.kind != DATA_DOWN))
  }

  /** Each write to the tun device is the packet whose turn it is, and five bytes more. */
  predicate EachWritten(sent: seq<seq<byte>>, c: Side) {
    var dropped := |Payloads(c.shut, 103)|;
    && dropped + |c.tun| <= |sent|
    && forall i | 0 <= i < |c.tun| :: sent[dropped + i] <= c.tun[i] && |c.tun[i]| == |sent[dropped + i]| + 5
  }

  lemma SharedIsWritten(sent: seq<seq<byte>>, c: Side, allRead: bool)
    requires Shared(sent, c, allRead)
    ensures EachWritten(sent, c)
  {
    var dropped := |Payloads(c.shut, 103)|;
    var got := sent[dropped..dropped + |c.tun|];
    assert forall i | 0 <= i < |c.tun| :: got[i] == sent[dropped + i];
  }

  lemma CaughtPrefix(down: seq<Frame>, s: seq<byte>, inFlight: seq<byte>, c: Side)
    requires Encodable(down) && s + inFlight == EncodeAll(down) && Caught(s, c)
    ensures Client.Downlink(c.shut, true) + Client.Downlink(c.seen, true) <= Client.Downlink(down, true)
    ensures inFlight == [] ==>
              && Client.Downlink(c.shut, true) + Client.Downlink(c.seen, true) == Client.Downlink(down, true)
              && c.content == []
  {
    PrefixOfStream(s, inFlight, down);
    DownlinkAppend(c.shut, c.seen, true);
    DownlinkPrefix(Parse(s).frames, down);
  }

  lemma PrefixIsShared(sent: seq<seq<byte>>, c: Side, got: seq<seq<byte>>, allRead: bool)
    requires got == Client.Downlink(c.seen, true) && Client.Overruns(c.tun, got)
    requires Client.Downlink(c.shut, true) + got <= sent
    requires allRead ==> Client.Downlink(c.shut, true) + got == sent && c.content == []
    ensures Shared(sent, c, allRead)
  {
    var dropped := Client.Downlink(c.shut, true);
    MiddleOf(dropped, got, sent);
    NoDownlink(c.shut, true);
    assert |c.tun| == |got|;
    assert sent[|dropped|..|dropped| + |c.tun|] == got;
  }

  /** What an uncut socket carries, and whose packets those are. */
  lemma StreamOf(run: Run, n: nat, fd: int)
    requires n < |run.states| && fd in run.states[n].conns && !run.states[n].conns[fd].cut
    ensures var c := run.states[n].conns[fd];
            && Encodable(c.down) && SockOf(run.states[n].world.socks, fd) == EncodeAll(c.down)
            && Client.Downlink(c.down, true) == Joined(c.via)
  {
    RunSent(run, n);
    RunVia(run, n);
    assert SentOk(run.states[n].world.socks, fd, run.states[n].conns[fd]);
    assert ViaOk(run.states[n].device, fd, run.states[n].conns[fd]);
  }

  /** What a client has made of all the chunks it read. */
  lemma AllCaught(cs: seq<Side>, chunks: seq<seq<byte>>, times: seq<int>, opens: seq<bool>)
    requires ClientRun(cs, chunks, times, opens)
    ensures Caught(Flat(chunks), cs[|chunks|])
  {
    assert chunks[..|chunks|] == chunks;
    ClientRunReceives(cs, chunks, times, opens, |chunks|);
  }

  lemma AllTold(cs: seq<Side>, chunks: seq<seq<byte>>, times: seq<int>, opens: seq<bool>)
    requires ClientRun(cs, chunks, times, opens)
    ensures Told(cs[0].view.replies, Flat(chunks), cs[|chunks|])
  {
    assert chunks[..|chunks|] == chunks;
    ClientRunTold(cs, chunks, times, opens, |chunks|);
  }

  lemma CaughtIsShared(down: seq<Frame>, s: seq<byte>, inFlight: seq<byte>, c: Side, sent: seq<seq<byte>>)
    requires Encodable(down) && s + inFlight == EncodeAll(down) && Caught(s, c) && sent == Client.Downlink(down, true)
    ensures Shared(sent, c, inFlight == []) && EachWritten(sent, c)
  {
    CaughtPrefix(down, s, inFlight, c);
    PrefixIsShared(sent, c, Client.Downlink(c.seen, true), inFlight == []);
    SharedIsWritten(sent, c, inFlight == []);
  }

  /** End to end, at any moment of any run of the server and of a client that reads what its socket carries:
      the batches of tun reads sent to the client are, in order, those it dropped because they came before its
      tun device was open, those it has written to the device, each once and with five bytes more, and those
      under way. Once it has read everything, nothing was lost exactly when it met no packet with the device
      closed. */
  lemma DownlinkReceived(run: Run, n: nat, fd: int, cs: seq<Side>, chunks: seq<seq<byte>>,
                         times: seq<int>, opens: seq<bool>, inFlight: seq<byte>)
    requires n < |run.states| && fd in run.states[n].conns && !run.states[n].conns[fd].cut
    requires ClientRun(cs, chunks, times, opens) && Flat(chunks) + inFlight == SockOf(run.states[n].world.socks, fd)
    ensures var sent, c := Joined(run.states[n].conns[fd].via), cs[|chunks|];
            Shared(sent, c, inFlight == []) && EachWritten(sent, c)
  {
    StreamOf(run, n, fd);
    AllCaught(cs, chunks, times, opens);
    var c := run.states[n].conns[fd];
    CaughtIsShared(c.down, Flat(chunks), inFlight, cs[|chunks|], Joined(c.via));
  }

  /** And every reply a client has handled told it the lease that its connection holds, by which packets are routed
      to it. */
  lemma ToldItsLease(run: PoliteRun, n: nat, fd: int, cs: seq<Side>, chunks: seq<seq<byte>>, times: seq<int>,
                     opens: seq<bool>, inFlight: seq<byte>, text: seq<byte>) returns (i: byte)
    requires n < |run.states| && fd in run.states[n].conns && !run.states[n].conns[fd].cut
    requires ClientRun(cs, chunks, times, opens) && Flat(chunks) + inFlight == SockOf(run.states[n].world.socks, fd)
    requires cs[0].view.replies == [] && text in cs[|chunks|].view.replies
    ensures HeldBy(run.states[n].world.table.users, i, fd) && text == LeaseReply(i).payload
  {
    StreamOf(run, n, fd);
    RunProper(run, n);
    AllTold(cs, chunks, times, opens);
    var down, fs := run.states[n].conns[fd].down, Parse(Flat(chunks)).frames;
    PrefixOfStream(Flat(chunks), inFlight, down);
    Units(Payloads(fs, 101));
    PayloadsHas(fs, 101, text);
    var f := Frame(101, text);
    assert f in down && Proper(run.states[n].world.table.users, fd, f);
    i :| HeldBy(run.states[n].world.table.users, i, fd) && f == LeaseReply(i);
  }

  // ----- the client's buffer

  /** No frame of the server is longer than a full tun buffer with its header. */
  ghost predicate AllShort(s: Sys) {
    forall fd, f | fd in s.conns && f in s.conns[fd].down :: Size(f) <= 65541
  }

  lemma {:induction false} RepliesShort(w: World, fd: int, fs: seq<Frame>, now: int, f: Frame)
    requires f in Replies(w, fd, fs, now)
    ensures Size(f) <= 90
    decreases |fs|
  {
    var front, last := fs[..|fs| - 1], fs[|fs| - 1];
    if f in Replies(w, fd, front, now) {
      RepliesShort(w, fd, front, now, f);
    } else {
      var before := HandleAll(w, fd, front, now);
      assert f in ReplyTo(before, last);
      ReplyShort(FreeEntry(before.table.users));
    }
  }

  lemma ReplyShort(i: byte)
    ensures Size(LeaseReply(i)) <= 90
  {
    TextIsShort(LeaseReplyQuads(i));
  }

  lemma ReadShort(s: Sys, e: Event, s': Sys)
    requires AllShort(s) && e.Read? && Next(s, e, s')
    ensures AllShort(s')
  {
    var fs := Parse(s.conns[e.fd].buf + e.chunk).frames[..e.handled];
    forall f | f in Replies(s.world, e.fd, fs, e.now) ensures Size(f) <= 65541 {
      RepliesShort(s.world, e.fd, fs, e.now, f);
    }
  }

  lemma PacketShort(s: Sys, b: Batch, gone: bool, s': Sys)
    requires AllShort(s) && Touched(s, b, gone, s')
    ensures AllShort(s')
  {
  }

  lemma SweepShort(s: Sys, clock: seq<int>, failed: set<int>, s': Sys)
    requires AllShort(s) && Next(s, SweepAt(clock, failed), s')
    ensures AllShort(s')
  {
    forall fd, f | fd in s'.conns && f in s'.conns[fd].down ensures Size(f) <= 65541 {
      if f !in s.conns[fd].down {
        BeatsOnly(BeatsDue(s.world.table.users, MAX_CLIENTS, clock, fd), f);
      }
    }
  }

  lemma NextShort(s: Sys, e: Event, s': Sys)
    requires Inv(s) && AllShort(s) && Next(s, e, s')
    ensures AllShort(s')
  {
    match e {
      case Read(_, _, _, _, _) => ReadShort(s, e, s');
      case FromTun(chunk, rest) =>
        TunTouches(s, chunk, rest, s');
        PacketShort(s, BatchOf(s.world.table.users, HeldWith(s.device, chunk)), rest == [], s');
      case SweepAt(clock, failed) => SweepShort(s, clock, failed, s');
      case _ =>
    }
  }

  lemma EventShort(run: Run, n: nat)
    requires 0 < n < |run.states| && Inv(run.states[n - 1]) && AllShort(run.states[n - 1])
    ensures AllShort(run.states[n])
  {
    NextShort(run.states[n - 1], run.events[n - 1], run.states[n]);
  }

  lemma {:induction false} RunShort(run: Run, n: nat)
    requires n < |run.states|
    ensures AllShort(run.states[n])
  {
    if n > 0 {
      RunShort(run, n - 1);
      RunKeeps(run, n - 1);
      EventShort(run, n);
    }
  }

  /** In any run, what a successful call of the client leaves in its buffer of four megabytes is less than one frame
      of the server: the buffer never fills up, and no read finds it full. */
  lemma ClientNeverFull(run: Run, n: nat, fd: int, cs: seq<Side>, chunks: seq<seq<byte>>,
                        times: seq<int>, opens: seq<bool>, inFlight: seq<byte>)
    requires n < |run.states| && fd in run.states[n].conns && !run.states[n].conns[fd].cut
    requires ClientRun(cs, chunks, times, opens) && Flat(chunks) + inFlight == SockOf(run.states[n].world.socks, fd)
    ensures |cs[|chunks|].content| < 65541 < Client.BUFFER_SIZE
  {
    StreamOf(run, n, fd);
    RunShort(run, n);
    AllCaught(cs, chunks, times, opens);
    BufferBounds.RestFits(Flat(chunks), inFlight, run.states[n].conns[fd].down, 65541);
  }
}
