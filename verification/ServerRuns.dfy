/** Whole runs of the epoll server: any interleaving of accepts, client reads, hang-ups, tun reads and sweeps.
    The handlers take part through the contracts proved for them in EpollServer. */
module ServerRuns {
  import opened Wire
  import opened LeaseTable
  import opened EpollServer
  import opened Sequences

  /** What one read of the tun device delivered, and whether the buffer of the device was empty then. */
  datatype TunRead = TunRead(data: seq<byte>, onEmpty: bool)

  /** Reads that left the buffer together: `to` is the descriptor they were written to as one frame, -1 if they
      were dropped, and `own` are the descriptors that each of them would have been routed to by itself. */
  datatype Batch = Batch(parts: seq<TunRead>, to: int, own: seq<int>)

  /** The buffer of the tun device, everything ever read into it, the reads still in it and those that left. */
  datatype Device = Device(buf: seq<byte>, taken: seq<TunRead>, held: seq<TunRead>, left: seq<Batch>)

  /** One open connection: what its buffer holds, and since it was accepted the bytes it delivered, the
      messages finished, the packets written to the tun device on its behalf, the frames written whole to its
      socket, the batches among these, whether a write to the socket ever failed, and how its last read ended. */
  datatype Conn = Conn(buf: seq<byte>, got: seq<byte>, done: seq<Frame>, up: seq<seq<byte>>,
                       down: seq<Frame>, via: seq<Batch>, cut: bool, stop: Stop)

  datatype Sys = Sys(world: World, conns: map<int, Conn>, device: Device)

  datatype Event =
    | Accept(fd: int)
    | Read(fd: int, chunk: seq<byte>, now: int, stop: Stop, handled: nat)
    | HangUp(fd: int)
    | FromTun(chunk: seq<byte>, rest: seq<byte>)
    | SweepAt(clock: seq<int>, failed: set<int>)

  // ----- what the events do to the connections

  const FRESH := Conn([], [], [], [], [], [], false, Drained)

  /** The reply that finishing a message writes. */
  function ReplyTo(w: World, f: Frame): seq<Frame> {
    if f.kind == IP_REQUEST && Accepts(w, f) then [LeaseReply(FreeEntry(w.table.users))] else []
  }

  /** The replies among what `HandleAll` does. */
  function Replies(w: World, fd: int, fs: seq<Frame>, now: int): seq<Frame>
    decreases |fs|
  {
    if fs == [] then []
    else
      var front := fs[..|fs| - 1];
      Replies(w, fd, front, now) + ReplyTo(HandleAll(w, fd, front, now), fs[|fs| - 1])
  }

  /** One read of a connection, of which `handled` of the parsed messages were finished. */
  function AfterRead(s: Sys, fd: int, chunk: seq<byte>, now: int, stop: Stop, handled: nat, w': World): Conn
    requires fd in s.conns && |s.world.tun| <= |w'.tun|
    requires handled <= |Parse(s.conns[fd].buf + chunk).frames|
    requires Encodable(Parse(s.conns[fd].buf + chunk).frames[handled..])
  {
    var c := s.conns[fd];
    var p := Parse(c.buf + chunk);
    var first, later := p.frames[..handled], p.frames[handled..];
    Conn(EncodeAll(later) + p.rest, c.got + chunk, c.done + first, c.up + w'.tun[|s.world.tun|..],
         c.down + Replies(s.world, fd, first, now), c.via,
         c.cut || (stop == WriteFailed && later != [] && later[0].kind == IP_REQUEST), stop)
  }

  function BeatFrames(n: nat): seq<Frame> {
    if n == 0 then [] else BeatFrames(n - 1) + [Frame(KEEPALIVE, [])]
  }

  /** A sweep closes the connections it finds silent. */
  function AfterSweep(s: Sys, clock: seq<int>, failed: set<int>): map<int, Conn>
    requires |s.world.table.users| <= |clock|
  {
    var users := s.world.table.users;
    map fd | fd in s.conns && !Expired(users, |users|, clock, fd) ::
      var c := s.conns[fd];
      c.(down := c.down + BeatFrames(BeatsDue(users, |users|, clock, fd)), cut := c.cut || fd in failed)
  }

  // ----- what a tun read does

  /** The bytes of some reads. */
  function DataOf(rs: seq<TunRead>): seq<byte>
    decreases |rs|
  {
    if rs == [] then [] else DataOf(rs[..|rs| - 1]) + rs[|rs| - 1].data
  }

  function HeldWith(d: Device, chunk: seq<byte>): seq<TunRead> {
    if chunk == [] then d.held else d.held + [TunRead(chunk, d.buf == [])]
  }

  /** The batch made of everything that is in the buffer. */
  function BatchOf(users: seq<User>, rs: seq<TunRead>): Batch {
    Batch(rs, RouteOf(users, DataOf(rs)), seq(|rs|, i requires 0 <= i < |rs| => RouteOf(users, rs[i].data)))
  }

  /** The buffer either keeps all of its bytes, or all of them leave it. */
  function AfterTun(s: Sys, chunk: seq<byte>, rest: seq<byte>): Device {
    var d := s.device;
    var held := HeldWith(d, chunk);
    var taken := d.taken + (if chunk == [] then [] else [TunRead(chunk, d.buf == [])]);
    if rest == [] && held != [] then Device([], taken, [], d.left + [BatchOf(s.world.table.users, held)])
    else Device(rest, taken, held, d.left)
  }

  /** A batch that left is a frame of its target; one that could not be written has cut its target's socket. */
  function AfterPacket(s: Sys, chunk: seq<byte>, rest: seq<byte>): map<int, Conn> {
    var held := HeldWith(s.device, chunk);
    var b := BatchOf(s.world.table.users, held);
    if b.to !in s.conns then s.conns
    else
      var c := s.conns[b.to];
      if rest != [] then s.conns[b.to := c.(cut := true)]
      else s.conns[b.to := c.(down := c.down + [Frame(DATA_DOWN, DataOf(held))], via := c.via + [b])]
  }

  /** One event. */
  ghost predicate Next(s: Sys, e: Event, s': Sys) {
    match e
    case Accept(fd) =>
      // the kernel hands out a descriptor that is not in use; the log of its socket begins anew
      && fd >= 0 && fd !in s.conns
      && s' == Sys(s.world.(socks := s.world.socks[fd := []]), s.conns[fd := FRESH], s.device)
    case Read(fd, chunk, now, stop, handled) =>
      && fd in s.conns && chunk != [] && |s.conns[fd].buf + chunk| <= BUF_SIZE
      && var p := Parse(s.conns[fd].buf + chunk);
      && handled <= |p.frames| && Encodable(p.frames[handled..])
      && Served(s.world, fd, p, now, stop, handled, s'.world)
      && |s.world.tun| <= |s'.world.tun|
      && s'.conns == s.conns[fd := AfterRead(s, fd, chunk, now, stop, handled, s'.world)]
      && s'.device == s.device
    case HangUp(fd) =>
      && fd in s.conns
      && s' == Sys(s.world.(table := Release(s.world.table, fd)), s.conns - {fd}, s.device)
    case FromTun(chunk, rest) =>
      && |s.device.buf + chunk| <= BUF_SIZE
      && Routed(s.world, s.device.buf + chunk, s'.world, rest)
      && s'.conns == AfterPacket(s, chunk, rest) && s'.device == AfterTun(s, chunk, rest)
    case SweepAt(clock, failed) =>
      && |s.world.table.users| == |clock| == MAX_CLIENTS
      && s'.world.table == Sweep(s.world.table, s.conns.Keys, MAX_CLIENTS, clock).table
      && s'.world.tun == s.world.tun
      && BeatsOwed(s.world.socks, s.world.table.users, MAX_CLIENTS, clock, failed, s'.world.socks)
      && s'.conns == AfterSweep(s, clock, failed) && s'.device == s.device
  }

  // ----- assumptions about clients

  /** At most one address request per connection, and its reply could be written. */
  ghost predicate Polite(s: Sys, e: Event) {
    e.Read? && e.fd in s.conns ==>
      && Requests(Parse(s.conns[e.fd].got + e.chunk).frames) <= 1
      && !(e.stop == WriteFailed &&
           var p := Parse(s.conns[e.fd].buf + e.chunk);
           e.handled < |p.frames| && p.frames[e.handled].kind == IP_REQUEST)
  }

  // ----- runs

  /** States, and the events between them. */
  datatype Trace = Trace(states: seq<Sys>, events: seq<Event>)

  const INITIAL := Sys(World(Table(InitialUsers(), []), [], map[]), map[], Device([], [], [], []))

  ghost predicate IsRun(t: Trace) {
    && |t.states| == |t.events| + 1 && t.states[0] == INITIAL
    && forall i | 0 <= i < |t.events| :: Next(t.states[i], t.events[i], t.states[i + 1])
  }

  type Run = t: Trace | IsRun(t) ghost witness Trace([INITIAL], [])

  ghost predicate IsPolite(t: Trace)
    requires IsRun(t)
  {
    forall i | 0 <= i < |t.events| :: Polite(t.states[i], t.events[i])
  }

  type PoliteRun = run: Run | IsPolite(run) ghost witness Trace([INITIAL], [])

  function Last(run: Run): Sys {
    run.states[|run.events|]
  }

  lemma ExtendRun(run: Run, e: Event, s': Sys) returns (run': Run)
    requires Next(Last(run), e, s')
    ensures run'.states == run.states + [s'] && run'.events == run.events + [e]
  {
    var t := Trace(run.states + [s'], run.events + [e]);
    forall i | 0 <= i < |t.events| ensures Next(t.states[i], t.events[i], t.states[i + 1]) {
      if i < |run.events| {
        assert t.states[i] == run.states[i] && t.states[i + 1] == run.states[i + 1];
      }
    }
    run' := t;
  }

  // ----- what every run keeps

  /** Every packet handled is written to the tun device, but an empty payload makes no write. */
  function TunWrites(fs: seq<Frame>): seq<seq<byte>>
    decreases |fs|
  {
    if fs == [] then []
    else
      var f := fs[|fs| - 1];
      TunWrites(fs[..|fs| - 1]) + (if f.kind == DATA_UP && f.payload != [] then [f.payload] else [])
  }

  /** No byte of a connection is lost: messages finished, followed by the buffer, are what was received. Only a
      read that was not drained leaves a whole message in the buffer. */
  ghost predicate ConnOk(c: Conn) {
    && |c.buf| <= BUF_SIZE
    && Encodable(c.done)
    && EncodeAll(c.done) + c.buf == c.got
    && c.up == TunWrites(c.done)
    && c.stop != Closed
    && (c.stop == Drained ==> Parse(c.buf) == Parsed([], c.buf, true))
    && (c.stop == Malformed ==> Parse(c.buf) == Parsed([], c.buf, false))
  }

  ghost predicate ConnsOk(conns: map<int, Conn>) {
    forall fd | fd in conns :: fd >= 0 && ConnOk(conns[fd])
  }

  /** The reads of all batches, in order. */
  function Flown(bs: seq<Batch>): seq<TunRead>
    decreases |bs|
  {
    if bs == [] then [] else Flown(bs[..|bs| - 1]) + bs[|bs| - 1].parts
  }

  /** The first of the reads found the buffer empty, the others did not. */
  predicate Led(rs: seq<TunRead>) {
    forall i | 0 <= i < |rs| :: rs[i].data != [] && (rs[i].onEmpty <==> i == 0)
  }

  /** A batch goes where its first read would go by itself. */
  predicate BatchOk(b: Batch) {
    && b.parts != [] && Led(b.parts) && |b.own| == |b.parts|
    && (|b.parts[0].data| >= IP_HEADER || |b.parts| == 1 ==> b.to == b.own[0])
  }

  /** No read of the tun device is lost: those of the batches, followed by those in the buffer, are what was
      read, in order. */
  predicate DeviceOk(d: Device) {
    && d.taken == Flown(d.left) + d.held && d.buf == DataOf(d.held)
    && Led(d.held) && forall b | b in d.left :: BatchOk(b)
  }

  ghost predicate Inv(s: Sys) {
    TableOk(s.world.table) && DeviceOk(s.device) && ConnsOk(s.conns)
  }

  /** With polite clients: one lease per descriptor, held only by open connections that asked. */
  ghost predicate Owned(s: Sys) {
    && Injective(s.world.table.users)
    && forall fd | Owns(s.world.table.users, fd) :: fd in s.conns && Requests(s.conns[fd].done) > 0
  }

  lemma {:induction false} PacketsAppend(fs: seq<Frame>, gs: seq<Frame>)
    ensures TunWrites(fs + gs) == TunWrites(fs) + TunWrites(gs)
    ensures Requests(fs + gs) == Requests(fs) + Requests(gs)
    decreases |gs|
  {
    if gs == [] {
      assert fs + gs == fs;
    } else {
      var front, f := gs[..|gs| - 1], gs[|gs| - 1];
      assert (fs + gs)[..|fs + gs| - 1] == fs + front;
      PacketsAppend(fs, front);
      Associative(TunWrites(fs), TunWrites(front), if f.kind == DATA_UP && f.payload != [] then [f.payload] else []);
    }
  }

  lemma HandleKeeps(w: World, fd: int, f: Frame, now: int)
    requires TableOk(w.table) && fd >= 0
    ensures TableOk(Handle(w, fd, f, now).table)
    ensures Handle(w, fd, f, now).tun == w.tun + TunWrites([f])
  {
    assert [f][..0] == [];
    if f.kind == IP_REQUEST && Accepts(w, f) {
      GrantKeeps(w.table, fd, now);
    } else if f.kind == KEEPALIVE {
      TouchKeeps(w.table, fd, now);
    }
  }

  lemma {:induction false} HandleAllKeeps(w: World, fd: int, fs: seq<Frame>, now: int)
    requires TableOk(w.table) && fd >= 0
    ensures TableOk(HandleAll(w, fd, fs, now).table)
    ensures HandleAll(w, fd, fs, now).tun == w.tun + TunWrites(fs)
    decreases |fs|
  {
    if fs != [] {
      var front, f := fs[..|fs| - 1], fs[|fs| - 1];
      HandleAllKeeps(w, fd, front, now);
      HandleKeeps(HandleAll(w, fd, front, now), fd, f, now);
      PacketsAppend(front, [f]);
      assert front + [f] == fs;
      Associative(w.tun, TunWrites(front), TunWrites([f]));
    }
  }

  lemma ServedKeeps(w: World, fd: int, p: Parsed, now: int, stop: Stop, handled: nat, w': World)
    requires TableOk(w.table) && fd >= 0 && handled <= |p.frames| && Served(w, fd, p, now, stop, handled, w')
    ensures TableOk(w'.table) && w'.tun == w.tun + TunWrites(p.frames[..handled])
  {
    HandleAllKeeps(w, fd, p.frames[..handled], now);
    var before := HandleAll(w, fd, p.frames[..handled], now);
    if stop == WriteFailed && p.frames[handled].kind == IP_REQUEST {
      GrantKeeps(before.table, fd, now);
    }
  }

  lemma ReadKeepsBytes(done: seq<Frame>, buf: seq<byte>, got: seq<byte>, chunk: seq<byte>, handled: nat)
    requires Encodable(done) && EncodeAll(done) + buf == got && handled <= |Parse(buf + chunk).frames|
    ensures var p := Parse(buf + chunk);
            && Encodable(done + p.frames[..handled]) && Encodable(p.frames[handled..])
            && EncodeAll(done + p.frames[..handled]) + (EncodeAll(p.frames[handled..]) + p.rest) == got + chunk
            && |EncodeAll(p.frames[handled..]) + p.rest| <= |buf + chunk|
  {
    var p := Parse(buf + chunk);
    var first, later := p.frames[..handled], p.frames[handled..];
    Reassemble(buf + chunk);
    assert Encodable(first) && Encodable(later);
    SplitAt(p.frames, handled);
    EncodeAllAppend(first, later);
    EncodeAllAppend(done, first);
    Associative(EncodeAll(first), EncodeAll(later), p.rest);
    Associative(EncodeAll(done), EncodeAll(first), EncodeAll(later) + p.rest);
    Associative(EncodeAll(done), buf, chunk);
  }

  lemma StopTells(w: World, fd: int, s: seq<byte>, now: int, stop: Stop, handled: nat, w': World)
    requires handled <= |Parse(s).frames| && Served(w, fd, Parse(s), now, stop, handled, w')
    requires Encodable(Parse(s).frames[handled..])
    ensures var p := Parse(s);
            var buf := EncodeAll(p.frames[handled..]) + p.rest;
            stop == Drained || stop == Malformed ==> Parse(buf) == Parsed([], buf, stop == Drained)
  {
    if stop == Drained || stop == Malformed {
      Units(Parse(s).rest);
      RestIsWaiting(s);
    }
  }

  lemma ReadKeepsConn(s: Sys, e: Event, s': Sys)
    requires Inv(s) && e.Read? && Next(s, e, s')
    ensures ConnOk(s'.conns[e.fd]) && TableOk(s'.world.table)
  {
    var c, c' := s.conns[e.fd], s'.conns[e.fd];
    var p := Parse(c.buf + e.chunk);
    ServedKeeps(s.world, e.fd, p, e.now, e.stop, e.handled, s'.world);
    StopTells(s.world, e.fd, c.buf + e.chunk, e.now, e.stop, e.handled, s'.world);
    ReadKeepsBytes(c.done, c.buf, c.got, e.chunk, e.handled);
    PacketsAppend(c.done, p.frames[..e.handled]);
    assert s'.world.tun[|s.world.tun|..] == TunWrites(p.frames[..e.handled]);
  }

  lemma {:induction false} BytesStart(rs: seq<TunRead>)
    requires rs != []
    ensures rs[0].data <= DataOf(rs) && (|rs| == 1 ==> DataOf(rs) == rs[0].data)
    decreases |rs|
  {
    if |rs| == 1 {
      assert DataOf(rs[..0]) == [];
    } else {
      BytesStart(rs[..|rs| - 1]);
    }
  }

  lemma BytesMore(rs: seq<TunRead>, r: TunRead)
    ensures DataOf(rs + [r]) == DataOf(rs) + r.data
  {
    assert (rs + [r])[..|rs|] == rs;
  }

  lemma HeadDecides(users: seq<User>, packet: seq<byte>, c: seq<byte>)
    requires |packet| >= IP_HEADER && packet <= c
    ensures RouteOf(users, c) == RouteOf(users, packet)
  {
    assert c[16..20] == packet[16..20];
  }

  lemma BatchOfOk(users: seq<User>, rs: seq<TunRead>)
    requires rs != [] && Led(rs)
    ensures BatchOk(BatchOf(users, rs))
  {
    BytesStart(rs);
    if |rs[0].data| >= IP_HEADER {
      HeadDecides(users, rs[0].data, DataOf(rs));
    }
  }

  lemma HeldKeeps(d: Device, chunk: seq<byte>)
    requires DeviceOk(d)
    ensures Led(HeldWith(d, chunk)) && DataOf(HeldWith(d, chunk)) == d.buf + chunk
    ensures d.buf == [] <==> d.held == []
  {
    if d.held != [] {
      BytesStart(d.held);
    }
    if chunk == [] {
      Units(d.buf);
    } else {
      BytesMore(d.held, TunRead(chunk, d.buf == []));
    }
  }

  lemma TunKeeps(s: Sys, chunk: seq<byte>, rest: seq<byte>)
    requires DeviceOk(s.device) && (rest == [] || rest == s.device.buf + chunk)
    ensures DeviceOk(AfterTun(s, chunk, rest))
  {
    var d, held := s.device, HeldWith(s.device, chunk);
    HeldKeeps(d, chunk);
    Associative(Flown(d.left), d.held, if chunk == [] then [] else [TunRead(chunk, d.buf == [])]);
    Units(d.held);
    if rest == [] && held != [] {
      BatchOfOk(s.world.table.users, held);
      var b := BatchOf(s.world.table.users, held);
      assert (d.left + [b])[..|d.left|] == d.left;
      Units(Flown(d.left + [b]));
    }
  }

  lemma AcceptKeepsConns(conns: map<int, Conn>, fd: int)
    requires ConnsOk(conns) && fd >= 0
    ensures ConnsOk(conns[fd := FRESH])
  {
    assert EncodeAll([]) + [] == [];
  }

  /** What a tun read leaves of the connections and the sockets: a batch that is gone went to its target, one that
      is not has cut the target's socket, and nobody else is concerned. */
  ghost predicate Touched(s: Sys, b: Batch, gone: bool, s': Sys) {
    && s'.world.table == s.world.table && s'.conns.Keys == s.conns.Keys
    && (forall g | g in s.conns && g != b.to :: s'.conns[g] == s.conns[g])
    && (forall g | g != b.to :: SockOf(s'.world.socks, g) == SockOf(s.world.socks, g))
    && s.device.left <= s'.device.left
    && (b.to in s.conns ==>
          var c, c' := s.conns[b.to], s'.conns[b.to];
          if !gone then c' == c.(cut := true)
          else
            && |DataOf(b.parts)| <= BUF_SIZE && s'.world == Delivered(s.world, b.to, DataOf(b.parts))
            && c' == c.(down := c.down + [Frame(DATA_DOWN, DataOf(b.parts))], via := c.via + [b])
            && s'.device.left == s.device.left + [b])
  }

  lemma RoutedTouches(w: World, packet: seq<byte>, w': World, rest: seq<byte>)
    requires |packet| <= BUF_SIZE && Routed(w, packet, w', rest)
    ensures var fd := RouteOf(w.table.users, packet);
            && w'.table == w.table
            && (forall g | g != fd :: SockOf(w'.socks, g) == SockOf(w.socks, g))
            && (fd >= 0 && rest == [] ==> w' == Delivered(w, fd, packet))
            && (rest == [] || rest == packet)
  {
  }

  lemma HeldGrows(s: Sys, chunk: seq<byte>, rest: seq<byte>)
    ensures var d, held := AfterTun(s, chunk, rest), HeldWith(s.device, chunk);
            && s.device.left <= d.left
            && (rest == [] && held != [] ==> d.left == s.device.left + [BatchOf(s.world.table.users, held)])
  {
  }

  lemma ConnsTouched(s: Sys, chunk: seq<byte>, rest: seq<byte>)
    ensures var b, conns := BatchOf(s.world.table.users, HeldWith(s.device, chunk)), AfterPacket(s, chunk, rest);
            && conns.Keys == s.conns.Keys
            && (forall g | g in s.conns && g != b.to :: conns[g] == s.conns[g])
            && (b.to in s.conns ==>
                  var c := s.conns[b.to];
                  conns[b.to] == if rest != [] then c.(cut := true)
                                 else c.(down := c.down + [Frame(DATA_DOWN, DataOf(b.parts))], via := c.via + [b]))
  {
  }

  lemma TunTouches(s: Sys, chunk: seq<byte>, rest: seq<byte>, s': Sys)
    requires DeviceOk(s.device) && ConnsOk(s.conns) && Next(s, FromTun(chunk, rest), s')
    ensures var b := BatchOf(s.world.table.users, HeldWith(s.device, chunk));
            && DataOf(b.parts) == s.device.buf + chunk && Touched(s, b, rest == [], s')
  {
    HeldKeeps(s.device, chunk);
    HeldGrows(s, chunk, rest);
    ConnsTouched(s, chunk, rest);
    RoutedTouches(s.world, s.device.buf + chunk, s'.world, rest);
  }

  lemma SameConn(c: Conn, c': Conn)
    requires ConnOk(c) && c'.buf == c.buf && c'.got == c.got && c'.done == c.done && c'.up == c.up && c'.stop == c.stop
    ensures ConnOk(c')
  {
  }

  lemma TouchedKeepsConns(s: Sys, b: Batch, gone: bool, s': Sys)
    requires ConnsOk(s.conns) && Touched(s, b, gone, s')
    ensures ConnsOk(s'.conns)
  {
    if b.to in s.conns {
      SameConn(s.conns[b.to], s'.conns[b.to]);
    }
  }

  lemma SweepKeepsConns(s: Sys, clock: seq<int>, failed: set<int>)
    requires ConnsOk(s.conns) && |s.world.table.users| <= |clock|
    ensures ConnsOk(AfterSweep(s, clock, failed))
  {
    var conns := AfterSweep(s, clock, failed);
    forall fd | fd in conns ensures fd >= 0 && ConnOk(conns[fd]) {
      SameConn(s.conns[fd], conns[fd]);
    }
  }

  lemma NextKeeps(s: Sys, e: Event, s': Sys)
    requires Inv(s) && Next(s, e, s')
    ensures Inv(s')
  {
    match e {
      case Accept(fd) =>
        AcceptKeepsConns(s.conns, fd);
      case Read(_, _, _, _, _) =>
        ReadKeepsConn(s, e, s');
      case HangUp(fd) =>
        ReleaseKeeps(s.world.table, fd);
      case FromTun(chunk, rest) =>
        TunKeeps(s, chunk, rest);
        TunTouches(s, chunk, rest, s');
        TouchedKeepsConns(s, BatchOf(s.world.table.users, HeldWith(s.device, chunk)), rest == [], s');
      case SweepAt(clock, failed) =>
        SweepKeeps(s.world.table, s.conns.Keys, MAX_CLIENTS, clock);
        SweepKeepsConns(s, clock, failed);
    }
  }

  lemma StartKeeps()
    ensures Inv(INITIAL)
  {
    InitialTableOk();
    Units<TunRead>([]);
  }

  lemma EventKeeps(run: Run, n: nat)
    requires 0 < n < |run.states| && Inv(run.states[n - 1])
    ensures Inv(run.states[n])
  {
    NextKeeps(run.states[n - 1], run.events[n - 1], run.states[n]);
  }

  /** In every reachable state the table is what its log says, no connection has lost a byte, and no read of the
      tun device is lost. */
  lemma {:induction false} RunKeeps(run: Run, n: nat)
    requires n < |run.states|
    ensures Inv(run.states[n])
  {
    if n == 0 {
      StartKeeps();
    } else {
      RunKeeps(run, n - 1);
      EventKeeps(run, n);
    }
  }

  // ----- one lease per connection, none without one

  lemma GrantOwned(t: Table, fd: int, now: int)
    requires TableOk(t) && Injective(t.users) && fd >= 0 && FreeEntry(t.users) >= 0 && !Owns(t.users, fd)
    ensures var users := Grant(t, fd, now).users;
            Injective(users) && forall f | Owns(users, f) :: f == fd || Owns(t.users, f)
  {
    var users := Grant(t, fd, now).users;
    forall i | 0 <= i < |users| && Leased(t.users[i]) ensures t.users[i].fd != fd {
      assert !(Leased(t.users[i]) && t.users[i].fd == fd);
    }
    forall f | Owns(users, f) && f != fd ensures Owns(t.users, f) {
      var i :| 0 <= i < |users| && Leased(users[i]) && users[i].fd == f;
      assert Leased(t.users[i]) && t.users[i].fd == f;
    }
  }

  lemma SameOwners(users: seq<User>, users': seq<User>)
    requires |users| == |users'| && Injective(users)
    requires forall i | 0 <= i < |users| :: Leased(users'[i]) ==> Leased(users[i]) && users'[i].fd == users[i].fd
    ensures Injective(users') && forall f | Owns(users', f) :: Owns(users, f)
  {
    forall f | Owns(users', f) ensures Owns(users, f) {
      var i :| 0 <= i < |users'| && Leased(users'[i]) && users'[i].fd == f;
      assert Leased(users[i]) && users[i].fd == f;
    }
  }

  lemma {:induction false} HandleAllOwned(w: World, fd: int, fs: seq<Frame>, now: int)
    requires TableOk(w.table) && Injective(w.table.users) && fd >= 0
    requires Requests(fs) <= 1 && (Requests(fs) == 1 ==> !Owns(w.table.users, fd))
    ensures var users := HandleAll(w, fd, fs, now).table.users;
            && Injective(users)
            && forall f | Owns(users, f) :: Owns(w.table.users, f) || (f == fd && Requests(fs) == 1)
    decreases |fs|
  {
    if fs != [] {
      var front, f := fs[..|fs| - 1], fs[|fs| - 1];
      HandleAllOwned(w, fd, front, now);
      HandleAllKeeps(w, fd, front, now);
      var w1 := HandleAll(w, fd, front, now);
      if f.kind == IP_REQUEST {
        if Accepts(w1, f) {
          GrantOwned(w1.table, fd, now);
        }
      } else {
        SameOwners(w1.table.users, Handle(w1, fd, f, now).table.users);
      }
    }
  }

  lemma RequestsOfPrefix(fs: seq<Frame>, n: nat)
    requires n <= |fs|
    ensures Requests(fs[..n]) <= Requests(fs)
  {
    PacketsAppend(fs[..n], fs[n..]);
    SplitAt(fs, n);
  }

  /** What a connection has finished, followed by what its buffer still holds, is what its own bytes say:
      nothing of an earlier connection on the descriptor takes part. */
  lemma OwnBytesOnly(c: Conn, more: seq<byte>)
    requires ConnOk(c)
    ensures Parse(c.got + more) == Parse(c.buf + more).After(c.done)
  {
    ParseEncoded(c.done, c.buf + more);
    Associative(EncodeAll(c.done), c.buf, more);
  }

  lemma ConnParses(c: Conn)
    requires ConnOk(c)
    ensures Parse(c.got) == Parse(c.buf).After(c.done)
  {
    OwnBytesOnly(c, []);
    Units(c.got);
    Units(c.buf);
  }

  lemma ReadOwned(s: Sys, e: Event, s': Sys)
    requires Inv(s) && Owned(s) && e.Read? && Next(s, e, s') && Polite(s, e)
    ensures Owned(s')
  {
    var Read(fd, chunk, now, stop, handled) := e;
    var c := s.conns[fd];
    var p := Parse(c.buf + chunk);
    OwnBytesOnly(c, chunk);
    PacketsAppend(c.done, p.frames);
    RequestsOfPrefix(p.frames, handled);
    PacketsAppend(c.done, p.frames[..handled]);
    HandleAllOwned(s.world, fd, p.frames[..handled], now);
    assert s'.world.table == HandleAll(s.world, fd, p.frames[..handled], now).table;
  }

  lemma HangUpOwned(s: Sys, fd: int)
    requires Inv(s) && Owned(s) && fd in s.conns
    ensures Owned(Sys(s.world.(table := Release(s.world.table, fd)), s.conns - {fd}, s.device))
  {
    var t := s.world.table;
    ReleaseIsCompleteIff(t, fd);
    SameOwners(t.users, Release(t, fd).users);
  }

  lemma SweepOwned(s: Sys, clock: seq<int>, failed: set<int>, s': Sys)
    requires Inv(s) && Owned(s) && Next(s, SweepAt(clock, failed), s')
    ensures Owned(s')
  {
    var users, users' := s.world.table.users, s'.world.table.users;
    InjectiveComeFirst(s.world.table, s.conns.Keys, MAX_CLIENTS, clock);
    SweepIsPointwise(s.world.table, s.conns.Keys, MAX_CLIENTS, clock);
    SameOwners(users, users');
    forall fd | Owns(users', fd) ensures fd in s'.conns {
      var i :| 0 <= i < |users'| && Leased(users'[i]) && users'[i].fd == fd;
      assert Owns(users, fd) && fd in s.conns;
      assert !Silent(users[i], clock[i]) && users[i].fd == fd;
    }
  }

  /** Events that leave the table and the finished messages alone. */
  lemma OthersOwned(s: Sys, e: Event, s': Sys)
    requires Owned(s) && (e.Accept? || e.FromTun?) && Next(s, e, s')
    ensures Owned(s')
  {
    assert s'.world.table == s.world.table;
  }

  lemma NextOwned(s: Sys, e: Event, s': Sys)
    requires Inv(s) && Owned(s) && Next(s, e, s') && Polite(s, e)
    ensures Owned(s')
  {
    match e {
      case Read(_, _, _, _, _) => ReadOwned(s, e, s');
      case HangUp(fd) => HangUpOwned(s, fd);
      case SweepAt(clock, failed) => SweepOwned(s, clock, failed, s');
      case _ => OthersOwned(s, e, s');
    }
  }

  lemma StartOwned()
    ensures Owned(INITIAL)
  {
    assert forall fd :: !Owns(INITIAL.world.table.users, fd);
  }

  lemma EventOwned(run: PoliteRun, n: nat)
    requires 0 < n < |run.states| && Inv(run.states[n - 1]) && Owned(run.states[n - 1])
    ensures Owned(run.states[n])
  {
    NextOwned(run.states[n - 1], run.events[n - 1], run.states[n]);
  }

  lemma {:induction false} RunOwned(run: PoliteRun, n: nat)
    requires n < |run.states|
    ensures Owned(run.states[n])
  {
    if n == 0 {
      StartOwned();
    } else {
      RunOwned(run, n - 1);
      RunKeeps(run, n - 1);
      EventOwned(run, n);
    }
  }

  /** When every connection asks for an address at most once and gets its reply, leases and connections stay
      one to one over whole runs; in particular a descriptor that is not open owns no address, so the next
      connection on it inherits none. */
  lemma PoliteRunOwned(run: PoliteRun, n: nat)
    requires n < |run.states|
    ensures Injective(run.states[n].world.table.users)
    ensures forall fd | Owns(run.states[n].world.table.users, fd) ::
              fd in run.states[n].conns && Requests(run.states[n].conns[fd].done) > 0
    ensures forall fd | fd !in run.states[n].conns :: !Owns(run.states[n].world.table.users, fd)
  {
    RunOwned(run, n);
  }

  /** Both halves of politeness are needed. A second request, or the retry of a request whose reply could
      not be written, takes a second entry; freeing the descriptor then leaves an entry it still owns. */
  lemma SecondRequestLeaks(t: Table, fd: int, now: int, again: int)
    requires TableOk(t) && fd >= 0 && FreeEntry(t.users) >= 0 && FreeEntry(Grant(t, fd, now).users) >= 0
    ensures var t2 := Grant(Grant(t, fd, now), fd, again);
            !Injective(t2.users) && Owns(Release(t2, fd).users, fd)
  {
    var i := FreeEntry(t.users);
    var t1 := Grant(t, fd, now);
    var j := FreeEntry(t1.users);
    var t2 := Grant(t1, fd, again);
    assert i != j && Leased(t2.users[i]) && Leased(t2.users[j]);
    GrantKeeps(t, fd, now);
    GrantKeeps(t1, fd, again);
    ReleaseIsCompleteIff(t2, fd);
  }

  /** The retry: an interrupted request stays in the buffer, and finishing it later grants again. */
  lemma RetriedRequestLeaks(w: World, fd: int, f: Frame, now: int, w': World, again: int)
    requires TableOk(w.table) && fd >= 0 && f.kind == IP_REQUEST && Interrupted(w, fd, f, now, w') && Accepts(w', f)
    ensures !Injective(Handle(w', fd, f, again).table.users)
  {
    SecondRequestLeaks(w.table, fd, now, again);
  }
}
