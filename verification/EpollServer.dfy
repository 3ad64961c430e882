/** The multi-client epoll server: its handlers as methods over the global table and one buffer per
    descriptor, each proved against a function of what it found there. */
module EpollServer {
  import opened Wire
  import opened Config
  import opened DrainBuffer
  import opened LeaseTable
  import opened Wrappers
  import opened Sequences

  const BUF_SIZE := 65536
  const IP_HEADER := 20

  /** Everything the handlers change outside the buffers: the table, the packets written to the tun device
      and the bytes written to each socket. */
  datatype World = World(table: Table, tun: seq<seq<byte>>, socks: map<int, seq<byte>>)

  function SockOf(socks: map<int, seq<byte>>, fd: int): seq<byte> {
    if fd in socks then socks[fd] else []
  }

  function Sent(socks: map<int, seq<byte>>, fd: int, data: seq<byte>): map<int, seq<byte>> {
    if data == [] then socks else socks[fd := SockOf(socks, fd) + data]
  }

  lemma SentTwice(socks: map<int, seq<byte>>, fd: int, a: seq<byte>, b: seq<byte>)
    ensures Sent(Sent(socks, fd, a), fd, b) == Sent(socks, fd, a + b)
  {
    if a == [] {
      assert a + b == b;
    } else if b == [] {
      assert a + b == a;
    } else {
      Associative(SockOf(socks, fd), a, b);
    }
  }

  // ----- what one message does

  function LeaseQuad(i: byte): Quad {
    [13, 8, 0, i]
  }

  /** The five addresses of an address reply. */
  function LeaseReplyQuads(i: byte): seq<Quad> {
    [LeaseQuad(i), [0, 0, 0, 0], [166, 111, 8, 28], [166, 111, 8, 29], [8, 8, 8, 8]]
  }

  function LeaseReply(i: byte): (f: Frame)
    ensures Size(f) < 0x8000_0000
  {
    TextIsShort(LeaseReplyQuads(i));
    Frame(IP_REPLY, ConfigText(LeaseReplyQuads(i)))
  }

  lemma SmallText(n: byte)
    requires n < 10
    ensures Dotted([n, n, n, n]) == [48 + n, 46, 48 + n, 46, 48 + n, 46, 48 + n]
  {
    QuadText([n, n, n, n]);
    assert Dec(n) == [48 + n];
  }

  lemma MaskText()
    ensures Dotted([0, 0, 0, 0]) == Ascii("0.0.0.0")
  {
    SmallText(0);
  }

  lemma ThirdDnsText()
    ensures Dotted([8, 8, 8, 8]) == Ascii("8.8.8.8")
  {
    SmallText(8);
  }

  lemma DnsBytes(last: byte)
    requires 10 <= last < 100
    ensures Dotted([166, 111, 8, last]) == [49, 54, 54, 46, 49, 49, 49, 46, 56, 46, 48 + last / 10, 48 + last % 10]
  {
    QuadText([166, 111, 8, last]);
    assert Dec(166) == [49, 54, 54] && Dec(111) == [49, 49, 49] && Dec(8) == [56];
    assert Dec(last) == Dec(last / 10) + [48 + last % 10];
  }

  lemma FirstDnsText()
    ensures Dotted([166, 111, 8, 28]) == Ascii("166.111.8.28")
  {
    DnsBytes(28);
    assert Ascii("166.111.8.28") == [49, 54, 54, 46, 49, 49, 49, 46, 56, 46, 50, 56];
  }

  lemma SecondDnsText()
    ensures Dotted([166, 111, 8, 29]) == Ascii("166.111.8.29")
  {
    DnsBytes(29);
    assert Ascii("166.111.8.29") == [49, 54, 54, 46, 49, 49, 49, 46, 56, 46, 50, 57];
  }

  lemma LeaseText(i: byte)
    ensures Dotted(LeaseQuad(i)) == Ascii("13.8.0.") + Dec(i)
  {
    QuadText(LeaseQuad(i));
    assert Dec(13) == [49, 51] && Dec(8) == [56] && Dec(0) == [48];
  }

  /** The text of the reply, without a terminator. */
  lemma ReplyText(i: byte)
    ensures LeaseReply(i).payload
         == Ascii("13.8.0.") + Dec(i)
          + ([32] + Ascii("0.0.0.0") + ([32] + Ascii("166.111.8.28") + ([32] + Ascii("166.111.8.29")
             + ([32] + Ascii("8.8.8.8")))))
  {
    LeaseText(i);
    MaskText();
    ThirdDnsText();
    FirstDnsText();
    SecondDnsText();
    TextOfFive(LeaseReplyQuads(i), "0.0.0.0", "166.111.8.28", "166.111.8.29", "8.8.8.8");
  }

  /** `process_client` can finish this message: only an address request can be refused, by a full pool. */
  predicate Accepts(w: World, f: Frame) {
    f.kind == IP_REQUEST ==> 0 <= FreeEntry(w.table.users) < MAX_CLIENTS
  }

  /** The effect of one finished message from `fd`. */
  function Handle(w: World, fd: int, f: Frame, now: int): World {
    if f.kind == IP_REQUEST then
      if !Accepts(w, f) then w
      else
        World(Grant(w.table, fd, now), w.tun, Sent(w.socks, fd, Encode(LeaseReply(FreeEntry(w.table.users)))))
    else if f.kind == DATA_UP then
      if f.payload == [] then w else w.(tun := w.tun + [f.payload])
    else if f.kind == KEEPALIVE then w.(table := Touch(w.table, fd, now))
    else w
  }

  function HandleAll(w: World, fd: int, fs: seq<Frame>, now: int): World
    decreases |fs|
  {
    if fs == [] then w else Handle(HandleAll(w, fd, fs[..|fs| - 1], now), fd, fs[|fs| - 1], now)
  }

  /** None of the messages is refused when its turn comes. */
  predicate AcceptsAll(w: World, fd: int, fs: seq<Frame>, now: int)
    decreases |fs|
  {
    fs == [] ||
    (AcceptsAll(w, fd, fs[..|fs| - 1], now) && Accepts(HandleAll(w, fd, fs[..|fs| - 1], now), fs[|fs| - 1]))
  }

  lemma HandleAllStep(w: World, fd: int, fs: seq<Frame>, n: nat, now: int)
    requires n < |fs|
    ensures HandleAll(w, fd, fs[..n + 1], now) == Handle(HandleAll(w, fd, fs[..n], now), fd, fs[n], now)
    ensures AcceptsAll(w, fd, fs[..n + 1], now) <==>
            AcceptsAll(w, fd, fs[..n], now) && Accepts(HandleAll(w, fd, fs[..n], now), fs[n])
  {
    assert fs[..n + 1][..n] == fs[..n];
  }

  /** Why a handler of a readable client socket came back. */
  datatype Stop = Closed | Drained | Malformed | PoolFull | WriteFailed

  /** What a message leaves behind when a write fails under it: nothing for a packet, and for an address
      request the lease and a strict part of the reply. */
  ghost predicate Interrupted(w: World, fd: int, f: Frame, now: int, w': World) {
    || (f.kind == DATA_UP && w' == w)
    || (f.kind == IP_REQUEST && Accepts(w, f) &&
        var reply := Encode(LeaseReply(FreeEntry(w.table.users)));
        exists k | 0 <= k < |reply| :: w' == World(Grant(w.table, fd, now), w.tun, Sent(w.socks, fd, reply[..k])))
  }

  /** The three ways the dispatch of one message ends. */
  ghost predicate Dispatched(w: World, fd: int, f: Frame, now: int, stop: Stop, w': World) {
    match stop
    case Drained => Accepts(w, f) && w' == Handle(w, fd, f, now)
    case PoolFull => !Accepts(w, f) && w' == w
    case WriteFailed => Interrupted(w, fd, f, now, w')
    case _ => false
  }

  lemma GrantEnds(w: World, fd: int, f: Frame, now: int, sent: nat)
    requires f.kind == IP_REQUEST && Accepts(w, f)
    requires sent <= Size(LeaseReply(FreeEntry(w.table.users)))
    ensures var reply := LeaseReply(FreeEntry(w.table.users));
            Dispatched(w, fd, f, now, if sent == Size(reply) then Drained else WriteFailed,
                       World(Grant(w.table, fd, now), w.tun, Sent(w.socks, fd, Encode(reply)[..sent])))
  {
    var all := Encode(LeaseReply(FreeEntry(w.table.users)));
    assert all[..|all|] == all;
  }

  /** The outcome of draining the parsed buffer `p`: every message finished, or the loop left at message
      `handled`. */
  ghost predicate Served(w: World, fd: int, p: Parsed, now: int, stop: Stop, handled: nat, w': World)
    requires handled <= |p.frames|
  {
    var before := HandleAll(w, fd, p.frames[..handled], now);
    && AcceptsAll(w, fd, p.frames[..handled], now)
    && match stop
       case Closed => false
       case Drained => handled == |p.frames| && p.sane && w' == before
       case Malformed => handled == |p.frames| && !p.sane && w' == before
       case PoolFull => handled < |p.frames| && Dispatched(before, fd, p.frames[handled], now, stop, w')
       case WriteFailed => handled < |p.frames| && Dispatched(before, fd, p.frames[handled], now, stop, w')
  }

  /** The invariant of the loop of `process_client`: the first `handled` messages of the parsed buffer have
      taken effect, and the buffer still holds the others. */
  ghost predicate Draining(w: World, fd: int, p: Parsed, now: int, handled: nat, content: seq<byte>, w': World) {
    && handled <= |p.frames|
    && Parse(content) == Parsed(p.frames[handled..], p.rest, p.sane)
    && AcceptsAll(w, fd, p.frames[..handled], now) && w' == HandleAll(w, fd, p.frames[..handled], now)
  }

  lemma DrainingStep(w: World, fd: int, p: Parsed, now: int, handled: nat, content: seq<byte>, f: Frame, w': World)
    requires Draining(w, fd, p, now, handled, content, w') && HeadOf(content, Ready(f)) && Accepts(w', f)
    ensures Draining(w, fd, p, now, handled + 1, content[Size(f)..], Handle(w', fd, f, now))
  {
    TakeFirst(p.frames, handled, f, Parse(content[Size(f)..]).frames);
    HandleAllStep(w, fd, p.frames, handled, now);
  }

  /** How the loop ends at what the head of the buffer offers. */
  ghost predicate Ended(w: World, fd: int, head: Head, now: int, stop: Stop, w': World) {
    match head
    case Waiting => stop == Drained && w' == w
    case Broken => stop == Malformed && w' == w
    case Ready(f) => stop != Drained && Dispatched(w, fd, f, now, stop, w')
  }

  lemma DrainingEnds(w: World, fd: int, p: Parsed, now: int, handled: nat, content: seq<byte>, head: Head,
                     w': World, stop: Stop, w'': World)
    requires Draining(w, fd, p, now, handled, content, w') && HeadOf(content, head)
    requires Ended(w', fd, head, now, stop, w'')
    ensures Served(w, fd, p, now, stop, handled, w'')
    ensures Encodable(p.frames[handled..]) && content == EncodeAll(p.frames[handled..]) + p.rest
  {
    Reassemble(content);
    if head.Ready? {
      TakeFirst(p.frames, handled, head.f, Parse(content[Size(head.f)..]).frames);
    }
  }

  // ----- what a sweep writes

  /** `n` keep-alives. */
  function Beats(n: nat): seq<byte> {
    if n == 0 then [] else Beats(n - 1) + Encode(Frame(KEEPALIVE, []))
  }

  /** The first `n` entries have been visited: every descriptor whose writes succeed has been sent one
      keep-alive for each of its entries that was due one. */
  ghost predicate BeatsOwed(socks: map<int, seq<byte>>, users: seq<User>, n: nat, clock: seq<int>, failed: set<int>,
                            socks': map<int, seq<byte>>)
    requires n <= |users| && n <= |clock|
  {
    forall fd | fd !in failed :: SockOf(socks', fd) == SockOf(socks, fd) + Beats(BeatsDue(users, n, clock, fd))
  }

  ghost predicate Visited(socks: map<int, seq<byte>>, u: User, now: int, ok: bool, socks': map<int, seq<byte>>) {
    && (!BeatDue(u, now) ==> ok && socks' == socks)
    && (BeatDue(u, now) && ok ==> socks' == Sent(socks, u.fd, Encode(Frame(KEEPALIVE, []))))
    && (!ok ==> exists k | 0 <= k < HEADER :: socks' == Sent(socks, u.fd, Encode(Frame(KEEPALIVE, []))[..k]))
  }

  lemma BeatsStepAt(socks: map<int, seq<byte>>, users: seq<User>, n: nat, clock: seq<int>, fd: int,
                    before: map<int, seq<byte>>, ok: bool, after: map<int, seq<byte>>)
    requires n < |users| && n < |clock| && (ok || fd != users[n].fd)
    requires SockOf(before, fd) == SockOf(socks, fd) + Beats(BeatsDue(users, n, clock, fd))
    requires Visited(before, users[n], clock[n], ok, after)
    ensures SockOf(after, fd) == SockOf(socks, fd) + Beats(BeatsDue(users, n + 1, clock, fd))
  {
    var k := BeatsDue(users, n, clock, fd);
    if BeatDue(users[n], clock[n]) && users[n].fd == fd {
      assert BeatsDue(users, n + 1, clock, fd) == k + 1;
      OneMoreBeat(SockOf(socks, fd), k);
    } else {
      assert SockOf(after, fd) == SockOf(before, fd);
    }
  }

  lemma BeatsStep(socks: map<int, seq<byte>>, users: seq<User>, n: nat, clock: seq<int>, failed: set<int>,
                  before: map<int, seq<byte>>, ok: bool, after: map<int, seq<byte>>)
    requires n < |users| && n < |clock| && BeatsOwed(socks, users, n, clock, failed, before)
    requires Visited(before, users[n], clock[n], ok, after)
    ensures BeatsOwed(socks, users, n + 1, clock, if ok then failed else failed + {users[n].fd}, after)
  {
    forall fd | fd !in (if ok then failed else failed + {users[n].fd})
      ensures SockOf(after, fd) == SockOf(socks, fd) + Beats(BeatsDue(users, n + 1, clock, fd))
    {
      BeatsStepAt(socks, users, n, clock, fd, before, ok, after);
    }
  }

  lemma OneMoreBeat(s: seq<byte>, k: nat)
    ensures s + Beats(k + 1) == (s + Beats(k)) + Encode(Frame(KEEPALIVE, []))
  {
    Associative(s, Beats(k), Encode(Frame(KEEPALIVE, [])));
  }

  // ----- routing a packet from the tun device

  /** `daddr` of the IP header at the head of the buffer, loaded as the table's addresses are. */
  function Destination(packet: seq<byte>): int
    requires |packet| >= IP_HEADER
  {
    U32(packet[16..20])
  }

  /** The whole of `packet` in one frame to `fd`. */
  function Delivered(w: World, fd: int, packet: seq<byte>): World
    requires |packet| <= BUF_SIZE
  {
    w.(socks := Sent(w.socks, fd, Encode(Frame(DATA_DOWN, packet))))
  }

  /** The descriptor a packet would be written to, -1 for none. */
  function RouteOf(users: seq<User>, packet: seq<byte>): int {
    if |packet| < IP_HEADER then -1
    else
      var i := AddrEntry(users, Destination(packet));
      if i < 0 then -1 else users[i].fd
  }

  ghost predicate CutShort(socks: map<int, seq<byte>>, fd: int, packet: seq<byte>, socks': map<int, seq<byte>>)
    requires |packet| <= BUF_SIZE
  {
    var all := Encode(Frame(DATA_DOWN, packet));
    exists k | 0 <= k < |all| && (fd < 0 ==> k == 0) :: socks' == Sent(socks, fd, all[..k])
  }

  /** What one run of `process_tun` makes of the buffered bytes `c`; `rest` stays in the buffer. */
  ghost predicate Routed(w: World, c: seq<byte>, w': World, rest: seq<byte>)
    requires |c| <= BUF_SIZE
  {
    if |c| < IP_HEADER then w' == w && rest == c
    else
      var i := AddrEntry(w.table.users, Destination(c));
      if i < 0 then w' == w && rest == []
      else
        var fd := w.table.users[i].fd;
        || (fd >= 0 && rest == [] && w' == Delivered(w, fd, c))
        || (rest == c && w' == w.(socks := w'.socks) && CutShort(w.socks, fd, c, w'.socks))
  }

  // ----- the server

  class Server {
    const users: array<User>
    const tunFd: int
    ghost var log: seq<LeaseEvent>
    ghost var tun: seq<seq<byte>>
    ghost var socks: map<int, seq<byte>>

    ghost function TableNow(): Table
      reads this, users
    {
      Table(users[..], log)
    }

    ghost function WorldNow(): World
      reads this, users
    {
      World(TableNow(), tun, socks)
    }

    /** The table is what its log says, in every state a handler leaves. */
    ghost predicate Valid()
      reads this, users
    {
      TableOk(TableNow()) && tunFd >= 0 && forall i | 0 <= i < MAX_CLIENTS :: users[i].fd != tunFd
    }

    constructor (tunFd: int)
      requires tunFd >= 0
      ensures Valid() && fresh(users) && this.tunFd == tunFd
      ensures WorldNow() == World(Table(InitialUsers(), []), [], map[])
    {
      this.tunFd := tunFd;
      users := new User[MAX_CLIENTS](i => User(true, -1, 0, 0, 0));
      log, tun, socks := [], [], map[];
      new;
      users[0] := users[0].(free := false);
      users[1] := users[1].(free := false);
      users[255] := users[255].(free := false);
      assert users[..] == InitialUsers();
      InitialTableOk();
    }

    method AllocateIpAddr(fd: int, now: int) returns (id: int)
      requires Valid() && fd >= 0 && fd != tunFd
      modifies users, `log
      ensures Valid()
      ensures id == FreeEntry(old(users[..]))
      ensures TableNow() == if id < 0 then old(TableNow()) else Grant(old(TableNow()), fd, now)
    {
      for i := 0 to MAX_CLIENTS
        invariant FreeEntry(users[..]) == FirstFrom(users[..], (u: User) => u.free, i)
      {
        if users[i].free {
          GrantKeeps(TableNow(), fd, now);
          users[i] := User(false, fd, now, now, LeaseAddr(i));
          log := log + [Granted(i, fd)];
          return i;
        }
      }
      return -1;
    }

    method DeallocateIpAddr(fd: int) returns (id: int)
      requires Valid() && fd >= 0
      modifies users, `log
      ensures Valid()
      ensures id == HeldEntry(old(users[..]), fd) && TableNow() == Release(old(TableNow()), fd)
    {
      for i := 0 to MAX_CLIENTS
        invariant HeldEntry(users[..], fd) == FirstFrom(users[..], (u: User) => u.fd == fd && !u.free, i)
      {
        if users[i].fd == fd && !users[i].free {
          ReleaseKeeps(TableNow(), fd);
          users[i] := users[i].(free := true, fd := -1);
          log := log + [Released(i)];
          return i;
        }
      }
      return -1;
    }

    method SearchUserInfoByFd(fd: int) returns (id: int)
      requires Valid()
      ensures id == HeldEntry(users[..], fd)
    {
      for i := 0 to MAX_CLIENTS
        invariant HeldEntry(users[..], fd) == FirstFrom(users[..], (u: User) => u.fd == fd && !u.free, i)
      {
        if users[i].fd == fd && !users[i].free {
          return i;
        }
      }
      return -1;
    }

    method SearchUserInfoByAddr(addr: int) returns (id: int)
      requires Valid()
      ensures id == AddrEntry(users[..], addr)
    {
      for i := 0 to MAX_CLIENTS
        invariant AddrEntry(users[..], addr) == FirstFrom(users[..], (u: User) => u.addr == addr && !u.free, i)
      {
        if users[i].addr == addr && !users[i].free {
          return i;
        }
      }
      return -1;
    }

    /** `free_client_fd`: nothing is released when epoll refuses to forget the descriptor, as it does unless it
        is `watched`. */
    method FreeClientFd(fd: int, watched: set<int>) returns (freed: bool)
      requires Valid() && fd >= 0
      modifies users, `log
      ensures Valid() && freed == (fd in watched)
      ensures TableNow() == if freed then Release(old(TableNow()), fd) else old(TableNow())
    {
      freed := fd in watched;
      if freed {
        var _ := DeallocateIpAddr(fd);
      }
    }

    /** `write`: fails, or takes some of the bytes; the tun device takes a packet whole. */
    method Write(fd: int, data: seq<byte>) returns (n: int)
      requires data != []
      modifies `tun, `socks
      ensures n == -1 || 0 < n <= |data|
      ensures fd < 0 ==> n == -1
      ensures n < 0 ==> tun == old(tun) && socks == old(socks)
      ensures n > 0 && fd == tunFd ==> n == |data| && tun == old(tun) + [data] && socks == old(socks)
      ensures n > 0 && fd != tunFd ==> tun == old(tun) && socks == Sent(old(socks), fd, data[..n])
    {
      if fd < 0 {
        return -1;
      }
      if * {
        return -1;
      }
      if fd == tunFd {
        n := |data|;
        tun := tun + [data];
      } else {
        var some: nat := *;
        n := 1 + some % |data|;
        socks := Sent(socks, fd, data[..n]);
      }
    }

    /** `write_all`: however short the writes, all of the bytes in order, or a strict part and a failure. */
    method WriteAll(fd: int, data: seq<byte>) returns (r: int, ghost sent: nat)
      modifies `tun, `socks
      ensures sent <= |data| && (r == |data| <==> sent == |data|) && (r == |data| || r == -1)
      ensures fd < 0 && data != [] ==> r == -1 && sent == 0
      ensures fd == tunFd ==> socks == old(socks)
      ensures fd == tunFd ==> tun == old(tun) + (if r >= 0 && data != [] then [data] else [])
      ensures fd != tunFd ==> tun == old(tun) && socks == Sent(old(socks), fd, data[..sent])
    {
      var offset := 0;
      while offset < |data|
        invariant 0 <= offset <= |data|
        invariant fd < 0 ==> offset == 0
        invariant fd == tunFd ==> socks == old(socks) && (offset == 0 || offset == |data|)
        invariant fd == tunFd ==> tun == old(tun) + (if offset == |data| && data != [] then [data] else [])
        invariant fd != tunFd ==> tun == old(tun) && socks == Sent(old(socks), fd, data[..offset])
      {
        var ret := Write(fd, data[offset..]);
        if ret < 0 {
          return ret, offset;
        }
        if fd != tunFd {
          SentTwice(old(socks), fd, data[..offset], data[offset..][..ret]);
          assert data[..offset] + data[offset..][..ret] == data[..offset + ret];
        } else {
          assert data[0..] == data;
        }
        offset := offset + ret;
      }
      return offset, offset;
    }

    /** A header and its payload, as two runs of writes: all of the frame, or a strict part of it. */
    method SendFrame(fd: int, f: Frame) returns (ok: bool, ghost sent: nat)
      requires Valid() && fd != tunFd && Size(f) < 0x8000_0000
      modifies `tun, `socks
      ensures Valid() && tun == old(tun)
      ensures sent <= Size(f) && (ok <==> sent == Size(f)) && (fd < 0 ==> sent == 0)
      ensures socks == Sent(old(socks), fd, Encode(f)[..sent])
    {
      var header := Le32(Size(f)) + [f.kind];
      ghost var all := Encode(f);
      assert header == all[..HEADER];
      ghost var more: nat;
      var n;
      n, sent := WriteAll(fd, header);
      assert header[..sent] == all[..sent];
      if n < |header| {
        return false, sent;
      }
      n, more := WriteAll(fd, f.payload);
      SentTwice(old(socks), fd, header, f.payload[..more]);
      assert header + f.payload[..more] == all[..HEADER + more];
      return n == |f.payload|, HEADER + more;
    }

    /** The dispatch of an address request. */
    method GrantAddress(fd: int, f: Frame, now: int) returns (stop: Stop)
      requires Valid() && fd >= 0 && fd != tunFd && f.kind == IP_REQUEST
      modifies users, `log, `tun, `socks
      ensures Valid()
      ensures Dispatched(old(WorldNow()), fd, f, now, stop, WorldNow())
    {
      var id := AllocateIpAddr(fd, now);
      if id < 0 {
        return PoolFull;
      }
      var ok, sent := SendFrame(fd, LeaseReply(id));
      ghost var w := old(WorldNow());
      GrantEnds(w, fd, f, now, sent);
      assert WorldNow() == World(Grant(w.table, fd, now), w.tun, Sent(w.socks, fd, Encode(LeaseReply(id))[..sent]));
      stop := if ok then Drained else WriteFailed;
    }

    /** The dispatch of one message in `process_client`; `Drained` means it was finished. */
    method HandleMessage(fd: int, f: Frame, now: int) returns (stop: Stop)
      requires Valid() && fd >= 0 && fd != tunFd
      modifies users, `log, `tun, `socks
      ensures Valid()
      ensures Dispatched(old(WorldNow()), fd, f, now, stop, WorldNow())
    {
      if f.kind == IP_REQUEST {
        stop := GrantAddress(fd, f, now);
      } else if f.kind == DATA_UP {
        var n, _ := WriteAll(tunFd, f.payload);
        stop := if n < |f.payload| then WriteFailed else Drained;
      } else if f.kind == KEEPALIVE {
        var id := SearchUserInfoByFd(fd);
        TouchKeeps(TableNow(), fd, now);
        if id >= 0 {
          users[id] := users[id].(recved := now);
        }
        stop := Drained;
      } else {
        stop := Drained;
      }
    }

    /** The body of the loop of `process_client`; a message that is not finished stays in the buffer. */
    method ServeHead(inbox: Inbox, fd: int, now: int) returns (head: Head, stop: Stop)
      requires Valid() && inbox.Holds(BUF_SIZE) && fd >= 0 && fd != tunFd
      modifies users, `log, `tun, `socks, inbox`used, inbox.buf
      ensures Valid() && inbox.Holds(BUF_SIZE) && HeadOf(old(inbox.Content()), head)
      ensures head.Ready? && stop == Drained ==>
                && inbox.Content() == old(inbox.Content())[Size(head.f)..] && inbox.used < old(inbox.used)
                && Accepts(old(WorldNow()), head.f) && WorldNow() == Handle(old(WorldNow()), fd, head.f, now)
      ensures !(head.Ready? && stop == Drained) ==>
                inbox.Content() == old(inbox.Content()) && Ended(old(WorldNow()), fd, head, now, stop, WorldNow())
    {
      head := inbox.Peek();
      if head.Ready? {
        stop := HandleMessage(fd, head.f, now);
        if stop == Drained {
          inbox.Consume(Size(head.f));
        }
      } else {
        stop := if head.Waiting? then Drained else Malformed;
      }
    }

    /** The loop of `process_client`. */
    method Drain(inbox: Inbox, fd: int, now: int) returns (stop: Stop, ghost handled: nat)
      requires Valid() && inbox.Holds(BUF_SIZE) && fd >= 0 && fd != tunFd
      modifies users, `log, `tun, `socks, inbox`used, inbox.buf
      ensures Valid() && inbox.Holds(BUF_SIZE)
      ensures var p := Parse(old(inbox.Content()));
              && handled <= |p.frames|
              && Encodable(p.frames[handled..])
              && inbox.Content() == EncodeAll(p.frames[handled..]) + p.rest
              && Served(old(WorldNow()), fd, p, now, stop, handled, WorldNow())
    {
      ghost var w0, p := WorldNow(), Parse(inbox.Content());
      handled := 0;
      assert p.frames[0..] == p.frames;
      while true
        invariant Valid() && inbox.Holds(BUF_SIZE)
        invariant Draining(w0, fd, p, now, handled, inbox.Content(), WorldNow())
        decreases inbox.used
      {
        ghost var c, w := inbox.Content(), WorldNow();
        var head;
        head, stop := ServeHead(inbox, fd, now);
        if !(head.Ready? && stop == Drained) {
          DrainingEnds(w0, fd, p, now, handled, c, head, w, stop, WorldNow());
          return;
        }
        DrainingStep(w0, fd, p, now, handled, c, head.f, w);
        handled := handled + 1;
      }
    }

    /** `process_client`. `read` is what the one `read` of the call returned (`None` for an error); `handled`
        counts the messages it finished. */
    method ProcessClient(inbox: Inbox, fd: int, read: Option<seq<byte>>, now: int, watched: set<int>)
      returns (stop: Stop, ghost handled: nat)
      requires Valid() && inbox.Holds(BUF_SIZE) && fd >= 0 && fd != tunFd
      requires read.Some? ==> |read.value| <= BUF_SIZE - inbox.used
      modifies users, `log, `tun, `socks, inbox`used, inbox.buf
      ensures Valid() && inbox.Holds(BUF_SIZE)
      ensures read.None? || read.value == [] ==>
                && stop == Closed && handled == 0 && inbox.Content() == old(inbox.Content())
                && WorldNow() == old(WorldNow()).(table :=
                     if fd in watched then Release(old(TableNow()), fd) else old(TableNow()))
      ensures read.Some? && read.value != [] ==>
                var p := Parse(old(inbox.Content()) + read.value);
                && handled <= |p.frames|
                && Encodable(p.frames[handled..])
                && inbox.Content() == EncodeAll(p.frames[handled..]) + p.rest
                && Served(old(WorldNow()), fd, p, now, stop, handled, WorldNow())
    {
      if read.None? || read.value == [] {
        var _ := FreeClientFd(fd, watched);
        return Closed, 0;
      }
      inbox.Fill(read.value);
      stop, handled := Drain(inbox, fd, now);
    }

    /** `process_tun`. The packet is whatever the buffer holds once an IP header fits in it; unless a write fails,
        less than a header is left. */
    method ProcessTun(inbox: Inbox, read: Option<seq<byte>>) returns (ok: bool)
      requires Valid() && inbox.Holds(BUF_SIZE)
      requires read.Some? ==> |read.value| <= BUF_SIZE - inbox.used
      modifies `tun, `socks, inbox`used, inbox.buf
      ensures Valid() && inbox.Holds(BUF_SIZE)
      ensures read.None? ==> WorldNow() == old(WorldNow()) && inbox.Content() == old(inbox.Content())
      ensures read.Some? ==> Routed(old(WorldNow()), old(inbox.Content()) + read.value, WorldNow(), inbox.Content())
      ensures ok <==> read.Some? && |inbox.Content()| < 20
    {
      if read.None? {
        return false;
      }
      inbox.Fill(read.value);
      ghost var w, all := WorldNow(), inbox.Content();
      while true
        invariant Valid() && inbox.Holds(BUF_SIZE)
        invariant || (WorldNow() == w && inbox.Content() == all)
                  || (inbox.Content() == [] && Routed(w, all, WorldNow(), []))
        decreases inbox.used
      {
        if inbox.used < IP_HEADER {
          return true;
        }
        var packet := inbox.buf[..inbox.used];
        var id := SearchUserInfoByAddr(Destination(packet));
        if id >= 0 {
          ghost var whole := Encode(Frame(DATA_DOWN, packet));
          var sentAll, sent := SendFrame(users[id].fd, Frame(DATA_DOWN, packet));
          assert whole[..|whole|] == whole;
          if !sentAll {
            return false;
          }
        }
        inbox.Consume(inbox.used);
      }
    }

    /** Writing one keep-alive. */
    method SendBeat(fd: int) returns (ok: bool, ghost sent: nat)
      requires Valid() && fd >= 0 && fd != tunFd
      modifies `tun, `socks
      ensures Valid() && tun == old(tun)
      ensures sent <= HEADER && (ok <==> sent == HEADER)
      ensures socks == Sent(old(socks), fd, Encode(Frame(KEEPALIVE, []))[..sent])
    {
      var n;
      n, sent := WriteAll(fd, Encode(Frame(KEEPALIVE, [])));
      ok := n == HEADER;
    }

    /** The body of the loop of `process_heartbeat`. */
    method VisitEntry(i: nat, now: int, watched: set<int>) returns (ghost ok: bool, left: set<int>)
      requires Valid() && i < MAX_CLIENTS
      modifies users, `log, `tun, `socks
      ensures Valid() && tun == old(tun)
      ensures Sweeping(TableNow(), left) == SweepStep(Sweeping(old(TableNow()), watched), i, now)
      ensures Visited(old(socks), old(users[i]), now, ok, socks)
      ensures !ok ==> |SockOf(socks, old(users[i]).fd)| < |SockOf(old(socks), old(users[i]).fd)| + 5
    {
      StampedKeeps(TableNow(), i, now);
      ok, left := true, watched;
      if users[i].fd >= 0 && !users[i].free {
        var u := users[i];
        if now - u.sent > HEARTBEAT_INTERVAL {
          ghost var sent;
          ok, sent := SendBeat(u.fd);
          ghost var beat := Encode(Frame(KEEPALIVE, []));
          assert beat[..HEADER] == beat;
          users[i] := u.(sent := now);
        }
        if now - u.recved > HEARTBEAT_TIMEOUT {
          var freed := FreeClientFd(u.fd, watched);
          if freed {
            left := watched - {u.fd};
          }
        }
      }
    }

    /** `process_heartbeat`; `clock` is what its readings of the clock return. `failed` collects the descriptors
        a keep-alive could not be written to, `left` are those epoll still watches. */
    method ProcessHeartbeat(clock: seq<int>, watched: set<int>) returns (ghost failed: set<int>, left: set<int>)
      requires Valid() && |clock| == MAX_CLIENTS
      modifies users, `log, `tun, `socks
      ensures Valid()
      ensures Sweeping(TableNow(), left) == Sweep(old(TableNow()), watched, MAX_CLIENTS, clock) && tun == old(tun)
      ensures BeatsOwed(old(socks), old(users[..]), MAX_CLIENTS, clock, failed, socks)
    {
      failed, left := {}, watched;
      ghost var t := TableNow();
      for i := 0 to MAX_CLIENTS
        invariant Valid() && tun == old(tun)
        invariant Sweeping(TableNow(), left) == Sweep(t, watched, i, clock)
        invariant BeatsOwed(old(socks), t.users, i, clock, failed, socks)
      {
        SweepLeavesRest(t, watched, i, clock);
        ghost var before := socks;
        ghost var ok;
        ok, left := VisitEntry(i, clock[i], left);
        assert users[..] == TableNow().users;
        BeatsStep(old(socks), t.users, i, clock, failed, before, ok, socks);
        if !ok {
          failed := failed + {t.users[i].fd};
        }
      }
    }

    /** `process_server`; `accepted` is what `accept` returned and `added` whether epoll took the descriptor,
        whose buffer is `inbox`. A new descriptor starts with an empty buffer, and the log of its socket begins
        anew. */
    method ProcessServer(inbox: Inbox, accepted: Option<int>, added: bool) returns (watching: bool)
      requires Valid() && inbox.Holds(BUF_SIZE)
      requires accepted.Some? ==> accepted.value >= 0 && accepted.value != tunFd
      modifies `socks, inbox`used
      ensures Valid() && inbox.Holds(BUF_SIZE) && watching == (accepted.Some? && added)
      ensures accepted.None? ==> WorldNow() == old(WorldNow()) && inbox.Content() == old(inbox.Content())
      ensures accepted.Some? ==>
                inbox.Content() == [] && WorldNow() == old(WorldNow()).(socks := old(socks)[accepted.value := []])
    {
      if accepted.None? {
        return false;
      }
      inbox.Reset();
      socks := socks[accepted.value := []];
      watching := added;
    }
  }

  // ----- what routing guarantees

  lemma DestinationIsLease(packet: seq<byte>, a: byte)
    requires |packet| >= IP_HEADER
    ensures Destination(packet) == LeaseAddr(a) <==> packet[16..20] == LeaseQuad(a)
  {
    Le32OfU32(packet[16..20]);
    Le32OfU32(LeaseQuad(a));
    assert U32(LeaseQuad(a)) == LeaseAddr(a);
    assert packet[16..20][..4] == packet[16..20] && LeaseQuad(a)[..4] == LeaseQuad(a);
  }

  /** A packet is for `g` exactly when it has the twenty bytes of an IP header and its destination is 13.8.0.a for a
      lease `a` of `g`. */
  lemma RouteIff(t: Table, packet: seq<byte>, g: int)
    requires TableOk(t) && g >= 0
    ensures RouteOf(t.users, packet) == g <==>
            |packet| >= 20 && exists a: byte | HeldBy(t.users, a, g) :: packet[16..20] == [13, 8, 0, a]
  {
    if |packet| >= 20 {
      var i := AddrEntry(t.users, Destination(packet));
      if RouteOf(t.users, packet) == g {
        assert EntryOk(t, i);
        DestinationIsLease(packet, i);
        assert HeldBy(t.users, i, g);
      }
      forall a: byte | HeldBy(t.users, a, g) && packet[16..20] == [13, 8, 0, a] ensures RouteOf(t.users, packet) == g {
        DestinationIsLease(packet, a);
        assert EntryOk(t, a) && EntryOk(t, i);
      }
    }
  }

  /** A request gets the least free entry `i`: both stamps are the present time, and the reply tells 13.8.0.i. */
  lemma AskedIsTold(w: World, fd: int, payload: seq<byte>, now: int, i: int)
    requires TableOk(w.table) && fd >= 0
    requires 0 <= i < 256 && w.table.users[i].free && forall j | 0 <= j < i :: !w.table.users[j].free
    ensures 2 <= i <= 254 && Accepts(w, Frame(100, payload))
    ensures var w' := Handle(w, fd, Frame(100, payload), now);
            && w'.table.users == w.table.users[i := User(false, fd, now, now, U32([13, 8, 0, i]))]
            && w'.tun == w.tun && w'.socks == Sent(w.socks, fd, Encode(Frame(101, LeaseReply(i).payload)))
  {
    assert EntryOk(w.table, i);
  }

  /** From then on that address is routed to the client that asked. */
  lemma AskedIsRouted(w: World, fd: int, payload: seq<byte>, now: int, i: int, packet: seq<byte>)
    requires TableOk(w.table) && fd >= 0
    requires 0 <= i < 256 && w.table.users[i].free && forall j | 0 <= j < i :: !w.table.users[j].free
    requires |packet| >= 20 && packet[16..20] == [13, 8, 0, i]
    ensures RouteOf(Handle(w, fd, Frame(100, payload), now).table.users, packet) == fd
  {
    AskedIsTold(w, fd, payload, now, i);
    var t' := Grant(w.table, fd, now);
    GrantKeeps(w.table, fd, now);
    assert HeldBy(t'.users, i, fd);
    RouteIff(t', packet, fd);
  }

  /** The buffered bytes go, as one frame, to the holder of the destination at their head and to nobody else:
      no other socket is written to, and if they left the buffer while somebody holds that address, the
      holder's socket received them whole. */
  lemma BufferToHeadsHolder(w: World, c: seq<byte>, w': World, rest: seq<byte>, i: int)
    requires TableOk(w.table) && IP_HEADER <= |c| <= BUF_SIZE && Destination(c) != 0 && Routed(w, c, w', rest)
    requires 0 <= i < MAX_CLIENTS && !Reserved(i) && LeaseAddr(i) == Destination(c)
    ensures w'.table == w.table && w'.tun == w.tun
    ensures var fd := Holder(w.table.log, i);
            && (forall f | f != fd :: SockOf(w'.socks, f) == SockOf(w.socks, f))
            && (fd < 0 ==> w' == w && rest == [])
            && (fd >= 0 && rest == [] ==> w' == Delivered(w, fd, c))
  {
    assert EntryOk(w.table, i);
    AddressFindsHolder(w.table, Destination(c));
    var k := AddrEntry(w.table.users, Destination(c));
    if k >= 0 {
      assert EntryOk(w.table, k);
      assert k == i;
    }
  }

  /** A packet read while `b` was in the buffer, whose destination is leased: when the buffer empties, the packet
      goes to the holder of its own destination and is alone in its frame exactly when `b` was empty. */
  lemma RoutedAloneIff(w: World, b: seq<byte>, packet: seq<byte>, w': World, i: int)
    requires TableOk(w.table) && IP_HEADER <= |packet| && |b + packet| <= BUF_SIZE && Routed(w, b + packet, w', [])
    requires 0 <= i < MAX_CLIENTS && !Reserved(i) && LeaseAddr(i) == Destination(packet)
    requires Holder(w.table.log, i) >= 0
    ensures w' == Delivered(w, Holder(w.table.log, i), packet) <==> b == []
  {
    var fd, c := Holder(w.table.log, i), b + packet;
    if b == [] {
      assert c == packet;
      BufferToHeadsHolder(w, packet, w', [], i);
    } else {
      var k := AddrEntry(w.table.users, Destination(c));
      var g := if k < 0 then -1 else w.table.users[k].fd;
      assert w' == w || w' == Delivered(w, g, c);
      assert |SockOf(Delivered(w, fd, packet).socks, fd)| == |SockOf(w.socks, fd)| + HEADER + |packet|;
      assert |SockOf(w'.socks, fd)| == |SockOf(w.socks, fd)| + (if w' != w && g == fd then HEADER + |c| else 0);
    }
  }

  /** What goes wrong otherwise. A packet for `a` whose write failed stays; the next one, for another client, then
      leaves behind it in a frame for the holder of `a`, and its own holder gets nothing. */
  lemma SecondPacketMisrouted(w: World, c1: seq<byte>, c2: seq<byte>, a: int, b: int) returns (w': World)
    requires TableOk(w.table) && IP_HEADER <= |c1| && IP_HEADER <= |c2| && |c1 + c2| <= BUF_SIZE
    requires 0 <= a < MAX_CLIENTS && !Reserved(a) && LeaseAddr(a) == Destination(c1)
    requires 0 <= b < MAX_CLIENTS && !Reserved(b) && LeaseAddr(b) == Destination(c2)
    requires Holder(w.table.log, a) >= 0 && Holder(w.table.log, b) >= 0
    requires Holder(w.table.log, a) != Holder(w.table.log, b)
    ensures Routed(w, c1, w, c1) && Routed(w, c1 + c2, w', [])
    ensures w' == Delivered(w, Holder(w.table.log, a), c1 + c2)
    ensures SockOf(w'.socks, Holder(w.table.log, b)) == SockOf(w.socks, Holder(w.table.log, b))
  {
    var fd := Holder(w.table.log, a);
    w' := Delivered(w, fd, c1 + c2);
    assert (c1 + c2)[16..20] == c1[16..20];
    assert EntryOk(w.table, a);
    AddressFindsHolder(w.table, Destination(c1));
    assert EntryOk(w.table, AddrEntry(w.table.users, Destination(c1)));
    assert w.socks == Sent(w.socks, fd, Encode(Frame(DATA_DOWN, c1))[..0]);
  }

  /** Or it is dropped with the first packet, if the lease of that one has ended meanwhile. */
  lemma SecondPacketDropped(w: World, c1: seq<byte>, c2: seq<byte>, a: int)
    requires TableOk(w.table) && IP_HEADER <= |c1| && |c1 + c2| <= BUF_SIZE
    requires 0 <= a < MAX_CLIENTS && !Reserved(a) && LeaseAddr(a) == Destination(c1) && Holder(w.table.log, a) < 0
    ensures Routed(w, c1 + c2, w, [])
  {
    assert (c1 + c2)[16..20] == c1[16..20];
    AddressFindsHolder(w.table, Destination(c1));
  }

  /** What is in the buffer of the tun device can leave it exactly when it is nothing, or holds the twenty bytes of
      an IP header whose destination is not 0.0.0.0. */
  lemma RoutingProgressIff(w: World, c: seq<byte>)
    requires TableOk(w.table) && |c| <= BUF_SIZE
    ensures (exists w' :: Routed(w, c, w', [])) <==> c == [] || (|c| >= 20 && c[16..20] != [0, 0, 0, 0])
  {
    if |c| < 20 {
      assert c == [] ==> Routed(w, c, w, []);
      return;
    }
    ZeroDestination(c);
    if Destination(c) == 0 {
      ZeroAddressFindsReserved(w.table);
    } else {
      AddressFindsHolder(w.table, Destination(c));
      var i := AddrEntry(w.table.users, Destination(c));
      if i < 0 {
        assert Routed(w, c, w, []);
      } else {
        assert Routed(w, c, Delivered(w, w.table.users[i].fd, c), []);
      }
    }
  }

  lemma ZeroDestination(packet: seq<byte>)
    requires |packet| >= IP_HEADER
    ensures Destination(packet) == 0 <==> packet[16..20] == [0, 0, 0, 0]
  {
    Le32OfU32(packet[16..20]);
    assert packet[16..20][..4] == packet[16..20];
  }

  /** One run of `process_tun` per element: the buffer before it, and the worlds before and after. Anything
      may happen to the world between two runs. */
  ghost predicate TunRun(bufs: seq<seq<byte>>, chunks: seq<seq<byte>>, ws: seq<World>, ws': seq<World>) {
    && |bufs| == |chunks| + 1 && |ws| == |ws'| == |chunks|
    && forall i | 0 <= i < |chunks| ::
         |bufs[i] + chunks[i]| <= BUF_SIZE && TableOk(ws[i].table)
         && Routed(ws[i], bufs[i] + chunks[i], ws'[i], bufs[i + 1])
  }

  /** A packet for 0.0.0.0 stays at the head of the buffer for ever: whatever arrives later is appended
      behind it and no client is sent anything again. */
  lemma {:induction false} ZeroDestinationWedges(bufs: seq<seq<byte>>, chunks: seq<seq<byte>>, ws: seq<World>,
                                                 ws': seq<World>, n: nat)
    requires TunRun(bufs, chunks, ws, ws') && n <= |chunks|
    requires |bufs[0]| >= IP_HEADER && Destination(bufs[0]) == 0
    ensures bufs[n] == bufs[0] + Flat(chunks[..n])
    ensures forall i | 0 <= i < n :: ws'[i] == ws[i]
  {
    if n == 0 {
      assert bufs[0] + [] == bufs[0];
    } else {
      ZeroDestinationWedges(bufs, chunks, ws, ws', n - 1);
      var c := bufs[n - 1] + chunks[n - 1];
      FlatStep(chunks, n - 1);
      Associative(bufs[0], Flat(chunks[..n - 1]), chunks[n - 1]);
      assert c[16..20] == bufs[0][16..20];
      ZeroAddressFindsReserved(ws[n - 1].table);
      assert ws[n - 1].socks == Sent(ws[n - 1].socks, -1, []);
    }
  }
}
