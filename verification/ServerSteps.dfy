/** The handlers of the epoll server carry out the events of its runs: each method calls a handler in a state that
    a run is in and shows that the run has the corresponding event. */
module ServerSteps {
  import opened Wire
  import opened DrainBuffer
  import opened LeaseTable
  import opened EpollServer
  import opened ServerRuns
  import opened Wrappers

  /** The run is where the server is, and `tunBox` is the buffer of the tun device. */
  ghost predicate At(s: Sys, server: Server, tunBox: Inbox)
    reads server, server.users, tunBox, tunBox.buf
  {
    && server.Valid() && tunBox.Holds(BUF_SIZE)
    && s.world == server.WorldNow() && s.device.buf == tunBox.Content()
  }

  /** `inbox` is the buffer of the connection on `fd`, if there is one. */
  ghost predicate Buffers(s: Sys, server: Server, tunBox: Inbox, inbox: Inbox, fd: int)
    reads inbox, inbox.buf
  {
    && inbox.Holds(BUF_SIZE) && inbox != tunBox && inbox.buf != tunBox.buf
    && fd >= 0 && fd != server.tunFd && (fd in s.conns ==> s.conns[fd].buf == inbox.Content())
  }

  method AcceptOne(server: Server, tunBox: Inbox, inbox: Inbox, fd: int, added: bool, ghost s: Sys)
      returns (watching: bool, ghost s': Sys)
    requires At(s, server, tunBox) && Buffers(s, server, tunBox, inbox, fd) && fd !in s.conns
    modifies server, inbox
    ensures watching == added && At(s', server, tunBox) && Buffers(s', server, tunBox, inbox, fd)
    ensures watching ==> Next(s, Accept(fd), s')
    ensures !watching ==> s' == s.(world := s'.world) && s'.world == s.world.(socks := s.world.socks[fd := []])
  {
    watching := server.ProcessServer(inbox, Some(fd), added);
    s' := Sys(server.WorldNow(), if watching then s.conns[fd := FRESH] else s.conns, s.device);
  }

  method ReadOne(server: Server, tunBox: Inbox, inbox: Inbox, fd: int, chunk: seq<byte>, now: int,
                 watched: set<int>, ghost s: Sys)
      returns (stop: Stop, ghost handled: nat, ghost s': Sys)
    requires At(s, server, tunBox) && Buffers(s, server, tunBox, inbox, fd) && fd in s.conns && Inv(s)
    requires 0 < |chunk| <= BUF_SIZE - inbox.used
    modifies server, server.users, inbox, inbox.buf
    ensures At(s', server, tunBox) && Buffers(s', server, tunBox, inbox, fd)
    ensures Next(s, Read(fd, chunk, now, stop, handled), s')
  {
    stop, handled := server.ProcessClient(inbox, fd, Some(chunk), now, watched);
    ServedKeeps(s.world, fd, Parse(s.conns[fd].buf + chunk), now, stop, handled, server.WorldNow());
    var w := server.WorldNow();
    s' := Sys(w, s.conns[fd := AfterRead(s, fd, chunk, now, stop, handled, w)], s.device);
  }

  /** The peer closed the connection, or the read failed; epoll watches the open connections. */
  method CloseOne(server: Server, tunBox: Inbox, inbox: Inbox, fd: int, failed: bool, watched: set<int>, ghost s: Sys)
      returns (ghost s': Sys)
    requires At(s, server, tunBox) && Buffers(s, server, tunBox, inbox, fd) && fd in s.conns
    requires watched == s.conns.Keys
    modifies server, server.users, inbox, inbox.buf
    ensures At(s', server, tunBox) && Buffers(s', server, tunBox, inbox, fd)
    ensures Next(s, HangUp(fd), s')
  {
    var _, _ := server.ProcessClient(inbox, fd, if failed then None else Some([]), 0, watched);
    s' := Sys(server.WorldNow(), s.conns - {fd}, s.device);
  }

  method RouteOne(server: Server, tunBox: Inbox, chunk: seq<byte>, ghost s: Sys)
      returns (ghost rest: seq<byte>, ghost s': Sys)
    requires At(s, server, tunBox) && Inv(s) && |chunk| <= BUF_SIZE - tunBox.used
    modifies server, tunBox, tunBox.buf
    ensures At(s', server, tunBox) && Next(s, FromTun(chunk, rest), s')
  {
    HeldKeeps(s.device, chunk);
    var _ := server.ProcessTun(tunBox, Some(chunk));
    rest := tunBox.Content();
    s' := Sys(server.WorldNow(), AfterPacket(s, chunk, rest), AfterTun(s, chunk, rest));
  }

  method SweepOnce(server: Server, tunBox: Inbox, clock: seq<int>, watched: set<int>, ghost s: Sys)
      returns (ghost failed: set<int>, left: set<int>, ghost s': Sys)
    requires At(s, server, tunBox) && |clock| == MAX_CLIENTS && watched == s.conns.Keys
    modifies server, server.users
    ensures At(s', server, tunBox) && Next(s, SweepAt(clock, failed), s') && left == s'.conns.Keys
  {
    failed, left := server.ProcessHeartbeat(clock, watched);
    SweepCloses(s.world.table, watched, MAX_CLIENTS, clock);
    s' := Sys(server.WorldNow(), AfterSweep(s, clock, failed), s.device);
    assert left == Sweep(s.world.table, watched, MAX_CLIENTS, clock).watched;
    assert forall fd :: fd in left <==> fd in s'.conns.Keys;
  }
}
