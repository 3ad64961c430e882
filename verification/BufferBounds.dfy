/** The receive buffers of the epoll server over its runs. A read into a full buffer returns zero bytes, which the
    server takes for a hang-up: when a buffer can be full, and when it cannot. */
module BufferBounds {
  import opened Wire
  import opened LeaseTable
  import opened EpollServer
  import opened ServerRuns
  import opened Sequences

  predicate Fit(fs: seq<Frame>) {
    forall f | f in fs :: Size(f) <= BUF_SIZE
  }

  // ----- never full after a drain, when the frames fit

  /** What a drain leaves of a part of a stream is shorter than the longest frame. */
  lemma {:induction false} RestFits(s: seq<byte>, t: seq<byte>, fs: seq<Frame>, most: int)
    requires Encodable(fs) && s + t == EncodeAll(fs) && most >= HEADER && forall f | f in fs :: Size(f) <= most
    ensures |Parse(s).rest| < most
    decreases |fs|
  {
    if fs != [] && |s| >= HEADER {
      HeadOfEncoded(fs[0], EncodeAll(fs[1..]));
      assert U32(s) == U32(s + t);
      var n := Size(fs[0]);
      if n <= |s| {
        assert (s + t)[n..] == s[n..] + t;
        RestFits(s[n..], t, fs[1..], most);
      }
    }
  }

  /** Over every run: a connection whose client sends frames that fit has a full buffer only while a read of it
      stands that was not drained, because the pool was full or a write failed. */
  lemma FullOnlyWhenStopped(run: Run, n: nat, fd: int, fs: seq<Frame>, inFlight: seq<byte>)
    requires n < |run.states| && fd in run.states[n].conns && Encodable(fs) && Fit(fs)
    requires run.states[n].conns[fd].got + inFlight == EncodeAll(fs)
    ensures var c := run.states[n].conns[fd];
            && c.stop != Malformed
            && (c.stop == Drained ==> |c.buf| < BUF_SIZE)
            && (|c.buf| == BUF_SIZE ==> c.stop == PoolFull || c.stop == WriteFailed)
  {
    RunKeeps(run, n);
    var c := run.states[n].conns[fd];
    ConnParses(c);
    PrefixOfStream(c.got, inFlight, fs);
    RestFits(c.got, inFlight, fs, BUF_SIZE);
  }

  // ----- what those two stops can do

  /** One packet, as long as a frame may be. */
  const BIG := Frame(DATA_UP, seq(65531, _ => 0))

  /** A request, and a packet that fills up the buffer behind it. */
  const ASK_AND_PACKET := [Frame(IP_REQUEST, []), Frame(DATA_UP, seq(65526, _ => 0))]

  lemma SizesOf()
    ensures Encodable([BIG]) && Fit([BIG]) && |EncodeAll([BIG])| == BUF_SIZE
    ensures Encodable(ASK_AND_PACKET) && Fit(ASK_AND_PACKET) && |EncodeAll(ASK_AND_PACKET)| == BUF_SIZE
  {
    EncodeAllStep([], BIG);
    Units([BIG]);
    EncodeAllStep([], ASK_AND_PACKET[0]);
    Units([ASK_AND_PACKET[0]]);
    EncodeAllStep([ASK_AND_PACKET[0]], ASK_AND_PACKET[1]);
    assert [ASK_AND_PACKET[0]] + [ASK_AND_PACKET[1]] == ASK_AND_PACKET;
  }

  lemma AllParsed(fs: seq<Frame>)
    requires Encodable(fs)
    ensures Parse([] + EncodeAll(fs)) == Parsed(fs, [], true)
  {
    ParseEncoded(fs, []);
    Units(EncodeAll(fs));
    Units(fs);
  }

  lemma NothingServed(w: World, fd: int, fs: seq<Frame>, now: int, stop: Stop)
    requires fs != [] && Dispatched(w, fd, fs[0], now, stop, w) && (stop == PoolFull || stop == WriteFailed)
    ensures Served(w, fd, Parsed(fs, [], true), now, stop, 0, w)
  {
    assert fs[..0] == [];
  }

  /** Nothing of a read is finished when its first message is refused or cannot be written. */
  lemma NothingFinished(s: Sys, fd: int, fs: seq<Frame>, now: int, stop: Stop) returns (s': Sys)
    requires Inv(s) && fd in s.conns && s.conns[fd].buf == [] && Encodable(fs) && fs != []
    requires |EncodeAll(fs)| == BUF_SIZE && Dispatched(s.world, fd, fs[0], now, stop, s.world)
    requires stop == PoolFull || stop == WriteFailed
    ensures Next(s, Read(fd, EncodeAll(fs), now, stop, 0), s')
    ensures s'.world == s.world && s'.conns[fd].buf == EncodeAll(fs) && s'.conns[fd].stop == stop
  {
    AllParsed(fs);
    NothingServed(s.world, fd, fs, now, stop);
    assert fs[0..] == fs;
    Units(EncodeAll(fs));
    s' := s.(conns := s.conns[fd := AfterRead(s, fd, EncodeAll(fs), now, stop, 0, s.world)]);
  }

  /** With a full pool, a request followed by a packet fills the buffer, though both frames fit. */
  lemma FullPoolFills(s: Sys, fd: int, now: int) returns (s': Sys)
    requires Inv(s) && fd in s.conns && s.conns[fd].buf == [] && FreeEntry(s.world.table.users) < 0
    ensures Fit(ASK_AND_PACKET) && Encodable(ASK_AND_PACKET)
    ensures Next(s, Read(fd, EncodeAll(ASK_AND_PACKET), now, PoolFull, 0), s') && |s'.conns[fd].buf| == BUF_SIZE
  {
    SizesOf();
    s' := NothingFinished(s, fd, ASK_AND_PACKET, now, PoolFull);
  }

  /** So does one packet that the tun device does not take. */
  lemma RefusedPacketFills(s: Sys, fd: int, now: int) returns (s': Sys)
    requires Inv(s) && fd in s.conns && s.conns[fd].buf == []
    ensures Fit([BIG]) && Encodable([BIG])
    ensures Next(s, Read(fd, EncodeAll([BIG]), now, WriteFailed, 0), s') && |s'.conns[fd].buf| == BUF_SIZE
  {
    SizesOf();
    s' := NothingFinished(s, fd, [BIG], now, WriteFailed);
  }

  // ----- full after a drain, when some frame does not fit

  lemma {:induction false} SomeCounted(users: seq<User>, p: User -> bool, n: nat)
    requires n <= |users| && Count(users, p, n) > 0
    ensures exists i | 0 <= i < n :: p(users[i])
  {
    if !p(users[n - 1]) {
      SomeCounted(users, p, n - 1);
    }
  }

  lemma FreeLeft(t: Table)
    requires TableOk(t) && Balance(t.log) < 253
    ensures 0 <= FreeEntry(t.users) < MAX_CLIENTS
  {
    PoolConserved(t);
    SomeCounted(t.users, IsFree, MAX_CLIENTS);
  }

  /** The only connection of a run: the frames `fs` have been read and finished, and the pool has granted what
      they asked for. */
  ghost predicate HasRead(run: Run, fd: int, fs: seq<Frame>) {
    var s := Last(run);
    && fd in s.conns && Encodable(fs)
    && s.conns[fd].buf == [] && s.conns[fd].got == EncodeAll(fs) && s.conns[fd].stop == Drained
    && Balance(s.world.table.log) == Requests(fs)
  }

  lemma BeginRun(fd: int) returns (run: Run)
    requires fd >= 0
    ensures HasRead(run, fd, [])
  {
    run := Trace([INITIAL], []);
    var s := INITIAL;
    run := ExtendRun(run, Accept(fd),
                     Sys(s.world.(socks := s.world.socks[fd := []]), s.conns[fd := FRESH], s.device));
  }

  lemma HandleBalance(w: World, fd: int, f: Frame, now: int)
    requires f.kind == IP_REQUEST ==> 0 <= FreeEntry(w.table.users) < MAX_CLIENTS
    ensures Balance(Handle(w, fd, f, now).table.log)
         == Balance(w.table.log) + (if f.kind == IP_REQUEST then 1 else 0)
  {
    if f.kind == IP_REQUEST {
      LogStep(w.table.log, Granted(FreeEntry(w.table.users), fd));
    }
  }

  lemma RequestsStep(fs: seq<Frame>, f: Frame)
    ensures Requests(fs + [f]) == Requests(fs) + (if f.kind == IP_REQUEST then 1 else 0)
  {
    assert (fs + [f])[..|fs|] == fs;
  }

  lemma OneParsed(f: Frame)
    requires Size(f) < 0x8000_0000
    ensures Parse([] + Encode(f)) == Parsed([f], [], true)
  {
    ParseOneFrame(f, []);
    Units(Encode(f));
    Units([f]);
  }

  lemma OneServed(w: World, fd: int, f: Frame, now: int)
    requires Accepts(w, f)
    ensures Served(w, fd, Parsed([f], [], true), now, Drained, 1, Handle(w, fd, f, now))
  {
    HandleAllStep(w, fd, [f], 0, now);
    assert [f][..1] == [f] && [f][..0] == [];
  }

  /** One frame, read by itself and finished. */
  lemma FrameEvent(s: Sys, fd: int, f: Frame) returns (s': Sys)
    requires Inv(s) && fd in s.conns && s.conns[fd].buf == [] && Size(f) <= BUF_SIZE && Accepts(s.world, f)
    ensures Next(s, Read(fd, Encode(f), 0, Drained, 1), s') && s'.world == Handle(s.world, fd, f, 0)
    ensures s'.conns[fd].buf == [] && s'.conns[fd].got == s.conns[fd].got + Encode(f)
    ensures s'.conns[fd].stop == Drained
  {
    var w' := Handle(s.world, fd, f, 0);
    OneParsed(f);
    OneServed(s.world, fd, f, 0);
    HandleKeeps(s.world, fd, f, 0);
    assert [f][1..] == [];
    s' := Sys(w', s.conns[fd := AfterRead(s, fd, Encode(f), 0, Drained, 1, w')], s.device);
  }

  lemma RunFrame(run: Run, fd: int, f: Frame) returns (run': Run)
    requires fd in Last(run).conns && Last(run).conns[fd].buf == []
    requires Size(f) <= BUF_SIZE && Accepts(Last(run).world, f)
    ensures Last(run').world == Handle(Last(run).world, fd, f, 0) && fd in Last(run').conns
    ensures var c, c' := Last(run).conns[fd], Last(run').conns[fd];
            c'.buf == [] && c'.got == c.got + Encode(f) && c'.stop == Drained
  {
    RunKeeps(run, |run.events|);
    var s' := FrameEvent(Last(run), fd, f);
    run' := ExtendRun(run, Read(fd, Encode(f), 0, Drained, 1), s');
  }

  lemma MayAsk(run: Run, fd: int, fs: seq<Frame>, f: Frame)
    requires HasRead(run, fd, fs) && Requests(fs + [f]) <= 253
    ensures Accepts(Last(run).world, f)
  {
    RequestsStep(fs, f);
    RunKeeps(run, |run.events|);
    if f.kind == IP_REQUEST {
      FreeLeft(Last(run).world.table);
    }
  }

  lemma ReadFrame(run: Run, fd: int, fs: seq<Frame>, f: Frame) returns (run': Run)
    requires HasRead(run, fd, fs) && Size(f) <= BUF_SIZE && Requests(fs + [f]) <= 253
    ensures HasRead(run', fd, fs + [f])
  {
    MayAsk(run, fd, fs, f);
    RequestsStep(fs, f);
    EncodeAllStep(fs, f);
    HandleBalance(Last(run).world, fd, f, 0);
    run' := RunFrame(run, fd, f);
  }

  lemma {:induction false} ReadFrames(fd: int, fs: seq<Frame>) returns (run: Run)
    requires fd >= 0 && Fit(fs) && Requests(fs) <= 253
    ensures HasRead(run, fd, fs)
    decreases |fs|
  {
    if fs == [] {
      run := BeginRun(fd);
    } else {
      var front, f := fs[..|fs| - 1], fs[|fs| - 1];
      assert front + [f] == fs;
      run := ReadFrames(fd, front);
      run := ReadFrame(run, fd, front, f);
    }
  }

  /** A read of the beginning of a frame that does not fit fills the buffer. */
  lemma ReadTooLong(run: Run, fd: int, fs: seq<Frame>, f: Frame) returns (run': Run)
    requires HasRead(run, fd, fs) && BUF_SIZE < Size(f) < 0x8000_0000
    ensures var s := Last(run');
            && fd in s.conns && s.conns[fd].got == EncodeAll(fs) + Encode(f)[..BUF_SIZE]
            && s.conns[fd].stop == Drained && |s.conns[fd].buf| == BUF_SIZE
  {
    var s, head := Last(run), Encode(f)[..BUF_SIZE];
    HeadOfEncoded(f, []);
    Units(Encode(f));
    assert U32(head) == U32(Encode(f));
    assert [] + head == head && Parse(head) == Parsed([], head, true);
    Units(s.world.tun);
    Units(head);
    var c' := AfterRead(s, fd, head, 0, Drained, 0, s.world);
    run' := ExtendRun(run, Read(fd, head, 0, Drained, 0), s.(conns := s.conns[fd := c']));
  }

  lemma {:induction false} FirstTooLong(fs: seq<Frame>) returns (k: nat)
    requires !Fit(fs)
    ensures k < |fs| && Size(fs[k]) > BUF_SIZE && Fit(fs[..k])
    decreases |fs|
  {
    var front := fs[..|fs| - 1];
    if Fit(front) {
      k := |fs| - 1;
      assert fs == front + [fs[k]];
    } else {
      k := FirstTooLong(front);
      assert front[..k] == fs[..k];
    }
  }

  lemma RequestsOfPart(fs: seq<Frame>, k: nat)
    requires k <= |fs|
    ensures Requests(fs[..k]) <= Requests(fs)
  {
    RequestsOfPrefix(fs, k);
  }

  /** Some run in which every read is drained and the buffer is full all the same. */
  lemma SomeSpuriousClose(fs: seq<Frame>) returns (run: Run, inFlight: seq<byte>)
    requires Encodable(fs) && !Fit(fs) && Requests(fs) <= 253
    ensures var s := Last(run);
            && 4 in s.conns && s.conns[4].got + inFlight == EncodeAll(fs)
            && s.conns[4].stop == Drained && |s.conns[4].buf| == BUF_SIZE
  {
    var k := FirstTooLong(fs);
    var before, f, after := fs[..k], fs[k], fs[k + 1..];
    RequestsOfPart(fs, k);
    run := ReadFrames(4, before);
    run := ReadTooLong(run, 4, before, f);
    inFlight := Encode(f)[BUF_SIZE..] + EncodeAll(after);
    assert fs == before + ([f] + after);
    EncodeAllAppend(before, [f] + after);
    EncodeAllCons(f, after);
    SplitAt(Encode(f), BUF_SIZE);
    Associative(Encode(f)[..BUF_SIZE], Encode(f)[BUF_SIZE..], EncodeAll(after));
    Associative(EncodeAll(before), Encode(f)[..BUF_SIZE], inFlight);
  }

  /** While its reads are drained, a client that sends `fs` and asks no more often than the pool can grant is
      never cut off by a read with no room, in any run and however the stream is cut into reads, exactly when
      all of its frames fit the buffer. */
  lemma NoSpuriousCloseIff(fs: seq<Frame>)
    requires Encodable(fs) && Requests(fs) <= 253
    ensures (forall run: Run, n: nat, fd: int, inFlight: seq<byte> |
               n < |run.states| && fd in run.states[n].conns && run.states[n].conns[fd].stop == Drained
               && run.states[n].conns[fd].got + inFlight == EncodeAll(fs) :: |run.states[n].conns[fd].buf| < 65536)
            <==> forall f | f in fs :: 5 + |f.payload| <= 65536
  {
    if Fit(fs) {
      forall run: Run, n: nat, fd: int, inFlight: seq<byte> |
        n < |run.states| && fd in run.states[n].conns && run.states[n].conns[fd].stop == Drained
        && run.states[n].conns[fd].got + inFlight == EncodeAll(fs)
        ensures |run.states[n].conns[fd].buf| < BUF_SIZE
      {
        FullOnlyWhenStopped(run, n, fd, fs, inFlight);
      }
    } else {
      var run, inFlight := SomeSpuriousClose(fs);
      var n := |run.events|;
      assert run.states[n] == Last(run);
    }
  }
}
