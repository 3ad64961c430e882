/** The packets the epoll server reads from its tun device, one by one. `process_tun` takes everything in the buffer
    for one packet, so reads that meet there travel together: what is conserved all the same, and exactly when a
    packet travels by itself to the holder of its own destination. */
module TunBatches {
  import opened Wire
  import opened LeaseTable
  import opened EpollServer
  import opened ServerRuns
  import opened Sequences

  // ----- conservation

  lemma {:induction false} BytesAppend(rs: seq<TunRead>, qs: seq<TunRead>)
    ensures DataOf(rs + qs) == DataOf(rs) + DataOf(qs)
    decreases |qs|
  {
    if qs == [] {
      Units(rs);
      Units(DataOf(rs));
    } else {
      var front, q := qs[..|qs| - 1], qs[|qs| - 1];
      assert (rs + qs)[..|rs + qs| - 1] == rs + front;
      BytesAppend(rs, front);
      Associative(DataOf(rs), DataOf(front), q.data);
    }
  }

  /** Over every run: the bytes read from the tun device are those that left its buffer, routed or dropped,
      followed by those still in it, in order. */
  lemma TunBytesConserved(run: Run, n: nat)
    requires n < |run.states|
    ensures var d := run.states[n].device;
            && d.taken == Flown(d.left) + d.held
            && DataOf(d.taken) == DataOf(Flown(d.left)) + d.buf
  {
    RunKeeps(run, n);
    BytesAppend(Flown(run.states[n].device.left), run.states[n].device.held);
  }

  // ----- by itself, to its own holder

  /** Part `i` of the batch went where its own destination says, and the batch is nothing else. */
  predicate Own(b: Batch, i: nat)
    requires i < |b.parts| == |b.own|
  {
    b.to == b.own[i] && DataOf(b.parts) == b.parts[i].data
  }

  lemma {:induction false} PartsAreShorter(rs: seq<TunRead>, i: nat)
    requires i < |rs| && forall r | r in rs :: r.data != []
    ensures |DataOf(rs)| >= |rs[i].data| && (|rs| > 1 ==> |DataOf(rs)| > |rs[i].data|)
    decreases |rs|
  {
    var front := rs[..|rs| - 1];
    if i < |front| {
      PartsAreShorter(front, i);
    } else if front != [] {
      PartsAreShorter(front, 0);
      assert front[0] in rs;
    }
  }

  lemma OwnIffSingle(b: Batch, i: nat)
    requires BatchOk(b) && i < |b.parts|
    ensures Own(b, i) <==> |b.parts| == 1
  {
    BytesStart(b.parts);
    PartsAreShorter(b.parts, i);
  }

  lemma {:induction false} FlownAppend(bs: seq<Batch>, cs: seq<Batch>)
    ensures Flown(bs + cs) == Flown(bs) + Flown(cs)
    decreases |cs|
  {
    if cs == [] {
      Units(bs);
      Units(Flown(bs));
    } else {
      var front, c := cs[..|cs| - 1], cs[|cs| - 1];
      assert (bs + cs)[..|bs + cs| - 1] == bs + front;
      FlownAppend(bs, front);
      Associative(Flown(bs), Flown(front), c.parts);
    }
  }

  /** The reads before a batch, its own, and those after it. */
  lemma AroundBatch(d: Device, j: nat)
    requires DeviceOk(d) && j < |d.left|
    ensures d.taken == Flown(d.left[..j]) + (d.left[j].parts + (Flown(d.left[j + 1..]) + d.held))
  {
    var before, b, after := d.left[..j], d.left[j], d.left[j + 1..];
    assert d.left == before + ([b] + after);
    FlownAppend(before, [b] + after);
    FlownAppend([b], after);
    assert [b][..0] == [] && Flown([b]) == b.parts;
    Associative(Flown(before), b.parts + Flown(after), d.held);
    Associative(b.parts, Flown(after), d.held);
  }

  /** Whatever follows a batch begins with a read that found the buffer empty. */
  lemma {:induction false} AfterBatch(bs: seq<Batch>, held: seq<TunRead>)
    requires Led(held) && forall b | b in bs :: BatchOk(b)
    ensures Flown(bs) + held != [] ==> (Flown(bs) + held)[0].onEmpty
    decreases |bs|
  {
    if bs != [] {
      var front, b := bs[..|bs| - 1], bs[|bs| - 1];
      assert b in bs;
      AfterBatch(front, b.parts);
    }
  }

  lemma BatchInPlace(d: Device, j: nat, i: nat)
    requires DeviceOk(d) && j < |d.left| && i < |d.left[j].parts|
    ensures var b, k := d.left[j], |Flown(d.left[..j])| + i;
            && BatchOk(b) && k < |d.taken| && d.taken[k] == b.parts[i]
            && (Own(b, i) <==> d.taken[k].onEmpty && (k + 1 < |d.taken| ==> d.taken[k + 1].onEmpty))
  {
    var b, later := d.left[j], Flown(d.left[j + 1..]) + d.held;
    assert b in d.left;
    AroundBatch(d, j);
    AfterBatch(d.left[j + 1..], d.held);
    IndexInMiddle(Flown(d.left[..j]), b.parts, later, i);
    OwnIffSingle(b, i);
  }

  /** Exactly which packets travel as they should: in any run, a read that left the buffer went to the holder of
      its own destination and alone in its frame if and only if the buffer was empty when it was read, and
      again when the next one was. */
  lemma OwnAndAloneIff(run: Run, n: nat, j: nat, i: nat)
    requires n < |run.states| && j < |run.states[n].device.left| && i < |run.states[n].device.left[j].parts|
    ensures var d := run.states[n].device;
            var b, k := d.left[j], |Flown(d.left[..j])| + i;
            && BatchOk(b) && k < |d.taken| && d.taken[k] == b.parts[i]
            && (Own(b, i) <==> d.taken[k].onEmpty && (k + 1 < |d.taken| ==> d.taken[k + 1].onEmpty))
  {
    RunKeeps(run, n);
    BatchInPlace(run.states[n].device, j, i);
  }

  lemma {:induction false} InSomeBatch(bs: seq<Batch>, r: TunRead)
    ensures r in Flown(bs) <==> exists b | b in bs :: r in b.parts
    decreases |bs|
  {
    if bs != [] {
      var front, last := bs[..|bs| - 1], bs[|bs| - 1];
      InSomeBatch(front, r);
      assert bs == front + [last];
    }
  }

  /** So every packet does, with at most one still waiting, if and only if the buffer was empty at every read. */
  lemma AllOwnIff(run: Run, n: nat)
    requires n < |run.states|
    ensures var d := run.states[n].device;
            (|d.held| <= 1 && forall b, i: nat | b in d.left && i < |b.parts| :: BatchOk(b) && Own(b, i))
            <==> (forall r | r in d.taken :: r.onEmpty)
  {
    RunKeeps(run, n);
    var d := run.states[n].device;
    if forall r | r in d.taken :: r.onEmpty {
      forall b, i: nat | b in d.left && i < |b.parts| ensures BatchOk(b) && Own(b, i) {
        var last := b.parts[|b.parts| - 1];
        InSomeBatch(d.left, last);
        assert last in d.taken;
        OwnIffSingle(b, i);
      }
      if d.held != [] {
        assert d.held[|d.held| - 1] in d.taken;
      }
    } else {
      var r :| r in d.taken && !r.onEmpty;
      InSomeBatch(d.left, r);
      if r in d.held {
        assert |d.held| > 1;
      } else {
        var b :| b in d.left && r in b.parts;
        OwnIffSingle(b, 0);
        assert !Own(b, 0);
      }
    }
  }

  // ----- what a client is sent

  /** The next batch, if it left, was for descriptor `g`, and this is its last part. */
  ghost predicate NextReaches(s: Sys, packet: seq<byte>, g: int) {
    exists s' :: Next(s, FromTun(packet, []), s') && g in s.conns && s'.conns[g].via != s.conns[g].via
  }

  lemma Leaves(s: Sys, packet: seq<byte>, g: int) returns (s': Sys)
    requires Inv(s) && g in s.conns && IP_HEADER <= |s.device.buf + packet| <= BUF_SIZE
    requires RouteOf(s.world.table.users, s.device.buf + packet) == g
    ensures Next(s, FromTun(packet, []), s')
    ensures s'.conns.Keys == s.conns.Keys && forall f | f in s.conns && f != g :: s'.conns[f] == s.conns[f]
    ensures s'.conns[g].via == s.conns[g].via + [BatchOf(s.world.table.users, HeldWith(s.device, packet))]
  {
    var c, held := s.device.buf + packet, HeldWith(s.device, packet);
    HeldKeeps(s.device, packet);
    s' := Sys(Delivered(s.world, g, c), AfterPacket(s, packet, []), AfterTun(s, packet, []));
    assert DataOf(held) == c;
    assert Routed(s.world, c, s'.world, []);
  }

  lemma ReachesOnlyRouted(s: Sys, packet: seq<byte>, g: int)
    requires Inv(s) && NextReaches(s, packet, g)
    ensures RouteOf(s.world.table.users, s.device.buf + packet) == g
  {
    HeldKeeps(s.device, packet);
  }

  /** What is in the buffer may be the head of a packet for lease `a`: of its destination it has no octet or the
      right ones. */
  predicate Leads(buf: seq<byte>, a: byte) {
    forall k | 16 <= k < 20 && k < |buf| :: buf[k] == LeaseQuad(a)[k - 16]
  }

  lemma RoutedToLeaseIff(t: Table, packet: seq<byte>, g: int, a: byte)
    requires TableOk(t) && Injective(t.users) && HeldBy(t.users, a, g) && |packet| >= IP_HEADER
    ensures RouteOf(t.users, packet) == g <==> packet[16..20] == LeaseQuad(a)
  {
    RouteIff(t, packet, g);
  }

  /** What makes a packet for lease `a` out of the buffer, and is itself addressed elsewhere. */
  function Completing(buf: seq<byte>, a: byte): (packet: seq<byte>)
    ensures |packet| == IP_HEADER
  {
    seq(IP_HEADER, i requires 0 <= i < IP_HEADER => if 16 <= i + |buf| < 20 then LeaseQuad(a)[i + |buf| - 16] else 0)
  }

  lemma CompletingCompletes(buf: seq<byte>, a: byte)
    requires buf != [] && a != 0 && Leads(buf, a)
    ensures (buf + Completing(buf, a))[16..20] == LeaseQuad(a)
    ensures Completing(buf, a)[16..20] != LeaseQuad(a)
  {
    assert Completing(buf, a)[16..20][3] == 0 != LeaseQuad(a)[3];
  }

  lemma LeadsWhenRouted(buf: seq<byte>, packet: seq<byte>, a: byte)
    requires |buf + packet| >= 20 && (buf + packet)[16..20] == LeaseQuad(a)
    ensures Leads(buf, a)
  {
    forall k | 16 <= k < 20 && k < |buf| ensures buf[k] == LeaseQuad(a)[k - 16] {
      assert (buf + packet)[16..20][k - 16] == buf[k];
    }
  }

  /** Whatever packet the tun device delivers next, it can reach the client that holds lease `a` only if it is
      addressed to `a`: exactly unless the buffer holds something that may be the head of a packet for `a` and
      leaves room for one more header. */
  lemma OnlyOwnPacketsIff(s: Sys, g: int, a: byte)
    requires Inv(s) && Injective(s.world.table.users) && g in s.conns && HeldBy(s.world.table.users, a, g)
    ensures (forall packet: seq<byte> | |packet| >= IP_HEADER && NextReaches(s, packet, g) ::
               Destination(packet) == LeaseAddr(a))
            <==> s.device.buf == [] || !Leads(s.device.buf, a) || |s.device.buf| > BUF_SIZE - IP_HEADER
  {
    var t, buf := s.world.table, s.device.buf;
    assert EntryOk(t, a);
    if buf == [] || !Leads(buf, a) || |buf| > BUF_SIZE - IP_HEADER {
      forall packet: seq<byte> | |packet| >= IP_HEADER && NextReaches(s, packet, g)
        ensures Destination(packet) == LeaseAddr(a)
      {
        ReachesOnlyRouted(s, packet, g);
        RoutedToLeaseIff(t, buf + packet, g, a);
        LeadsWhenRouted(buf, packet, a);
        assert buf + packet == packet;
        DestinationIsLease(packet, a);
      }
    } else {
      var packet := Completing(buf, a);
      CompletingCompletes(buf, a);
      RoutedToLeaseIff(t, buf + packet, g, a);
      var s' := Leaves(s, packet, g);
      DestinationIsLease(packet, a);
      assert NextReaches(s, packet, g);
    }
  }

  lemma OneHeld(s: Sys, packet: seq<byte>)
    requires DeviceOk(s.device) && s.device.buf == [] && packet != []
    ensures HeldWith(s.device, packet) == [TunRead(packet, true)] && DataOf([TunRead(packet, true)]) == packet
  {
    HeldKeeps(s.device, packet);
    Units([TunRead(packet, true)]);
    Units(packet);
  }

  lemma NotTaken(w: World, packet: seq<byte>)
    requires IP_HEADER <= |packet| <= BUF_SIZE && RouteOf(w.table.users, packet) >= 0
    ensures Routed(w, packet, w, packet)
  {
    var fd := RouteOf(w.table.users, packet);
    assert w.socks == Sent(w.socks, fd, Encode(Frame(DATA_DOWN, packet))[..0]);
    assert CutShort(w.socks, fd, packet, w.socks);
  }

  lemma Stays(s: Sys, packet: seq<byte>, g: int) returns (s': Sys)
    requires Inv(s) && s.device.buf == [] && g in s.conns && IP_HEADER <= |packet| <= BUF_SIZE
    requires RouteOf(s.world.table.users, packet) == g
    ensures Next(s, FromTun(packet, packet), s') && Inv(s')
    ensures s'.world == s.world && s'.conns == s.conns[g := s.conns[g].(cut := true)]
    ensures s'.device.buf == packet && s'.device.held == [TunRead(packet, true)]
  {
    OneHeld(s, packet);
    Units(packet);
    NotTaken(s.world, packet);
    s' := Sys(s.world, AfterPacket(s, packet, packet), AfterTun(s, packet, packet));
    NextKeeps(s, FromTun(packet, packet), s');
  }

  lemma TwoParts(users: seq<User>, d: Device, c1: seq<byte>, c2: seq<byte>, g1: int, g2: int)
    requires d.buf == c1 && d.held == [TunRead(c1, true)] && IP_HEADER <= |c1| && c2 != []
    requires RouteOf(users, c1) == g1 && RouteOf(users, c2) == g2
    ensures RouteOf(users, d.buf + c2) == g1
    ensures BatchOf(users, HeldWith(d, c2)) == Batch([TunRead(c1, true), TunRead(c2, false)], g1, [g1, g2])
  {
    var parts := [TunRead(c1, true), TunRead(c2, false)];
    HeadDecides(users, c1, c1 + c2);
    assert HeldWith(d, c2) == parts;
    assert parts[..1] == d.held && d.held[..0] == [];
    assert DataOf(d.held) == DataOf([]) + c1 == c1;
    assert BatchOf(users, parts).own == [g1, g2];
  }

  lemma StaysRun(run: Run, packet: seq<byte>, g: int) returns (run': Run)
    requires Last(run).device.buf == [] && g in Last(run).conns && IP_HEADER <= |packet| <= BUF_SIZE
    requires RouteOf(Last(run).world.table.users, packet) == g
    ensures run'.events == run.events + [FromTun(packet, packet)] && run.states <= run'.states
    ensures var s, s' := Last(run), Last(run');
            && s'.world == s.world && s'.conns == s.conns[g := s.conns[g].(cut := true)]
            && s'.device.buf == packet && s'.device.held == [TunRead(packet, true)]
  {
    RunKeeps(run, |run.events|);
    var s' := Stays(Last(run), packet, g);
    run' := ExtendRun(run, FromTun(packet, packet), s');
  }

  lemma LeavesRun(run: Run, c1: seq<byte>, c2: seq<byte>, g1: int, g2: int) returns (run': Run)
    requires Last(run).device.buf == c1 && Last(run).device.held == [TunRead(c1, true)] && g1 in Last(run).conns
    requires IP_HEADER <= |c1| && c2 != [] && |c1 + c2| <= BUF_SIZE
    requires RouteOf(Last(run).world.table.users, c1) == g1 && RouteOf(Last(run).world.table.users, c2) == g2
    ensures run'.events == run.events + [FromTun(c2, [])] && run.states <= run'.states
    ensures var s, s' := Last(run), Last(run');
            && s'.conns.Keys == s.conns.Keys && (forall fd | fd in s.conns && fd != g1 :: s'.conns[fd] == s.conns[fd])
            && s'.conns[g1].via == s.conns[g1].via + [Batch([TunRead(c1, true), TunRead(c2, false)], g1, [g1, g2])]
  {
    RunKeeps(run, |run.events|);
    var s := Last(run);
    TwoParts(s.world.table.users, s.device, c1, c2, g1, g2);
    var s' := Leaves(s, c2, g1);
    run' := ExtendRun(run, FromTun(c2, []), s');
  }

  /** Any run may go on like this, however polite its clients are: the write of a packet for `g1` fails, and the
      next packet, for `g2`, is sent to `g1` behind it, while `g2` is sent nothing. */
  lemma MisroutedRun(run: Run, c1: seq<byte>, c2: seq<byte>, g1: int, g2: int) returns (run': Run)
    requires Last(run).device.buf == [] && g1 in Last(run).conns && g2 in Last(run).conns && g1 != g2
    requires IP_HEADER <= |c1| && IP_HEADER <= |c2| && |c1 + c2| <= BUF_SIZE
    requires RouteOf(Last(run).world.table.users, c1) == g1 && RouteOf(Last(run).world.table.users, c2) == g2
    ensures run'.events == run.events + [FromTun(c1, c1)] + [FromTun(c2, [])]
    ensures run.states <= run'.states && g1 in Last(run').conns && g2 in Last(run').conns
    ensures Last(run').conns[g1].via
         == Last(run).conns[g1].via + [Batch([TunRead(c1, true), TunRead(c2, false)], g1, [g1, g2])]
    ensures Last(run').conns[g2] == Last(run).conns[g2]
  {
    var run1 := StaysRun(run, c1, g1);
    run' := LeavesRun(run1, c1, c2, g1, g2);
  }
}
