/** What the stamps of the lease table mean over whole runs of the epoll server: when a client was last heard, and
    that a sweep closes exactly the clients not heard for more than a minute. */
module Stamps {
  import opened Wire
  import opened Wrappers
  import opened LeaseTable
  import opened EpollServer
  import opened ServerRuns
  import Downlink

  // ----- messages

  /** A keep-alive (type 104) stamps the entry of the client that sent it and changes nothing else. */
  lemma KeepAliveStamps(w: World, fd: int, payload: seq<byte>, now: int, i: nat)
    requires TableOk(w.table) && Injective(w.table.users) && HeldBy(w.table.users, i, fd)
    ensures Handle(w, fd, Frame(104, payload), now)
         == w.(table := w.table.(users := w.table.users[i := w.table.users[i].(recved := now)]))
  {
    assert HeldEntry(w.table.users, fd) == i;
  }

  /** Messages a client is heard by: a keep-alive, or the request that gets it its address. */
  predicate Hears(fs: seq<Frame>) {
    exists f | f in fs :: f.kind == 104 || f.kind == 100
  }

  /** The entries after a message, each with the stamp it had or, for the sender that is heard, the present time. */
  ghost predicate Heard(users: seq<User>, fd: int, fs: seq<Frame>, now: int, users': seq<User>) {
    forall i, g | HeldBy(users', i, g) ::
      if g == fd && Hears(fs) then users'[i].recved == now
      else HeldBy(users, i, g) && users'[i].recved == users[i].recved
  }

  lemma HandleHeard(w: World, fd: int, f: Frame, now: int)
    requires TableOk(w.table) && fd >= 0 && Accepts(w, f) && Injective(Handle(w, fd, f, now).table.users)
    ensures Heard(w.table.users, fd, [f], now, Handle(w, fd, f, now).table.users)
  {
    var users, users' := w.table.users, Handle(w, fd, f, now).table.users;
    assert Hears([f]) <==> f.kind == 104 || f.kind == 100 by {
      assert f in [f];
    }
    if f.kind == 100 {
      var k := FreeEntry(users);
      assert HeldBy(users', k, fd);
      forall i, g | HeldBy(users', i, g) && g != fd ensures HeldBy(users, i, g) && users'[i] == users[i] {
        assert i != k;
      }
    } else if f.kind == 104 {
      Downlink.HandleKeepsLeases(w, fd, f, now);
      forall i, g | HeldBy(users', i, g) && g == fd ensures users'[i].recved == now {
        assert HeldBy(users, i, g);
        var k := HeldEntry(users, fd);
        assert EntryOk(w.table, k) && HeldBy(users', k, fd);
      }
    }
  }

  lemma InjectiveBefore(users: seq<User>, users': seq<User>)
    requires Injective(users') && |users| == |users'|
    requires forall i, g | HeldBy(users, i, g) :: HeldBy(users', i, g)
    ensures Injective(users)
  {
    forall i, j | 0 <= i < j < |users| && Leased(users[i]) && Leased(users[j]) ensures users[i].fd != users[j].fd {
      assert HeldBy(users', i, users[i].fd) && HeldBy(users', j, users[j].fd);
    }
  }

  lemma {:induction false} AllHeard(w: World, fd: int, fs: seq<Frame>, now: int)
    requires TableOk(w.table) && fd >= 0 && AcceptsAll(w, fd, fs, now)
    requires Injective(HandleAll(w, fd, fs, now).table.users)
    ensures Heard(w.table.users, fd, fs, now, HandleAll(w, fd, fs, now).table.users)
    decreases |fs|
  {
    if fs != [] {
      var front, f := fs[..|fs| - 1], fs[|fs| - 1];
      var before := HandleAll(w, fd, front, now);
      assert fs == front + [f];
      HandleAllKeeps(w, fd, front, now);
      HandleAllKeeps(w, fd, fs, now);
      Downlink.HandleKeepsLeases(before, fd, f, now);
      InjectiveBefore(before.table.users, HandleAll(w, fd, fs, now).table.users);
      AllHeard(w, fd, front, now);
      HandleHeard(before, fd, f, now);
      assert Hears(fs) <==> Hears(front) || Hears([f]);
    }
  }

  // ----- events

  /** The messages that a read finished. */
  function Finished(s: Sys, e: Event): seq<Frame>
    requires e.Read? && e.fd in s.conns
  {
    var fs := Parse(s.conns[e.fd].buf + e.chunk).frames;
    if e.handled <= |fs| then fs[..e.handled] else fs
  }

  /** When `fd` was last heard, if it was `before` the event. A new connection has not been heard. */
  function HeardAfter(s: Sys, e: Event, fd: int, before: Option<int>): Option<int> {
    if e == Accept(fd) then None
    else if e.Read? && e.fd == fd && fd in s.conns && Hears(Finished(s, e)) then Some(e.now)
    else before
  }

  /** When the client now connected on `fd` was last heard. */
  function HeardAt(run: Run, n: nat, fd: int): Option<int>
    requires n < |run.states|
  {
    if n == 0 then None else HeardAfter(run.states[n - 1], run.events[n - 1], fd, HeardAt(run, n - 1, fd))
  }

  /** The stamp of every entry of `fd` is `at`. */
  ghost predicate StampedAt(users: seq<User>, fd: int, at: Option<int>) {
    forall i | HeldBy(users, i, fd) :: at == Some(users[i].recved)
  }

  lemma ReadHeard(s: Sys, e: Event, s': Sys, fd: int, at: Option<int>)
    requires Inv(s) && Owned(s) && e.Read? && Next(s, e, s') && Polite(s, e)
    requires StampedAt(s.world.table.users, fd, at)
    ensures StampedAt(s'.world.table.users, fd, HeardAfter(s, e, fd, at))
  {
    var fs := Finished(s, e);
    ReadOwned(s, e, s');
    assert s'.world.table == HandleAll(s.world, e.fd, fs, e.now).table;
    assert AcceptsAll(s.world, e.fd, fs, e.now);
    AllHeard(s.world, e.fd, fs, e.now);
  }

  lemma HangUpHeard(s: Sys, e: Event, s': Sys, fd: int, at: Option<int>)
    requires Inv(s) && e.HangUp? && Next(s, e, s') && StampedAt(s.world.table.users, fd, at)
    ensures StampedAt(s'.world.table.users, fd, at)
  {
    var users, users' := s.world.table.users, s'.world.table.users;
    forall i | HeldBy(users', i, fd) ensures at == Some(users'[i].recved) {
      assert HeldBy(users, i, fd);
    }
  }

  lemma SweepHeard(s: Sys, e: Event, s': Sys, fd: int, at: Option<int>)
    requires Inv(s) && Owned(s) && e.SweepAt? && Next(s, e, s') && StampedAt(s.world.table.users, fd, at)
    ensures StampedAt(s'.world.table.users, fd, at)
  {
    var users, users' := s.world.table.users, s'.world.table.users;
    InjectiveComeFirst(s.world.table, s.conns.Keys, MAX_CLIENTS, e.clock);
    SweepIsPointwise(s.world.table, s.conns.Keys, MAX_CLIENTS, e.clock);
    forall i | HeldBy(users', i, fd) ensures at == Some(users'[i].recved) {
      assert HeldBy(users, i, fd);
    }
  }

  lemma AcceptHeard(s: Sys, e: Event, s': Sys, fd: int, at: Option<int>)
    requires Owned(s) && e.Accept? && Next(s, e, s') && StampedAt(s.world.table.users, fd, at)
    ensures StampedAt(s'.world.table.users, fd, HeardAfter(s, e, fd, at))
  {
    var users := s.world.table.users;
    if e == Accept(fd) {
      forall i ensures !HeldBy(users, i, fd) {
        assert HeldBy(users, i, fd) ==> Owns(users, fd);
      }
    }
  }

  lemma NextHeard(s: Sys, e: Event, s': Sys, fd: int, at: Option<int>)
    requires Inv(s) && Owned(s) && Next(s, e, s') && Polite(s, e) && StampedAt(s.world.table.users, fd, at)
    ensures StampedAt(s'.world.table.users, fd, HeardAfter(s, e, fd, at))
  {
    match e {
      case Accept(_) => AcceptHeard(s, e, s', fd, at);
      case Read(_, _, _, _, _) => ReadHeard(s, e, s', fd, at);
      case HangUp(_) => HangUpHeard(s, e, s', fd, at);
      case FromTun(_, _) =>
      case SweepAt(_, _) => SweepHeard(s, e, s', fd, at);
    }
  }

  lemma EventHeard(run: PoliteRun, n: nat, fd: int, at: Option<int>)
    requires 0 < n < |run.states| && Inv(run.states[n - 1]) && Owned(run.states[n - 1])
    requires StampedAt(run.states[n - 1].world.table.users, fd, at)
    ensures StampedAt(run.states[n].world.table.users, fd, HeardAfter(run.states[n - 1], run.events[n - 1], fd, at))
  {
    NextHeard(run.states[n - 1], run.events[n - 1], run.states[n], fd, at);
  }

  /** Over runs with polite clients: the stamp of a client's entry is the time at which the server last finished a
      keep-alive of it, or else the request that got it the address. */
  lemma {:induction false} StampIsLastHeard(run: PoliteRun, n: nat, fd: int)
    requires n < |run.states|
    ensures StampedAt(run.states[n].world.table.users, fd, HeardAt(run, n, fd))
  {
    if n > 0 {
      StampIsLastHeard(run, n - 1, fd);
      RunKeeps(run, n - 1);
      RunOwned(run, n - 1);
      EventHeard(run, n, fd, HeardAt(run, n - 1, fd));
    }
  }

  lemma SweepClosesSilent(s: Sys, e: Event, s': Sys, fd: int)
    requires Inv(s) && e.SweepAt? && Next(s, e, s') && fd in s.conns
    ensures fd !in s'.conns <==>
            exists i | HeldBy(s.world.table.users, i, fd) :: e.clock[i] - s.world.table.users[i].recved > 60
  {
    var users := s.world.table.users;
    forall i | HeldBy(users, i, fd) ensures Silent(users[i], e.clock[i]) <==> e.clock[i] - users[i].recved > 60 {
    }
  }

  lemma SweepFreesSilent(s: Sys, e: Event, s': Sys, fd: int)
    requires Inv(s) && Owned(s) && e.SweepAt? && Next(s, e, s') && fd in s.conns
    ensures forall i :: HeldBy(s'.world.table.users, i, fd) <==>
              HeldBy(s.world.table.users, i, fd) && e.clock[i] - s.world.table.users[i].recved <= 60
  {
    InjectiveComeFirst(s.world.table, s.conns.Keys, MAX_CLIENTS, e.clock);
    SweepIsPointwise(s.world.table, s.conns.Keys, MAX_CLIENTS, e.clock);
  }

  /** So a sweep closes a client, and ends its lease, exactly when at its entry the clock shows more than sixty
      seconds since the server last heard it; a client that holds no address is never closed. */
  lemma ClosedIffUnheard(run: PoliteRun, n: nat, fd: int)
    requires n < |run.events| && run.events[n].SweepAt? && fd in run.states[n].conns
    ensures var users, users' := run.states[n].world.table.users, run.states[n + 1].world.table.users;
            var clock, at := run.events[n].clock, HeardAt(run, n, fd);
            && |clock| == |users| && (forall i | HeldBy(users, i, fd) :: at.Some?)
            && (fd !in run.states[n + 1].conns <==> exists i | HeldBy(users, i, fd) :: clock[i] - at.value > 60)
            && (forall i :: HeldBy(users', i, fd) <==> HeldBy(users, i, fd) && clock[i] - at.value <= 60)
  {
    RunKeeps(run, n);
    RunOwned(run, n);
    StampIsLastHeard(run, n, fd);
    assert Next(run.states[n], run.events[n], run.states[n + 1]);
    SweepClosesSilent(run.states[n], run.events[n], run.states[n + 1], fd);
    SweepFreesSilent(run.states[n], run.events[n], run.states[n + 1], fd);
  }
}
