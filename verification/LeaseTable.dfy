/** The address pool of the epoll server: 256 entries searched by linear scans, refined by a log of grants
    and releases. */
module LeaseTable {

  const MAX_CLIENTS := 256
  const HEARTBEAT_INTERVAL := 20
  const HEARTBEAT_TIMEOUT := 60

  /** One `user_info`; `addr` is the `s_addr` of the lease as a little-endian load of its four octets. */
  datatype User = User(free: bool, fd: int, sent: int, recved: int, addr: int)

  datatype LeaseEvent = Granted(entry: int, fd: int) | Released(entry: int)

  /** The table together with the history of what was granted and released. */
  datatype Table = Table(users: seq<User>, log: seq<LeaseEvent>)

  /** x.x.x.0, x.x.x.1 and x.x.x.255 belong to nobody. */
  predicate Reserved(i: int) {
    i == 0 || i == 1 || i == 255
  }

  function LeaseAddr(i: int): int {
    13 + 8 * 0x100 + i * 0x100_0000
  }

  predicate Leased(u: User) {
    !u.free && u.fd >= 0
  }

  // ----- the scans

  function FirstFrom(users: seq<User>, p: User -> bool, i: nat): (r: int)
    requires i <= |users|
    ensures r == -1 || i <= r < |users|
    ensures r >= 0 ==> p(users[r]) && forall j | i <= j < r :: !p(users[j])
    ensures r < 0 ==> forall j | i <= j < |users| :: !p(users[j])
    decreases |users| - i
  {
    if i == |users| then -1 else if p(users[i]) then i else FirstFrom(users, p, i + 1)
  }

  function FreeEntry(users: seq<User>): int {
    FirstFrom(users, (u: User) => u.free, 0)
  }

  function HeldEntry(users: seq<User>, fd: int): int {
    FirstFrom(users, (u: User) => u.fd == fd && !u.free, 0)
  }

  function AddrEntry(users: seq<User>, addr: int): int {
    FirstFrom(users, (u: User) => u.addr == addr && !u.free, 0)
  }

  // ----- the three updates

  function Grant(t: Table, fd: int, now: int): Table
    requires FreeEntry(t.users) >= 0
  {
    var i := FreeEntry(t.users);
    Table(t.users[i := User(false, fd, now, now, LeaseAddr(i))], t.log + [Granted(i, fd)])
  }

  function Release(t: Table, fd: int): Table {
    var i := HeldEntry(t.users, fd);
    if i < 0 then t else Table(t.users[i := t.users[i].(free := true, fd := -1)], t.log + [Released(i)])
  }

  /** A keep-alive from `fd`. */
  function Touch(t: Table, fd: int, now: int): Table {
    var i := HeldEntry(t.users, fd);
    if i < 0 then t else t.(users := t.users[i := t.users[i].(recved := now)])
  }

  // ----- the log

  /** Who holds entry `i` after the events of `log`: the descriptor of the last event about `i`, if a grant. */
  function Holder(log: seq<LeaseEvent>, i: int): int
    decreases |log|
  {
    if log == [] then -1
    else
      var e := log[|log| - 1];
      if e.entry != i then Holder(log[..|log| - 1], i)
      else if e.Granted? then e.fd else -1
  }

  /** Every grant is of an entry nobody held, every release of one somebody held, and reserved entries are
      never mentioned. */
  predicate Lawful(log: seq<LeaseEvent>)
    decreases |log|
  {
    log == [] ||
    var e, before := log[|log| - 1], log[..|log| - 1];
    && Lawful(before)
    && 0 <= e.entry < MAX_CLIENTS && !Reserved(e.entry)
    && (if e.Granted? then e.fd >= 0 && Holder(before, e.entry) == -1 else Holder(before, e.entry) >= 0)
  }

  /** Grants minus releases. */
  function Balance(log: seq<LeaseEvent>): int
    decreases |log|
  {
    if log == [] then 0
    else Balance(log[..|log| - 1]) + (if log[|log| - 1].Granted? then 1 else -1)
  }

  lemma LogStep(log: seq<LeaseEvent>, e: LeaseEvent)
    ensures forall i :: Holder(log + [e], i) ==
                        if e.entry != i then Holder(log, i) else if e.Granted? then e.fd else -1
    ensures Balance(log + [e]) == Balance(log) + (if e.Granted? then 1 else -1)
    ensures Lawful(log + [e]) <==>
            && Lawful(log)
            && 0 <= e.entry < MAX_CLIENTS && !Reserved(e.entry)
            && (if e.Granted? then e.fd >= 0 && Holder(log, e.entry) == -1 else Holder(log, e.entry) >= 0)
  {
    assert (log + [e])[..|log|] == log;
  }

  // ----- the table refines its log

  ghost predicate EntryOk(t: Table, i: int)
    requires 0 <= i < |t.users|
  {
    var u := t.users[i];
    if Reserved(i) then !u.free && u.fd == -1 && u.addr == 0
    else
      && u.fd == Holder(t.log, i)
      && (u.free <==> u.fd == -1)
      && (!u.free ==> u.fd >= 0 && u.addr == LeaseAddr(i))
  }

  /** How many of the first `n` entries satisfy `p`. */
  function Count(users: seq<User>, p: User -> bool, n: nat): nat
    requires n <= |users|
  {
    if n == 0 then 0 else Count(users, p, n - 1) + (if p(users[n - 1]) then 1 else 0)
  }

  lemma {:induction false} CountUpdate(users: seq<User>, p: User -> bool, n: nat, i: nat, u: User)
    requires n <= |users| && i < |users|
    ensures Count(users[i := u], p, n)
         == Count(users, p, n) + (if i >= n || p(u) == p(users[i]) then 0 else if p(u) then 1 else -1)
  {
    if n > 0 {
      CountUpdate(users, p, n - 1, i, u);
    }
  }

  predicate IsFree(u: User) {
    u.free
  }

  ghost predicate TableOk(t: Table) {
    && |t.users| == MAX_CLIENTS
    && Lawful(t.log)
    && (forall i | 0 <= i < MAX_CLIENTS :: EntryOk(t, i))
    && Count(t.users, Leased, MAX_CLIENTS) == Balance(t.log)
  }

  /** `main`'s initialisation of the pool. */
  function InitialUsers(): (users: seq<User>) {
    seq(MAX_CLIENTS, i => User(!Reserved(i), -1, 0, 0, 0))
  }

  lemma {:induction false} NoneLeased(users: seq<User>, n: nat)
    requires n <= |users| && forall i | 0 <= i < |users| :: users[i].fd == -1
    ensures Count(users, Leased, n) == 0
  {
    if n > 0 {
      NoneLeased(users, n - 1);
    }
  }

  lemma InitialTableOk()
    ensures TableOk(Table(InitialUsers(), []))
  {
    NoneLeased(InitialUsers(), MAX_CLIENTS);
  }

  lemma GrantKeeps(t: Table, fd: int, now: int)
    requires TableOk(t) && fd >= 0 && FreeEntry(t.users) >= 0
    ensures TableOk(Grant(t, fd, now))
  {
    var i := FreeEntry(t.users);
    assert EntryOk(t, i);
    LogStep(t.log, Granted(i, fd));
    var t' := Grant(t, fd, now);
    forall j | 0 <= j < MAX_CLIENTS ensures EntryOk(t', j) {
      assert EntryOk(t, j);
    }
    CountUpdate(t.users, Leased, MAX_CLIENTS, i, t'.users[i]);
  }

  lemma ReleaseKeeps(t: Table, fd: int)
    requires TableOk(t) && fd >= 0
    ensures TableOk(Release(t, fd))
  {
    var i := HeldEntry(t.users, fd);
    if i >= 0 {
      assert EntryOk(t, i);
      LogStep(t.log, Released(i));
      var t' := Release(t, fd);
      forall j | 0 <= j < MAX_CLIENTS ensures EntryOk(t', j) {
        assert EntryOk(t, j);
      }
      CountUpdate(t.users, Leased, MAX_CLIENTS, i, t'.users[i]);
    }
  }

  /** Changing time stamps only. */
  lemma RestampKeeps(t: Table, i: int, sent: int, recved: int)
    requires TableOk(t) && 0 <= i < MAX_CLIENTS
    ensures TableOk(t.(users := t.users[i := t.users[i].(sent := sent, recved := recved)]))
  {
    var t' := t.(users := t.users[i := t.users[i].(sent := sent, recved := recved)]);
    forall j | 0 <= j < MAX_CLIENTS ensures EntryOk(t', j) {
      assert EntryOk(t, j);
    }
    CountUpdate(t.users, Leased, MAX_CLIENTS, i, t'.users[i]);
  }

  lemma TouchKeeps(t: Table, fd: int, now: int)
    requires TableOk(t)
    ensures TableOk(Touch(t, fd, now))
  {
    var i := HeldEntry(t.users, fd);
    if i >= 0 {
      RestampKeeps(t, i, t.users[i].sent, now);
    }
  }

  // ----- what the table promises its users

  /** Conservation: the 253 assignable entries are free or leased, and the leased ones are as many as the
      grants not yet released. */
  lemma PoolConserved(t: Table)
    requires TableOk(t)
    ensures Count(t.users, IsFree, MAX_CLIENTS) + Count(t.users, Leased, MAX_CLIENTS) == 253
    ensures Count(t.users, IsFree, MAX_CLIENTS) == 253 - Balance(t.log)
  {
    FreeOrLeased(t, MAX_CLIENTS);
  }

  lemma {:induction false} FreeOrLeased(t: Table, n: nat)
    requires TableOk(t) && n <= MAX_CLIENTS
    ensures Count(t.users, IsFree, n) + Count(t.users, Leased, n)
         == n - (if n > 255 then 3 else if n > 1 then 2 else n)
  {
    if n > 0 {
      FreeOrLeased(t, n - 1);
      assert EntryOk(t, n - 1);
    }
  }

  /** A non-zero destination finds an entry exactly when some entry with that address is leased; the entry
      is the only one, its descriptor is live, and the log says the descriptor holds it. */
  lemma AddressFindsHolder(t: Table, addr: int)
    requires TableOk(t) && addr != 0
    ensures var i := AddrEntry(t.users, addr);
            && (i >= 0 ==> && addr == LeaseAddr(i) && !Reserved(i)
                           && t.users[i].fd == Holder(t.log, i) >= 0
                           && forall j | 0 <= j < MAX_CLIENTS && j != i && Leased(t.users[j]) :: t.users[j].addr != addr)
            && (i < 0 ==> forall j | 0 <= j < MAX_CLIENTS && LeaseAddr(j) == addr :: Reserved(j) || Holder(t.log, j) < 0)
  {
    var i := AddrEntry(t.users, addr);
    if i >= 0 {
      assert EntryOk(t, i);
      forall j | 0 <= j < MAX_CLIENTS && j != i && Leased(t.users[j]) ensures t.users[j].addr != addr {
        assert EntryOk(t, j);
      }
    }
    forall j | 0 <= j < MAX_CLIENTS && LeaseAddr(j) == addr && i < 0
      ensures Reserved(j) || Holder(t.log, j) < 0
    {
      assert EntryOk(t, j);
    }
  }

  /** Destination 0.0.0.0 matches the first reserved entry, which has no descriptor. */
  lemma ZeroAddressFindsReserved(t: Table)
    requires TableOk(t)
    ensures AddrEntry(t.users, 0) == 0 && t.users[0].fd == -1
  {
    assert EntryOk(t, 0);
  }

  // ----- one lease per descriptor

  predicate Injective(users: seq<User>) {
    forall i, j | 0 <= i < j < |users| && Leased(users[i]) && Leased(users[j]) :: users[i].fd != users[j].fd
  }

  predicate HeldBy(users: seq<User>, i: int, fd: int) {
    0 <= i < |users| && Leased(users[i]) && users[i].fd == fd
  }

  predicate Owns(users: seq<User>, fd: int) {
    exists i | 0 <= i < |users| :: Leased(users[i]) && users[i].fd == fd
  }

  /** `deallocate_ip_addr` stops at the first match. It leaves nothing with the descriptor exactly when the
      descriptor held at most one entry. */
  lemma ReleaseIsCompleteIff(t: Table, fd: int)
    requires TableOk(t) && fd >= 0
    ensures !Owns(Release(t, fd).users, fd) <==>
            forall i, j | 0 <= i < j < MAX_CLIENTS && Leased(t.users[i]) && Leased(t.users[j]) ::
              !(t.users[i].fd == fd && t.users[j].fd == fd)
  {
    var k := HeldEntry(t.users, fd);
    var t' := Release(t, fd);
    if k < 0 {
      assert !Owns(t'.users, fd);
    } else {
      assert Leased(t.users[k]);
      forall i | 0 <= i < MAX_CLIENTS && i != k ensures t'.users[i] == t.users[i] {
      }
      if Owns(t'.users, fd) {
        var i :| 0 <= i < MAX_CLIENTS && Leased(t'.users[i]) && t'.users[i].fd == fd;
        assert k < i && Leased(t.users[i]) && t.users[i].fd == fd;
      }
      forall i, j | 0 <= i < j < MAX_CLIENTS && Leased(t.users[i]) && Leased(t.users[j])
                    && t.users[i].fd == fd && t.users[j].fd == fd
        ensures Owns(t'.users, fd)
      {
        assert j != k && Leased(t'.users[j]);
      }
    }
  }

  // ----- the heartbeat sweep

  predicate BeatDue(u: User, now: int) {
    Leased(u) && now - u.sent > HEARTBEAT_INTERVAL
  }

  predicate Silent(u: User, now: int) {
    Leased(u) && now - u.recved > HEARTBEAT_TIMEOUT
  }

  /** A sweep under way; `watched` are the descriptors registered with epoll, the only ones it can be made to
      forget. */
  datatype Sweeping = Sweeping(table: Table, watched: set<int>)

  function Stamped(t: Table, i: nat, now: int): (t': Table)
    requires i < |t.users|
    ensures |t'.users| == |t.users|
  {
    if BeatDue(t.users[i], now) then t.(users := t.users[i := t.users[i].(sent := now)]) else t
  }

  /** The loop body of `process_heartbeat` at entry `i`. Freeing goes by descriptor, although the loop goes by
      index, and a descriptor once closed is no longer known to epoll. */
  function SweepStep(p: Sweeping, i: nat, now: int): (p': Sweeping)
    requires i < |p.table.users|
    ensures |p'.table.users| == |p.table.users|
  {
    var u, t := p.table.users[i], Stamped(p.table, i, now);
    if Silent(u, now) && u.fd in p.watched then Sweeping(Release(t, u.fd), p.watched - {u.fd})
    else Sweeping(t, p.watched)
  }

  /** The first `n` iterations; `clock` is what each of them reads. */
  function Sweep(t: Table, watched: set<int>, n: nat, clock: seq<int>): (p: Sweeping)
    requires n <= |t.users| && n <= |clock|
    ensures |p.table.users| == |t.users|
  {
    if n == 0 then Sweeping(t, watched) else SweepStep(Sweep(t, watched, n - 1, clock), n - 1, clock[n - 1])
  }

  lemma StampedKeeps(t: Table, i: nat, now: int)
    requires TableOk(t) && i < MAX_CLIENTS
    ensures TableOk(Stamped(t, i, now))
  {
    RestampKeeps(t, i, now, t.users[i].recved);
  }

  lemma SweepStepKeeps(p: Sweeping, i: nat, now: int)
    requires TableOk(p.table) && i < MAX_CLIENTS
    ensures TableOk(SweepStep(p, i, now).table)
  {
    StampedKeeps(p.table, i, now);
    if Leased(p.table.users[i]) {
      ReleaseKeeps(Stamped(p.table, i, now), p.table.users[i].fd);
    }
  }

  lemma {:induction false} SweepKeeps(t: Table, watched: set<int>, n: nat, clock: seq<int>)
    requires TableOk(t) && n <= MAX_CLIENTS && n <= |clock|
    ensures TableOk(Sweep(t, watched, n, clock).table)
  {
    if n > 0 {
      SweepKeeps(t, watched, n - 1, clock);
      SweepStepKeeps(Sweep(t, watched, n - 1, clock), n - 1, clock[n - 1]);
    }
  }

  /** Iteration `i` never reaches past entry `i`: the first entry its descriptor holds is at `i` or before. */
  lemma {:induction false} SweepLeavesRest(t: Table, watched: set<int>, n: nat, clock: seq<int>)
    requires n <= |t.users| && n <= |clock|
    ensures forall j | n <= j < |t.users| :: Sweep(t, watched, n, clock).table.users[j] == t.users[j]
  {
    if n > 0 {
      SweepLeavesRest(t, watched, n - 1, clock);
      var before := Sweep(t, watched, n - 1, clock).table;
      var u, t1 := before.users[n - 1], Stamped(before, n - 1, clock[n - 1]);
      assert t1.users[n - 1].fd == u.fd && t1.users[n - 1].free == u.free;
      assert Leased(u) ==> HeldEntry(t1.users, u.fd) <= n - 1;
    }
  }

  /** One of the first `n` iterations finds `fd` silent. */
  predicate Expired(users: seq<User>, n: nat, clock: seq<int>, fd: int)
    requires n <= |users| && n <= |clock|
  {
    exists i | 0 <= i < n :: Silent(users[i], clock[i]) && users[i].fd == fd
  }

  /** A sweep closes exactly the watched descriptors with a silent entry, in any table. */
  lemma {:induction false} SweepCloses(t: Table, watched: set<int>, n: nat, clock: seq<int>)
    requires n <= |t.users| && n <= |clock|
    ensures forall fd :: fd in Sweep(t, watched, n, clock).watched <==>
                         fd in watched && !Expired(t.users, n, clock, fd)
  {
    if n > 0 {
      SweepCloses(t, watched, n - 1, clock);
      SweepLeavesRest(t, watched, n - 1, clock);
      forall fd ensures Expired(t.users, n, clock, fd) <==>
        Expired(t.users, n - 1, clock, fd) || (Silent(t.users[n - 1], clock[n - 1]) && t.users[n - 1].fd == fd)
      {
      }
    }
  }

  /** How many keep-alives the first `n` entries owe `fd`. */
  function BeatsDue(users: seq<User>, n: nat, clock: seq<int>, fd: int): nat
    requires n <= |users| && n <= |clock|
  {
    if n == 0 then 0
    else
      BeatsDue(users, n - 1, clock, fd)
      + (if BeatDue(users[n - 1], clock[n - 1]) && users[n - 1].fd == fd then 1 else 0)
  }

  /** What a sweep is for: one entry at a time, whoever else is in the table. */
  function SweptUser(u: User, now: int, watched: set<int>): User {
    var u1 := if BeatDue(u, now) then u.(sent := now) else u;
    if Silent(u, now) && u.fd in watched then u1.(free := true, fd := -1) else u1
  }

  lemma StepIsPointwise(p: Sweeping, i: nat, now: int)
    requires i < |p.table.users|
    requires Silent(p.table.users[i], now) && p.table.users[i].fd in p.watched ==>
               forall j | 0 <= j < i && !p.table.users[j].free :: p.table.users[j].fd != p.table.users[i].fd
    ensures SweepStep(p, i, now).table.users == p.table.users[i := SweptUser(p.table.users[i], now, p.watched)]
  {
    var u, t1 := p.table.users[i], Stamped(p.table, i, now);
    if Silent(u, now) && u.fd in p.watched {
      assert t1.users[i].fd == u.fd && !t1.users[i].free;
      assert HeldEntry(t1.users, u.fd) == i;
    }
  }

  /** Every silent entry of a watched descriptor is the first that the descriptor holds. */
  predicate SilentComeFirst(users: seq<User>, watched: set<int>, n: nat, clock: seq<int>)
    requires n <= |users| && n <= |clock|
  {
    forall j | 0 <= j < n && Silent(users[j], clock[j]) && users[j].fd in watched :: HeldEntry(users, users[j].fd) == j
  }

  lemma InjectiveComeFirst(t: Table, watched: set<int>, n: nat, clock: seq<int>)
    requires TableOk(t) && Injective(t.users) && n <= MAX_CLIENTS && n <= |clock|
    ensures SilentComeFirst(t.users, watched, n, clock)
  {
    forall j | 0 <= j < n && Silent(t.users[j], clock[j]) ensures HeldEntry(t.users, t.users[j].fd) == j {
      var k := HeldEntry(t.users, t.users[j].fd);
      assert EntryOk(t, k) && k <= j;
    }
  }

  /** Then the sweep treats every entry by itself: it frees exactly the silent ones and leaves every other field
      of every other entry alone. */
  lemma {:induction false} SweepIsPointwise(t: Table, watched: set<int>, n: nat, clock: seq<int>)
    requires n <= |t.users| && n <= |clock| && SilentComeFirst(t.users, watched, n, clock)
    ensures var t' := Sweep(t, watched, n, clock).table;
            forall i | 0 <= i < |t.users| ::
              t'.users[i] == if i < n then SweptUser(t.users[i], clock[i], watched) else t.users[i]
  {
    if n > 0 {
      SweepIsPointwise(t, watched, n - 1, clock);
      SweepCloses(t, watched, n - 1, clock);
      var p, now := Sweep(t, watched, n - 1, clock), clock[n - 1];
      var u := t.users[n - 1];
      assert p.table.users[n - 1] == u;
      if Silent(u, now) && u.fd in watched {
        assert HeldEntry(t.users, u.fd) == n - 1;
        assert forall j | 0 <= j < n - 1 && !t.users[j].free :: t.users[j].fd != u.fd;
        assert !Expired(t.users, n - 1, clock, u.fd);
      }
      StepIsPointwise(p, n - 1, now);
    }
  }

  // ----- exactly when

  lemma ReleaseTakesOne(t: Table, fd: int, g: int, i: int)
    requires HeldBy(t.users, i, fd)
    ensures g != fd || i != HeldEntry(t.users, g) ==> HeldBy(Release(t, g).users, i, fd)
  {
  }

  lemma LeakSurvivesStep(p: Sweeping, n: nat, now: int, fd: int, i: nat, j: nat)
    requires n < |p.table.users| && i != j && HeldBy(p.table.users, i, fd) && HeldBy(p.table.users, j, fd)
    ensures var p' := SweepStep(p, n, now);
            && (HeldBy(p'.table.users, i, fd) || HeldBy(p'.table.users, j, fd))
            && (fd in p'.watched || fd !in p.watched ==> HeldBy(p'.table.users, i, fd) && HeldBy(p'.table.users, j, fd))
  {
    var t := Stamped(p.table, n, now);
    assert HeldBy(t.users, i, fd) && HeldBy(t.users, j, fd);
    ReleaseTakesOne(t, fd, p.table.users[n].fd, i);
    ReleaseTakesOne(t, fd, p.table.users[n].fd, j);
  }

  lemma ClosedKeepsStep(p: Sweeping, n: nat, now: int, fd: int, i: nat)
    requires n < |p.table.users| && HeldBy(p.table.users, i, fd) && fd !in p.watched
    ensures HeldBy(SweepStep(p, n, now).table.users, i, fd)
  {
    var t := Stamped(p.table, n, now);
    assert HeldBy(t.users, i, fd);
    ReleaseTakesOne(t, fd, p.table.users[n].fd, i);
  }

  /** A sweep closes a descriptor only once, so of two entries of one descriptor at least one survives every
      sweep; both do when the descriptor is already closed. */
  lemma {:induction false} LeakSurvivesSweep(t: Table, watched: set<int>, n: nat, clock: seq<int>,
                                             fd: int, i: nat, j: nat)
    requires n <= |t.users| && n <= |clock| && i != j && HeldBy(t.users, i, fd) && HeldBy(t.users, j, fd)
    ensures var p := Sweep(t, watched, n, clock);
            && (HeldBy(p.table.users, i, fd) || HeldBy(p.table.users, j, fd))
            && (fd in p.watched || fd !in watched ==> HeldBy(p.table.users, i, fd) && HeldBy(p.table.users, j, fd))
  {
    if n > 0 {
      LeakSurvivesSweep(t, watched, n - 1, clock, fd, i, j);
      SweepCloses(t, watched, n - 1, clock);
      var p, now := Sweep(t, watched, n - 1, clock), clock[n - 1];
      if fd in p.watched {
        LeakSurvivesStep(p, n - 1, now, fd, i, j);
      } else {
        forall k | (k == i || k == j) && HeldBy(p.table.users, k, fd)
          ensures HeldBy(SweepStep(p, n - 1, now).table.users, k, fd)
        {
          ClosedKeepsStep(p, n - 1, now, fd, k);
        }
      }
    }
  }

  lemma SweepNeverGrants(p: Sweeping, n: nat, now: int, i: int, fd: int)
    requires n < |p.table.users| && fd >= 0 && HeldBy(SweepStep(p, n, now).table.users, i, fd)
    ensures HeldBy(p.table.users, i, fd)
  {
  }

  lemma OpenKeepsStep(p: Sweeping, n: nat, now: int, fd: int, i: int)
    requires n < |p.table.users| && fd in SweepStep(p, n, now).watched
    ensures HeldBy(p.table.users, i, fd) <==> HeldBy(SweepStep(p, n, now).table.users, i, fd)
  {
    var t := Stamped(p.table, n, now);
    if HeldBy(p.table.users, i, fd) {
      assert HeldBy(t.users, i, fd);
      ReleaseTakesOne(t, fd, p.table.users[n].fd, i);
    }
  }

  /** While a descriptor is open the sweep leaves its entries with it. */
  lemma {:induction false} OpenKeepsAll(t: Table, watched: set<int>, n: nat, clock: seq<int>, fd: int, i: int)
    requires n <= |t.users| && n <= |clock| && fd in Sweep(t, watched, n, clock).watched
    ensures HeldBy(t.users, i, fd) <==> HeldBy(Sweep(t, watched, n, clock).table.users, i, fd)
  {
    if n > 0 {
      OpenKeepsAll(t, watched, n - 1, clock, fd, i);
      OpenKeepsStep(Sweep(t, watched, n - 1, clock), n - 1, clock[n - 1], fd, i);
    }
  }

  lemma FirstHolder(users: seq<User>, fd: int, i: int)
    requires fd >= 0 && HeldBy(users, i, fd) && forall k | 0 <= k < i :: !HeldBy(users, k, fd)
    ensures HeldEntry(users, fd) == i
  {
    assert forall k | 0 <= k < i :: HeldBy(users, k, fd) <==> users[k].fd == fd && !users[k].free;
  }

  lemma ClosingFreesFirst(p: Sweeping, n: nat, now: int, i: int, fd: int)
    requires n < |p.table.users| && fd >= 0 && fd in p.watched && fd !in SweepStep(p, n, now).watched
    requires HeldBy(p.table.users, i, fd) && forall k | 0 <= k < i :: !HeldBy(p.table.users, k, fd)
    ensures !HeldBy(SweepStep(p, n, now).table.users, i, fd)
  {
    var t := Stamped(p.table, n, now);
    assert forall k :: HeldBy(t.users, k, fd) <==> HeldBy(p.table.users, k, fd);
    FirstHolder(t.users, fd, i);
  }

  /** A sweep that closes a descriptor frees the first entry it holds. */
  lemma {:induction false} FirstIsFreed(t: Table, watched: set<int>, n: nat, clock: seq<int>, fd: int, i: int)
    requires n <= |t.users| && n <= |clock| && fd >= 0 && fd in watched && fd !in Sweep(t, watched, n, clock).watched
    requires HeldBy(t.users, i, fd) && forall k | 0 <= k < i :: !HeldBy(t.users, k, fd)
    ensures !HeldBy(Sweep(t, watched, n, clock).table.users, i, fd)
  {
    if n > 0 {
      var p := Sweep(t, watched, n - 1, clock);
      if fd in p.watched {
        forall k ensures HeldBy(p.table.users, k, fd) <==> HeldBy(t.users, k, fd) {
          OpenKeepsAll(t, watched, n - 1, clock, fd, k);
        }
        ClosingFreesFirst(p, n - 1, clock[n - 1], i, fd);
      } else {
        FirstIsFreed(t, watched, n - 1, clock, fd, i);
        if HeldBy(SweepStep(p, n - 1, clock[n - 1]).table.users, i, fd) {
          SweepNeverGrants(p, n - 1, clock[n - 1], i, fd);
        }
      }
    }
  }

  /** If some silent entry is not the first of its watched descriptor, the sweep frees the first and leaves the
      silent one with its lease. */
  lemma LaterSilentGoesWrong(t: Table, watched: set<int>, clock: seq<int>) returns (k: nat, j: nat)
    requires TableOk(t) && |clock| == MAX_CLIENTS && !SilentComeFirst(t.users, watched, MAX_CLIENTS, clock)
    ensures k < j < MAX_CLIENTS && Leased(t.users[k]) && Silent(t.users[j], clock[j]) && t.users[j].fd in watched
    ensures t.users[k].fd == t.users[j].fd
    ensures var users' := Sweep(t, watched, MAX_CLIENTS, clock).table.users;
            !HeldBy(users', k, t.users[k].fd) && HeldBy(users', j, t.users[j].fd)
  {
    j :| 0 <= j < MAX_CLIENTS && Silent(t.users[j], clock[j]) && t.users[j].fd in watched
         && HeldEntry(t.users, t.users[j].fd) != j;
    var fd := t.users[j].fd;
    k := HeldEntry(t.users, fd);
    assert HeldBy(t.users, j, fd) && HeldBy(t.users, k, fd);
    SweepCloses(t, watched, MAX_CLIENTS, clock);
    assert Expired(t.users, MAX_CLIENTS, clock, fd);
    FirstIsFreed(t, watched, MAX_CLIENTS, clock, fd, k);
    LeakSurvivesSweep(t, watched, MAX_CLIENTS, clock, fd, k, j);
  }

  /** What a sweep promises about an entry, read at `now`: freed means silent for more than sixty seconds, and a
      survivor was written to within twenty seconds and heard within sixty. */
  predicate WellSwept(u: User, u': User, now: int) {
    && (!Leased(u) ==> u' == u)
    && (Leased(u) ==>
         && (u'.free <==> now - u.recved > HEARTBEAT_TIMEOUT)
         && (!u'.free ==> u' == u.(sent := u'.sent) && now - u'.sent <= HEARTBEAT_INTERVAL)
         && (u'.sent != u.sent <==> now - u.sent > HEARTBEAT_INTERVAL))
  }

  /** On any table that is what its log says, and at any readings of the clock: the sweep treats every entry by
      itself if and only if every silent entry of a watched descriptor is the first that the descriptor holds. */
  lemma SweepIsPointwiseIff(t: Table, watched: set<int>, clock: seq<int>)
    requires TableOk(t) && |clock| == MAX_CLIENTS
    ensures (forall i | 0 <= i < MAX_CLIENTS ::
               Sweep(t, watched, MAX_CLIENTS, clock).table.users[i] == SweptUser(t.users[i], clock[i], watched))
            <==> SilentComeFirst(t.users, watched, MAX_CLIENTS, clock)
  {
    if SilentComeFirst(t.users, watched, MAX_CLIENTS, clock) {
      SweepIsPointwise(t, watched, MAX_CLIENTS, clock);
    } else {
      var k, j := LaterSilentGoesWrong(t, watched, clock);
      assert SweptUser(t.users[j], clock[j], watched).free;
    }
  }

  /** And it keeps its promise to every client, when epoll watches all of them, under the same condition. */
  lemma SweepExactIff(t: Table, watched: set<int>, clock: seq<int>)
    requires TableOk(t) && |clock| == MAX_CLIENTS
    requires forall i | 0 <= i < MAX_CLIENTS && Leased(t.users[i]) :: t.users[i].fd in watched
    ensures (forall i | 0 <= i < MAX_CLIENTS ::
               WellSwept(t.users[i], Sweep(t, watched, MAX_CLIENTS, clock).table.users[i], clock[i]))
            <==> SilentComeFirst(t.users, watched, MAX_CLIENTS, clock)
  {
    if SilentComeFirst(t.users, watched, MAX_CLIENTS, clock) {
      SweepIsPointwise(t, watched, MAX_CLIENTS, clock);
    } else {
      var k, j := LaterSilentGoesWrong(t, watched, clock);
      assert !WellSwept(t.users[j], Sweep(t, watched, MAX_CLIENTS, clock).table.users[j], clock[j]);
    }
  }

  /** Freeing by descriptor goes wrong: when `fd` holds a live entry and, further on, a silent one, the
      iteration at the silent entry frees the live one and keeps the silent one. */
  lemma SweepFreesWrongEntry(p: Sweeping, i: nat, j: nat, now: int)
    requires |p.table.users| == MAX_CLIENTS && i < j < MAX_CLIENTS
    requires var users := p.table.users;
             && Leased(users[i]) && !Silent(users[i], now) && Silent(users[j], now)
             && users[i].fd == users[j].fd && users[j].fd in p.watched && HeldEntry(users, users[j].fd) == i
    ensures var users' := SweepStep(p, j, now).table.users;
            users'[i].free && Leased(users'[j]) && Silent(users'[j], now)
  {
    var t1 := Stamped(p.table, j, now);
    assert t1.users[i] == p.table.users[i];
    assert HeldEntry(t1.users, p.table.users[j].fd) == i;
  }
}
