/** The two-sided heartbeat as a timed protocol: the client's check and the server's sweep are the functions
    their handlers were proved against, everything else is the environment. */
module Heartbeat {
  import opened Wire
  import opened LeaseTable
  import opened EpollServer
  import opened Sequences
  import Client

  /** Bounds on the environment, in seconds: between two checks of either side, from writing a keep-alive to
      handling it, and from the start of the client to the grant of its address. */
  datatype Bounds = Bounds(gap: nat, delay: nat, setup: nat)

  /** `up` and `down` are the keep-alives under way, by the time they were written. `heard` and `seen` are the
      stamps of the last ones handled by the server and by the client. */
  datatype State = State(
    now: int, start: int,
    lastFrom: int, lastTo: int, clientChecked: int, up: seq<int>, heard: int, gone: bool,
    entry: User, serverChecked: int, down: seq<int>, seen: int, freed: bool)

  predicate Start(b: Bounds, s: State) {
    && s.start == s.now == s.lastFrom == s.lastTo == s.clientChecked == s.heard
    && s.up == [] && s.down == [] && !s.gone && !s.freed
    && s.entry.free && s.serverChecked <= s.now <= s.serverChecked + b.gap
  }

  // ----- the steps

  /** `handle_heartbeat`. */
  function ClientCheck(s: State): State {
    match Client.Check(s.now, s.lastFrom, s.lastTo)
    case TimedOut => s.(gone := true, clientChecked := s.now)
    case Quiet => s.(clientChecked := s.now)
    case Due => s.(up := s.up + [s.now], lastTo := s.now, clientChecked := s.now)
  }

  /** The client's entry in `process_heartbeat`. */
  function ServerCheck(s: State): State {
    s.(entry := SweptUser(s.entry, s.now, {s.entry.fd}), serverChecked := s.now,
       down := if BeatDue(s.entry, s.now) then s.down + [s.now] else s.down,
       freed := s.freed || Silent(s.entry, s.now))
  }

  function GrantEntry(s: State, fd: int, addr: int): State
    requires fd >= 0
  {
    s.(entry := User(false, fd, s.now, s.now, addr), seen := s.now)
  }

  /** The server handles a keep-alive; before the grant it has no entry to stamp. */
  function HandleUp(s: State): State
    requires s.up != []
  {
    s.(up := s.up[1..], heard := s.up[0], entry := if Leased(s.entry) then s.entry.(recved := s.now) else s.entry)
  }

  function HandleDown(s: State): State
    requires s.down != []
  {
    s.(down := s.down[1..], seen := s.down[0], lastFrom := s.now)
  }

  /** A second passes only when nobody is late. */
  predicate MayTick(b: Bounds, s: State) {
    && s.now < s.clientChecked + b.gap && s.now < s.serverChecked + b.gap
    && (s.up != [] ==> s.now < s.up[0] + b.delay)
    && (s.down != [] ==> s.now < s.down[0] + b.delay)
    && (s.entry.free && !s.freed ==> s.now < s.start + b.setup)
  }

  predicate Step(b: Bounds, s: State, s': State) {
    || s' == ClientCheck(s)
    || s' == ServerCheck(s)
    || (s.entry.free && !s.freed && s'.entry.fd >= 0 && s' == GrantEntry(s, s'.entry.fd, s'.entry.addr))
    || (s.up != [] && s' == HandleUp(s))
    || (s.down != [] && s' == HandleDown(s))
    || (MayTick(b, s) && s' == s.(now := s.now + 1))
  }

  ghost predicate Path(b: Bounds, ss: seq<State>) {
    && ss != [] && Start(b, ss[0])
    && forall i | 0 <= i < |ss| - 1 :: Step(b, ss[i], ss[i + 1])
  }

  /** The server's steps are what its handlers do to the client's entry, wherever it stands among the entries of
      other clients: the grant is the dispatch of a request (type 100), and the handling of what the client sends
      is the dispatch of a keep-alive (type 104) from the client's descriptor. */
  lemma StepsAreTheServers(s: State, w: World, i: nat, fd: int, watched: set<int>, clock: seq<int>)
    requires TableOk(w.table) && Injective(w.table.users) && i < MAX_CLIENTS && s.entry == w.table.users[i] && fd >= 0
    requires |clock| == MAX_CLIENTS && clock[i] == s.now && (Leased(s.entry) ==> s.entry.fd in watched)
    ensures FreeEntry(w.table.users) == i ==>
              GrantEntry(s, fd, LeaseAddr(i)).entry == Handle(w, fd, Frame(100, []), s.now).table.users[i]
    ensures Leased(s.entry) && s.up != [] ==>
              HandleUp(s).entry == Handle(w, s.entry.fd, Frame(104, []), s.now).table.users[i]
    ensures ServerCheck(s).entry == Sweep(w.table, watched, MAX_CLIENTS, clock).table.users[i]
    ensures !s.freed && Leased(s.entry) ==> (ServerCheck(s).freed <==> ServerCheck(s).entry.free)
  {
    var t := w.table;
    InjectiveComeFirst(t, watched, MAX_CLIENTS, clock);
    SweepIsPointwise(t, watched, MAX_CLIENTS, clock);
    if Leased(s.entry) {
      assert HeldEntry(t.users, s.entry.fd) == i;
    }
  }

  /** The client's steps are what its handlers do to its stamps: what it makes of a keep-alive, and of a check. */
  lemma StepsAreTheClients(s: State, v: Client.View, open: bool)
    requires v.lastFrom == s.lastFrom
    ensures s.down != [] ==> HandleDown(s).lastFrom == Client.SeeAll(v, [Frame(104, [])], s.now, open).lastFrom
  {
    Client.SeenOf(v, [Frame(104, [])], s.now, open);
    assert Frame(104, []) in [Frame(104, [])];
  }

  /** One check by the client itself, whose write is taken or fails. */
  method CheckOne(client: Client.Client, s: State) returns (ok: bool, s': State)
    requires client.lastFrom == s.lastFrom && client.lastTo == s.lastTo && !s.gone
    modifies client
    ensures s' == ClientCheck(s)
    ensures ok ==> !s'.gone && client.lastTo == s'.lastTo
    ensures ok ==> client.toServer == old(client.toServer) + if s'.up == s.up then [] else [5, 0, 0, 0, 104]
    ensures !ok ==> client.lastTo == s.lastTo && (s'.gone || s'.up != s.up)
  {
    ghost var sent;
    ok, sent := client.HandleHeartbeat(s.now);
    s' := ClientCheck(s);
    Units(old(client.toServer));
  }

  // ----- how often they beat

  /** From `a` through the queue to `z`, each stamp at least twenty-one seconds after the one before. */
  predicate Apart(a: int, stamps: seq<int>, z: int)
    decreases |stamps|
  {
    if stamps == [] then a == z else a + 21 <= stamps[0] && Apart(stamps[0], stamps[1..], z)
  }

  lemma {:induction false} ApartAppend(a: int, stamps: seq<int>, z: int, n: int)
    requires Apart(a, stamps, z) && z + 21 <= n
    ensures Apart(a, stamps + [n], n)
    decreases |stamps|
  {
    if stamps == [] {
      assert (stamps + [n])[1..] == [];
    } else {
      ApartAppend(stamps[0], stamps[1..], z, n);
      assert (stamps + [n])[1..] == stamps[1..] + [n];
    }
  }

  /** The entry is, or has been, the client's. */
  predicate Granted(s: State) {
    !s.entry.free || s.freed
  }

  predicate Unhurried(s: State) {
    && Apart(s.heard, s.up, s.lastTo)
    && (if Granted(s) then Apart(s.seen, s.down, s.entry.sent) else s.down == [])
  }

  lemma ClientCheckUnhurried(s: State)
    requires Unhurried(s)
    ensures Unhurried(ClientCheck(s))
  {
    if Client.Check(s.now, s.lastFrom, s.lastTo).Due? {
      ApartAppend(s.heard, s.up, s.lastTo, s.now);
    }
  }

  lemma ServerCheckUnhurried(s: State)
    requires Unhurried(s)
    ensures Unhurried(ServerCheck(s))
  {
    if BeatDue(s.entry, s.now) {
      ApartAppend(s.seen, s.down, s.entry.sent, s.now);
    }
  }

  lemma StepUnhurried(b: Bounds, s: State, s': State)
    requires Unhurried(s) && Step(b, s, s')
    ensures Unhurried(s')
  {
    if s' == ClientCheck(s) {
      ClientCheckUnhurried(s);
    } else if s' == ServerCheck(s) {
      ServerCheckUnhurried(s);
    }
  }

  /** Neither side beats more often than every twenty-one seconds, whatever the bounds. */
  lemma {:induction false} BeatsApart(b: Bounds, ss: seq<State>, n: nat)
    requires Path(b, ss) && n < |ss|
    ensures Unhurried(ss[n])
  {
    if n > 0 {
      BeatsApart(b, ss, n - 1);
      StepUnhurried(b, ss[n - 1], ss[n]);
    }
  }

  // ----- no false timeout

  /** Stamps from `a` through the queue to `z`, none more than twenty seconds and a check gap apart. */
  predicate Chain(b: Bounds, a: int, stamps: seq<int>, z: int)
    decreases |stamps|
  {
    if stamps == [] then a == z
    else a <= stamps[0] <= a + HEARTBEAT_INTERVAL + b.gap && Chain(b, stamps[0], stamps[1..], z)
  }

  lemma {:induction false} ChainAppend(b: Bounds, a: int, stamps: seq<int>, z: int, n: int)
    requires Chain(b, a, stamps, z) && z <= n <= z + HEARTBEAT_INTERVAL + b.gap
    ensures Chain(b, a, stamps + [n], n)
    decreases |stamps|
  {
    if stamps == [] {
      assert (stamps + [n])[1..] == [];
    } else {
      ChainAppend(b, stamps[0], stamps[1..], z, n);
      assert (stamps + [n])[1..] == stamps[1..] + [n];
    }
  }

  ghost predicate UpOk(b: Bounds, s: State) {
    && s.clientChecked <= s.now <= s.clientChecked + b.gap
    && s.lastTo <= s.clientChecked <= s.lastTo + HEARTBEAT_INTERVAL
    && Chain(b, s.heard, s.up, s.lastTo)
    && (s.up != [] ==> s.now <= s.up[0] + b.delay)
    && (Leased(s.entry) ==> s.entry.recved >= s.heard)
  }

  ghost predicate DownOk(b: Bounds, s: State) {
    && s.start <= s.lastFrom && s.start <= s.now
    && s.serverChecked <= s.now <= s.serverChecked + b.gap
    && (s.down != [] ==> s.now <= s.down[0] + b.delay)
    && (s.entry.free ==> s.down == [] && s.now <= s.start + b.setup)
    && (!s.entry.free ==>
          && s.entry.fd >= 0 && s.entry.sent <= s.now && s.serverChecked <= s.entry.sent + HEARTBEAT_INTERVAL
          && Chain(b, s.seen, s.down, s.entry.sent)
          && s.seen - b.setup <= s.lastFrom)
  }

  ghost predicate Alive(b: Bounds, s: State) {
    UpOk(b, s) && DownOk(b, s) && !s.gone && !s.freed
  }

  predicate Generous(b: Bounds) {
    b.setup + b.gap + b.delay <= HEARTBEAT_TIMEOUT - HEARTBEAT_INTERVAL
  }

  lemma ClientCheckKeeps(b: Bounds, s: State)
    requires Generous(b) && Alive(b, s)
    ensures Alive(b, ClientCheck(s))
  {
    if Client.Check(s.now, s.lastFrom, s.lastTo).Due? {
      ChainAppend(b, s.heard, s.up, s.lastTo, s.now);
      if s.up != [] {
        assert (s.up + [s.now])[0] == s.up[0];
      }
    }
  }

  lemma ServerCheckKeeps(b: Bounds, s: State)
    requires Generous(b) && Alive(b, s)
    ensures Alive(b, ServerCheck(s))
  {
    if BeatDue(s.entry, s.now) {
      ChainAppend(b, s.seen, s.down, s.entry.sent, s.now);
      if s.down != [] {
        assert (s.down + [s.now])[0] == s.down[0];
      }
    }
  }

  lemma {:induction false} ChainBound(b: Bounds, a: int, stamps: seq<int>, z: int)
    requires Chain(b, a, stamps, z)
    ensures a <= z && (stamps != [] ==> stamps[0] <= z)
    decreases |stamps|
  {
    if stamps != [] {
      ChainBound(b, stamps[0], stamps[1..], z);
    }
  }

  lemma HandleUpKeeps(b: Bounds, s: State)
    requires Alive(b, s) && s.up != []
    ensures Alive(b, HandleUp(s))
  {
    ChainBound(b, s.heard, s.up, s.lastTo);
    if |s.up| > 1 {
      assert Chain(b, s.up[0], s.up[1..], s.lastTo);
    }
  }

  lemma HandleDownKeeps(b: Bounds, s: State)
    requires Alive(b, s) && s.down != []
    ensures Alive(b, HandleDown(s))
  {
    ChainBound(b, s.seen, s.down, s.entry.sent);
    if |s.down| > 1 {
      assert Chain(b, s.down[0], s.down[1..], s.entry.sent);
    }
  }

  lemma StepKeeps(b: Bounds, s: State, s': State)
    requires Generous(b) && Alive(b, s) && Step(b, s, s')
    ensures Alive(b, s')
  {
    if s' == ClientCheck(s) {
      ClientCheckKeeps(b, s);
    } else if s' == ServerCheck(s) {
      ServerCheckKeeps(b, s);
    } else if s.up != [] && s' == HandleUp(s) {
      HandleUpKeeps(b, s);
    } else if s.down != [] && s' == HandleDown(s) {
      HandleDownKeeps(b, s);
    } else {
      ChainBound(b, s.heard, s.up, s.lastTo);
    }
  }

  /** Neither side ever gives up on the other when the bounds leave forty seconds of slack. */
  lemma {:induction false} NoFalseTimeout(b: Bounds, ss: seq<State>, n: nat)
    requires Generous(b) && Path(b, ss) && n < |ss|
    ensures Alive(b, ss[n])
  {
    if n > 0 {
      NoFalseTimeout(b, ss, n - 1);
      StepKeeps(b, ss[n - 1], ss[n]);
    }
  }

  // ----- the bound is the best possible

  /** A path ending at a moment when both sides are quiet and the client has heard nothing yet. */
  ghost predicate Waiting(b: Bounds, ss: seq<State>) {
    && Path(b, ss)
    && var s := ss[|ss| - 1];
    && s.up == [] && s.clientChecked == s.now && s.lastFrom == s.start && !s.gone && !s.freed
    && s.start <= s.now <= s.start + HEARTBEAT_TIMEOUT && s.serverChecked <= s.now
    && (!s.entry.free ==> s.entry.fd >= 0 && s.start <= s.entry.recved)
  }

  lemma Extend(b: Bounds, ss: seq<State>, s': State) returns (ss': seq<State>)
    requires Path(b, ss) && Step(b, ss[|ss| - 1], s')
    ensures Path(b, ss') && ss' == ss + [s'] && ss'[|ss'| - 1] == s'
  {
    ss' := ss + [s'];
  }

  /** One second, the client checking at its end and the server too if it is `watching`. */
  lemma OneSecond(b: Bounds, ss: seq<State>, watching: bool) returns (ss': seq<State>)
    requires Waiting(b, ss)
    requires var s := ss[|ss| - 1]; MayTick(b, s) && s.now < s.start + HEARTBEAT_TIMEOUT
    ensures Waiting(b, ss')
    ensures var s, s' := ss[|ss| - 1], ss'[|ss'| - 1];
            && s'.now == s.now + 1 && s'.start == s.start && s'.entry.free == s.entry.free
            && s'.serverChecked == (if watching then s'.now else s.serverChecked)
            && s.down <= s'.down && (s'.down != [] && s.down == [] ==> s'.down[0] == s'.now)
            && (!watching || s.entry.free || s'.now <= s.entry.sent + HEARTBEAT_INTERVAL ==>
                  s'.down == s.down && s'.entry.sent == s.entry.sent)
  {
    var s := ss[|ss| - 1];
    ss' := Extend(b, ss, s.(now := s.now + 1));
    if watching {
      ss' := Extend(b, ss', ServerCheck(ss'[|ss'| - 1]));
    }
    ss' := CheckAndHandle(b, ss');
  }

  /** The client checks and the server handles at once what that wrote. */
  lemma CheckAndHandle(b: Bounds, ss: seq<State>) returns (ss': seq<State>)
    requires Path(b, ss)
    requires var s := ss[|ss| - 1];
             s.up == [] && s.lastFrom == s.start && s.now <= s.start + HEARTBEAT_TIMEOUT
    ensures Path(b, ss')
    ensures var s, s' := ss[|ss| - 1], ss'[|ss'| - 1];
            s' == s.(clientChecked := s.now, lastTo := s'.lastTo, heard := s'.heard,
                     entry := s.entry.(recved := s'.entry.recved))
            && (s'.entry.recved == s.entry.recved || s'.entry.recved == s.now)
  {
    ss' := Extend(b, ss, ClientCheck(ss[|ss| - 1]));
    if ss'[|ss'| - 1].up != [] {
      ss' := Extend(b, ss', HandleUp(ss'[|ss'| - 1]));
    }
  }

  /** `k` such seconds. */
  lemma {:induction false} Wait(b: Bounds, ss: seq<State>, k: nat, watching: bool) returns (ss': seq<State>)
    requires Waiting(b, ss) && b.gap >= 1
    requires var s := ss[|ss| - 1];
             && s.now + k <= s.start + HEARTBEAT_TIMEOUT
             && (if watching then s.serverChecked == s.now || s.now < s.serverChecked + b.gap
                 else s.now + k <= s.serverChecked + b.gap)
             && (s.down != [] ==> s.now + k <= s.down[0] + b.delay)
             && (s.down == [] ==> s.entry.free || !watching || s.now + k <= s.entry.sent + HEARTBEAT_INTERVAL)
             && (s.entry.free ==> s.now + k <= s.start + b.setup)
    ensures Waiting(b, ss')
    ensures var s, s' := ss[|ss| - 1], ss'[|ss'| - 1];
            && s'.now == s.now + k && s'.start == s.start && s'.entry.free == s.entry.free
            && s'.serverChecked == (if watching && k > 0 then s'.now else s.serverChecked)
            && s.down <= s'.down
            && (s.down == [] ==> s'.down == [] && s'.entry.sent == s.entry.sent)
    decreases k
  {
    if k == 0 {
      ss' := ss;
    } else {
      ss' := OneSecond(b, ss, watching);
      ss' := Wait(b, ss', k - 1, watching);
    }
  }

  /** How the three bounds are used up: they add to one second more than the slack. */
  lemma Shares(b: Bounds) returns (wait: nat, gap: nat, delay: nat)
    requires b.gap >= 1 && !Generous(b)
    ensures wait <= b.setup && 1 <= gap <= b.gap && delay <= b.delay && wait + gap + delay == 41
  {
    gap := if b.gap <= 41 then b.gap else 41;
    delay := if b.delay <= 41 - gap then b.delay else 41 - gap;
    wait := 41 - gap - delay;
  }

  /** With one second less of slack there is a run in which the client gives up on a live server. */
  lemma SomeFalseTimeout(b: Bounds) returns (ss: seq<State>)
    requires b.gap >= 1 && !Generous(b)
    ensures Path(b, ss) && ss[|ss| - 1].gone && !ss[|ss| - 1].freed
  {
    var wait, gap, delay := Shares(b);
    var s0 := State(0, 0, 0, 0, 0, [], 0, false, User(true, -1, 0, 0, 0), 0, [], 0, false);
    ss := [s0];
    ss := Wait(b, ss, wait, true);
    ss := Extend(b, ss, GrantEntry(ss[|ss| - 1], 4, LeaseAddr(2)));
    ss := Wait(b, ss, 20, true);
    if delay == 0 {
      ss := Wait(b, ss, gap - 1, false);
    } else {
      ss := Wait(b, ss, gap, false);
      ss := Extend(b, ss, ServerCheck(ss[|ss| - 1]));
      ss := Wait(b, ss, delay - 1, true);
    }
    var s := ss[|ss| - 1];
    ss := Extend(b, ss, s.(now := s.now + 1));
    ss := Extend(b, ss, ClientCheck(ss[|ss| - 1]));
  }

  /** The heartbeat tolerates its environment exactly up to forty seconds of set-up, check gap and delay
      together. (With a gap of zero time cannot pass.) */
  lemma NoFalseTimeoutIff(b: Bounds)
    requires b.gap >= 1
    ensures (forall ss: seq<State>, n: nat | Path(b, ss) && n < |ss| :: !ss[n].gone && !ss[n].freed)
            <==> b.setup + b.gap + b.delay <= 40
  {
    if Generous(b) {
      forall ss: seq<State>, n: nat | Path(b, ss) && n < |ss| ensures !ss[n].gone && !ss[n].freed {
        NoFalseTimeout(b, ss, n);
      }
    } else {
      var ss := SomeFalseTimeout(b);
      assert ss[|ss| - 1].gone;
    }
  }
}
