/** The address claims of the threaded server: a table of taken numbers and a map from number to connection,
    each used under one mutex, but checked and claimed in separate critical sections. */
module IpClaims {
  import opened Wire
  import opened Config
  import opened Wrappers
  import opened Sequences

  const LAST := 1023

  /** Where the reader thread of a connection is. `Chosen`: a free number was picked but nothing claimed.
      `Replied`: the address reply was sent. `Claimed`: past `setIpStatus(true)`. `Serving`: past
      `setConnectionWithIp`. `Ending`: at the label that clears the claim. */
  datatype Pc =
    | Fresh | Chosen(num: int) | Replied(num: int) | Claimed(num: int) | Serving(num: int) | Ending(num: int) | Gone

  /** `taken` are the numbers whose status is true. `failed` is a fired assert or an exception nobody catches,
      `stuck` a reader locking the mutex it holds. */
  datatype State = State(taken: set<int>, owners: map<int, nat>, pcs: map<nat, Pc>, failed: bool, stuck: bool)

  datatype Action =
    | Connect(c: nat)
    | Choose(c: nat)
    | SendReply(c: nat)
    | LoseReply(c: nat)
    | Claim(c: nat)
    | Register(c: nat)
    | AskAgain(c: nat)
    | Leave(c: nat)
    | Release(c: nat)
    | EndFresh(c: nat)

  predicate Start(s: State) {
    s == State({}, map[], map[], false, false)
  }

  /** `getFreeIP`: the least number from 2 on that is not taken. */
  predicate LeastFree(taken: set<int>, n: int) {
    2 <= n <= LAST && n !in taken && forall k | 2 <= k < n :: k in taken
  }

  /** The connection found under number `n`; -1 for none. */
  function Found(taken: set<int>, owners: map<int, nat>, n: int): int {
    if n in taken && n in owners then owners[n] else -1
  }

  function Lookup(s: State, n: int): int {
    Found(s.taken, s.owners, n)
  }

  predicate At(s: State, c: nat, pc: Pc) {
    c in s.pcs && s.pcs[c] == pc
  }

  /** One critical section, or one step between two. `lossy` says whether a reply may fail to be sent. A
      connection that ends before it asked has no number to release, and `std::stoi` throws. A failure stops
      the process and a stuck reader keeps the mutex: neither has a next step. */
  predicate Step(lossy: bool, s: State, a: Action, s': State) {
    && !s.failed && !s.stuck
    && match a
    case Connect(c) => c !in s.pcs && s' == s.(pcs := s.pcs[c := Fresh])
    case Choose(c) =>
      && At(s, c, Fresh) && c in s'.pcs && s'.pcs[c].Chosen?
      && LeastFree(s.taken, s'.pcs[c].num) && s' == s.(pcs := s.pcs[c := s'.pcs[c]])
    case SendReply(c) => c in s.pcs && s.pcs[c].Chosen? && s' == s.(pcs := s.pcs[c := Replied(s.pcs[c].num)])
    case LoseReply(c) =>
      lossy && c in s.pcs && s.pcs[c].Chosen? && s' == s.(pcs := s.pcs[c := Ending(s.pcs[c].num)])
    case Claim(c) =>
      && c in s.pcs && s.pcs[c].Replied?
      && var n := s.pcs[c].num;
      if n in s.taken then s' == s.(failed := true)
      else s' == s.(taken := s.taken + {n}, pcs := s.pcs[c := Claimed(n)])
    case Register(c) =>
      && c in s.pcs && s.pcs[c].Claimed?
      && var n := s.pcs[c].num;
      if n !in s.taken then s' == s.(stuck := true)
      else s' == s.(owners := s.owners[n := c], pcs := s.pcs[c := Serving(n)])
    case AskAgain(c) =>
      && c in s.pcs && s.pcs[c].Serving?
      && if Lookup(s, s.pcs[c].num) >= 0 then s' == s.(failed := true)
         else s' == s.(pcs := s.pcs[c := Chosen(s.pcs[c].num)])
    case Leave(c) => c in s.pcs && s.pcs[c].Serving? && s' == s.(pcs := s.pcs[c := Ending(s.pcs[c].num)])
    case Release(c) =>
      && c in s.pcs && s.pcs[c].Ending?
      && var n := s.pcs[c].num;
      if n !in s.taken then s' == s.(failed := true)
      else s' == s.(taken := s.taken - {n}, pcs := s.pcs[c := Gone])
    case EndFresh(c) => At(s, c, Fresh) && s' == s.(failed := true)
  }

  predicate Run(lossy: bool, ss: seq<State>, acts: seq<Action>) {
    && |ss| == |acts| + 1 && Start(ss[0])
    && forall i | 0 <= i < |acts| :: Step(lossy, ss[i], acts[i], ss[i + 1])
  }

  // ----- when every reply is sent

  /** The number a connection has claimed and not yet released. */
  predicate Holds(pc: Pc, n: int) {
    (pc.Claimed? || pc.Serving? || pc.Ending?) && pc.num == n
  }

  predicate HeldBy(s: State, c: nat, n: int) {
    c in s.pcs && Holds(s.pcs[c], n)
  }

  ghost predicate Held(s: State, n: int) {
    exists c :: HeldBy(s, c, n)
  }

  predicate Registered(pc: Pc) {
    pc.Serving? || pc.Ending? || pc.Gone?
  }

  ghost predicate Inv(s: State) {
    // a number is taken exactly while one connection holds it
    && (forall c, n | HeldBy(s, c, n) :: n in s.taken)
    && (forall n | n in s.taken :: Held(s, n))
    && (forall c, d, n | HeldBy(s, c, n) && HeldBy(s, d, n) :: c == d)
    // a connection that got past setConnectionWithIp is the one found under its number
    && (forall c | c in s.pcs && (s.pcs[c].Serving? || s.pcs[c].Ending?) ::
          s.pcs[c].num in s.owners && s.owners[s.pcs[c].num] == c)
    // and nobody is in the map who has not registered
    && (forall n | n in s.owners :: s.owners[n] in s.pcs && Registered(s.pcs[s.owners[n]]))
    && !s.stuck
  }

  lemma HoldersElsewhere(s: State, s': State, c: nat)
    requires forall d | d != c :: (d in s.pcs <==> d in s'.pcs) && (d in s.pcs ==> s'.pcs[d] == s.pcs[d])
    ensures forall d, n | d != c :: HeldBy(s', d, n) <==> HeldBy(s, d, n)
  {
  }

  /** Steps after which the same connections hold the same numbers. */
  lemma SameHoldersKeep(s: State, s': State, c: nat)
    requires Inv(s) && s'.taken == s.taken && s'.owners == s.owners && !s'.stuck
    requires s.pcs.Keys <= s'.pcs.Keys
    requires forall d | d != c :: (d in s.pcs <==> d in s'.pcs) && (d in s.pcs ==> s'.pcs[d] == s.pcs[d])
    requires forall n :: HeldBy(s', c, n) <==> HeldBy(s, c, n)
    requires c in s'.pcs && (s'.pcs[c].Serving? || s'.pcs[c].Ending?) ==>
               c in s.pcs && (s.pcs[c].Serving? || s.pcs[c].Ending?) && s'.pcs[c].num == s.pcs[c].num
    requires c in s.pcs && Registered(s.pcs[c]) ==> Registered(s'.pcs[c])
    ensures Inv(s')
  {
    HoldersElsewhere(s, s', c);
    forall n | n in s'.taken ensures Held(s', n) {
      var d :| HeldBy(s, d, n);
      assert HeldBy(s', d, n);
    }
  }

  lemma ClaimKeeps(s: State, c: nat, s': State)
    requires Inv(s) && Step(false, s, Claim(c), s')
    ensures Inv(s')
  {
    if s.pcs[c].num !in s.taken {
      HoldersElsewhere(s, s', c);
      forall n | n in s'.taken ensures Held(s', n) {
        if n == s.pcs[c].num {
          assert HeldBy(s', c, n);
        } else {
          var d :| HeldBy(s, d, n);
          assert HeldBy(s', d, n);
        }
      }
    } else {
      SameHoldersKeep(s, s', c);
    }
  }

  lemma RegisterKeeps(s: State, c: nat, s': State)
    requires Inv(s) && Step(false, s, Register(c), s')
    ensures Inv(s') && s'.pcs[c].Serving?
  {
    var n := s.pcs[c].num;
    assert HeldBy(s, c, n);
    HoldersElsewhere(s, s', c);
    forall k | k in s'.taken ensures Held(s', k) {
      var d :| HeldBy(s, d, k);
      assert HeldBy(s', d, k);
    }
    forall d | d in s'.pcs && d != c && (s'.pcs[d].Serving? || s'.pcs[d].Ending?)
      ensures s'.pcs[d].num != n
    {
      assert HeldBy(s, d, s.pcs[d].num);
    }
  }

  lemma ReleaseKeeps(s: State, c: nat, s': State)
    requires Inv(s) && Step(false, s, Release(c), s')
    ensures Inv(s') && !s'.failed
  {
    var n := s.pcs[c].num;
    assert HeldBy(s, c, n);
    HoldersElsewhere(s, s', c);
    forall k | k in s'.taken ensures Held(s', k) {
      var d :| HeldBy(s, d, k);
      assert HeldBy(s', d, k);
    }
  }

  lemma StepKeeps(s: State, a: Action, s': State)
    requires Inv(s) && Step(false, s, a, s')
    ensures Inv(s')
  {
    match a {
      case Claim(c) => ClaimKeeps(s, c, s');
      case Register(c) => RegisterKeeps(s, c, s');
      case Release(c) => ReleaseKeeps(s, c, s');
      case AskAgain(c) =>
        assert HeldBy(s, c, s.pcs[c].num);
        SameHoldersKeep(s, s', c);
      case Connect(c) => SameHoldersKeep(s, s', c);
      case Choose(c) => SameHoldersKeep(s, s', c);
      case SendReply(c) => SameHoldersKeep(s, s', c);
      case LoseReply(c) =>
      case EndFresh(c) => SameHoldersKeep(s, s', c);
      case Leave(c) => SameHoldersKeep(s, s', c);
    }
  }

  /** In every interleaving in which each reply is sent, up to a failing assert: a number has at most one
      holder, taken numbers are held, and registered connections are found under their numbers. */
  lemma {:induction false} RunKeeps(ss: seq<State>, acts: seq<Action>, n: nat)
    requires Run(false, ss, acts) && n < |ss|
    ensures Inv(ss[n])
  {
    if n > 0 {
      RunKeeps(ss, acts, n - 1);
      StepKeeps(ss[n - 1], acts[n - 1], ss[n]);
    }
  }

  lemma ClaimFindsHolder(s: State, c: nat)
    requires Inv(s) && c in s.pcs && s.pcs[c].Replied? && s.pcs[c].num in s.taken
    ensures exists d :: d != c && HeldBy(s, d, s.pcs[c].num)
  {
    var d :| HeldBy(s, d, s.pcs[c].num);
    assert d != c;
  }

  /** The process is stopped exactly by a second request on a connection, by the end of one that never asked, and by
      the claim of a number that another connection holds, having claimed it since it was chosen; a release
      never fails. */
  lemma AssertsFireIff(ss: seq<State>, acts: seq<Action>, n: nat)
    requires Run(false, ss, acts) && n < |acts|
    ensures var s, a := ss[n], acts[n];
            ss[n + 1].failed <==>
            (a.AskAgain? || a.EndFresh?
             || (a.Claim? && a.c in s.pcs && s.pcs[a.c].Replied?
                 && exists d :: d != a.c && HeldBy(s, d, s.pcs[a.c].num)))
  {
    RunKeeps(ss, acts, n);
    assert Step(false, ss[n], acts[n], ss[n + 1]);
    if acts[n].Release? {
      ReleaseKeeps(ss[n], acts[n].c, ss[n + 1]);
    } else if acts[n].Claim? && ss[n + 1].failed {
      ClaimFindsHolder(ss[n], acts[n].c);
    } else if acts[n].AskAgain? {
      assert HeldBy(ss[n], acts[n].c, ss[n].pcs[acts[n].c].num);
    }
  }

  /** In every such interleaving a packet routed by number goes to the connection that holds the number exactly
      when that connection has registered. */
  lemma LookupFindsHolderIff(ss: seq<State>, acts: seq<Action>, n: nat, c: nat, num: int)
    requires Run(false, ss, acts) && n < |ss| && HeldBy(ss[n], c, num)
    ensures Lookup(ss[n], num) == c <==> !ss[n].pcs[c].Claimed?
  {
    RunKeeps(ss, acts, n);
  }

  /** And a packet for a number that nobody holds goes to nobody, whoever held the number before. */
  lemma LookupOfUnheld(ss: seq<State>, acts: seq<Action>, n: nat, num: int)
    requires Run(false, ss, acts) && n < |ss| && !Held(ss[n], num)
    ensures Lookup(ss[n], num) == -1
  {
    RunKeeps(ss, acts, n);
  }

  /** In every such interleaving a connection chooses the least number from 2 to 1023 that nobody holds. */
  lemma ChoosesLeastUnheld(ss: seq<State>, acts: seq<Action>, n: nat, c: nat)
    requires Run(false, ss, acts) && n < |acts| && acts[n] == Choose(c)
    ensures c in ss[n + 1].pcs && ss[n + 1].pcs[c].Chosen?
    ensures var num := ss[n + 1].pcs[c].num;
            2 <= num <= 1023 && !Held(ss[n], num) && forall k | 2 <= k < num :: Held(ss[n], k)
  {
    RunKeeps(ss, acts, n);
    assert Step(false, ss[n], acts[n], ss[n + 1]);
  }

  // ----- when a reply may be lost

  function Put(s: State, c: nat, pc: Pc): State {
    s.(pcs := s.pcs[c := pc])
  }

  lemma Extend(lossy: bool, ss: seq<State>, acts: seq<Action>, a: Action, s': State)
      returns (ss': seq<State>, acts': seq<Action>)
    requires Run(lossy, ss, acts) && Step(lossy, ss[|ss| - 1], a, s')
    ensures Run(lossy, ss', acts') && ss'[|ss'| - 1] == s' && acts' == acts + [a]
  {
    ss', acts' := ss + [s'], acts + [a];
  }

  /** One connection picks a number and loses its reply; the next claims the number; the first clears the
      claim on its way out; the second then locks the mutex it holds. */
  lemma SomeSelfDeadlock() returns (ss: seq<State>, acts: seq<Action>)
    ensures Run(true, ss, acts) && ss[|ss| - 1].stuck
  {
    ss, acts := [State({}, map[], map[], false, false)], [];
    ss, acts := Extend(true, ss, acts, Connect(0), Put(ss[|ss| - 1], 0, Fresh));
    ss, acts := Extend(true, ss, acts, Choose(0), Put(ss[|ss| - 1], 0, Chosen(2)));
    ss, acts := Extend(true, ss, acts, LoseReply(0), Put(ss[|ss| - 1], 0, Ending(2)));
    ss, acts := Extend(true, ss, acts, Connect(1), Put(ss[|ss| - 1], 1, Fresh));
    ss, acts := Extend(true, ss, acts, Choose(1), Put(ss[|ss| - 1], 1, Chosen(2)));
    ss, acts := Extend(true, ss, acts, SendReply(1), Put(ss[|ss| - 1], 1, Replied(2)));
    ss, acts := Extend(true, ss, acts, Claim(1), Put(ss[|ss| - 1], 1, Claimed(2)).(taken := {2}));
    ss, acts := Extend(true, ss, acts, Release(0), Put(ss[|ss| - 1], 0, Gone).(taken := {2} - {2}));
    ss, acts := Extend(true, ss, acts, Register(1), ss[|ss| - 1].(stuck := true));
  }

  /** With every reply sent: two connections choose the same number, both are told it, and the second claim stops
      the process. */
  lemma SomeClaimAborts() returns (ss: seq<State>, acts: seq<Action>)
    ensures Run(false, ss, acts) && ss[|ss| - 1].failed && acts != [] && acts[|acts| - 1] == Claim(1)
  {
    ss, acts := [State({}, map[], map[], false, false)], [];
    ss, acts := Extend(false, ss, acts, Connect(0), Put(ss[|ss| - 1], 0, Fresh));
    ss, acts := Extend(false, ss, acts, Connect(1), Put(ss[|ss| - 1], 1, Fresh));
    ss, acts := Extend(false, ss, acts, Choose(0), Put(ss[|ss| - 1], 0, Chosen(2)));
    ss, acts := Extend(false, ss, acts, Choose(1), Put(ss[|ss| - 1], 1, Chosen(2)));
    ss, acts := Extend(false, ss, acts, SendReply(0), Put(ss[|ss| - 1], 0, Replied(2)));
    ss, acts := Extend(false, ss, acts, SendReply(1), Put(ss[|ss| - 1], 1, Replied(2)));
    ss, acts := Extend(false, ss, acts, Claim(0), Put(ss[|ss| - 1], 0, Claimed(2)).(taken := {2}));
    ss, acts := Extend(false, ss, acts, Claim(1), ss[|ss| - 1].(failed := true));
  }

  /** A connection that comes, is given the number 2 and leaves. */
  lemma OneLife() returns (ss: seq<State>, acts: seq<Action>)
    ensures Run(false, ss, acts) && ss[|ss| - 1] == State({}, map[2 := 0], map[0 := Gone], false, false)
  {
    ss, acts := [State({}, map[], map[], false, false)], [];
    ss, acts := Extend(false, ss, acts, Connect(0), Put(ss[|ss| - 1], 0, Fresh));
    ss, acts := Extend(false, ss, acts, Choose(0), Put(ss[|ss| - 1], 0, Chosen(2)));
    ss, acts := Extend(false, ss, acts, SendReply(0), Put(ss[|ss| - 1], 0, Replied(2)));
    ss, acts := Extend(false, ss, acts, Claim(0), Put(ss[|ss| - 1], 0, Claimed(2)).(taken := {2}));
    ss, acts := Extend(false, ss, acts, Register(0), Put(ss[|ss| - 1], 0, Serving(2)).(owners := map[2 := 0]));
    ss, acts := Extend(false, ss, acts, Leave(0), Put(ss[|ss| - 1], 0, Ending(2)));
    ss, acts := Extend(false, ss, acts, Release(0), Put(ss[|ss| - 1], 0, Gone).(taken := {2} - {2}));
  }

  /** With every reply sent: between its claim and its registration a connection is not found under its number,
      the previous holder is. */
  lemma SomeStaleLookup() returns (ss: seq<State>, acts: seq<Action>)
    ensures Run(false, ss, acts)
    ensures var s := ss[|ss| - 1]; HeldBy(s, 1, 2) && Lookup(s, 2) == 0 && At(s, 0, Gone)
  {
    ss, acts := OneLife();
    ss, acts := Extend(false, ss, acts, Connect(1), Put(ss[|ss| - 1], 1, Fresh));
    ss, acts := Extend(false, ss, acts, Choose(1), Put(ss[|ss| - 1], 1, Chosen(2)));
    ss, acts := Extend(false, ss, acts, SendReply(1), Put(ss[|ss| - 1], 1, Replied(2)));
    ss, acts := Extend(false, ss, acts, Claim(1), Put(ss[|ss| - 1], 1, Claimed(2)).(taken := {2}));
  }

  /** The re-locking branch of `setConnectionWithIp` is unreachable exactly when replies are never lost. */
  lemma NoSelfDeadlockIff(lossy: bool)
    ensures (forall ss: seq<State>, acts: seq<Action>, n: nat | Run(lossy, ss, acts) && n < |ss| :: !ss[n].stuck)
            <==> !lossy
  {
    if lossy {
      var ss, acts := SomeSelfDeadlock();
      assert ss[|ss| - 1].stuck;
    } else {
      forall ss: seq<State>, acts: seq<Action>, n: nat | Run(lossy, ss, acts) && n < |ss| ensures !ss[n].stuck {
        RunKeeps(ss, acts, n);
      }
    }
  }

  // ----- from a packet's destination to a number

  /** `getline` by dots: the last field. */
  function LastField(s: seq<byte>): seq<byte>
    decreases |s|
  {
    if s == [] then [] else if DOT !in s then s else LastField(s[1..])
  }

  /** `std::stoi`, which throws when there is no number to begin with. */
  function Stoi(s: seq<byte>): Option<int> {
    var (n, _) :- ScanInt(s);
    Some(n)
  }

  /** `getIpNum`. */
  function GetIpNum(addr: seq<byte>): Option<int> {
    Stoi(LastField(addr))
  }

  /** A text without digits, such as an address that was never set, has no number: `std::stoi` throws. */
  lemma NoNumber(s: seq<byte>)
    requires DOT !in s && forall c | c in s :: !(48 <= c <= 57)
    ensures GetIpNum(s) == None
  {
    SkipsSpaces(s);
    assert LastField(s) == s;
    var t := SkipSpaces(s);
    assert t != [] ==> t[0] in t;
    assert |t| > 1 ==> t[1] in t && t[1..][0] == t[1];
  }

  lemma {:induction false} SkipsSpaces(s: seq<byte>)
    ensures forall c | c in SkipSpaces(s) :: c in s
  {
    if s != [] && IsSpace(s[0]) {
      SkipsSpaces(s[1..]);
    }
  }

  lemma {:induction false} LastFieldAfterDot(s: seq<byte>, t: seq<byte>)
    requires DOT !in t && t != []
    ensures LastField(s + ([DOT] + t)) == t
    decreases |s|
  {
    var all := s + ([DOT] + t);
    assert all[|s|] == DOT && DOT in all;
    if s == [] {
      assert all[1..] == t;
    } else {
      HeadAndTail(s, [DOT] + t);
      LastFieldAfterDot(s[1..], t);
    }
  }

  lemma NumOfLastField(s: seq<byte>, n: nat)
    ensures GetIpNum(s + ([DOT] + Dec(n))) == Some(n)
  {
    DecIsDigits(n);
    LastFieldAfterDot(s, Dec(n));
    ScanDec([], n, []);
    Units(Dec(n));
  }

  /** `mkAddr` prints a packet's destination, `getIpNum` reads back its last octet: routing goes by that
      octet alone, whatever the other three are. */
  lemma {:induction false} RoutedByLastOctet(q: seq<byte>)
    requires |q| > 1
    ensures GetIpNum(Dotted(q)) == Some(q[|q| - 1])
    decreases |q|
  {
    if |q| == 2 {
      assert Dotted(q[1..]) == Dec(q[1]);
      NumOfLastField(Dec(q[0]), q[1]);
    } else {
      RoutedByLastOctet(q[1..]);
      DottedEnds(q[1..]);
      var front, last := DottedFront(q[1..]), Dec(q[|q| - 1]);
      Associative(Dec(q[0]), [DOT], front + ([DOT] + last));
      Associative(Dec(q[0]) + [DOT], front, [DOT] + last);
      NumOfLastField(Dec(q[0]) + [DOT] + front, q[|q| - 1]);
    }
  }

  function DottedFront(q: seq<byte>): seq<byte>
    requires |q| > 1
  {
    Dotted(q[..|q| - 1])
  }

  lemma {:induction false} DottedEnds(q: seq<byte>)
    requires |q| > 1
    ensures Dotted(q) == DottedFront(q) + ([DOT] + Dec(q[|q| - 1]))
    decreases |q|
  {
    if |q| > 2 {
      DottedEnds(q[1..]);
      var t := q[..|q| - 1];
      assert t[1..] == q[1..][..|q| - 2];
      Associative([DOT], Dotted(t[1..]), [DOT] + Dec(q[|q| - 1]));
      Associative(Dec(q[0]), [DOT] + Dotted(t[1..]), [DOT] + Dec(q[|q| - 1]));
    } else {
      assert q[..1] == [q[0]] && q[1..] == [q[1]];
    }
  }

  lemma {:induction false} SkipField(s: seq<byte>, k: nat)
    requires k < |s| && s[k] == DOT
    ensures LastField(s) == LastField(s[k + 1..])
    decreases |s|
  {
    if k > 0 {
      SkipField(s[1..], k - 1);
      assert s[1..][k..] == s[k + 1..];
    }
  }

  /** `getIpNum`: `getline` by dots until the stream is at its end. */
  method IpNum(addr: seq<byte>) returns (num: Option<int>)
    ensures num == GetIpNum(addr)
  {
    var f, s, eof := addr, [], false;
    while !eof
      invariant eof ==> s == LastField(addr)
      invariant !eof ==> LastField(f) == LastField(addr)
      decreases |f|, !eof
    {
      var k := 0;
      while k < |f| && f[k] != DOT
        invariant k <= |f| && DOT !in f[..k]
      {
        k := k + 1;
      }
      if k == |f| {
        s, eof := f, true;
      } else {
        SkipField(f, k);
        s, f := f[..k], f[k + 1..];
      }
    }
    num := Stoi(s);
  }

  /** The address handed out for number `n`. */
  function AddressText(n: nat): seq<byte> {
    Dotted([10, 128, 0]) + ([DOT] + Dec(n))
  }

  /** The pool runs to 1023, but a number is the route of some packet exactly when it fits an octet. */
  lemma RoutableIff(n: nat)
    ensures GetIpNum(AddressText(n)) == Some(n)
    ensures (exists q: Quad :: GetIpNum(Dotted(q)) == GetIpNum(AddressText(n))) <==> n < 256
  {
    NumOfLastField(Dotted([10, 128, 0]), n);
    if n < 256 {
      var q: Quad := [10, 128, 0, n];
      RoutedByLastOctet(q);
      assert GetIpNum(Dotted(q)) == Some(n);
    }
    forall q: Quad ensures GetIpNum(Dotted(q)) != Some(n) || n < 256 {
      RoutedByLastOctet(q);
    }
  }

  lemma ScanOctet(k: byte, rest: seq<byte>, m: nat)
    requires m > 1 && ScanDotted(rest, m - 1).Some?
    ensures ScanDotted(Dec(k) + ([DOT] + rest), m) == Some([k] + ScanDotted(rest, m - 1).value)
  {
    ScanDec([], k, [DOT] + rest);
    Units(Dec(k) + ([DOT] + rest));
    assert ([DOT] + rest)[1..] == rest;
  }

  lemma Regroup(a: seq<byte>, b: seq<byte>, c: seq<byte>, d: seq<byte>, e: seq<byte>, dot: seq<byte>)
    ensures ((a + (dot + (b + (dot + c)))) + (dot + d)) + e == a + (dot + (b + (dot + (c + (dot + (d + e))))))
  {
  }

  lemma AddressParts(n: nat)
    ensures AddressText(n) == (Dec(10) + ([DOT] + (Dec(128) + ([DOT] + Dec(0))))) + ([DOT] + Dec(n))
  {
    assert [10, 128, 0][1..] == [128, 0] && [128, 0][1..] == [0];
    assert Dotted([0]) == Dec(0);
    assert Dotted([128, 0]) == Dec(128) + ([DOT] + Dotted([0]));
  }

  lemma ScanLast(n: nat, after: seq<byte>)
    requires after == [] || !IsDigit(after[0])
    ensures ScanDotted(Dec(n) + after, 1) == Some([Octet(n)])
  {
    ScanDec([], n, after);
    Units(Dec(n) + after);
  }

  /** The client that holds number `n` takes 10.128.0.(n mod 256) for its address, whatever follows the address in the
      reply. */
  lemma ToldAddress(n: nat, after: seq<byte>)
    requires after == [] || !(48 <= after[0] <= 57)
    ensures ScanQuad(AddressText(n) + after) == Some([10, 128, 0, n % 256])
  {
    var s1 := Dec(n) + after;
    var s2 := Dec(0) + ([DOT] + s1);
    ScanLast(n, after);
    ScanOctet(0, s1, 2);
    ScanOctet(128, s2, 3);
    ScanOctet(10, Dec(128) + ([DOT] + s2), 4);
    assert [10] + ([128] + ([0] + [Octet(n)])) == [10, 128, 0, n % 256];
    AddressParts(n);
    Regroup(Dec(10), Dec(128), Dec(0), Dec(n), after, [DOT]);
  }

  lemma RoutedByFourth(q: Quad)
    ensures GetIpNum(Dotted(q)) == Some(q[3])
  {
    RoutedByLastOctet(q);
  }

  /** Packets for the address it takes are routed by its number exactly when the number is below 256. */
  lemma ToldIsRoutedIff(n: nat, after: seq<byte>, q: Quad)
    requires after == [] || !(48 <= after[0] <= 57)
    requires ScanQuad(AddressText(n) + after) == Some(q)
    ensures GetIpNum(Dotted(q)) == Some(n) <==> n < 256
  {
    ToldAddress(n, after);
    RoutedByFourth(q);
  }

  // ----- the critical sections

  /** The static `status` and `connections`; each method is one critical section. */
  class IpTable {
    const status: array<bool>
    var connections: map<int, nat>

    ghost predicate Valid()
      reads this
    {
      status.Length == LAST + 1
    }

    ghost function Taken(): set<int>
      reads this, status
    {
      set n | 0 <= n < status.Length && status[n]
    }

    constructor ()
      ensures Valid() && fresh(status) && Taken() == {} && connections == map[]
    {
      status := new bool[LAST + 1](_ => false);
      connections := map[];
    }

    /** `getFreeIP`; without a free number the program exits, here -1. */
    method GetFreeIP() returns (num: int)
      requires Valid()
      ensures num == -1 ==> forall k | 2 <= k <= 1023 :: k in Taken()
      ensures num != -1 ==> LeastFree(Taken(), num)
      ensures num != -1 ==> 2 <= num <= 1023 && !status[num] && forall k | 2 <= k < num :: status[k]
    {
      for i := 2 to LAST + 1
        invariant forall k | 2 <= k < i :: k in Taken() && status[k]
      {
        if !status[i] {
          return i;
        }
      }
      return -1;
    }

    /** The number of an address is an index of `status`. */
    ghost predicate Indexes(addr: seq<byte>)
      reads this
    {
      GetIpNum(addr).Some? && 0 <= GetIpNum(addr).value < status.Length
    }

    /** `setIpStatus`; `ok` is its assert, and `None` the exception. */
    method SetIpStatus(addr: seq<byte>, s: bool) returns (ok: Option<bool>)
      requires Valid() && (GetIpNum(addr).Some? ==> Indexes(addr))
      modifies status
      ensures ok.None? <==> GetIpNum(addr).None?
      ensures ok.Some? ==> (ok.value <==> (s <==> GetIpNum(addr).value !in old(Taken())))
      ensures Taken() == if ok != Some(true) then old(Taken())
                         else if s then old(Taken()) + {GetIpNum(addr).value}
                         else old(Taken()) - {GetIpNum(addr).value}
    {
      var num := IpNum(addr);
      if num.None? {
        return None;
      }
      ok := Some(status[num.value] != s);
      if status[num.value] != s {
        status[num.value] := s;
      }
    }

    /** `getConnectionByIp`; -1 for the null pointer. */
    method GetConnectionByIp(addr: seq<byte>) returns (c: int)
      requires Valid() && Indexes(addr)
      ensures c == Found(Taken(), connections, GetIpNum(addr).value)
      ensures var num := GetIpNum(addr).value;
              && (!status[num] || num !in connections ==> c == -1)
              && (status[num] && num in connections ==> c == connections[num])
    {
      var num := IpNum(addr);
      c := -1;
      if status[num.value] && num.value in connections {
        c := connections[num.value];
      }
    }

    /** `setConnectionWithIp`; `stuck` is the call of `setIpStatus` with the mutex held. */
    method SetConnectionWithIp(addr: seq<byte>, c: nat) returns (stuck: bool)
      requires Valid() && Indexes(addr)
      modifies `connections
      ensures stuck <==> GetIpNum(addr).value !in Taken()
      ensures connections == if stuck then old(connections) else old(connections)[GetIpNum(addr).value := c]
    {
      var num := IpNum(addr);
      stuck := !status[num.value];
      if !stuck {
        connections := connections[num.value := c];
      }
    }

    /** `tunReader` on one packet, up to the queue it picks: only the last octet of the destination counts.
        `substr` throws, here `None`, for a packet that ends before the destination; one that ends in its last
        octet reads the terminator of the string instead. */
    method Route(packet: seq<byte>) returns (c: Option<int>)
      requires Valid() && (|packet| < 16 || |packet| >= 19)
      ensures |packet| < 16 <==> c.None?
      ensures c.Some? ==> c.value == Found(Taken(), connections, if |packet| == 19 then 0 else packet[19])
      ensures |packet| > 19 && !(status[packet[19]] && packet[19] as int in connections) ==> c == Some(-1)
      ensures |packet| > 19 && status[packet[19]] && packet[19] as int in connections ==>
                c == Some(connections[packet[19]])
    {
      if |packet| < 16 {
        return None;
      }
      var q: Quad := (packet + [NUL])[16..20];
      RoutedByLastOctet(q);
      var found := GetConnectionByIp(Dotted(q));
      c := Some(found);
    }
  }
}
