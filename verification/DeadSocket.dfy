/** What becomes of a connection of the threaded server whose socket has died, so that every further read and write
    on it fails: the reader thread dispatches the last header again and again, the keep-alive thread counts until
    its next write. Whether the reader ever gets out, and so releases the address, depends on that header. */
module DeadSocket {
  import opened Wire

  const TIMEOUT := 60
  const BEAT_EVERY := 20

  /** Where the keep-alive thread is: between two counts, between a count and the test that follows, or ended. */
  datatype Keeper = Sleeping | Counted | Stopped

  /** Where the reader thread is: at the guard of its loop, in the read of a header, or at the label that releases
      the address. */
  datatype Reader = AtGuard | InRead | Released

  /** `kind` and `length` are what the message structure holds. A failing read does not reach the type, but the
      bytes of a header before the failure may have replaced a part of the length. */
  datatype State = State(kind: byte, length: int, count: int, keeper: Keeper, reader: Reader)

  /** The socket dies while the reader waits for a header: by itself, with the keep-alive thread still counting, or
      closed by that thread after a failed write or at the end of its count. A request is never what the structure
      holds, its reply has overwritten it. */
  predicate Dead(s: State) {
    && s.reader == InRead && s.kind != IP_REQUEST && s.length >= 0
    && 0 <= s.count <= TIMEOUT
    && ((s.keeper == Sleeping && s.count < TIMEOUT) || (s.keeper == Stopped && s.count % BEAT_EVERY == 0))
  }

  /** The reader's passes: a payload cannot be read and leads to the label, a keep-alive clears the count. */
  function ReaderStep(s: State): State
    requires s.reader != Released
  {
    if s.reader == AtGuard then s.(reader := if s.count < TIMEOUT then InRead else Released)
    else if s.kind == DATA_UP && s.length > HEADER then s.(reader := Released)
    else s.(reader := AtGuard, count := if s.kind == KEEPALIVE then 0 else s.count)
  }

  /** `keepLiveThread`: it sends at every twentieth count, which fails, and also ends at the sixtieth. */
  function KeeperStep(s: State): State
    requires s.keeper != Stopped
  {
    if s.keeper == Sleeping then
      if s.count < TIMEOUT then s.(count := s.count + 1, keeper := Counted) else s.(keeper := Stopped)
    else s.(keeper := if s.count % BEAT_EVERY == 0 then Stopped else Sleeping)
  }

  predicate Step(s: State, s': State) {
    || (s.reader != Released && s' == ReaderStep(s))
    || (s.keeper != Stopped && s' == KeeperStep(s))
  }

  predicate Path(ss: seq<State>) {
    && ss != [] && Dead(ss[0])
    && forall i | 0 <= i < |ss| - 1 :: Step(ss[i], ss[i + 1])
  }

  /** The count is sixty, or gets there before a write. */
  predicate Expires(s: State) {
    s.kind != KEEPALIVE && (s.count == TIMEOUT || (s.keeper == Sleeping && s.count >= TIMEOUT - BEAT_EVERY))
  }

  /** A packet whose payload cannot be read; or anything but a keep-alive, late enough. */
  predicate GetsOut(s: State) {
    (s.kind == DATA_UP && s.length > HEADER) || Expires(s)
  }

  // ----- never released

  /** The reader goes round for ever: a keep-alive keeps clearing the count, and otherwise the count stops short of
      sixty at the first write. `first` is true until the reader has dispatched the old header once. */
  predicate Trapped(s: State, first: bool) {
    && s.reader != Released && !(s.kind == DATA_UP && s.length > HEADER)
    && if s.kind == KEEPALIVE then
         if first then s.reader == InRead else Below(s, BEAT_EVERY)
       else Below(s, TIMEOUT - BEAT_EVERY)
  }

  /** The count is at most `top`, and the keep-alive thread will not take it any further. */
  predicate Below(s: State, top: int) {
    && 0 <= s.count <= top
    && (s.keeper == Sleeping ==> s.count < top)
  }

  lemma SleepingBelow(s: State, top: int)
    requires Below(s, top) && s.keeper != Stopped && (top == BEAT_EVERY || top == TIMEOUT - BEAT_EVERY)
    ensures Below(KeeperStep(s), top)
  {
  }

  lemma TrappedStays(s: State, s': State, first: bool)
    requires Trapped(s, first) && Step(s, s') && (first ==> s.kind == KEEPALIVE)
    ensures Trapped(s', first) || Trapped(s', false)
  {
    if s.keeper != Stopped && s' == KeeperStep(s) {
      if !(s.kind == KEEPALIVE && first) {
        SleepingBelow(s, if s.kind == KEEPALIVE then BEAT_EVERY else TIMEOUT - BEAT_EVERY);
      }
    }
  }

  lemma {:induction false} NeverReleased(ss: seq<State>, n: nat)
    requires Path(ss) && n < |ss| && !GetsOut(ss[0])
    ensures Trapped(ss[n], true) || Trapped(ss[n], false)
    ensures ss[n].kind == ss[0].kind && ss[n].length == ss[0].length
    ensures ss[n].kind != KEEPALIVE ==> Trapped(ss[n], false)
  {
    if n > 0 {
      NeverReleased(ss, n - 1);
      var s := ss[n - 1];
      TrappedStays(s, ss[n], s.kind == KEEPALIVE && !Trapped(s, false));
    }
  }

  // ----- released

  lemma Extend(ss: seq<State>, s': State) returns (ss': seq<State>)
    requires Path(ss) && Step(ss[|ss| - 1], s')
    ensures Path(ss') && ss'[0] == ss[0] && ss'[|ss'| - 1] == s'
  {
    ss' := ss + [s'];
  }

  /** The count reaches sixty when no write comes before. */
  lemma {:induction false} CountUp(ss: seq<State>) returns (ss': seq<State>)
    requires Path(ss)
    requires var s := ss[|ss| - 1];
             s.reader == InRead && s.keeper == Sleeping && TIMEOUT - BEAT_EVERY <= s.count < TIMEOUT
    ensures Path(ss') && ss'[0] == ss[0]
    ensures ss'[|ss'| - 1] == ss[|ss| - 1].(count := TIMEOUT, keeper := Counted)
    decreases TIMEOUT - ss[|ss| - 1].count
  {
    ss' := Extend(ss, KeeperStep(ss[|ss| - 1]));
    if ss'[|ss'| - 1].count < TIMEOUT {
      ss' := Extend(ss', KeeperStep(ss'[|ss'| - 1]));
      ss' := CountUp(ss');
    }
  }

  lemma SomeRelease(s: State) returns (ss: seq<State>)
    requires Dead(s) && GetsOut(s)
    ensures Path(ss) && ss[0] == s && ss[|ss| - 1].reader == Released
  {
    ss := [s];
    if !(s.kind == DATA_UP && s.length > HEADER) {
      if s.count < TIMEOUT {
        ss := CountUp(ss);
      }
      ss := Extend(ss, ReaderStep(ss[|ss| - 1]));
    }
    ss := Extend(ss, ReaderStep(ss[|ss| - 1]));
  }

  /** The address of a dead connection can be released exactly when the last message was a packet with a payload,
      or was no keep-alive and the count was sixty, or forty with the keep-alive thread still counting. */
  lemma ReleasedIff(s: State)
    requires Dead(s)
    ensures (exists ss: seq<State> :: Path(ss) && ss[0] == s && ss[|ss| - 1].reader == Released) <==>
            ((s.kind == 102 && s.length > 5)
             || (s.kind != 104 && (s.count == 60 || (s.keeper == Sleeping && s.count >= 40))))
  {
    if GetsOut(s) {
      var ss := SomeRelease(s);
    } else {
      forall ss: seq<State> | Path(ss) && ss[0] == s ensures ss[|ss| - 1].reader != Released {
        NeverReleased(ss, |ss| - 1);
      }
    }
  }

  // ----- and then it is released

  /** Bounds how often the keep-alive thread still steps; only a keep-alive makes it start again. */
  function Left(s: State): nat {
    if s.keeper == Stopped then 0
    else 2 * (if s.count <= TIMEOUT then TIMEOUT - s.count else 0) + (if s.keeper == Counted then 2 else 1)
  }

  /** On the way out: the count is at forty or more, and the keep-alive thread ends only at sixty. */
  predicate OnTheWay(s: State) {
    && s.kind != KEEPALIVE && TIMEOUT - BEAT_EVERY <= s.count <= TIMEOUT
    && (s.keeper == Counted ==> s.count > TIMEOUT - BEAT_EVERY)
    && (s.keeper == Stopped ==> s.count == TIMEOUT)
  }

  lemma OnTheWayStays(s: State, s': State)
    requires OnTheWay(s) && Step(s, s')
    ensures OnTheWay(s') && Left(s') <= Left(s)
    ensures s.keeper != Stopped && s' == KeeperStep(s) ==> Left(s') < Left(s)
  {
  }

  /** When it can be released it will be, however the two threads are scheduled: a payload lets the reader out at
      its next step; otherwise the keep-alive thread ends after at most forty-one more steps, and once it has ended
      the reader is let out as soon as it comes to its guard. */
  lemma {:induction false} ReleaseIsCertain(ss: seq<State>, n: nat)
    requires Path(ss) && n < |ss| && GetsOut(ss[0])
    ensures ss[0].kind == DATA_UP && ss[0].length > HEADER ==> ReaderStep(ss[0]).reader == Released
    ensures Expires(ss[0]) ==>
              && OnTheWay(ss[n]) && Left(ss[n]) <= Left(ss[0]) <= 41
              && (ss[n].keeper == Stopped && ss[n].reader == AtGuard ==> ReaderStep(ss[n]).reader == Released)
  {
    if n > 0 {
      ReleaseIsCertain(ss, n - 1);
      if Expires(ss[0]) {
        OnTheWayStays(ss[n - 1], ss[n]);
      }
    }
  }
}
