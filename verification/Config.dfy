/** The address reply: the server prints dotted quads separated by spaces, the client scans them back. */
module Config {
  import opened Wire
  import opened Wrappers
  import opened Sequences

  const NUL: byte := 0
  const SPACE: byte := 32
  const DOT: byte := 46

  /** The four octets of an address. */
  type Quad = q: seq<byte> | |q| == 4 witness [0, 0, 0, 0]

  predicate IsDigit(c: byte) {
    48 <= c <= 57
  }

  predicate IsSpace(c: byte) {
    c == SPACE || 9 <= c <= 13
  }

  predicate IsStop(c: byte) {
    c == NUL || c == SPACE
  }

  // ----- printing

  /** `%d` of a non-negative `int`. */
  function Dec(n: nat): (s: seq<byte>)
    ensures s != []
  {
    if n < 10 then [48 + n] else Dec(n / 10) + [48 + n % 10]
  }

  function Dotted(q: seq<byte>): (s: seq<byte>)
    requires q != []
    ensures s != []
  {
    if |q| == 1 then Dec(q[0]) else Dec(q[0]) + ([DOT] + Dotted(q[1..]))
  }

  function SpacedText(qs: seq<Quad>): seq<byte> {
    if qs == [] then [] else [SPACE] + Dotted(qs[0]) + SpacedText(qs[1..])
  }

  /** The text of an address reply; the server does not send a terminator with it. */
  function ConfigText(qs: seq<Quad>): seq<byte>
    requires qs != []
  {
    Dotted(qs[0]) + SpacedText(qs[1..])
  }

  /** The bytes of a text. */
  function Ascii(s: string): (b: seq<byte>)
    ensures |b| == |s| && forall i | 0 <= i < |s| :: b[i] == s[i] as int % 256
  {
    seq(|s|, i requires 0 <= i < |s| => s[i] as int % 256)
  }

  lemma QuadText(q: Quad)
    ensures Dotted(q) == Dec(q[0]) + [46] + Dec(q[1]) + [46] + Dec(q[2]) + [46] + Dec(q[3])
  {
    assert q[1..][1..] == q[2..] && q[2..][1..] == q[3..];
    assert Dotted(q[3..]) == Dec(q[3]);
    assert Dotted(q[2..]) == Dec(q[2]) + ([46] + Dec(q[3]));
    assert Dotted(q[1..]) == Dec(q[1]) + ([46] + Dotted(q[2..]));
  }

  lemma SpacedOne(qs: seq<Quad>, k: nat, s: string)
    requires k < |qs| && Dotted(qs[k]) == Ascii(s)
    ensures SpacedText(qs[k..]) == [32] + Ascii(s) + SpacedText(qs[k + 1..])
  {
    assert qs[k..][1..] == qs[k + 1..];
  }

  lemma TextOfFive(qs: seq<Quad>, b: string, c: string, d: string, e: string)
    requires |qs| == 5 && Dotted(qs[1]) == Ascii(b) && Dotted(qs[2]) == Ascii(c)
    requires Dotted(qs[3]) == Ascii(d) && Dotted(qs[4]) == Ascii(e)
    ensures ConfigText(qs)
         == Dotted(qs[0]) + ([32] + Ascii(b) + ([32] + Ascii(c) + ([32] + Ascii(d) + ([32] + Ascii(e)))))
  {
    SpacedOne(qs, 4, e);
    SpacedOne(qs, 3, d);
    SpacedOne(qs, 2, c);
    SpacedOne(qs, 1, b);
    Units([32] + Ascii(e));
  }

  lemma {:induction false} DecIsShort(n: byte)
    ensures |Dec(n)| <= 3
  {
    assert |Dec(n / 100)| == 1;
    if n >= 10 {
      assert Dec(n) == Dec(n / 10) + [48 + n % 10];
    }
  }

  lemma {:induction false} DottedIsShort(q: seq<byte>)
    requires q != []
    ensures |Dotted(q)| <= 4 * |q|
    decreases |q|
  {
    DecIsShort(q[0]);
    if |q| > 1 {
      DottedIsShort(q[1..]);
    }
  }

  lemma {:induction false} SpacedIsShort(qs: seq<Quad>)
    ensures |SpacedText(qs)| <= 17 * |qs|
  {
    if qs != [] {
      DottedIsShort(qs[0]);
      SpacedIsShort(qs[1..]);
    }
  }

  lemma TextIsShort(qs: seq<Quad>)
    requires qs != []
    ensures |ConfigText(qs)| <= 17 * |qs|
  {
    DottedIsShort(qs[0]);
    SpacedIsShort(qs[1..]);
  }

  // ----- scanning

  /** A run of decimal digits, as `%d` accumulates it, and the text after the run. */
  function Digits(s: seq<byte>, acc: int): (int, seq<byte>)
    decreases |s|
  {
    if s != [] && IsDigit(s[0]) then Digits(s[1..], 10 * acc + (s[0] - 48) as int) else (acc, s)
  }

  function SkipSpaces(s: seq<byte>): (r: seq<byte>)
    ensures |r| <= |s|
  {
    if s != [] && IsSpace(s[0]) then SkipSpaces(s[1..]) else s
  }

  /** `%d`: blanks, an optional sign, at least one digit. */
  function ScanInt(s: seq<byte>): Option<(int, seq<byte>)> {
    var t := SkipSpaces(s);
    var negative := t != [] && t[0] == 45;
    var u := if t != [] && (t[0] == 45 || t[0] == 43) then t[1..] else t;
    if u == [] || !IsDigit(u[0]) then None
    else
      var (n, rest) := Digits(u, 0);
      Some((if negative then -n else n, rest))
  }

  function ScanDot(s: seq<byte>): Option<seq<byte>> {
    if s != [] && s[0] == DOT then Some(s[1..]) else None
  }

  /** The cast of a scanned `int` to `uint8_t`. */
  function Octet(n: int): byte {
    n % 256
  }

  /** `sscanf` with `n` directives `%d` separated by dots, and the casts of what it scanned. */
  function ScanDotted(s: seq<byte>, n: nat): (q: Option<seq<byte>>)
    requires n > 0
    ensures q.Some? ==> |q.value| == n
    decreases n
  {
    var (a, s1) :- ScanInt(s);
    if n == 1 then Some([Octet(a)])
    else
      var s2 :- ScanDot(s1);
      var more :- ScanDotted(s2, n - 1);
      Some([Octet(a)] + more)
  }

  /** `sscanf(ptr, "%d.%d.%d.%d", …)`; `None` when it scans fewer than four numbers. */
  function ScanQuad(s: seq<byte>): (q: Option<Quad>) {
    var q :- ScanDotted(s, 4);
    Some(q)
  }

  /** The text from the first blank or terminator on. */
  function ToStop(s: seq<byte>): (r: seq<byte>)
    ensures |r| <= |s|
  {
    if s == [] || IsStop(s[0]) then s else ToStop(s[1..])
  }

  /** The pointer `READ_IP` returns: it steps over one character, then walks to a blank or terminator. */
  function Advance(s: seq<byte>): (r: seq<byte>)
    requires s != []
    ensures |r| < |s|
  {
    ToStop(s[1..])
  }

  /** One call of `READ_IP` for each of `n` addresses. */
  function ReadMany(s: seq<byte>, n: nat): (qs: Option<seq<Quad>>)
    ensures qs.Some? ==> |qs.value| == n
    decreases n
  {
    if n == 0 then Some([])
    else if s == [] then None
    else
      var q :- ScanQuad(s);
      var qs :- ReadMany(Advance(s), n - 1);
      Some([q] + qs)
  }

  /** The first blank or terminator behind the first character is at `k`. */
  predicate FirstStop(memory: seq<byte>, k: nat) {
    && 1 <= k < |memory| && (memory[k] == 0 || memory[k] == 32)
    && forall j | 1 <= j < k :: memory[j] != 0 && memory[j] != 32
  }

  /** `READ_IP`: `memory` is what the pointer can see; the loop must meet a blank or a terminator in it. */
  method ReadIp(memory: seq<byte>) returns (ip: Option<Quad>, next: seq<byte>)
    requires memory != [] && exists c | c in memory[1..] :: IsStop(c)
    ensures ip == ScanQuad(memory)
    ensures next == Advance(memory) && next != [] && IsStop(next[0])
    ensures exists k: nat :: FirstStop(memory, k) && next == memory[k..]
  {
    ip := ScanQuad(memory);
    var at := 1;
    while !IsStop(memory[at])
      invariant 1 <= at < |memory|
      invariant forall j | 1 <= j < at :: memory[j] != 0 && memory[j] != 32
      invariant ToStop(memory[at..]) == Advance(memory)
      invariant exists c | c in memory[at..] :: IsStop(c)
      decreases |memory| - at
    {
      assert memory[at..] == [memory[at]] + memory[at + 1..];
      assert memory[at..][1..] == memory[at + 1..];
      at := at + 1;
    }
    assert FirstStop(memory, at);
    next := memory[at..];
  }

  /** Memory that ends in `z` terminators: there is always one to stop at. */
  predicate Ends(memory: seq<byte>, z: nat) {
    z <= |memory| && forall i | |memory| - z <= i < |memory| :: memory[i] == NUL
  }

  lemma {:induction false} ToStopEnds(s: seq<byte>, z: nat)
    requires Ends(s, z)
    ensures Ends(ToStop(s), z)
    decreases |s|
  {
    if z < |s| && !IsStop(s[0]) {
      ToStopEnds(s[1..], z);
    }
  }

  lemma EndsStop(s: seq<byte>, z: nat)
    requires z > 1 && Ends(s, z)
    ensures exists c | c in s[1..] :: IsStop(c)
  {
    assert s[1..][|s| - 2] == NUL;
    assert NUL in s[1..];
  }

  lemma AdvanceEnds(s: seq<byte>, z: nat)
    requires z > 0 && Ends(s, z)
    ensures Ends(Advance(s), z - 1)
  {
    ToStopEnds(s[1..], z - 1);
  }

  // ----- the round trip

  lemma {:induction false} DecIsDigits(n: nat)
    ensures forall c | c in Dec(n) :: IsDigit(c)
  {
    if n >= 10 {
      DecIsDigits(n / 10);
    }
  }

  lemma {:induction false} DottedHasNoStop(q: seq<byte>)
    requires q != []
    ensures forall c | c in Dotted(q) :: !IsStop(c)
    decreases |q|
  {
    DecIsDigits(q[0]);
    if |q| > 1 {
      DottedHasNoStop(q[1..]);
    }
  }

  lemma DigitsStep(c: byte, s: seq<byte>, acc: int)
    requires IsDigit(c)
    ensures Digits([c] + s, acc) == Digits(s, 10 * acc + (c as int - 48))
  {
    assert ([c] + s)[1..] == s;
  }

  lemma {:induction false} DigitsOfDec(n: nat, t: seq<byte>)
    ensures Digits(Dec(n) + t, 0) == Digits(t, n)
  {
    var k := 48 + n % 10;
    DigitsStep(k, t, n / 10);
    if n >= 10 {
      DigitsOfDec(n / 10, [k] + t);
      Associative(Dec(n / 10), [k], t);
    }
  }

  lemma ScanNumber(lead: seq<byte>, n: nat, after: seq<byte>)
    requires lead == [] || lead == [SPACE]
    ensures ScanInt(lead + (Dec(n) + after)) == Some(Digits(Dec(n) + after, 0))
  {
    var t := Dec(n) + after;
    DecIsDigits(n);
    assert t[0] == Dec(n)[0] && IsDigit(t[0]);
    assert SkipSpaces(t) == t;
    if lead == [] {
      assert lead + t == t;
    } else {
      HeadAndTail(lead, t);
      assert lead[1..] + t == t;
    }
    var (v, rest) := Digits(t, 0);
    assert ScanInt(lead + t) == Some((v, rest));
  }

  lemma {:induction false} SkipSpacesAll(lead: seq<byte>, s: seq<byte>)
    requires (forall i | 0 <= i < |lead| :: lead[i] == 32 || 9 <= lead[i] <= 13) && s != [] && !IsSpace(s[0])
    ensures SkipSpaces(lead + s) == s
  {
    if lead == [] {
      Units(s);
    } else {
      HeadAndTail(lead, s);
      SkipSpacesAll(lead[1..], s);
    }
  }

  /** What `%d` makes of white space and a decimal number. */
  lemma ScanUnsigned(lead: seq<byte>, n: nat, after: seq<byte>)
    requires forall i | 0 <= i < |lead| :: lead[i] == 32 || 9 <= lead[i] <= 13
    requires after == [] || !(48 <= after[0] <= 57)
    ensures ScanInt(lead + (Dec(n) + after)) == Some((n, after))
  {
    var t := Dec(n) + after;
    DecIsDigits(n);
    assert t[0] == Dec(n)[0] && IsDigit(t[0]);
    SkipSpacesAll(lead, t);
    DigitsOfDec(n, after);
  }

  /** And with a plus (43) or minus (45) in front of the number. */
  lemma ScanSigned(lead: seq<byte>, sign: byte, n: nat, after: seq<byte>)
    requires forall i | 0 <= i < |lead| :: lead[i] == 32 || 9 <= lead[i] <= 13
    requires sign == 43 || sign == 45
    requires after == [] || !(48 <= after[0] <= 57)
    ensures ScanInt(lead + ([sign] + (Dec(n) + after))) == Some((if sign == 45 then -(n as int) else n, after))
  {
    var t := Dec(n) + after;
    DecIsDigits(n);
    assert t[0] == Dec(n)[0] && IsDigit(t[0]);
    assert ([sign] + t)[0] == sign && ([sign] + t)[1..] == t;
    SkipSpacesAll(lead, [sign] + t);
    DigitsOfDec(n, after);
  }

  /** And of text in which no number stands there. */
  lemma ScanNothing(lead: seq<byte>, s: seq<byte>)
    requires forall i | 0 <= i < |lead| :: lead[i] == 32 || 9 <= lead[i] <= 13
    requires s == [] || !(48 <= s[0] <= 57 || s[0] == 43 || s[0] == 45 || s[0] == 32 || 9 <= s[0] <= 13)
    ensures ScanInt(lead + s) == None
  {
    if s == [] {
      SkipSpacesNothing(lead);
      Units(lead);
    } else {
      SkipSpacesAll(lead, s);
    }
  }

  lemma {:induction false} SkipSpacesNothing(lead: seq<byte>)
    requires forall i | 0 <= i < |lead| :: lead[i] == 32 || 9 <= lead[i] <= 13
    ensures SkipSpaces(lead) == []
  {
    if lead != [] {
      SkipSpacesNothing(lead[1..]);
    }
  }

  lemma ScanDec(lead: seq<byte>, n: nat, after: seq<byte>)
    requires lead == [] || lead == [SPACE]
    requires after == [] || !IsDigit(after[0])
    ensures ScanInt(lead + (Dec(n) + after)) == Some((n, after))
  {
    ScanNumber(lead, n, after);
    DigitsOfDec(n, after);
  }

  /** What the last octet becomes when the text `after` follows its digits directly. */
  function Grown(q: seq<byte>, after: seq<byte>): (r: seq<byte>)
    requires q != []
    ensures |r| == |q|
  {
    q[..|q| - 1] + [Octet(Digits(Dec(q[|q| - 1]) + after, 0).0)]
  }

  lemma NotGrown(q: seq<byte>, after: seq<byte>)
    requires q != [] && (after == [] || !IsDigit(after[0]))
    ensures Grown(q, after) == q
  {
    DigitsOfDec(q[|q| - 1], after);
    assert Octet(q[|q| - 1]) == q[|q| - 1];
  }

  lemma GrownCons(q: seq<byte>, after: seq<byte>)
    requires |q| > 1
    ensures [Octet(q[0])] + Grown(q[1..], after) == Grown(q, after)
  {
    assert q[1..][|q| - 2] == q[|q| - 1];
  }

  /** Scanning at a printed address, after at most one blank, recovers all octets but perhaps the last,
      which takes in the digits that follow it. */
  lemma {:induction false} ScanPrinted(lead: seq<byte>, q: seq<byte>, after: seq<byte>)
    requires lead == [] || lead == [SPACE]
    requires q != []
    ensures ScanDotted(lead + (Dotted(q) + after), |q|) == Some(Grown(q, after))
    decreases |q|
  {
    if |q| == 1 {
      ScanNumber(lead, q[0], after);
      assert Dotted(q) == Dec(q[0]);
      assert Grown(q, after) == [Octet(Digits(Dec(q[0]) + after, 0).0)];
    } else {
      var more := Dotted(q[1..]) + after;
      ScanDec(lead, q[0], [DOT] + more);
      Associative(Dec(q[0]), [DOT] + Dotted(q[1..]), after);
      Associative([DOT], Dotted(q[1..]), after);
      assert Dotted(q) + after == Dec(q[0]) + ([DOT] + more);
      assert ([DOT] + more)[1..] == more;
      ScanPrinted([], q[1..], after);
      assert [] + more == more;
      GrownCons(q, after);
    }
  }

  lemma {:induction false} ToStopSkips(s: seq<byte>, after: seq<byte>)
    requires forall c | c in s :: !IsStop(c)
    requires after != [] && IsStop(after[0])
    ensures ToStop(s + after) == after
  {
    if s == [] {
      assert s + after == after;
    } else {
      HeadAndTail(s, after);
      ToStopSkips(s[1..], after);
    }
  }

  lemma AdvancePrinted(lead: seq<byte>, q: Quad, after: seq<byte>)
    requires lead == [] || lead == [SPACE]
    requires after != [] && IsStop(after[0])
    ensures Advance(lead + (Dotted(q) + after)) == after
  {
    var p := Dotted(q);
    DottedHasNoStop(q);
    if lead == [] {
      assert lead + (p + after) == p + after;
      HeadAndTail(p, after);
      ToStopSkips(p[1..], after);
    } else {
      HeadAndTail(lead, p + after);
      assert lead[1..] + (p + after) == p + after;
      ToStopSkips(p, after);
    }
  }

  function GrownLast(qs: seq<Quad>, after: seq<byte>): seq<Quad> {
    if qs == [] then [] else qs[..|qs| - 1] + [Grown(qs[|qs| - 1], after)]
  }

  lemma GrownLastCons(qs: seq<Quad>, after: seq<byte>)
    requires |qs| > 1
    ensures [qs[0]] + GrownLast(qs[1..], after) == GrownLast(qs, after)
  {
    assert qs[1..][|qs| - 2] == qs[|qs| - 1];
  }

  lemma ReadStep(lead: seq<byte>, qs: seq<Quad>, after: seq<byte>)
    requires lead == [] || lead == [SPACE]
    requires qs != [] && after != []
    requires ReadMany(SpacedText(qs[1..]) + after, |qs| - 1) == Some(GrownLast(qs[1..], after))
    ensures ReadMany(lead + (Dotted(qs[0]) + (SpacedText(qs[1..]) + after)), |qs|)
         == Some(GrownLast(qs, after))
  {
    var more := SpacedText(qs[1..]) + after;
    ScanPrinted(lead, qs[0], more);
    if |qs| == 1 {
      assert more == after;
      assert [Grown(qs[0], after)] + [] == GrownLast(qs, after);
    } else {
      assert more[0] == SPACE;
      NotGrown(qs[0], more);
      AdvancePrinted(lead, qs[0], more);
      GrownLastCons(qs, after);
    }
  }

  lemma {:induction false} ReadSpaced(qs: seq<Quad>, after: seq<byte>)
    requires after != []
    ensures ReadMany(SpacedText(qs) + after, |qs|) == Some(GrownLast(qs, after))
    decreases |qs|
  {
    if qs != [] {
      var more := SpacedText(qs[1..]);
      ReadSpaced(qs[1..], after);
      ReadStep([SPACE], qs, after);
      Associative([SPACE] + Dotted(qs[0]), more, after);
      Associative([SPACE], Dotted(qs[0]), more + after);
    }
  }

  lemma ReadText(qs: seq<Quad>, after: seq<byte>)
    requires qs != [] && after != []
    ensures ReadMany(ConfigText(qs) + after, |qs|) == Some(GrownLast(qs, after))
  {
    ReadSpaced(qs[1..], after);
    ReadStep([], qs, after);
    Associative(Dotted(qs[0]), SpacedText(qs[1..]), after);
    assert [] + (ConfigText(qs) + after) == ConfigText(qs) + after;
  }

  lemma NotGrownLast(qs: seq<Quad>, after: seq<byte>)
    requires qs != [] && (after == [] || !IsDigit(after[0]))
    ensures GrownLast(qs, after) == qs
  {
    NotGrown(qs[|qs| - 1], after);
    assert qs[..|qs| - 1] + [qs[|qs| - 1]] == qs;
  }

  /** Round trip: any list of addresses, printed with blanks between them and followed by anything but a
      digit, is recovered by one `READ_IP` per address. */
  lemma ConfigRoundTrip(qs: seq<Quad>, after: seq<byte>)
    requires qs != [] && after != [] && !IsDigit(after[0])
    ensures ReadMany(ConfigText(qs) + after, |qs|) == Some(qs)
  {
    ReadText(qs, after);
    NotGrownLast(qs, after);
  }

  // ----- the reply is sent without a terminator: exactly when that is harmless

  lemma DigitsExtend(n: nat, c: byte, t: seq<byte>)
    requires IsDigit(c)
    ensures Digits(Dec(n) + ([c] + t), 0) == Digits(t, 10 * n + (c as int - 48))
  {
    DigitsOfDec(n, [c] + t);
    DigitsStep(c, t, n);
  }

  lemma OneMoreDigit(d: byte, v: int)
    requires IsDigit(d)
    ensures Digits([d, NUL], v).0 == 10 * v + (d as int - 48)
  {
    DigitsStep(d, [NUL], v);
    assert [d] + [NUL] == [d, NUL];
  }

  /** For each octet and following digit there is a continuation that corrupts the octet. */
  lemma SomeContinuationCorrupts(n: byte, c: byte) returns (t: seq<byte>)
    requires IsDigit(c)
    ensures Octet(Digits(Dec(n) + ([c] + t), 0).0) != n
  {
    var v: int := 10 * n as int + (c as int - 48);
    if v % 256 != n as int {
      t := [NUL];
    } else if v == 0 {
      t := [49, NUL];
      OneMoreDigit(49, v);
    } else {
      t := [48, NUL];
      OneMoreDigit(48, v);
      TenfoldDiffers(n, v);
    }
    DigitsExtend(n, c, t);
  }

  lemma TenfoldDiffers(n: int, v: int)
    requires 0 <= n < 256 && 10 * n <= v <= 10 * n + 9 && v % 256 == n && v != 0
    ensures 10 * v % 256 != n
  {
    var k := v / 256;
    assert v == 256 * k + n && 0 <= k <= 9;
  }

  lemma GrownLastDiffers(qs: seq<Quad>, after: seq<byte>)
    requires qs != []
    requires var n := qs[|qs| - 1][3]; Octet(Digits(Dec(n) + after, 0).0) != n
    ensures GrownLast(qs, after) != qs
  {
    var last := qs[|qs| - 1];
    assert Grown(last, after)[3] != last[3];
    assert GrownLast(qs, after)[|qs| - 1] == Grown(last, after);
  }

  /** The reply carries no terminator, so the client scans into whatever memory follows. The addresses are
      read back whatever that memory holds exactly when its first byte is not a digit. */
  lemma TerminatorExact(qs: seq<Quad>, c: byte)
    requires qs != []
    ensures (forall t: seq<byte> :: ReadMany(ConfigText(qs) + ([c] + t), |qs|) == Some(qs)) <==> !IsDigit(c)
  {
    if IsDigit(c) {
      var t := SomeContinuationCorrupts(qs[|qs| - 1][3], c);
      GrownLastDiffers(qs, [c] + t);
      ReadText(qs, [c] + t);
    } else {
      forall t: seq<byte> ensures ReadMany(ConfigText(qs) + ([c] + t), |qs|) == Some(qs) {
        ConfigRoundTrip(qs, [c] + t);
      }
    }
  }
}
