/** The 4over6 byte stream: five-byte headers, the drain loops as parsers, and what chunking cannot change. */
module Wire {
  import opened Sequences

  type byte = x: int | 0 <= x < 256

  const HEADER := 5
  const IP_REQUEST: byte := 100
  const IP_REPLY: byte := 101
  const DATA_UP: byte := 102
  const DATA_DOWN: byte := 103
  const KEEPALIVE: byte := 104

  datatype Frame = Frame(kind: byte, payload: seq<byte>)

  /** What one `read` or `write` answers: try again (no bytes, or `EAGAIN`), an error, or so many bytes. */
  datatype Answer = Again | Error | Took(n: nat)

  /** An answer that is not an error or a wish to try again is of some bytes. */
  predicate Progress(answers: seq<Answer>) {
    forall a | a in answers && a.Took? :: a.n > 0
  }

  /** Bytes a frame takes on the wire, which is also the value of its length field. */
  function Size(f: Frame): nat {
    HEADER + |f.payload|
  }

  /** The length field is a C `int`. */
  predicate Encodable(fs: seq<Frame>) {
    forall f | f in fs :: Size(f) < 0x8000_0000
  }

  // ----- little-endian 32-bit fields

  function Le32(n: int): (b: seq<byte>)
    requires 0 <= n < 0x1_0000_0000
    ensures |b| == 4
  {
    [n % 256, n / 256 % 256, n / 0x1_0000 % 256, n / 0x100_0000]
  }

  function U32(s: seq<byte>): (n: int)
    requires |s| >= 4
    ensures 0 <= n < 0x1_0000_0000
  {
    var b0: int, b1: int, b2: int, b3: int := s[0], s[1], s[2], s[3];
    b0 + 0x100 * b1 + 0x1_0000 * b2 + 0x100_0000 * b3
  }

  /** Two's complement reading of a 32-bit value. */
  function Int32(n: int): int {
    if n < 0x8000_0000 then n else n - 0x1_0000_0000
  }

  lemma U32OfLe32(n: int)
    requires 0 <= n < 0x1_0000_0000
    ensures U32(Le32(n)) == n
  {
    var b0: int, b1: int, b2: int, b3: int := n % 256, n / 256 % 256, n / 0x1_0000 % 256, n / 0x100_0000;
    assert n / 256 == n / 0x1_0000 * 256 + b1;
    assert n / 0x1_0000 == b3 * 256 + b2;
  }

  lemma Le32OfU32(s: seq<byte>)
    requires |s| >= 4
    ensures Le32(U32(s)) == s[..4]
  {
    var b0: int, b1: int, b2: int, b3: int := s[0], s[1], s[2], s[3];
    LowDigit(b0, b1 + 0x100 * b2 + 0x1_0000 * b3);
    LowDigit(b1, b2 + 0x100 * b3);
    LowDigit(b2, b3);
  }

  lemma LowDigit(low: int, high: int)
    requires 0 <= low < 256
    ensures (low + 0x100 * high) / 0x100 == high && (low + 0x100 * high) % 0x100 == low
  {
  }

  // ----- encoding

  function Encode(f: Frame): (s: seq<byte>)
    requires Size(f) < 0x8000_0000
    ensures |s| == Size(f)
  {
    Le32(Size(f)) + [f.kind] + f.payload
  }

  /** The layout of a message: its length, lowest byte first and counting the five bytes of the header, then its
      type and its payload. */
  lemma OnTheWire(f: Frame)
    requires Size(f) < 0x8000_0000
    ensures var s := Encode(f);
            && s[0] as int + 0x100 * s[1] as int + 0x1_0000 * s[2] as int + 0x100_0000 * s[3] as int == 5 + |f.payload|
            && s[4] == f.kind && s[5..] == f.payload
    ensures f.payload == [] ==> Encode(f) == [5, 0, 0, 0, f.kind]
  {
    U32OfLe32(Size(f));
  }

  function EncodeAll(fs: seq<Frame>): seq<byte>
    requires Encodable(fs)
  {
    if fs == [] then [] else Encode(fs[0]) + EncodeAll(fs[1..])
  }

  lemma EncodeAllCons(f: Frame, fs: seq<Frame>)
    requires Size(f) < 0x8000_0000 && Encodable(fs)
    ensures Encodable([f] + fs)
    ensures EncodeAll([f] + fs) == Encode(f) + EncodeAll(fs)
  {
    assert ([f] + fs)[1..] == fs;
  }

  lemma {:induction false} EncodeAllAppend(fs: seq<Frame>, gs: seq<Frame>)
    requires Encodable(fs) && Encodable(gs)
    ensures Encodable(fs + gs)
    ensures EncodeAll(fs + gs) == EncodeAll(fs) + EncodeAll(gs)
  {
    if fs == [] {
      assert fs + gs == gs;
    } else {
      HeadAndTail(fs, gs);
      EncodeAllAppend(fs[1..], gs);
      Associative(Encode(fs[0]), EncodeAll(fs[1..]), EncodeAll(gs));
    }
  }

  lemma EncodeAllStep(fs: seq<Frame>, f: Frame)
    requires Encodable(fs) && Size(f) < 0x8000_0000
    ensures Encodable(fs + [f]) && EncodeAll(fs + [f]) == EncodeAll(fs) + Encode(f)
  {
    EncodeAllAppend(fs, [f]);
    EncodeAllCons(f, []);
    Units([f]);
    Units(Encode(f));
  }

  /** The payloads of the frames of one kind. */
  function Payloads(fs: seq<Frame>, kind: byte): seq<seq<byte>>
    decreases |fs|
  {
    if fs == [] then []
    else Payloads(fs[..|fs| - 1], kind) + (if fs[|fs| - 1].kind == kind then [fs[|fs| - 1].payload] else [])
  }

  lemma PayloadsStep(fs: seq<Frame>, f: Frame, kind: byte)
    ensures Payloads(fs + [f], kind) == Payloads(fs, kind) + (if f.kind == kind then [f.payload] else [])
  {
    assert (fs + [f])[..|fs|] == fs;
  }

  lemma {:induction false} PayloadsAppend(fs: seq<Frame>, gs: seq<Frame>, kind: byte)
    ensures Payloads(fs + gs, kind) == Payloads(fs, kind) + Payloads(gs, kind)
    decreases |gs|
  {
    if gs == [] {
      Units(fs);
      Units(Payloads(fs, kind));
    } else {
      var front, g := gs[..|gs| - 1], gs[|gs| - 1];
      assert (fs + gs)[..|fs + gs| - 1] == fs + front;
      PayloadsAppend(fs, front, kind);
      Associative(Payloads(fs, kind), Payloads(front, kind), if g.kind == kind then [g.payload] else []);
    }
  }

  /** Address requests among frames. */
  function Requests(fs: seq<Frame>): nat
    decreases |fs|
  {
    if fs == [] then 0
    else Requests(fs[..|fs| - 1]) + (if fs[|fs| - 1].kind == IP_REQUEST then 1 else 0)
  }

  // ----- the drain loop

  /** The length field at the head of the buffer, as the signed `int` both ends of the C++ protocol read. */
  function HeadLength(s: seq<byte>): int
    requires |s| >= 4
  {
    Int32(U32(s))
  }

  /** What one run of a drain loop recognises: frames, the bytes left in the buffer, and whether the loop
      stopped because it needs more bytes (`sane`) rather than at a length field below five. */
  datatype Parsed = Parsed(frames: seq<Frame>, rest: seq<byte>, sane: bool) {
    function After(earlier: seq<Frame>): Parsed {
      Parsed(earlier + frames, rest, sane)
    }
  }

  /** The loop of `process_client` and `handle_socket`: both wait for a whole header, then for `length` bytes. */
  function Parse(s: seq<byte>): Parsed
    decreases |s|
  {
    if |s| < HEADER then Parsed([], s, true)
    else if HeadLength(s) < HEADER then Parsed([], s, false)
    else if |s| < HeadLength(s) then Parsed([], s, true)
    else Parse(s[HeadLength(s)..]).After([HeadFrame(s)])
  }

  function HeadFrame(s: seq<byte>): (f: Frame)
    requires |s| >= HEADER && HEADER <= HeadLength(s) <= |s|
    ensures Size(f) == HeadLength(s)
  {
    Frame(s[4], s[HEADER..HeadLength(s)])
  }

  /** The loop of `over6Handle`: it waits for four bytes only and reads the length as `uint32_t`. */
  function ParseUnsigned(s: seq<byte>): Parsed
    decreases |s|
  {
    if |s| < 4 then Parsed([], s, true)
    else if U32(s) < HEADER then Parsed([], s, false)
    else if |s| < U32(s) then Parsed([], s, true)
    else ParseUnsigned(s[U32(s)..]).After([Frame(s[4], s[HEADER..U32(s)])])
  }

  // ----- no byte is lost, nothing is invented

  lemma {:induction false} HeadFrameEncodes(s: seq<byte>)
    requires |s| >= HEADER && HEADER <= HeadLength(s) <= |s|
    ensures Encode(HeadFrame(s)) == s[..HeadLength(s)]
  {
    Le32OfU32(s);
    assert Le32(HeadLength(s)) == s[..4];
  }

  /** Conservation: the recognised frames followed by the residue are exactly the bytes received. */
  lemma {:induction false} Reassemble(s: seq<byte>)
    ensures Encodable(Parse(s).frames)
    ensures EncodeAll(Parse(s).frames) + Parse(s).rest == s
    decreases |s|
  {
    if |s| >= HEADER && HEADER <= HeadLength(s) <= |s| {
      var n := HeadLength(s);
      var p := Parse(s[n..]);
      Reassemble(s[n..]);
      HeadFrameEncodes(s);
      EncodeAllCons(HeadFrame(s), p.frames);
      Associative(Encode(HeadFrame(s)), EncodeAll(p.frames), p.rest);
      SplitAt(s, n);
    }
  }

  lemma HeadOfEncoded(f: Frame, t: seq<byte>)
    requires Size(f) < 0x8000_0000
    ensures var s := Encode(f) + t; HeadLength(s) == Size(f) && HeadFrame(s) == f && s[Size(f)..] == t
  {
    var s := Encode(f) + t;
    U32OfLe32(Size(f));
    assert s[..4] == Le32(Size(f));
    assert U32(s) == U32(s[..4]);
    assert s[HEADER..Size(f)] == f.payload;
  }

  lemma ParseOneFrame(f: Frame, t: seq<byte>)
    requires Size(f) < 0x8000_0000
    ensures Parse(Encode(f) + t) == Parse(t).After([f])
  {
    HeadOfEncoded(f, t);
  }

  /** Round trip: a stream of encoded frames parses back to those frames, whatever follows it. */
  lemma {:induction false} ParseEncoded(fs: seq<Frame>, t: seq<byte>)
    requires Encodable(fs)
    ensures Parse(EncodeAll(fs) + t) == Parse(t).After(fs)
  {
    if fs == [] {
      assert EncodeAll(fs) + t == t;
      assert [] + Parse(t).frames == Parse(t).frames;
    } else {
      var t' := EncodeAll(fs[1..]) + t;
      Associative(Encode(fs[0]), EncodeAll(fs[1..]), t);
      ParseOneFrame(fs[0], t');
      ParseEncoded(fs[1..], t);
      HeadAndTail(fs, Parse(t).frames);
    }
  }

  // ----- chunk independence

  /** Draining what is there and appending bytes later recognises what one drain of everything would. */
  lemma {:induction false} ParseAppend(s: seq<byte>, t: seq<byte>)
    ensures Parse(s + t) == Parse(Parse(s).rest + t).After(Parse(s).frames)
    decreases |s|
  {
    var whole := s + t;
    if |s| >= HEADER && HEADER <= HeadLength(s) <= |s| {
      var n := HeadLength(s);
      var p := Parse(s[n..]);
      assert U32(whole) == U32(s);
      assert whole[n..] == s[n..] + t;
      assert HeadFrame(whole) == HeadFrame(s);
      ParseAppend(s[n..], t);
      var q := Parse(p.rest + t);
      assert Parse(whole) == q.After(p.frames).After([HeadFrame(s)]);
      Associative([HeadFrame(s)], p.frames, q.frames);
    } else {
      assert [] + Parse(whole).frames == Parse(whole).frames;
    }
  }

  function Flat(chunks: seq<seq<byte>>): seq<byte> {
    if chunks == [] then [] else chunks[0] + Flat(chunks[1..])
  }

  lemma {:induction false} FlatStep(chunks: seq<seq<byte>>, n: nat)
    requires n < |chunks|
    ensures Flat(chunks[..n + 1]) == Flat(chunks[..n]) + chunks[n]
    decreases n
  {
    if n == 0 {
      assert chunks[..1] == [chunks[0]];
      assert Flat([chunks[0]]) == chunks[0] + [];
    } else {
      FlatStep(chunks[1..], n - 1);
      assert chunks[..n + 1][1..] == chunks[1..][..n];
      assert chunks[..n][1..] == chunks[1..][..n - 1];
      Associative(chunks[0], Flat(chunks[1..][..n - 1]), chunks[n]);
    }
  }

  /** A drain after every read: each chunk is appended to the residue the previous drain left. */
  function Feed(residue: seq<byte>, chunks: seq<seq<byte>>): Parsed
    decreases |chunks|
  {
    if chunks == [] then Parse(residue)
    else
      var p := Parse(residue + chunks[0]);
      Feed(p.rest, chunks[1..]).After(p.frames)
  }

  /** However the stream is cut into reads, the same frames are dispatched and the same residue is left. */
  lemma {:induction false} ChunkIndependence(residue: seq<byte>, chunks: seq<seq<byte>>)
    ensures Feed(residue, chunks) == Parse(residue + Flat(chunks))
    decreases |chunks|
  {
    if chunks == [] {
      assert residue + Flat(chunks) == residue;
    } else {
      var first := residue + chunks[0];
      ChunkIndependence(Parse(first).rest, chunks[1..]);
      ParseAppend(first, Flat(chunks[1..]));
      Associative(residue, chunks[0], Flat(chunks[1..]));
    }
  }

  /** At any moment the frames recognised so far are a prefix of the frames sent, and the loop never meets
      a malformed header once it has five bytes of it. */
  lemma PrefixOfStream(s: seq<byte>, t: seq<byte>, fs: seq<Frame>)
    requires Encodable(fs) && s + t == EncodeAll(fs)
    ensures Parse(s).frames <= fs && Parse(s).sane
    ensures t == [] ==> Parse(s) == Parsed(fs, [], true)
  {
    ParseEncoded(fs, []);
    assert EncodeAll(fs) + [] == s + t;
    assert Parse([]) == Parsed([], [], true) && fs + [] == fs;
    ParseAppend(s, t);
    if t == [] {
      assert s + t == s;
    }
    if !Parse(s).sane {
      InsaneStays(s, t);
    }
  }

  lemma InsaneStays(s: seq<byte>, t: seq<byte>)
    requires !Parse(s).sane
    ensures !Parse(s + t).sane
  {
    RestIsWaiting(s);
    ParseAppend(s, t);
    var r := Parse(s).rest;
    assert U32(r + t) == U32(r);
  }

  // ----- what the residue looks like

  lemma {:induction false} RestIsWaiting(s: seq<byte>)
    ensures var r := Parse(s).rest; Parse(r) == Parsed([], r, Parse(s).sane)
    ensures Parse(s).sane ==> |Parse(s).rest| < HEADER || |Parse(s).rest| < HeadLength(Parse(s).rest)
    decreases |s|
  {
    if |s| >= HEADER && HEADER <= HeadLength(s) <= |s| {
      RestIsWaiting(s[HeadLength(s)..]);
    }
  }

  // ----- the three drain loops agree

  /** On any part of a stream of encodable frames the C server's loop, which waits for four bytes and reads
      an unsigned length, recognises what the C++ loops recognise. */
  lemma {:induction false} DrainLoopsAgree(s: seq<byte>, t: seq<byte>, fs: seq<Frame>)
    requires Encodable(fs) && s + t == EncodeAll(fs)
    ensures ParseUnsigned(s) == Parse(s)
    decreases |s|
  {
    if |s| >= 4 {
      HeadOfEncoded(fs[0], EncodeAll(fs[1..]));
      assert U32(s) == U32(s + t);
      var n := Size(fs[0]);
      if n <= |s| {
        assert (s + t)[n..] == s[n..] + t;
        DrainLoopsAgree(s[n..], t, fs[1..]);
      }
    }
  }

  /** On arbitrary bytes: the two loops agree exactly unless what the C++ loops leave is four bytes announcing
      less than a header, or more bytes announcing a length with its top bit set. */
  lemma {:induction false} DrainLoopsAgreeIff(s: seq<byte>)
    ensures ParseUnsigned(s) == Parse(s) <==>
            var r := Parse(s).rest;
            !(|r| == 4 && U32(r) < HEADER) && !(|r| > 4 && U32(r) >= 0x8000_0000)
    decreases |s|
  {
    if |s| >= HEADER && HEADER <= HeadLength(s) <= |s| {
      var n := HeadLength(s);
      var p, q := Parse(s[n..]), ParseUnsigned(s[n..]);
      DrainLoopsAgreeIff(s[n..]);
      assert ([HeadFrame(s)] + p.frames)[1..] == p.frames && ([HeadFrame(s)] + q.frames)[1..] == q.frames;
    }
  }
}
