/** The reader thread of the threaded server: blocking reads of a header and, for packets only, of a payload. */
module ThreadedReader {
  import opened Wire
  import opened Wrappers
  import opened Sequences
  import Client

  const DATA_SIZE := 4096

  /** One message at the head of the stream and what follows it; `None` while more bytes are needed. */
  function NextMsg(s: seq<byte>): (r: Option<(Frame, seq<byte>)>)
    ensures r.Some? ==> |r.value.1| < |s|
  {
    if |s| < HEADER then None
    else if s[4] != DATA_UP || HeadLength(s) <= HEADER then Some((Frame(s[4], []), s[HEADER..]))
    else if |s| < HeadLength(s) then None
    else Some((Frame(DATA_UP, s[HEADER..HeadLength(s)]), s[HeadLength(s)..]))
  }

  /** The loop of `readThread`, as a parser. */
  function Take(s: seq<byte>): Parsed
    decreases |s|
  {
    match NextMsg(s)
    case None => Parsed([], s, true)
    case Some((f, rest)) => Take(rest).After([f])
  }

  /** Frames as the client writes them: only packets carry a payload. */
  predicate Plain(f: Frame) {
    f.kind == DATA_UP || f.payload == []
  }

  /** On any part of a stream of plain frames this reader recognises what the drain loops recognise. */
  lemma {:induction false} ReaderAgrees(s: seq<byte>, t: seq<byte>, fs: seq<Frame>)
    requires Encodable(fs) && s + t == EncodeAll(fs) && forall f | f in fs :: Plain(f)
    ensures Take(s) == Parse(s)
    decreases |s|
  {
    if |s| >= HEADER {
      HeadOfEncoded(fs[0], EncodeAll(fs[1..]));
      assert U32(s) == U32(s + t) && s[4] == (s + t)[4] == fs[0].kind;
      var n := Size(fs[0]);
      if n <= |s| {
        assert (s + t)[n..] == s[n..] + t;
        assert s[HEADER..n] == (s + t)[HEADER..n] == fs[0].payload;
        ReaderAgrees(s[n..], t, fs[1..]);
      }
    }
  }

  lemma TakeHead(f: Frame, t: seq<byte>)
    requires Size(f) < 0x8000_0000
    ensures var p := Take(Encode(f) + t);
            if Plain(f) then p == Take(t).After([f]) else p.frames != [] && p.frames[0] == Frame(f.kind, [])
  {
    var s := Encode(f) + t;
    HeadOfEncoded(f, t);
    assert s[4] == f.kind;
    if Plain(f) {
      assert s[HEADER..Size(f)] == f.payload;
    }
  }

  /** On whole streams of frames it does so exactly when they are plain: the payload of any other frame is taken
      for headers. */
  lemma {:induction false} ReaderAgreesIff(fs: seq<Frame>)
    requires Encodable(fs)
    ensures Take(EncodeAll(fs)) == Parse(EncodeAll(fs)) <==> forall f | f in fs :: Plain(f)
    decreases |fs|
  {
    if fs != [] {
      var f, t := fs[0], EncodeAll(fs[1..]);
      TakeHead(f, t);
      ParseOneFrame(f, t);
      ReaderAgreesIff(fs[1..]);
      assert ([f] + Take(t).frames)[1..] == Take(t).frames && ([f] + Parse(t).frames)[1..] == Parse(t).frames;
      assert ([f] + Parse(t).frames)[0] == f;
      assert [f] + fs[1..] == fs;
    }
  }

  /** Every packet message announces at least its header, and no more than the reader's data array holds. */
  predicate Sound(s: seq<byte>)
    decreases |s|
  {
    && (|s| >= HEADER && s[4] == DATA_UP ==> HEADER <= HeadLength(s) <= DATA_SIZE)
    && (NextMsg(s).Some? ==> Sound(NextMsg(s).value.1))
  }

  /** How a call of the read loop and of the reading of a message ends. The stream may have no more bytes for now,
      or a read may fail, in the header or in the payload. */
  datatype End = Filled | Waiting | Failed

  datatype Outcome = Dispatched | Blocked | HeaderFailed | PayloadFailed

  /** The type that a dispatched message leaves in the message structure: a request is overwritten by its reply. */
  function Left(kind: byte): byte {
    if kind == IP_REQUEST then IP_REPLY else kind
  }

  /** The type in the message structure after some messages. */
  function LeftBy(before: byte, fs: seq<Frame>): (kind: byte)
    ensures fs == [] ==> kind == before
    ensures fs != [] ==> kind == if fs[|fs| - 1].kind == 100 then 101 else fs[|fs| - 1].kind
  {
    if fs == [] then before else Left(fs[|fs| - 1].kind)
  }

  /** A run of `readThread` on `stream` under way: the messages `done` have been dispatched and pushed `added`, and
      have taken the type in the message structure from `before` to `kind`; `reset` says whether one of them was a
      keep-alive. */
  datatype ReadState = ReadState(stream: seq<byte>, before: byte, rest: seq<byte>, done: seq<Frame>,
                                 added: seq<seq<byte>>, kind: byte, reset: bool)

  ghost predicate Holds(d: ReadState) {
    && Sound(d.rest)
    && Take(d.stream) == Take(d.rest).After(d.done)
    && Client.Overruns(d.added, Payloads(d.done, DATA_UP))
    && d.kind == LeftBy(d.before, d.done)
    && (d.reset <==> HasBeat(d.done))
  }

  predicate HasBeat(fs: seq<Frame>) {
    exists f | f in fs :: f.kind == 104
  }

  lemma HasBeatStep(fs: seq<Frame>, f: Frame)
    ensures HasBeat(fs + [f]) <==> HasBeat(fs) || f.kind == KEEPALIVE
  {
    assert f in fs + [f];
  }

  type Serving = d: ReadState | Holds(d) ghost witness ReadState([], 0, [], [], [], 0, false)

  lemma ServingStarts(stream: seq<byte>, before: byte) returns (d: Serving)
    requires Sound(stream)
    ensures d == ReadState(stream, before, stream, [], [], before, false)
  {
    d := ReadState(stream, before, stream, [], [], before, false);
  }

  function Pushes(f: Frame, packet: seq<byte>): seq<seq<byte>> {
    if f.kind == DATA_UP then [packet] else []
  }

  lemma PushesStep(added: seq<seq<byte>>, done: seq<Frame>, f: Frame, packet: seq<byte>)
    requires Client.Overruns(added, Payloads(done, DATA_UP))
    requires f.kind == DATA_UP ==> |packet| == Size(f) && f.payload <= packet
    ensures Client.Overruns(added + Pushes(f, packet), Payloads(done + [f], DATA_UP))
  {
    PayloadsStep(done, f, DATA_UP);
  }

  lemma TakeStep(s: seq<byte>)
    requires NextMsg(s).Some?
    ensures var (f, after) := NextMsg(s).value; Take(s) == Take(after).After([f])
  {
  }

  lemma ServingGoesOn(d: ReadState) returns (d': Serving)
    requires Holds(d)
    ensures d' == d
  {
    d' := d;
  }

  lemma ServingStep(d: Serving, packet: seq<byte>) returns (d': Serving)
    requires NextMsg(d.rest).Some?
    requires var f := NextMsg(d.rest).value.0; f.kind == DATA_UP ==> |packet| == Size(f) && f.payload <= packet
    ensures var (f, after) := NextMsg(d.rest).value;
            d' == ReadState(d.stream, d.before, after, d.done + [f], d.added + Pushes(f, packet), Left(f.kind),
                            d.reset || f.kind == KEEPALIVE)
  {
    var (f, after) := NextMsg(d.rest).value;
    TakeStep(d.rest);
    PushesStep(d.added, d.done, f, packet);
    Associative(d.done, [f], Take(after).frames);
    HasBeatStep(d.done, f);
    d' := ServingGoesOn(ReadState(d.stream, d.before, after, d.done + [f], d.added + Pushes(f, packet), Left(f.kind),
                                  d.reset || f.kind == KEEPALIVE));
  }

  lemma ServingEnds(d: Serving)
    ensures |d.done| <= |Take(d.stream).frames| && Take(d.stream).frames[..|d.done|] == d.done
    ensures Client.Overruns(d.added, Payloads(d.done, DATA_UP))
    ensures NextMsg(d.rest).None? ==> |d.done| == |Take(d.stream).frames|
    ensures d.kind == LeftBy(d.before, Take(d.stream).frames[..|d.done|])
    ensures d.reset <==> HasBeat(Take(d.stream).frames[..|d.done|])
  {
  }

  lemma PacketHead(s: seq<byte>)
    requires Sound(s) && |s| >= HEADER && s[4] == DATA_UP && |s| >= HeadLength(s)
    ensures NextMsg(s) == Some((Frame(DATA_UP, s[HEADER..HeadLength(s)]), s[HeadLength(s)..]))
  {
    if HeadLength(s) == HEADER {
      assert s[HEADER..HEADER] == [];
    }
  }

  class Reader {
    const header: array<byte>
    const data: array<byte>
    var heartBeatCount: nat
    ghost var pushed: seq<seq<byte>>
    ghost var served: seq<Frame>

    ghost predicate Valid()
      reads this
    {
      header.Length == HEADER && data.Length == DATA_SIZE && header != data
    }

    constructor ()
      ensures Valid() && data.Length == 4096 && fresh(header) && fresh(data)
      ensures pushed == [] && served == [] && heartBeatCount == 0
    {
      header := new byte[HEADER](_ => 0);
      data := new byte[DATA_SIZE](_ => 0);
      heartBeatCount, pushed, served := 0, [], [];
    }

    /** A read loop filling the first `to` bytes of an array. `answers` are those of the first reads, the reads
        after them return all there is. `got` counts the bytes read. */
    static method ReadLoop(into: array<byte>, stream: seq<byte>, answers: seq<Answer>, to: nat)
        returns (end: End, left: seq<Answer>, ghost got: nat)
      requires to <= into.Length && Progress(answers)
      modifies into
      ensures got <= to && got <= |stream| && into[..got] == stream[..got] && into[got..] == old(into[got..])
      ensures Progress(left) && (Error !in answers ==> Error !in left && end != Failed)
      ensures end == Filled <==> got == to
      ensures end == Waiting ==> got == |stream|
    {
      var total, i := 0, 0;
      while total < to
        invariant 0 <= total <= to && total <= |stream| && 0 <= i <= |answers|
        invariant into[..total] == stream[..total] && into[total..] == old(into[total..])
        decreases |answers| - i, to - total
      {
        var n := to - total;
        if i < |answers| {
          var a := answers[i];
          i := i + 1;
          if a.Again? {
            continue;
          }
          if a.Error? {
            return Failed, answers[i..], total;
          }
          n := if a.n < n then a.n else n;
        }
        if |stream| == total {
          return Waiting, answers[i..], total;
        }
        n := if |stream| - total < n then |stream| - total else n;
        ghost var before := into[..];
        forall k | 0 <= k < n {
          into[total + k] := stream[total + k];
        }
        assert into[total + n..] == before[total..][n..];
        total := total + n;
      }
      return Filled, answers[i..], total;
    }

    /** The message at the head of `stream` has been served since the method began. */
    twostate predicate Served(stream: seq<byte>, packet: seq<byte>)
      requires Valid() && data.Length == DATA_SIZE && NextMsg(stream).Some? && Sound(stream)
      reads this, header, data
    {
      var f := NextMsg(stream).value.0;
      && served == old(served) + [f] && header[4] == Left(f.kind)
      && heartBeatCount == (if f.kind == KEEPALIVE then 0 else old(heartBeatCount))
      && pushed == old(pushed) + Pushes(f, packet)
      && (f.kind == DATA_UP ==> |packet| == Size(f) && f.payload <= packet)
    }

    /** What follows a whole header in `readThread`; `stream` begins with the header. The text of an address reply
        is built elsewhere. */
    method Dispatch(stream: seq<byte>, answers: seq<Answer>)
        returns (how: Outcome, left: seq<Answer>, ghost packet: seq<byte>)
      requires Valid() && Sound(stream) && Progress(answers)
      requires |stream| >= HEADER && header[..] == stream[..HEADER]
      modifies this, header, data
      ensures Valid() && how != HeaderFailed && Progress(left)
      ensures Error !in answers ==> Error !in left && how != PayloadFailed
      ensures how == Blocked ==> NextMsg(stream).None?
      ensures how == PayloadFailed ==> header[4] == DATA_UP
      ensures how != Dispatched ==>
                pushed == old(pushed) && served == old(served) && heartBeatCount == old(heartBeatCount)
      ensures how == Dispatched ==> NextMsg(stream).Some? && Served(stream, packet)
      ensures HEADER <= |packet| <= DATA_SIZE || packet == []
      ensures packet != [] ==> packet[|packet| - HEADER..] == old(data[|packet| - HEADER..|packet|])
    {
      packet, left := [], answers;
      var length, kind := HeadLength(header[..]), header[4];
      assert U32(header[..]) == U32(stream) && kind == stream[4];
      if kind == DATA_UP {
        ghost var was := data[..];
        var end;
        ghost var got;
        end, left, got := ReadLoop(data, stream[HEADER..], answers, length - HEADER);
        if end != Filled {
          return if end == Waiting then Blocked else PayloadFailed, left, packet;
        }
        PacketHead(stream);
        assert stream[HEADER..][..length - HEADER] == stream[HEADER..length];
        assert data[length - HEADER..] == was[length - HEADER..];
        assert data[length - HEADER..][..HEADER] == was[length - HEADER..length];
        packet := data[..length];
        assert packet == data[..length - HEADER] + data[length - HEADER..][..HEADER];
        pushed := pushed + [packet];
      } else if kind == KEEPALIVE {
        heartBeatCount := 0;
      } else if kind == IP_REQUEST {
        header[4] := IP_REPLY;
      }
      how := Dispatched;
      served := served + [NextMsg(stream).value.0];
    }

    /** The reading of one message, and its dispatch. */
    method Serve(stream: seq<byte>, answers: seq<Answer>)
        returns (how: Outcome, left: seq<Answer>, ghost packet: seq<byte>)
      requires Valid() && Sound(stream) && Progress(answers)
      modifies this, header, data
      ensures Valid() && Progress(left)
      ensures Error !in answers ==> Error !in left && (how == Dispatched || how == Blocked)
      ensures how == Blocked ==> NextMsg(stream).None?
      ensures how == HeaderFailed ==> header[4] == old(header[4])
      ensures how == PayloadFailed ==> header[4] == DATA_UP
      ensures how != Dispatched ==>
                pushed == old(pushed) && served == old(served) && heartBeatCount == old(heartBeatCount)
      ensures how == Dispatched ==> NextMsg(stream).Some? && Served(stream, packet)
      ensures HEADER <= |packet| <= DATA_SIZE || packet == []
      ensures packet != [] ==> packet[|packet| - HEADER..] == old(data[|packet| - HEADER..|packet|])
    {
      packet := [];
      var end;
      ghost var got;
      end, left, got := ReadLoop(header, stream, answers, HEADER);
      if end != Filled {
        return if end == Waiting then Blocked else HeaderFailed, left, packet;
      }
      assert header[..] == stream[..HEADER];
      how, left, packet := Dispatch(stream, left);
    }

    /** Since the logs were `served0` and `pushed0` and the count `count0`, the messages of `d` have been served. */
    ghost predicate Logged(d: ReadState, served0: seq<Frame>, pushed0: seq<seq<byte>>, count0: nat)
      reads this
    {
      && served == served0 + d.done && pushed == pushed0 + d.added
      && heartBeatCount == if d.reset then 0 else count0
    }

    /** The body of the loop of `readThread`. */
    method ServeMore(rest: seq<byte>, answers: seq<Answer>, ghost d: Serving,
                     ghost served0: seq<Frame>, ghost pushed0: seq<seq<byte>>, ghost count0: nat)
        returns (how: Outcome, left: seq<Answer>, ghost d': Serving)
      requires Valid() && Sound(rest) && Progress(answers) && d.rest == rest
      requires Logged(d, served0, pushed0, count0) && header[4] == d.kind
      modifies this, header, data
      ensures Valid() && Progress(left) && Logged(d', served0, pushed0, count0)
      ensures Error !in answers ==> Error !in left && (how == Dispatched || how == Blocked)
      ensures how == Blocked ==> NextMsg(rest).None?
      ensures how != Dispatched ==> d' == d && (how == HeaderFailed ==> header[4] == d.kind)
      ensures how == Dispatched ==>
                && NextMsg(rest).Some? && d'.rest == NextMsg(rest).value.1 && header[4] == d'.kind
                && d'.stream == d.stream && d'.before == d.before
    {
      d' := d;
      ghost var packet;
      how, left, packet := Serve(rest, answers);
      if how == Dispatched {
        ghost var f := NextMsg(rest).value.0;
        Associative(served0, d.done, [f]);
        Associative(pushed0, d.added, Pushes(f, packet));
        d' := ServingStep(d, packet);
      }
    }

    /** The loop itself; `d` is what has been served when it is left. */
    method ServeAll(stream: seq<byte>, answers: seq<Answer>) returns (how: Outcome, ghost d: Serving)
      requires Valid() && Sound(stream) && Progress(answers)
      modifies this, header, data
      ensures Valid() && how != Dispatched && Logged(d, old(served), old(pushed), old(heartBeatCount))
      ensures d.stream == stream && d.before == old(header[4])
      ensures how == Blocked ==> NextMsg(d.rest).None?
      ensures Error !in answers ==> how == Blocked
      ensures how == HeaderFailed ==> header[4] == d.kind
    {
      var rest, left := stream, answers;
      d := ServingStarts(stream, header[4]);
      while true
        invariant Valid() && Progress(left) && (Error !in answers ==> Error !in left)
        invariant d.stream == stream && d.before == old(header[4]) && d.rest == rest && Sound(rest)
        invariant Logged(d, old(served), old(pushed), old(heartBeatCount)) && header[4] == d.kind
        decreases |rest|
      {
        how, left, d := ServeMore(rest, left, d, old(served), old(pushed), old(heartBeatCount));
        if how != Dispatched {
          return;
        }
        rest := NextMsg(rest).value.1;
      }
    }

    /** The loop of `readThread` until it waits for more bytes or a read fails: the first messages of the stream
        are dispatched, each once and in order, all of them unless a read fails; each packet pushed to the tun
        queue is the client's packet and five bytes that happened to be behind it. After a failure in a header
        the structure still has the type of the last message. */
    method ReadThread(stream: seq<byte>, answers: seq<Answer>)
        returns (how: Outcome, ghost n: nat, ghost added: seq<seq<byte>>)
      requires Valid() && Sound(stream) && Progress(answers)
      modifies this, header, data
      ensures Valid() && how != Dispatched && n <= |Take(stream).frames|
      ensures served == old(served) + Take(stream).frames[..n] && pushed == old(pushed) + added
      ensures Client.Overruns(added, Payloads(Take(stream).frames[..n], DATA_UP))
      ensures how == Blocked ==> n == |Take(stream).frames|
      ensures Error !in answers ==> how == Blocked
      // a request leaves the type of its reply behind
      ensures how == HeaderFailed ==> header[4] == LeftBy(old(header[4]), Take(stream).frames[..n])
      // the count starts again with any keep-alive, and with nothing else
      ensures heartBeatCount == if HasBeat(Take(stream).frames[..n]) then 0 else old(heartBeatCount)
    {
      ghost var d;
      how, d := ServeAll(stream, answers);
      ServingEnds(d);
      n, added := |d.done|, d.added;
    }
  }
}
