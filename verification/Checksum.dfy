/** The Internet checksum as the server computes it, against the one's complement sum of RFC 1071. */
module Checksum {
  import opened Wire

  const TWO16 := 0x1_0000
  const TWO32 := 0x1_0000_0000
  const ONES := 0xffff

  /** The longest buffer whose words a 32-bit accumulator always holds: 65537 words. */
  const LIMIT := 131074

  type word = x: int | 0 <= x <= 0xffff

  /** A 16-bit load from memory. */
  function Word(b0: byte, b1: byte, big: bool): word {
    var x: int, y: int := b0, b1;
    if big then 256 * x + y else x + 256 * y
  }

  /** Successive loads; an odd byte at the end is the first byte of a word whose other byte is zero. */
  function Words(data: seq<byte>, big: bool): seq<word>
    decreases |data|
  {
    if data == [] then []
    else if |data| == 1 then [Word(data[0], 0, big)]
    else [Word(data[0], data[1], big)] + Words(data[2..], big)
  }

  function Total(ws: seq<word>): nat {
    if ws == [] then 0 else ws[0] + Total(ws[1..])
  }

  /** One's complement addition: the carry goes round. */
  function OcAdd(a: word, b: word): word {
    if a + b > ONES then a + b - ONES else a + b
  }

  /** The sum of RFC 1071 section 1, word by word. */
  function OcSum(ws: seq<word>): word {
    if ws == [] then 0 else OcAdd(ws[0], OcSum(ws[1..]))
  }

  /** The numerical example of RFC 1071 section 3: the bytes of the sum as each kind of machine loads them. An odd
      byte at the end comes first in its word. */
  lemma Example()
    ensures var data := [0x00, 0x01, 0xf2, 0x03, 0xf4, 0xf5, 0xf6, 0xf7];
            OcSum(Words(data, true)) == 0xddf2 && OcSum(Words(data, false)) == 0xf2dd
    ensures OcSum(Words([0xab], true)) == 0xab00 && OcSum(Words([0xab], false)) == 0x00ab
  {
    var data: seq<byte> := [0x00, 0x01, 0xf2, 0x03, 0xf4, 0xf5, 0xf6, 0xf7];
    assert data[2..] == [0xf2, 0x03, 0xf4, 0xf5, 0xf6, 0xf7] && data[2..][2..] == [0xf4, 0xf5, 0xf6, 0xf7];
    assert data[2..][2..][2..] == [0xf6, 0xf7] && data[2..][2..][2..][2..] == [];
    assert Words(data, true) == [0x0001, 0xf203, 0xf4f5, 0xf6f7];
    assert Words(data, false) == [0x0100, 0x03f2, 0xf5f4, 0xf7f6];
    SumOfFour(0x0001, 0xf203, 0xf4f5, 0xf6f7);
    SumOfFour(0x0100, 0x03f2, 0xf5f4, 0xf7f6);
  }

  lemma SumOfFour(a: word, b: word, c: word, d: word)
    ensures OcSum([a, b, c, d]) == OcAdd(a, OcAdd(b, OcAdd(c, d)))
  {
    SumStep(a, [b, c, d]);
    SumStep(b, [c, d]);
    SumStep(c, [d]);
    SumStep(d, []);
    assert [a] + [b, c, d] == [a, b, c, d] && [b] + [c, d] == [b, c, d] && [c] + [d] == [c, d] && [d] + [] == [d];
  }

  lemma SumStep(w: word, ws: seq<word>)
    ensures OcSum([w] + ws) == OcAdd(w, OcSum(ws))
  {
    assert ([w] + ws)[1..] == ws;
  }

  /** The representative of a number modulo 65535 that end-around carry arrives at. */
  function Norm(n: nat): word {
    if n == 0 then 0 else (n - 1) % ONES + 1
  }

  // ----- the computation

  /** The two folds and the complement, on a 32-bit accumulator. */
  function Finish(sum: nat): word
    requires sum < TWO32
  {
    var s1 := sum / TWO16 + sum % TWO16;
    var s2 := s1 + s1 / TWO16;
    ONES - s2 % TWO16
  }

  /** What `in_cksum` answers, whatever the length: the accumulator holds the total modulo 2^32. */
  function Cksum(data: seq<byte>, big: bool): word {
    Finish(Total(Words(data, big)) % TWO32)
  }

  lemma AddWrapped(t: nat, w: word)
    ensures (t % TWO32 + w) % TWO32 == (t + w) % TWO32
  {
  }

  lemma {:induction false} WordsAppend(a: seq<byte>, b: seq<byte>, big: bool)
    requires |a| % 2 == 0
    ensures Words(a + b, big) == Words(a, big) + Words(b, big)
    decreases |a|
  {
    if a == [] {
      assert a + b == b;
    } else {
      assert (a + b)[2..] == a[2..] + b;
      WordsAppend(a[2..], b, big);
    }
  }

  lemma {:induction false} TotalAppend(ws: seq<word>, vs: seq<word>)
    ensures Total(ws + vs) == Total(ws) + Total(vs)
  {
    if ws == [] {
      assert ws + vs == vs;
    } else {
      assert (ws + vs)[1..] == ws[1..] + vs;
      TotalAppend(ws[1..], vs);
    }
  }

  lemma BytesAppend(a: seq<byte>, b: seq<byte>, big: bool)
    requires |a| % 2 == 0
    ensures Total(Words(a + b, big)) == Total(Words(a, big)) + Total(Words(b, big))
  {
    WordsAppend(a, b, big);
    TotalAppend(Words(a, big), Words(b, big));
  }

  lemma OneWord(b0: byte, b1: byte, big: bool)
    ensures Total(Words([b0, b1], big)) == Word(b0, b1, big)
    ensures Total(Words([b0], big)) == Word(b0, 0, big)
  {
    assert [b0, b1][2..] == [];
  }

  lemma NextWord(data: seq<byte>, w: nat, big: bool)
    requires w % 2 == 0 && w + 1 < |data|
    ensures Total(Words(data[..w + 2], big)) == Total(Words(data[..w], big)) + Word(data[w], data[w + 1], big)
  {
    assert data[..w + 2] == data[..w] + [data[w], data[w + 1]];
    BytesAppend(data[..w], [data[w], data[w + 1]], big);
    OneWord(data[w], data[w + 1], big);
  }

  lemma LastByte(data: seq<byte>, w: nat, big: bool)
    requires w % 2 == 0 && w + 1 == |data|
    ensures Total(Words(data, big)) == Total(Words(data[..w], big)) + Word(data[w], 0, big)
  {
    assert data == data[..w] + [data[w]];
    BytesAppend(data[..w], [data[w]], big);
    OneWord(data[w], 0, big);
  }

  /** What the accumulator holds after the first `w` bytes, and how a word and the odd byte at the end are added. */
  function Accumulated(data: seq<byte>, w: nat, big: bool): nat
    requires w <= |data|
  {
    Total(Words(data[..w], big)) % TWO32
  }

  lemma AddNextWord(data: seq<byte>, w: nat, big: bool)
    requires w % 2 == 0 && w + 1 < |data|
    ensures Accumulated(data, w + 2, big) == (Accumulated(data, w, big) + Word(data[w], data[w + 1], big)) % TWO32
  {
    NextWord(data, w, big);
    AddWrapped(Total(Words(data[..w], big)), Word(data[w], data[w + 1], big));
  }

  lemma AddLastByte(data: seq<byte>, w: nat, big: bool)
    requires w % 2 == 0 && w + 1 == |data|
    ensures Total(Words(data, big)) % TWO32 == (Accumulated(data, w, big) + Word(data[w], 0, big)) % TWO32
  {
    LastByte(data, w, big);
    AddWrapped(Total(Words(data[..w], big)), Word(data[w], 0, big));
  }

  // ----- the two folds

  /** Two folds always suffice: they leave the end-around-carry representative of any 32-bit sum. */
  lemma FoldsAreOneComplement(sum: nat)
    requires sum < TWO32
    ensures Finish(sum) == ONES - Norm(sum)
  {
    var hi, lo := sum / TWO16, sum % TWO16;
    assert sum == ONES * hi + (hi + lo);
    NormShift(hi + lo, hi);
  }

  lemma NormShift(a: nat, k: nat)
    requires a == 0 ==> k == 0
    ensures Norm(a + ONES * k) == Norm(a)
  {
    if a > 0 {
      ModShift(a - 1, k);
    }
  }

  lemma {:induction false} ModShift(a: nat, k: nat)
    ensures (a + ONES * k) % ONES == a % ONES
    decreases k
  {
    if k > 0 {
      ModShift(a, k - 1);
      assert a + ONES * k == (a + ONES * (k - 1)) + ONES;
    }
  }

  lemma NormAdd(a: word, n: nat)
    ensures OcAdd(a, Norm(n)) == Norm(a + n)
  {
    if n > 0 {
      var k := (n - 1) / ONES;
      assert a + n == (a + Norm(n)) + ONES * k;
      NormShift(a + Norm(n), k);
    }
  }

  /** Word-by-word addition with end-around carry is reduction modulo 65535 of the plain total. */
  lemma {:induction false} SumIsNorm(ws: seq<word>)
    ensures OcSum(ws) == Norm(Total(ws))
  {
    if ws != [] {
      SumIsNorm(ws[1..]);
      NormAdd(ws[0], Total(ws[1..]));
    }
  }

  // ----- how long a buffer may be

  lemma {:induction false} TotalBound(data: seq<byte>, big: bool)
    ensures Total(Words(data, big)) <= ONES * ((|data| + 1) / 2)
    decreases |data|
  {
    if |data| > 1 {
      TotalBound(data[2..], big);
      assert Words(data, big)[1..] == Words(data[2..], big);
    } else if |data| == 1 {
      OneWord(data[0], 0, big);
    }
  }

  lemma SmallStays(t: nat)
    requires t < TWO32
    ensures t % TWO32 == t
  {
  }

  lemma ShortIsRight(data: seq<byte>, big: bool)
    requires |data| <= LIMIT
    ensures Total(Words(data, big)) < TWO32 && Cksum(data, big) == ONES - OcSum(Words(data, big))
  {
    ShortTotal(data, big);
    CksumOfTotal(data, big);
    SumIsNorm(Words(data, big));
  }

  lemma ShortTotal(data: seq<byte>, big: bool)
    requires |data| <= LIMIT
    ensures Total(Words(data, big)) < TWO32
  {
    TotalBound(data, big);
  }

  lemma CksumOfTotal(data: seq<byte>, big: bool)
    requires Total(Words(data, big)) < TWO32
    ensures Cksum(data, big) == ONES - Norm(Total(Words(data, big)))
  {
    SmallStays(Total(Words(data, big)));
    FoldsAreOneComplement(Total(Words(data, big)));
  }

  /** `in_cksum`. */
  method InCksum(data: seq<byte>, big: bool) returns (answer: word)
    ensures answer == Cksum(data, big)
    ensures |data| <= LIMIT ==> answer == ONES - OcSum(Words(data, big))
  {
    var sum, w, nleft := 0, 0, |data|;
    while nleft > 1
      invariant 0 <= nleft == |data| - w && w % 2 == 0
      invariant sum == Accumulated(data, w, big)
      decreases nleft
    {
      AddNextWord(data, w, big);
      sum := (sum + Word(data[w], data[w + 1], big)) % TWO32;
      w, nleft := w + 2, nleft - 2;
    }
    if nleft == 1 {
      AddLastByte(data, w, big);
      sum := (sum + Word(data[w], 0, big)) % TWO32;
    } else {
      assert data[..w] == data;
    }
    answer := Finish(sum);
    if |data| <= LIMIT {
      ShortIsRight(data, big);
    }
  }

  function Repeat(b: byte, n: nat): (s: seq<byte>)
    ensures |s| == n
  {
    seq(n, _ => b)
  }

  lemma {:induction false} RepeatTotal(n: nat, big: bool)
    ensures Total(Words(Repeat(0, n), big)) == 0
    ensures n % 2 == 0 ==> Total(Words(Repeat(255, n), big)) == ONES * (n / 2)
    decreases n
  {
    if n > 1 {
      RepeatTotal(n - 2, big);
      assert Repeat(0, n)[2..] == Repeat(0, n - 2) && Repeat(255, n)[2..] == Repeat(255, n - 2);
    } else if n == 1 {
      OneWord(0, 0, big);
      assert Repeat(0, n) == [0];
    }
  }

  /** The shortest overflow: 65537 full words, then the byte 1, then zeros. */
  function Overflowing(len: nat): (data: seq<byte>)
    requires len > LIMIT
    ensures |data| == len
  {
    Repeat(255, LIMIT) + ([1] + Repeat(0, len - LIMIT - 1))
  }

  lemma TailTotal(n: nat, big: bool)
    ensures Total(Words([1] + Repeat(0, n), big)) == Word(1, 0, big)
  {
    if n == 0 {
      assert [1] + Repeat(0, n) == [1];
      OneWord(1, 0, big);
    } else {
      assert [1] + Repeat(0, n) == [1, 0] + Repeat(0, n - 1);
      BytesAppend([1, 0], Repeat(0, n - 1), big);
      OneWord(1, 0, big);
      RepeatTotal(n - 1, big);
    }
  }

  lemma OverflowingTotal(len: nat, big: bool)
    requires len > LIMIT
    ensures Total(Words(Overflowing(len), big)) == Word(1, 0, big) + ONES * 65537
  {
    BytesAppend(Repeat(255, LIMIT), [1] + Repeat(0, len - LIMIT - 1), big);
    RepeatTotal(LIMIT, big);
    TailTotal(len - LIMIT - 1, big);
  }

  lemma OverflowingIsWrong(len: nat, big: bool)
    requires len > LIMIT
    ensures Total(Words(Overflowing(len), big)) >= TWO32
    ensures Cksum(Overflowing(len), big) != ONES - OcSum(Words(Overflowing(len), big))
  {
    var t, w := Total(Words(Overflowing(len), big)), Word(1, 0, big);
    OverflowingTotal(len, big);
    assert t % TWO32 == w - 1;
    FoldsAreOneComplement(w - 1);
    SumIsNorm(Words(Overflowing(len), big));
    NormShift(w, 65537);
  }

  /** The accumulator never overflows, and the answer is the RFC's on every buffer of a given length, exactly
      up to 131074 bytes. */
  lemma RightIff(len: nat, big: bool)
    ensures (forall data: seq<byte> | |data| == len :: Total(Words(data, big)) < 0x1_0000_0000) <==> len <= 131074
    ensures (forall data: seq<byte> | |data| == len :: Cksum(data, big) == 0xffff - OcSum(Words(data, big)))
        <==> len <= 131074
  {
    if len <= LIMIT {
      forall data: seq<byte> | |data| == len
        ensures Total(Words(data, big)) < TWO32 && Cksum(data, big) == ONES - OcSum(Words(data, big))
      {
        ShortIsRight(data, big);
      }
    } else {
      OverflowingIsWrong(len, big);
    }
  }

  // ----- verification of a stored checksum

  lemma ReplaceWord(a: seq<byte>, x0: byte, x1: byte, c: seq<byte>, big: bool)
    requires |a| % 2 == 0
    ensures Total(Words(a + ([x0, x1] + c), big))
         == Total(Words(a, big)) + Word(x0, x1, big) + Total(Words(c, big))
  {
    BytesAppend(a, [x0, x1] + c, big);
    BytesAppend([x0, x1], c, big);
    OneWord(x0, x1, big);
  }

  lemma Cancels(n: nat)
    ensures Norm(n + (ONES - Norm(n))) == ONES
  {
    if n > 0 {
      var k := (n - 1) / ONES;
      assert n + (ONES - Norm(n)) == ONES + ONES * k;
      NormShift(ONES, k);
    }
  }

  lemma AnswerOfTotal(data: seq<byte>, big: bool)
    requires |data| <= LIMIT
    ensures Cksum(data, big) == ONES - Norm(Total(Words(data, big)))
  {
    ShortIsRight(data, big);
    SumIsNorm(Words(data, big));
  }

  /** Storing the answer in a zeroed word, at an even offset and in the machine's own byte order, makes the
      answer over the whole zero. */
  lemma StoredChecksumVerifies(a: seq<byte>, c: seq<byte>, x0: byte, x1: byte, big: bool)
    requires |a| % 2 == 0 && |a| + 2 + |c| <= LIMIT
    requires Word(x0, x1, big) == Cksum(a + ([0, 0] + c), big)
    ensures Cksum(a + ([x0, x1] + c), big) == 0
  {
    var blank, filled := a + ([0, 0] + c), a + ([x0, x1] + c);
    ReplaceWord(a, 0, 0, c, big);
    ReplaceWord(a, x0, x1, c, big);
    AnswerOfTotal(blank, big);
    AnswerOfTotal(filled, big);
    Cancels(Total(Words(blank, big)));
  }

  // ----- byte order

  /** The two bytes of a word exchanged. */
  function Swap(w: word): word {
    w % 256 * 256 + w / 256
  }

  lemma {:induction false} SwappedTotal(data: seq<byte>) returns (k: nat)
    ensures Total(Words(data, true)) == 256 * Total(Words(data, false)) - ONES * k
    ensures Total(Words(data, true)) == 0 <==> Total(Words(data, false)) == 0
    decreases |data|
  {
    if |data| < 2 {
      k := 0;
    } else {
      k := SwappedTotal(data[2..]);
      assert Words(data, true)[1..] == Words(data[2..], true);
      assert Words(data, false)[1..] == Words(data[2..], false);
      k := k + data[1];
    }
  }

  lemma SwapNorm(t: nat, s: nat, k: nat)
    requires s == 256 * t - ONES * k && (s == 0 <==> t == 0)
    ensures Norm(s) == Swap(Norm(t))
  {
    if t > 0 {
      var n, q := Norm(t), (t - 1) / ONES;
      assert t == n + ONES * q;
      var w := n / 256;
      assert Swap(n) == 256 * n - ONES * w;
      // both numbers lie in the same residue class, so one is the other and some multiples of 65535
      var d := 256 * q + w - k;
      assert s == Swap(n) + ONES * d;
      assert d >= 0;
      NormShift(Swap(n), d);
    }
  }

  lemma SwapComplement(w: word)
    ensures ONES - Swap(w) == Swap(ONES - w)
  {
    var h, l := w / 256, w % 256;
    assert (ONES - w) / 256 == 255 - h && (ONES - w) % 256 == 255 - l;
  }

  /** Byte order independence (RFC 1071 section 2): a machine of the other byte order computes the same two
      bytes in memory. */
  lemma ByteOrderIndependent(data: seq<byte>)
    requires |data| <= LIMIT
    ensures Cksum(data, true) == Swap(Cksum(data, false))
  {
    AnswerOfTotal(data, true);
    AnswerOfTotal(data, false);
    var k := SwappedTotal(data);
    SwapNorm(Total(Words(data, false)), Total(Words(data, true)), k);
    SwapComplement(Norm(Total(Words(data, false))));
  }

  // ----- word order

  lemma Extract(ws: seq<word>, i: nat) returns (rest: seq<word>)
    requires i < |ws|
    ensures |rest| == |ws| - 1
    ensures Total(ws) == ws[i] + Total(rest)
    ensures multiset(ws) == multiset{ws[i]} + multiset(rest)
  {
    rest := ws[..i] + ws[i + 1..];
    assert ws == ws[..i] + ([ws[i]] + ws[i + 1..]);
    TotalAppend(ws[..i], [ws[i]] + ws[i + 1..]);
    TotalAppend([ws[i]], ws[i + 1..]);
    TotalAppend(ws[..i], ws[i + 1..]);
  }

  lemma CancelFirst(ws: seq<word>, rest: seq<word>)
    requires ws != [] && multiset(ws) == multiset{ws[0]} + multiset(rest)
    ensures multiset(ws[1..]) == multiset(rest)
  {
    assert ws == [ws[0]] + ws[1..];
    assert multiset(ws) == multiset{ws[0]} + multiset(ws[1..]);
    forall x: word ensures multiset(ws[1..])[x] == multiset(rest)[x] {
      assert (multiset{ws[0]} + multiset(ws[1..]))[x] == (multiset{ws[0]} + multiset(rest))[x];
    }
  }

  lemma {:induction false} SameTotal(ws: seq<word>, vs: seq<word>)
    requires multiset(ws) == multiset(vs)
    ensures Total(ws) == Total(vs)
    decreases |ws|
  {
    if ws == [] {
      assert |multiset(vs)| == 0;
    } else {
      assert ws[0] in multiset(vs);
      var i :| 0 <= i < |vs| && vs[i] == ws[0];
      var rest := Extract(vs, i);
      CancelFirst(ws, rest);
      SameTotal(ws[1..], rest);
    }
  }

  /** The order of the words is irrelevant (RFC 1071 section 2), at any length. */
  lemma WordOrderIrrelevant(a: seq<byte>, b: seq<byte>, big: bool)
    requires multiset(Words(a, big)) == multiset(Words(b, big))
    ensures Cksum(a, big) == Cksum(b, big)
  {
    SameTotal(Words(a, big), Words(b, big));
  }
}
