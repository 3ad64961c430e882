/** The integer encodings between the processes: the C server's length field, and the two directions of the
    pipe between the Java service and the native client. */
module Codec {
  import opened Wire
  import opened Wrappers

  const TWO31 := 0x8000_0000
  const TWO32 := 0x1_0000_0000
  const TWO63 := 0x8000_0000_0000_0000

  // ----- the endian converters of the C server, on either kind of machine

  /** The bytes of a 32-bit value in memory. */
  function Memory(v: int, big: bool): (s: seq<byte>)
    requires 0 <= v < TWO32
    ensures |s| == 4
  {
    var s := Le32(v);
    if big then [s[3], s[2], s[1], s[0]] else s
  }

  function Load(s: seq<byte>, big: bool): (v: int)
    requires |s| == 4
    ensures 0 <= v < TWO32
  {
    if big then U32([s[3], s[2], s[1], s[0]]) else U32(s)
  }

  lemma LoadMemory(v: int, s: seq<byte>, big: bool)
    requires 0 <= v < TWO32 && |s| == 4
    ensures Load(Memory(v, big), big) == v && Memory(Load(s, big), big) == s
  {
    U32OfLe32(v);
    Le32OfU32(s);
    Le32OfU32([s[3], s[2], s[1], s[0]]);
    assert s[..4] == s;
  }

  /** A big-endian machine stores the highest byte first, the other kind the lowest. */
  lemma ByteOrders()
    ensures Memory(0x0102_0304, true) == [1, 2, 3, 4] && Load([1, 2, 3, 4], true) == 0x0102_0304
    ensures Memory(0x0102_0304, false) == [4, 3, 2, 1] && Load([1, 2, 3, 4], false) == 0x0403_0201
  {
  }

  /** `endian_little_to_local_32`: whatever the machine, the little-endian value of the bytes in memory. */
  method LittleToLocal(val: int, big: bool) returns (ret: int)
    requires 0 <= val < TWO32
    ensures ret == U32(Memory(val, big))
  {
    var buffer := Memory(val, big);
    ret := 0;
    var scale: int := 1;
    for i := 0 to 4
      invariant scale == Scale(i) && ret == LowBytes(buffer, i)
    {
      LowBytesStep(buffer, i);
      ret := (ret + buffer[i] * scale) % TWO32;
      scale := scale * 256;
    }
    LowBytesAll(buffer);
  }

  function Scale(i: nat): int
    requires i <= 4
  {
    match i
    case 0 => 1
    case 1 => 0x100
    case 2 => 0x1_0000
    case 3 => 0x100_0000
    case _ => TWO32
  }

  /** The value of the first `i` bytes, the lowest first. */
  function LowBytes(s: seq<byte>, i: nat): int
    requires |s| == 4 && i <= 4
  {
    if i == 0 then 0 else LowBytes(s, i - 1) + s[i - 1] * Scale(i - 1)
  }

  lemma LowBytesAll(s: seq<byte>)
    requires |s| == 4
    ensures LowBytes(s, 4) == U32(s)
  {
    var b0: int, b1: int, b2: int, b3: int := s[0], s[1], s[2], s[3];
    assert LowBytes(s, 1) == b0 && LowBytes(s, 2) == b0 + b1 * 0x100;
    assert LowBytes(s, 3) == LowBytes(s, 2) + b2 * 0x1_0000;
  }

  lemma LowBytesStep(s: seq<byte>, i: nat)
    requires |s| == 4 && i < 4
    ensures (LowBytes(s, i) + s[i] * Scale(i)) % TWO32 == LowBytes(s, i + 1)
    ensures Scale(i) * 256 == Scale(i + 1)
  {
    LowBytesAll(s);
    var b0: int, b1: int, b2: int := s[0], s[1], s[2];
    assert LowBytes(s, 1) == b0 && LowBytes(s, 2) == b0 + b1 * 0x100;
    assert LowBytes(s, 3) == LowBytes(s, 2) + b2 * 0x1_0000;
  }

  /** `endian_local_to_little_32`: whatever the machine, memory then holds the little-endian bytes. */
  method LocalToLittle(val: int, big: bool) returns (ret: int)
    requires 0 <= val < TWO32
    ensures 0 <= ret < TWO32 && Memory(ret, big) == Le32(val)
    ensures ret == Load(Le32(val), big)
  {
    var data: seq<byte> := [];
    var v := val;
    for i := 0 to 4
      invariant data == Le32(val)[..i]
      invariant v == Shifted(val, i)
    {
      ShiftStep(val, i);
      data := data + [v % 256];
      v := v / 256;
    }
    assert data == Le32(val);
    ret := Load(data, big);
    LoadMemory(val, data, big);
  }

  function Shifted(val: int, i: nat): int
    requires 0 <= val < TWO32 && i <= 4
  {
    match i
    case 0 => val
    case 1 => val / 0x100
    case 2 => val / 0x1_0000
    case 3 => val / 0x100_0000
    case _ => 0
  }

  lemma ShiftStep(val: int, i: nat)
    requires 0 <= val < TWO32 && i < 4
    ensures Shifted(val, i) % 256 == Le32(val)[i]
    ensures Shifted(val, i + 1) == Shifted(val, i) / 256
  {
  }

  /** On either kind of machine the converters are mutual inverses on all 32-bit values. */
  lemma ConvertersInverse(v: int, big: bool)
    requires 0 <= v < TWO32
    ensures U32(Memory(Load(Le32(v), big), big)) == v
    ensures Load(Le32(U32(Memory(v, big))), big) == v
  {
    LoadMemory(v, Le32(v), big);
    U32OfLe32(v);
    Le32OfU32(Memory(v, big));
    assert Memory(v, big)[..4] == Memory(v, big);
  }

  // ----- Java integers: 32 bits, with a division that truncates towards zero

  function Quot(a: int): int {
    if a >= 0 then a / 256 else -(-a / 256)
  }

  function Rem(a: int): int {
    if a >= 0 then a % 256 else -(-a % 256)
  }

  /** `OutputStream.write(int)` keeps the low eight bits. */
  function LowByte(a: int): byte {
    a % 256
  }

  /** `writeInt`. */
  method WriteInt(data: int) returns (s: seq<byte>)
    requires -TWO31 <= data < TWO31
    ensures s == JavaBytes(data) && NativeInt(s) == Received(data)
    ensures NativeInt(s) == data <==> data >= 0 || data % 0x100_0000 == 0
  {
    var d := data;
    var b0 := Rem(d);
    d := Quot(d);
    var b1 := Rem(d);
    d := Quot(d);
    var b2 := Rem(d);
    d := Quot(d);
    var b3 := Rem(d);
    s := [LowByte(b0), LowByte(b1), LowByte(b2), LowByte(b3)];
    Digits(data);
    DigitsArrive(data);
    WriteIntRecoveredIff(data);
  }

  /** The digits in base 256 of the absolute value, each with the sign of the number, cut to a byte. */
  function JavaBytes(data: int): (s: seq<byte>)
    requires -TWO31 <= data < TWO31
    ensures |s| == 4
  {
    if data >= 0 then Le32(data)
    else
      var m := Le32(-data);
      [Negated(m[0]), Negated(m[1]), Negated(m[2]), Negated(m[3])]
  }

  function Negated(b: byte): byte {
    if b == 0 then 0 else 256 - b
  }

  lemma QuotRem(a: int)
    ensures a >= 0 ==> Quot(a) == a / 256 && LowByte(Rem(a)) == a % 256
    ensures a <= 0 ==> Quot(a) == -(-a / 256) && LowByte(Rem(a)) == Negated(-a % 256)
  {
  }

  lemma Places(m: nat)
    requires m < TWO32
    ensures m / 256 / 256 == m / 0x1_0000 && m / 256 / 256 / 256 == m / 0x100_0000
    ensures m / 0x100_0000 % 256 == m / 0x100_0000
  {
  }

  lemma Digits(data: int)
    requires -TWO31 <= data < TWO31
    ensures var d1 := Quot(data); var d2 := Quot(d1); var d3 := Quot(d2);
      [LowByte(Rem(data)), LowByte(Rem(d1)), LowByte(Rem(d2)), LowByte(Rem(d3))] == JavaBytes(data)
  {
    QuotRem(data);
    QuotRem(Quot(data));
    QuotRem(Quot(Quot(data)));
    QuotRem(Quot(Quot(Quot(data))));
    Places(if data >= 0 then data else -data);
  }

  /** What the native side stores in `tunFd`, reading the four bytes in memory order. */
  function NativeInt(s: seq<byte>): int
    requires |s| == 4
  {
    Int32(U32(s))
  }

  /** What arrives, said without bytes: a negative number gains one unit above each digit that is not zero. */
  function Received(data: int): int
    requires -TWO31 <= data < TWO31
  {
    if data >= 0 then data else
      var m := -data;
      var gain := (if m % 256 > 0 then 0x100 else 0)
                + (if m / 256 % 256 > 0 then 0x1_0000 else 0)
                + (if m / 0x1_0000 % 256 > 0 then 0x100_0000 else 0);
      if m / 0x100_0000 == 0 then Int32(data + gain) else Int32(data + gain + TWO32)
  }

  lemma NegatedValue(s: seq<byte>)
    requires |s| == 4
    ensures U32([Negated(s[0]), Negated(s[1]), Negated(s[2]), Negated(s[3])])
         == (if s[0] > 0 then 0x100 else 0) + (if s[1] > 0 then 0x1_0000 else 0)
          + (if s[2] > 0 then 0x100_0000 else 0) + (if s[3] > 0 then TWO32 else 0) - U32(s)
  {
  }

  lemma DigitsArrive(data: int)
    requires -TWO31 <= data < TWO31
    ensures NativeInt(JavaBytes(data)) == Received(data)
  {
    if data >= 0 {
      U32OfLe32(data);
    } else {
      U32OfLe32(-data);
      NegatedValue(Le32(-data));
    }
  }

  /** The native side recovers the number exactly when it is not negative or is a multiple of 2^24. */
  lemma WriteIntRecoveredIff(data: int)
    requires -TWO31 <= data < TWO31
    ensures NativeInt(JavaBytes(data)) == data <==> data >= 0 || data % 0x100_0000 == 0
  {
    DigitsArrive(data);
    if data < 0 {
      U32OfLe32(-data);
      LowDigits(data, Le32(-data));
    }
  }

  lemma ModOf(q: int, r: int)
    requires 0 <= r < 0x100_0000
    ensures (0x100_0000 * q + r) % 0x100_0000 == r
  {
  }

  lemma LowDigits(data: int, m: seq<byte>)
    requires |m| == 4 && U32(m) == -data
    ensures data % 0x100_0000 == 0 <==> m[0] == 0 && m[1] == 0 && m[2] == 0
  {
    var b0: int, b1: int, b2: int, b3: int := m[0], m[1], m[2], m[3];
    var low := b0 + 0x100 * b1 + 0x1_0000 * b2;
    if low == 0 {
      ModOf(-b3, 0);
    } else {
      ModOf(-b3 - 1, 0x100_0000 - low);
    }
  }

  /** `readInt`, in Java's 32-bit arithmetic. */
  function ReadInt(s: seq<byte>): int
    requires |s| == 4
  {
    var a: int, b: int, c: int, d: int := s[0], s[1], s[2], s[3];
    Int32((((d * 256 + c) * 256 + b) * 256 + a) % TWO32)
  }

  lemma ReadIntIsNative(s: seq<byte>)
    requires |s| == 4
    ensures ReadInt(s) == Int32(U32(s))
  {
    var a: int, b: int, c: int, d: int := s[0], s[1], s[2], s[3];
    assert ((d * 256 + c) * 256 + b) * 256 + a == U32(s);
  }

  /** `readLong`; for bytes of a 64-bit value the sum stays within 64 bits. */
  function ReadLong(s: seq<byte>): int
    requires |s| == 8
  {
    ReadInt(s[4..]) * TWO32 + ReadInt(s[..4])
  }

  /** The eight bytes of a native counter. */
  function CounterBytes(n: int): (s: seq<byte>)
    requires 0 <= n < TWO63
    ensures |s| == 8
  {
    Le32(n % TWO32) + Le32(n / TWO32)
  }

  /** A native counter comes out right exactly when bit 31 is clear, and exactly 2^32 too small otherwise. */
  lemma CounterReadBack(n: int)
    requires 0 <= n < TWO63
    ensures ReadLong(CounterBytes(n)) == if n % TWO32 < TWO31 then n else n - TWO32
  {
    var lo, hi := n % TWO32, n / TWO32;
    var s := CounterBytes(n);
    assert s[..4] == Le32(lo) && s[4..] == Le32(hi);
    ReadIntIsNative(Le32(lo));
    ReadIntIsNative(Le32(hi));
    U32OfLe32(lo);
    U32OfLe32(hi);
    assert n == hi * TWO32 + lo && hi < TWO31;
  }

  /** `readResponse`: however the pipe is cut into reads, the first `length` bytes, or a failure when it ends
      before them. `sizes` bounds what successive reads return. */
  method ReadResponse(stream: seq<byte>, sizes: seq<nat>, length: nat) returns (r: Option<seq<byte>>)
    requires forall n | n in sizes :: n > 0
    ensures r == if length <= |stream| then Some(stream[..length]) else None
  {
    var data: seq<byte> := [];
    var i := 0;
    while |data| < length
      invariant |data| <= length && |data| <= |stream| && data == stream[..|data|]
      invariant 0 <= i <= |sizes|
      decreases length - |data|
    {
      var n := length - |data|;
      if i < |sizes| {
        assert sizes[i] in sizes;
        n := if sizes[i] < n then sizes[i] else n;
        i := i + 1;
      }
      if |stream| == |data| {
        return None;
      }
      n := if |stream| - |data| < n then |stream| - |data| else n;
      assert stream[..|data|] + stream[|data|..|data| + n] == stream[..|data| + n];
      data := data + stream[|data|..|data| + n];
    }
    r := Some(data);
  }
}
