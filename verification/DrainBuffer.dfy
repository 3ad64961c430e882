/** A receive buffer that is filled at its end and drained from its head by `memmove`. */
module DrainBuffer {
  import opened Wire

  /** What the head of a buffer offers a drain loop. */
  datatype Head = Waiting | Broken | Ready(f: Frame)

  ghost predicate HeadOf(s: seq<byte>, head: Head) {
    match head
    case Waiting => Parse(s) == Parsed([], s, true)
    case Broken => Parse(s) == Parsed([], s, false)
    case Ready(f) => Size(f) <= |s| && s[HEADER..Size(f)] == f.payload && Parse(s) == Parse(s[Size(f)..]).After([f])
  }

  /** One `buffer_entry`. */
  class Inbox {
    const buf: array<byte>
    var used: nat

    ghost predicate Valid()
      reads this
    {
      used <= buf.Length
    }

    ghost predicate Holds(capacity: nat)
      reads this
    {
      Valid() && buf.Length == capacity
    }

    ghost function Content(): seq<byte>
      requires Valid()
      reads this, buf
    {
      buf[..used]
    }

    constructor (capacity: nat)
      ensures Holds(capacity) && Content() == [] && fresh(buf)
    {
      buf := new byte[capacity](_ => 0);
      used := 0;
    }

    /** `bufs[client_fd].used = 0`, done for every accepted connection. */
    method Reset()
      requires Valid()
      modifies this`used
      ensures Valid() && Content() == []
    {
      used := 0;
    }

    /** The effect of a `read` into the free part of the buffer. */
    method Fill(chunk: seq<byte>)
      requires Valid() && |chunk| <= buf.Length - used
      modifies this`used, buf
      ensures Valid() && Content() == old(Content()) + chunk
    {
      forall i | 0 <= i < |chunk| {
        buf[used + i] := chunk[i];
      }
      used := used + |chunk|;
    }

    /** The guards at the head of the drain loop. */
    method Peek() returns (head: Head)
      requires Valid()
      ensures Valid() && HeadOf(Content(), head)
    {
      if used < HEADER {
        return Waiting;
      }
      var content := buf[..used];
      var length := HeadLength(content);
      if length < HEADER {
        return Broken;
      }
      if used < length {
        return Waiting;
      }
      head := Ready(HeadFrame(content));
    }

    /** `memmove(buf, buf + n, used - n)`. */
    method Consume(n: nat)
      requires Valid() && n <= used
      modifies this`used, buf
      ensures Valid() && used == old(used) - n && Content() == old(Content())[n..]
    {
      forall i | 0 <= i < used - n {
        buf[i] := buf[i + n];
      }
      used := used - n;
    }

    /** `memmove(buf, buf - 1, used + 1)`: what stood in front of the buffer becomes its first byte. */
    method ShiftUp(junk: byte)
      requires Valid() && used < buf.Length
      modifies this`used, buf
      ensures Valid() && used == old(used) + 1 && Content() == [junk] + old(Content())
    {
      forall i | 0 <= i <= used {
        buf[i] := if i == 0 then junk else buf[i - 1];
      }
      used := used + 1;
    }
  }
}
