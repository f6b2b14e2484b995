/**
 The serialisation buffer (Message.cpp, Message.h): a bounded byte sequence with a read cursor.
 */
module Messages {
  import opened Ring

  const BUFFER_SIZE := 2000
  const MAX_SIZE := 3000

  /** MessageException, with the number of bytes moved on success. */
  datatype Outcome = Moved(n: int) | NotEnoughSpace | HasNotData

  // ----- Little-endian fields -------------------------------------------------------------

  /** The n low bytes of x in two's complement, lowest first. */
  function LE(x: int, n: nat): (s: seq<Byte>)
    ensures |s| == n
    decreases n
  {
    if n == 0 then [] else [x % 256] + LE(x / 256, n - 1)
  }

  function Unsigned16(lo: Byte, hi: Byte): int { lo + 256 * hi }

  /** A 16-bit signed field. */
  function Int16(lo: Byte, hi: Byte): int {
    if Unsigned16(lo, hi) < 0x8000 then Unsigned16(lo, hi) else Unsigned16(lo, hi) - 0x1_0000
  }

  lemma Int16RoundTrip(x: int)
    requires -0x8000 <= x < 0x8000
    ensures LE(x, 2) == [x % 256, x / 256 % 256]
    ensures Int16(LE(x, 2)[0], LE(x, 2)[1]) == x
  {
    assert LE(x / 256, 1) == [x / 256 % 256] + LE(x / 256 / 256, 0);
  }

  /** Fields of one, two and four bytes. */
  lemma LEBytes(x: int)
    ensures LE(x, 1) == [x % 256] && LE(x, 2) == [x % 256, x / 256 % 256]
    ensures LE(x, 4) == [x % 256, x / 256 % 256, x / 0x1_0000 % 256, x / 0x100_0000 % 256]
  {
    var y, z, w := x / 256, x / 256 / 256, x / 256 / 256 / 256;
    assert z == x / 0x1_0000 && w == x / 0x100_0000;
    assert LE(w, 1) == [w % 256] + LE(w / 256, 0);
    assert LE(z, 2) == [z % 256] + LE(w, 1) && LE(z, 1) == [z % 256] + LE(w, 0);
    assert LE(y, 3) == [y % 256] + LE(z, 2) && LE(y, 1) == [y % 256] + LE(z, 0);
    assert LE(x, 4) == [x % 256] + LE(y, 3) && LE(x, 1) == [x % 256] + LE(y, 0);
  }

  // ----- The buffer -----------------------------------------------------------------------

  class Message {
    const buf: array<Byte>
    var end: int
    var front: int
    var rear: int
    var ownerID: int
    var randKey: Byte

    ghost predicate Valid()
      reads this
    {
      buf.Length == MAX_SIZE && 0 <= front <= rear <= end <= buf.Length
    }

    /** What has been put and not yet got. */
    ghost function Unread(): seq<Byte>
      requires Valid()
      reads this, buf
    {
      buf[front..rear]
    }

    constructor ()
      ensures Valid() && fresh(buf) && Unread() == [] && end == 2000 && front == 0
    {
      buf := new Byte[MAX_SIZE](_ => 0);
      end, front, rear := BUFFER_SIZE, 0, 0;
      ownerID, randKey := 0, 0;
    }

    method InitMessage(sessionID: int, key: Byte)
      requires Valid()
      modifies this
      ensures Valid() && Unread() == [] && end == 2000 && front == 0
      ensures ownerID == sessionID && randKey == key
    {
      ownerID, randKey := sessionID, key;
      end, front, rear := BUFFER_SIZE, 0, 0;
    }

    /** PutData, and operator<< for a field of |src| bytes: appends src, or throws and changes nothing. */
    method PutData(src: seq<Byte>) returns (r: Outcome)
      requires Valid()
      modifies this`rear, buf
      ensures Valid() && (r.Moved? <==> old(rear) + |src| <= end)
      ensures r.Moved? ==> r.n == |src| && Unread() == old(Unread()) + src && rear == old(rear) + |src|
      ensures !r.Moved? ==> r == NotEnoughSpace && unchanged(this) && buf[..] == old(buf[..])
    {
      if rear + |src| > end {
        return NotEnoughSpace;
      }
      forall k | 0 <= k < |src| {
        buf[rear + k] := src[k];
      }
      rear := rear + |src|;
      return Moved(|src|);
    }

    /** GetData, and operator>> for a field of size bytes: removes the oldest bytes, or throws. */
    method GetData(size: nat) returns (r: Outcome, out: seq<Byte>)
      requires Valid()
      modifies this`front
      ensures Valid() && (r.Moved? <==> size <= |old(Unread())|)
      ensures r.Moved? ==> r.n == size && out + Unread() == old(Unread()) && |out| == size
      ensures !r.Moved? ==> r == HasNotData && out == [] && unchanged(this)
    {
      if front + size > rear {
        return HasNotData, [];
      }
      out := buf[front..front + size];
      front := front + size;
      return Moved(size), out;
    }

    function GetUseSize(): (k: int)
      requires Valid()
      reads this, buf
      ensures k == |Unread()|
    {
      UseSize(end, front, rear)
    }
  }
}
