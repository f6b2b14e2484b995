/**
 The receive ring buffer (RingBuffer.cpp) and its second copy (MT_CRingBuffer.cpp).

 Both pointers range over [begin, end] inclusive: a pointer wraps only when it passes the end,
 so "at the end" and "at the beginning" are two representations of one position. What the
 pointers represent is Contents(); every operation is specified as an operation on it.
 */
module Ring {

  type Byte = b: int | 0 <= b < 256

  // ----- Sizes, as functions of the capacity and the two pointers --------------------------

  function UseSize(n: int, f: int, r: int): int {
    if f <= r then r - f else n - f + r
  }

  function FreeSize(n: int, f: int, r: int): int {
    if f <= r then n - r + f - 1 else f - r - 1
  }

  function DirectEnqueueSize(n: int, f: int, r: int): int {
    if f <= r && f == 0 then n - r - 1
    else if f <= r then n - r
    else f - r - 1
  }

  function DirectDequeueSize(n: int, f: int, r: int): int {
    if f <= r then r - f else n - f
  }

  /** GetFreeSize of the second copy, with its extra branch. */
  function FreeSizeMT(n: int, f: int, r: int): int {
    if f == 0 && f <= r then n - r - 1
    else if f <= r then n - r + f - 1
    else f - r - 1
  }

  /** DirectDequeueSize of the second copy, with its extra branch. */
  function DirectDequeueSizeMT(n: int, f: int, r: int): int {
    if f > r && r == 0 then n - f - 1
    else if f <= r then r - f
    else n - f
  }

  /** The pointers of a buffer that has only been used through its methods. */
  predicate InReach(n: int, f: int, r: int) {
    0 <= f <= n && 0 <= r <= n && UseSize(n, f, r) <= n - 1 && (r == 0 ==> f == 0)
  }

  /** Sizes add up, and the contiguous part never exceeds the whole. */
  lemma SizesAddUp(n: int, f: int, r: int)
    requires InReach(n, f, r)
    ensures UseSize(n, f, r) + FreeSize(n, f, r) == n - 1
    ensures 0 <= DirectEnqueueSize(n, f, r) <= FreeSize(n, f, r)
    ensures 0 <= DirectDequeueSize(n, f, r) <= UseSize(n, f, r)
  {
  }

  /** The two copies agree in every reachable state; where they differ is exactly the state that
      the pointers never reach, a wrapped buffer whose rear is at the beginning. */
  lemma CopiesAgree(n: int, f: int, r: int)
    requires 0 <= f <= n && 0 <= r <= n
    ensures FreeSizeMT(n, f, r) == FreeSize(n, f, r)
    ensures DirectDequeueSizeMT(n, f, r) == DirectDequeueSize(n, f, r) <==> !(r == 0 < f)
    ensures InReach(n, f, r) ==> DirectDequeueSizeMT(n, f, r) == DirectDequeueSize(n, f, r)
  {
  }

  // ----- What the pointers stand for -------------------------------------------------------

  /** The bytes in the buffer, oldest first. */
  function Stored(b: seq<Byte>, f: int, r: int): (s: seq<Byte>)
    requires InReach(|b|, f, r)
    ensures |s| == UseSize(|b|, f, r)
  {
    if f <= r then b[f..r] else b[f..] + b[..r]
  }

  /** The cells after them, in the order in which they will be filled. */
  function Vacancy(b: seq<Byte>, f: int, r: int): (s: seq<Byte>)
    requires InReach(|b|, f, r)
    ensures |s| == FreeSize(|b|, f, r) + 1
  {
    if f <= r then b[r..] + b[..f] else b[r..f]
  }

  /** The result of one memcpy of src to position at. */
  function Patch(b: seq<Byte>, at: int, src: seq<Byte>): (p: seq<Byte>)
    requires 0 <= at <= at + |src| <= |b|
    ensures |p| == |b|
  {
    b[..at] + src + b[at + |src|..]
  }

  lemma PatchAtRear(b: seq<Byte>, f: int, r: int, data: seq<Byte>)
    requires InReach(|b|, f, r) && |data| <= DirectEnqueueSize(|b|, f, r)
    ensures var p := Patch(b, r, data); Stored(p, f, r) == Stored(b, f, r) && Vacancy(p, f, r)[..|data|] == data
  {
    var p := Patch(b, r, data);
    assert p[r..r + |data|] == data;
    if f <= r {
      assert p[f..r] == b[f..r];
    } else {
      assert p[f..] == b[f..] && p[..r] == b[..r];
    }
  }

  lemma PatchAround(b: seq<Byte>, f: int, r: int, data: seq<Byte>)
    requires InReach(|b|, f, r) && DirectEnqueueSize(|b|, f, r) < |data| <= FreeSize(|b|, f, r)
    ensures var d := DirectEnqueueSize(|b|, f, r);
            var p := Patch(Patch(b, r, data[..d]), 0, data[d..]);
            Stored(p, f, r) == Stored(b, f, r) && Vacancy(p, f, r)[..|data|] == data
  {
    assert 0 < f <= r;
    var d := |b| - r;
    var q := Patch(b, r, data[..d]);
    assert q[r..] == data[..d] && q[f..r] == b[f..r];
    var p := Patch(q, 0, data[d..]);
    assert p[f..r] == q[f..r] && p[r..] == q[r..];
    assert p[..|data| - d] == data[d..];
    assert (p[r..] + p[..f])[..|data|] == data[..d] + data[d..];
  }

  lemma Joined(b: seq<Byte>, i: nat, j: nat, k: nat)
    requires i <= j <= k <= |b|
    ensures b[i..j] + b[j..k] == b[i..k] && b[i..k][..j - i] == b[i..j]
  {
  }

  lemma TakeOver(x: seq<Byte>, y: seq<Byte>, k: nat)
    requires |x| <= k <= |x| + |y|
    ensures (x + y)[..k] == x + y[..k - |x|]
  {
  }

  lemma TakeWithin(x: seq<Byte>, y: seq<Byte>, k: nat)
    requires k <= |x|
    ensures (x + y)[..k] == x[..k]
  {
  }

  /** Vacant cells on both sides of the contents: the rear stays on its side, or wraps. */
  lemma MoveRearStraight(b: seq<Byte>, f: nat, r: nat, k: nat)
    requires f <= r <= |b| && k <= |b| - r + f
    ensures r + k <= |b| ==> b[f..r + k] == b[f..r] + (b[r..] + b[..f])[..k]
    ensures r + k > |b| ==> b[f..] + b[..r + k - |b|] == b[f..r] + (b[r..] + b[..f])[..k]
  {
    var n := |b|;
    if r + k <= n {
      TakeWithin(b[r..], b[..f], k);
      Joined(b, r, r + k, n);
      Joined(b, f, r, r + k);
      assert b[r..] == b[r..n];
    } else {
      TakeOver(b[r..], b[..f], k);
      Joined(b, f, r, n);
      Joined(b, 0, r + k - n, f);
      assert b[f..] == b[f..n] && b[r..] == b[r..n] && b[..f] == b[0..f];
      assert b[f..r] + b[r..] + b[..r + k - n] == b[f..r] + (b[r..] + b[..r + k - n]);
    }
  }

  /** Vacant cells between the rear and the front. */
  lemma MoveRearWrapped(b: seq<Byte>, f: nat, r: nat, k: nat)
    requires r + k <= f <= |b|
    ensures b[f..] + b[..r + k] == b[f..] + b[..r] + b[r..f][..k]
  {
    Joined(b, 0, r, r + k);
    Joined(b, r, r + k, f);
    assert b[..r + k] == b[0..r + k] && b[..r] == b[0..r];
    assert b[f..] + b[..r] + b[r..f][..k] == b[f..] + (b[..r] + b[r..f][..k]);
  }

  /** Moving the rear pointer over k vacant cells, wrapping only past the end, stores them. */
  lemma MoveRearStored(b: seq<Byte>, f: int, r: int, k: int)
    requires InReach(|b|, f, r) && 0 <= k <= FreeSize(|b|, f, r)
    ensures var to := if |b| < r + k then r + k - |b| else r + k;
            InReach(|b|, f, to) && Stored(b, f, to) == Stored(b, f, r) + Vacancy(b, f, r)[..k]
  {
    if f <= r {
      MoveRearStraight(b, f, r, k);
    } else {
      MoveRearWrapped(b, f, r, k);
    }
  }

  // ----- The buffer -----------------------------------------------------------------------

  class RingBuffer {
    const buf: array<Byte>     // the bytes from mBegin to mEnd
    var front: int             // mFrontPtr - mBegin
    var rear: int              // mRearPtr - mBegin

    ghost predicate Valid()
      reads this
    {
      InReach(buf.Length, front, rear)
    }

    /** The bytes in the buffer, oldest first. */
    ghost function Contents(): (s: seq<Byte>)
      requires Valid()
      reads this, buf
      ensures |s| == UseSize(buf.Length, front, rear)
    {
      Stored(buf[..], front, rear)
    }

    /** The cells after the contents, in the order in which they will be filled. */
    ghost function Vacant(): (s: seq<Byte>)
      requires Valid()
      reads this, buf
      ensures |s| == FreeSize(buf.Length, front, rear) + 1
    {
      Vacancy(buf[..], front, rear)
    }

    function GetUseSize(): (k: int)
      requires Valid()
      reads this, buf
      ensures k == |Contents()|
    {
      UseSize(buf.Length, front, rear)
    }

    function GetFreeSize(): (k: int)
      requires Valid()
      reads this, buf
      ensures k == buf.Length - 1 - |Contents()|
    {
      FreeSize(buf.Length, front, rear)
    }

    constructor (size: nat)
      requires size > 0
      ensures Valid() && fresh(buf) && buf.Length == size && Contents() == []
    {
      buf := new Byte[size](_ => 0);
      front, rear := 0, 0;
    }

    method ClearBuffer()
      modifies this
      requires buf.Length > 0
      ensures Valid() && Contents() == []
    {
      front, rear := 0, 0;
    }

    /** memcpy into the buffer. */
    method Copy(at: int, src: seq<Byte>)
      requires 0 <= at <= at + |src| <= buf.Length
      modifies buf
      ensures buf[..] == Patch(old(buf[..]), at, src)
    {
      forall k | 0 <= k < |src| {
        buf[at + k] := src[k];
      }
    }

    /** Claims the next k vacant cells. */
    method MoveRear(k: int)
      requires Valid() && 0 <= k <= GetFreeSize()
      modifies this`rear
      ensures Valid()
      ensures Contents() == old(Contents()) + old(Vacant())[..k]
    {
      var chk := rear + k;
      if buf.Length < chk {
        chk := chk - buf.Length;
      }
      MoveRearStored(buf[..], front, rear, k);
      rear := chk;
    }

    /** Drops the oldest k bytes. */
    method MoveFront(k: int)
      requires Valid() && 0 <= k <= GetUseSize()
      modifies this`front
      ensures Valid()
      ensures Contents() == old(Contents())[k..]
    {
      var chk := front + k;
      if buf.Length < chk {
        chk := chk - buf.Length;
      }
      ghost var left := Contents()[k..];
      front := chk;
      assert Contents() == left;
    }

    /** What WSARecv does to the two segments that registerRecv posts: the first
        DirectEnqueueSize bytes go behind the rear pointer, the others to the beginning. */
    method Fill(data: seq<Byte>)
      requires Valid() && |data| <= GetFreeSize()
      modifies buf
      ensures Contents() == old(Contents())
      ensures Vacant()[..|data|] == data
    {
      var direct := DirectEnqueueSize(buf.Length, front, rear);
      if |data| <= direct {
        PatchAtRear(buf[..], front, rear, data);
        Copy(rear, data);
      } else {
        PatchAround(buf[..], front, rear, data);
        Copy(rear, data[..direct]);
        Copy(0, data[direct..]);
      }
    }

    /** Appends all of src, or nothing when it does not fit; returns the number appended. */
    method Enqueue(src: seq<Byte>) returns (n: int)
      requires Valid()
      modifies this`rear, buf
      ensures Valid()
      ensures |src| <= old(GetFreeSize()) ==> n == |src| && Contents() == old(Contents()) + src
      ensures |src| > old(GetFreeSize()) ==> n == 0 && Contents() == old(Contents()) && unchanged(this)
    {
      if GetFreeSize() < |src| {
        return 0;
      }
      Fill(src);
      MoveRear(|src|);
      return |src|;
    }

    /** Reads the oldest k bytes without removing them. When there are fewer, copies nothing and
        returns how many there are. */
    method Peek(k: int) returns (n: int, out: seq<Byte>)
      requires Valid() && 0 <= k
      ensures k <= |Contents()| ==> n == k && out == Contents()[..k]
      ensures k > |Contents()| ==> n == |Contents()| && out == []
    {
      if k > GetUseSize() {
        return GetUseSize(), [];
      }
      var direct := DirectDequeueSize(buf.Length, front, rear);
      if k <= direct {
        out := buf[front..front + k];
      } else {
        out := buf[front..front + direct] + buf[..k - direct];
      }
      return k, out;
    }

    /** Removes the oldest k bytes, or nothing when there are fewer; returns the number removed. */
    method Dequeue(k: int) returns (n: int, out: seq<Byte>)
      requires Valid() && 0 <= k
      modifies this`front
      ensures Valid()
      ensures k <= old(|Contents()|) ==> n == k && out == old(Contents())[..k] && Contents() == old(Contents())[k..]
      ensures k > old(|Contents()|) ==> n == 0 && out == [] && unchanged(this)
    {
      if GetUseSize() < k {
        return 0, [];
      }
      n, out := Peek(k);
      MoveFront(k);
    }
  }
}
