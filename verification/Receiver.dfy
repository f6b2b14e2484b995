/**
 The receive path of one session (registerRecv, completeRecv): the ring buffer, the incremental
 parser over it, and the messages handed to onRecv.
 */
module Receiver {
  import opened Ring
  import opened Messages
  import opened Framing
  import opened Winsock

  /** What onRecv sees of a message. */
  datatype Delivery = Delivery(owner: int, frame: Frame)

  function Owned(owner: int, fs: seq<Frame>): (ds: seq<Delivery>)
    ensures |ds| == |fs|
  {
    seq(|fs|, k requires 0 <= k < |fs| => Delivery(owner, fs[k]))
  }

  lemma OwnedConcat(owner: int, fs: seq<Frame>, gs: seq<Frame>)
    ensures Owned(owner, fs + gs) == Owned(owner, fs) + Owned(owner, gs)
  {
  }

  function Least(x: int, y: int): int { if x < y then x else y }

  // ----- How far a session reads ----------------------------------------------------------

  type Size = n: int | 0 < n witness 1

  /** A receive that completes with up to size bytes, and the answer to the WSARecv after it. */
  datatype Receive = Receive(size: Size, answer: Posting)

  /** After these bytes no receive is posted: a bad header, or a full ring. */
  predicate Halted(s: seq<Byte>) {
    Parse(s).bad || |Parse(s).rest| >= RING_CAPACITY
  }

  /** Where the receives rs end in the stream when they start at r: each takes what it can, limited
      by the free part of the ring and by what the peer has sent, until the session halts or a
      WSARecv fails. */
  function Taken(stream: seq<Byte>, rs: seq<Receive>, r: nat): (end: nat)
    requires r <= |stream|
    ensures r <= end <= |stream|
    decreases |rs|
  {
    if rs == [] || r == |stream| || Halted(stream[..r]) then r
    else
      var next := r + Least(rs[0].size, Least(RING_CAPACITY - |Parse(stream[..r]).rest|, |stream| - r));
      if rs[0].answer == HardError then next else Taken(stream, rs[1..], next)
  }

  /** One receive of k bytes, for the parser and for what is delivered. */
  lemma ReceiveOne(owner: int, stream: seq<Byte>, r: nat, k: nat)
    requires r + k <= |stream| && !Parse(stream[..r]).bad
    ensures var p, data := Parse(stream[..r]), stream[r..r + k];
            var q := Parse(p.rest + data);
            && Parse(stream[..r + k]) == Parsed(p.frames + q.frames, q.rest, q.bad)
            && Owned(owner, p.frames) + Owned(owner, q.frames) == Owned(owner, p.frames + q.frames)
  {
    hide Parse;
    ParseResumes(stream[..r], stream[r..r + k]);
    assert stream[..r] + stream[r..r + k] == stream[..r + k];
    OwnedConcat(owner, Parse(stream[..r]).frames, Parse(Parse(stream[..r]).rest + stream[r..r + k]).frames);
  }

  /** Enough receives read everything, or until the session halts. */
  lemma {:induction false} AllTaken(stream: seq<Byte>, rs: seq<Receive>, r: nat)
    requires r <= |stream| && |stream| - r <= |rs|
    requires forall k :: 0 <= k < |rs| ==> rs[k].answer == Posted
    ensures var end := Taken(stream, rs, r); end == |stream| || Halted(stream[..end])
    decreases |rs|
  {
    hide Parse, Halted;
    if rs != [] && r < |stream| && !Halted(stream[..r]) {
      NotHalted(stream[..r]);
      var next := r + Least(rs[0].size, Least(RING_CAPACITY - |Parse(stream[..r]).rest|, |stream| - r));
      AllTaken(stream, rs[1..], next);
    }
  }

  lemma NotHalted(s: seq<Byte>)
    requires !Halted(s)
    ensures !Parse(s).bad && |Parse(s).rest| < RING_CAPACITY
  {
  }

  /** Whatever good frames are sent, enough receives deliver exactly them. */
  lemma GoodStreamTaken(fs: seq<Frame>, rs: seq<Receive>)
    requires forall f :: f in fs ==> Sendable(f)
    requires |EncodeAll(fs)| <= |rs| && forall k :: 0 <= k < |rs| ==> rs[k].answer == Posted
    ensures var stream := EncodeAll(fs);
            && Taken(stream, rs, 0) == |stream| && stream[..|stream|] == stream
            && Parse(stream) == Parsed(fs, [], false) && !Halted(stream)
  {
    hide Parse;
    var stream := EncodeAll(fs);
    AllTaken(stream, rs, 0);
    FramesComeBack(fs);
    var end := Taken(stream, rs, 0);
    PrefixNeverStops(fs, stream[..end]);
  }

  /** The receives can be taken in two parts. */
  lemma {:induction false} TakenInParts(stream: seq<Byte>, rs: seq<Receive>, n: nat, r: nat)
    requires r <= |stream| && n <= |rs|
    ensures var mid := Taken(stream, rs[..n], r);
            Taken(stream, rs, r) == mid || Taken(stream, rs, r) == Taken(stream, rs[n..], mid)
    decreases n
  {
    hide Parse, Halted;
    if n == 0 {
      assert rs[..0] == [] && rs[0..] == rs;
    } else if r < |stream| && !Halted(stream[..r]) {
      NotHalted(stream[..r]);
      var next := r + Least(rs[0].size, Least(RING_CAPACITY - |Parse(stream[..r]).rest|, |stream| - r));
      assert rs[..n][0] == rs[0] && rs[..n][1..] == rs[1..][..n - 1] && rs[1..][n - 1..] == rs[n..];
      if rs[0].answer == Posted { TakenInParts(stream, rs[1..], n - 1, next); }
    }
  }

  /** What is left never exceeds the ring. */
  lemma {:induction false} TakenFits(stream: seq<Byte>, rs: seq<Receive>, r: nat)
    requires r <= |stream| && |Parse(stream[..r]).rest| <= RING_CAPACITY
    ensures |Parse(stream[..Taken(stream, rs, r)]).rest| <= RING_CAPACITY
    decreases |rs|
  {
    hide Parse;
    if rs != [] && r < |stream| && !Halted(stream[..r]) {
      var p := Parse(stream[..r]);
      var k := Least(rs[0].size, Least(RING_CAPACITY - |p.rest|, |stream| - r));
      ParseResumes(stream[..r], stream[r..r + k]);
      assert stream[..r] + stream[r..r + k] == stream[..r + k];
      assert |Parse(p.rest + stream[r..r + k]).rest| <= |p.rest| + k;
      if rs[0].answer == Posted { TakenFits(stream, rs[1..], r + k); }
    }
  }

  /** From a frame that is larger than the ring on, every byte read goes behind it. */
  lemma {:induction false} OversizeStays(stream: seq<Byte>, rs: seq<Receive>, r: nat)
    requires r <= |stream| && OversizeHead(stream[..r]) && |Parse(stream[..r]).rest| <= RING_CAPACITY
    ensures var p, q := Parse(stream[..r]), Parse(stream[..Taken(stream, rs, r)]);
            q.frames == p.frames && !q.bad && |q.rest| == |p.rest| + Taken(stream, rs, r) - r <= RING_CAPACITY
    decreases |rs|
  {
    hide Parse, OversizeHead;
    if rs != [] && r < |stream| && !Halted(stream[..r]) {
      var k := Least(rs[0].size, Least(RING_CAPACITY - |Parse(stream[..r]).rest|, |stream| - r));
      OversizeWaits(stream[..r], stream[r..r + k]);
      assert stream[..r] + stream[r..r + k] == stream[..r + k];
      if rs[0].answer == Posted { OversizeStays(stream, rs[1..], r + k); }
    } else {
      OversizeIsGood(stream[..r]);
    }
  }

  lemma OversizeIsGood(s: seq<Byte>)
    requires OversizeHead(s)
    ensures !Parse(s).bad
  {
  }

  /** Once a frame that is larger than the ring is at its head, a session delivers nothing more
      however much arrives, and it halts if and only if the ring is full. */
  lemma OversizeNeverDelivered(stream: seq<Byte>, rs: seq<Receive>, n: nat)
    requires n <= |rs| && OversizeHead(stream[..Taken(stream, rs[..n], 0)])
    ensures var mid, end := Taken(stream, rs[..n], 0), Taken(stream, rs, 0);
            && Parse(stream[..end]).frames == Parse(stream[..mid]).frames
            && (Halted(stream[..end]) <==> |Parse(stream[..end]).rest| == RING_CAPACITY)
  {
    hide Parse, OversizeHead;
    EmptyParse(stream[..0]);
    TakenFits(stream, rs[..n], 0);
    TakenInParts(stream, rs, n, 0);
    var mid := Taken(stream, rs[..n], 0);
    OversizeStays(stream, rs[n..], mid);
    OversizeIsGood(stream[..mid]);
  }

  // ----- The session's receive side -------------------------------------------------------

  class Receiver {
    const ring: RingBuffer
    const sessionID: int
    var delivered: seq<Delivery>
    var live: bool             // mLive
    var posted: bool           // a WSARecv is outstanding
    var disconnected: bool     // disconnectSession has been called

    ghost predicate Valid()
      reads this, ring
    {
      ring.Valid() && ring.buf.Length == RING_CAPACITY + 1
    }

    /** A session as completeAcceptEx leaves it: the ring is empty and a receive is posted. */
    constructor (id: int)
      ensures Valid() && fresh(ring) && fresh(ring.buf) && ring.Contents() == [] && sessionID == id
      ensures delivered == [] && live && posted && !disconnected
    {
      ring := new RingBuffer(RING_CAPACITY + 1);
      sessionID := id;
      delivered, live, posted, disconnected := [], true, true, false;
    }

    /** Posts the free part of the ring as one or two segments if the session is alive, or
        disconnects when the ring is full; answer is that of WSARecv. */
    method RegisterRecv(answer: Posting)
      requires Valid() && !posted
      modifies this
      ensures Valid() && unchanged(`delivered) && unchanged(ring) && unchanged(ring.buf)
      ensures posted == (|ring.Contents()| < 2000 && old(live) && answer == Posted)
      ensures live == (|ring.Contents()| < 2000 && old(live) && answer == Posted)
      ensures disconnected == (old(disconnected) || |ring.Contents()| == 2000)
    {
      if ring.GetFreeSize() == 0 {
        live, disconnected := false, true;
        return;
      }
      if live {
        match answer
        case Posted => posted := true;
        case HardError => live := false;
      }
    }

    /** The first n bytes of the contents, as they lie in the buffer: in one piece or in two. */
    static lemma Pieces(b: seq<Byte>, f: int, r: int, n: int)
      requires InReach(|b|, f, r) && 0 < n <= UseSize(|b|, f, r)
      ensures var d := DirectDequeueSize(|b|, f, r);
              && 0 <= f && 0 <= d && n < |b|
              && if d < n then f + d <= |b| && b[f..f + d] + b[..n - d] == Stored(b, f, r)[..n]
                 else f + n <= |b| && b[f..f + n] == Stored(b, f, r)[..n]
    {
      if f > r {
        assert b[f..] == b[f..|b|];
      }
    }

    /** A message with the first n bytes of the contents, copied in one or two pieces. */
    method Assemble(n: int, key: Byte) returns (msg: Message)
      requires Valid() && 0 < n <= |ring.Contents()|
      ensures fresh(msg) && fresh(msg.buf) && msg.Valid() && msg.Unread() == ring.Contents()[..n] && msg.randKey == key
    {
      hide Stored, Vacancy, InReach, UseSize, DirectDequeueSize;
      Pieces(ring.buf[..], ring.front, ring.rear, n);
      msg := new Message();
      msg.InitMessage(sessionID, key);
      var direct := DirectDequeueSize(ring.buf.Length, ring.front, ring.rear);
      if direct < n {
        var r := msg.PutData(ring.buf[ring.front..ring.front + direct]);
        assert r.Moved?;
        r := msg.PutData(ring.buf[..n - direct]);
        assert r.Moved?;
      } else {
        var r := msg.PutData(ring.buf[ring.front..ring.front + n]);
        assert r.Moved?;
      }
    }

    /** Takes the payload of a frame of n bytes out of the ring. */
    method TakePayload(n: int, key: Byte) returns (f: Frame)
      requires Valid() && 0 < n <= |ring.Contents()|
      modifies ring
      ensures Valid() && f == Frame(key, old(ring.Contents())[..n]) && ring.Contents() == old(ring.Contents())[n..]
    {
      hide Stored, Vacancy, InReach, UseSize, DirectDequeueSize;
      var msg := Assemble(n, key);
      ring.MoveFront(n);
      f := Frame(msg.randKey, msg.buf[msg.front..msg.rear]);
    }

    /** The completion of a receive that has put data behind the rear pointer. */
    method CompleteRecv(transferred: int, answer: Posting)
      requires Valid() && posted && 0 < transferred <= ring.GetFreeSize()
      modifies this, ring
      ensures Valid()
      ensures var p := Parse(old(ring.Contents()) + old(ring.Vacant())[..transferred]);
              && delivered == old(delivered) + Owned(sessionID, p.frames)
              && ring.Contents() == p.rest
              && posted == live == (!p.bad && |p.rest| < RING_CAPACITY && old(live) && answer == Posted)
              && disconnected == (old(disconnected) || p.bad || |p.rest| == RING_CAPACITY)
    {
      hide Parse, Underway, Stored, Vacancy, InReach, UseSize, FreeSize;
      posted := false;
      ring.MoveRear(transferred);
      ghost var whole := ring.Contents();
      ghost var done: seq<Frame> := [];
      StartParse(whole);
      var use := ring.GetUseSize();
      while HEADER_SIZE < use
        invariant Valid() && use == |ring.Contents()|
        invariant disconnected == old(disconnected) && live == old(live) && !posted
        invariant delivered == old(delivered) + Owned(sessionID, done)
        invariant Underway(whole, done, ring.Contents())
        decreases use
      {
        var n, header := ring.Peek(HEADER_SIZE);
        var len := Int16(header[0], header[1]);
        ghost var c := ring.Contents();
        if len <= 0 {
          StopParse(whole, done, c);
          live, disconnected := false, true;
          return;
        }
        if len + HEADER_SIZE > use {
          break;
        }
        TakeFrame(whole, done, c);
        n, header := ring.Dequeue(HEADER_SIZE);
        var f := TakePayload(len, header[2]);
        OwnedConcat(sessionID, done, [f]);
        delivered, done := delivered + [Delivery(sessionID, f)], done + [f];
        use := ring.GetUseSize();
      }
      StopParse(whole, done, ring.Contents());
      RegisterRecv(answer);
    }

    /** The receives of a session over a peer's stream: exactly the bytes that they can take are
        read, and what is delivered and left is one parse of all of them. */
    method Drive(stream: seq<Byte>, rs: seq<Receive>) returns (read: nat)
      requires Valid() && live && posted && !disconnected && ring.Contents() == [] && delivered == []
      modifies this, ring, ring.buf
      ensures Valid() && read == Taken(stream, rs, 0)
      ensures var p := Parse(stream[..read]);
              && delivered == Owned(sessionID, p.frames)
              && ring.Contents() == p.rest
              && disconnected == Halted(stream[..read])
    {
      hide Parse, Owned, Stored, Vacancy, InReach;
      assert Owned(sessionID, []) == [];
      read := 0;
      assert Parse(stream[..0]) == Parsed([], [], false) by { EmptyParse(stream[..0]); }
      var i := 0;
      while i < |rs| && posted && read < |stream|
        invariant Valid() && i <= |rs| && read <= |stream|
        invariant Taken(stream, rs, 0) == if posted then Taken(stream, rs[i..], read) else read
        invariant var p := Parse(stream[..read]);
                  && delivered == Owned(sessionID, p.frames)
                  && ring.Contents() == p.rest
                  && disconnected == Halted(stream[..read])
        invariant posted ==> live && !disconnected
      {
        var k := Least(rs[i].size, Least(ring.GetFreeSize(), |stream| - read));
        var data := stream[read..read + k];
        ReceiveOne(sessionID, stream, read, k);
        ring.Fill(data);
        CompleteRecv(k, rs[i].answer);
        read := read + k;
        assert rs[i..][1..] == rs[i + 1..];
        i := i + 1;
      }
    }
  }
}
