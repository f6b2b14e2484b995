/**
 Length-prefixed framing: what completeRecv must deliver for a byte stream, as one parse of the
 whole stream, and the proof that cutting the stream changes nothing.
 */
module Framing {
  import opened Ring
  import opened Messages

  const HEADER_SIZE := 3
  /** CONFIG_RINGBUFFER_SIZE - 1. */
  const RING_CAPACITY := 2000

  datatype Frame = Frame(key: Byte, payload: seq<Byte>)

  /** The messages at the head of a stream, what is left after them, and whether the parse
      stopped at a header with a non-positive length. */
  datatype Parsed = Parsed(frames: seq<Frame>, rest: seq<Byte>, bad: bool)

  function Len(s: seq<Byte>): int
    requires |s| >= 2
  {
    Int16(s[0], s[1])
  }

  /** The batch parser: the specification. */
  function Parse(s: seq<Byte>): (p: Parsed)
    ensures |p.rest| <= |s|
  {
    if |s| <= HEADER_SIZE then Parsed([], s, false)
    else if Len(s) <= 0 then Parsed([], s, true)
    else if Len(s) + HEADER_SIZE <= |s| then
      var p := Parse(s[HEADER_SIZE + Len(s)..]);
      Parsed([Frame(s[2], s[HEADER_SIZE..HEADER_SIZE + Len(s)])] + p.frames, p.rest, p.bad)
    else Parsed([], s, false)
  }

  lemma EmptyParse(s: seq<Byte>)
    requires s == []
    ensures Parse(s) == Parsed([], [], false)
  {
  }

  function Resumed(p: Parsed, more: seq<Byte>): Parsed {
    if p.bad then p.(rest := p.rest + more)
    else
      var q := Parse(p.rest + more);
      Parsed(p.frames + q.frames, q.rest, q.bad)
  }

  /** A whole frame at the head of the stream comes first. */
  lemma ParseFrame(s: seq<Byte>)
    requires HEADER_SIZE < |s| && 0 < Len(s) && Len(s) + HEADER_SIZE <= |s|
    ensures var n, p := HEADER_SIZE + Len(s), Parse(s[HEADER_SIZE + Len(s)..]);
            Parse(s) == Parsed([Frame(s[2], s[HEADER_SIZE..n])] + p.frames, p.rest, p.bad)
  {
  }

  lemma ParseWaits(s: seq<Byte>, more: seq<Byte>)
    requires HEADER_SIZE < |s| ==> Len(s) <= 0 || Len(s) + HEADER_SIZE > |s|
    ensures Parse(s + more) == Resumed(Parse(s), more)
  {
    if HEADER_SIZE < |s| { assert Len(s + more) == Len(s); }
    assert [] + Parse(s + more).frames == Parse(s + more).frames;
  }

  lemma ResumedFrame(f: Frame, p: Parsed, more: seq<Byte>)
    ensures Resumed(Parsed([f] + p.frames, p.rest, p.bad), more)
            == Parsed([f] + Resumed(p, more).frames, Resumed(p, more).rest, Resumed(p, more).bad)
  {
    hide Parse;
    if !p.bad { assert ([f] + p.frames) + Parse(p.rest + more).frames == [f] + (p.frames + Parse(p.rest + more).frames); }
  }

  /** Parsing can stop at any byte and resume with what was left. */
  lemma {:induction false} ParseResumes(s: seq<Byte>, more: seq<Byte>)
    ensures Parse(s + more) == Resumed(Parse(s), more)
  {
    if HEADER_SIZE < |s| && 0 < Len(s) && Len(s) + HEADER_SIZE <= |s| {
      var n := HEADER_SIZE + Len(s);
      assert Len(s + more) == Len(s);
      assert (s + more)[n..] == s[n..] + more;
      assert (s + more)[HEADER_SIZE..n] == s[HEADER_SIZE..n];
      ParseResumes(s[n..], more);
      ParseFrame(s);
      ParseFrame(s + more);
      hide Parse, Len, Resumed;
      ResumedFrame(Frame(s[2], s[HEADER_SIZE..n]), Parse(s[n..]), more);
    } else {
      ParseWaits(s, more);
    }
  }

  /** A parse of whole that has delivered done and has c still to read. */
  ghost predicate Underway(whole: seq<Byte>, done: seq<Frame>, c: seq<Byte>) {
    Parse(whole) == Parsed(done + Parse(c).frames, Parse(c).rest, Parse(c).bad)
  }

  lemma StartParse(whole: seq<Byte>)
    ensures Underway(whole, [], whole)
  {
    assert [] + Parse(whole).frames == Parse(whole).frames;
  }

  lemma TakeFrame(whole: seq<Byte>, done: seq<Frame>, c: seq<Byte>)
    requires Underway(whole, done, c)
    requires HEADER_SIZE < |c| && 0 < Len(c) && Len(c) + HEADER_SIZE <= |c|
    ensures Underway(whole, done + [Frame(c[2], c[HEADER_SIZE..][..Len(c)])], c[HEADER_SIZE..][Len(c)..])
  {
    var n := HEADER_SIZE + Len(c);
    assert c[HEADER_SIZE..][..Len(c)] == c[HEADER_SIZE..n] && c[HEADER_SIZE..][Len(c)..] == c[n..];
    var f := Frame(c[2], c[HEADER_SIZE..n]);
    assert done + ([f] + Parse(c[n..]).frames) == done + [f] + Parse(c[n..]).frames;
  }

  lemma StopParse(whole: seq<Byte>, done: seq<Frame>, c: seq<Byte>)
    requires Underway(whole, done, c)
    requires |c| <= HEADER_SIZE || Len(c) <= 0 || Len(c) + HEADER_SIZE > |c|
    ensures Parse(whole) == Parsed(done, c, HEADER_SIZE < |c| && Len(c) <= 0)
  {
    assert done + [] == done;
  }

  // ----- The stream in pieces -------------------------------------------------------------

  function Concat<T>(cs: seq<seq<T>>): seq<T> {
    if cs == [] then [] else Concat(cs[..|cs| - 1]) + cs[|cs| - 1]
  }

  /** The receiver after one receive of c: the leftover is parsed again with c behind it. After a
      bad header no receive is posted, so nothing more is read. */
  function Received(p: Parsed, c: seq<Byte>): Parsed {
    if p.bad then p
    else
      var q := Parse(p.rest + c);
      Parsed(p.frames + q.frames, q.rest, q.bad)
  }

  function Run(cs: seq<seq<Byte>>): Parsed {
    if cs == [] then Parsed([], [], false) else Received(Run(cs[..|cs| - 1]), cs[|cs| - 1])
  }

  /** Chunk independence: however the stream is cut, the receives together deliver what one parse
      of the whole stream delivers, stop if and only if it stops, and otherwise leave the same rest. */
  lemma {:induction false} ChunksDoNotMatter(cs: seq<seq<Byte>>)
    ensures Run(cs).frames == Parse(Concat(cs)).frames
    ensures Run(cs).bad == Parse(Concat(cs)).bad
    ensures !Run(cs).bad ==> Run(cs) == Parse(Concat(cs))
  {
    if cs != [] {
      var before, c := cs[..|cs| - 1], cs[|cs| - 1];
      ChunksDoNotMatter(before);
      ParseResumes(Concat(before), c);
    }
  }

  // ----- What a leftover looks like -------------------------------------------------------

  /** A leftover is too short for a header and a byte, or is the beginning of one frame. */
  lemma {:induction false} RestIsPartial(s: seq<Byte>)
    requires !Parse(s).bad
    ensures var r := Parse(s).rest;
            |r| <= HEADER_SIZE || (0 < Len(r) && |r| < Len(r) + HEADER_SIZE)
    ensures Parse(Parse(s).rest) == Parsed([], Parse(s).rest, false)
  {
    if HEADER_SIZE < |s| && Len(s) + HEADER_SIZE <= |s| {
      RestIsPartial(s[HEADER_SIZE + Len(s)..]);
    }
  }

  /** The parse stops for good if and only if a header with a non-positive length is left. */
  lemma {:induction false} BadRest(s: seq<Byte>)
    ensures Parse(s).bad <==> HEADER_SIZE < |Parse(s).rest| && Len(Parse(s).rest) <= 0
  {
    if HEADER_SIZE < |s| && 0 < Len(s) && Len(s) + HEADER_SIZE <= |s| {
      BadRest(s[HEADER_SIZE + Len(s)..]);
    }
  }

  /** The ring is full after parsing only when the frame at its head can never fit. */
  lemma FullMeansOversize(s: seq<Byte>)
    requires !Parse(s).bad && |Parse(s).rest| == RING_CAPACITY
    ensures Len(Parse(s).rest) + 3 > 2000
  {
    RestIsPartial(s);
  }

  /** What is left of s begins a frame that is larger than the ring. */
  predicate OversizeHead(s: seq<Byte>) {
    var p := Parse(s);
    !p.bad && HEADER_SIZE < |p.rest| && Len(p.rest) + HEADER_SIZE > RING_CAPACITY
  }

  /** As long as the ring holds it, more bytes only add to it. */
  lemma OversizeWaits(s: seq<Byte>, more: seq<Byte>)
    requires OversizeHead(s) && |Parse(s).rest| + |more| <= RING_CAPACITY
    ensures Parse(s + more) == Parsed(Parse(s).frames, Parse(s).rest + more, false) && OversizeHead(s + more)
  {
    ParseResumes(s, more);
    assert Parse(s).frames + [] == Parse(s).frames;
  }

  // ----- Building frames ------------------------------------------------------------------

  /** The bytes of a frame: the length, the key, the payload. */
  function Encode(f: Frame): seq<Byte> {
    LE(|f.payload|, 2) + [f.key] + f.payload
  }

  function EncodeAll(fs: seq<Frame>): seq<Byte> {
    if fs == [] then [] else Encode(fs[0]) + EncodeAll(fs[1..])
  }

  /** Long enough to be delivered, and short enough for the ring. */
  predicate Sendable(f: Frame) {
    1 <= |f.payload| <= RING_CAPACITY - HEADER_SIZE
  }

  lemma ParseOne(f: Frame, more: seq<Byte>)
    requires Sendable(f)
    ensures Parse(Encode(f) + more) == Parsed([f] + Parse(more).frames, Parse(more).rest, Parse(more).bad)
  {
    var s := Encode(f) + more;
    Int16RoundTrip(|f.payload|);
    assert Len(s) == |f.payload| && s[2] == f.key;
    assert s[HEADER_SIZE..HEADER_SIZE + Len(s)] == f.payload;
    assert s[HEADER_SIZE + Len(s)..] == more;
  }

  /** Framing is a round trip: any sequence of frames comes back, with nothing left. */
  lemma {:induction false} FramesComeBack(fs: seq<Frame>)
    requires forall f :: f in fs ==> Sendable(f)
    ensures Parse(EncodeAll(fs)) == Parsed(fs, [], false)
  {
    if fs != [] {
      FramesComeBack(fs[1..]);
      ParseOne(fs[0], EncodeAll(fs[1..]));
      assert fs == [fs[0]] + fs[1..];
    }
  }

  /** While good frames arrive, no prefix of the stream stops the receiver or fills its ring. */
  lemma {:induction false} PrefixNeverStops(fs: seq<Frame>, s: seq<Byte>)
    requires forall f :: f in fs ==> Sendable(f)
    requires s <= EncodeAll(fs)
    ensures !Parse(s).bad && |Parse(s).rest| < RING_CAPACITY
  {
    if fs != [] {
      assert fs[0] in fs;
      var e, all := Encode(fs[0]), EncodeAll(fs);
      if |e| <= |s| {
        var more := s[|e|..];
        assert s == all[..|s|] && all == e + EncodeAll(fs[1..]);
        assert s == e + more && more <= EncodeAll(fs[1..]);
        ParseOne(fs[0], more);
        PrefixNeverStops(fs[1..], more);
      } else if HEADER_SIZE < |s| {
        assert Sendable(fs[0]);
        Int16RoundTrip(|fs[0].payload|);
        assert s == e[..|s|];
        assert Len(s) == |fs[0].payload|;
      }
    }
  }

  /** Any frames, concatenated and cut in any way, are received exactly, in order. */
  lemma RoundTripInChunks(fs: seq<Frame>, cs: seq<seq<Byte>>)
    requires forall f :: f in fs ==> Sendable(f)
    requires Concat(cs) == EncodeAll(fs)
    ensures Run(cs) == Parsed(fs, [], false)
  {
    ChunksDoNotMatter(cs);
    FramesComeBack(fs);
  }
}
