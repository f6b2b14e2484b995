/**
 The message codec (SerializeBuffer_exception.cpp): a checksum, then two chained exclusive-ors, in
 place over the bytes from the checksum to the end of the message. All arithmetic is on bytes and
 wraps around.
 */
module Codec {

  type byte = bv8

  /** The position counter as it enters byte arithmetic. */
  function Low(i: nat): byte {
    (i % 256) as byte
  }

  /** The sum of the bytes. */
  function Sum(s: seq<byte>): byte {
    if s == [] then 0 else Sum(s[..|s| - 1]) + s[|s| - 1]
  }

  /** One link of a chain: the byte is masked with its predecessor, a key and its position. */
  function Mask(x: byte, before: byte, key: byte, i: nat): byte {
    x ^ (before + key + Low(i))
  }

  lemma MaskTwice(x: byte, before: byte, key: byte, i: nat)
    ensures Mask(Mask(x, before, key, i), before, key, i) == x
  {
    hide Low;
    var b := before + key + Low(i);
    assert (x ^ b) ^ b == x;
  }

  /** The first chain, under the random key, runs over the results of its own masking. */
  function P(rk: byte, d: seq<byte>, i: nat): byte
    requires i <= |d|
  {
    if i == 0 then 0 else Mask(d[i - 1], P(rk, d, i - 1), rk, i)
  }

  /** The second chain, over the first, under the fixed key. */
  function E(k: byte, rk: byte, d: seq<byte>, i: nat): byte
    requires i <= |d|
  {
    if i == 0 then 0 else Mask(P(rk, d, i), E(k, rk, d, i - 1), k, i)
  }

  function Encode(k: byte, rk: byte, d: seq<byte>): (c: seq<byte>)
    ensures |c| == |d|
  {
    seq(|d|, i requires 0 <= i < |d| => E(k, rk, d, i + 1))
  }

  /** The second chain undone: it needs the encoded byte and the one before it only. */
  function Unmask(k: byte, c: seq<byte>, i: nat): byte
    requires i <= |c|
  {
    if i == 0 then 0 else Mask(c[i - 1], if i == 1 then 0 else c[i - 2], k, i)
  }

  function Decode(k: byte, rk: byte, c: seq<byte>): (d: seq<byte>)
    ensures |d| == |c|
  {
    seq(|c|, i requires 0 <= i < |c| => Mask(Unmask(k, c, i + 1), Unmask(k, c, i), rk, i + 1))
  }

  // ----- Bijection ------------------------------------------------------------------------

  lemma UnmaskEncoded(k: byte, rk: byte, d: seq<byte>, i: nat)
    requires i <= |d|
    ensures Unmask(k, Encode(k, rk, d), i) == P(rk, d, i)
  {
    hide Mask;
    if i > 0 {
      MaskTwice(P(rk, d, i), E(k, rk, d, i - 1), k, i);
    }
  }

  /** Decoding under the same keys gives back what was encoded. */
  lemma DecodeEncode(k: byte, rk: byte, d: seq<byte>)
    ensures Decode(k, rk, Encode(k, rk, d)) == d
  {
    hide Mask, Unmask, Encode;
    forall i | 0 <= i < |d|
      ensures Decode(k, rk, Encode(k, rk, d))[i] == d[i]
    {
      UnmaskEncoded(k, rk, d, i);
      UnmaskEncoded(k, rk, d, i + 1);
      MaskTwice(d[i], P(rk, d, i), rk, i + 1);
    }
  }

  lemma {:induction false} DecodedMask(k: byte, rk: byte, c: seq<byte>, i: nat)
    requires i <= |c|
    ensures P(rk, Decode(k, rk, c), i) == Unmask(k, c, i)
  {
    hide Mask;
    if i > 0 {
      DecodedMask(k, rk, c, i - 1);
      MaskTwice(Unmask(k, c, i), Unmask(k, c, i - 1), rk, i);
    }
  }

  lemma {:induction false} DecodedByte(k: byte, rk: byte, c: seq<byte>, i: nat)
    requires i <= |c|
    ensures E(k, rk, Decode(k, rk, c), i) == if i == 0 then 0 else c[i - 1]
  {
    hide Mask, Decode, P;
    if i > 0 {
      DecodedByte(k, rk, c, i - 1);
      DecodedMask(k, rk, c, i);
      MaskTwice(c[i - 1], if i == 1 then 0 else c[i - 2], k, i);
    }
  }

  /** Every byte string is the encoding of what it decodes to. */
  lemma EncodeDecode(k: byte, rk: byte, c: seq<byte>)
    ensures Encode(k, rk, Decode(k, rk, c)) == c
  {
    hide Decode, E;
    forall i | 0 <= i < |c|
      ensures Encode(k, rk, Decode(k, rk, c))[i] == c[i]
    {
      DecodedByte(k, rk, c, i + 1);
    }
  }

  /** With the keys fixed, encoding is a bijection on the byte strings of each length. */
  lemma Bijection(k: byte, rk: byte, d: seq<byte>, c: seq<byte>)
    ensures Encode(k, rk, d) == c <==> d == Decode(k, rk, c)
  {
    hide Encode, Decode;
    DecodeEncode(k, rk, d);
    EncodeDecode(k, rk, c);
  }

  lemma UnmaskZero(k: byte, c: seq<byte>)
    ensures Unmask(k, c, 0) == 0
  {
  }

  lemma ChainsStart(k: byte, rk: byte, d: seq<byte>)
    ensures P(rk, d, 0) == 0 && E(k, rk, d, 0) == 0
  {
  }

  // ----- Self-synchronisation -------------------------------------------------------------

  /** A decoded byte depends on its own encoded byte and the two before it, and on nothing else. */
  lemma DependsOnThree(k: byte, rk: byte, c: seq<byte>, c': seq<byte>, i: nat)
    requires |c| == |c'| && i < |c|
    requires c[i] == c'[i] && (i >= 1 ==> c[i - 1] == c'[i - 1]) && (i >= 2 ==> c[i - 2] == c'[i - 2])
    ensures Decode(k, rk, c)[i] == Decode(k, rk, c')[i]
  {
    hide Mask;
    assert Unmask(k, c, i) == Unmask(k, c', i);
    assert Unmask(k, c, i + 1) == Unmask(k, c', i + 1);
  }

  /** One damaged byte damages the byte in its place and at most the next two. */
  lemma DamageIsLocal(k: byte, rk: byte, c: seq<byte>, j: nat, b: byte)
    requires j < |c| && b != c[j]
    ensures var d, d' := Decode(k, rk, c), Decode(k, rk, c[j := b]);
            && d'[j] != d[j]
            && forall i :: 0 <= i < |c| && i != j && i != j + 1 && i != j + 2 ==> d'[i] == d[i]
  {
    hide Mask;
    var c' := c[j := b];
    forall i | 0 <= i < |c| && i != j && i != j + 1 && i != j + 2
      ensures Decode(k, rk, c')[i] == Decode(k, rk, c)[i]
    {
      DependsOnThree(k, rk, c, c', i);
    }
    assert Unmask(k, c', j) == Unmask(k, c, j);
    var before := if j == 0 then 0 else c[j - 1];
    MaskTwice(b, before, k, j + 1);
    MaskTwice(c[j], before, k, j + 1);
    MaskTwice(Unmask(k, c, j + 1), Unmask(k, c, j), rk, j + 1);
    MaskTwice(Unmask(k, c', j + 1), Unmask(k, c, j), rk, j + 1);
  }

  // ----- The checksum ---------------------------------------------------------------------

  /** The first byte is the sum of the others; a message cut off before its checksum has none. */
  predicate Checks(d: seq<byte>) {
    d != [] ==> d[0] == Sum(d[1..])
  }

  function Checksummed(d: seq<byte>): (r: seq<byte>)
    ensures |r| == |d|
  {
    if d == [] then [] else d[0 := Sum(d[1..])]
  }

  /** Encoding, then decoding, gives back the message, and its checksum is found right. */
  lemma RoundTrip(k: byte, rk: byte, d: seq<byte>)
    ensures var back := Decode(k, rk, Encode(k, rk, Checksummed(d)));
            && back == Checksummed(d) && Checks(back)
            && (d != [] ==> back[1..] == d[1..])
  {
    DecodeEncode(k, rk, Checksummed(d));
    if d != [] {
      assert Checksummed(d)[1..] == d[1..];
    }
  }

  /** What passes the check is what encoding produces, and nothing else. */
  lemma PassesIffEncoded(k: byte, rk: byte, c: seq<byte>)
    ensures Checks(Decode(k, rk, c)) <==> exists d: seq<byte> :: Encode(k, rk, Checksummed(d)) == c
  {
    var d := Decode(k, rk, c);
    EncodeDecode(k, rk, c);
    if Checks(d) {
      assert Checksummed(d) == d;
      assert Encode(k, rk, Checksummed(d)) == c;
    }
    if e: seq<byte> :| Encode(k, rk, Checksummed(e)) == c {
      RoundTrip(k, rk, e);
    }
  }

  lemma SumNothing(d: seq<byte>)
    ensures d != [] ==> Sum(d[1..1]) == 0
  {
  }

  lemma SumNext(d: seq<byte>, i: nat)
    requires 1 <= i < |d|
    ensures Sum(d[1..i + 1]) == Sum(d[1..i]) + d[i]
  {
    assert d[1..i + 1][..i - 1] == d[1..i];
  }

  lemma EncodedAt(k: byte, rk: byte, d: seq<byte>, i: nat)
    requires 0 < i <= |d|
    ensures P(rk, d, i) == Mask(d[i - 1], P(rk, d, i - 1), rk, i)
    ensures Encode(k, rk, d)[i - 1] == E(k, rk, d, i) == Mask(P(rk, d, i), E(k, rk, d, i - 1), k, i)
  {
  }

  lemma DecodedAt(k: byte, rk: byte, c: seq<byte>, i: nat)
    requires 0 < i <= |c|
    ensures Unmask(k, c, i) == Mask(c[i - 1], if i == 1 then 0 else c[i - 2], k, i)
    ensures Decode(k, rk, c)[i - 1] == Mask(Unmask(k, c, i), Unmask(k, c, i - 1), rk, i)
  {
  }

  // ----- The bytes on the wire ------------------------------------------------------------

  /** The arithmetic of one chain, written out: y is the byte x masked with the byte before it, a key
      and the counter. */
  predicate Masked(x: byte, before: byte, key: byte, current: byte, y: byte) {
    y == x ^ (before + key + current)
  }

  /** One turn of the loop: x is a byte of the message, p what the first chain makes of it and c what
      goes on the wire; p0 and c0 are those of the byte before. */
  predicate Turn(rk: byte, x: byte, p0: byte, p: byte, c0: byte, c: byte, current: byte) {
    Masked(x, p0, rk, current, p) && Masked(p, c0, 0x32, current, c)
  }

  /** A body d, its first chain p and what is on the wire. */
  ghost predicate Chained(rk: byte, d: seq<byte>, p: seq<byte>, c: seq<byte>) {
    && |c| == |d| && |p| == |d| + 1 && p[0] == 0
    && forall i :: 1 <= i <= |d| ==>
         Turn(rk, d[i - 1], p[i - 1], p[i], if i == 1 then 0 else c[i - 2], c[i - 1], (i % 256) as bv8)
  }

  lemma MaskIs(x: byte, before: byte, key: byte, i: nat)
    ensures Masked(x, before, key, Low(i), Mask(x, before, key, i))
  {
    hide Low;
  }

  lemma MaskTurn(rk: byte, x: byte, p0: byte, c0: byte, i: nat)
    ensures var p := Mask(x, p0, rk, i); Turn(rk, x, p0, p, c0, Mask(p, c0, 0x32, i), Low(i))
  {
    MaskIs(x, p0, rk, i);
    MaskIs(Mask(x, p0, rk, i), c0, 0x32, i);
    hide Mask, Masked, Low;
  }

  lemma Counter(i: nat)
    ensures Low(i) == (i % 256) as bv8
  {
  }

  lemma EncodeTurn(rk: byte, d: seq<byte>, i: nat)
    requires 0 < i <= |d|
    ensures var c := Encode(0x32, rk, d);
            Turn(rk, d[i - 1], P(rk, d, i - 1), P(rk, d, i), if i == 1 then 0 else c[i - 2], c[i - 1], (i % 256) as bv8)
  {
    hide Mask, Turn, Low;
    Counter(i);
    EncodedAt(0x32, rk, d, i);
    ChainsStart(0x32, rk, d);
    if i > 1 { EncodedAt(0x32, rk, d, i - 1); }
    MaskTurn(rk, d[i - 1], P(rk, d, i - 1), E(0x32, rk, d, i - 1), i);
  }

  lemma EncodeChains(rk: byte, d: seq<byte>) returns (p: seq<byte>)
    ensures Chained(rk, d, p, Encode(0x32, rk, d))
  {
    hide Mask, Turn, Encode, E;
    ChainsStart(0x32, rk, d);
    p := seq(|d| + 1, i requires 0 <= i <= |d| => P(rk, d, i));
    forall i | 1 <= i <= |d|
      ensures var c := Encode(0x32, rk, d);
              Turn(rk, d[i - 1], p[i - 1], p[i], if i == 1 then 0 else c[i - 2], c[i - 1], (i % 256) as bv8)
    {
      EncodeTurn(rk, d, i);
    }
  }

  lemma DecodeChains(rk: byte, c: seq<byte>) returns (p: seq<byte>)
    ensures Chained(rk, Decode(0x32, rk, c), p, c)
  {
    hide P, E, Encode, Decode, Mask, Chained;
    p := EncodeChains(rk, Decode(0x32, rk, c));
    EncodeDecode(0x32, rk, c);
  }

  lemma TurnIsOne(rk: byte, x: byte, p0: byte, p: byte, c0: byte, c: byte, q: byte, e: byte, b: byte)
    requires Turn(rk, x, p0, p, c0, c, b) && Turn(rk, x, p0, q, c0, e, b)
    ensures p == q && c == e
  {
  }

  lemma {:induction false} ChainsAreOne(rk: byte, d: seq<byte>, p: seq<byte>, c: seq<byte>,
                                        q: seq<byte>, e: seq<byte>, m: nat)
    requires Chained(rk, d, p, c) && Chained(rk, d, q, e) && m <= |d|
    ensures p[m] == q[m] && (m > 0 ==> c[m - 1] == e[m - 1])
  {
    hide Turn;
    if m > 0 {
      ChainsAreOne(rk, d, p, c, q, e, m - 1);
      TurnIsOne(rk, d[m - 1], p[m - 1], p[m], if m == 1 then 0 else c[m - 2], c[m - 1], q[m], e[m - 1],
                (m % 256) as bv8);
    }
  }

  /** Whatever satisfies the arithmetic is what the codec computes, in both directions. */
  lemma ChainsDetermine(rk: byte, d: seq<byte>, c: seq<byte>)
    ensures (exists p: seq<byte> :: Chained(rk, d, p, c)) <==> c == Encode(0x32, rk, d)
    ensures (exists p: seq<byte> :: Chained(rk, d, p, c)) <==> d == Decode(0x32, rk, c)
  {
    hide P, E, Encode, Decode, Mask, Turn;
    var q := EncodeChains(rk, d);
    Bijection(0x32, rk, d, c);
    if p: seq<byte> :| Chained(rk, d, p, c) {
      var e := Encode(0x32, rk, d);
      forall m | 0 <= m < |d| ensures c[m] == e[m] { ChainsAreOne(rk, d, p, c, q, e, m + 1); }
      assert c == e;
    }
  }

  /** Two bodies of fixed bytes, and their encodings. */
  lemma KnownBytes()
    ensures Encode(0x32, 0, [0, 0]) == [0x32, 0x65] && Decode(0x32, 0, [0x32, 0x65]) == [0, 0]
    ensures Encode(0x32, 0x10, [0x78, 0xab, 0xcd]) == [0x5a, 0x5e, 0xbd]
    ensures Checksummed([7, 0xab, 0xcd]) == [0x78, 0xab, 0xcd]
  {
    hide P, E, Encode, Decode, Mask, Chained, Sum, Checksummed;
    ShortBody();
    LongBody();
    ChainsDetermine(0, [0, 0], [0x32, 0x65]);
    ChainsDetermine(0x10, [0x78, 0xab, 0xcd], [0x5a, 0x5e, 0xbd]);
    KnownSum();
  }

  lemma Counters()
    ensures (1 % 256) as bv8 == 1 && (2 % 256) as bv8 == 2 && (3 % 256) as bv8 == 3
  {
  }

  lemma ShortBody()
    ensures Chained(0, [0, 0], [0, 1, 3], [0x32, 0x65])
  {
    KnownTurns();
    Counters();
    hide Turn;
  }

  lemma LongBody()
    ensures Chained(0x10, [0x78, 0xab, 0xcd], [0, 0x69, 0xd0, 0x2e], [0x5a, 0x5e, 0xbd])
  {
    KnownTurns();
    Counters();
    hide Turn;
  }

  lemma KnownTurns()
    ensures Turn(0, 0, 0, 1, 0, 0x32, 1) && Turn(0, 0, 1, 3, 0x32, 0x65, 2)
    ensures Turn(0x10, 0x78, 0, 0x69, 0, 0x5a, 1) && Turn(0x10, 0xab, 0x69, 0xd0, 0x5a, 0x5e, 2)
    ensures Turn(0x10, 0xcd, 0xd0, 0x2e, 0x5e, 0xbd, 3)
  {
  }

  lemma KnownSum()
    ensures Checksummed([7, 0xab, 0xcd]) == [0x78, 0xab, 0xcd]
  {
    var d: seq<byte> := [7, 0xab, 0xcd];
    SumNothing(d);
    SumNext(d, 1);
    SumNext(d, 2);
    assert d[1..3] == d[1..];
  }

  /** The buffer with the first m bytes of the body, in its place, replaced. */
  ghost function Replaced(buffer: seq<byte>, front: nat, done: seq<byte>, m: nat): (r: seq<byte>)
    requires front + |done| <= |buffer| && m <= |done|
    ensures |r| == |buffer|
  {
    buffer[..front] + done[..m] + buffer[front + m..]
  }

  lemma ReplaceNext(buffer: seq<byte>, front: nat, done: seq<byte>, m: nat)
    requires front + |done| <= |buffer| && m < |done|
    ensures Replaced(buffer, front, done, m)[front + m] == buffer[front + m]
    ensures Replaced(buffer, front, done, m)[front + m := done[m]] == Replaced(buffer, front, done, m + 1)
  {
  }

  lemma ReplaceAll(buffer: seq<byte>, front: nat, done: seq<byte>)
    requires front + |done| <= |buffer|
    ensures Replaced(buffer, front, done, 0) == buffer
    ensures var r := Replaced(buffer, front, done, |done|);
            && r[front..front + |done|] == done
            && forall j :: 0 <= j < front || front + |done| <= j < |r| ==> r[j] == buffer[j]
  {
  }

  // ----- The message ----------------------------------------------------------------------

  const BY_RAND_KEY: nat := 3      // offsetof(stHeader, byRandKey)
  const BY_CHECK_SUM: nat := 4     // offsetof(stHeader, byCheckSum)
  const MAX_SIZE: nat := 3000

  class CMessage {
    const begin: array<byte>
    const K: byte := 0x32
    var size: nat                  // _size
    var rear: nat                  // _rearPtr - _begin

    ghost predicate Valid() reads this {
      begin.Length == MAX_SIZE && BY_CHECK_SUM <= rear <= MAX_SIZE
    }

    /** From the checksum to the end. */
    ghost function Body(): (s: seq<byte>)
      requires Valid()
      reads this, begin
      ensures |s| == rear - BY_CHECK_SUM
    {
      begin[BY_CHECK_SUM..rear]
    }

    /** The loop that adds up the bytes behind the checksum, in both directions the same. */
    method AddUp() returns (total: byte)
      requires Valid()
      ensures total == if rear == BY_CHECK_SUM then 0 else Sum(Body()[1..])
    {
      hide Sum;
      var front, len := BY_CHECK_SUM, rear - BY_CHECK_SUM;
      total := 0;
      SumNothing(Body());
      var i := 1;
      while i < len
        invariant 1 <= i && (i <= len || len == 0)
        invariant total == if len == 0 then 0 else Sum(Body()[1..i])
      {
        SumNext(Body(), i);
        total := total + begin[front + i];
        i := i + 1;
      }
      assert len > 0 ==> Body()[1..len] == Body()[1..];
    }

    method EnCoding(rk: byte)
      requires Valid()
      modifies begin
      ensures Body() == Encode(K, rk, Checksummed(old(Body())))
      ensures exists p: seq<byte> :: Chained(rk, Checksummed(old(Body())), p, Body())
      ensures begin[3] == rk && Body() == begin[4..rear]
      ensures rear == BY_CHECK_SUM < MAX_SIZE ==> begin[BY_CHECK_SUM] == 0
      ensures forall j :: 0 <= j < BY_RAND_KEY || rear <= j < MAX_SIZE ==>
                begin[j] == old(begin[j]) || j == BY_CHECK_SUM == rear
    {
      hide Mask, Encode, Sum, P, E, Replaced, Chained;
      begin[BY_RAND_KEY] := rk;
      assert Body() == old(Body());
      var total := AddUp();
      begin[BY_CHECK_SUM] := total;

      ghost var d := Checksummed(old(Body()));
      assert Body() == d;
      ghost var c := Encode(K, rk, d);
      ghost var summed := begin[..];
      ChainsStart(K, rk, d);
      ReplaceAll(summed, BY_CHECK_SUM, c);
      var current := 1;
      var p: byte, e: byte := 0, 0;
      while BY_CHECK_SUM + current - 1 != rear
        invariant 1 <= current <= |d| + 1
        invariant p == P(rk, d, current - 1) && e == E(K, rk, d, current - 1)
        invariant begin[..] == Replaced(summed, BY_CHECK_SUM, c, current - 1)
        decreases |d| + 1 - current
      {
        EncodedAt(K, rk, d, current);
        ReplaceNext(summed, BY_CHECK_SUM, c, current - 1);
        var at := BY_CHECK_SUM + current - 1;
        var d1 := begin[at];
        p := Mask(d1, p, rk, current);
        e := Mask(p, e, K, current);
        begin[at] := e;
        current := current + 1;
      }
      ghost var first := EncodeChains(rk, d);
    }

    /** An over-long message is refused and left alone. Otherwise the whole body is decoded under
        the random key in the header, also when the check then fails. */
    method DeCoding() returns (ok: bool)
      requires Valid()
      modifies begin
      ensures rear - BY_CHECK_SUM > size ==> !ok && begin[..] == old(begin[..])
      ensures rear - BY_CHECK_SUM <= size ==>
                && Body() == Decode(K, begin[3], old(Body()))
                && (exists p: seq<byte> :: Chained(begin[3], Body(), p, old(Body())))
                && ok == (if rear == BY_CHECK_SUM then begin[BY_CHECK_SUM] == 0 else Checks(Body()))
      ensures forall j :: 0 <= j < BY_CHECK_SUM || rear <= j < MAX_SIZE ==> begin[j] == old(begin[j])
    {
      hide Mask, Decode, Sum, Unmask, Replaced, Chained;
      var rk := begin[BY_RAND_KEY];
      if rear - BY_CHECK_SUM > size { return false; }
      ghost var c := Body();
      ghost var d := Decode(K, rk, c);
      ghost var received := begin[..];
      UnmaskZero(K, c);
      ReplaceAll(received, BY_CHECK_SUM, d);
      var p1: byte, e1: byte := 0, 0;
      var current := 1;
      while BY_CHECK_SUM + current - 1 != rear
        invariant 1 <= current <= |c| + 1
        invariant p1 == Unmask(K, c, current - 1) && e1 == (if current == 1 then 0 else c[current - 2])
        invariant begin[..] == Replaced(received, BY_CHECK_SUM, d, current - 1)
        decreases |c| + 1 - current
      {
        DecodedAt(K, rk, c, current);
        ReplaceNext(received, BY_CHECK_SUM, d, current - 1);
        var at := BY_CHECK_SUM + current - 1;
        var e2 := begin[at];
        var p2 := Mask(e2, e1, K, current);
        e1 := e2;
        var d2 := Mask(p2, p1, rk, current);
        p1 := p2;
        begin[at] := d2;
        current := current + 1;
      }
      assert Body() == d;
      ghost var first := DecodeChains(rk, c);
      var total := AddUp();
      ok := begin[BY_CHECK_SUM] == total;
    }
  }
}
