/**
 The packets that the chat server builds (ChattingServer.cpp): each is one well-formed frame, so
 whatever it sends is framed back to the same payloads by the receive path.
 */
module Packets {
  import opened Ring
  import opened Messages
  import opened Framing
  import opened ChatConfig
  import opened Receiver
  import opened Winsock

  const SC_LOGIN := 1
  const SC_AUTH := 3
  const SC_CHAT := 6

  /** An array of wchar_t as bytes. */
  function Wide(ws: seq<int>): (s: seq<Byte>)
    ensures |s| == 2 * |ws|
  {
    if ws == [] then [] else LE(ws[0], 2) + Wide(ws[1..])
  }

  /** Character k of an array is at bytes 2k and 2k + 1. */
  lemma {:induction false} WideAt(ws: seq<int>, k: nat)
    requires k < |ws|
    ensures Wide(ws)[2 * k] == ws[k] % 256 && Wide(ws)[2 * k + 1] == ws[k] / 256 % 256
  {
    LEBytes(ws[0]);
    hide LE;
    if k > 0 { WideAt(ws[1..], k - 1); }
  }

  function LoginPayload(result: int, seqNumber: int): seq<Byte> {
    LE(SC_LOGIN, 2) + LE(result, 1) + LE(seqNumber, 4)
  }

  function AuthPayload(x: int, y: int): seq<Byte> {
    LE(SC_AUTH, 2) + LE(x, 1) + LE(y, 1)
  }

  function ChatPayload(nickname: seq<int>, text: seq<int>): seq<Byte> {
    LE(SC_CHAT, 2) + Wide(nickname) + LE(|text|, 2) + Wide(text)
  }

  method PutHeader(msg: Message, len: int, rk: Byte)
    requires msg.Valid() && msg.Unread() == [] && msg.front == 0 && msg.end == BUFFER_SIZE
    modifies msg`rear, msg.buf
    ensures msg.Valid() && msg.Unread() == LE(len, 2) + [rk]
  {
    var r := msg.PutData(LE(len, 2) + [rk]);
    assert r.Moved?;
  }

  // ----- The bytes of the three packets ---------------------------------------------------

  /** Length 7, the key, type 1, the result, and the number in its four bytes. */
  lemma LoginBytes(rk: Byte, result: int, seqNumber: int)
    ensures Encode(Frame(rk, LoginPayload(result, seqNumber))) ==
            [7, 0, rk, 1, 0, result % 256, seqNumber % 256, seqNumber / 256 % 256, seqNumber / 0x1_0000 % 256,
             seqNumber / 0x100_0000 % 256]
  {
    LEBytes(7);
    LEBytes(1);
    LEBytes(result);
    LEBytes(seqNumber);
    hide LE;
  }

  /** Length 4, the key, type 3, the column and then the row. */
  lemma AuthBytes(rk: Byte, x: int, y: int)
    ensures Encode(Frame(rk, AuthPayload(x, y))) == [4, 0, rk, 3, 0, x % 256, y % 256]
  {
    LEBytes(4);
    LEBytes(3);
    LEBytes(x);
    LEBytes(y);
    hide LE;
  }

  /** The length, the key, type 6, 20 characters of the nickname, the number of characters of the
      text, and the text. */
  lemma ChatBytes(rk: Byte, nickname: seq<int>, text: seq<int>)
    requires |nickname| == 20 && 1 <= |text| <= 800
    ensures var n, s := |text|, Encode(Frame(rk, ChatPayload(nickname, text)));
            && |s| == 47 + 2 * n
            && s[..5] == [(44 + 2 * n) % 256, (44 + 2 * n) / 256, rk, 6, 0]
            && (forall k :: 0 <= k < 20 ==> s[5 + 2 * k] == nickname[k] % 256 && s[6 + 2 * k] == nickname[k] / 256 % 256)
            && s[45..47] == [n % 256, n / 256]
            && (forall k :: 0 <= k < n ==> s[47 + 2 * k] == text[k] % 256 && s[48 + 2 * k] == text[k] / 256 % 256)
  {
    var n, s := |text|, Encode(Frame(rk, ChatPayload(nickname, text)));
    LEBytes(44 + 2 * n);
    LEBytes(6);
    LEBytes(n);
    hide LE, Wide;
    forall k | 0 <= k < 20 ensures s[5 + 2 * k] == nickname[k] % 256 && s[6 + 2 * k] == nickname[k] / 256 % 256 {
      WideAt(nickname, k);
      assert s[5 + 2 * k] == Wide(nickname)[2 * k] && s[6 + 2 * k] == Wide(nickname)[2 * k + 1];
    }
    forall k | 0 <= k < n ensures s[47 + 2 * k] == text[k] % 256 && s[48 + 2 * k] == text[k] / 256 % 256 {
      WideAt(text, k);
      assert s[47 + 2 * k] == Wide(text)[2 * k] && s[48 + 2 * k] == Wide(text)[2 * k + 1];
    }
  }

  method MakeLoginMessage(msg: Message, rk: Byte, result: int, seqNumber: int, sessionID: int)
    requires msg.Valid()
    modifies msg, msg.buf
    ensures msg.Valid() && msg.ownerID == sessionID && msg.randKey == rk
    ensures msg.Unread() == Encode(Frame(rk, LoginPayload(result, seqNumber)))
    ensures msg.Unread() == [7, 0, rk, 1, 0, result % 256, seqNumber % 256, seqNumber / 256 % 256,
                             seqNumber / 0x1_0000 % 256, seqNumber / 0x100_0000 % 256]
  {
    LoginBytes(rk, result, seqNumber);
    hide LE, Wide;
    msg.InitMessage(sessionID, rk);
    PutHeader(msg, 2 + 1 + 4, rk);
    var r := msg.PutData(LE(SC_LOGIN, 2));
    r := msg.PutData(LE(result, 1));
    r := msg.PutData(LE(seqNumber, 4));
    assert r.Moved?;
    assert msg.Unread() == Encode(Frame(rk, LoginPayload(result, seqNumber)));
  }

  method MakeAuthMessage(msg: Message, rk: Byte, x: int, y: int, sessionID: int)
    requires msg.Valid()
    modifies msg, msg.buf
    ensures msg.Valid() && msg.ownerID == sessionID && msg.randKey == rk
    ensures msg.Unread() == Encode(Frame(rk, AuthPayload(x, y)))
    ensures msg.Unread() == [4, 0, rk, 3, 0, x % 256, y % 256]
  {
    AuthBytes(rk, x, y);
    hide LE, Wide;
    msg.InitMessage(sessionID, rk);
    PutHeader(msg, 2 + 1 + 1, rk);
    var r := msg.PutData(LE(SC_AUTH, 2));
    r := msg.PutData(LE(x, 1));
    r := msg.PutData(LE(y, 1));
    assert r.Moved?;
    assert msg.Unread() == Encode(Frame(rk, AuthPayload(x, y)));
  }

  method MakeChatMessage(msg: Message, rk: Byte, nickname: seq<int>, text: seq<int>, sessionID: int)
    requires msg.Valid() && |nickname| == NICKNAME_LEN && 1 <= |text| <= MSG_MAX_LEN
    modifies msg, msg.buf
    ensures msg.Valid() && msg.ownerID == sessionID && msg.randKey == rk
    ensures msg.Unread() == Encode(Frame(rk, ChatPayload(nickname, text)))
  {
    hide LE, Wide;
    msg.InitMessage(sessionID, rk);
    PutHeader(msg, 2 + 2 * NICKNAME_LEN + 2 + 2 * |text|, rk);
    var r := msg.PutData(LE(SC_CHAT, 2));
    r := msg.PutData(Wide(nickname));
    r := msg.PutData(LE(|text|, 2));
    r := msg.PutData(Wide(text));
    assert r.Moved?;
    assert msg.Unread() == Encode(Frame(rk, ChatPayload(nickname, text)));
  }

  /** A packet of the chat server: what one of the three builders puts into a message. */
  datatype Packet = Login(result: int, seqNumber: int) | Auth(x: int, y: int) | Chat(nickname: seq<int>, text: seq<int>) {
    predicate Valid() {
      Chat? ==> |nickname| == NICKNAME_LEN && 1 <= |text| <= MSG_MAX_LEN
    }

    function Payload(): seq<Byte> {
      match this
      case Login(result, seqNumber) => LoginPayload(result, seqNumber)
      case Auth(x, y) => AuthPayload(x, y)
      case Chat(nickname, text) => ChatPayload(nickname, text)
    }
  }

  function FramesOf(ps: seq<Packet>, rks: seq<Byte>): (fs: seq<Frame>)
    requires |ps| == |rks|
    ensures |fs| == |ps|
  {
    seq(|ps|, k requires 0 <= k < |ps| => Frame(rks[k], ps[k].Payload()))
  }

  lemma PacketsSendable(ps: seq<Packet>, rks: seq<Byte>)
    requires |ps| == |rks| && forall p :: p in ps ==> p.Valid()
    ensures forall f :: f in FramesOf(ps, rks) ==> Sendable(f)
  {
    var fs := FramesOf(ps, rks);
    forall f | f in fs ensures Sendable(f) {
      var k :| 0 <= k < |fs| && fs[k] == f;
      assert ps[k] in ps;
    }
  }

  /** Whatever packets a server sends, and however the stream is cut, the parser gives exactly their
      payloads, in order; and at no point of the stream does it stop. */
  lemma PacketsComeBack(ps: seq<Packet>, rks: seq<Byte>, cs: seq<seq<Byte>>, s: seq<Byte>)
    requires |ps| == |rks| && forall p :: p in ps ==> p.Valid()
    requires Concat(cs) == EncodeAll(FramesOf(ps, rks))
    requires s <= Concat(cs)
    ensures Run(cs) == Parsed(FramesOf(ps, rks), [], false)
    ensures !Parse(s).bad && |Parse(s).rest| < RING_CAPACITY
  {
    var fs := FramesOf(ps, rks);
    PacketsSendable(ps, rks);
    RoundTripInChunks(fs, cs);
    PrefixNeverStops(fs, s);
  }

  /** The packets arrive at a session of the library, cut as the network likes: after enough
      receives the session has delivered exactly their payloads, in order, its ring is empty and it
      has not disconnected. */
  method Arrive(sessionID: int, ps: seq<Packet>, rks: seq<Byte>, rs: seq<Receive>) returns (r: Receiver)
    requires |ps| == |rks| && forall p :: p in ps ==> p.Valid()
    requires |EncodeAll(FramesOf(ps, rks))| <= |rs| && forall k :: 0 <= k < |rs| ==> rs[k].answer == Posted
    ensures fresh(r) && r.Valid() && r.delivered == Owned(sessionID, FramesOf(ps, rks))
    ensures r.ring.Contents() == [] && !r.disconnected
  {
    hide Parse, Halted, Sendable, Taken;
    var fs := FramesOf(ps, rks);
    PacketsSendable(ps, rks);
    GoodStreamTaken(fs, rs);
    r := new Receiver(sessionID);
    var read := r.Drive(EncodeAll(fs), rs);
  }
}
