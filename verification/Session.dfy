/**
 The session as an object: the routines of Session.cpp and the loops of the library that work on
 it, as methods that update it. Each is what one thread does while it has the queue lock or the
 send flag to itself; how the routines of several threads interleave is the state machine's matter,
 whose steps have the effects proved here.
 */
module SessionCode {
  import opened SessionModel
  import opened Winsock

  datatype Option<T> = None | Some(value: T)

  class Session {
    const i: int                            // the slot
    var mIOcnt: int
    var mLive: bool
    var mSendFlag: bool
    var mSessionID: int
    var mSendQ: seq<Msg>
    var mSenqQSize: int
    var mMsgCnt: int                        // mSendOv->mMsgCnt
    const mSendMsgs: array<Msg>             // mSendOv->mSendMsgs
    ghost var filled: nat                   // how much of mSendMsgs this batch has written
    ghost var sends: nat                    // send completions on the port
    ghost var batches: seq<seq<Msg>>        // what WSASend was given
    ghost var deleted: multiset<Msg>

    ghost predicate OvValid()
      reads this
    {
      mSendMsgs.Length == SEND_MESSAGE_MAXCOUNT && 0 <= mMsgCnt <= filled <= SEND_MESSAGE_MAXCOUNT
    }

    /** The counter, a signed 16-bit word, has not wrapped round. */
    ghost predicate Counted()
      reads this
    {
      mSenqQSize == |mSendQ| <= 0x7fff
    }

    ghost predicate Valid()
      reads this
    {
      OvValid() && Counted()
    }

    /** The messages that belong to the session. */
    ghost function Owned(): multiset<Msg>
      requires OvValid()
      reads this, mSendMsgs
    {
      multiset(mSendQ) + multiset(mSendMsgs[..mMsgCnt])
    }

    /** The counter stays right until there are 32767 messages. */
    method EnQueueMsg(msg: Msg)
      modifies this`mSendQ, this`mSenqQSize
      ensures mSendQ == old(mSendQ) + [msg] && mSenqQSize == Up(old(mSenqQSize))
      ensures old(Counted()) ==> (Counted() <==> |old(mSendQ)| < 0x7fff)
    {
      mSendQ := mSendQ + [msg];
      mSenqQSize := Up(mSenqQSize);
    }

    method DeQueueMsgOrNull() returns (msg: Option<Msg>)
      requires Valid()
      modifies this`mSendQ, this`mSenqQSize
      ensures Valid()
      ensures old(mSendQ) == [] ==> msg == None && mSendQ == []
      ensures old(mSendQ) != [] ==> msg.Some? && [msg.value] + mSendQ == old(mSendQ)
    {
      if mSendQ == [] { return None; }
      msg := Some(mSendQ[0]);
      mSendQ := mSendQ[1..];
      mSenqQSize := Down(mSenqQSize);
    }

    /** The loop that deletes what mSendOv holds, as completeSend and ReleaseSession run it. */
    method DeleteSent()
      requires Valid()
      modifies this`deleted, this`mMsgCnt, this`filled
      ensures Valid() && mMsgCnt == filled == 0
      ensures deleted == old(deleted) + multiset(old(mSendMsgs[..mMsgCnt]))
    {
      for idx := 0 to mMsgCnt
        invariant mMsgCnt == old(mMsgCnt) && filled == old(filled)
        invariant deleted == old(deleted) + multiset(mSendMsgs[..idx])
      {
        assert mSendMsgs[..idx + 1] == mSendMsgs[..idx] + [mSendMsgs[idx]];
        deleted := deleted + multiset{mSendMsgs[idx]};
      }
      mMsgCnt := 0;
      filled := 0;
    }

    /** The first loop of ReleaseSession. */
    method DrainQueue()
      requires Valid()
      modifies this`mSendQ, this`mSenqQSize, this`deleted
      ensures Valid() && mSendQ == []
      ensures deleted == old(deleted) + multiset(old(mSendQ))
    {
      var msg := DeQueueMsgOrNull();
      ghost var left := if msg == None then mSendQ else [msg.value] + mSendQ;
      while msg != None
        invariant Valid()
        invariant left == if msg == None then mSendQ else [msg.value] + mSendQ
        invariant msg == None ==> mSendQ == []
        invariant deleted + multiset(left) == old(deleted) + multiset(old(mSendQ))
        decreases |left|
      {
        deleted := deleted + multiset{msg.value};
        left := mSendQ;
        msg := DeQueueMsgOrNull();
      }
    }

    /** Everything that the session owns is deleted, each message once, and the slot is as clean as
        a new one; the assertion on the length holds. */
    method ReleaseSession()
      requires Valid()
      modifies this`mSendQ, this`mSenqQSize, this`mMsgCnt, this`filled, this`mSendFlag, this`deleted
      ensures Valid() && Owned() == multiset{} && !mSendFlag && mMsgCnt == 0
      ensures deleted == old(deleted) + old(Owned())
    {
      DrainQueue();
      assert mSenqQSize == 0;
      DeleteSent();
      mSendFlag := false;
    }

    // ----- The send side ----------------------------------------------------------------

    /** The loop of registerSend: the first messages of the queue move to mSendOv, in their order;
        the assertion that there are enough holds, and so does the one that they are this
        session's if all queued messages are. */
    method FillBatch(msgCnt: int)
      requires Valid() && 0 < msgCnt <= SEND_MESSAGE_MAXCOUNT && msgCnt <= |mSendQ| && mMsgCnt == filled == 0
      requires forall m :: m in mSendQ ==> m.owner == mSessionID
      modifies this`mSendQ, this`mSenqQSize, this`mMsgCnt, this`filled, mSendMsgs
      ensures Valid() && mMsgCnt == filled == msgCnt
      ensures mSendMsgs[..msgCnt] + mSendQ == old(mSendQ)
    {
      for cnt := 0 to msgCnt
        invariant Valid() && mMsgCnt == 0 && filled == cnt
        invariant mSendMsgs[..cnt] + mSendQ == old(mSendQ)
      {
        ghost var was := mSendQ;
        var msg := DeQueueMsgOrNull();
        assert msg != None;
        assert msg.value == was[0] && was[0] in was && old(mSendQ)[cnt] == was[0];
        assert msg.value.owner == mSessionID;
        mSendMsgs[cnt] := msg.value;
        filled := filled + 1;
        assert mSendMsgs[..cnt + 1] == mSendMsgs[..cnt] + [msg.value];
      }
      mMsgCnt := msgCnt;
    }

    /** With nobody in between, either the queue is empty and the flag is cleared, or one batch, the
        first messages of the queue and at most 500, goes out or dies with the session. */
    method RegisterSend(answer: Posting)
      requires Valid() && mMsgCnt == filled == 0 && mSendFlag
      requires forall m :: m in mSendQ ==> m.owner == mSessionID
      modifies this, mSendMsgs
      ensures Valid() && mSessionID == old(mSessionID) && mSendFlag == (old(mSendQ) != [])
      ensures mSendMsgs[..mMsgCnt] + mSendQ == old(mSendQ) && deleted == old(deleted)
      ensures mMsgCnt == if 500 < |old(mSendQ)| then 500 else |old(mSendQ)|
      ensures batches == if old(mLive) && mMsgCnt > 0 then old(batches) + [mSendMsgs[..mMsgCnt]] else old(batches)
      ensures sends == old(sends) + (if old(mLive) && mMsgCnt > 0 && answer == Posted then 1 else 0)
      ensures mLive == (old(mLive) && (mMsgCnt == 0 || answer == Posted))
      ensures sends == old(sends) + 1 ==> mIOcnt == Up(old(mIOcnt))
      ensures sends == old(sends) ==> mIOcnt == old(mIOcnt) || mIOcnt == Down(Up(old(mIOcnt)))
    {
      var msgCnt := MsgCount(mSenqQSize, mSenqQSize);
      if msgCnt == 0 {
        mSendFlag := false;
        return;
      }
      FillBatch(msgCnt);
      if mLive {
        mIOcnt := Up(mIOcnt);
        batches := batches + [mSendMsgs[..mMsgCnt]];
        if answer == Posted {
          sends := sends + 1;
        } else {
          mLive := false;
          mIOcnt := Down(mIOcnt);
        }
      }
    }

    /** What has been sent is deleted before the next batch is taken: nothing is lost or kept. */
    method CompleteSend(answer: Posting)
      requires Valid() && mSendFlag
      requires forall m :: m in mSendQ ==> m.owner == mSessionID
      modifies this, mSendMsgs
      ensures Valid()
      ensures deleted == old(deleted) + multiset(old(mSendMsgs[..mMsgCnt]))
      ensures deleted + Owned() == old(deleted) + old(Owned())
      ensures mSendFlag == (old(mSendQ) != []) && mSendMsgs[..mMsgCnt] + mSendQ == old(mSendQ)
      ensures mMsgCnt == if 500 < |old(mSendQ)| then 500 else |old(mSendQ)|
      ensures batches == if old(mLive) && mMsgCnt > 0 then old(batches) + [mSendMsgs[..mMsgCnt]] else old(batches)
      ensures sends == old(sends) + (if old(mLive) && mMsgCnt > 0 && answer == Posted then 1 else 0)
      ensures mLive == (old(mLive) && (mMsgCnt == 0 || answer == Posted))
    {
      DeleteSent();
      ghost var queued := mSendQ;
      RegisterSend(answer);
      assert multiset(queued) == multiset(mSendMsgs[..mMsgCnt]) + multiset(mSendQ);
    }

    // ----- The reference count ----------------------------------------------------------

    /** The compare-and-swap of the count with the release value. */
    method ReleaseIfUnused() returns (won: bool)
      modifies this`mIOcnt
      ensures won <==> old(mIOcnt) == 0
      ensures mIOcnt == if won then 0x4000 else old(mIOcnt)
    {
      won := mIOcnt == 0;
      if won { mIOcnt := RELEASE_IOCOUNT; }
    }

    /** mIOcnt is a signed 16-bit word. */
    ghost predicate Word()
      reads this
    {
      -0x8000 <= mIOcnt <= 0x7fff
    }

    /** A lock on a released slot leaves its increment in the count; one on another session gives it
        back, and then may be the one who releases. */
    method SessionLock(sessionID: int) returns (ok: bool, won: bool)
      requires Word()
      modifies this`mIOcnt
      ensures Word()
      ensures ok <==> !ReleaseBit(Up(old(mIOcnt))) && mSessionID == sessionID
      ensures ok || ReleaseBit(Up(old(mIOcnt))) ==> mIOcnt == Up(old(mIOcnt)) && !won
      ensures !ReleaseBit(Up(old(mIOcnt))) && mSessionID != sessionID ==>
                won == (old(mIOcnt) == 0) && mIOcnt == if won then RELEASE_IOCOUNT else old(mIOcnt)
    {
      mIOcnt := Up(mIOcnt);
      won := false;
      if ReleaseBit(mIOcnt) { return false, false; }
      if mSessionID != sessionID {
        mIOcnt := Down(mIOcnt);
        won := ReleaseIfUnused();
        return false, won;
      }
      ok := true;
    }

    method SessionUnLock() returns (won: bool)
      requires Word()
      modifies this`mIOcnt
      ensures Word()
      ensures won <==> old(mIOcnt) == 1
      ensures mIOcnt == if won then 0x4000 else Down(old(mIOcnt))
    {
      mIOcnt := Down(mIOcnt);
      won := false;
      if mIOcnt == 0 { won := ReleaseIfUnused(); }
    }

    /** Counting up and down again, also where the word wraps round. */
    static lemma WordsTurn(x: int)
      requires -0x8000 <= x <= 0x7fff
      ensures -0x8000 <= Up(x) <= 0x7fff && Down(Up(x)) == x && (Up(x) == 1 <==> x == 0) && (Up(x) == 0 <==> x == -1)
      ensures x == 0 ==> !ReleaseBit(Up(x))
    {
    }

    twostate lemma OwnedGrows(added: seq<Msg>)
      requires old(OvValid()) && mSendQ == old(mSendQ) + added && mMsgCnt == old(mMsgCnt) && OvValid()
      requires mSendMsgs[..] == old(mSendMsgs[..])
      ensures Owned() == old(Owned()) + multiset(added)
    {
      assert mSendMsgs[..mMsgCnt] == mSendMsgs[..][..mMsgCnt];
      assert old(mSendMsgs[..mMsgCnt]) == old(mSendMsgs[..])[..mMsgCnt];
    }

    /** The message is deleted at once, or it is behind all others in the queue and the flag is set;
        a completion is posted, with a reference of its own, exactly if the flag was clear. The
        count ends where it began, but for that reference, unless the call itself has released the
        session. */
    method SendPost(sessionID: int, msg: Msg) returns (queued: bool, won: bool)
      requires OvValid() && Word()
      modifies this
      ensures OvValid() && Word() && (old(Counted()) && |old(mSendQ)| < 0x7fff ==> Counted())
      ensures queued <==> !ReleaseBit(Up(old(mIOcnt))) && old(mSessionID) == sessionID
      ensures deleted + Owned() == old(deleted) + old(Owned()) + multiset{msg}
      ensures mSendQ == (if queued then old(mSendQ) + [msg] else old(mSendQ)) && mSendFlag == (old(mSendFlag) || queued)
      ensures sends == old(sends) + (if queued && !old(mSendFlag) then 1 else 0)
      ensures won <==> old(mIOcnt) == if sends == old(sends) then 0 else -1
      ensures mIOcnt == if won then 0x4000
                        else if queued then (if sends == old(sends) then old(mIOcnt) else Up(old(mIOcnt)))
                        else if ReleaseBit(Up(old(mIOcnt))) then Up(old(mIOcnt)) else old(mIOcnt)
    {
      hide Up, Down, ReleaseBit, Owned;
      WordsTurn(mIOcnt);
      WordsTurn(Up(mIOcnt));
      queued, won := SessionLock(sessionID);
      if !queued {
        deleted := deleted + multiset{msg};
        OwnedGrows([]);
        return;
      }
      EnQueueMsg(msg);
      if !mSendFlag {
        mSendFlag := true;
        mIOcnt := Up(mIOcnt);
        sends := sends + 1;
      }
      won := SessionUnLock();
      OwnedGrows([msg]);
    }

    /** The session is dead if it was the one that the caller meant, and is left alone if not. */
    method DisconnectSession(sessionID: int) returns (ok: bool, won: bool)
      requires Word()
      modifies this`mIOcnt, this`mLive
      ensures Word()
      ensures ok <==> !ReleaseBit(Up(old(mIOcnt))) && mSessionID == sessionID
      ensures mLive == (old(mLive) && !ok)
      ensures won <==> old(mIOcnt) == 0 && !ReleaseBit(Up(old(mIOcnt)))
      ensures mIOcnt == if won then 0x4000
                        else if ReleaseBit(Up(old(mIOcnt))) then Up(old(mIOcnt)) else old(mIOcnt)
    {
      hide Up, Down, ReleaseBit;
      WordsTurn(mIOcnt);
      ok, won := SessionLock(sessionID);
      if !ok { return; }
      mLive := false;
      won := SessionUnLock();
    }
  }
}
