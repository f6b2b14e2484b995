/**
 The two loops of the protocol whose iterations are steps of the machine, followed to their end by
 a thread that nobody interrupts: what the methods of the session object do in one call is where
 the machine's steps lead. A thread that locks a released slot over and over, and a receive.
 */
module SessionPaths {
  import opened SessionModel

  datatype Config = Config(pc: PC, s: Slot)

  ghost predicate IsPath(g: Globals, i: int, path: seq<Config>) {
    forall k :: 0 < k < |path| ==> SlotStep(g, i, path[k - 1].pc, path[k - 1].s, g, path[k].s, path[k].pc)
  }

  ghost predicate Leads(g: Globals, i: int, path: seq<Config>, c: Config, c': Config) {
    path != [] && path[0] == c && path[|path| - 1] == c' && IsPath(g, i, path)
  }

  lemma PathStep(g: Globals, i: int, c: Config, d: Config, path: seq<Config>, c': Config)
    requires SlotStep(g, i, c.pc, c.s, g, d.s, d.pc) && Leads(g, i, path, d, c')
    ensures Leads(g, i, [c] + path, c, c')
  {
    hide SlotStep;
    var all := [c] + path;
    assert forall k :: 0 < k < |all| ==> all[k] == path[k - 1];
  }

  /** The slot after k messages have moved from the queue to mSendOv. */
  function Taken(s: Slot, k: nat): Slot
    requires k <= |s.queue|
  {
    s.(queue := s.queue[k..], qsize := |s.queue| - k, ovMsgs := s.ovMsgs + s.queue[..k],
       h := s.h.(unsent := s.h.unsent + s.queue[..k]))
  }

  lemma TakenNext(s: Slot, k: nat)
    requires k < |s.queue|
    ensures Taken(Taken(s, 1), k) == Taken(s, k + 1)
  {
    var t := Taken(s, 1);
    assert t.queue[k..] == s.queue[k + 1..];
    assert s.queue[..1] + t.queue[..k] == s.queue[..k + 1];
    assert (s.ovMsgs + s.queue[..1]) + t.queue[..k] == s.ovMsgs + s.queue[..k + 1];
    assert (s.h.unsent + s.queue[..1]) + t.queue[..k] == s.h.unsent + s.queue[..k + 1];
  }

  lemma TakeOne(g: Globals, i: int, s: Slot, n: int)
    requires |s.ovMsgs| < n && s.queue != [] && s.qsize == |s.queue| <= 0x7fff
    ensures SlotStep(g, i, RsTake(i, n), s, g, Taken(s, 1), RsTake(i, n))
  {
    assert s.queue[..1] == [s.queue[0]];
  }

  /** The loop that fills a batch: it ends, after one step for each message, with the first messages
      of the queue in mSendOv, in their order. */
  lemma {:induction false} FillBatchPath(g: Globals, i: int, s: Slot, n: nat, k: nat) returns (path: seq<Config>)
    requires |s.ovMsgs| + k == n && k <= |s.queue| == s.qsize <= 0x7fff
    ensures Leads(g, i, path, Config(RsTake(i, n), s), Config(RsLive(i), Taken(s, k)))
    ensures forall j :: 0 <= j < |path| ==>
              path[j].s.recvs == s.recvs && path[j].s.sends == s.sends && path[j].s.h.leaks == s.h.leaks
              && |path[j].s.queue| <= |s.queue|
    decreases k
  {
    hide SlotStep, Leads;
    var here := Config(RsTake(i, n), s);
    if k == 0 {
      NothingTaken(s);
      LastTake(g, i, s, n);
      path := [here, Config(RsLive(i), s)];
      TwoLead(g, i, here, Config(RsLive(i), s));
    } else {
      TakeOne(g, i, s, n);
      var rest := FillBatchPath(g, i, Taken(s, 1), n, k - 1);
      TakenNext(s, k - 1);
      path := [here] + rest;
      PathStep(g, i, here, Config(RsTake(i, n), Taken(s, 1)), rest, Config(RsLive(i), Taken(s, k)));
    }
  }

  lemma NothingTaken(s: Slot)
    requires s.qsize == |s.queue|
    ensures Taken(s, 0) == s
  {
  }

  lemma LastTake(g: Globals, i: int, s: Slot, n: int)
    requires |s.ovMsgs| == n
    ensures SlotStep(g, i, RsTake(i, n), s, g, s, RsLive(i))
  {
  }

  lemma TwoLead(g: Globals, i: int, c: Config, d: Config)
    requires SlotStep(g, i, c.pc, c.s, g, d.s, d.pc)
    ensures Leads(g, i, [c, d], c, d)
  {
    hide SlotStep;
  }

  /** The slot after the first k queued messages have been deleted. */
  function Drained(s: Slot, k: nat): Slot
    requires k <= |s.queue|
  {
    s.(queue := s.queue[k..], qsize := |s.queue| - k, h := s.h.(destroyed := s.h.destroyed + multiset(s.queue[..k])))
  }

  lemma DrainOne(g: Globals, i: int, s: Slot)
    requires s.queue != [] && s.qsize == |s.queue| <= 0x7fff
    ensures SlotStep(g, i, RlDrain(i), s, g, Drained(s, 1), RlDrain(i))
  {
    assert s.queue[..1] == [s.queue[0]];
  }

  lemma NothingLeft(g: Globals, i: int, s: Slot)
    requires s.queue == [] && s.qsize == 0
    ensures SlotStep(g, i, RlDrain(i), s, g, s, RlOv(i)) && Drained(s, 0) == s
  {
  }

  lemma Clean(g: Globals, i: int, s: Slot)
    ensures SlotStep(g, i, RlOv(i), s, g,
                     s.(ovCnt := 0, ovMsgs := [], sendFlag := false,
                        h := s.h.(destroyed := s.h.destroyed + multiset(s.InOv()))), RlPush(i))
  {
  }

  /** ReleaseSession: the queue is drained, the messages of mSendOv are deleted, the flag is reset;
      every message that the slot held has been deleted exactly once. */
  lemma {:induction false} ReleaseSessionPath(g: Globals, i: int, s: Slot) returns (path: seq<Config>, s': Slot)
    requires s.qsize == |s.queue| <= 0x7fff
    ensures Leads(g, i, path, Config(RlDrain(i), s), Config(RlPush(i), s'))
    ensures s' == s.(queue := [], qsize := 0, ovCnt := 0, ovMsgs := [], sendFlag := false,
                     h := s.h.(destroyed := s.h.destroyed + multiset(s.queue) + multiset(s.InOv())))
    decreases |s.queue|
  {
    hide SlotStep, Leads;
    var here := Config(RlDrain(i), s);
    if s.queue == [] {
      NothingLeft(g, i, s);
      Clean(g, i, s);
      s' := s.(ovCnt := 0, ovMsgs := [], sendFlag := false,
               h := s.h.(destroyed := s.h.destroyed + multiset(s.InOv())));
      TwoLead(g, i, Config(RlOv(i), s), Config(RlPush(i), s'));
      path := [here] + [Config(RlOv(i), s), Config(RlPush(i), s')];
      PathStep(g, i, here, Config(RlOv(i), s), path[1..], Config(RlPush(i), s'));
    } else {
      DrainOne(g, i, s);
      var rest;
      rest, s' := ReleaseSessionPath(g, i, Drained(s, 1));
      path := [here] + rest;
      PathStep(g, i, here, Config(RlDrain(i), Drained(s, 1)), rest, Config(RlPush(i), s'));
      assert s.queue == s.queue[..1] + s.queue[1..];
    }
  }

  // ----- Locks of a released slot ---------------------------------------------------------

  /** The slot after n more locks that found the release bit set. */
  function Failed(s: Slot, n: nat): Slot {
    s.(iocnt := s.iocnt + n, h := s.h.(leaks := s.h.leaks + n))
  }

  /** A released slot: the release bit and the locks that have failed on it. */
  predicate Released(s: Slot) {
    s.iocnt == RELEASE_IOCOUNT + s.h.leaks && s.h.leaks < RELEASE_IOCOUNT
  }

  /** A lock of a released slot gets past the release bit if and only if 2^14 - 1 have failed before
      it; any other only adds one to the count. */
  lemma LockPasses(g: Globals, i: int, pc: PC, s: Slot, g': Globals, s': Slot, pc': PC)
    requires Released(s) && pc.LkInc? && SlotStep(g, i, pc, s, g', s', pc')
    ensures s.h.leaks == RELEASE_IOCOUNT - 1 ==> pc' == LkCheck(i, pc.id, pc.call) && s' == s.(iocnt := -0x8000)
    ensures s.h.leaks < RELEASE_IOCOUNT - 1 ==> pc' == Resume(i, RetOf(pc.call)) && s' == Failed(s, 1) && Released(s')
  {
  }

  /** disconnectSession with an old id begins. */
  lemma CallStarts(g: Globals, i: int, s: Slot, id: int)
    requires id in s.h.issued && IdxOf(id) == i
    ensures SlotStep(g, i, Idle, s, g, s, LkInc(i, id, DiscCall(false)))
  {
  }

  lemma LockFails(g: Globals, i: int, s: Slot, id: int)
    requires Released(s) && s.h.leaks < RELEASE_IOCOUNT - 1
    ensures SlotStep(g, i, LkInc(i, id, DiscCall(false)), s, g, Failed(s, 1), Idle)
  {
    hide StartStep, AcceptStep, RecvStep, FlagStep, BatchStep, ReleaseStep, RegisterStep;
  }

  /** One thread that calls disconnectSession n times on a released slot: all n calls fail. */
  lemma {:induction false} FailedLocksPath(g: Globals, i: int, s: Slot, id: int, n: nat) returns (path: seq<Config>)
    requires id in s.h.issued && IdxOf(id) == i && Released(s) && s.h.leaks + n < RELEASE_IOCOUNT
    ensures Leads(g, i, path, Config(Idle, s), Config(Idle, Failed(s, n)))
    decreases n
  {
    hide SlotStep, Leads;
    if n == 0 {
      path := [Config(Idle, s)];
      Standing(g, i, path[0]);
    } else {
      var calling := Config(LkInc(i, id, DiscCall(false)), s);
      CallStarts(g, i, s, id);
      LockFails(g, i, s, id);
      var rest := FailedLocksPath(g, i, Failed(s, 1), id, n - 1);
      PathStep(g, i, calling, Config(Idle, Failed(s, 1)), rest, Config(Idle, Failed(s, n)));
      PathStep(g, i, Config(Idle, s), calling, [calling] + rest, Config(Idle, Failed(s, n)));
      path := [Config(Idle, s)] + ([calling] + rest);
    }
  }

  lemma Standing(g: Globals, i: int, c: Config)
    ensures Leads(g, i, [c], c, c)
  {
    hide SlotStep;
  }

  lemma {:induction false} Joined(g: Globals, i: int, p: seq<Config>, q: seq<Config>, c: Config, d: Config, e: Config)
    requires Leads(g, i, p, c, d) && Leads(g, i, q, d, e)
    ensures Leads(g, i, p + q[1..], c, e)
  {
    hide SlotStep;
    var all := p + q[1..];
    forall k | 0 < k < |all|
      ensures SlotStep(g, i, all[k - 1].pc, all[k - 1].s, g, all[k].s, all[k].pc)
    {
      if k < |p| {
        assert all[k - 1] == p[k - 1] && all[k] == p[k];
      } else {
        assert all[k - 1] == q[k - |p|] && all[k] == q[k - |p| + 1];
        assert SlotStep(g, i, q[k - |p| + 1 - 1].pc, q[k - |p| + 1 - 1].s, g, q[k - |p| + 1].s, q[k - |p| + 1].pc);
      }
    }
  }

  /** A released slot that still carries its old id. Of 2^14 calls of disconnectSession with that id,
      one after the other, the first 2^14 - 1 fail and the last gets the lock. */
  lemma LastLockPath(g: Globals, i: int, s: Slot) returns (path: seq<Config>)
    requires s.id in s.h.issued && IdxOf(s.id) == i && s.iocnt == RELEASE_IOCOUNT && s.h.leaks == 0
    ensures Leads(g, i, path, Config(Idle, s),
                  Config(DcLive(i, s.id, false), Failed(s, RELEASE_IOCOUNT - 1).(iocnt := -0x8000)))
  {
    var t := Failed(s, RELEASE_IOCOUNT - 1);
    var u := t.(iocnt := -0x8000);
    var failing := FailedLocksPath(g, i, s, s.id, RELEASE_IOCOUNT - 1);
    CallStarts(g, i, t, s.id);
    LastLock(g, i, t, s.id);
    SameId(g, i, u);
    hide SlotStep, Leads;
    var call, check := LkInc(i, s.id, DiscCall(false)), LkCheck(i, s.id, DiscCall(false));
    TwoLead(g, i, Config(check, u), Config(DcLive(i, s.id, false), u));
    PathStep(g, i, Config(call, t), Config(check, u), [Config(check, u), Config(DcLive(i, s.id, false), u)],
             Config(DcLive(i, s.id, false), u));
    var last := [Config(call, t)] + [Config(check, u), Config(DcLive(i, s.id, false), u)];
    PathStep(g, i, Config(Idle, t), Config(call, t), last, Config(DcLive(i, s.id, false), u));
    path := failing + ([Config(Idle, t)] + last)[1..];
    Joined(g, i, failing, [Config(Idle, t)] + last, Config(Idle, s), Config(Idle, t),
           Config(DcLive(i, s.id, false), u));
  }

  lemma LastLock(g: Globals, i: int, t: Slot, id: int)
    requires Released(t) && t.h.leaks == RELEASE_IOCOUNT - 1
    ensures SlotStep(g, i, LkInc(i, id, DiscCall(false)), t, g, t.(iocnt := -0x8000), LkCheck(i, id, DiscCall(false)))
  {
    hide StartStep, AcceptStep, RecvStep, FlagStep, BatchStep, ReleaseStep, RegisterStep;
  }

  lemma SameId(g: Globals, i: int, s: Slot)
    ensures SlotStep(g, i, LkCheck(i, s.id, DiscCall(false)), s, g, s, DcLive(i, s.id, false))
  {
    hide StartStep, AcceptStep, RecvStep, FlagStep, BatchStep, ReleaseStep, RegisterStep;
  }

  // ----- A receive ------------------------------------------------------------------------

  lemma PickUp(g: Globals, i: int, s: Slot)
    requires s.recvs > 0
    ensures SlotStep(g, i, Idle, s, g, s.(recvs := s.recvs - 1), RcParse(i))
  {
    hide AcceptStep, RecvStep, FlagStep, BatchStep, LockStep, ReleaseStep, RegisterStep;
  }

  lemma ParseOn(g: Globals, i: int, s: Slot)
    ensures SlotStep(g, i, RcParse(i), s, g, s, RvSpace(i))
  {
    hide StartStep, AcceptStep, FlagStep, BatchStep, LockStep, ReleaseStep, RegisterStep;
  }

  lemma HasSpace(g: Globals, i: int, s: Slot)
    ensures SlotStep(g, i, RvSpace(i), s, g, s, RvLive(i))
  {
    hide StartStep, AcceptStep, FlagStep, BatchStep, LockStep, ReleaseStep, RegisterStep;
  }

  lemma IsLive(g: Globals, i: int, s: Slot)
    requires s.live
    ensures SlotStep(g, i, RvLive(i), s, g, s, RvInc(i))
  {
    hide StartStep, AcceptStep, FlagStep, BatchStep, LockStep, ReleaseStep, RegisterStep;
  }

  lemma CountsUp(g: Globals, i: int, s: Slot)
    ensures SlotStep(g, i, RvInc(i), s, g, Inc(s), RvPost(i))
  {
    hide StartStep, AcceptStep, FlagStep, BatchStep, LockStep, ReleaseStep, RegisterStep;
  }

  lemma PostsNext(g: Globals, i: int, s: Slot)
    ensures SlotStep(g, i, RvPost(i), s, g, s.(recvs := s.recvs + 1), HDec(i))
  {
    hide StartStep, AcceptStep, FlagStep, BatchStep, LockStep, ReleaseStep, RegisterStep;
  }

  lemma HandlerEnds(g: Globals, i: int, s: Slot)
    requires s.iocnt > 1
    ensures SlotStep(g, i, HDec(i), s, g, Dec(s), Idle)
  {
    hide StartStep, AcceptStep, FlagStep, BatchStep, LockStep, ReleaseStep, RegisterStep;
  }

  /** One turn of a session's life: a worker picks up a receive completion, parses, and posts the next
      receive; the slot is then what it was, with one receive outstanding again and the same count. */
  lemma ReceivePath(g: Globals, i: int, s: Slot) returns (path: seq<Config>)
    requires s.recvs > 0 && s.live && 1 <= s.iocnt < 0x4000
    ensures Leads(g, i, path, Config(Idle, s), Config(Idle, s))
    ensures |path| == 8 && path[1] == Config(RcParse(i), s.(recvs := s.recvs - 1))
  {
    var u := s.(recvs := s.recvs - 1);
    PickUp(g, i, s);
    ParseOn(g, i, u);
    HasSpace(g, i, u);
    IsLive(g, i, u);
    CountsUp(g, i, u);
    PostsNext(g, i, Inc(u));
    HandlerEnds(g, i, Inc(s));
    hide SlotStep;
    assert Inc(u).(recvs := u.recvs + 1) == Inc(s) && Dec(Inc(s)) == s;
    path := [Config(Idle, s), Config(RcParse(i), u), Config(RvSpace(i), u), Config(RvLive(i), u), Config(RvInc(i), u),
             Config(RvPost(i), Inc(u)), Config(HDec(i), Inc(s)), Config(Idle, s)];
  }
}
