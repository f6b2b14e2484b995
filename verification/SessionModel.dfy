/**
 The session slots of the IOCP server and the threads that share them, as a step machine.

 A slot is shared by worker threads and by every thread that calls sendPost or
 disconnectSession. Every interlocked operation, every unlocked read of the queue length,
 of the live flag or of the session id, and every posted I/O request is one step; any
 thread may take the next step. A completion port is a bag of completions per slot: a posted
 request completes at any later time, or fails at once with one of the hard errors.
 */
module SessionModel {

  /** 1 << 14: set in the reference count while a slot is not in use. */
  const RELEASE_IOCOUNT := 0x4000
  /** The most messages that one send is meant to carry. */
  const SEND_MESSAGE_MAXCOUNT := 500

  // ----- Machine words --------------------------------------------------------------------

  /** InterlockedIncrement16 and InterlockedDecrement16: signed, with wrap-around. */
  function Up(x: int): int { if x == 0x7fff then -0x8000 else x + 1 }

  function Down(x: int): int { if x == -0x8000 then 0x7fff else x - 1 }

  /** Bit 14 of a 16-bit signed word: 0x4000..0x7fff, or 0xc000..0xffff read as negative. */
  predicate ReleaseBit(x: int) {
    RELEASE_IOCOUNT <= x || -RELEASE_IOCOUNT <= x < 0
  }

  const IDX_RANGE := 0x2_0000              // Idx : 17
  const SEQ_RANGE := 0x8000_0000_0000      // Seq : 47

  /** The 64-bit value of the two bit fields (Idx : 17, Seq : 47). */
  function Pack(idx: int, q: int): int {
    idx % IDX_RANGE + IDX_RANGE * (q % SEQ_RANGE)
  }

  function IdxOf(id: int): int { id % IDX_RANGE }

  function SeqOf(id: int): int { id / IDX_RANGE }

  // ----- Slots ----------------------------------------------------------------------------

  /** A message is one heap object: its serial number is its identity. */
  datatype Msg = Msg(serial: nat, owner: int)

  /** Where a slot is in its life. An observer's variable: no step reads it. */
  datatype Phase =
    | Free | Registering | AcceptPosted | Accepting | Active
    | ReleaseWon | ReleasePosted | Releasing

  /** What an observer has seen of a slot. No step reads it. */
  datatype History = History(
    used: bool,                 // accepted at least once
    leaks: nat,                 // failed locks whose increment was left in the count
    wins: nat,                  // successful release CASes since the last accept
    announced: bool,            // onAccept has been called for this incarnation
    issued: set<int>,           // session ids that onAccept has handed out
    released: set<int>,         // session ids given to onRelease
    enqueued: seq<Msg>,         // every message enqueued in this incarnation
    batches: seq<seq<Msg>>,     // the batches given to WSASend in this incarnation
    unsent: seq<Msg>,           // dequeued but not yet given to WSASend
    given: multiset<Msg>,       // every message ever passed to sendPost for this slot
    destroyed: multiset<Msg>    // every message deleted so far
  )

  datatype Slot = Slot(
    // the session's own fields
    iocnt: int, live: bool, sendFlag: bool, id: int,
    queue: seq<Msg>, qsize: int,        // mSendQ, mSenqQSize
    ovCnt: int, ovMsgs: seq<Msg>,       // mSendOv: mMsgCnt and the entries of mSendMsgs filled so far
    // completions on the port that no thread has picked up
    accepts: nat, recvs: nat, sends: nat, releases: nat,
    // observer's variables
    phase: Phase, h: History
  ) {
    /** The first mMsgCnt entries of mSendMsgs: what completeSend and ReleaseSession delete. */
    function InOv(): seq<Msg> { if 0 <= ovCnt <= |ovMsgs| then ovMsgs[..ovCnt] else ovMsgs }
  }

  datatype Globals = Globals(
    free: seq<int>,             // the stack of free slot indices, top last
    lastSeq: int,               // mSeqID
    born: nat,                  // messages created so far
    reload: bool                // the compiled ternary of registerSend loads mSenqQSize twice
  )

  // ----- Threads --------------------------------------------------------------------------

  /** Where a thread goes when a lock attempt or an unlock is over. */
  datatype Ret = ToIdle | ToDelete(m: Msg) | ToHandler

  /** The two callers of sessionLock. A nested disconnect is one made by an I/O handler. */
  datatype Call = SendCall(m: Msg) | DiscCall(nested: bool)

  datatype PC =
    | Idle
      // completeAcceptEx
    | AcLive(i: int) | AcCount(i: int) | AcAssert(i: int) | AcNotify(i: int)
      // registerRecv
    | RvSpace(i: int) | RvLive(i: int) | RvInc(i: int) | RvPost(i: int)
    | RvErrLive(i: int) | RvErrDec(i: int)
      // a receive completion: end of stream, or bytes to parse
    | RcZero(i: int) | RcParse(i: int)
      // completeSend, registerSend
    | CsDelete(i: int)
    | RsRead(i: int) | RsReread(i: int, r: int)
    | RsClear(i: int) | RsAgain(i: int) | RsAgainReread(i: int)
    | RsRetake(i: int) | RsRetakeInc(i: int) | RsRetakePost(i: int)
    | RsCount(i: int, n: int) | RsTake(i: int, n: int)
    | RsLive(i: int) | RsInc(i: int) | RsPost(i: int) | RsErrLive(i: int) | RsErrDec(i: int)
      // the end of every I/O handler
    | HDec(i: int)
      // sessionLock
    | LkInc(i: int, id: int, call: Call) | LkCheck(i: int, id: int, call: Call)
    | MisDec(i: int, ret: Ret)
      // sendPost
    | SpPush(i: int, id: int, m: Msg) | SpCas(i: int, id: int)
    | SpInc(i: int, id: int) | SpPost(i: int, id: int) | SpDelete(i: int, m: Msg)
      // disconnectSession
    | DcLive(i: int, id: int, nested: bool)
      // sessionUnLock
    | UnDec(i: int, id: int, nested: bool)
      // the release CAS and the post after it
    | RelCas(i: int, ret: Ret) | RelPost(i: int, ret: Ret)
      // completeRelease
    | RlNotify(i: int) | RlDrain(i: int) | RlOv(i: int) | RlPush(i: int)
      // registerAcceptEx
    | RaPop | RaSeq(i: int) | RaId(i: int, q: int) | RaAccept(i: int) | RaBack(i: int)

  function RetOf(call: Call): Ret {
    match call
    case SendCall(m) => ToDelete(m)
    case DiscCall(nested) => NestedRet(nested)
  }

  function NestedRet(nested: bool): Ret {
    if nested then ToHandler else ToIdle
  }

  function Resume(i: int, ret: Ret): PC {
    match ret
    case ToIdle => Idle
    case ToDelete(m) => SpDelete(i, m)
    case ToHandler => HDec(i)
  }

  // ----- Steps ----------------------------------------------------------------------------

  function Inc(s: Slot): Slot { s.(iocnt := Up(s.iocnt)) }

  function Dec(s: Slot): Slot { s.(iocnt := Down(s.iocnt)) }

  /** The common effect of both calls of _InterlockedCompareExchange16(&mIOcnt, RELEASE, 0). */
  ghost predicate CasStep(i: int, ret: Ret, s: Slot, s': Slot, pc': PC) {
    if s.iocnt == 0 then
      && s' == s.(iocnt := RELEASE_IOCOUNT, phase := ReleaseWon, h := s.h.(wins := s.h.wins + 1, leaks := 0))
      && pc' == RelPost(i, ret)
    else s' == s && pc' == Resume(i, ret)
  }

  /** An idle thread picks up a completion, or a caller starts sendPost or disconnectSession
      with a session id that onAccept has handed out for slot i. */
  ghost predicate StartStep(g: Globals, i: int, s: Slot, g': Globals, s': Slot, pc': PC) {
    || (g' == g && s.accepts > 0 && s' == s.(accepts := s.accepts - 1, phase := Accepting) && pc' == AcLive(i))
    || (g' == g && s.recvs > 0 && s' == s.(recvs := s.recvs - 1) && (pc' == RcZero(i) || pc' == RcParse(i)))
    || (g' == g && s.sends > 0 && s' == s.(sends := s.sends - 1) && pc' == CsDelete(i))
    || (g' == g && s.releases > 0 && s' == s.(releases := s.releases - 1, phase := Releasing) && pc' == RlNotify(i))
    || (g' == g && s' == s && pc'.LkInc? && pc'.i == i == IdxOf(pc'.id) && pc'.id in s.h.issued
        && pc'.call == DiscCall(false))
    || (&& pc'.LkInc? && pc'.i == i == IdxOf(pc'.id) && pc'.id in s.h.issued && pc'.call == SendCall(Msg(g.born, pc'.id))
        && g' == g.(born := g.born + 1)
        && s' == s.(h := s.h.(given := s.h.given + multiset{pc'.call.m})))
  }

  /** completeAcceptEx: one step per line that other threads can observe. */
  ghost predicate AcceptStep(i: int, pc: PC, s: Slot, s': Slot, pc': PC)
    requires pc.AcLive? || pc.AcCount? || pc.AcAssert? || pc.AcNotify?
  {
    match pc
    case AcLive(_) => s' == s.(live := true) && pc' == AcCount(i)
    case AcCount(_) =>
      && s' == s.(iocnt := 1, phase := Active,
                  h := s.h.(used := true, leaks := 0, wins := 0, announced := false,
                            enqueued := [], batches := [], unsent := []))
      && pc' == AcAssert(i)
    case AcAssert(_) => s' == s && pc' == AcNotify(i)
    case AcNotify(_) => s' == s.(h := s.h.(announced := true, issued := s.h.issued + {s.id})) && pc' == RvSpace(i)
  }

  /** registerRecv, the two kinds of receive completion, and the end of an I/O handler. */
  ghost predicate RecvStep(i: int, pc: PC, s: Slot, s': Slot, pc': PC)
    requires pc.RvSpace? || pc.RvLive? || pc.RvInc? || pc.RvPost? || pc.RvErrLive? || pc.RvErrDec?
             || pc.RcZero? || pc.RcParse? || pc.HDec?
  {
    match pc
    case RvSpace(_) => s' == s && (pc' == RvLive(i) || pc' == LkInc(i, s.id, DiscCall(true)))
    case RvLive(_) => s' == s && pc' == if s.live then RvInc(i) else HDec(i)
    case RvInc(_) => s' == Inc(s) && pc' == RvPost(i)
    case RvPost(_) =>
      || (s' == s.(recvs := s.recvs + 1) && pc' == HDec(i))
      || (s' == s && pc' == RvErrLive(i))
    case RvErrLive(_) => s' == s.(live := false) && pc' == RvErrDec(i)
    case RvErrDec(_) => s' == Dec(s) && pc' == HDec(i)
    case RcZero(_) => s' == s.(live := false) && pc' == HDec(i)
    case RcParse(_) => s' == s && (pc' == RvSpace(i) || pc' == LkInc(i, s.id, DiscCall(true)))
    case HDec(_) => s' == Dec(s) && pc' == if s'.iocnt == 0 then RelCas(i, ToIdle) else Idle
  }

  /** The value of `500 < mSenqQSize ? 500 : mSenqQSize` from its two loads. */
  function MsgCount(r1: int, r2: int): int {
    if SEND_MESSAGE_MAXCOUNT < r1 then SEND_MESSAGE_MAXCOUNT else r2
  }

  function AfterCount(i: int, n: int): PC {
    if n == 0 then RsClear(i) else RsCount(i, n)
  }

  function AfterRecount(i: int, n: int): PC {
    if n == 0 then HDec(i) else RsRetake(i)
  }

  /** completeSend and the half of registerSend that finds the queue empty. */
  ghost predicate FlagStep(g: Globals, i: int, pc: PC, s: Slot, s': Slot, pc': PC)
    requires pc.CsDelete? || pc.RsRead? || pc.RsReread? || pc.RsClear? || pc.RsAgain? || pc.RsAgainReread?
             || pc.RsRetake? || pc.RsRetakeInc? || pc.RsRetakePost?
  {
    match pc
    case CsDelete(_) =>
      && s' == s.(ovCnt := 0, ovMsgs := [], h := s.h.(destroyed := s.h.destroyed + multiset(s.InOv())))
      && pc' == RsRead(i)
    case RsRead(_) =>
      && s' == s
      && pc' == if g.reload && s.qsize <= SEND_MESSAGE_MAXCOUNT then RsReread(i, s.qsize)
                else AfterCount(i, MsgCount(s.qsize, s.qsize))
    case RsReread(_, r) => s' == s && pc' == AfterCount(i, MsgCount(r, s.qsize))
    case RsClear(_) => s' == s.(sendFlag := false) && pc' == if s.sendFlag then RsAgain(i) else HDec(i)
    case RsAgain(_) =>
      && s' == s
      && pc' == if g.reload && s.qsize <= SEND_MESSAGE_MAXCOUNT then RsAgainReread(i)
                else AfterRecount(i, MsgCount(s.qsize, s.qsize))
    case RsAgainReread(_) => s' == s && pc' == AfterRecount(i, s.qsize)
    case RsRetake(_) => s' == s.(sendFlag := true) && pc' == if s.sendFlag then HDec(i) else RsRetakeInc(i)
    case RsRetakeInc(_) => s' == Inc(s) && pc' == RsRetakePost(i)
    case RsRetakePost(_) => s' == s.(sends := s.sends + 1) && pc' == HDec(i)
  }

  /** The half of registerSend that sends a batch. */
  ghost predicate BatchStep(i: int, pc: PC, s: Slot, s': Slot, pc': PC)
    requires pc.RsCount? || pc.RsTake? || pc.RsLive? || pc.RsInc? || pc.RsPost? || pc.RsErrLive? || pc.RsErrDec?
  {
    match pc
    case RsCount(_, n) => s' == s.(ovCnt := n) && pc' == RsTake(i, n)
    case RsTake(_, n) =>
      if |s.ovMsgs| < n then
        // DeQueueMsgOrNull; a null result is a failed assertion and ends the run
        && s.queue != []
        && s' == s.(queue := s.queue[1..], qsize := Down(s.qsize), ovMsgs := s.ovMsgs + [s.queue[0]],
                    h := s.h.(unsent := s.h.unsent + [s.queue[0]]))
        && pc' == pc
      else s' == s && pc' == RsLive(i)
    case RsLive(_) => s' == s && pc' == if s.live then RsInc(i) else HDec(i)
    case RsInc(_) => s' == Inc(s) && pc' == RsPost(i)
    case RsPost(_) =>
      || (s' == s.(sends := s.sends + 1, h := s.h.(batches := s.h.batches + [s.ovMsgs], unsent := [])) && pc' == HDec(i))
      || (s' == s.(h := s.h.(batches := s.h.batches + [s.ovMsgs], unsent := [])) && pc' == RsErrLive(i))
    case RsErrLive(_) => s' == s.(live := false) && pc' == RsErrDec(i)
    case RsErrDec(_) => s' == Dec(s) && pc' == HDec(i)
  }

  /** Where a caller goes when sessionLock returns true. */
  function Locked(i: int, id: int, call: Call): PC {
    match call
    case SendCall(m) => SpPush(i, id, m)
    case DiscCall(nested) => DcLive(i, id, nested)
  }

  /** sessionLock, the bodies of its two callers, and sessionUnLock. */
  ghost predicate LockStep(i: int, pc: PC, s: Slot, s': Slot, pc': PC)
    requires pc.LkInc? || pc.LkCheck? || pc.MisDec? || pc.SpPush? || pc.SpCas? || pc.SpInc? || pc.SpPost?
             || pc.SpDelete? || pc.DcLive? || pc.UnDec? || pc.RelCas? || pc.RelPost?
  {
    match pc
    case LkInc(_, id, call) =>
      if ReleaseBit(Inc(s).iocnt) then s' == Inc(s).(h := s.h.(leaks := s.h.leaks + 1)) && pc' == Resume(i, RetOf(call))
      else s' == Inc(s) && pc' == LkCheck(i, id, call)
    case LkCheck(_, id, call) =>
      && s' == s
      && pc' == if s.id != id then MisDec(i, RetOf(call))
                else Locked(i, id, call)
    case MisDec(_, ret) => s' == Dec(s) && pc' == RelCas(i, ret)
    case SpPush(_, id, m) =>
      && s' == s.(queue := s.queue + [m], qsize := Up(s.qsize), h := s.h.(enqueued := s.h.enqueued + [m]))
      && pc' == SpCas(i, id)
    case SpCas(_, id) => s' == s.(sendFlag := true) && pc' == if s.sendFlag then UnDec(i, id, false) else SpInc(i, id)
    case SpInc(_, id) => s' == Inc(s) && pc' == SpPost(i, id)
    case SpPost(_, id) => s' == s.(sends := s.sends + 1) && pc' == UnDec(i, id, false)
    case SpDelete(_, m) => s' == s.(h := s.h.(destroyed := s.h.destroyed + multiset{m})) && pc' == Idle
    case DcLive(_, id, nested) => s' == s.(live := false) && pc' == UnDec(i, id, nested)
    case UnDec(_, id, nested) =>
      && s' == Dec(s)
      && pc' == if s'.iocnt == 0 then RelCas(i, NestedRet(nested)) else Resume(i, NestedRet(nested))
    case RelCas(_, ret) => CasStep(i, ret, s, s', pc')
    case RelPost(_, ret) => s' == s.(releases := s.releases + 1, phase := ReleasePosted) && pc' == Resume(i, ret)
  }

  /** completeRelease. */
  ghost predicate ReleaseStep(g: Globals, i: int, pc: PC, s: Slot, g': Globals, s': Slot, pc': PC)
    requires pc.RlNotify? || pc.RlDrain? || pc.RlOv? || pc.RlPush?
  {
    match pc
    case RlNotify(_) => g' == g && s' == s.(h := s.h.(released := s.h.released + {s.id})) && pc' == RlDrain(i)
    case RlDrain(_) =>
      && g' == g
      && if s.queue != [] then
           && s' == s.(queue := s.queue[1..], qsize := Down(s.qsize),
                       h := s.h.(destroyed := s.h.destroyed + multiset{s.queue[0]}))
           && pc' == pc
         else s' == s && pc' == RlOv(i)
    case RlOv(_) =>
      && g' == g
      && s' == s.(ovCnt := 0, ovMsgs := [], sendFlag := false,
                  h := s.h.(destroyed := s.h.destroyed + multiset(s.InOv())))
      && pc' == RlPush(i)
    case RlPush(_) => g' == g.(free := g.free + [IdxOf(s.id)]) && s' == s.(phase := Free) && pc' == RaPop
  }

  /** registerAcceptEx. A pop of the empty stack leaves the routine. */
  ghost predicate RegisterStep(g: Globals, i: int, pc: PC, s: Slot, g': Globals, s': Slot, pc': PC)
    requires pc.RaPop? || pc.RaSeq? || pc.RaId? || pc.RaAccept? || pc.RaBack?
  {
    match pc
    case RaPop =>
      if g.free == [] then g' == g && s' == s && pc' == Idle
      else
        && i == g.free[|g.free| - 1]
        && g' == g.(free := g.free[..|g.free| - 1]) && s' == s.(phase := Registering) && pc' == RaSeq(i)
    case RaSeq(_) => g' == g.(lastSeq := g.lastSeq + 1) && s' == s && pc' == RaId(i, g'.lastSeq)
    case RaId(_, q) => g' == g && s' == s.(id := Pack(i, q)) && pc' == RaAccept(i)
    case RaAccept(_) =>
      && g' == g
      && (|| (s' == s.(accepts := s.accepts + 1, phase := AcceptPosted) && pc' == Idle)
          || (s' == s && pc' == RaBack(i)))
    case RaBack(_) => g' == g.(free := g.free + [i]) && s' == s.(phase := Free) && pc' == Idle
  }

  /** One step of one thread that stands at pc and works on slot i. */
  ghost predicate SlotStep(g: Globals, i: int, pc: PC, s: Slot, g': Globals, s': Slot, pc': PC) {
    && (pc.Idle? || pc.RaPop? || pc.i == i)
    && match pc
       case Idle => StartStep(g, i, s, g', s', pc')
       case AcLive(_) | AcCount(_) | AcAssert(_) | AcNotify(_) => g' == g && AcceptStep(i, pc, s, s', pc')
       case RvSpace(_) | RvLive(_) | RvInc(_) | RvPost(_) | RvErrLive(_) | RvErrDec(_) | RcZero(_) | RcParse(_)
         | HDec(_) => g' == g && RecvStep(i, pc, s, s', pc')
       case CsDelete(_) | RsRead(_) | RsReread(_, _) | RsClear(_) | RsAgain(_) | RsAgainReread(_) | RsRetake(_)
         | RsRetakeInc(_) | RsRetakePost(_) => g' == g && FlagStep(g, i, pc, s, s', pc')
       case RsCount(_, _) | RsTake(_, _) | RsLive(_) | RsInc(_) | RsPost(_) | RsErrLive(_) | RsErrDec(_) =>
         g' == g && BatchStep(i, pc, s, s', pc')
       case LkInc(_, _, _) | LkCheck(_, _, _) | MisDec(_, _) | SpPush(_, _, _) | SpCas(_, _) | SpInc(_, _)
         | SpPost(_, _) | SpDelete(_, _) | DcLive(_, _, _) | UnDec(_, _, _) | RelCas(_, _) | RelPost(_, _) =>
         g' == g && LockStep(i, pc, s, s', pc')
       case RlNotify(_) | RlDrain(_) | RlOv(_) | RlPush(_) => ReleaseStep(g, i, pc, s, g', s', pc')
       case RaPop | RaSeq(_) | RaId(_, _) | RaAccept(_) | RaBack(_) => RegisterStep(g, i, pc, s, g', s', pc')
  }

  // ----- The whole system -----------------------------------------------------------------

  datatype Sys = Sys(g: Globals, slots: seq<Slot>, threads: seq<PC>)

  /** Thread t takes a step on slot i; nothing else moves. */
  ghost predicate StepBy(a: Sys, b: Sys, t: nat, i: nat) {
    && t < |a.threads| == |b.threads|
    && i < |a.slots| == |b.slots|
    && SlotStep(a.g, i, a.threads[t], a.slots[i], b.g, b.slots[i], b.threads[t])
    && b.threads == a.threads[t := b.threads[t]]
    && b.slots == a.slots[i := b.slots[i]]
  }

  ghost predicate Step(a: Sys, b: Sys) {
    exists t: nat, i: nat :: StepBy(a, b, t, i)
  }

  /** A slot as the constructor leaves it: its first AcceptEx is pending, or failed. */
  function InitSlot(i: int, pending: bool): Slot {
    Slot(0, false, false, Pack(i, i), [], 0, 0, [],
         if pending then 1 else 0, 0, 0, 0,
         if pending then AcceptPosted else Free,
         History(false, 0, 0, false, {}, {}, [], [], [], multiset{}, multiset{}))
  }

  /** The state after the constructor's loop has registered every slot once. */
  ghost predicate Init(a: Sys) {
    && |a.slots| < IDX_RANGE / 2
    && (forall i :: 0 <= i < |a.slots| ==>
          a.slots[i] == InitSlot(i, true) || a.slots[i] == InitSlot(i, false))
    && (forall t :: 0 <= t < |a.threads| ==> a.threads[t] == Idle)
    && a.g.lastSeq == |a.slots| - 1
    && a.g.born == 0
    && (forall i :: i in a.g.free <==> 0 <= i < |a.slots| && a.slots[i].phase == Free)
    && (forall x, y :: 0 <= x < y < |a.g.free| ==> a.g.free[x] != a.g.free[y])
  }
}
