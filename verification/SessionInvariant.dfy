/**
 What every reachable state of the session protocol satisfies.

 The threads are summarised, slot by slot, by how many of them stand at certain places
 (Tally). SlotInv ties a slot's words to its tally, ThreadInv says what one thread may rely
 on; both speak of one slot only.
 */
module SessionInvariant {
  import opened SessionModel

  // ----- Counting threads -----------------------------------------------------------------

  /** How many threads, for one slot, are in each of these roles. */
  datatype Tally = Tally(
    hnd: int,    // I/O handlers that have not reached the decrement at the end of workerThread
    lck: int,    // threads between the two halves of sessionLock / sessionUnLock
    ops: int,    // operations counted but not yet handed to the port
    tok: int,    // threads that own the send side
    rtok: int,   // threads that will post the next receive or kill the session
    own: int,    // threads that own the slot outside its active phase
    deq: int,    // threads filling mSendOv
    cas: int,    // threads about to try the release CAS
    wake: int,   // threads that will still look at the send flag
    ann: int     // threads that will still call onAccept
  )

  const NoTally := Tally(0, 0, 0, 0, 0, 0, 0, 0, 0, 0)

  function B(b: bool): nat { if b then 1 else 0 }

  predicate Nested(pc: PC) {
    match pc
    case LkInc(_, _, call) => call == DiscCall(true)
    case LkCheck(_, _, call) => call == DiscCall(true)
    case MisDec(_, ret) => ret.ToHandler?
    case DcLive(_, _, nested) => nested
    case UnDec(_, _, nested) => nested
    case RelCas(_, ret) => ret.ToHandler?
    case RelPost(_, ret) => ret.ToHandler?
    case _ => false
  }

  predicate On(i: int, pc: PC) { !pc.Idle? && !pc.RaPop? && pc.i == i }

  /** The roles of a thread at pc. */
  function Role(pc: PC): Tally {
    match pc                      // hnd lck ops tok rtok own deq cas wake ann
    case AcLive(_)          => Tally(0, 0, 0, 0, 0, 1, 0, 0, 0, 0)
    case AcCount(_)         => Tally(0, 0, 0, 0, 0, 1, 0, 0, 0, 0)
    case AcAssert(_)        => Tally(1, 0, 0, 0, 1, 0, 0, 0, 0, 1)
    case AcNotify(_)        => Tally(1, 0, 0, 0, 1, 0, 0, 0, 0, 1)
    case RvSpace(_)         => Tally(1, 0, 0, 0, 1, 0, 0, 0, 0, 0)
    case RvLive(_)          => Tally(1, 0, 0, 0, 1, 0, 0, 0, 0, 0)
    case RvInc(_)           => Tally(1, 0, 0, 0, 1, 0, 0, 0, 0, 0)
    case RvPost(_)          => Tally(1, 0, 1, 0, 1, 0, 0, 0, 0, 0)
    case RvErrLive(_)       => Tally(1, 0, 1, 0, 1, 0, 0, 0, 0, 0)
    case RvErrDec(_)        => Tally(1, 0, 1, 0, 0, 0, 0, 0, 0, 0)
    case RcZero(_)          => Tally(1, 0, 0, 0, 1, 0, 0, 0, 0, 0)
    case RcParse(_)         => Tally(1, 0, 0, 0, 1, 0, 0, 0, 0, 0)
    case CsDelete(_)        => Tally(1, 0, 0, 1, 0, 0, 0, 0, 0, 0)
    case RsRead(_)          => Tally(1, 0, 0, 1, 0, 0, 0, 0, 0, 0)
    case RsReread(_, _)     => Tally(1, 0, 0, 1, 0, 0, 0, 0, 0, 0)
    case RsClear(_)         => Tally(1, 0, 0, 1, 0, 0, 0, 0, 0, 0)
    case RsAgain(_)         => Tally(1, 0, 0, 0, 0, 0, 0, 0, 1, 0)
    case RsAgainReread(_)   => Tally(1, 0, 0, 0, 0, 0, 0, 0, 1, 0)
    case RsRetake(_)        => Tally(1, 0, 0, 0, 0, 0, 0, 0, 1, 0)
    case RsRetakeInc(_)     => Tally(1, 0, 0, 1, 0, 0, 0, 0, 0, 0)
    case RsRetakePost(_)    => Tally(1, 0, 1, 1, 0, 0, 0, 0, 0, 0)
    case RsCount(_, _)      => Tally(1, 0, 0, 1, 0, 0, 0, 0, 0, 0)
    case RsTake(_, _)       => Tally(1, 0, 0, 1, 0, 0, 1, 0, 0, 0)
    case RsLive(_)          => Tally(1, 0, 0, 1, 0, 0, 0, 0, 0, 0)
    case RsInc(_)           => Tally(1, 0, 0, 1, 0, 0, 0, 0, 0, 0)
    case RsPost(_)          => Tally(1, 0, 1, 1, 0, 0, 0, 0, 0, 0)
    case RsErrLive(_)       => Tally(1, 0, 1, 1, 0, 0, 0, 0, 0, 0)
    case RsErrDec(_)        => Tally(1, 0, 1, 0, 0, 0, 0, 0, 0, 0)
    case HDec(_)            => Tally(1, 0, 0, 0, 0, 0, 0, 0, 0, 0)
    case LkInc(_, _, _)     => Tally(N(pc), 0, 0, 0, N(pc), 0, 0, 0, 0, 0)
    case LkCheck(_, _, _)   => Tally(N(pc), 1, 0, 0, N(pc), 0, 0, 0, 0, 0)
    case MisDec(_, _)       => Tally(N(pc), 1, 0, 0, 0, 0, 0, 0, 0, 0)
    case SpPush(_, _, _)    => Tally(0, 1, 0, 0, 0, 0, 0, 0, 0, 0)
    case SpCas(_, _)        => Tally(0, 1, 0, 0, 0, 0, 0, 0, 1, 0)
    case SpInc(_, _)        => Tally(0, 1, 0, 1, 0, 0, 0, 0, 0, 0)
    case SpPost(_, _)       => Tally(0, 1, 1, 1, 0, 0, 0, 0, 0, 0)
    case DcLive(_, _, _)    => Tally(N(pc), 1, 0, 0, N(pc), 0, 0, 0, 0, 0)
    case UnDec(_, _, _)     => Tally(N(pc), 1, 0, 0, 0, 0, 0, 0, 0, 0)
    case RelCas(_, _)       => Tally(N(pc), 0, 0, 0, 0, 0, 0, 1, 0, 0)
    case RelPost(_, _)      => Tally(N(pc), 0, 0, 0, 0, 1, 0, 0, 0, 0)
    case RlNotify(_)        => Tally(0, 0, 0, 0, 0, 1, 0, 0, 0, 0)
    case RlDrain(_)         => Tally(0, 0, 0, 0, 0, 1, 0, 0, 0, 0)
    case RlOv(_)            => Tally(0, 0, 0, 0, 0, 1, 0, 0, 0, 0)
    case RlPush(_)          => Tally(0, 0, 0, 0, 0, 1, 0, 0, 0, 0)
    case RaSeq(_)           => Tally(0, 0, 0, 0, 0, 1, 0, 0, 0, 0)
    case RaId(_, _)         => Tally(0, 0, 0, 0, 0, 1, 0, 0, 0, 0)
    case RaAccept(_)        => Tally(0, 0, 0, 0, 0, 1, 0, 0, 0, 0)
    case RaBack(_)          => Tally(0, 0, 0, 0, 0, 1, 0, 0, 0, 0)
    case _                  => NoTally
  }

  function N(pc: PC): int { if Nested(pc) then 1 else 0 }

  function Weigh(i: int, pc: PC): Tally {
    if On(i, pc) then Role(pc) else NoTally
  }

  function Plus(u: Tally, v: Tally): Tally {
    Tally(u.hnd + v.hnd, u.lck + v.lck, u.ops + v.ops, u.tok + v.tok, u.rtok + v.rtok, u.own + v.own,
          u.deq + v.deq, u.cas + v.cas, u.wake + v.wake, u.ann + v.ann)
  }

  function Total(i: int, threads: seq<PC>): Tally {
    if threads == [] then NoTally else Plus(Weigh(i, threads[0]), Total(i, threads[1..]))
  }

  /** Threads about to pop the stack of free slots. */
  function Pops(threads: seq<PC>): nat {
    if threads == [] then 0 else B(threads[0].RaPop?) + Pops(threads[1..])
  }

  /** How the roles overlap, for any collection of threads. */
  predicate Nests(u: Tally) {
    && 0 <= u.hnd && 0 <= u.lck && 0 <= u.ops && 0 <= u.tok && 0 <= u.rtok
    && 0 <= u.own && 0 <= u.deq && 0 <= u.cas && 0 <= u.wake && 0 <= u.ann
    && u.tok <= u.hnd + u.lck && u.deq <= u.tok && u.wake <= u.hnd + u.lck
    && u.rtok <= u.hnd && u.ann <= u.rtok
  }

  // ----- One slot -------------------------------------------------------------------------

  function Flatten(bs: seq<seq<Msg>>): seq<Msg> {
    if bs == [] then [] else Flatten(bs[..|bs| - 1]) + bs[|bs| - 1]
  }

  /** What the reference count counts while the slot is active. */
  function Refs(s: Slot, u: Tally): int {
    s.recvs + s.sends + u.ops + u.hnd + u.lck
  }

  /** The meaning of mIOcnt in each phase. */
  predicate CountInv(s: Slot, u: Tally) {
    && (s.phase.Active? ==>
          && s.h.used && s.h.wins == 0 && s.h.leaks == 0
          && s.iocnt == Refs(s, u)
          && (s.iocnt == 0 ==> u.cas >= 1))
    && (!s.phase.Active? ==>
          && Refs(s, u) == 0
          && s.iocnt == (if s.h.used then RELEASE_IOCOUNT + s.h.leaks else s.h.leaks)
          && s.h.wins == (if s.h.used then 1 else 0)
          && (s.h.used || s.h.leaks == 0))
  }

  /** Outside the active phase a slot is on the free stack, or a completion or one thread has it. */
  predicate OwnerInv(s: Slot, u: Tally) {
    && u.own == B(s.phase.Accepting? || s.phase.ReleaseWon? || s.phase.Releasing? || s.phase.Registering?)
    && s.accepts == B(s.phase.AcceptPosted?)
    && s.releases == B(s.phase.ReleasePosted?)
  }

  predicate Clean(s: Slot) {
    s.queue == [] && s.ovCnt == 0 && s.ovMsgs == [] && !s.sendFlag
  }

  predicate BeforeAccept(p: Phase) {
    p.Free? || p.Registering? || p.AcceptPosted? || p.Accepting?
  }

  /** The send side: at most one owner, and none exactly when the flag is clear or the session dead. */
  predicate SendInv(s: Slot, u: Tally) {
    && u.tok + s.sends <= 1
    && (s.phase.Active? ==>
          && (!s.sendFlag ==> u.tok + s.sends == 0 && s.ovCnt == 0 && s.h.unsent == [])
          && (s.sendFlag ==> u.tok + s.sends == 1 || !s.live)
          && (!s.sendFlag && s.queue != [] ==> u.wake >= 1)
          && (s.sends > 0 ==> s.h.unsent == [])
          && (!s.h.announced ==> Clean(s)))
    && (u.deq == 0 ==> |s.ovMsgs| == s.ovCnt)
    && (BeforeAccept(s.phase) ==> Clean(s))
  }

  /** The receive side: at most one owner, and exactly one while the session lives. */
  predicate RecvInv(s: Slot, u: Tally) {
    && u.rtok + s.recvs <= 1
    && (s.phase.Active? && s.live ==> u.rtok + s.recvs == 1)
    && (!s.phase.Active? && !s.phase.Accepting? ==> !s.live)
  }

  predicate InRange(g: Globals, i: int, id: int) {
    IdxOf(id) == i && 0 <= SeqOf(id) <= g.lastSeq
  }

  /** Every id that slot i has or has had names slot i and a registration already counted. */
  ghost predicate RangeInv(g: Globals, i: int, s: Slot) {
    InRange(g, i, s.id) && forall id :: id in s.h.issued ==> InRange(g, i, id)
  }

  /** Session ids: the current one is new until onAccept hands it out, and then not yet released. */
  ghost predicate IdInv(s: Slot, u: Tally) {
    && s.h.released <= s.h.issued
    && (s.h.issued != {} ==> s.h.used)
    && (s.phase.AcceptPosted? || s.phase.Accepting? ==> s.id !in s.h.issued)
    && (s.phase.Active? ==> s.id !in s.h.released && (s.h.announced <==> s.id in s.h.issued) && u.ann == B(!s.h.announced))
    && (s.phase.ReleaseWon? || s.phase.ReleasePosted? ==> s.id in s.h.issued && s.id !in s.h.released)
  }

  /** Order: what was enqueued is what was sent, then what is in mSendOv, then the queue. */
  ghost predicate OrderInv(g: Globals, s: Slot) {
    && (s.phase.Active? ==> s.h.enqueued == Flatten(s.h.batches) + s.h.unsent + s.queue)
    && (s.phase.Active? ==> forall k :: 0 <= k < |s.h.batches| ==> 1 <= |s.h.batches[k]|)
    && (s.phase.Active? && !g.reload ==> forall k :: 0 <= k < |s.h.batches| ==> |s.h.batches[k]| <= SEND_MESSAGE_MAXCOUNT)
    && (forall m :: m in s.queue ==> m.owner == s.id)
    && s.qsize == |s.queue|
  }

  ghost predicate SlotInv(g: Globals, s: Slot, u: Tally) {
    && CountInv(s, u) && OwnerInv(s, u) && SendInv(s, u) && RecvInv(s, u) && IdInv(s, u) && OrderInv(g, s)
  }

  // ----- One thread -----------------------------------------------------------------------

  predicate CallInv(id: int, call: Call) {
    call.SendCall? ==> call.m.owner == id
  }

  /** A batch size that registerSend may have computed. */
  predicate SizeInv(g: Globals, n: int) {
    1 <= n && (g.reload || n <= SEND_MESSAGE_MAXCOUNT)
  }

  /** What a thread that stands at pc may rely on. */
  ghost predicate ThreadInv(g: Globals, pc: PC, s: Slot) {
    match pc
    case AcLive(_) => s.phase.Accepting?
    case AcCount(_) => s.phase.Accepting? && s.live
    case AcAssert(_) => !s.h.announced
    case AcNotify(_) => !s.h.announced
    case CsDelete(_) => s.h.unsent == [] && s.sendFlag
    case RsRead(_) => s.ovCnt == 0 && s.h.unsent == [] && s.sendFlag
    case RsReread(_, r) => g.reload && s.ovCnt == 0 && s.h.unsent == [] && s.sendFlag && 0 <= r <= |s.queue| && r <= SEND_MESSAGE_MAXCOUNT
    case RsClear(_) => s.ovCnt == 0 && s.h.unsent == [] && s.sendFlag
    case RsAgain(_) => s.h.announced
    case RsAgainReread(_) => s.h.announced
    case RsRetake(_) => s.h.announced
    case RsRetakeInc(_) => s.ovCnt == 0 && s.h.unsent == [] && s.sendFlag
    case RsRetakePost(_) => s.ovCnt == 0 && s.h.unsent == [] && s.sendFlag
    case RsCount(_, n) => s.ovCnt == 0 && s.h.unsent == [] && s.sendFlag && SizeInv(g, n) && n <= |s.queue|
    case RsTake(_, n) =>
      s.ovCnt == n && s.h.unsent == s.ovMsgs && s.sendFlag && SizeInv(g, n) && 0 <= n - |s.ovMsgs| <= |s.queue|
    case RsLive(_) => SizeInv(g, s.ovCnt) && s.h.unsent == s.ovMsgs && s.sendFlag
    case RsInc(_) => SizeInv(g, s.ovCnt) && s.h.unsent == s.ovMsgs && s.sendFlag
    case RsPost(_) => SizeInv(g, s.ovCnt) && s.h.unsent == s.ovMsgs && s.sendFlag
    case RsErrLive(_) => s.sendFlag
    case LkInc(_, id, call) => id in s.h.issued && CallInv(id, call) && (Nested(pc) ==> id == s.id)
    case LkCheck(_, id, call) => id in s.h.issued && CallInv(id, call) && (Nested(pc) ==> id == s.id)
    case MisDec(_, ret) => !ret.ToHandler?
    case SpPush(_, id, m) => id == s.id && s.h.announced && m.owner == id
    case SpCas(_, id) => id == s.id && s.h.announced
    case SpInc(_, id) => id == s.id && s.ovCnt == 0 && s.h.unsent == [] && s.sendFlag
    case SpPost(_, id) => id == s.id && s.ovCnt == 0 && s.h.unsent == [] && s.sendFlag
    case DcLive(_, id, _) => id == s.id
    case UnDec(_, id, _) => id == s.id
    case RelCas(_, _) => s.h.used
    case RelPost(_, ret) => s.phase.ReleaseWon?
    case RlNotify(_) => s.phase.Releasing? && s.id in s.h.issued && s.id !in s.h.released
    case RlDrain(_) => s.phase.Releasing?
    case RlOv(_) => s.phase.Releasing? && s.queue == []
    case RlPush(_) => s.phase.Releasing? && Clean(s)
    case RaSeq(_) => s.phase.Registering?
    case RaId(i, q) =>
      && s.phase.Registering? && 0 <= q <= g.lastSeq
      && Pack(i, q) !in s.h.issued
    case RaAccept(_) => s.phase.Registering? && s.id !in s.h.issued
    case RaBack(_) => s.phase.Registering?
    case _ => true
  }

  // ----- The whole system -----------------------------------------------------------------

  /** The bounds the code relies on: 14 bits of references, 14 bits of leaked increments,
      15 bits of queue length, and session ids that have not wrapped round. */
  predicate SlotBounds(s: Slot, u: Tally) {
    Refs(s, u) + 1 < RELEASE_IOCOUNT && s.h.leaks + 1 < RELEASE_IOCOUNT && |s.queue| < 0x7fff
  }

  predicate SeqBound(g: Globals) { g.lastSeq + 1 < SEQ_RANGE }

  ghost predicate Bounds(a: Sys) {
    && SeqBound(a.g)
    && forall i :: 0 <= i < |a.slots| ==> SlotBounds(a.slots[i], Total(i, a.threads))
  }

  ghost predicate Inv(a: Sys) {
    && |a.slots| < IDX_RANGE / 2
    && 0 <= a.g.lastSeq + 1
    && (forall i :: 0 <= i < |a.slots| ==> SlotInv(a.g, a.slots[i], Total(i, a.threads)))
    && (forall i :: 0 <= i < |a.slots| ==> RangeInv(a.g, i, a.slots[i]))
    && (forall t :: 0 <= t < |a.threads| && !a.threads[t].Idle? && !a.threads[t].RaPop? ==>
          0 <= a.threads[t].i < |a.slots| && ThreadInv(a.g, a.threads[t], a.slots[a.threads[t].i]))
    && StackInv(a.g.free, a.slots)
    && Pops(a.threads) <= |a.g.free|      // a free slot for every thread about to pop
  }

  /** The stack holds each free slot exactly once. */
  ghost predicate StackInv(free: seq<int>, slots: seq<Slot>) {
    && (forall k :: 0 <= k < |free| ==> 0 <= free[k] < |slots| && slots[free[k]].phase.Free?)
    && (forall i :: 0 <= i < |slots| && slots[i].phase.Free? ==> i in free)
    && (forall x, y :: 0 <= x < y < |free| ==> free[x] != free[y])
  }
}
