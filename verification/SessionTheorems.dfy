/**
 What holds in every state of every run of the session protocol, however the threads
 interleave and however the requests complete.
 */
module SessionTheorems {
  import opened SessionModel
  import opened SessionInvariant
  import opened SessionProof
  import opened SessionSystem
  import opened SessionMessages

  // ----- Runs -----------------------------------------------------------------------------

  /** A run starts where the constructor ends and stays within the bounds the code relies on. */
  ghost predicate IsRun(run: seq<Sys>) {
    && run != [] && Init(run[0])
    && (forall k {:trigger Bounds(run[k])} :: 0 <= k < |run| ==> Bounds(run[k]))
    && (forall k {:trigger Step(run[k - 1], run[k])} :: 0 < k < |run| ==> Step(run[k - 1], run[k]))
  }

  /** The run has come to state a. What is proved of a for every run is proved of every reachable state. */
  ghost predicate RunTo(run: seq<Sys>, a: Sys) {
    IsRun(run) && run[|run| - 1] == a
  }

  lemma Weightless(i: int, pc: PC)
    requires !On(i, pc)
    ensures Weigh(i, pc) == NoTally && Plus(NoTally, NoTally) == NoTally
  {
    hide Role;
  }

  lemma {:induction false} QuietTotal(i: int, threads: seq<PC>)
    requires forall t :: 0 <= t < |threads| ==> !On(i, threads[t])
    ensures Total(i, threads) == NoTally
  {
    hide Weigh, Plus, On;
    if threads != [] {
      Weightless(i, threads[0]);
      QuietTotal(i, threads[1..]);
    }
  }

  lemma {:induction false} IdlePops(threads: seq<PC>)
    requires forall t :: 0 <= t < |threads| ==> threads[t] == Idle
    ensures Pops(threads) == 0
  {
    if threads != [] {
      assert threads[0] == Idle;
      IdlePops(threads[1..]);
    }
  }

  lemma {:induction false} QuietHands(i: int, threads: seq<PC>)
    requires forall t :: 0 <= t < |threads| ==> !On(i, threads[t])
    ensures AllInHand(i, threads) == multiset{}
  {
    hide On;
    if threads != [] {
      assert !On(i, threads[0]);
      QuietHands(i, threads[1..]);
    }
  }

  lemma InitSlotInv(g: Globals, i: nat, pending: bool)
    requires i < IDX_RANGE / 2 && i <= g.lastSeq
    ensures SlotInv(g, InitSlot(i, pending), NoTally) && RangeInv(g, i, InitSlot(i, pending))
    ensures Balanced(InitSlot(i, pending), multiset{}) && Distinct(g, InitSlot(i, pending))
  {
    PackUnpack(i, i);
  }

  lemma InitInv(a: Sys)
    requires Init(a)
    ensures Inv(a) && MsgInv(a)
  {
    hide Weigh, Total, AllInHand, ThreadInv, SlotInv, RangeInv, Balanced, Distinct;
    forall i: nat | i < |a.slots|
      ensures SlotInv(a.g, a.slots[i], Total(i, a.threads)) && RangeInv(a.g, i, a.slots[i])
      ensures Balanced(a.slots[i], AllInHand(i, a.threads)) && Distinct(a.g, a.slots[i])
    {
      QuietTotal(i, a.threads);
      QuietHands(i, a.threads);
      InitSlotInv(a.g, i, a.slots[i] == InitSlot(i, true));
    }
    IdlePops(a.threads);
    assert forall k :: 0 <= k < |a.g.free| ==> a.g.free[k] in a.g.free;
    assert StackInv(a.g.free, a.slots);
  }

  lemma {:induction false} RunKeepsInv(run: seq<Sys>)
    requires IsRun(run)
    ensures Inv(run[|run| - 1]) && MsgInv(run[|run| - 1])
  {
    hide Inv, MsgInv, Bounds, Init, StepBy;
    if |run| == 1 {
      InitInv(run[0]);
    } else {
      var before := run[..|run| - 1];
      RunKeepsInv(before);
      var a, b := run[|run| - 2], run[|run| - 1];
      var m := |run| - 1;
      assert a == before[|before| - 1] && Step(run[m - 1], run[m]);
      var t: nat, i: nat :| StepBy(a, b, t, i);
      StepKeepsInv(a, b, t, i);
      StepKeepsMsgInv(a, b, t, i);
    }
  }

  /** Every reachable state satisfies the invariants. */
  lemma Safety(run: seq<Sys>, a: Sys)
    requires RunTo(run, a)
    ensures Inv(a) && MsgInv(a) && Bounds(a)
  {
    hide Inv, MsgInv;
    RunKeepsInv(run);
  }

  // ----- From tallies to threads ----------------------------------------------------------

  /** No thread is anywhere on slot i. */
  ghost predicate Quiet(a: Sys, i: int) {
    forall t :: 0 <= t < |a.threads| ==> !On(i, a.threads[t])
  }

  lemma WakerRole(i: int, pc: PC)
    requires Weigh(i, pc).wake >= 1
    ensures On(i, pc) && (pc.SpCas? || pc.RsAgain? || pc.RsAgainReread? || pc.RsRetake?)
  {
  }

  lemma ReleaserRole(i: int, pc: PC)
    requires Weigh(i, pc).cas >= 1
    ensures On(i, pc) && pc.RelCas?
  {
  }

  lemma {:induction false} WakerExists(i: int, threads: seq<PC>) returns (t: nat)
    requires Total(i, threads).wake >= 1
    ensures t < |threads| && On(i, threads[t])
    ensures threads[t].SpCas? || threads[t].RsAgain? || threads[t].RsAgainReread? || threads[t].RsRetake?
  {
    hide Weigh, On;
    if Weigh(i, threads[0]).wake >= 1 {
      WakerRole(i, threads[0]);
      t := 0;
    } else {
      var k := WakerExists(i, threads[1..]);
      t := k + 1;
    }
  }

  lemma {:induction false} ReleaserExists(i: int, threads: seq<PC>) returns (t: nat)
    requires Total(i, threads).cas >= 1
    ensures t < |threads| && On(i, threads[t]) && threads[t].RelCas?
  {
    hide Weigh, On;
    if Weigh(i, threads[0]).cas >= 1 {
      ReleaserRole(i, threads[0]);
      t := 0;
    } else {
      var k := ReleaserExists(i, threads[1..]);
      t := k + 1;
    }
  }

  lemma AtSlot(run: seq<Sys>, a: Sys, i: nat)
    requires RunTo(run, a) && i < |a.slots|
    ensures SlotInv(a.g, a.slots[i], Total(i, a.threads)) && RangeInv(a.g, i, a.slots[i])
    ensures Nests(Total(i, a.threads)) && SlotBounds(a.slots[i], Total(i, a.threads))
  {
    hide SlotInv, ThreadInv, RangeInv, MsgInv, StackInv;
    Safety(run, a);
    TotalNests(i, a.threads);
  }

  lemma AtStack(run: seq<Sys>, a: Sys)
    requires RunTo(run, a)
    ensures StackInv(a.g.free, a.slots)
  {
    hide SlotInv, ThreadInv, RangeInv, MsgInv, StackInv;
    Safety(run, a);
  }

  /** A thread on a slot, and the share of the tally that belongs to the other threads. */
  lemma AtThread(run: seq<Sys>, a: Sys, t: nat) returns (rest: Tally)
    requires RunTo(run, a) && t < |a.threads| && !a.threads[t].Idle? && !a.threads[t].RaPop?
    ensures 0 <= a.threads[t].i < |a.slots|
    ensures var pc := a.threads[t];
            && ThreadInv(a.g, pc, a.slots[pc.i])
            && Nests(rest)
            && SlotInv(a.g, a.slots[pc.i], Plus(Weigh(pc.i, pc), rest))
            && Total(pc.i, a.threads) == Plus(Weigh(pc.i, pc), rest)
  {
    hide SlotInv, ThreadInv, MsgInv, StackInv, Weigh, Plus, Nests, Bounds;
    Safety(run, a);
    TotalSplit(a.threads[t].i, a.threads, t);
    TotalNests(a.threads[t].i, Without(a.threads, t));
    rest := Total(a.threads[t].i, Without(a.threads, t));
  }

  // ----- The reference count --------------------------------------------------------------

  /** While a session is active the count is exactly the operations that are pending or about to
      be issued, the handlers that have not finished, and the holders of the session lock; when
      it is zero, a thread is on its way to the release CAS. Otherwise the release bit is set. */
  lemma ReferenceCount(run: seq<Sys>, a: Sys, i: nat)
    requires RunTo(run, a) && i < |a.slots|
    ensures var s, u := a.slots[i], Total(i, a.threads);
            && (s.phase.Active? ==> s.iocnt == s.recvs + s.sends + u.ops + u.hnd + u.lck)
            && (s.phase.Active? ==> !ReleaseBit(s.iocnt))
            && (s.phase.Active? && s.iocnt == 0 ==> exists t :: 0 <= t < |a.threads| && a.threads[t].RelCas? && a.threads[t].i == i)
            && (!s.phase.Active? ==> s.recvs + s.sends + u.ops + u.hnd + u.lck == 0)
            && (!s.phase.Active? && s.h.used ==> s.iocnt == 0x4000 + s.h.leaks && ReleaseBit(s.iocnt))
  {
    AtSlot(run, a, i);
    var s, u := a.slots[i], Total(i, a.threads);
    if s.phase.Active? && s.iocnt == 0 {
      var t := ReleaserExists(i, a.threads);
    }
  }

  lemma WinningCas(g: Globals, i: int, pc: PC, s: Slot, s': Slot, pc': PC, rest: Tally)
    requires pc.RelCas? && On(i, pc) && Nests(rest) && ThreadInv(g, pc, s) && SlotInv(g, s, Plus(Weigh(i, pc), rest))
    requires SlotBounds(s, Plus(Weigh(i, pc), rest)) && CasStep(i, pc.ret, s, s', pc')
    ensures s'.h.wins != s.h.wins <==> s.phase.Active? && Refs(s, Plus(Weigh(i, pc), rest)) == 0
    ensures s'.h.wins != s.h.wins ==>
              && s.h.wins == 0 && s'.h.wins == 1 && s'.iocnt == RELEASE_IOCOUNT
              && !s.live && s.id in s.h.issued && s.id !in s.h.released
  {
    hide OrderInv;
  }

  /** The release CAS succeeds exactly when nothing refers to the session; then the session is
      dead, its id has been announced and not released, and no CAS has succeeded since the accept. */
  lemma ReleaseOnce(run: seq<Sys>, a: Sys, b: Sys, t: nat, i: nat)
    requires RunTo(run, a) && StepBy(a, b, t, i) && a.threads[t].RelCas?
    ensures var s, s' := a.slots[i], b.slots[i];
            && (s'.h.wins != s.h.wins <==> s.phase.Active? && Refs(s, Total(i, a.threads)) == 0)
            && (s'.h.wins != s.h.wins ==>
                  && s.h.wins == 0 && s'.h.wins == 1 && s'.iocnt == RELEASE_IOCOUNT
                  && !s.live && s.id in s.h.issued && s.id !in s.h.released)
  {
    hide RunTo, StartStep, AcceptStep, RecvStep, FlagStep, BatchStep, ReleaseStep, RegisterStep, CasStep;
    hide SlotInv, SlotBounds, Weigh, Plus, Nests, Refs, ThreadInv;
    var rest := AtThread(run, a, t);
    AtSlot(run, a, i);
    WinningCas(a.g, i, a.threads[t], a.slots[i], b.slots[i], b.threads[t], rest);
  }

  lemma WinsAtMostOnce(run: seq<Sys>, a: Sys, i: nat)
    requires RunTo(run, a) && i < |a.slots|
    ensures a.slots[i].h.wins == if a.slots[i].h.used && !a.slots[i].phase.Active? then 1 else 0
  {
    AtSlot(run, a, i);
  }

  // ----- The send side --------------------------------------------------------------------

  /** At most one send completion is outstanding or being handled; a clear flag means none, and an
      empty mSendOv; a set flag without one means a dead session. */
  lemma ExclusiveSender(run: seq<Sys>, a: Sys, i: nat)
    requires RunTo(run, a) && i < |a.slots| && a.slots[i].phase.Active?
    ensures var s, u := a.slots[i], Total(i, a.threads);
            && u.tok + s.sends <= 1
            && (!s.sendFlag ==> u.tok + s.sends == 0 && s.ovCnt == 0)
            && (s.sendFlag && u.tok + s.sends == 0 ==> !s.live)
  {
    AtSlot(run, a, i);
  }

  /** A message in the queue of an active session whose flag is clear will be noticed. */
  lemma NoLostWakeup(run: seq<Sys>, a: Sys, i: nat)
    requires RunTo(run, a) && i < |a.slots| && a.slots[i].phase.Active? && a.slots[i].queue != []
    ensures a.slots[i].sendFlag ||
            exists t :: 0 <= t < |a.threads| && On(i, a.threads[t]) &&
                        (a.threads[t].SpCas? || a.threads[t].RsAgain? || a.threads[t].RsAgainReread? || a.threads[t].RsRetake?)
    ensures Quiet(a, i) && a.slots[i].live ==> a.slots[i].sendFlag && a.slots[i].sends == 1
  {
    AtSlot(run, a, i);
    var s, u := a.slots[i], Total(i, a.threads);
    if !s.sendFlag {
      var t := WakerExists(i, a.threads);
    }
    if Quiet(a, i) {
      QuietTotal(i, a.threads);
    }
  }

  /** The batches of one incarnation, one after the other, are the first messages enqueued. */
  lemma SendOrder(run: seq<Sys>, a: Sys, i: nat)
    requires RunTo(run, a) && i < |a.slots| && a.slots[i].phase.Active?
    ensures Flatten(a.slots[i].h.batches) <= a.slots[i].h.enqueued
    ensures !a.slots[i].sendFlag ==> a.slots[i].h.enqueued == Flatten(a.slots[i].h.batches) + a.slots[i].queue
  {
    hide Flatten, RunTo;
    AtSlot(run, a, i);
    var s := a.slots[i];
    Regroup(Flatten(s.h.batches), s.h.unsent, s.queue);
  }

  lemma Regroup<T>(x: seq<T>, y: seq<T>, z: seq<T>)
    ensures x <= x + y + z
    ensures y == [] ==> x + y + z == x + z
  {
    assert x + y + z == x + (y + z);
  }

  /** No batch is empty, and none overflows when the compiled code loads the length once. */
  lemma BatchSizes(run: seq<Sys>, a: Sys, i: nat, k: nat)
    requires RunTo(run, a) && i < |a.slots| && a.slots[i].phase.Active? && k < |a.slots[i].h.batches|
    ensures 1 <= |a.slots[i].h.batches[k]|
    ensures !a.g.reload ==> |a.slots[i].h.batches[k]| <= 500
  {
    hide Flatten, RunTo;
    AtSlot(run, a, i);
  }

  // ----- The receive side -----------------------------------------------------------------

  /** A live session has exactly one receive outstanding or about to be posted; no session has two. */
  lemma OneReceive(run: seq<Sys>, a: Sys, i: nat)
    requires RunTo(run, a) && i < |a.slots|
    ensures var receives := Total(i, a.threads).rtok + a.slots[i].recvs;
            receives <= 1 && (a.slots[i].phase.Active? && a.slots[i].live ==> receives == 1)
  {
    AtSlot(run, a, i);
  }

  // ----- Messages -------------------------------------------------------------------------

  function Places(s: Slot, hands: multiset<Msg>, m: Msg): nat {
    s.h.destroyed[m] + multiset(s.queue)[m] + multiset(s.ovMsgs)[m] + hands[m]
  }

  /** Every message passed to sendPost is in exactly one place: deleted, queued, in mSendOv, or
      still with its sender. So it is deleted at most once, and never while it is in use; once
      the slot has been cleaned and nobody is on it, every message has been deleted. */
  lemma MessageConservation(run: seq<Sys>, a: Sys, i: nat)
    requires RunTo(run, a) && i < |a.slots|
    ensures forall m :: m in a.slots[i].h.given ==> Places(a.slots[i], AllInHand(i, a.threads), m) == 1
    ensures forall m :: m !in a.slots[i].h.given ==> Places(a.slots[i], AllInHand(i, a.threads), m) == 0
    ensures Quiet(a, i) && BeforeAccept(a.slots[i].phase) ==> a.slots[i].h.destroyed == a.slots[i].h.given
  {
    AtSlot(run, a, i);
    Safety(run, a);
    var s := a.slots[i];
    assert Balanced(s, AllInHand(i, a.threads)) && Distinct(a.g, s);
    if Quiet(a, i) {
      QuietHands(i, a.threads);
    }
  }

  // ----- Session ids ----------------------------------------------------------------------

  /** In range, the packed word determines both fields. */
  lemma PackInjective(i: int, q: int, j: int, r: int)
    requires 0 <= i < 0x2_0000 && 0 <= j < 0x2_0000 && 0 <= q < 0x8000_0000_0000 && 0 <= r < 0x8000_0000_0000
    ensures Pack(i, q) == Pack(j, r) <==> i == j && q == r
    ensures Pack(i, q) == i + 0x2_0000 * q && IdxOf(Pack(i, q)) == i
  {
    PackUnpack(i, q);
    PackUnpack(j, r);
  }

  /** The thread is between a successful sessionLock of id and the matching sessionUnLock. */
  predicate HoldsLock(pc: PC, id: int) {
    (pc.SpPush? || pc.SpCas? || pc.SpInc? || pc.SpPost? || pc.DcLive? || pc.UnDec?) && pc.id == id
  }

  /** Whoever holds the lock of id has an active session that still carries this id. */
  lemma LockedIsCurrent(run: seq<Sys>, a: Sys, t: nat, id: int)
    requires RunTo(run, a) && t < |a.threads| && HoldsLock(a.threads[t], id)
    ensures 0 <= a.threads[t].i < |a.slots|
    ensures a.slots[a.threads[t].i].phase.Active? && a.slots[a.threads[t].i].id == id
  {
    hide RunTo, ThreadInv, SlotInv, Nests, Weigh, Plus;
    var rest := AtThread(run, a, t);
    LockedActive(a.g, a.threads[t], a.slots[a.threads[t].i], rest, id);
  }

  lemma LockedActive(g: Globals, pc: PC, s: Slot, rest: Tally, id: int)
    requires HoldsLock(pc, id) && Nests(rest) && ThreadInv(g, pc, s) && SlotInv(g, s, Plus(Weigh(pc.i, pc), rest))
    ensures s.phase.Active? && s.id == id
  {
    hide OwnerInv, SendInv, RecvInv, IdInv, OrderInv;
    WeighNests(pc.i, pc);
    assert Weigh(pc.i, pc).lck == 1;
  }

  /** An id that onAccept is about to hand out has never been handed out, for any slot; an id that
      onRelease is about to get has been handed out and not been released. */
  lemma IdsAreFresh(run: seq<Sys>, a: Sys, t: nat, j: nat)
    requires RunTo(run, a) && t < |a.threads| && j < |a.slots|
    ensures a.threads[t].AcNotify? && 0 <= a.threads[t].i < |a.slots| ==>
              a.slots[a.threads[t].i].id !in a.slots[j].h.issued
    ensures a.threads[t].RlNotify? && 0 <= a.threads[t].i < |a.slots| ==>
              a.slots[a.threads[t].i].id in a.slots[a.threads[t].i].h.issued - a.slots[a.threads[t].i].h.released
  {
    hide RunTo;
    if a.threads[t].AcNotify? || a.threads[t].RlNotify? {
      var rest := AtThread(run, a, t);
      AtSlot(run, a, a.threads[t].i);
      AtSlot(run, a, j);
    }
  }

  /** Each slot is in exactly one place: once on the free stack, behind one pending completion,
      owned by one thread, or active. */
  lemma SlotPlace(run: seq<Sys>, a: Sys, i: nat)
    requires RunTo(run, a) && i < |a.slots|
    ensures multiset(a.g.free)[i] + a.slots[i].accepts + a.slots[i].releases + Total(i, a.threads).own
            + B(a.slots[i].phase.Active?) == 1
  {
    AtSlot(run, a, i);
    AtStack(run, a);
    OnceInStack(a.g.free, i);
  }

  lemma {:induction false} OnceInStack(free: seq<int>, i: int)
    requires forall x, y :: 0 <= x < y < |free| ==> free[x] != free[y]
    ensures multiset(free)[i] == B(i in free)
  {
    if free != [] {
      OnceInStack(free[1..], i);
      assert free == [free[0]] + free[1..];
    }
  }

  // ----- The assertions in the code -------------------------------------------------------

  /** No RT_ASSERT of the protocol fails, the stack of free slots is never found empty, and the
      decrement after a hard error, which no CAS follows, never reaches zero. */
  lemma AssertionsHold(run: seq<Sys>, a: Sys, t: nat)
    requires RunTo(run, a) && t < |a.threads|
    requires !a.threads[t].Idle? && !a.threads[t].RaPop?
    ensures 0 <= a.threads[t].i < |a.slots|
    ensures var pc, s := a.threads[t], a.slots[a.threads[t].i];
            && (pc.AcAssert? ==> s.ovCnt == 0)
            && (pc.RsTake? && |s.ovMsgs| < pc.n ==> s.queue != [] && s.queue[0].owner == s.id)
            && (pc.RlOv? ==> s.qsize == 0)
            && (pc.RvErrDec? || pc.RsErrDec? ==> s.iocnt > 1)
  {
    hide RunTo, ThreadInv, SlotInv, Nests, Weigh, Plus;
    var rest := AtThread(run, a, t);
    AssertionsLocally(a.g, a.threads[t], a.slots[a.threads[t].i], rest);
  }

  lemma AssertionsLocally(g: Globals, pc: PC, s: Slot, rest: Tally)
    requires !pc.Idle? && !pc.RaPop?
    requires Nests(rest) && ThreadInv(g, pc, s) && SlotInv(g, s, Plus(Weigh(pc.i, pc), rest))
    ensures pc.AcAssert? ==> s.ovCnt == 0
    ensures pc.RsTake? && |s.ovMsgs| < pc.n ==> s.queue != [] && s.queue[0].owner == s.id
    ensures pc.RlOv? ==> s.qsize == 0
    ensures pc.RvErrDec? || pc.RsErrDec? ==> s.iocnt > 1
  {
    hide OwnerInv, RecvInv, IdInv, Flatten;
    match pc
    case AcAssert(_) =>
    case RsTake(_, _) =>
    case RlOv(_) =>
    case RvErrDec(_) =>
    case RsErrDec(_) =>
    case _ =>
  }

  lemma StackNeverEmpty(run: seq<Sys>, a: Sys, t: nat)
    requires RunTo(run, a) && t < |a.threads| && a.threads[t].RaPop?
    ensures a.g.free != []
  {
    Safety(run, a);
    StackTop(a, t);
  }

  // ----- Machine words --------------------------------------------------------------------

  /** Up and Down count modulo 2^16, and ReleaseBit is bit 14 of the word. */
  lemma Words(x: int)
    requires -0x8000 <= x <= 0x7fff
    ensures -0x8000 <= Up(x) <= 0x7fff && (Up(x) - (x + 1)) % 0x1_0000 == 0
    ensures -0x8000 <= Down(x) <= 0x7fff && (Down(x) - (x - 1)) % 0x1_0000 == 0
    ensures ReleaseBit(x) <==> x % 0x1_0000 / 0x4000 % 2 == 1
  {
    if x < 0 { assert x % 0x1_0000 == x + 0x1_0000; }
  }

  // ----- How far the leak bound reaches ---------------------------------------------------

  /** In every run, a lock gets past the release bit if and only if the slot is active. */
  lemma LocksOnlyActive(run: seq<Sys>, a: Sys, b: Sys, t: nat, i: nat)
    requires RunTo(run, a) && StepBy(a, b, t, i) && a.threads[t].LkInc?
    ensures b.threads[t].LkCheck? <==> a.slots[i].phase.Active?
  {
    hide RunTo, StartStep, AcceptStep, RecvStep, FlagStep, BatchStep, ReleaseStep, RegisterStep;
    hide OwnerInv, SendInv, RecvInv, OrderInv, Weigh, Plus;
    var rest := AtThread(run, a, t);
    AtSlot(run, a, i);
  }

  /** The count after n failed locks of a released slot. */
  function Leaked(n: nat): int {
    if n == 0 then RELEASE_IOCOUNT else Up(Leaked(n - 1))
  }

  /** The release bit survives 2^14 - 1 leaked increments and is lost by the next one. */
  lemma {:induction false} LeakBound(n: nat)
    requires n < 0xc000
    ensures Leaked(n) == if n < 0x4000 then 0x4000 + n else n - 0xc000
    ensures ReleaseBit(Leaked(n)) <==> n < 0x4000 || 0x8000 <= n
  {
    if n > 0 {
      LeakBound(n - 1);
    }
  }
}
