/**
 From one slot and one thread to the whole system, and from one step to every run.
 */
module SessionSystem {
  import opened SessionModel
  import opened SessionInvariant
  import opened SessionProof

  // ----- Sums over the threads ------------------------------------------------------------

  function Without(threads: seq<PC>, t: nat): seq<PC>
    requires t < |threads|
  {
    threads[..t] + threads[t + 1..]
  }

  lemma PlusSwap(u: Tally, v: Tally, w: Tally)
    ensures Plus(u, Plus(v, w)) == Plus(v, Plus(u, w))
  {
  }

  /** A tally is one thread's share plus that of all the others. */
  lemma {:induction false} TotalSplit(i: int, threads: seq<PC>, t: nat)
    requires t < |threads|
    ensures Total(i, threads) == Plus(Weigh(i, threads[t]), Total(i, Without(threads, t)))
  {
    hide Weigh, Plus;
    if t == 0 {
      assert Without(threads, t) == threads[1..];
    } else {
      PlusSwap(Weigh(i, threads[0]), Weigh(i, threads[t]), Total(i, Without(threads[1..], t - 1)));
      TotalSplit(i, threads[1..], t - 1);
      assert Without(threads, t) == [threads[0]] + Without(threads[1..], t - 1);
    }
  }

  lemma {:induction false} PopsSplit(threads: seq<PC>, t: nat)
    requires t < |threads|
    ensures Pops(threads) == B(threads[t].RaPop?) + Pops(Without(threads, t))
  {
    if t == 0 {
      assert Without(threads, t) == threads[1..];
    } else {
      PopsSplit(threads[1..], t - 1);
      assert Without(threads, t) == [threads[0]] + Without(threads[1..], t - 1);
    }
  }

  lemma {:induction false} TotalNests(i: int, threads: seq<PC>)
    ensures Nests(Total(i, threads))
  {
    hide Weigh, Plus, Nests;
    if threads == [] {
      NestsNothing();
    } else {
      TotalNests(i, threads[1..]);
      WeighNests(i, threads[0]);
      PlusNests(Weigh(i, threads[0]), Total(i, threads[1..]));
    }
  }

  lemma PlusNests(u: Tally, v: Tally)
    requires Nests(u) && Nests(v)
    ensures Nests(Plus(u, v))
  {
  }

  // ----- The slot that moves --------------------------------------------------------------

  lemma FreshSeq(g: Globals, i: int, s: Slot)
    requires 0 <= i < IDX_RANGE / 2 && 0 <= g.lastSeq + 1 && SeqBound(g) && RangeInv(g, i, s)
    ensures Pack(i, g.lastSeq + 1) !in s.h.issued
  {
    PackUnpack(i, g.lastSeq + 1);
  }

  /** The thread is in completeSend or registerSend. */
  predicate Sending(pc: PC) {
    || pc.CsDelete? || pc.RsRead? || pc.RsReread? || pc.RsClear? || pc.RsAgain? || pc.RsAgainReread?
    || pc.RsRetake? || pc.RsRetakeInc? || pc.RsRetakePost?
    || pc.RsCount? || pc.RsTake? || pc.RsLive? || pc.RsInc? || pc.RsPost? || pc.RsErrLive? || pc.RsErrDec?
  }

  lemma SenderKeeps(m: Move)
    requires m.Made() && Sending(m.pc)
    ensures m.Kept()
  {
    hide Move.Before, Move.Kept, StartStep, AcceptStep, RecvStep, FlagStep, BatchStep, LockStep, ReleaseStep, RegisterStep;
    match m.pc
    case CsDelete(_) => DeliverKeeps(m);
    case RsRead(_) | RsReread(_, _) => ReadKeeps(m);
    case RsClear(_) => ClearKeeps(m);
    case RsAgain(_) => AgainKeeps(m);
    case RsAgainReread(_) => AgainRereadKeeps(m);
    case RsRetake(_) => RetakeKeeps(m);
    case RsRetakeInc(_) | RsRetakePost(_) => RetakePostKeeps(m);
    case RsCount(_, _) => CountKeeps(m);
    case RsTake(_, _) => TakeKeeps(m);
    case RsLive(_) | RsInc(_) => BatchKeeps(m);
    case RsErrLive(_) => BatchErrKeeps(m);
    case RsErrDec(_) => BatchErrDecKeeps(m);
    case RsPost(_) => PostKeeps(m);
  }

  /** The thread is in sendPost, disconnectSession, or one of their locks and unlocks. */
  predicate Calling(pc: PC) {
    || pc.LkInc? || pc.LkCheck? || pc.MisDec? || pc.SpPush? || pc.SpCas? || pc.SpInc? || pc.SpPost?
    || pc.SpDelete? || pc.DcLive? || pc.UnDec? || pc.RelCas? || pc.RelPost?
  }

  lemma CallerKeeps(m: Move)
    requires m.Made() && Calling(m.pc)
    ensures m.Kept()
  {
    hide Move.Before, Move.Kept, StartStep, AcceptStep, RecvStep, FlagStep, BatchStep, LockStep, ReleaseStep, RegisterStep;
    match m.pc
    case LkInc(_, _, _) => if m.s.phase.Active? { LockKeeps(m); } else { LateLockKeeps(m); }
    case LkCheck(_, _, _) => CheckKeeps(m);
    case SpPush(_, _, _) => PushKeeps(m);
    case SpDelete(_, _) => DeleteKeeps(m);
    case SpCas(_, _) => SendCasKeeps(m);
    case SpInc(_, _) => SendIncKeeps(m);
    case SpPost(_, _) => SendPostKeeps(m);
    case MisDec(_, _) => MismatchKeeps(m);
    case DcLive(_, _, _) => DisconnectKeeps(m);
    case UnDec(_, _, _) => UnDecKeeps(m);
    case RelCas(_, _) => if m.s.iocnt == 0 { CasWinKeeps(m); } else { CasKeeps(m); }
    case RelPost(_, _) => RelPostKeeps(m);
  }

  /** The local lemma that fits the place where the thread stands. */
  lemma MoverKeeps(m: Move)
    requires m.Made()
    ensures m.Kept()
  {
    hide Move.Before, Move.Kept, StartStep, AcceptStep, RecvStep, FlagStep, BatchStep, LockStep, ReleaseStep, RegisterStep;
    match m.pc
    case Idle => if m.pc'.LkInc? { CallKeeps(m); } else { StartKeeps(m); }
    case AcLive(_) | AcCount(_) | AcAssert(_) | AcNotify(_) => AcceptKeeps(m);
    case RvSpace(_) | RvLive(_) => SpaceKeeps(m);
    case RcZero(_) | RcParse(_) => RecvKeeps(m);
    case RvInc(_) | RvPost(_) => RecvPostKeeps(m);
    case RvErrLive(_) | RvErrDec(_) => RecvErrKeeps(m);
    case HDec(_) => HandlerEndKeeps(m);
    case RlNotify(_) => NotifyKeeps(m);
    case RlDrain(_) => DrainKeeps(m);
    case RlOv(_) => CleanKeeps(m);
    case RlPush(_) => FreePushKeeps(m);
    case RaPop => PopKeeps(m);
    case RaSeq(_) => NextSeqKeeps(m);
    case RaId(_, _) => NewIdKeeps(m);
    case RaAccept(_) => AcceptExKeeps(m);
    case RaBack(_) => BackKeeps(m);
    case _ => if Sending(m.pc) { SenderKeeps(m); } else { CallerKeeps(m); }
  }

  lemma SenderSpares(m: Move, q: PC, others: Tally)
    requires m.Made() && Beside(m, q, others) && Sending(m.pc)
    ensures ThreadInv(m.g', q, m.s')
  {
    hide Move.Before, Beside, ThreadInv, StartStep, AcceptStep, RecvStep, FlagStep, BatchStep, LockStep, ReleaseStep, RegisterStep;
    match m.pc
    case CsDelete(_) => DeliverSpares(m, q, others);
    case RsClear(_) | RsRetake(_) => FlagSpares(m, q, others);
    case RsRead(_) | RsReread(_, _) | RsAgain(_) | RsAgainReread(_) | RsRetakeInc(_)
      | RsRetakePost(_) => LookSpares(m, q, others);
    case RsCount(_, _) | RsTake(_, _) | RsLive(_) | RsInc(_) => BatchSpares(m, q, others);
    case RsPost(_) => PostSpares(m, q, others);
    case RsErrLive(_) | RsErrDec(_) => BatchErrSpares(m, q, others);
  }

  lemma MoverSpares(m: Move, q: PC, others: Tally)
    requires m.Made() && Beside(m, q, others)
    ensures ThreadInv(m.g', q, m.s')
  {
    hide Move.Before, Beside, ThreadInv, StartStep, AcceptStep, RecvStep, FlagStep, BatchStep, LockStep, ReleaseStep, RegisterStep;
    match m.pc
    case Idle => if m.pc'.AcLive? || m.pc'.RlNotify? { PickUpSpares(m, q, others); } else { StartSpares(m, q, others); }
    case AcLive(_) | AcCount(_) | AcAssert(_) | AcNotify(_) => AcceptSpares(m, q, others);
    case RvSpace(_) | RvLive(_) | RvInc(_) | RvPost(_)
      | RvErrLive(_) | RvErrDec(_) | RcZero(_) | RcParse(_) | HDec(_) => RecvSpares(m, q, others);
    case LkInc(_, _, _) | LkCheck(_, _, _) | MisDec(_, _) | SpDelete(_, _) | UnDec(_, _, _) => LockSpares(m, q, others);
    case SpPush(_, _, _) | SpCas(_, _) => SendSpares(m, q, others);
    case SpInc(_, _) | SpPost(_, _) => SendPostSpares(m, q, others);
    case DcLive(_, _, _) => DisconnectSpares(m, q, others);
    case RelCas(_, _) | RelPost(_, _) => CasSpares(m, q, others);
    case RlNotify(_) | RlDrain(_) | RlOv(_) | RlPush(_) => ReleaseSpares(m, q, others);
    case RaPop => PopSpares(m, q, others);
    case RaSeq(_) | RaId(_, _) | RaAccept(_) | RaBack(_) => RegisterSpares(m, q, others);
    case _ => SenderSpares(m, q, others);
  }

  // ----- The whole system -----------------------------------------------------------------

  /** The step of thread t on slot i, seen from that slot. */
  ghost function MoveOf(a: Sys, b: Sys, t: nat, i: nat): Move
    requires t < |a.threads| == |b.threads| && i < |a.slots| == |b.slots|
  {
    Move(a.g, i, a.threads[t], a.slots[i], b.g, b.slots[i], b.threads[t], Total(i, Without(a.threads, t)))
  }

  lemma StackTop(a: Sys, t: nat)
    requires Inv(a) && t < |a.threads| && a.threads[t].RaPop?
    ensures a.g.free != [] && a.slots[a.g.free[|a.g.free| - 1]].phase.Free?
  {
    PopsSplit(a.threads, t);
  }

  lemma MoverPlace(a: Sys, b: Sys, t: nat, i: nat)
    requires StepBy(a, b, t, i)
    ensures a.threads[t].Idle? || a.threads[t].RaPop? || On(i, a.threads[t])
    ensures a.threads[t].RaPop? && a.g.free != [] ==> i == a.g.free[|a.g.free| - 1]
  {
    hide StartStep, AcceptStep, RecvStep, FlagStep, BatchStep, LockStep, ReleaseStep;
  }

  lemma MovedSlot(a: Sys, b: Sys, t: nat, i: nat)
    requires Inv(a) && Bounds(a) && StepBy(a, b, t, i)
    ensures MoveOf(a, b, t, i).Made() && MoveOf(a, b, t, i).Kept()
    ensures Total(i, b.threads) == Plus(Weigh(i, b.threads[t]), MoveOf(a, b, t, i).rest)
  {
    hide SlotInv, SlotStep, ThreadInv, Move.Kept, Weigh, Plus, Nests;
    var m := MoveOf(a, b, t, i);
    MoverPlace(a, b, t, i);
    FreshSeq(a.g, i, a.slots[i]);
    TotalSplit(i, a.threads, t);
    TotalSplit(i, b.threads, t);
    TotalNests(i, Without(a.threads, t));
    assert Without(a.threads, t) == Without(b.threads, t);
    if a.threads[t].RaPop? { StackTop(a, t); }
    MoverKeeps(m);
  }

  lemma OtherSlots(a: Sys, b: Sys, t: nat, i: nat, j: nat)
    requires StepBy(a, b, t, i) && j < |a.slots| && j != i
    requires On(i, b.threads[t]) || b.threads[t].Idle? || b.threads[t].RaPop?
    ensures Total(j, b.threads) == Total(j, a.threads) && b.slots[j] == a.slots[j]
  {
    hide SlotStep;
    MoverPlace(a, b, t, i);
    TotalSplit(j, a.threads, t);
    TotalSplit(j, b.threads, t);
    assert Without(a.threads, t) == Without(b.threads, t);
  }

  lemma OtherThreads(a: Sys, b: Sys, t: nat, i: nat, r: nat)
    requires Inv(a) && Bounds(a) && StepBy(a, b, t, i)
    requires r < |a.threads| && r != t && On(i, a.threads[r])
    ensures ThreadInv(b.g, a.threads[r], b.slots[i])
  {
    hide SlotInv, SlotStep, Weigh, Plus, Nests, ThreadInv, Move.Kept;
    MovedSlot(a, b, t, i);
    var rest := Without(a.threads, t);
    var k := if r < t then r else r - 1;
    assert rest[k] == a.threads[r];
    TotalSplit(i, rest, k);
    TotalNests(i, Without(rest, k));
    MoverSpares(MoveOf(a, b, t, i), a.threads[r], Total(i, Without(rest, k)));
  }

  lemma RangeKeeps(a: Sys, b: Sys, t: nat, i: nat)
    requires Inv(a) && Bounds(a) && StepBy(a, b, t, i)
    ensures RangeInv(b.g, i, b.slots[i])
  {
    hide Move.Before, Move.Made, SlotInv, SlotStep, Weigh;
    MovedSlot(a, b, t, i);
    MoverPlace(a, b, t, i);
    if a.threads[t].RaId? {
      assert ThreadInv(a.g, a.threads[t], a.slots[i]);
      PackUnpack(i, a.threads[t].q);
    }
  }

  lemma StackPush(free: seq<int>, slots: seq<Slot>, i: nat, s': Slot)
    requires StackInv(free, slots) && i < |slots| && !slots[i].phase.Free? && s'.phase.Free?
    ensures StackInv(free + [i], slots[i := s'])
  {
    var after := free + [i];
    forall j | 0 <= j < |slots| && slots[i := s'][j].phase.Free? ensures j in after {
      if j == i { assert after[|free|] == i; } else { assert j in free; }
    }
  }

  lemma StackPop(free: seq<int>, slots: seq<Slot>, i: nat, s': Slot)
    requires StackInv(free, slots) && free != [] && free[|free| - 1] == i < |slots| && !s'.phase.Free?
    ensures StackInv(free[..|free| - 1], slots[i := s'])
  {
    var after := free[..|free| - 1];
    forall j | 0 <= j < |slots| && slots[i := s'][j].phase.Free? ensures j in after {
      assert j in free;
    }
  }

  lemma StackSame(free: seq<int>, slots: seq<Slot>, i: nat, s': Slot)
    requires StackInv(free, slots) && i < |slots| && (s'.phase.Free? <==> slots[i].phase.Free?)
    ensures StackInv(free, slots[i := s'])
  {
  }

  lemma FreeKeeps(a: Sys, b: Sys, t: nat, i: nat)
    requires Inv(a) && Bounds(a) && StepBy(a, b, t, i)
    ensures StackInv(b.g.free, b.slots) && Pops(b.threads) <= |b.g.free|
  {
    hide Move.Before, Move.Made, SlotInv, SlotStep, Bounds, ThreadInv, StackInv;
    MovedSlot(a, b, t, i);
    PopsSplit(a.threads, t);
    PopsSplit(b.threads, t);
    assert Without(a.threads, t) == Without(b.threads, t);
    var s' := b.slots[i];
    if a.threads[t].RlPush? || a.threads[t].RaBack? {
      StackPush(a.g.free, a.slots, i, s');
    } else if a.threads[t].RaPop? {
      StackPop(a.g.free, a.slots, i, s');
    } else {
      StackSame(a.g.free, a.slots, i, s');
    }
  }

  lemma OtherGlobals(g: Globals, g': Globals, j: int, s: Slot, u: Tally)
    requires g'.reload == g.reload && g.lastSeq <= g'.lastSeq && SlotInv(g, s, u) && RangeInv(g, j, s)
    ensures SlotInv(g', s, u) && RangeInv(g', j, s)
  {
    hide CountInv, OwnerInv, SendInv, RecvInv, IdInv;
  }

  lemma ThreadGlobals(g: Globals, g': Globals, q: PC, s: Slot)
    requires g'.reload == g.reload && g.lastSeq <= g'.lastSeq && ThreadInv(g, q, s)
    ensures ThreadInv(g', q, s)
  {
  }

  lemma StepKeepsInv(a: Sys, b: Sys, t: nat, i: nat)
    requires Inv(a) && Bounds(a) && StepBy(a, b, t, i)
    ensures Inv(b)
  {
    hide Move.Before, Move.Made, SlotStep, Bounds, Weigh, Plus, StackInv, SlotInv, ThreadInv, RangeInv;
    MovedSlot(a, b, t, i);
    forall j: nat | j < |b.slots|
      ensures SlotInv(b.g, b.slots[j], Total(j, b.threads)) && RangeInv(b.g, j, b.slots[j])
    {
      if j == i {
        RangeKeeps(a, b, t, i);
      } else {
        OtherSlots(a, b, t, i, j);
        OtherGlobals(a.g, b.g, j, a.slots[j], Total(j, a.threads));
      }
    }
    forall r: nat | r < |b.threads| && !b.threads[r].Idle? && !b.threads[r].RaPop?
      ensures 0 <= b.threads[r].i < |b.slots| && ThreadInv(b.g, b.threads[r], b.slots[b.threads[r].i])
    {
      if r != t {
        if a.threads[r].i == i {
          OtherThreads(a, b, t, i, r);
        } else {
          ThreadGlobals(a.g, b.g, a.threads[r], a.slots[a.threads[r].i]);
        }
      }
    }
    FreeKeeps(a, b, t, i);
  }
}
