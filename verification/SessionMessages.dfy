/**
 Ownership of messages: every message passed to sendPost is, at any time, in exactly one
 place, and is deleted at most once.
 */
module SessionMessages {
  import opened SessionModel
  import opened SessionInvariant
  import opened SessionProof
  import opened SessionSystem

  function CallMsg(call: Call): multiset<Msg> {
    match call
    case SendCall(m) => multiset{m}
    case DiscCall(_) => multiset{}
  }

  function RetMsg(ret: Ret): multiset<Msg> {
    match ret
    case ToDelete(m) => multiset{m}
    case _ => multiset{}
  }

  /** The message that a thread inside sendPost has neither enqueued nor deleted yet. */
  function InHand(i: int, pc: PC): multiset<Msg> {
    if !On(i, pc) then multiset{}
    else match pc
      case LkInc(_, _, call) => CallMsg(call)
      case LkCheck(_, _, call) => CallMsg(call)
      case MisDec(_, ret) => RetMsg(ret)
      case RelCas(_, ret) => RetMsg(ret)
      case RelPost(_, ret) => RetMsg(ret)
      case SpPush(_, _, m) => multiset{m}
      case SpDelete(_, m) => multiset{m}
      case _ => multiset{}
  }

  function AllInHand(i: int, threads: seq<PC>): multiset<Msg> {
    if threads == [] then multiset{} else InHand(i, threads[0]) + AllInHand(i, threads[1..])
  }

  /** What has been given is what is deleted, queued, in mSendOv or in a thread's hands. */
  predicate Balanced(s: Slot, hands: multiset<Msg>) {
    s.h.given == s.h.destroyed + multiset(s.queue) + multiset(s.ovMsgs) + hands
  }

  ghost predicate Distinct(g: Globals, s: Slot) {
    forall m :: m in s.h.given ==> s.h.given[m] == 1 && m.serial < g.born
  }

  ghost predicate MsgInv(a: Sys) {
    forall i :: 0 <= i < |a.slots| ==>
      Balanced(a.slots[i], AllInHand(i, a.threads)) && Distinct(a.g, a.slots[i])
  }

  lemma {:induction false} HandSplit(i: int, threads: seq<PC>, t: nat)
    requires t < |threads|
    ensures AllInHand(i, threads) == InHand(i, threads[t]) + AllInHand(i, Without(threads, t))
  {
    hide InHand;
    if t == 0 {
      assert Without(threads, t) == threads[1..];
    } else {
      HandSplit(i, threads[1..], t - 1);
      assert Without(threads, t) == [threads[0]] + Without(threads[1..], t - 1);
    }
  }

  // ----- One step -------------------------------------------------------------------------

  ghost predicate Owed(m: Move, others: multiset<Msg>) {
    Balanced(m.s, InHand(m.i, m.pc) + others)
  }

  /** Nothing is lost, and a message is given only at the start of sendPost, as a new one. */
  ghost predicate Paid(m: Move, others: multiset<Msg>) {
    && Balanced(m.s', InHand(m.i, m.pc') + others)
    && m.g.born <= m.g'.born
    && (m.s'.h.given == m.s.h.given ||
        exists id :: m.s'.h.given == m.s.h.given + multiset{Msg(m.g.born, id)} && m.g.born < m.g'.born)
  }

  lemma CallPays(m: Move, others: multiset<Msg>)
    requires m.pc.Idle? && m.pc'.LkInc? && m.pc'.call.SendCall?
    requires StartStep(m.g, m.i, m.s, m.g', m.s', m.pc') && Owed(m, others)
    ensures Paid(m, others)
  {
    assert InHand(m.i, m.pc) == multiset{};
    assert InHand(m.i, m.pc') == multiset{m.pc'.call.m};
    hide InHand, On;
  }

  lemma StartHolds(m: Move)
    requires m.pc.Idle? && !(m.pc'.LkInc? && m.pc'.call.SendCall?)
    requires StartStep(m.g, m.i, m.s, m.g', m.s', m.pc')
    ensures InHand(m.i, m.pc') == InHand(m.i, m.pc) && SameMessages(m.s, m.s') && m.g.born == m.g'.born
  {
  }

  lemma AcceptPays(m: Move, others: multiset<Msg>)
    requires m.pc.AcLive? || m.pc.AcCount? || m.pc.AcAssert? || m.pc.AcNotify?
    requires m.g' == m.g && AcceptStep(m.i, m.pc, m.s, m.s', m.pc') && Owed(m, others)
    ensures Paid(m, others)
  {
  }

  lemma RecvPays(m: Move, others: multiset<Msg>)
    requires m.pc.RvSpace? || m.pc.RvLive? || m.pc.RvInc? || m.pc.RvPost? || m.pc.RvErrLive? || m.pc.RvErrDec?
             || m.pc.RcZero? || m.pc.RcParse? || m.pc.HDec?
    requires m.g' == m.g && RecvStep(m.i, m.pc, m.s, m.s', m.pc') && Owed(m, others)
    ensures Paid(m, others)
  {
  }

  predicate SameMessages(s: Slot, s': Slot) {
    && s'.h.given == s.h.given && s'.h.destroyed == s.h.destroyed && s'.queue == s.queue && s'.ovMsgs == s.ovMsgs
  }

  lemma HeldPays(m: Move, others: multiset<Msg>)
    requires InHand(m.i, m.pc') == InHand(m.i, m.pc) && SameMessages(m.s, m.s') && m.g.born == m.g'.born
    requires Owed(m, others)
    ensures Paid(m, others)
  {
  }

  /** completeSend deletes all of mSendOv because mMsgCnt counts all of it. */
  lemma DeliverPays(m: Move, others: multiset<Msg>)
    requires m.pc.CsDelete? && m.Before() && m.g' == m.g && Owed(m, others)
    requires FlagStep(m.g, m.i, m.pc, m.s, m.s', m.pc')
    ensures Paid(m, others)
  {
    assert m.s.InOv() == m.s.ovMsgs by { hide OwnerInv, RecvInv, IdInv, OrderInv; }
  }

  lemma FlagHolds(m: Move)
    requires m.pc.RsRead? || m.pc.RsReread? || m.pc.RsClear? || m.pc.RsAgain?
             || m.pc.RsAgainReread? || m.pc.RsRetake? || m.pc.RsRetakeInc? || m.pc.RsRetakePost?
    requires FlagStep(m.g, m.i, m.pc, m.s, m.s', m.pc')
    ensures InHand(m.i, m.pc') == multiset{} == InHand(m.i, m.pc) && SameMessages(m.s, m.s')
  {
  }

  lemma TakePays(m: Move, others: multiset<Msg>)
    requires m.pc.RsTake? && m.g' == m.g && BatchStep(m.i, m.pc, m.s, m.s', m.pc') && Owed(m, others)
    ensures Paid(m, others)
  {
    if m.s.queue != [] {
      assert m.s.queue == [m.s.queue[0]] + m.s.queue[1..];
    }
  }

  lemma BatchHolds(m: Move)
    requires m.pc.RsCount? || m.pc.RsLive? || m.pc.RsInc? || m.pc.RsPost? || m.pc.RsErrLive? || m.pc.RsErrDec?
    requires BatchStep(m.i, m.pc, m.s, m.s', m.pc')
    ensures InHand(m.i, m.pc') == multiset{} == InHand(m.i, m.pc) && SameMessages(m.s, m.s')
  {
  }

  /** Inside sendPost a message stays in the thread's hands until it is enqueued or deleted. */
  lemma IncHolds(m: Move)
    requires m.pc.LkInc? && On(m.i, m.pc) && LockStep(m.i, m.pc, m.s, m.s', m.pc')
    ensures InHand(m.i, m.pc') == InHand(m.i, m.pc) && SameMessages(m.s, m.s')
  {
  }

  lemma CheckHolds(m: Move)
    requires m.pc.LkCheck? && On(m.i, m.pc) && LockStep(m.i, m.pc, m.s, m.s', m.pc')
    ensures InHand(m.i, m.pc') == InHand(m.i, m.pc) && SameMessages(m.s, m.s')
  {
  }

  lemma LockHolds(m: Move)
    requires m.pc.LkInc? || m.pc.LkCheck?
    requires On(m.i, m.pc) && LockStep(m.i, m.pc, m.s, m.s', m.pc')
    ensures InHand(m.i, m.pc') == InHand(m.i, m.pc) && SameMessages(m.s, m.s')
  {
    hide LockStep, InHand, SameMessages;
    if m.pc.LkInc? { IncHolds(m); } else { CheckHolds(m); }
  }

  lemma CasHolds(m: Move)
    requires m.pc.MisDec? || m.pc.RelCas? || m.pc.RelPost?
    requires On(m.i, m.pc) && LockStep(m.i, m.pc, m.s, m.s', m.pc')
    ensures InHand(m.i, m.pc') == InHand(m.i, m.pc) && SameMessages(m.s, m.s')
  {
  }

  lemma UnlockHolds(m: Move)
    requires m.pc.SpCas? || m.pc.SpInc? || m.pc.SpPost? || m.pc.DcLive? || m.pc.UnDec?
    requires On(m.i, m.pc) && LockStep(m.i, m.pc, m.s, m.s', m.pc')
    ensures InHand(m.i, m.pc') == InHand(m.i, m.pc) && SameMessages(m.s, m.s')
  {
  }

  lemma PushPays(m: Move, others: multiset<Msg>)
    requires m.pc.SpPush? || m.pc.SpDelete?
    requires On(m.i, m.pc) && m.g' == m.g && LockStep(m.i, m.pc, m.s, m.s', m.pc') && Owed(m, others)
    ensures Paid(m, others)
  {
  }

  lemma ReleaseHolds(m: Move)
    requires m.pc.RlNotify? || m.pc.RlPush?
    requires ReleaseStep(m.g, m.i, m.pc, m.s, m.g', m.s', m.pc')
    ensures InHand(m.i, m.pc') == multiset{} == InHand(m.i, m.pc) && SameMessages(m.s, m.s') && m.g.born == m.g'.born
  {
  }

  lemma RegisterHolds(m: Move)
    requires m.pc.RaPop? || m.pc.RaSeq? || m.pc.RaId? || m.pc.RaAccept? || m.pc.RaBack?
    requires RegisterStep(m.g, m.i, m.pc, m.s, m.g', m.s', m.pc')
    ensures InHand(m.i, m.pc') == InHand(m.i, m.pc) && SameMessages(m.s, m.s') && m.g.born == m.g'.born
  {
  }

  lemma MoveOne(gone: multiset<Msg>, q: seq<Msg>)
    requires q != []
    ensures gone + multiset{q[0]} + multiset(q[1..]) == gone + multiset(q)
  {
    assert q == [q[0]] + q[1..];
  }

  lemma DrainPays(m: Move, others: multiset<Msg>)
    requires m.pc.RlDrain? && ReleaseStep(m.g, m.i, m.pc, m.s, m.g', m.s', m.pc') && Owed(m, others)
    ensures Paid(m, others)
  {
    assert InHand(m.i, m.pc) == InHand(m.i, m.pc') == multiset{};
    hide InHand;
    if m.s.queue != [] {
      MoveOne(m.s.h.destroyed, m.s.queue);
    }
  }

  lemma CleanPays(m: Move, others: multiset<Msg>)
    requires m.pc.RlOv? && m.Before() && ReleaseStep(m.g, m.i, m.pc, m.s, m.g', m.s', m.pc') && Owed(m, others)
    ensures Paid(m, others)
  {
    assert m.s.InOv() == m.s.ovMsgs by { hide OwnerInv, RecvInv, IdInv, OrderInv; }
  }

  lemma SenderPays(m: Move, others: multiset<Msg>)
    requires m.Made() && Sending(m.pc) && Owed(m, others)
    ensures Paid(m, others)
  {
    hide Move.Before, StartStep, AcceptStep, RecvStep, FlagStep, BatchStep, LockStep, ReleaseStep, RegisterStep;
    hide InHand, Owed, Paid, SameMessages;
    match m.pc
    case CsDelete(_) => DeliverPays(m, others);
    case RsRead(_) | RsReread(_, _) | RsClear(_) | RsAgain(_) | RsAgainReread(_) | RsRetake(_)
      | RsRetakeInc(_) | RsRetakePost(_) => FlagHolds(m); HeldPays(m, others);
    case RsTake(_, _) => TakePays(m, others);
    case RsCount(_, _) | RsLive(_) | RsInc(_) | RsPost(_) | RsErrLive(_) | RsErrDec(_) =>
      BatchHolds(m);
      HeldPays(m, others);
  }

  lemma CallerPays(m: Move, others: multiset<Msg>)
    requires m.Made() && Calling(m.pc) && Owed(m, others)
    ensures Paid(m, others)
  {
    hide Move.Before, StartStep, AcceptStep, RecvStep, FlagStep, BatchStep, LockStep, ReleaseStep, RegisterStep;
    hide InHand, Owed, Paid, SameMessages;
    match m.pc
    case LkInc(_, _, _) | LkCheck(_, _, _) => LockHolds(m); HeldPays(m, others);
    case MisDec(_, _) | RelCas(_, _) | RelPost(_, _) => CasHolds(m); HeldPays(m, others);
    case SpCas(_, _) | SpInc(_, _) | SpPost(_, _) | DcLive(_, _, _) | UnDec(_, _, _) =>
      UnlockHolds(m);
      HeldPays(m, others);
    case SpPush(_, _, _) | SpDelete(_, _) => PushPays(m, others);
  }

  lemma MoverPays(m: Move, others: multiset<Msg>)
    requires m.Made() && Owed(m, others)
    ensures Paid(m, others)
  {
    hide Move.Before, StartStep, AcceptStep, RecvStep, FlagStep, BatchStep, LockStep, ReleaseStep, RegisterStep;
    hide InHand, Owed, Paid, SameMessages;
    match m.pc
    case Idle =>
      if m.pc'.LkInc? && m.pc'.call.SendCall? { CallPays(m, others); } else { StartHolds(m); HeldPays(m, others); }
    case AcLive(_) | AcCount(_) | AcAssert(_) | AcNotify(_) => AcceptPays(m, others);
    case RvSpace(_) | RvLive(_) | RvInc(_) | RvPost(_) | RvErrLive(_) | RvErrDec(_) | RcZero(_) | RcParse(_)
      | HDec(_) => RecvPays(m, others);
    case RlOv(_) => CleanPays(m, others);
    case RlDrain(_) => DrainPays(m, others);
    case RlNotify(_) | RlPush(_) => ReleaseHolds(m); HeldPays(m, others);
    case RaPop | RaSeq(_) | RaId(_, _) | RaAccept(_) | RaBack(_) => RegisterHolds(m); HeldPays(m, others);
    case _ => if Sending(m.pc) { SenderPays(m, others); } else { CallerPays(m, others); }
  }

  lemma OtherHands(a: Sys, b: Sys, t: nat, i: nat, j: nat)
    requires StepBy(a, b, t, i) && j < |a.slots| && j != i
    requires On(i, b.threads[t]) || b.threads[t].Idle? || b.threads[t].RaPop?
    ensures AllInHand(j, b.threads) == AllInHand(j, a.threads)
  {
    hide SlotStep;
    MoverPlace(a, b, t, i);
    HandSplit(j, a.threads, t);
    HandSplit(j, b.threads, t);
    assert Without(a.threads, t) == Without(b.threads, t);
  }

  /** What the step leaves on its own slot. */
  lemma MovedPays(a: Sys, b: Sys, t: nat, i: nat)
    requires Inv(a) && Bounds(a) && MsgInv(a) && StepBy(a, b, t, i)
    ensures Balanced(b.slots[i], AllInHand(i, b.threads)) && Distinct(b.g, b.slots[i])
    ensures a.g.born <= b.g.born
    ensures forall j: nat :: j < |a.slots| && j != i ==> AllInHand(j, b.threads) == AllInHand(j, a.threads)
  {
    hide SlotStep, Inv, Bounds, Move.Before, Weigh, InHand;
    MovedSlot(a, b, t, i);
    var rest := Without(a.threads, t);
    HandSplit(i, a.threads, t);
    HandSplit(i, b.threads, t);
    assert rest == Without(b.threads, t);
    assert Balanced(a.slots[i], AllInHand(i, a.threads)) && Distinct(a.g, a.slots[i]);
    MoverPays(MoveOf(a, b, t, i), AllInHand(i, rest));
    forall j: nat | j < |a.slots| && j != i
      ensures AllInHand(j, b.threads) == AllInHand(j, a.threads)
    {
      OtherHands(a, b, t, i, j);
    }
  }

  lemma StepKeepsMsgInv(a: Sys, b: Sys, t: nat, i: nat)
    requires Inv(a) && Bounds(a) && MsgInv(a) && StepBy(a, b, t, i)
    ensures MsgInv(b)
  {
    hide SlotStep, Inv, Bounds, AllInHand, Balanced;
    MovedPays(a, b, t, i);
    forall j: nat | j < |b.slots|
      ensures Balanced(b.slots[j], AllInHand(j, b.threads)) && Distinct(b.g, b.slots[j])
    {
      if j != i { assert Balanced(a.slots[j], AllInHand(j, a.threads)) && Distinct(a.g, a.slots[j]); }
    }
  }
}
