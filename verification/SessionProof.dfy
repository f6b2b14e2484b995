/**
 One step keeps the invariant: first for the slot and the thread that move, then for another
 thread on the same slot.
 */
module SessionProof {
  import opened SessionModel
  import opened SessionInvariant

  lemma PackUnpack(i: int, q: int)
    requires 0 <= i < IDX_RANGE && 0 <= q < SEQ_RANGE
    ensures IdxOf(Pack(i, q)) == i && SeqOf(Pack(i, q)) == q
  {
  }

  lemma FlattenSnoc(bs: seq<seq<Msg>>, b: seq<Msg>)
    ensures Flatten(bs + [b]) == Flatten(bs) + b
  {
    assert (bs + [b])[..|bs|] == bs;
  }

  /** A step of a thread at pc on slot i, while all the other threads weigh rest. */
  datatype Move = Move(g: Globals, i: int, pc: PC, s: Slot, g': Globals, s': Slot, pc': PC, rest: Tally) {

    /** What is known before the thread moves. */
    ghost predicate Before() {
      && (pc.Idle? || pc.RaPop? || On(i, pc))
      && Nests(rest)
      && SlotInv(g, s, Plus(Weigh(i, pc), rest))
      && SlotBounds(s, Plus(Weigh(i, pc), rest))
      && (On(i, pc) ==> ThreadInv(g, pc, s))
      && (pc.RaPop? ==> g.free != [] && s.phase.Free?)
      && (pc.RaSeq? ==> 0 <= g.lastSeq + 1 && Pack(i, g.lastSeq + 1) !in s.h.issued)
    }

    ghost predicate Made() { Before() && SlotStep(g, i, pc, s, g', s', pc') }

    /** What is known after it: the slot's invariant, the thread's, and what else has changed. */
    ghost predicate Kept() {
      && SlotInv(g', s', Plus(Weigh(i, pc'), rest))
      && (On(i, pc') ==> ThreadInv(g', pc', s'))
      && Effects()
    }

    /** Which steps touch the globals, the identity of a slot and its place on the free stack. */
    ghost predicate Effects() {
      && (pc'.Idle? || pc'.RaPop? || On(i, pc'))
      && (pc'.RaPop? ==> pc.RlPush?)
      && g'.reload == g.reload && g.lastSeq <= g'.lastSeq
      && (s'.id == s.id || (pc.RaId? && s'.id == Pack(i, pc.q)))
      && (s'.h.issued == s.h.issued || s'.h.issued == s.h.issued + {s.id})
      && if pc.RlPush? || pc.RaBack? then
           && !s.phase.Free? && s'.phase.Free?
           && g'.free == g.free + [if pc.RlPush? then IdxOf(s.id) else i]
         else if pc.RaPop? then
           && g.free != [] && s.phase.Free? && !s'.phase.Free?
           && i == g.free[|g.free| - 1] && g'.free == g.free[..|g.free| - 1]
         else
           && g'.free == g.free && (s'.phase.Free? <==> s.phase.Free?)
    }
  }

  /** A step that leaves the queue and the batches alone leaves the order alone. */
  lemma SameOrder(m: Move)
    requires m.Before()
    requires (m.s'.phase.Active? ==> m.s.phase.Active?) && m.s'.id == m.s.id && m.s'.queue == m.s.queue && m.s'.qsize == m.s.qsize
    requires m.s'.h.enqueued == m.s.h.enqueued && m.s'.h.batches == m.s.h.batches && m.s'.h.unsent == m.s.h.unsent
    requires m.g'.reload == m.g.reload
    ensures OrderInv(m.g', m.s')
  {
    hide CountInv, OwnerInv, SendInv, RecvInv, IdInv, ThreadInv, SlotBounds, Nests;
  }

  /** A step that changes neither the counted things nor the roles that count them. */
  lemma SameCounts(m: Move)
    requires m.Before()
    requires var w, w' := Weigh(m.i, m.pc), Weigh(m.i, m.pc');
             w'.hnd == w.hnd && w'.lck == w.lck && w'.ops == w.ops && w'.rtok == w.rtok && w'.own == w.own && w'.cas == w.cas
    requires m.s' == m.s.(sendFlag := m.s'.sendFlag, id := m.s'.id, queue := m.s'.queue, qsize := m.s'.qsize,
                          ovCnt := m.s'.ovCnt, ovMsgs := m.s'.ovMsgs, h := m.s'.h)
    requires m.s'.h.used == m.s.h.used && m.s'.h.wins == m.s.h.wins && m.s'.h.leaks == m.s.h.leaks
    ensures var u := Plus(Weigh(m.i, m.pc'), m.rest);
            CountInv(m.s', u) && OwnerInv(m.s', u) && RecvInv(m.s', u)
  {
    hide SendInv, IdInv, OrderInv, ThreadInv, SlotBounds, Nests, Weigh;
  }

  /** A step that leaves the send side alone, but for ending the session. */
  lemma SameSend(m: Move)
    requires m.Before()
    requires var w, w' := Weigh(m.i, m.pc), Weigh(m.i, m.pc'); w'.tok == w.tok && w'.wake == w.wake && w'.deq == w.deq
    requires m.s' == m.s.(iocnt := m.s'.iocnt, live := m.s'.live, recvs := m.s'.recvs, h := m.s'.h)
    requires m.s'.live ==> m.s.live
    requires m.s'.h.unsent == m.s.h.unsent && m.s'.h.announced == m.s.h.announced
    ensures SendInv(m.s', Plus(Weigh(m.i, m.pc'), m.rest))
  {
    hide CountInv, OwnerInv, RecvInv, IdInv, OrderInv, ThreadInv, SlotBounds, Nests, Weigh;
  }

  /** A step that leaves the ids and the phase alone. */
  lemma SameIds(m: Move)
    requires m.Before() && Weigh(m.i, m.pc').ann == Weigh(m.i, m.pc).ann
    requires m.s'.phase == m.s.phase && m.s'.id == m.s.id && m.s'.h.used == m.s.h.used
    requires m.s'.h.issued == m.s.h.issued && m.s'.h.released == m.s.h.released && m.s'.h.announced == m.s.h.announced
    ensures IdInv(m.s', Plus(Weigh(m.i, m.pc'), m.rest))
  {
    hide CountInv, OwnerInv, SendInv, RecvInv, OrderInv, ThreadInv, SlotBounds, Nests, Weigh;
  }

  // ----- The thread that moves ------------------------------------------------------------

  lemma StartKeeps(m: Move)
    requires m.pc.Idle? && !m.pc'.LkInc?
    requires m.Before() && StartStep(m.g, m.i, m.s, m.g', m.s', m.pc')
    ensures m.Kept()
  {
    SameOrder(m);
    hide OrderInv;
  }

  lemma CallKeeps(m: Move)
    requires m.pc.Idle? && m.pc'.LkInc?
    requires m.Before() && StartStep(m.g, m.i, m.s, m.g', m.s', m.pc')
    ensures m.Kept()
  {
    SameOrder(m);
    hide OrderInv;
  }

  lemma AcceptKeeps(m: Move)
    requires m.pc.AcLive? || m.pc.AcCount? || m.pc.AcAssert? || m.pc.AcNotify?
    requires m.Before() && m.g' == m.g && AcceptStep(m.i, m.pc, m.s, m.s', m.pc')
    ensures m.Kept()
  {
  }

  lemma SpaceKeeps(m: Move)
    requires m.pc.RvSpace? || m.pc.RvLive?
    requires m.Before() && m.g' == m.g && RecvStep(m.i, m.pc, m.s, m.s', m.pc')
    ensures m.Kept()
  {
    SameOrder(m);
    hide OrderInv;
  }

  lemma RecvKeeps(m: Move)
    requires m.pc.RcZero? || m.pc.RcParse?
    requires m.Before() && m.g' == m.g && RecvStep(m.i, m.pc, m.s, m.s', m.pc')
    ensures m.Kept()
  {
    SameOrder(m);
    hide OrderInv;
  }

  lemma RecvPostKeeps(m: Move)
    requires m.pc.RvInc? || m.pc.RvPost?
    requires m.Before() && m.g' == m.g && RecvStep(m.i, m.pc, m.s, m.s', m.pc')
    ensures m.Kept()
  {
    SameOrder(m);
    SameSend(m);
    SameIds(m);
    hide OrderInv, SendInv, IdInv;
  }

  lemma RecvErrKeeps(m: Move)
    requires m.pc.RvErrLive? || m.pc.RvErrDec?
    requires m.Before() && m.g' == m.g && RecvStep(m.i, m.pc, m.s, m.s', m.pc')
    ensures m.Kept()
  {
    SameOrder(m);
    SameSend(m);
    SameIds(m);
    hide OrderInv, SendInv, IdInv;
  }

  lemma HandlerEndKeeps(m: Move)
    requires m.pc.HDec?
    requires m.Before() && m.g' == m.g && RecvStep(m.i, m.pc, m.s, m.s', m.pc')
    ensures m.Kept()
  {
    SameOrder(m);
    SameSend(m);
    SameIds(m);
    hide OrderInv, SendInv, IdInv;
  }

  lemma DeliverKeeps(m: Move)
    requires m.pc.CsDelete?
    requires m.Before() && m.g' == m.g && FlagStep(m.g, m.i, m.pc, m.s, m.s', m.pc')
    ensures m.Kept()
  {
  }

  lemma ReadKeeps(m: Move)
    requires m.pc.RsRead? || m.pc.RsReread?
    requires m.Before() && m.g' == m.g && FlagStep(m.g, m.i, m.pc, m.s, m.s', m.pc')
    ensures m.Kept()
  {
    SameOrder(m);
    assert m.s.qsize == |m.s.queue|;
    SameIds(m);
    hide OrderInv, IdInv;
  }

  lemma ClearKeeps(m: Move)
    requires m.pc.RsClear?
    requires m.Before() && m.g' == m.g && FlagStep(m.g, m.i, m.pc, m.s, m.s', m.pc')
    ensures m.Kept()
  {
    SameOrder(m);
    assert m.s.qsize == |m.s.queue|;
    SameIds(m);
    hide OrderInv, IdInv;
  }

  lemma AgainKeeps(m: Move)
    requires m.pc.RsAgain?
    requires m.Before() && m.g' == m.g && FlagStep(m.g, m.i, m.pc, m.s, m.s', m.pc')
    ensures m.Kept()
  {
    SameOrder(m);
    SameCounts(m);
    assert m.s.qsize == |m.s.queue| && m.s.phase.Active?;
    SameIds(m);
    hide OrderInv, CountInv, OwnerInv, RecvInv, IdInv;
  }

  lemma AgainRereadKeeps(m: Move)
    requires m.pc.RsAgainReread?
    requires m.Before() && m.g' == m.g && FlagStep(m.g, m.i, m.pc, m.s, m.s', m.pc')
    ensures m.Kept()
  {
    SameOrder(m);
    SameCounts(m);
    assert m.s.qsize == |m.s.queue| && m.s.phase.Active?;
    SameIds(m);
    hide OrderInv, CountInv, OwnerInv, RecvInv, IdInv;
  }

  lemma RetakeKeeps(m: Move)
    requires m.pc.RsRetake?
    requires m.Before() && m.g' == m.g && FlagStep(m.g, m.i, m.pc, m.s, m.s', m.pc')
    ensures m.Kept()
  {
    SameOrder(m);
    SameIds(m);
    hide OrderInv, IdInv;
  }

  lemma RetakePostKeeps(m: Move)
    requires m.pc.RsRetakeInc? || m.pc.RsRetakePost?
    requires m.Before() && m.g' == m.g && FlagStep(m.g, m.i, m.pc, m.s, m.s', m.pc')
    ensures m.Kept()
  {
    SameOrder(m);
    SameIds(m);
    hide OrderInv, IdInv;
  }

  lemma CountKeeps(m: Move)
    requires m.pc.RsCount?
    requires m.Before() && m.g' == m.g && BatchStep(m.i, m.pc, m.s, m.s', m.pc')
    ensures m.Kept()
  {
  }

  lemma TakeKeeps(m: Move)
    requires m.pc.RsTake?
    requires m.Before() && m.g' == m.g && BatchStep(m.i, m.pc, m.s, m.s', m.pc')
    ensures m.Kept()
  {
  }

  lemma BatchKeeps(m: Move)
    requires m.pc.RsLive? || m.pc.RsInc?
    requires m.Before() && m.g' == m.g && BatchStep(m.i, m.pc, m.s, m.s', m.pc')
    ensures m.Kept()
  {
    SameOrder(m);
    SameIds(m);
    hide OrderInv, IdInv;
  }

  lemma BatchErrKeeps(m: Move)
    requires m.pc.RsErrLive?
    requires m.Before() && m.g' == m.g && BatchStep(m.i, m.pc, m.s, m.s', m.pc')
    ensures m.Kept()
  {
    SameOrder(m);
    SameIds(m);
    hide OrderInv, IdInv;
  }

  lemma BatchErrDecKeeps(m: Move)
    requires m.pc.RsErrDec?
    requires m.Before() && m.g' == m.g && BatchStep(m.i, m.pc, m.s, m.s', m.pc')
    ensures m.Kept()
  {
    SameOrder(m);
    SameIds(m);
    hide OrderInv, IdInv;
  }

  lemma PostOrder(m: Move)
    requires m.pc.RsPost?
    requires m.Before() && m.g' == m.g && BatchStep(m.i, m.pc, m.s, m.s', m.pc')
    ensures OrderInv(m.g', m.s')
  {
    hide Flatten, OwnerInv, RecvInv, IdInv;
    var s, s' := m.s, m.s';
    FlattenSnoc(s.h.batches, s.ovMsgs);
    assert s.phase.Active? && |s.ovMsgs| == s.ovCnt;
    assert s'.h.enqueued == Flatten(s'.h.batches) + s'.queue;
  }

  lemma PostKeeps(m: Move)
    requires m.pc.RsPost?
    requires m.Before() && m.g' == m.g && BatchStep(m.i, m.pc, m.s, m.s', m.pc')
    ensures m.Kept()
  {
    PostOrder(m);
    SameIds(m);
    hide OrderInv, IdInv;
  }

  /** A lock on a slot that is not active leaves its increment. */
  lemma LateLockKeeps(m: Move)
    requires m.pc.LkInc? && !m.s.phase.Active?
    requires m.Before() && m.g' == m.g && LockStep(m.i, m.pc, m.s, m.s', m.pc')
    ensures m.Kept()
  {
    SameOrder(m);
    SameSend(m);
    SameIds(m);
    hide OrderInv, SendInv, IdInv;
  }

  /** One on an active slot does not meet the release bit. */
  lemma LockCounts(m: Move)
    requires m.pc.LkInc? && m.s.phase.Active?
    requires m.Before() && LockStep(m.i, m.pc, m.s, m.s', m.pc')
    ensures m.pc' == LkCheck(m.i, m.pc.id, m.pc.call) && m.s' == m.s.(iocnt := m.s.iocnt + 1)
    ensures CountInv(m.s', Plus(Weigh(m.i, m.pc'), m.rest))
  {
    hide OwnerInv, SendInv, RecvInv, IdInv, OrderInv, ThreadInv;
  }

  lemma LockKeeps(m: Move)
    requires m.pc.LkInc? && m.s.phase.Active?
    requires m.Before() && m.g' == m.g && LockStep(m.i, m.pc, m.s, m.s', m.pc')
    ensures m.Kept()
  {
    LockCounts(m);
    hide LockStep, CountInv, SlotBounds;
    SameOrder(m);
    SameSend(m);
    SameIds(m);
    hide OrderInv, SendInv, IdInv;
  }

  lemma CheckKeeps(m: Move)
    requires m.pc.LkCheck?
    requires m.Before() && m.g' == m.g && LockStep(m.i, m.pc, m.s, m.s', m.pc')
    ensures m.Kept()
  {
    SameOrder(m);
    SameSend(m);
    SameIds(m);
    hide OrderInv, SendInv, IdInv;
  }

  lemma PushKeeps(m: Move)
    requires m.pc.SpPush?
    requires m.Before() && m.g' == m.g && LockStep(m.i, m.pc, m.s, m.s', m.pc')
    ensures m.Kept()
  {
    SameCounts(m);
    assert m.s.phase.Active?;
    hide CountInv, OwnerInv, RecvInv;
  }

  lemma DeleteKeeps(m: Move)
    requires m.pc.SpDelete?
    requires m.Before() && m.g' == m.g && LockStep(m.i, m.pc, m.s, m.s', m.pc')
    ensures m.Kept()
  {
  }

  lemma SendCasKeeps(m: Move)
    requires m.pc.SpCas?
    requires m.Before() && m.g' == m.g && LockStep(m.i, m.pc, m.s, m.s', m.pc')
    ensures m.Kept()
  {
    SameOrder(m);
    SameIds(m);
    hide OrderInv, IdInv;
  }

  lemma SendIncKeeps(m: Move)
    requires m.pc.SpInc?
    requires m.Before() && m.g' == m.g && LockStep(m.i, m.pc, m.s, m.s', m.pc')
    ensures m.Kept()
  {
    SameOrder(m);
    SameIds(m);
    hide OrderInv, IdInv;
  }

  lemma SendPostKeeps(m: Move)
    requires m.pc.SpPost?
    requires m.Before() && m.g' == m.g && LockStep(m.i, m.pc, m.s, m.s', m.pc')
    ensures m.Kept()
  {
    SameOrder(m);
    SameIds(m);
    hide OrderInv, IdInv;
  }

  lemma MismatchKeeps(m: Move)
    requires m.pc.MisDec?
    requires m.Before() && m.g' == m.g && LockStep(m.i, m.pc, m.s, m.s', m.pc')
    ensures m.Kept()
  {
    SameOrder(m);
    SameSend(m);
    SameIds(m);
    hide OrderInv, SendInv, IdInv;
  }

  lemma DisconnectKeeps(m: Move)
    requires m.pc.DcLive?
    requires m.Before() && m.g' == m.g && LockStep(m.i, m.pc, m.s, m.s', m.pc')
    ensures m.Kept()
  {
    SameOrder(m);
    SameSend(m);
    SameIds(m);
    hide OrderInv, SendInv, IdInv;
  }

  lemma UnDecKeeps(m: Move)
    requires m.pc.UnDec?
    requires m.Before() && m.g' == m.g && LockStep(m.i, m.pc, m.s, m.s', m.pc')
    ensures m.Kept()
  {
    SameOrder(m);
    SameSend(m);
    SameIds(m);
    hide OrderInv, SendInv, IdInv;
  }

  /** The one successful CAS of an incarnation. */
  lemma CasWinKeeps(m: Move)
    requires m.pc.RelCas? && m.s.iocnt == 0
    requires m.Before() && m.g' == m.g && LockStep(m.i, m.pc, m.s, m.s', m.pc')
    ensures m.Kept()
  {
    SameOrder(m);
    hide OrderInv;
  }

  lemma CasKeeps(m: Move)
    requires m.pc.RelCas? && m.s.iocnt != 0
    requires m.Before() && m.g' == m.g && LockStep(m.i, m.pc, m.s, m.s', m.pc')
    ensures m.Kept()
  {
    SameOrder(m);
    hide OrderInv;
  }

  lemma RelPostKeeps(m: Move)
    requires m.pc.RelPost?
    requires m.Before() && m.g' == m.g && LockStep(m.i, m.pc, m.s, m.s', m.pc')
    ensures m.Kept()
  {
    SameOrder(m);
    hide OrderInv;
  }

  lemma NotifyKeeps(m: Move)
    requires m.pc.RlNotify?
    requires m.Before() && ReleaseStep(m.g, m.i, m.pc, m.s, m.g', m.s', m.pc')
    ensures m.Kept()
  {
    SameOrder(m);
    hide OrderInv;
  }

  lemma DrainKeeps(m: Move)
    requires m.pc.RlDrain?
    requires m.Before() && ReleaseStep(m.g, m.i, m.pc, m.s, m.g', m.s', m.pc')
    ensures m.Kept()
  {
    SameCounts(m);
    hide CountInv, OwnerInv, RecvInv;
  }

  lemma CleanKeeps(m: Move)
    requires m.pc.RlOv?
    requires m.Before() && ReleaseStep(m.g, m.i, m.pc, m.s, m.g', m.s', m.pc')
    ensures m.Kept()
  {
    SameCounts(m);
    hide CountInv, OwnerInv, RecvInv;
  }

  lemma FreePushKeeps(m: Move)
    requires m.pc.RlPush?
    requires m.Before() && ReleaseStep(m.g, m.i, m.pc, m.s, m.g', m.s', m.pc')
    ensures m.Kept()
  {
  }

  lemma PopKeeps(m: Move)
    requires m.pc.RaPop?
    requires m.Before() && RegisterStep(m.g, m.i, m.pc, m.s, m.g', m.s', m.pc')
    ensures m.Kept()
  {
  }

  lemma NextSeqKeeps(m: Move)
    requires m.pc.RaSeq?
    requires m.Before() && RegisterStep(m.g, m.i, m.pc, m.s, m.g', m.s', m.pc')
    ensures m.Kept()
  {
    SameOrder(m);
    hide OrderInv;
  }

  lemma NewIdKeeps(m: Move)
    requires m.pc.RaId?
    requires m.Before() && RegisterStep(m.g, m.i, m.pc, m.s, m.g', m.s', m.pc')
    ensures m.Kept()
  {
    SameCounts(m);
    hide CountInv, RecvInv;
  }

  lemma AcceptExKeeps(m: Move)
    requires m.pc.RaAccept?
    requires m.Before() && RegisterStep(m.g, m.i, m.pc, m.s, m.g', m.s', m.pc')
    ensures m.Kept()
  {
    SameOrder(m);
    hide OrderInv;
  }

  lemma BackKeeps(m: Move)
    requires m.pc.RaBack?
    requires m.Before() && RegisterStep(m.g, m.i, m.pc, m.s, m.g', m.s', m.pc')
    ensures m.Kept()
  {
  }

  // ----- The other threads on the slot ----------------------------------------------------

  /** Another thread stands at q on the same slot, and the threads besides these two weigh others. */
  ghost predicate Beside(m: Move, q: PC, others: Tally) {
    m.Before() && Nests(others) && m.rest == Plus(Weigh(m.i, q), others) && On(m.i, q) && ThreadInv(m.g, q, m.s)
  }

  lemma StartSpares(m: Move, q: PC, others: Tally)
    requires m.pc.Idle? && !m.pc'.AcLive? && !m.pc'.RlNotify?
    requires Beside(m, q, others) && StartStep(m.g, m.i, m.s, m.g', m.s', m.pc')
    ensures ThreadInv(m.g', q, m.s')
  {
    assert ThreadInv(m.g, q, m.s);
    hide Beside, ThreadInv;
    CountsUnseen(m.g, q, m.s, m.g', m.s');
  }

  /** The completions of an accept and of a release are the only places where their slots are. */
  lemma PickUpSpares(m: Move, q: PC, others: Tally)
    requires m.pc.Idle? && (m.pc'.AcLive? || m.pc'.RlNotify?)
    requires Beside(m, q, others) && StartStep(m.g, m.i, m.s, m.g', m.s', m.pc')
    ensures ThreadInv(m.g', q, m.s')
  {
    hide SendInv, RecvInv, IdInv, OrderInv;
  }

  lemma AcceptSpares(m: Move, q: PC, others: Tally)
    requires m.pc.AcLive? || m.pc.AcCount? || m.pc.AcAssert? || m.pc.AcNotify?
    requires Beside(m, q, others) && m.g' == m.g && AcceptStep(m.i, m.pc, m.s, m.s', m.pc')
    ensures ThreadInv(m.g', q, m.s')
  {
  }

  lemma RecvSpares(m: Move, q: PC, others: Tally)
    requires m.pc.RvSpace? || m.pc.RvLive? || m.pc.RvInc? || m.pc.RvPost? || m.pc.RvErrLive? ||
             m.pc.RvErrDec? || m.pc.RcZero? || m.pc.RcParse? || m.pc.HDec?
    requires Beside(m, q, others) && m.g' == m.g && RecvStep(m.i, m.pc, m.s, m.s', m.pc')
    ensures ThreadInv(m.g', q, m.s')
  {
    hide SendInv, IdInv, OrderInv;
  }

  lemma DeliverSpares(m: Move, q: PC, others: Tally)
    requires m.pc.CsDelete?
    requires Beside(m, q, others) && m.g' == m.g && FlagStep(m.g, m.i, m.pc, m.s, m.s', m.pc')
    ensures ThreadInv(m.g', q, m.s')
  {
    hide IdInv, OrderInv, RecvInv;
  }

  lemma FlagSpares(m: Move, q: PC, others: Tally)
    requires m.pc.RsClear? || m.pc.RsRetake?
    requires Beside(m, q, others) && m.g' == m.g && FlagStep(m.g, m.i, m.pc, m.s, m.s', m.pc')
    ensures ThreadInv(m.g', q, m.s')
  {
    hide IdInv, OrderInv, RecvInv;
  }

  lemma LookSpares(m: Move, q: PC, others: Tally)
    requires m.pc.RsRead? || m.pc.RsReread? || m.pc.RsAgain? || m.pc.RsAgainReread? || m.pc.RsRetakeInc? ||
             m.pc.RsRetakePost?
    requires Beside(m, q, others) && m.g' == m.g && FlagStep(m.g, m.i, m.pc, m.s, m.s', m.pc')
    ensures ThreadInv(m.g', q, m.s')
  {
    assert ThreadInv(m.g, q, m.s);
    hide Beside, ThreadInv;
    CountsUnseen(m.g, q, m.s, m.g', m.s');
  }

  lemma BatchSpares(m: Move, q: PC, others: Tally)
    requires m.pc.RsCount? || m.pc.RsTake? || m.pc.RsLive? || m.pc.RsInc?
    requires Beside(m, q, others) && m.g' == m.g && BatchStep(m.i, m.pc, m.s, m.s', m.pc')
    ensures ThreadInv(m.g', q, m.s')
  {
    hide IdInv, OrderInv;
  }

  lemma PostSpares(m: Move, q: PC, others: Tally)
    requires m.pc.RsPost?
    requires Beside(m, q, others) && m.g' == m.g && BatchStep(m.i, m.pc, m.s, m.s', m.pc')
    ensures ThreadInv(m.g', q, m.s')
  {
    hide IdInv, OrderInv, RecvInv;
  }

  lemma BatchErrSpares(m: Move, q: PC, others: Tally)
    requires m.pc.RsErrLive? || m.pc.RsErrDec?
    requires Beside(m, q, others) && m.g' == m.g && BatchStep(m.i, m.pc, m.s, m.s', m.pc')
    ensures ThreadInv(m.g', q, m.s')
  {
    hide IdInv, OrderInv, RecvInv, SendInv;
  }

  lemma LockSpares(m: Move, q: PC, others: Tally)
    requires m.pc.LkInc? || m.pc.LkCheck? || m.pc.MisDec? || m.pc.SpDelete? || m.pc.UnDec?
    requires Beside(m, q, others) && m.g' == m.g && LockStep(m.i, m.pc, m.s, m.s', m.pc')
    ensures ThreadInv(m.g', q, m.s')
  {
    assert ThreadInv(m.g, q, m.s);
    hide Beside, ThreadInv;
    CountsUnseen(m.g, q, m.s, m.g', m.s');
  }

  /** No thread relies on what is counted, or on what has been given or deleted. */
  lemma CountsUnseen(g: Globals, q: PC, s: Slot, g': Globals, s': Slot)
    requires ThreadInv(g, q, s) && g' == g.(born := g'.born)
    requires s' == s.(iocnt := s'.iocnt, recvs := s'.recvs, sends := s'.sends,
                      h := s.h.(leaks := s'.h.leaks, destroyed := s'.h.destroyed, given := s'.h.given))
    ensures ThreadInv(g', q, s')
  {
  }

  lemma DisconnectSpares(m: Move, q: PC, others: Tally)
    requires m.pc.DcLive?
    requires Beside(m, q, others) && m.g' == m.g && LockStep(m.i, m.pc, m.s, m.s', m.pc')
    ensures ThreadInv(m.g', q, m.s')
  {
    hide IdInv, OrderInv, SendInv, RecvInv;
  }

  lemma SendSpares(m: Move, q: PC, others: Tally)
    requires m.pc.SpPush? || m.pc.SpCas?
    requires Beside(m, q, others) && m.g' == m.g && LockStep(m.i, m.pc, m.s, m.s', m.pc')
    ensures ThreadInv(m.g', q, m.s')
  {
    hide IdInv, OrderInv, RecvInv;
  }

  lemma SendPostSpares(m: Move, q: PC, others: Tally)
    requires m.pc.SpInc? || m.pc.SpPost?
    requires Beside(m, q, others) && m.g' == m.g && LockStep(m.i, m.pc, m.s, m.s', m.pc')
    ensures ThreadInv(m.g', q, m.s')
  {
    assert ThreadInv(m.g, q, m.s);
    hide Beside, ThreadInv;
    CountsUnseen(m.g, q, m.s, m.g', m.s');
  }

  lemma TryCasSpares(m: Move, q: PC, others: Tally)
    requires m.pc.RelCas?
    requires Beside(m, q, others) && m.g' == m.g && LockStep(m.i, m.pc, m.s, m.s', m.pc')
    ensures ThreadInv(m.g', q, m.s')
  {
    hide IdInv, OrderInv;
  }

  lemma ReleasePostSpares(m: Move, q: PC, others: Tally)
    requires m.pc.RelPost?
    requires Beside(m, q, others) && m.g' == m.g && LockStep(m.i, m.pc, m.s, m.s', m.pc')
    ensures ThreadInv(m.g', q, m.s')
  {
    hide IdInv, OrderInv;
  }

  lemma CasSpares(m: Move, q: PC, others: Tally)
    requires m.pc.RelCas? || m.pc.RelPost?
    requires Beside(m, q, others) && m.g' == m.g && LockStep(m.i, m.pc, m.s, m.s', m.pc')
    ensures ThreadInv(m.g', q, m.s')
  {
    hide Beside, LockStep, ThreadInv;
    if m.pc.RelCas? { TryCasSpares(m, q, others); } else { ReleasePostSpares(m, q, others); }
  }

  predicate Resetting(pc: PC) {
    pc.RlNotify? || pc.RlDrain? || pc.RlOv? || pc.RlPush? || pc.RaSeq? || pc.RaId? || pc.RaAccept? || pc.RaBack?
  }

  predicate LateComer(q: PC) { (q.LkInc? || q.SpDelete? || q.RelCas?) && !Nested(q) }

  /** A single thread's roles nest. */
  lemma WeighNests(i: int, pc: PC)
    ensures Nests(Weigh(i, pc))
  {
    RoleNests(pc);
    NestsNothing();
    hide Role, Nests;
  }

  /** Where a nested call makes a difference to the role. */
  predicate Locking(pc: PC) {
    pc.LkInc? || pc.LkCheck? || pc.MisDec? || pc.DcLive? || pc.UnDec? || pc.RelCas? || pc.RelPost?
  }

  lemma LockingNests(pc: PC)
    requires Locking(pc)
    ensures Nests(Role(pc))
  {
    NestedOnce(pc);
    hide Nested, N;
  }

  lemma PlainNests(pc: PC)
    requires !Locking(pc)
    ensures Nests(Role(pc))
  {
    hide Nested, N;
  }

  lemma RoleNests(pc: PC)
    ensures Nests(Role(pc))
  {
    hide Role, Nests, Locking;
    if Locking(pc) { LockingNests(pc); } else { PlainNests(pc); }
  }

  lemma NestedOnce(pc: PC)
    ensures 0 <= N(pc) <= 1
  {
  }

  lemma NestsNothing()
    ensures Nests(NoTally)
  {
  }

  lemma NoRole(i: int, q: PC)
    requires On(i, q) && Weigh(i, q).hnd == 0 && Weigh(i, q).lck == 0 && Weigh(i, q).own == 0
    ensures LateComer(q)
  {
  }

  lemma ResettingOwns(m: Move)
    requires Resetting(m.pc) && m.Before()
    ensures !m.s.phase.Active? && Weigh(m.i, m.pc).own == 1
  {
    hide SlotInv, SlotBounds, Nests;
  }

  /** Beside a thread that owns the slot outside its active phase there are only late comers. */
  lemma OnlyLateComers(m: Move, q: PC, others: Tally)
    requires Beside(m, q, others) && Resetting(m.pc)
    ensures LateComer(q) && ThreadInv(m.g, q, m.s)
  {
    ResettingOwns(m);
    WeighNests(m.i, m.pc);
    WeighNests(m.i, q);
    hide ThreadInv, SendInv, RecvInv, IdInv, OrderInv, SlotBounds, Resetting, Weigh;
    NoRole(m.i, q);
  }

  lemma LateComerSpared(g: Globals, q: PC, s: Slot, g': Globals, s': Slot)
    requires LateComer(q) && ThreadInv(g, q, s) && s'.h.issued == s.h.issued && s'.h.used == s.h.used
    ensures ThreadInv(g', q, s')
  {
  }

  lemma ReleaseSpares(m: Move, q: PC, others: Tally)
    requires m.pc.RlNotify? || m.pc.RlDrain? || m.pc.RlOv? || m.pc.RlPush?
    requires Beside(m, q, others) && ReleaseStep(m.g, m.i, m.pc, m.s, m.g', m.s', m.pc')
    ensures ThreadInv(m.g', q, m.s')
  {
    hide Beside, ThreadInv;
    OnlyLateComers(m, q, others);
    LateComerSpared(m.g, q, m.s, m.g', m.s');
  }

  lemma PopSpares(m: Move, q: PC, others: Tally)
    requires m.pc.RaPop?
    requires Beside(m, q, others) && RegisterStep(m.g, m.i, m.pc, m.s, m.g', m.s', m.pc')
    ensures ThreadInv(m.g', q, m.s')
  {
    hide SendInv, RecvInv, IdInv, OrderInv;
  }

  lemma RegisterSpares(m: Move, q: PC, others: Tally)
    requires m.pc.RaSeq? || m.pc.RaId? || m.pc.RaAccept? || m.pc.RaBack?
    requires Beside(m, q, others) && RegisterStep(m.g, m.i, m.pc, m.s, m.g', m.s', m.pc')
    ensures ThreadInv(m.g', q, m.s')
  {
    hide Beside, ThreadInv;
    OnlyLateComers(m, q, others);
    LateComerSpared(m.g, q, m.s, m.g', m.s');
  }
}
