/**
 What the steps of the session machine change, kind by kind: who writes to mSendOv, which steps call
 onAccept and onRelease, and which start a request.
 */
module SessionSteps {
  import opened SessionModel
  import opened SessionSystem

  // ----- Who writes to mSendOv ------------------------------------------------------------

  /** Who writes to mSendOv: the owner of the send side, or the thread that releases the slot. */
  predicate WritesOv(pc: PC) { pc.CsDelete? || pc.RsCount? || pc.RsTake? || pc.RlOv? }

  /** Who clears the OVERLAPPED in mSendOv: a thread on its way to the next send or post. */
  predicate ClearsOv(pc: PC) {
    pc.RsLive? || pc.RsRetakeInc? || pc.RsRetakePost? || pc.SpInc? || pc.SpPost?
  }

  predicate SameOv(s: Slot, s': Slot) { s'.ovCnt == s.ovCnt && s'.ovMsgs == s.ovMsgs }

  /** No new batch, and no new size for one. */
  predicate NoNewSize(pc: PC, s: Slot, s': Slot, pc': PC) {
    && (s'.h.batches == s.h.batches || s'.h.batches == [] || pc.RsPost?)
    && (pc'.RsCount? ==> pc.RsRead? || pc.RsReread?)
  }

  /** onAccept is called at AcNotify and onRelease at RlNotify, both with the session's id. */
  predicate CallsBack(pc: PC, s: Slot, s': Slot) {
    && s'.h.issued == (if pc.AcNotify? then s.h.issued + {s.id} else s.h.issued)
    && s'.h.released == (if pc.RlNotify? then s.h.released + {s.id} else s.h.released)
  }

  /** mLive is set by completeAcceptEx only and the id by registerAcceptEx only; a thread goes on to
      WSARecv or WSASend only after it has found mLive set, and nobody else makes the two calls. The
      queue grows in sendPost only, and registerAcceptEx follows on completeRelease. */
  predicate Starts(i: int, pc: PC, s: Slot, s': Slot, pc': PC) {
    && (s'.live && !s.live ==> pc.AcLive?)
    && (s'.id != s.id ==> pc.RaId? && s'.id == Pack(i, pc.q))
    && (pc'.RvInc? || pc'.RsInc? ==> s.live && pc'.i == i)
    && (pc'.RvPost? ==> pc.RvInc? && pc'.i == i)
    && (pc'.RsPost? ==> pc.RsInc? && pc'.i == i)
    && (s'.recvs > s.recvs ==> pc.RvPost?)
    && (|s'.h.batches| > |s.h.batches| ==> pc.RsPost?)
    && (s'.h.enqueued == s.h.enqueued || pc.AcCount? || pc.SpPush?)
    && (pc'.RaPop? ==> pc.RlPush?)
  }

  // Every other step leaves mSendOv alone, kind by kind.

  lemma StartLeaves(g: Globals, i: int, pc: PC, s: Slot, g': Globals, s': Slot, pc': PC)
    requires pc.Idle? && StartStep(g, i, s, g', s', pc')
    ensures SameOv(s, s') && NoNewSize(pc, s, s', pc') && CallsBack(pc, s, s') && Starts(i, pc, s, s', pc')
  {
  }

  lemma AcceptLeaves(i: int, pc: PC, s: Slot, s': Slot, pc': PC)
    requires (pc.AcLive? || pc.AcCount? || pc.AcAssert? || pc.AcNotify?) && AcceptStep(i, pc, s, s', pc')
    ensures SameOv(s, s') && NoNewSize(pc, s, s', pc') && CallsBack(pc, s, s') && Starts(i, pc, s, s', pc')
  {
  }

  lemma RecvLeaves(i: int, pc: PC, s: Slot, s': Slot, pc': PC)
    requires pc.RvSpace? || pc.RvLive? || pc.RvInc? || pc.RvPost? || pc.RvErrLive? || pc.RvErrDec? || pc.RcZero?
             || pc.RcParse? || pc.HDec?
    requires RecvStep(i, pc, s, s', pc')
    ensures SameOv(s, s') && NoNewSize(pc, s, s', pc') && CallsBack(pc, s, s') && Starts(i, pc, s, s', pc')
  {
  }

  lemma FlagLeaves(g: Globals, i: int, pc: PC, s: Slot, s': Slot, pc': PC)
    requires pc.RsRead? || pc.RsReread? || pc.RsClear? || pc.RsAgain? || pc.RsAgainReread? || pc.RsRetake?
             || pc.RsRetakeInc? || pc.RsRetakePost?
    requires FlagStep(g, i, pc, s, s', pc')
    ensures SameOv(s, s') && NoNewSize(pc, s, s', pc') && CallsBack(pc, s, s') && Starts(i, pc, s, s', pc')
  {
  }

  lemma BatchLeaves(i: int, pc: PC, s: Slot, s': Slot, pc': PC)
    requires pc.RsLive? || pc.RsInc? || pc.RsPost? || pc.RsErrLive? || pc.RsErrDec?
    requires BatchStep(i, pc, s, s', pc')
    ensures SameOv(s, s') && NoNewSize(pc, s, s', pc') && CallsBack(pc, s, s') && Starts(i, pc, s, s', pc')
  {
  }

  lemma SendCallLeaves(i: int, pc: PC, s: Slot, s': Slot, pc': PC)
    requires pc.SpPush? || pc.SpCas? || pc.SpInc? || pc.SpPost? || pc.SpDelete? || pc.DcLive?
    requires LockStep(i, pc, s, s', pc')
    ensures SameOv(s, s') && NoNewSize(pc, s, s', pc') && CallsBack(pc, s, s') && Starts(i, pc, s, s', pc')
  {
  }

  lemma LockLeaves(i: int, pc: PC, s: Slot, s': Slot, pc': PC)
    requires pc.LkInc? || pc.LkCheck? || pc.MisDec? || pc.UnDec? || pc.RelCas? || pc.RelPost?
    requires LockStep(i, pc, s, s', pc')
    ensures SameOv(s, s') && NoNewSize(pc, s, s', pc') && CallsBack(pc, s, s') && Starts(i, pc, s, s', pc')
  {
  }

  lemma ReleaseLeaves(g: Globals, i: int, pc: PC, s: Slot, g': Globals, s': Slot, pc': PC)
    requires (pc.RlNotify? || pc.RlDrain? || pc.RlPush?) && ReleaseStep(g, i, pc, s, g', s', pc')
    ensures SameOv(s, s') && NoNewSize(pc, s, s', pc') && CallsBack(pc, s, s') && Starts(i, pc, s, s', pc')
  {
  }

  lemma RegisterLeaves(g: Globals, i: int, pc: PC, s: Slot, g': Globals, s': Slot, pc': PC)
    requires pc.RaPop? || pc.RaSeq? || pc.RaId? || pc.RaAccept? || pc.RaBack?
    requires RegisterStep(g, i, pc, s, g', s', pc')
    ensures SameOv(s, s') && NoNewSize(pc, s, s', pc') && CallsBack(pc, s, s') && Starts(i, pc, s, s', pc')
  {
  }

  lemma SenderLeaves(g: Globals, i: int, pc: PC, s: Slot, g': Globals, s': Slot, pc': PC)
    requires SlotStep(g, i, pc, s, g', s', pc') && !WritesOv(pc) && Sending(pc)
    ensures SameOv(s, s') && NoNewSize(pc, s, s', pc') && CallsBack(pc, s, s') && Starts(i, pc, s, s', pc')
  {
    hide StartStep, AcceptStep, RecvStep, FlagStep, BatchStep, LockStep, ReleaseStep, RegisterStep;
    hide SameOv, NoNewSize, CallsBack, Starts;
    if pc.RsLive? || pc.RsInc? || pc.RsPost? || pc.RsErrLive? || pc.RsErrDec? {
      BatchLeaves(i, pc, s, s', pc');
    } else {
      FlagLeaves(g, i, pc, s, s', pc');
    }
  }

  lemma CallerLeaves(g: Globals, i: int, pc: PC, s: Slot, g': Globals, s': Slot, pc': PC)
    requires SlotStep(g, i, pc, s, g', s', pc') && Calling(pc)
    ensures SameOv(s, s') && NoNewSize(pc, s, s', pc') && CallsBack(pc, s, s') && Starts(i, pc, s, s', pc')
  {
    hide StartStep, AcceptStep, RecvStep, FlagStep, BatchStep, LockStep, ReleaseStep, RegisterStep;
    hide SameOv, NoNewSize, CallsBack, Starts;
    if pc.LkInc? || pc.LkCheck? || pc.MisDec? || pc.UnDec? || pc.RelCas? || pc.RelPost? {
      LockLeaves(i, pc, s, s', pc');
    } else {
      SendCallLeaves(i, pc, s, s', pc');
    }
  }

  lemma OnlyWritersWrite(g: Globals, i: int, pc: PC, s: Slot, g': Globals, s': Slot, pc': PC)
    requires SlotStep(g, i, pc, s, g', s', pc') && !WritesOv(pc)
    ensures SameOv(s, s') && NoNewSize(pc, s, s', pc') && CallsBack(pc, s, s') && Starts(i, pc, s, s', pc')
  {
    hide StartStep, AcceptStep, RecvStep, FlagStep, BatchStep, LockStep, ReleaseStep, RegisterStep;
    hide SameOv, NoNewSize, CallsBack, Starts;
    if Sending(pc) {
      SenderLeaves(g, i, pc, s, g', s', pc');
    } else if Calling(pc) {
      CallerLeaves(g, i, pc, s, g', s', pc');
    } else if Recycling(pc) {
      RecyclingLeaves(g, i, pc, s, g', s', pc');
    } else {
      OthersLeave(g, i, pc, s, g', s', pc');
    }
  }

  /** The thread releases or registers a slot. */
  predicate Recycling(pc: PC) {
    pc.RlNotify? || pc.RlDrain? || pc.RlOv? || pc.RlPush? || pc.RaPop? || pc.RaSeq? || pc.RaId? || pc.RaAccept? || pc.RaBack?
  }

  lemma RecyclingLeaves(g: Globals, i: int, pc: PC, s: Slot, g': Globals, s': Slot, pc': PC)
    requires SlotStep(g, i, pc, s, g', s', pc') && !WritesOv(pc) && Recycling(pc)
    ensures SameOv(s, s') && NoNewSize(pc, s, s', pc') && CallsBack(pc, s, s') && Starts(i, pc, s, s', pc')
  {
    hide StartStep, AcceptStep, RecvStep, FlagStep, BatchStep, LockStep, ReleaseStep, RegisterStep;
    hide SameOv, NoNewSize, CallsBack, Starts;
    if pc.RlNotify? || pc.RlDrain? || pc.RlPush? {
      ReleaseLeaves(g, i, pc, s, g', s', pc');
    } else {
      RegisterLeaves(g, i, pc, s, g', s', pc');
    }
  }

  lemma OthersLeave(g: Globals, i: int, pc: PC, s: Slot, g': Globals, s': Slot, pc': PC)
    requires SlotStep(g, i, pc, s, g', s', pc') && !Sending(pc) && !Calling(pc) && !Recycling(pc)
    ensures SameOv(s, s') && NoNewSize(pc, s, s', pc') && CallsBack(pc, s, s') && Starts(i, pc, s, s', pc')
  {
    hide StartStep, AcceptStep, RecvStep, FlagStep, BatchStep, LockStep, ReleaseStep, RegisterStep;
    hide SameOv, NoNewSize, CallsBack, Starts;
    match pc
    case Idle => StartLeaves(g, i, pc, s, g', s', pc');
    case AcLive(_) | AcCount(_) | AcAssert(_) | AcNotify(_) => AcceptLeaves(i, pc, s, s', pc');
    case RvSpace(_) | RvLive(_) | RvInc(_) | RvPost(_) | RvErrLive(_) | RvErrDec(_) | RcZero(_) | RcParse(_)
      | HDec(_) => RecvLeaves(i, pc, s, s', pc');
  }

  lemma DeleterStarts(g: Globals, i: int, pc: PC, s: Slot, s': Slot, pc': PC)
    requires pc.CsDelete? && FlagStep(g, i, pc, s, s', pc')
    ensures CallsBack(pc, s, s') && Starts(i, pc, s, s', pc')
  {
  }

  lemma FillerStarts(i: int, pc: PC, s: Slot, s': Slot, pc': PC)
    requires (pc.RsCount? || pc.RsTake?) && BatchStep(i, pc, s, s', pc')
    ensures CallsBack(pc, s, s') && Starts(i, pc, s, s', pc')
  {
  }

  lemma CleanerStarts(g: Globals, i: int, pc: PC, s: Slot, g': Globals, s': Slot, pc': PC)
    requires pc.RlOv? && ReleaseStep(g, i, pc, s, g', s', pc')
    ensures CallsBack(pc, s, s') && Starts(i, pc, s, s', pc')
  {
  }

  lemma WritersStart(g: Globals, i: int, pc: PC, s: Slot, g': Globals, s': Slot, pc': PC)
    requires WritesOv(pc) && SlotStep(g, i, pc, s, g', s', pc')
    ensures CallsBack(pc, s, s') && Starts(i, pc, s, s', pc')
  {
    hide StartStep, AcceptStep, RecvStep, FlagStep, BatchStep, LockStep, ReleaseStep, RegisterStep, CallsBack, Starts;
    if pc.CsDelete? {
      DeleterStarts(g, i, pc, s, s', pc');
    } else if pc.RlOv? {
      CleanerStarts(g, i, pc, s, g', s', pc');
    } else {
      FillerStarts(i, pc, s, s', pc');
    }
  }

  /** The ids handed out and released, the live flag, the id and the requests, after any step. */
  lemma StepEffect(g: Globals, i: int, pc: PC, s: Slot, g': Globals, s': Slot, pc': PC)
    requires SlotStep(g, i, pc, s, g', s', pc')
    ensures CallsBack(pc, s, s') && Starts(i, pc, s, s', pc')
  {
    if WritesOv(pc) {
      hide SlotStep;
      WritersStart(g, i, pc, s, g', s', pc');
    } else {
      hide SlotStep, WritesOv;
      OnlyWritersWrite(g, i, pc, s, g', s', pc');
    }
  }
}
