/**
 What the calls of the session library have achieved when they return, in every run: that
 disconnectSession ends a session and that an ended session starts nothing new, that sendPost queues
 its message, which batch registerSend takes, and that released slots are registered again.
 */
module SessionCalls {
  import opened SessionModel
  import opened SessionInvariant
  import opened SessionProof
  import opened SessionSends
  import opened SessionSteps
  import opened SessionSystem
  import opened SessionTheorems

  lemma Prefix(run: seq<Sys>, k: nat)
    requires IsRun(run) && k < |run|
    ensures RunTo(run[..k + 1], run[k])
    ensures k + 1 < |run| ==> Step(run[k], run[k + 1])
  {
    hide Step, Bounds, Init;
    var front := run[..k + 1];
    forall m | 0 <= m < |front| ensures Bounds(front[m]) { assert Bounds(run[m]); }
    forall m | 0 < m < |front| ensures Step(front[m - 1], front[m]) { assert Step(run[m - 1], run[m]); }
    var m := k + 1;
    if m < |run| { assert Step(run[m - 1], run[m]); }
  }

  // ----- A session that has ended ---------------------------------------------------------

  /** The slot has handed out this id, and it does not carry it any more or is dead. */
  ghost predicate Ended(s: Slot, id: int) {
    id in s.h.issued && (s.id == id ==> !s.live)
  }

  lemma AcceptsFresh(g: Globals, pc: PC, s: Slot, rest: Tally)
    requires pc.AcLive? && ThreadInv(g, pc, s) && SlotInv(g, s, Plus(Weigh(pc.i, pc), rest))
    ensures s.id !in s.h.issued
  {
    hide CountInv, OwnerInv, SendInv, RecvInv, OrderInv, Weigh, Plus;
  }

  lemma RegistersFresh(g: Globals, pc: PC, s: Slot)
    requires pc.RaId? && ThreadInv(g, pc, s)
    ensures Pack(pc.i, pc.q) !in s.h.issued
  {
  }

  /** No step brings an ended session back: its id is never carried again, and never live. */
  lemma EndedStays(run: seq<Sys>, a: Sys, b: Sys, t: nat, i: nat, j: nat, id: int)
    requires RunTo(run, a) && StepBy(a, b, t, i) && j < |a.slots| && Ended(a.slots[j], id)
    ensures j < |b.slots| && Ended(b.slots[j], id)
    ensures a.slots[j].id != id ==> b.slots[j].id != id
  {
    var pc := a.threads[t];
    MoverPlace(a, b, t, i);
    hide RunTo, SlotStep, ThreadInv, SlotInv, Nests, Weigh, Plus;
    if i == j {
      StepEffect(a.g, i, pc, a.slots[i], b.g, b.slots[i], b.threads[t]);
      if pc.AcLive? || pc.RaId? {
        var rest := AtThread(run, a, t);
        if pc.AcLive? { AcceptsFresh(a.g, pc, a.slots[i], rest); } else { RegistersFresh(a.g, pc, a.slots[i]); }
      }
    }
  }

  lemma {:induction false} EndedForGood(run: seq<Sys>, j: nat, k: nat, i: nat, id: int)
    requires IsRun(run) && j <= k < |run| && i < |run[j].slots| && Ended(run[j].slots[i], id)
    ensures i < |run[k].slots| && Ended(run[k].slots[i], id)
    ensures run[j].slots[i].id != id ==> run[k].slots[i].id != id
    decreases k
  {
    hide IsRun, StepBy, Ended;
    if j < k {
      EndedForGood(run, j, k - 1, i, id);
      Prefix(run, k - 1);
      var t: nat, n: nat :| StepBy(run[k - 1], run[k], t, n);
      EndedStays(run[..k], run[k - 1], run[k], t, n, i, id);
    }
  }

  // ----- disconnectSession ----------------------------------------------------------------

  /** In disconnectSession(id), before the store to mLive. */
  predicate Asking(pc: PC, i: int, id: int) {
    || (pc.LkInc? && pc.call.DiscCall? && pc.i == i && pc.id == id)
    || (pc.LkCheck? && pc.call.DiscCall? && pc.i == i && pc.id == id)
    || (pc.DcLive? && pc.i == i && pc.id == id)
  }

  lemma LockFailsOnEnded(g: Globals, i: int, pc: PC, s: Slot, s': Slot, pc': PC, rest: Tally)
    requires pc.LkInc? && pc.call.DiscCall? && pc.i == i && LockStep(i, pc, s, s', pc')
    requires Nests(rest) && ThreadInv(g, pc, s) && SlotInv(g, s, Plus(Weigh(i, pc), rest))
    requires SlotBounds(s, Plus(Weigh(i, pc), rest))
    ensures Asking(pc', i, pc.id) || Ended(s', pc.id)
  {
    hide SendInv, OrderInv, OwnerInv;
  }

  lemma CheckOrDie(g: Globals, i: int, pc: PC, s: Slot, s': Slot, pc': PC)
    requires (pc.LkCheck? && pc.call.DiscCall?) || pc.DcLive?
    requires pc.i == i && LockStep(i, pc, s, s', pc')
    requires pc.id in s.h.issued
    ensures Asking(pc', i, pc.id) || Ended(s', pc.id)
  {
  }

  /** Before the store, or after it, or after a lock that failed: in the last two cases it has ended. */
  ghost predicate Ending(a: Sys, t: nat, i: nat, id: int) {
    && t < |a.threads| && i < |a.slots| && id in a.slots[i].h.issued
    && (Asking(a.threads[t], i, id) || Ended(a.slots[i], id))
  }

  lemma CallBegins(run: seq<Sys>, a: Sys, t: nat)
    requires RunTo(run, a) && t < |a.threads| && a.threads[t].LkInc? && a.threads[t].call.DiscCall?
    ensures 0 <= a.threads[t].i && Ending(a, t, a.threads[t].i, a.threads[t].id)
  {
    hide RunTo, SlotInv, Nests, Weigh, Plus;
    var rest := AtThread(run, a, t);
  }

  lemma AskingStep(run: seq<Sys>, a: Sys, b: Sys, t: nat, i: nat, id: int)
    requires RunTo(run, a) && StepBy(a, b, t, i) && Asking(a.threads[t], i, id) && id in a.slots[i].h.issued
    ensures Asking(b.threads[t], i, id) || Ended(b.slots[i], id)
  {
    hide RunTo, SlotInv, ThreadInv, Nests, Weigh, Plus, SlotBounds;
    hide StartStep, AcceptStep, RecvStep, FlagStep, BatchStep, LockStep, ReleaseStep, RegisterStep;
    var rest := AtThread(run, a, t);
    AtSlot(run, a, i);
    if a.threads[t].LkInc? {
      LockFailsOnEnded(a.g, i, a.threads[t], a.slots[i], b.slots[i], b.threads[t], rest);
    } else {
      CheckOrDie(a.g, i, a.threads[t], a.slots[i], b.slots[i], b.threads[t]);
    }
  }

  lemma EndingStep(run: seq<Sys>, a: Sys, b: Sys, u: nat, n: nat, t: nat, i: nat, id: int)
    requires RunTo(run, a) && StepBy(a, b, u, n) && Ending(a, t, i, id)
    ensures Ending(b, t, i, id)
  {
    hide RunTo, SlotStep, Asking;
    if Ended(a.slots[i], id) {
      EndedStays(run, a, b, u, n, i, id);
    } else {
      if n == i {
        StepEffect(a.g, n, a.threads[u], a.slots[n], b.g, b.slots[n], b.threads[u]);
      }
      if u == t {
        AskedHere(a, b, t, n, i, id);
        AskingStep(run, a, b, t, i, id);
      }
    }
  }

  lemma AskedHere(a: Sys, b: Sys, t: nat, n: nat, i: nat, id: int)
    requires StepBy(a, b, t, n) && Asking(a.threads[t], i, id)
    ensures n == i
  {
    hide LockStep;
  }

  /** In every run: once a call of disconnectSession(id) is past its store to mLive, or has returned
      without it because the lock failed, the session has ended, and it never comes back: whenever
      the slot carries this id, it is dead. */
  lemma {:induction false} DisconnectEnds(run: seq<Sys>, j: nat, k: nat, t: nat)
    requires IsRun(run) && j <= k < |run|
    requires t < |run[j].threads| && run[j].threads[t].LkInc? && run[j].threads[t].call.DiscCall?
    ensures var i, id := run[j].threads[t].i, run[j].threads[t].id;
            && 0 <= i < |run[k].slots| && t < |run[k].threads|
            && (Asking(run[k].threads[t], i, id) || Ended(run[k].slots[i], id))
    ensures var i, id := run[j].threads[t].i, run[j].threads[t].id;
            run[k].threads[t] == Idle || run[k].threads[t] == HDec(i) ==>
              forall l :: k <= l < |run| ==> i < |run[l].slots| && Ended(run[l].slots[i], id)
  {
    hide IsRun, Ended, Asking;
    Prefix(run, j);
    CallBegins(run[..j + 1], run[j], t);
    var i: nat, id := run[j].threads[t].i, run[j].threads[t].id;
    StillEnding(run, j, k, t, i, id);
    if run[k].threads[t] == Idle || run[k].threads[t] == HDec(i) {
      assert !Asking(run[k].threads[t], i, id) by { NotAsking(run[k].threads[t], i, id); }
      forall l | k <= l < |run| ensures i < |run[l].slots| && Ended(run[l].slots[i], id) {
        EndedForGood(run, k, l, i, id);
      }
    }
  }

  lemma NotAsking(pc: PC, i: int, id: int)
    requires pc == Idle || pc.HDec?
    ensures !Asking(pc, i, id)
  {
  }

  lemma {:induction false} StillEnding(run: seq<Sys>, j: nat, k: nat, t: nat, i: nat, id: int)
    requires IsRun(run) && j <= k < |run| && Ending(run[j], t, i, id)
    ensures Ending(run[k], t, i, id)
    decreases k
  {
    hide IsRun, StepBy, Ending;
    if j < k {
      StillEnding(run, j, k - 1, t, i, id);
      Prefix(run, k - 1);
      var u: nat, n: nat :| StepBy(run[k - 1], run[k], u, n);
      EndingStep(run[..k], run[k - 1], run[k], u, n, t, i, id);
    }
  }

  /** Whoever has the lock of disconnectSession(id) and comes to its unlock leaves a dead session. */
  lemma UnlocksDead(run: seq<Sys>, j: nat, k: nat, t: nat)
    requires IsRun(run) && j <= k < |run|
    requires t < |run[j].threads| && run[j].threads[t].LkInc? && run[j].threads[t].call.DiscCall?
    requires t < |run[k].threads| && run[k].threads[t].UnDec?
    requires run[k].threads[t].i == run[j].threads[t].i && run[k].threads[t].id == run[j].threads[t].id
    ensures 0 <= run[j].threads[t].i < |run[k].slots|
    ensures var s := run[k].slots[run[j].threads[t].i]; s.phase.Active? && s.id == run[j].threads[t].id && !s.live
  {
    hide IsRun;
    DisconnectEnds(run, j, k, t);
    Prefix(run, k);
    LockedIsCurrent(run[..k + 1], run[k], t, run[k].threads[t].id);
  }

  // ----- An ended session starts nothing new ----------------------------------------------

  /** The thread has found mLive set in registerRecv or registerSend and will make its call. */
  predicate PastTest(pc: PC, i: int) {
    (pc.RvInc? || pc.RvPost? || pc.RsInc? || pc.RsPost?) && pc.i == i
  }

  lemma NobodyPasses(a: Sys, b: Sys, t: nat, i: nat, u: nat, j: nat)
    requires StepBy(a, b, t, i) && u < |a.threads| && j < |a.slots| && !a.slots[j].live
    requires PastTest(b.threads[u], j)
    ensures PastTest(a.threads[u], j)
  {
    hide SlotStep;
    if u == t {
      MoverPlace(a, b, t, i);
      StepEffect(a.g, i, a.threads[t], a.slots[i], b.g, b.slots[i], b.threads[t]);
    }
  }

  /** Who is past its test on an ended session was past it when the session ended. */
  lemma {:induction false} WasPast(run: seq<Sys>, j: nat, k: nat, t: nat, i: nat, id: int)
    requires IsRun(run) && j <= k < |run| && i < |run[j].slots| && Ended(run[j].slots[i], id)
    requires i < |run[k].slots| && run[k].slots[i].id == id
    requires t < |run[k].threads| && PastTest(run[k].threads[t], i)
    ensures t < |run[j].threads| && PastTest(run[j].threads[t], i)
    decreases k
  {
    hide IsRun, PastTest;
    if j < k {
      EndedForGood(run, j, k - 1, i, id);
      if run[k - 1].slots[i].id != id { EndedForGood(run, k - 1, k, i, id); }
      hide Ended;
      Prefix(run, k - 1);
      var u: nat, n: nat :| StepBy(run[k - 1], run[k], u, n);
      hide SlotStep;
      assert !run[k - 1].slots[i].live by { EndedIsDead(run[k - 1].slots[i], id); }
      NobodyPasses(run[k - 1], run[k], u, n, t, i);
      WasPast(run, j, k - 1, t, i, id);
    }
  }

  lemma EndedIsDead(s: Slot, id: int)
    requires Ended(s, id) && s.id == id
    ensures !s.live
  {
  }

  /** In every run: a receive or a send on an ended session is started by a thread that was past its
      test of mLive when the session ended, and by no other. */
  lemma EndedStartsNothing(run: seq<Sys>, j: nat, k: nat, t: nat, i: nat, id: int)
    requires IsRun(run) && j <= k && k + 1 < |run| && i < |run[j].slots| && Ended(run[j].slots[i], id)
    requires StepBy(run[k], run[k + 1], t, i) && run[k].slots[i].id == id
    requires || run[k + 1].slots[i].recvs > run[k].slots[i].recvs
             || |run[k + 1].slots[i].h.batches| > |run[k].slots[i].h.batches|
    ensures t < |run[j].threads| && PastTest(run[j].threads[t], i)
  {
    hide IsRun, SlotStep, Ended;
    var a, b := run[k], run[k + 1];
    MoverPlace(a, b, t, i);
    StepEffect(a.g, i, a.threads[t], a.slots[i], b.g, b.slots[i], b.threads[t]);
    WasPast(run, j, k, t, i, id);
  }

  lemma RoleOfPast(pc: PC, i: int)
    requires PastTest(pc, i)
    ensures Weigh(i, pc).rtok == B(pc.RvInc? || pc.RvPost?) && Weigh(i, pc).tok == B(pc.RsInc? || pc.RsPost?)
  {
  }

  /** In every run at most one thread of a slot is past its test in registerRecv, and at most one in
      registerSend: so one receive and one send, at most, are started after a session has ended. */
  lemma OnePastEach(run: seq<Sys>, a: Sys, t: nat, u: nat, i: nat)
    requires RunTo(run, a) && t < u < |a.threads| && i < |a.slots|
    requires PastTest(a.threads[t], i) && PastTest(a.threads[u], i)
    ensures (a.threads[t].RvInc? || a.threads[t].RvPost?) <==> (a.threads[u].RsInc? || a.threads[u].RsPost?)
  {
    hide RunTo, Weigh, CountInv, OwnerInv, IdInv, OrderInv;
    AtSlot(run, a, i);
    RoleOfPast(a.threads[t], i);
    RoleOfPast(a.threads[u], i);
    TotalSplit(i, a.threads, t);
    var rest := Without(a.threads, t);
    assert rest[u - 1] == a.threads[u];
    TotalSplit(i, rest, u - 1);
    TotalNests(i, Without(rest, u - 1));
  }

  // ----- sendPost -------------------------------------------------------------------------

  /** In sendPost(id, m), before the message is queued. */
  predicate Offering(pc: PC, i: int, id: int, m: Msg) {
    || pc == LkInc(i, id, SendCall(m))
    || pc == LkCheck(i, id, SendCall(m))
    || pc == SpPush(i, id, m)
  }

  predicate Current(s: Slot, id: int) { s.phase.Active? && s.id == id }

  ghost predicate Delivering(a: Sys, t: nat, i: nat, id: int, m: Msg) {
    && t < |a.threads| && i < |a.slots|
    && (Offering(a.threads[t], i, id, m) || m in a.slots[i].h.enqueued)
  }

  lemma OfferLocks(g: Globals, i: int, pc: PC, s: Slot, s': Slot, pc': PC, rest: Tally, id: int, m: Msg)
    requires pc == LkInc(i, id, SendCall(m)) && LockStep(i, pc, s, s', pc') && s.phase.Active?
    requires Nests(rest) && SlotInv(g, s, Plus(Weigh(i, pc), rest)) && SlotBounds(s, Plus(Weigh(i, pc), rest))
    ensures pc' == LkCheck(i, id, SendCall(m))
  {
    hide OwnerInv, SendInv, RecvInv, IdInv, OrderInv;
  }

  lemma OfferPushes(i: int, pc: PC, s: Slot, s': Slot, pc': PC, id: int, m: Msg)
    requires pc == LkCheck(i, id, SendCall(m)) || pc == SpPush(i, id, m)
    requires LockStep(i, pc, s, s', pc') && s.id == id
    ensures pc' == SpPush(i, id, m) || m in s'.h.enqueued
  {
  }

  lemma OfferStep(g: Globals, i: int, pc: PC, s: Slot, s': Slot, pc': PC, rest: Tally, id: int, m: Msg)
    requires Offering(pc, i, id, m) && LockStep(i, pc, s, s', pc') && Current(s, id)
    requires Nests(rest) && SlotInv(g, s, Plus(Weigh(i, pc), rest)) && SlotBounds(s, Plus(Weigh(i, pc), rest))
    ensures Offering(pc', i, id, m) || m in s'.h.enqueued
  {
    hide SlotInv, SlotBounds, LockStep, Nests, Weigh, Plus;
    if pc.LkInc? {
      OfferLocks(g, i, pc, s, s', pc', rest, id, m);
    } else {
      OfferPushes(i, pc, s, s', pc', id, m);
    }
  }

  lemma AcceptingIsNotActive(g: Globals, pc: PC, s: Slot)
    requires pc.AcCount? && ThreadInv(g, pc, s)
    ensures !s.phase.Active?
  {
  }

  lemma QueuedStays(i: int, pc: PC, s: Slot, s': Slot, pc': PC, m: Msg)
    requires m in s.h.enqueued && pc.SpPush? && LockStep(i, pc, s, s', pc')
    ensures m in s'.h.enqueued
  {
  }

  lemma EnqueuedStays(run: seq<Sys>, a: Sys, b: Sys, u: nat, n: nat, i: nat, m: Msg)
    requires RunTo(run, a) && StepBy(a, b, u, n) && i < |a.slots| && a.slots[i].phase.Active?
    requires m in a.slots[i].h.enqueued
    ensures i < |b.slots| && m in b.slots[i].h.enqueued
  {
    var pc := a.threads[u];
    MoverPlace(a, b, u, n);
    hide RunTo, SlotInv, ThreadInv, Nests, Weigh, Plus;
    hide StartStep, AcceptStep, RecvStep, FlagStep, BatchStep, LockStep, ReleaseStep, RegisterStep;
    if n == i {
      StepEffect(a.g, n, pc, a.slots[n], b.g, b.slots[n], b.threads[u]);
      if pc.AcCount? {
        var rest := AtThread(run, a, u);
        AcceptingIsNotActive(a.g, pc, a.slots[i]);
      } else if pc.SpPush? {
        QueuedStays(n, pc, a.slots[n], b.slots[n], b.threads[u], m);
      }
    }
  }

  lemma OfferingHere(a: Sys, b: Sys, t: nat, n: nat, i: nat, id: int, m: Msg)
    requires StepBy(a, b, t, n) && Offering(a.threads[t], i, id, m)
    ensures n == i && LockStep(i, a.threads[t], a.slots[i], b.slots[i], b.threads[t])
  {
    hide StartStep, AcceptStep, RecvStep, FlagStep, BatchStep, LockStep, ReleaseStep, RegisterStep;
  }

  lemma SendingStep(run: seq<Sys>, a: Sys, b: Sys, u: nat, n: nat, t: nat, i: nat, id: int, m: Msg)
    requires RunTo(run, a) && StepBy(a, b, u, n) && Delivering(a, t, i, id, m) && Current(a.slots[i], id)
    ensures Delivering(b, t, i, id, m)
  {
    if m in a.slots[i].h.enqueued {
      hide RunTo, SlotStep;
      EnqueuedStays(run, a, b, u, n, i, m);
    } else if u == t {
      hide RunTo, SlotInv, ThreadInv, Nests, Weigh, Plus, SlotBounds, SlotStep;
      OfferingHere(a, b, t, n, i, id, m);
      hide Offering, Current;
      assert a.threads[t].i == i && !a.threads[t].Idle? && !a.threads[t].RaPop? by { OfferingOn(a.threads[t], i, id, m); }
      var rest := AtThread(run, a, t);
      AtSlot(run, a, i);
      OfferStep(a.g, i, a.threads[t], a.slots[i], b.slots[i], b.threads[t], rest, id, m);
    }
  }

  lemma OfferingOn(pc: PC, i: int, id: int, m: Msg)
    requires Offering(pc, i, id, m)
    ensures !pc.Idle? && !pc.RaPop? && pc.i == i
  {
  }

  /** In every run: a sendPost to a session that is the current one of its slot, all through the call,
      queues its message. */
  lemma {:induction false} SendQueues(run: seq<Sys>, j: nat, k: nat, t: nat, i: nat, id: int, m: Msg)
    requires IsRun(run) && j <= k < |run| && t < |run[j].threads| && run[j].threads[t] == LkInc(i, id, SendCall(m))
    requires forall l :: j <= l < k ==> i < |run[l].slots| && Current(run[l].slots[i], id)
    requires i < |run[j].slots|
    ensures t < |run[k].threads| && i < |run[k].slots|
    ensures Offering(run[k].threads[t], i, id, m) || m in run[k].slots[i].h.enqueued
    decreases k
  {
    hide IsRun, StepBy, Current;
    if j < k {
      SendQueues(run, j, k - 1, t, i, id, m);
      Prefix(run, k - 1);
      var u: nat, n: nat :| StepBy(run[k - 1], run[k], u, n);
      assert Current(run[k - 1].slots[i], id);
      SendingStep(run[..k], run[k - 1], run[k], u, n, t, i, id, m);
    }
  }

  // ----- The batch that registerSend takes ------------------------------------------------

  lemma LoadsLocally(g: Globals, i: int, pc: PC, s: Slot, s': Slot, pc': PC, rest: Tally)
    requires (pc.RsRead? || pc.RsReread?) && pc.i == i && FlagStep(g, i, pc, s, s', pc')
    requires ThreadInv(g, pc, s) && SlotInv(g, s, Plus(Weigh(i, pc), rest))
    ensures s'.queue == s.queue
    ensures pc' == if s.queue != [] && |s.queue| <= 500 && g.reload && pc.RsRead? then RsReread(i, |s.queue|)
                   else if s.queue == [] && !(g.reload && pc.RsRead?) then RsClear(i)
                   else if s.queue == [] then RsReread(i, 0)
                   else RsCount(i, if pc.RsRead? && |s.queue| > 500 then 500 else |s.queue|)
  {
    hide CountInv, OwnerInv, SendInv, RecvInv, IdInv, Weigh, Plus;
  }

  /** In every run: with one load registerSend goes for all queued messages, or for 500 if there are
      more, and for the flag exactly if there is none. With two loads the second decides, unless the
      first has found more than 500. */
  lemma BatchTaken(run: seq<Sys>, a: Sys, b: Sys, t: nat, i: nat)
    requires RunTo(run, a) && StepBy(a, b, t, i) && (a.threads[t].RsRead? || a.threads[t].RsReread?)
    ensures var n, first := |a.slots[i].queue|, a.threads[t].RsRead?;
            b.threads[t] == if first && n > 500 then RsCount(i, 500)
                            else if first && a.g.reload then RsReread(i, n)
                            else if n == 0 then RsClear(i) else RsCount(i, n)
  {
    hide RunTo, StartStep, AcceptStep, RecvStep, FlagStep, BatchStep, LockStep, ReleaseStep, RegisterStep;
    hide SlotInv, ThreadInv, Nests, Weigh, Plus;
    var rest := AtThread(run, a, t);
    LoadsLocally(a.g, i, a.threads[t], a.slots[i], b.slots[i], b.threads[t], rest);
  }

  // ----- Released slots are registered again ----------------------------------------------

  /** The thread and the slot of every step. */
  ghost predicate IsSchedule(run: seq<Sys>, moves: seq<(nat, nat)>) {
    && |run| == |moves| + 1
    && forall k :: 0 <= k < |moves| ==> StepBy(run[k], run[k + 1], moves[k].0, moves[k].1)
  }

  /** How often an AcceptEx has failed and its slot has been put back. */
  ghost function Failures(run: seq<Sys>, moves: seq<(nat, nat)>): nat
    requires |run| == |moves| + 1
  {
    if moves == [] then 0
    else
      var n := |moves| - 1;
      var t := moves[n].0;
      Failures(run[..n + 1], moves[..n]) + if t < |run[n].threads| && run[n].threads[t].RaBack? then 1 else 0
  }

  lemma FreeStep(g: Globals, i: int, pc: PC, s: Slot, g': Globals, s': Slot, pc': PC)
    requires SlotStep(g, i, pc, s, g', s', pc') && (pc.RaPop? ==> g.free != [])
    ensures |g'.free| - B(pc'.RaPop?) == |g.free| - B(pc.RaPop?) + B(pc.RaBack?)
  {
    hide AcceptStep, RecvStep, FlagStep, BatchStep, LockStep, Starts, CallsBack;
    StepPops(g, i, pc, s, g', s', pc');
  }

  lemma StepPops(g: Globals, i: int, pc: PC, s: Slot, g': Globals, s': Slot, pc': PC)
    requires SlotStep(g, i, pc, s, g', s', pc')
    ensures pc'.RaPop? ==> pc.RlPush?
  {
    hide SlotStep;
    StepEffect(g, i, pc, s, g', s', pc');
  }

  /** In every run: the free slots are those that a thread is about to register again, and those whose
      AcceptEx has failed, in the constructor or later. So every completeRelease is followed by a new
      AcceptEx, and while none fails no slot stays unused. */
  lemma {:induction false} SlotsComeBack(run: seq<Sys>, moves: seq<(nat, nat)>)
    requires IsRun(run) && IsSchedule(run, moves)
    ensures |run[|run| - 1].g.free| == Pops(run[|run| - 1].threads) + |run[0].g.free| + Failures(run, moves)
  {
    hide StepBy, Bounds, Init;
    if moves == [] {
      NoPops(run[0]);
    } else {
      var n := |moves| - 1;
      var a, b, t := run[n], run[n + 1], moves[n].0;
      assert StepBy(run[n], run[n + 1], moves[n].0, moves[n].1);
      ScheduleBefore(run, moves);
      SlotsComeBack(run[..n + 1], moves[..n]);
      Prefix(run, n);
      hide IsRun;
      FreeCount(run[..n + 1], a, b, t, moves[n].1);
    }
  }

  lemma NoPops(a: Sys)
    requires Init(a)
    ensures Pops(a.threads) == 0
  {
    IdlePops(a.threads);
  }

  lemma ScheduleBefore(run: seq<Sys>, moves: seq<(nat, nat)>)
    requires IsRun(run) && IsSchedule(run, moves) && moves != []
    ensures IsRun(run[..|moves|]) && IsSchedule(run[..|moves|], moves[..|moves| - 1])
  {
    hide StepBy, Bounds, Init;
    Prefix(run, |moves| - 1);
    var front := run[..|moves|];
    forall k | 0 <= k < |moves| - 1 ensures StepBy(front[k], front[k + 1], moves[k].0, moves[k].1) {
      assert StepBy(run[k], run[k + 1], moves[k].0, moves[k].1);
    }
  }

  lemma FreeCount(run: seq<Sys>, a: Sys, b: Sys, t: nat, i: nat)
    requires RunTo(run, a) && StepBy(a, b, t, i)
    ensures t < |a.threads| && |b.g.free| - Pops(b.threads) == |a.g.free| - Pops(a.threads) + B(a.threads[t].RaBack?)
  {
    hide RunTo, SlotStep;
    if a.threads[t].RaPop? { StackNeverEmpty(run, a, t); }
    FreeStep(a.g, i, a.threads[t], a.slots[i], b.g, b.slots[i], b.threads[t]);
    PopsSplit(a.threads, t);
    PopsSplit(b.threads, t);
    assert Without(a.threads, t) == Without(b.threads, t);
  }
}
