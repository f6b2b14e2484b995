/**
 What is in flight on the send side: the array of messages that a send carries is left alone until
 its completion, and where a batch larger than the array can come from.
 */
module SessionSends {
  import opened SessionModel
  import opened SessionInvariant
  import opened SessionProof
  import opened SessionSteps
  import opened SessionSystem
  import opened SessionTheorems

  // ----- A send in flight -----------------------------------------------------------------

  lemma WriterExcludesSends(g: Globals, pc: PC, s: Slot, rest: Tally)
    requires WritesOv(pc) || ClearsOv(pc)
    requires Nests(rest) && SlotInv(g, s, Plus(Weigh(pc.i, pc), rest))
    ensures s.sends == 0
  {
    hide RecvInv, IdInv, OrderInv;
    WeighNests(pc.i, pc);
  }

  /** While a completion of a session's send side is outstanding, no thread is where it would write
      to mSendOv or clear the OVERLAPPED in it. */
  lemma InFlightUnattended(run: seq<Sys>, a: Sys, t: nat, i: nat)
    requires RunTo(run, a) && i < |a.slots| && a.slots[i].sends > 0
    requires t < |a.threads| && On(i, a.threads[t])
    ensures !WritesOv(a.threads[t]) && !ClearsOv(a.threads[t])
  {
    hide RunTo, ThreadInv, SlotInv, Nests, Weigh, Plus;
    var rest := AtThread(run, a, t);
    if WritesOv(a.threads[t]) || ClearsOv(a.threads[t]) {
      WriterExcludesSends(a.g, a.threads[t], a.slots[i], rest);
    }
  }

  /** What a send in flight sends is not touched: no step writes to mSendOv or clears it while a
      completion of the session's send side is outstanding. */
  lemma InFlightUntouched(run: seq<Sys>, a: Sys, b: Sys, t: nat, i: nat)
    requires RunTo(run, a) && StepBy(a, b, t, i) && a.slots[i].sends > 0
    ensures SameOv(a.slots[i], b.slots[i]) && !WritesOv(a.threads[t]) && !ClearsOv(a.threads[t])
  {
    var pc := a.threads[t];
    if WritesOv(pc) || ClearsOv(pc) {
      assert On(i, pc);
      hide RunTo, SlotStep;
      InFlightUnattended(run, a, t, i);
    } else {
      hide RunTo, SlotStep;
      OnlyWritersWrite(a.g, i, pc, a.slots[i], b.g, b.slots[i], b.threads[t]);
    }
  }

  // ----- The size of a batch --------------------------------------------------------------

  /** In every run with two loads: the second load gives a batch that is larger than the array if and
      only if more than 500 messages are queued by then, and then all of them. */
  lemma BatchSize(run: seq<Sys>, a: Sys, b: Sys, t: nat, i: nat)
    requires RunTo(run, a) && StepBy(a, b, t, i) && a.threads[t].RsReread?
    ensures b.threads[t].RsCount? && b.threads[t].n > 500 <==> |a.slots[i].queue| > 500
    ensures a.slots[i].queue != [] ==> b.threads[t] == RsCount(i, |a.slots[i].queue|)
  {
    hide RunTo, StartStep, AcceptStep, RecvStep, BatchStep, LockStep, ReleaseStep, RegisterStep;
    hide CountInv, OwnerInv, SendInv, RecvInv, IdInv, Weigh, Plus, Nests;
    var rest := AtThread(run, a, t);
  }

  /** The slot has a batch of n messages behind it or under way. */
  ghost predicate Sized(s: Slot, n: int) {
    s.ovCnt == n || exists k :: 0 <= k < |s.h.batches| && |s.h.batches[k]| == n
  }

  ghost predicate Carries(a: Sys, i: nat, n: int)
    requires i < |a.slots|
  {
    Sized(a.slots[i], n) || exists t :: 0 <= t < |a.threads| && a.threads[t] == RsCount(i, n)
  }

  /** A thread has just computed n from a second load. */
  ghost predicate Overloads(a: Sys, b: Sys, i: nat, n: int) {
    exists t: nat :: t < |a.threads| == |b.threads| && StepBy(a, b, t, i)
                     && a.threads[t].RsReread? && b.threads[t] == RsCount(i, n)
  }

  lemma ReadWithin(g: Globals, i: int, pc: PC, s: Slot, s': Slot, pc': PC)
    requires pc.RsRead? && FlagStep(g, i, pc, s, s', pc')
    ensures pc'.RsCount? ==> pc'.n <= SEND_MESSAGE_MAXCOUNT
    ensures s'.ovCnt == s.ovCnt && s'.h.batches == s.h.batches
  {
  }

  lemma PostedSize(g: Globals, i: int, pc: PC, s: Slot, s': Slot, pc': PC, rest: Tally)
    requires pc.RsPost? && pc.i == i && BatchStep(i, pc, s, s', pc')
    requires Nests(rest) && ThreadInv(g, pc, s) && SlotInv(g, s, Plus(Weigh(i, pc), rest))
    ensures s'.h.batches == s.h.batches + [s.ovMsgs] && |s.ovMsgs| == s.ovCnt == s'.ovCnt && !pc'.RsCount?
  {
    hide CountInv, OwnerInv, RecvInv, IdInv, OrderInv;
  }

  lemma WritersSize(g: Globals, i: int, pc: PC, s: Slot, g': Globals, s': Slot, pc': PC)
    requires WritesOv(pc) && SlotStep(g, i, pc, s, g', s', pc')
    ensures s'.h.batches == s.h.batches && !pc'.RsCount?
    ensures s'.ovCnt == s.ovCnt || s'.ovCnt == 0 || (pc.RsCount? && s'.ovCnt == pc.n)
  {
    hide StartStep, AcceptStep, RecvStep, LockStep, RegisterStep;
  }

  /** Sizes beyond the array come from the program counter RsCount, and there from a second load. */
  lemma SizeStep(g: Globals, i: int, pc: PC, s: Slot, g': Globals, s': Slot, pc': PC, rest: Tally, n: int)
    requires SlotStep(g, i, pc, s, g', s', pc') && n > SEND_MESSAGE_MAXCOUNT
    requires On(i, pc) ==> Nests(rest) && ThreadInv(g, pc, s) && SlotInv(g, s, Plus(Weigh(i, pc), rest))
    requires On(i, pc) || pc.Idle? || pc.RaPop?
    requires Sized(s', n) || pc' == RsCount(i, n)
    ensures Sized(s, n) || pc == RsCount(i, n) || (pc.RsReread? && pc' == RsCount(i, n))
  {
    hide StartStep, AcceptStep, RecvStep, FlagStep, BatchStep, LockStep, ReleaseStep, RegisterStep;
    hide ThreadInv, SlotInv, Nests, Weigh, Plus;
    if WritesOv(pc) {
      WritersSize(g, i, pc, s, g', s', pc');
    } else if pc.RsPost? {
      PostedSize(g, i, pc, s, s', pc', rest);
    } else {
      OnlyWritersWrite(g, i, pc, s, g', s', pc');
      if pc.RsRead? { ReadWithin(g, i, pc, s, s', pc'); }
    }
  }

  lemma CarriedFrom(run: seq<Sys>, a: Sys, b: Sys, t: nat, j: nat, i: nat, n: int)
    requires RunTo(run, a) && StepBy(a, b, t, j) && n > SEND_MESSAGE_MAXCOUNT
    requires i < |b.slots| && Carries(b, i, n)
    ensures Carries(a, i, n) || Overloads(a, b, i, n)
  {
    hide RunTo, SlotStep, ThreadInv, SlotInv, Nests, Weigh, Plus, Sized;
    if !Carries(a, i, n) {
      var rest := NoTally;
      if !a.threads[t].Idle? && !a.threads[t].RaPop? { rest := AtThread(run, a, t); }
      MoverPlace(a, b, t, j);
      if i == j {
        assert Sized(b.slots[i], n) || b.threads[t] == RsCount(i, n);
        SizeStep(a.g, i, a.threads[t], a.slots[i], b.g, b.slots[i], b.threads[t], rest, n);
      } else {
        assert b.threads[t] == RsCount(i, n);
        OwnSlot(a, b, t, j);
      }
    }
  }

  /** A thread that counts a batch counts it for the slot of its step. */
  lemma OwnSlot(a: Sys, b: Sys, t: nat, j: nat)
    requires StepBy(a, b, t, j) && b.threads[t].RsCount?
    ensures b.threads[t].i == j
  {
    hide StartStep, AcceptStep, RecvStep, FlagStep, BatchStep, LockStep, ReleaseStep, RegisterStep;
    SenderCounts(a.g, j, a.threads[t], a.slots[j], b.g, b.slots[j], b.threads[t]);
  }

  lemma SenderCounts(g: Globals, i: int, pc: PC, s: Slot, g': Globals, s': Slot, pc': PC)
    requires SlotStep(g, i, pc, s, g', s', pc') && pc'.RsCount?
    ensures pc'.i == i
  {
    hide StartStep, AcceptStep, RecvStep, FlagStep, BatchStep, LockStep, ReleaseStep, RegisterStep;
    if WritesOv(pc) {
      WritersSize(g, i, pc, s, g', s', pc');
    } else {
      OnlyWritersWrite(g, i, pc, s, g', s', pc');
      CountedHere(g, i, pc, s, s', pc');
    }
  }

  lemma CountedHere(g: Globals, i: int, pc: PC, s: Slot, s': Slot, pc': PC)
    requires (pc.RsRead? || pc.RsReread?) && FlagStep(g, i, pc, s, s', pc') && pc'.RsCount?
    ensures pc'.i == i
  {
  }

  /** In every run, a batch of more than 500 messages, sent or under way, began with a second load
      that found the queue that long. */
  lemma {:induction false} OversizeOrigin(run: seq<Sys>, a: Sys, i: nat, n: int) returns (k: nat)
    requires RunTo(run, a) && i < |a.slots| && Carries(a, i, n) && n > 500
    ensures 0 < k < |run| && i < |run[k - 1].slots| && Overloads(run[k - 1], run[k], i, n)
    ensures |run[k - 1].slots[i].queue| == n
  {
    hide StepBy, Bounds;
    if |run| == 1 {
      NothingCarried(a, i, n);
      assert false;
    } else {
      var front := run[..|run| - 1];
      var c := front[|front| - 1];
      ShorterRun(run);
      var t: nat, j: nat :| StepBy(c, a, t, j);
      SameSize(c, a, t, j);
      CarriedFrom(front, c, a, t, j, i, n);
      if Carries(c, i, n) {
        k := OversizeOrigin(front, c, i, n);
      } else {
        k := |run| - 1;
        var u: nat :| u < |c.threads| == |a.threads| && StepBy(c, a, u, i)
                      && c.threads[u].RsReread? && a.threads[u] == RsCount(i, n);
        BatchSize(front, c, a, u, i);
      }
    }
  }

  lemma NothingCarried(a: Sys, i: nat, n: int)
    requires Init(a) && i < |a.slots| && n > 0
    ensures !Carries(a, i, n)
  {
    assert a.slots[i] == InitSlot(i, true) || a.slots[i] == InitSlot(i, false);
  }

  lemma SameSize(a: Sys, b: Sys, t: nat, j: nat)
    requires StepBy(a, b, t, j)
    ensures |a.slots| == |b.slots|
  {
  }

  lemma ShorterRun(run: seq<Sys>)
    requires IsRun(run) && |run| > 1
    ensures RunTo(run[..|run| - 1], run[|run| - 2]) && Step(run[|run| - 2], run[|run| - 1])
  {
    hide Step, Bounds, Init;
    var front, m := run[..|run| - 1], |run| - 1;
    assert Step(run[m - 1], run[m]);
    forall k | 0 <= k < |front| ensures Bounds(front[k]) { assert Bounds(run[k]); }
    forall k | 0 < k < |front| ensures Step(front[k - 1], front[k]) { assert Step(run[k - 1], run[k]); }
  }

  /** A write past the last entry of mSendMsgs, and a batch of more than 500 messages, happen only in
      a run in which a second load found the queue longer than the array. */
  lemma WritesPastEnd(run: seq<Sys>, a: Sys, t: nat) returns (k: nat)
    requires RunTo(run, a) && t < |a.threads| && a.threads[t].RsTake? && 0 <= a.threads[t].i < |a.slots|
    requires var s := a.slots[a.threads[t].i]; 500 <= |s.ovMsgs| < a.threads[t].n
    ensures var i := a.threads[t].i;
            && 0 < k < |run| && i < |run[k - 1].slots| && Overloads(run[k - 1], run[k], i, a.threads[t].n)
            && |run[k - 1].slots[i].queue| == a.threads[t].n
  {
    hide RunTo, SlotInv, Nests, Weigh, Plus, Overloads;
    var rest := AtThread(run, a, t);
    assert Sized(a.slots[a.threads[t].i], a.threads[t].n);
    k := OversizeOrigin(run, a, a.threads[t].i, a.threads[t].n);
  }

  lemma OversizeBatch(run: seq<Sys>, a: Sys, i: nat, m: nat) returns (k: nat)
    requires RunTo(run, a) && i < |a.slots| && m < |a.slots[i].h.batches|
    requires |a.slots[i].h.batches[m]| > 500
    ensures var n := |a.slots[i].h.batches[m]|;
            && 0 < k < |run| && i < |run[k - 1].slots| && Overloads(run[k - 1], run[k], i, n)
            && |run[k - 1].slots[i].queue| == n
  {
    hide RunTo, Overloads;
    k := OversizeOrigin(run, a, i, |a.slots[i].h.batches[m]|);
  }
}
