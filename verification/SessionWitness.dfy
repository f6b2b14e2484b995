/**
 A run of one session in which, with two loads of the queue length, a batch of 501 messages is given
 to WSASend. Thread 0 is the worker, thread 1 calls sendPost.
 */
module SessionWitness {
  import opened SessionModel
  import opened SessionInvariant
  import opened SessionPaths
  import opened SessionTheorems

  // ----- Runs of one slot and two threads -------------------------------------------------

  ghost predicate Small(a: Sys) {
    |a.slots| == 1 && |a.threads| == 2 && a.g.lastSeq == 0 && a.g.reload
  }

  /** Far from every bound. */
  predicate Modest(s: Slot) {
    s.recvs <= 4 && s.sends <= 4 && s.h.leaks == 0 && |s.queue| <= 501
  }

  lemma Light(i: int, pc: PC)
    ensures 0 <= Weigh(i, pc).ops <= 1 && 0 <= Weigh(i, pc).hnd <= 1 && 0 <= Weigh(i, pc).lck <= 1
  {
  }

  lemma ModestBounds(a: Sys)
    requires Small(a) && Modest(a.slots[0])
    ensures Bounds(a)
  {
    hide Weigh;
    var p, q := a.threads[0], a.threads[1];
    Light(0, p);
    Light(0, q);
    assert a.threads == [p, q] && a.threads[1..] == [q] && [q][1..] == [];
    assert Total(0, [q]) == Plus(Weigh(0, q), NoTally);
    assert Total(0, a.threads) == Plus(Weigh(0, p), Plus(Weigh(0, q), NoTally));
  }

  /** One step more. */
  lemma Go(run: seq<Sys>, a: Sys, t: nat, g': Globals, s': Slot, pc': PC) returns (longer: seq<Sys>, b: Sys)
    requires RunTo(run, a) && Small(a) && t < 2 && SlotStep(a.g, 0, a.threads[t], a.slots[0], g', s', pc')
    requires g'.lastSeq == 0 && g'.reload && Modest(s')
    ensures b == Sys(g', [s'], a.threads[t := pc']) && Small(b) && RunTo(longer, b)
  {
    hide SlotStep, Bounds, Init;
    b := Sys(g', [s'], a.threads[t := pc']);
    ModestBounds(b);
    assert StepBy(a, b, t, 0);
    longer := run + [b];
    forall k | 0 <= k < |longer| ensures Bounds(longer[k]) { if k < |run| { assert Bounds(run[k]); } }
    forall k | 0 < k < |longer| ensures Step(longer[k - 1], longer[k]) {
      if k < |run| { assert Step(run[k - 1], run[k]); }
    }
  }

  /** The path of one thread, as part of a run. */
  lemma {:induction false} Follow(run: seq<Sys>, a: Sys, t: nat, path: seq<Config>, d: Config)
    returns (longer: seq<Sys>, b: Sys)
    requires RunTo(run, a) && Small(a) && t < 2
    requires Leads(a.g, 0, path, Config(a.threads[t], a.slots[0]), d)
    requires forall k :: 0 <= k < |path| ==> Modest(path[k].s)
    ensures b == Sys(a.g, [d.s], a.threads[t := d.pc]) && Small(b) && RunTo(longer, b)
    decreases |path|
  {
    hide SlotStep, RunTo, Modest;
    if |path| == 1 {
      longer, b := run, a;
    } else {
      var next := path[1];
      assert SlotStep(a.g, 0, path[1 - 1].pc, path[1 - 1].s, a.g, path[1].s, path[1].pc);
      var r, c := Go(run, a, t, a.g, next.s, next.pc);
      var rest := path[1..];
      assert forall k :: 0 <= k < |rest| ==> rest[k] == path[k + 1];
      longer, b := Follow(r, c, t, rest, d);
      assert c.threads[t := d.pc] == a.threads[t := d.pc];
    }
  }

  // ----- The accept -----------------------------------------------------------------------

  function Begin(): Sys {
    Sys(Globals([], 0, 0, true), [InitSlot(0, true)], [Idle, Idle])
  }

  lemma BeginRuns() returns (run: seq<Sys>)
    ensures RunTo(run, Begin()) && Small(Begin())
  {
    hide Bounds, Step, Pack;
    run := [Begin()];
    BeginInit();
    ModestBounds(Begin());
  }

  lemma BeginInit()
    ensures Init(Begin())
  {
  }

  lemma PackZero()
    ensures Pack(0, 0) == 0 && IdxOf(0) == 0
  {
  }

  /** What completeAcceptEx makes of the slot, up to registerRecv. */
  function Accepted(s: Slot): Slot {
    s.(live := true, iocnt := 1, phase := Active,
       h := s.h.(used := true, leaks := 0, wins := 0, announced := true, issued := s.h.issued + {s.id},
                 enqueued := [], batches := [], unsent := []))
  }

  function AcceptPath(s: Slot): seq<Config> {
    var silent := Accepted(s).(h := Accepted(s).h.(announced := false, issued := s.h.issued));
    [Config(AcLive(0), s), Config(AcCount(0), s.(live := true)), Config(AcAssert(0), silent),
     Config(AcNotify(0), silent), Config(RvSpace(0), Accepted(s))]
  }

  lemma AcceptSteps(g: Globals, s: Slot)
    ensures IsPath(g, 0, AcceptPath(s))
  {
    var p := AcceptPath(s);
    hide StartStep, RecvStep, FlagStep, BatchStep, LockStep, ReleaseStep, RegisterStep;
    assert SlotStep(g, 0, p[0].pc, p[0].s, g, p[1].s, p[1].pc);
    assert SlotStep(g, 0, p[1].pc, p[1].s, g, p[2].s, p[2].pc);
    assert SlotStep(g, 0, p[2].pc, p[2].s, g, p[3].s, p[3].pc);
    assert SlotStep(g, 0, p[3].pc, p[3].s, g, p[4].s, p[4].pc);
    hide SlotStep;
    forall k | 0 < k < |p| ensures SlotStep(g, 0, p[k - 1].pc, p[k - 1].s, g, p[k].s, p[k].pc) {
      assert k == 1 || k == 2 || k == 3 || k == 4;
    }
  }

  function RecvPath(s: Slot): seq<Config> {
    [Config(RvSpace(0), s), Config(RvLive(0), s), Config(RvInc(0), s), Config(RvPost(0), s.(iocnt := 2))]
  }

  lemma RecvSteps(g: Globals, s: Slot)
    requires s.live && s.iocnt == 1
    ensures IsPath(g, 0, RecvPath(s))
  {
    var p := RecvPath(s);
    hide StartStep, AcceptStep, FlagStep, BatchStep, LockStep, ReleaseStep, RegisterStep;
    assert SlotStep(g, 0, p[0].pc, p[0].s, g, p[1].s, p[1].pc);
    assert SlotStep(g, 0, p[1].pc, p[1].s, g, p[2].s, p[2].pc);
    assert SlotStep(g, 0, p[2].pc, p[2].s, g, p[3].s, p[3].pc);
    hide SlotStep;
    forall k | 0 < k < |p| ensures SlotStep(g, 0, p[k - 1].pc, p[k - 1].s, g, p[k].s, p[k].pc) {
      assert k == 1 || k == 2 || k == 3;
    }
  }

  function PostedPath(s: Slot): seq<Config> {
    [Config(RvPost(0), s), Config(HDec(0), s.(recvs := s.recvs + 1)), Config(Idle, s.(iocnt := 1, recvs := s.recvs + 1))]
  }

  lemma PostedSteps(g: Globals, s: Slot)
    requires s.iocnt == 2
    ensures IsPath(g, 0, PostedPath(s))
  {
    var p := PostedPath(s);
    hide StartStep, AcceptStep, FlagStep, BatchStep, LockStep, ReleaseStep, RegisterStep;
    assert SlotStep(g, 0, p[0].pc, p[0].s, g, p[1].s, p[1].pc);
    assert SlotStep(g, 0, p[1].pc, p[1].s, g, p[2].s, p[2].pc);
    hide SlotStep;
    forall k | 0 < k < |p| ensures SlotStep(g, 0, p[k - 1].pc, p[k - 1].s, g, p[k].s, p[k].pc) {
      assert k == 1 || k == 2;
    }
  }

  lemma PickAccept(g: Globals, s: Slot)
    requires s.accepts > 0
    ensures IsPath(g, 0, [Config(Idle, s), Config(AcLive(0), s.(accepts := s.accepts - 1, phase := Accepting))])
  {
    hide AcceptStep, RecvStep, FlagStep, BatchStep, LockStep, ReleaseStep, RegisterStep;
  }

  lemma PickSend(g: Globals, s: Slot)
    requires s.sends > 0
    ensures IsPath(g, 0, [Config(Idle, s), Config(CsDelete(0), s.(sends := s.sends - 1))])
  {
    hide AcceptStep, RecvStep, FlagStep, BatchStep, LockStep, ReleaseStep, RegisterStep;
  }

  /** The session is active and waits for bytes; q messages are queued behind a set or clear flag. */
  predicate Waiting(s: Slot, q: nat, flag: bool) {
    && s.phase.Active? && s.live && s.id == 0 && 0 in s.h.issued && s.recvs == 1 && s.h.leaks == 0
    && |s.queue| == s.qsize == q && s.ovCnt == 0 && s.ovMsgs == [] && s.h.batches == [] && s.h.unsent == []
    && s.sendFlag == flag
  }

  lemma AcceptRun() returns (run: seq<Sys>, a: Sys)
    ensures RunTo(run, a) && Small(a) && a.threads == [RvSpace(0), Idle]
    ensures a.slots[0] == Accepted(InitSlot(0, true).(accepts := 0, phase := Accepting))
  {
    hide SlotStep, RunTo, InitSlot, IsPath;
    run := BeginRuns();
    a := Begin();
    var s := a.slots[0];
    BeginSlot();
    PickAccept(a.g, s);
    var s0 := s.(accepts := 0, phase := Accepting);
    run, a := Follow(run, a, 0, [Config(Idle, s), Config(AcLive(0), s0)], Config(AcLive(0), s0));
    AcceptSteps(a.g, s0);
    run, a := Follow(run, a, 0, AcceptPath(s0), Config(RvSpace(0), Accepted(s0)));
    assert a.threads == [RvSpace(0), Idle];
  }

  lemma BeginSlot()
    ensures var s := InitSlot(0, true);
            && Modest(s) && s.accepts == 1 && s.id == 0 && s.recvs == s.sends == 0 && s.h.leaks == 0
            && s.queue == [] && s.qsize == 0 && s.ovCnt == 0 && s.ovMsgs == [] && !s.sendFlag
  {
    PackZero();
  }

  lemma WaitRun() returns (run: seq<Sys>, a: Sys)
    ensures RunTo(run, a) && Small(a) && a.threads == [Idle, Idle]
    ensures Waiting(a.slots[0], 0, false) && a.slots[0].iocnt == 1 && a.slots[0].sends == 0
  {
    hide SlotStep, RunTo, InitSlot, IsPath;
    run, a := AcceptRun();
    BeginSlot();
    var s := a.slots[0];
    RecvSteps(a.g, s);
    run, a := Follow(run, a, 0, RecvPath(s), Config(RvPost(0), s.(iocnt := 2)));
    PostedSteps(a.g, a.slots[0]);
    run, a := Follow(run, a, 0, PostedPath(a.slots[0]), Config(Idle, s.(recvs := s.recvs + 1)));
    assert a.threads == [Idle, Idle];
  }

  // ----- sendPost -------------------------------------------------------------------------

  lemma CallStep(g: Globals, s: Slot)
    requires s.id == 0 && 0 in s.h.issued
    ensures var m := Msg(g.born, 0);
            SlotStep(g, 0, Idle, s, g.(born := g.born + 1), s.(h := s.h.(given := s.h.given + multiset{m})),
                     LkInc(0, 0, SendCall(m)))
  {
    PackZero();
    hide AcceptStep, RecvStep, FlagStep, BatchStep, LockStep, ReleaseStep, RegisterStep, IdxOf;
  }

  /** sessionLock. */
  function LockPath(s: Slot, m: Msg): seq<Config> {
    var s1 := s.(iocnt := s.iocnt + 1);
    [Config(LkInc(0, 0, SendCall(m)), s), Config(LkCheck(0, 0, SendCall(m)), s1), Config(SpPush(0, 0, m), s1)]
  }

  function Pushed(s: Slot, m: Msg): Slot {
    s.(queue := s.queue + [m], qsize := Up(s.qsize), h := s.h.(enqueued := s.h.enqueued + [m]))
  }

  lemma LockSteps(g: Globals, s: Slot, m: Msg)
    requires s.id == 0 && 0 <= s.iocnt < 100
    ensures IsPath(g, 0, LockPath(s, m))
  {
    var p := LockPath(s, m);
    hide StartStep, AcceptStep, RecvStep, FlagStep, BatchStep, ReleaseStep, RegisterStep;
    assert SlotStep(g, 0, p[0].pc, p[0].s, g, p[1].s, p[1].pc);
    assert SlotStep(g, 0, p[1].pc, p[1].s, g, p[2].s, p[2].pc);
    hide SlotStep;
    forall k | 0 < k < |p| ensures SlotStep(g, 0, p[k - 1].pc, p[k - 1].s, g, p[k].s, p[k].pc) {
      assert k == 1 || k == 2;
    }
  }

  lemma PushStep(g: Globals, s: Slot, m: Msg)
    ensures IsPath(g, 0, [Config(SpPush(0, 0, m), s), Config(SpCas(0, 0), Pushed(s, m))])
  {
    hide StartStep, AcceptStep, RecvStep, FlagStep, BatchStep, ReleaseStep, RegisterStep;
  }

  /** From the CAS to the end, with a set flag. */
  function LeavePath(s: Slot): seq<Config> {
    [Config(SpCas(0, 0), s), Config(UnDec(0, 0, false), s), Config(Idle, s.(iocnt := s.iocnt - 1))]
  }

  lemma LeaveSteps(g: Globals, s: Slot)
    requires 1 < s.iocnt < 100 && s.sendFlag
    ensures IsPath(g, 0, LeavePath(s))
  {
    var p := LeavePath(s);
    hide StartStep, AcceptStep, RecvStep, FlagStep, BatchStep, ReleaseStep, RegisterStep;
    assert SlotStep(g, 0, p[0].pc, p[0].s, g, p[1].s, p[1].pc);
    assert SlotStep(g, 0, p[1].pc, p[1].s, g, p[2].s, p[2].pc);
    hide SlotStep;
    forall k | 0 < k < |p| ensures SlotStep(g, 0, p[k - 1].pc, p[k - 1].s, g, p[k].s, p[k].pc) {
      assert k == 1 || k == 2;
    }
  }

  /** And with a clear one: a completion is posted. */
  function PostPath(s: Slot): seq<Config> {
    var s2 := s.(sendFlag := true, iocnt := s.iocnt + 1);
    [Config(SpCas(0, 0), s), Config(SpInc(0, 0), s.(sendFlag := true)), Config(SpPost(0, 0), s2),
     Config(UnDec(0, 0, false), s2.(sends := s.sends + 1))]
  }

  lemma PostSteps(g: Globals, s: Slot)
    requires 0 < s.iocnt < 100 && !s.sendFlag
    ensures IsPath(g, 0, PostPath(s))
  {
    var p := PostPath(s);
    hide StartStep, AcceptStep, RecvStep, FlagStep, BatchStep, ReleaseStep, RegisterStep;
    assert SlotStep(g, 0, p[0].pc, p[0].s, g, p[1].s, p[1].pc);
    assert SlotStep(g, 0, p[1].pc, p[1].s, g, p[2].s, p[2].pc);
    assert SlotStep(g, 0, p[2].pc, p[2].s, g, p[3].s, p[3].pc);
    hide SlotStep;
    forall k | 0 < k < |p| ensures SlotStep(g, 0, p[k - 1].pc, p[k - 1].s, g, p[k].s, p[k].pc) {
      assert k == 1 || k == 2 || k == 3;
    }
  }

  lemma UnlockStep(g: Globals, s: Slot)
    requires 1 < s.iocnt < 100
    ensures IsPath(g, 0, [Config(UnDec(0, 0, false), s), Config(Idle, s.(iocnt := s.iocnt - 1))])
  {
    hide StartStep, AcceptStep, RecvStep, FlagStep, BatchStep, ReleaseStep, RegisterStep;
  }

  /** One call of sendPost by thread 1, from start to end, whatever the worker is at. */
  lemma SendOne(run: seq<Sys>, a: Sys, q: nat, flag: bool) returns (longer: seq<Sys>, b: Sys)
    requires RunTo(run, a) && Small(a) && a.threads[1] == Idle && q < 501
    requires Waiting(a.slots[0], q, flag) && 1 <= a.slots[0].iocnt <= 4 && a.slots[0].sends <= 1
    ensures RunTo(longer, b) && Small(b) && b.threads == a.threads && Waiting(b.slots[0], q + 1, true)
    ensures b.slots[0].sends == a.slots[0].sends + (if flag then 0 else 1)
    ensures b.slots[0].iocnt == a.slots[0].iocnt + (if flag then 0 else 1)
  {
    hide SlotStep, RunTo, IsPath;
    var s, g, m := a.slots[0], a.g, Msg(a.g.born, 0);
    var g' := g.(born := g.born + 1);
    CallStep(g, s);
    var s0 := s.(h := s.h.(given := s.h.given + multiset{m}));
    var s2 := Pushed(s0.(iocnt := s.iocnt + 1), m);
    longer, b := Go(run, a, 1, g', s0, LkInc(0, 0, SendCall(m)));
    var s1 := s0.(iocnt := s.iocnt + 1);
    LockSteps(g', s0, m);
    longer, b := Follow(longer, b, 1, LockPath(s0, m), Config(SpPush(0, 0, m), s1));
    PushStep(g', s1, m);
    longer, b := Follow(longer, b, 1, [Config(SpPush(0, 0, m), s1), Config(SpCas(0, 0), s2)], Config(SpCas(0, 0), s2));
    if flag {
      LeaveSteps(g', s2);
      longer, b := Follow(longer, b, 1, LeavePath(s2), Config(Idle, s2.(iocnt := s.iocnt)));
    } else {
      PostSteps(g', s2);
      var s3 := s2.(sendFlag := true, iocnt := s2.iocnt + 1, sends := s.sends + 1);
      longer, b := Follow(longer, b, 1, PostPath(s2), Config(UnDec(0, 0, false), s3));
      UnlockStep(g', s3);
      var s4 := s3.(iocnt := s2.iocnt);
      longer, b := Follow(longer, b, 1, [Config(UnDec(0, 0, false), s3), Config(Idle, s4)], Config(Idle, s4));
    }
    assert b.threads == a.threads;
  }

  /** q calls of sendPost, one after the other; the first posts the completion. */
  lemma {:induction false} SendMany(q: nat) returns (run: seq<Sys>, a: Sys)
    requires q <= 500
    ensures RunTo(run, a) && Small(a) && a.threads == [Idle, Idle] && Waiting(a.slots[0], q, q > 0)
    ensures a.slots[0].sends == B(q > 0) && a.slots[0].iocnt == 1 + B(q > 0)
  {
    hide RunTo, Small, Waiting;
    if q == 0 {
      run, a := WaitRun();
    } else {
      run, a := SendMany(q - 1);
      SmallShape(a);
      run, a := SendOne(run, a, q - 1, q - 1 > 0);
      SmallShape(a);
    }
  }

  lemma SmallShape(a: Sys)
    requires Small(a)
    ensures |a.slots| == 1 && |a.threads| == 2
  {
  }

  // ----- The two loads, and the batch -----------------------------------------------------

  function LoadPath(s: Slot): seq<Config> {
    [Config(CsDelete(0), s), Config(RsRead(0), s), Config(RsReread(0, 500), s)]
  }

  lemma FirstLoad(g: Globals, s: Slot)
    requires g.reload && s.qsize == 500 && s.ovCnt == 0 && s.ovMsgs == []
    ensures IsPath(g, 0, LoadPath(s))
  {
    var p := LoadPath(s);
    assert s.InOv() == [];
    assert s.h.destroyed + multiset([]) == s.h.destroyed;
    assert s.h.(destroyed := s.h.destroyed + multiset(s.InOv())) == s.h;
    hide StartStep, AcceptStep, RecvStep, BatchStep, LockStep, ReleaseStep, RegisterStep;
    assert SlotStep(g, 0, p[0].pc, p[0].s, g, p[1].s, p[1].pc);
    assert SlotStep(g, 0, p[1].pc, p[1].s, g, p[2].s, p[2].pc);
    hide SlotStep;
    forall k | 0 < k < |p| ensures SlotStep(g, 0, p[k - 1].pc, p[k - 1].s, g, p[k].s, p[k].pc) {
      assert k == 1 || k == 2;
    }
  }

  lemma SecondLoad(g: Globals, s: Slot)
    requires s.qsize == 501
    ensures IsPath(g, 0, [Config(RsReread(0, 500), s), Config(RsCount(0, 501), s)])
  {
    hide StartStep, AcceptStep, RecvStep, BatchStep, LockStep, ReleaseStep, RegisterStep;
  }

  lemma CountStep(g: Globals, s: Slot)
    ensures IsPath(g, 0, [Config(RsCount(0, 501), s), Config(RsTake(0, 501), s.(ovCnt := 501))])
  {
    hide StartStep, AcceptStep, RecvStep, FlagStep, LockStep, ReleaseStep, RegisterStep;
  }

  function BatchPath(s: Slot): seq<Config> {
    var s1 := s.(iocnt := s.iocnt + 1);
    [Config(RsLive(0), s), Config(RsInc(0), s), Config(RsPost(0), s1), Config(HDec(0), Sent(s1))]
  }

  function Sent(s: Slot): Slot {
    s.(sends := s.sends + 1, h := s.h.(batches := s.h.batches + [s.ovMsgs], unsent := []))
  }

  lemma BatchSteps(g: Globals, s: Slot)
    requires s.live && 0 <= s.iocnt < 100
    ensures IsPath(g, 0, BatchPath(s))
  {
    var p := BatchPath(s);
    hide StartStep, AcceptStep, RecvStep, FlagStep, LockStep, ReleaseStep, RegisterStep;
    assert SlotStep(g, 0, p[0].pc, p[0].s, g, p[1].s, p[1].pc);
    assert SlotStep(g, 0, p[1].pc, p[1].s, g, p[2].s, p[2].pc);
    assert SlotStep(g, 0, p[2].pc, p[2].s, g, p[3].s, p[3].pc);
    hide SlotStep;
    forall k | 0 < k < |p| ensures SlotStep(g, 0, p[k - 1].pc, p[k - 1].s, g, p[k].s, p[k].pc) {
      assert k == 1 || k == 2 || k == 3;
    }
  }

  /** 500 messages are queued when the worker loads the length first, and one more when it loads the
      length again. */
  lemma LoadRun() returns (run: seq<Sys>, a: Sys)
    ensures RunTo(run, a) && Small(a) && a.threads == [RsCount(0, 501), Idle]
    ensures Waiting(a.slots[0], 501, true) && a.slots[0].sends == 0 && a.slots[0].iocnt == 2
  {
    hide SlotStep, RunTo, IsPath;
    run, a := SendMany(500);
    var s := a.slots[0];
    PickSend(a.g, s);
    var s0 := s.(sends := 0);
    run, a := Follow(run, a, 0, [Config(Idle, s), Config(CsDelete(0), s0)], Config(CsDelete(0), s0));
    FirstLoad(a.g, s0);
    run, a := Follow(run, a, 0, LoadPath(s0), Config(RsReread(0, 500), s0));
    run, a := SendOne(run, a, 500, true);
    var s1 := a.slots[0];
    SecondLoad(a.g, s1);
    run, a := Follow(run, a, 0, [Config(RsReread(0, 500), s1), Config(RsCount(0, 501), s1)], Config(RsCount(0, 501), s1));
    assert a.threads == [RsCount(0, 501), Idle];
  }

  /** The overlong batch goes out. */
  lemma OversizeReached() returns (run: seq<Sys>, a: Sys)
    ensures RunTo(run, a) && |a.slots| == 1 && a.slots[0].phase.Active?
    ensures |a.slots[0].h.batches| == 1 && |a.slots[0].h.batches[0]| == 501
  {
    hide SlotStep, RunTo, IsPath;
    run, a := LoadRun();
    var s := a.slots[0].(ovCnt := 501);
    CountStep(a.g, a.slots[0]);
    run, a := Follow(run, a, 0, [Config(RsCount(0, 501), a.slots[0]), Config(RsTake(0, 501), s)], Config(RsTake(0, 501), s));
    var path := FillBatchPath(a.g, 0, s, 501, 501);
    run, a := Follow(run, a, 0, path, Config(RsLive(0), Taken(s, 501)));
    var s1 := a.slots[0];
    assert s1.ovMsgs == s.queue[..501];
    BatchSteps(a.g, s1);
    run, a := Follow(run, a, 0, BatchPath(s1), Config(HDec(0), Sent(s1.(iocnt := s1.iocnt + 1))));
  }
}
