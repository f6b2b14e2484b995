/**
 What one call of the object pool has done by the time it returns: Alloc reuses a free node and
 creates one only when it has found none, Release puts its node on the free list; and a call only
 has to try again because another call has succeeded.
 */
module PoolCalls {
  import opened TaggedPtr
  import opened ObjectPool

  // ----- Runs with a schedule -------------------------------------------------------------

  /** States that follow on a run, and the thread that takes the step from each to the next. */
  ghost predicate IsTrace(run: seq<State>, who: seq<nat>) {
    && |run| == |who| + 1 && Inv(run[0])
    && forall k :: 0 <= k < |who| ==> StepBy(run[k], who[k], run[k + 1])
  }

  lemma {:induction false} TraceInv(run: seq<State>, who: seq<nat>, k: nat)
    requires IsTrace(run, who) && k < |run|
    ensures Inv(run[k])
  {
    hide Inv, StepBy;
    if k > 0 {
      TraceInv(run, who, k - 1);
      assert StepBy(run[k - 1], who[k - 1], run[k - 1 + 1]);
      StepKeepsInv(run[k - 1], who[k - 1], run[k]);
    }
  }

  lemma ShorterTrace(run: seq<State>, who: seq<nat>)
    requires IsTrace(run, who) && who != []
    ensures IsTrace(run[..|who|], who[..|who| - 1])
    ensures StepBy(run[|who| - 1], who[|who| - 1], run[|who|]) && Inv(run[|who| - 1])
  {
    hide StepBy, Inv;
    var front := run[..|who|];
    forall k | 0 <= k < |who| - 1 ensures StepBy(front[k], who[k], front[k + 1]) {
      assert StepBy(run[k], who[k], run[k + 1]);
    }
    var k := |who| - 1;
    TraceInv(run, who, k);
    assert StepBy(run[k], who[k], run[k + 1]);
  }

  /** What a step does to the nodes: one is created, taken off the free list, or put on it. */
  datatype Deed = Created(n: int) | Reused(n: int) | Freed(n: int)

  function Deeds(s: State, s': State): seq<Deed> {
    if |s.mem| < |s'.mem| then [Created(|s.mem|)]
    else if |s.links| < |s'.links| then [Freed(s'.links[0].node)]
    else if |s'.links| < |s.links| then [Reused(s.links[0].node)]
    else []
  }

  /** The deeds of thread t. */
  function Own(run: seq<State>, who: seq<nat>, t: nat): seq<Deed>
    requires |run| == |who| + 1
  {
    if who == [] then []
    else
      var n := |who| - 1;
      Own(run[..n + 1], who[..n], t) + if who[n] == t then Deeds(run[n], run[n + 1]) else []
  }

  /** The steps that thread t has taken. */
  function Steps(who: seq<nat>, t: nat): nat {
    if who == [] then 0 else Steps(who[..|who| - 1], t) + if who[|who| - 1] == t then 1 else 0
  }

  /** With its first step thread t has begun a call, and it has not returned since. */
  ghost predicate Busy(run: seq<State>, who: seq<nat>, t: nat) {
    && IsTrace(run, who) && who != [] && who[0] == t < |run[0].threads| && run[0].threads[t] == Idle
    && forall k :: 1 <= k < |run| ==> t < |run[k].threads| && run[k].threads[t] != Idle
  }

  /** With its first step thread t has begun a call, and with the last one it returns. */
  ghost predicate Call(run: seq<State>, who: seq<nat>, t: nat) {
    && |who| >= 2 && |run| == |who| + 1 && Busy(run[..|who|], who[..|who| - 1], t)
    && StepBy(run[|who| - 1], who[|who| - 1], run[|who|])
    && t < |run[|who|].threads| && run[|who|].threads[t] == Idle
  }

  /** The thread has looked at the free list and found it empty. */
  ghost predicate FoundEmpty(run: seq<State>, who: seq<nat>, t: nat) {
    exists k :: 0 <= k < |who| && k < |run| && who[k] == t < |run[k].threads| && run[k].threads[t] == AlRead
                && run[k].links == []
  }

  // ----- One step of the call -------------------------------------------------------------

  /** What has become of a call that began at first, when it stands at pc after these deeds. */
  predicate Progress(first: PC, pc: PC, own: seq<Deed>, empty: bool) {
    match first
    case AlRead =>
      if pc.AlNew? then own == [] && empty
      else if pc.AlCountNew? then own == [Created(pc.n)] && empty
      else if pc.AlCount? then (own == [Created(pc.n)] && empty) || own == [Reused(pc.n)]
      else (pc.AlRead? || pc.AlNext? || pc.AlSeq? || pc.AlCas?) && own == []
    case ReTag(n) =>
      if pc.ReCount? then own == [Freed(n)]
      else (pc.ReTag? || pc.ReRead? || pc.ReNext? || pc.ReSeq? || pc.ReCas?) && pc.n == n && own == []
    case _ => false
  }

  predicate Done(first: PC, pc: PC, own: seq<Deed>, empty: bool) {
    match first
    case AlRead => pc.AlCount? && ((own == [Created(pc.n)] && empty) || own == [Reused(pc.n)])
    case ReTag(n) => pc.ReCount? && own == [Freed(n)]
    case _ => false
  }

  lemma CallBegins(s: State, t: nat, s': State)
    requires StepBy(s, t, s') && s.threads[t] == Idle
    ensures s'.threads[t] != Idle && Deeds(s, s') == [] && Progress(s'.threads[t], s'.threads[t], [], false)
    ensures if s'.threads[t].ReTag? then s'.threads[t].n in s.active && s'.active == s.active - {s'.threads[t].n}
            else s'.active == s.active
    ensures s' == s.(threads := s'.threads, active := s'.active)
  {
    hide AllocStep, ReleaseStep;
  }

  /** In every run, a look at the top leads to the creation of a node if and only if there is no
      free one. */
  lemma CreatesIffEmpty(run: seq<State>, who: seq<nat>, t: nat)
    requires IsTrace(run, who) && who != [] && who[|who| - 1] == t
    requires t < |run[|who| - 1].threads| && run[|who| - 1].threads[t] == AlRead
    ensures t < |run[|who|].threads|
    ensures run[|who|].threads[t] == AlNew <==> run[|who| - 1].links == []
    ensures run[|who| - 1].links != [] ==> run[|who|].threads[t] == AlNext(run[|who| - 1].links[0])
  {
    hide StepBy, Inv;
    ShorterTrace(run, who);
    LookAtTop(run[|who| - 1], t, run[|who|]);
  }

  lemma LookAtTop(s: State, t: nat, s': State)
    requires Inv(s) && StepBy(s, t, s') && s.threads[t] == AlRead
    ensures t < |s'.threads|
    ensures s'.threads[t] == if s.links == [] then AlNew else AlNext(s.links[0])
  {
    hide CallStep, ReleaseStep, ThreadsInv, ActiveInv, MemInv, CountInv;
  }

  lemma AllocStepOn(s: State, t: nat, s': State, own: seq<Deed>, empty: bool)
    requires Inv(s) && t < |s.threads| && Progress(AlRead, s.threads[t], own, empty)
    requires AllocStep(s, t, s')
    ensures var now := empty || (s.threads[t].AlRead? && s.links == []);
            if s'.threads[t] == Idle then Done(AlRead, s.threads[t], own + Deeds(s, s'), now)
            else Progress(AlRead, s'.threads[t], own + Deeds(s, s'), now)
  {
    hide ActiveInv, MemInv, CountInv;
    if s.threads[t].AlCas? && s.top == s.threads[t].seen { TakenIsTop(s, t); }
    hide ThreadsInv;
  }

  lemma ReleaseStepOn(s: State, t: nat, s': State, first: PC, own: seq<Deed>, empty: bool)
    requires t < |s.threads| && first.ReTag? && Progress(first, s.threads[t], own, empty)
    requires ReleaseStep(s, t, s')
    ensures if s'.threads[t] == Idle then Done(first, s.threads[t], own + Deeds(s, s'), empty)
            else Progress(first, s'.threads[t], own + Deeds(s, s'), empty)
  {
  }

  lemma OtherStep(s: State, u: nat, s': State, t: nat)
    requires StepBy(s, u, s') && t != u && t < |s.threads|
    ensures |s'.threads| == |s.threads| && s'.threads[t] == s.threads[t]
  {
  }

  lemma OneStepOn(s: State, t: nat, s': State, first: PC, own: seq<Deed>, empty: bool)
    requires Inv(s) && StepBy(s, t, s') && Progress(first, s.threads[t], own, empty)
    ensures var now := empty || (s.threads[t].AlRead? && s.links == []);
            if s'.threads[t] == Idle then Done(first, s.threads[t], own + Deeds(s, s'), now)
            else Progress(first, s'.threads[t], own + Deeds(s, s'), now)
  {
    hide Inv, Deeds, CallStep, AllocStep, ReleaseStep;
    if first == AlRead {
      AllocStepOn(s, t, s', own, empty);
    } else {
      ReleaseStepOn(s, t, s', first, own, empty);
    }
  }

  lemma BusyBefore(run: seq<State>, who: seq<nat>, t: nat)
    requires Busy(run, who, t) && |who| >= 2
    ensures Busy(run[..|who|], who[..|who| - 1], t)
    ensures StepBy(run[|who| - 1], who[|who| - 1], run[|who|]) && Inv(run[|who| - 1])
    ensures run[1] == run[..|who|][1] && run[|who| - 1] == run[..|who|][|who| - 1]
  {
    hide StepBy, Inv;
    ShorterTrace(run, who);
    assert forall k :: 1 <= k < |who| ==> run[..|who|][k] == run[k];
  }

  lemma FoundLater(run: seq<State>, who: seq<nat>, t: nat)
    requires |run| == |who| + 1 && who != []
    ensures var n := |who| - 1;
            FoundEmpty(run, who, t) <==>
              FoundEmpty(run[..n + 1], who[..n], t)
              || (who[n] == t < |run[n].threads| && run[n].threads[t] == AlRead && run[n].links == [])
  {
    var n := |who| - 1;
    if FoundEmpty(run[..n + 1], who[..n], t) {
      var k :| 0 <= k < n && who[..n][k] == t < |run[..n + 1][k].threads| && run[..n + 1][k].threads[t] == AlRead
               && run[..n + 1][k].links == [];
      assert who[k] == t && run[k] == run[..n + 1][k];
    }
    if FoundEmpty(run, who, t) {
      var k :| 0 <= k < |who| && who[k] == t < |run[k].threads| && run[k].threads[t] == AlRead && run[k].links == [];
      if k < n { assert who[..n][k] == t && run[k] == run[..n + 1][k]; }
    }
  }

  lemma {:induction false} Underway(run: seq<State>, who: seq<nat>, t: nat)
    requires Busy(run, who, t)
    ensures Progress(run[1].threads[t], run[|who|].threads[t], Own(run, who, t), FoundEmpty(run, who, t))
  {
    hide StepBy, Inv, Progress, Done, Deeds, FoundEmpty;
    var n := |who| - 1;
    FoundLater(run, who, t);
    if n == 0 {
      ShorterTrace(run, who);
      CallBegins(run[0], t, run[1]);
      NothingFound(run[..1], who[..0], t);
      assert Own(run[..1], who[..0], t) == [];
    } else {
      BusyBefore(run, who, t);
      Underway(run[..n + 1], who[..n], t);
      if who[n] == t {
        OneStepOn(run[n], t, run[n + 1], run[1].threads[t], Own(run[..n + 1], who[..n], t),
                  FoundEmpty(run[..n + 1], who[..n], t));
      } else {
        OtherStep(run[n], who[n], run[n + 1], t);
        assert Own(run, who, t) == Own(run[..n + 1], who[..n], t);
      }
    }
  }

  lemma NothingFound(run: seq<State>, who: seq<nat>, t: nat)
    requires who == []
    ensures !FoundEmpty(run, who, t)
  {
  }

  lemma Returning(s: State, t: nat, s': State)
    requires Inv(s) && StepBy(s, t, s') && s.threads[t].AlCount?
    ensures s.threads[t].n !in s.active && s'.active == s.active + {s.threads[t].n}
  {
    hide Inv, CallStep, ReleaseStep;
    AlCountKeeps(s, t, s');
  }

  /** Whatever the others do: an Alloc that returns has taken one node off the free list, or has found
      the list empty and created one; that node, and no other, is in use from then on, and was not.
      A Release that returns has put its node on the free list, once, and done nothing else. */
  lemma CallOutcome(run: seq<State>, who: seq<nat>, t: nat)
    requires Call(run, who, t)
    ensures who[|who| - 1] == t
    ensures var last, s, s' := run[|who| - 1].threads[t], run[|who| - 1], run[|who|];
            match run[1].threads[t]
            case AlRead =>
              && last.AlCount? && last.n !in s.active && s'.active == s.active + {last.n}
              && (Own(run, who, t) == [Reused(last.n)]
                  || (Own(run, who, t) == [Created(last.n)] && FoundEmpty(run, who, t)))
            case ReTag(n) => n in run[0].active && run[1].active == run[0].active - {n} && Own(run, who, t) == [Freed(n)]
            case _ => false
  {
    hide StepBy, Inv, Progress, Deeds, FoundEmpty;
    var n := |who| - 1;
    Underway(run[..n + 1], who[..n], t);
    if who[n] != t {
      OtherStep(run[n], who[n], run[n + 1], t);
      assert false;
    }
    TraceInv(run[..n + 1], who[..n], n);
    FoundLater(run, who, t);
    FirstStep(run[..n + 1], who[..n], t);
    OneStepOn(run[n], t, run[n + 1], run[1].threads[t], Own(run[..n + 1], who[..n], t),
              FoundEmpty(run[..n + 1], who[..n], t));
    if run[n].threads[t].AlCount? { Returning(run[n], t, run[n + 1]); }
  }

  lemma FirstStep(run: seq<State>, who: seq<nat>, t: nat)
    requires Busy(run, who, t)
    ensures StepBy(run[0], t, run[1])
    ensures if run[1].threads[t].ReTag? then
              run[1].threads[t].n in run[0].active && run[1].active == run[0].active - {run[1].threads[t].n}
            else run[1].active == run[0].active
    ensures run[1].links == run[0].links && run[1].mem == run[0].mem && run[1].allocCnt == run[0].allocCnt
  {
    hide StepBy, Inv;
    assert StepBy(run[0], who[0], run[0 + 1]);
    CallBegins(run[0], t, run[1]);
  }

  // ----- A call that nobody interrupts ----------------------------------------------------

  predicate Same(s0: State, s: State) {
    s.mem == s0.mem && s.links == s0.links && s.allocCnt == s0.allocCnt
  }

  /** How far an Alloc has come that began in s0 and was not interrupted. */
  predicate AllocAlone(s0: State, s: State, pc: PC) {
    match pc
    case AlRead => Same(s0, s) && s.active == s0.active
    case AlNext(seen) => Same(s0, s) && s.active == s0.active && s0.links != [] && seen == s0.links[0]
    case AlSeq(seen, _) => Same(s0, s) && s.active == s0.active && s0.links != [] && seen == s0.links[0]
    case AlCas(seen, _) => Same(s0, s) && s.active == s0.active && s0.links != [] && seen == s0.links[0]
    case AlNew => Same(s0, s) && s.active == s0.active && s0.links == []
    case AlCountNew(n) =>
      && s0.links == s.links == [] && s.mem == s0.mem + [Node(NULL, 0)] && s.allocCnt == s0.allocCnt
      && s.active == s0.active && n == |s0.mem|
    case AlCount(n) => AllocatedAlone(s0, s, n) && s.active == s0.active
    case _ => false
  }

  predicate AllocatedAlone(s0: State, s: State, n: int) {
    if s0.links != [] then
      && n == s0.links[0].node && s.links == s0.links[1..] && s.mem == s0.mem && s.allocCnt == s0.allocCnt
    else
      && n == |s0.mem| && s.links == [] && s.mem == s0.mem + [Node(NULL, 0)] && s.allocCnt == s0.allocCnt + 1
  }

  lemma AllocAloneOn(s0: State, s: State, t: nat, s': State)
    requires Inv(s) && t < |s.threads| && AllocAlone(s0, s, s.threads[t]) && AllocStep(s, t, s')
    ensures if s'.threads[t] == Idle then
              s.threads[t].AlCount? && AllocatedAlone(s0, s', s.threads[t].n) && s'.active == s0.active + {s.threads[t].n}
            else AllocAlone(s0, s', s'.threads[t])
  {
    hide ActiveInv, MemInv, CountInv, ThreadsInv;
  }

  /** How far a Release of n has come that began in s0 and was not interrupted. */
  predicate ReleaseAlone(s0: State, s: State, n: int, pc: PC) {
    && |s.mem| == |s0.mem| && s.allocCnt == s0.allocCnt && s.active == s0.active - {n}
    && if pc.ReCount? then s.links != [] && s.links[0].node == n && s.links[1..] == s0.links
       else (pc.ReTag? || pc.ReRead? || pc.ReNext? || pc.ReSeq? || pc.ReCas?) && pc.n == n && s.links == s0.links
  }

  lemma ReleaseAloneOn(s0: State, s: State, t: nat, s': State, n: int)
    requires t < |s.threads| && ReleaseAlone(s0, s, n, s.threads[t]) && ReleaseStep(s, t, s')
    ensures if s'.threads[t] == Idle then ReleaseAlone(s0, s', n, ReCount) else ReleaseAlone(s0, s', n, s'.threads[t])
  {
  }

  predicate Alone(s0: State, s: State, first: PC, pc: PC) {
    if first.ReTag? then ReleaseAlone(s0, s, first.n, pc) else first == AlRead && AllocAlone(s0, s, pc)
  }

  predicate DoneAlone(s0: State, s: State, first: PC, last: PC) {
    if first.ReTag? then ReleaseAlone(s0, s, first.n, ReCount)
    else last.AlCount? && AllocatedAlone(s0, s, last.n) && s.active == s0.active + {last.n}
  }

  lemma AloneOn(s0: State, s: State, t: nat, s': State, first: PC)
    requires Inv(s) && StepBy(s, t, s') && Alone(s0, s, first, s.threads[t])
    ensures if s'.threads[t] == Idle then DoneAlone(s0, s', first, s.threads[t]) else Alone(s0, s', first, s'.threads[t])
  {
    hide Inv, CallStep, AllocStep, ReleaseStep, AllocatedAlone, Same;
    if first.ReTag? {
      ReleaseAloneOn(s0, s, t, s', first.n);
    } else {
      AllocAloneOn(s0, s, t, s');
    }
  }

  lemma AloneBegins(s: State, t: nat, s': State)
    requires StepBy(s, t, s') && s.threads[t] == Idle
    ensures Alone(s, s', s'.threads[t], s'.threads[t])
  {
    hide AllocStep, ReleaseStep;
  }

  lemma {:induction false} AloneUnderway(run: seq<State>, who: seq<nat>, t: nat)
    requires Busy(run, who, t) && forall k :: 0 <= k < |who| ==> who[k] == t
    ensures Alone(run[0], run[|who|], run[1].threads[t], run[|who|].threads[t])
  {
    hide StepBy, Inv, Alone, DoneAlone;
    var n := |who| - 1;
    if n == 0 {
      ShorterTrace(run, who);
      AloneBegins(run[0], t, run[1]);
    } else {
      BusyBefore(run, who, t);
      assert who[n] == t;
      AloneUnderway(run[..n + 1], who[..n], t);
      AloneOn(run[0], run[n], t, run[n + 1], run[1].threads[t]);
    }
  }

  lemma AloneReturns(run: seq<State>, who: seq<nat>, t: nat)
    requires Call(run, who, t) && forall k :: 0 <= k < |who| ==> who[k] == t
    ensures DoneAlone(run[0], run[|who|], run[1].threads[t], run[|who| - 1].threads[t])
  {
    hide StepBy, Inv, Alone, DoneAlone;
    var n := |who| - 1;
    assert who[n] == t;
    AloneUnderway(run[..n + 1], who[..n], t);
    TraceInv(run[..n + 1], who[..n], n);
    AloneOn(run[0], run[n], t, run[n + 1], run[1].threads[t]);
  }

  /** With nobody in between, Alloc returns the top of the free list and creates nothing, or creates
      one node if the list is empty. */
  lemma AllocReuses(run: seq<State>, who: seq<nat>, t: nat)
    requires Call(run, who, t) && (forall k :: 0 <= k < |who| ==> who[k] == t) && run[1].threads[t] == AlRead
    ensures var s, s' := run[0], run[|who|];
            if s.links != [] then
              && s'.active == s.active + {s.links[0].node} && s'.links == s.links[1..]
              && s'.mem == s.mem && s'.allocCnt == s.allocCnt
            else
              && s'.active == s.active + {|s.mem|} && s'.links == []
              && |s'.mem| == |s.mem| + 1 && s'.allocCnt == s.allocCnt + 1
  {
    hide StepBy, Inv;
    AloneReturns(run, who, t);
  }

  /** With nobody in between, Release puts the node on top of the free list. */
  lemma ReleaseFrees(run: seq<State>, who: seq<nat>, t: nat)
    requires Call(run, who, t) && (forall k :: 0 <= k < |who| ==> who[k] == t) && run[1].threads[t].ReTag?
    ensures var s, s', n := run[0], run[|who|], run[1].threads[t].n;
            && s'.links != [] && s'.links[0].node == n && s'.links[1..] == s.links
            && n in s.active && s'.active == s.active - {n} && |s'.mem| == |s.mem| && s'.allocCnt == s.allocCnt
  {
    hide StepBy, Inv;
    AloneReturns(run, who, t);
    FirstStep(run[..|who|], who[..|who| - 1], t);
  }

  // ----- Nobody waits ---------------------------------------------------------------------

  /** How often the free list has changed. */
  function Changes(run: seq<State>): nat {
    if |run| <= 1 then 0
    else Changes(run[..|run| - 1]) + if run[|run| - 2].links != run[|run| - 1].links then 1 else 0
  }

  /** Of how many steps a call that stands at pc has made use, up to repetitions of its loop. */
  function Useful(pc: PC): nat {
    match pc
    case AlNext(_) => 2
    case AlSeq(_, _) => 3
    case AlCas(_, _) => 4
    case AlNew => 2
    case AlCountNew(_) => 3
    case AlCount(_) => 4
    case ReRead(_, _) => 2
    case ReNext(_, _, _) => 3
    case ReSeq(_, _, _) => 4
    case ReCas(_, _, _) => 5
    case ReCount => 2
    case _ => 1
  }

  /** Every turn in vain is paid for by a change of the free list, g in all. */
  predicate Paid(s: State, pc: PC, steps: nat, g: int) {
    steps + (if HasSeen(pc) && s.top != pc.seen then 4 else 0) <= Useful(pc) + 4 * g
  }

  function Changed(s: State, s': State): nat { if s.links != s'.links then 1 else 0 }

  lemma TopMoves(s: State, t: nat, s': State)
    requires Inv(s) && Inv(s') && StepBy(s, t, s')
    ensures s'.top != s.top ==> Changed(s, s') == 1
  {
    hide StepBy, ActiveInv, MemInv, CountInv, ThreadsInv;
  }

  lemma FirstStepPaid(s: State, t: nat, s': State)
    requires StepBy(s, t, s') && s.threads[t] == Idle
    ensures Paid(s', s'.threads[t], 1, Changed(s, s'))
  {
    hide AllocStep, ReleaseStep;
  }

  lemma AllocStepPaid(s: State, t: nat, s': State, steps: nat, g: int)
    requires Inv(s) && t < |s.threads|
    requires var pc := s.threads[t];
             pc.AlRead? || pc.AlNext? || pc.AlSeq? || pc.AlCas? || pc.AlNew? || pc.AlCountNew? || pc.AlCount?
    requires AllocStep(s, t, s') && Paid(s, s.threads[t], steps, g)
    ensures s'.threads[t] != Idle ==> Paid(s', s'.threads[t], steps + 1, g + Changed(s, s'))
  {
    hide ActiveInv, MemInv, CountInv;
    if s.threads[t].AlCas? && s.top == s.threads[t].seen { TakenIsTop(s, t); }
    hide ThreadsInv;
  }

  lemma ReleaseStepPaid(s: State, t: nat, s': State, steps: nat, g: int)
    requires t < |s.threads|
    requires var pc := s.threads[t];
             pc.ReTag? || pc.ReRead? || pc.ReNext? || pc.ReSeq? || pc.ReCas? || pc.ReCount?
    requires ReleaseStep(s, t, s') && Paid(s, s.threads[t], steps, g)
    ensures s'.threads[t] != Idle ==> Paid(s', s'.threads[t], steps + 1, g + Changed(s, s'))
  {
    if s.threads[t].ReCas? && s.top == s.threads[t].seen { assert |s'.links| != |s.links|; }
  }

  lemma OwnStepPaid(s: State, t: nat, s': State, steps: nat, g: int)
    requires Inv(s) && StepBy(s, t, s') && s.threads[t] != Idle && Paid(s, s.threads[t], steps, g)
    ensures s'.threads[t] != Idle ==> Paid(s', s'.threads[t], steps + 1, g + Changed(s, s'))
  {
    hide Inv, Paid, Changed, CallStep, AllocStep, ReleaseStep;
    var pc := s.threads[t];
    if pc.AlRead? || pc.AlNext? || pc.AlSeq? || pc.AlCas? || pc.AlNew? || pc.AlCountNew? || pc.AlCount? {
      AllocStepPaid(s, t, s', steps, g);
    } else {
      ReleaseStepPaid(s, t, s', steps, g);
    }
  }

  lemma OtherStepPaid(s: State, u: nat, s': State, pc: PC, steps: nat, g: int)
    requires Inv(s) && StepBy(s, u, s') && Paid(s, pc, steps, g)
    ensures Paid(s', pc, steps, g + Changed(s, s'))
  {
    StepKeepsInv(s, u, s');
    hide StepBy, Inv;
    TopMoves(s, u, s');
  }

  lemma {:induction false} AllPaid(run: seq<State>, who: seq<nat>, t: nat)
    requires Busy(run, who, t)
    ensures Paid(run[|who|], run[|who|].threads[t], Steps(who, t), Changes(run))
  {
    hide StepBy, Inv, Paid;
    var n := |who| - 1;
    assert run[..|run| - 1] == run[..n + 1];
    if n == 0 {
      ShorterTrace(run, who);
      FirstStepPaid(run[0], t, run[1]);
      assert Steps(who[..0], t) == 0 && Changes(run[..1]) == 0;
    } else {
      BusyBefore(run, who, t);
      AllPaid(run[..n + 1], who[..n], t);
      if who[n] == t {
        OwnStepPaid(run[n], t, run[n + 1], Steps(who[..n], t), Changes(run[..n + 1]));
      } else {
        OtherStep(run[n], who[n], run[n + 1], t);
        OtherStepPaid(run[n], who[n], run[n + 1], run[n].threads[t], Steps(who[..n], t), Changes(run[..n + 1]));
      }
    }
  }

  /** Lock freedom, with its bound: a call repeats its loop only as often as the free list changes
      meanwhile. It takes at most 5 steps and 4 for each change without returning. */
  lemma CallsAreLockFree(run: seq<State>, who: seq<nat>, t: nat)
    requires Busy(run, who, t)
    ensures Steps(who, t) <= 5 + 4 * Changes(run)
  {
    hide StepBy, Inv;
    AllPaid(run, who, t);
  }
}
