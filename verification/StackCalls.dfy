/**
 What one call of the lock-free stack has done by the time it returns, whatever the other threads
 do in between; that no value is lost; and that a call only has to try again because another call
 has succeeded.
 */
module StackCalls {
  import opened TaggedPtr
  import opened TreiberStack

  // ----- Runs with a schedule -------------------------------------------------------------

  /** States, and the thread that takes the step from each to the next. */
  ghost predicate IsTrace(run: seq<State>, who: seq<nat>) {
    && |run| == |who| + 1
    && forall k :: 0 <= k < |who| ==> StepBy(run[k], who[k], run[k + 1])
  }

  lemma ShorterTrace(run: seq<State>, who: seq<nat>)
    requires IsTrace(run, who) && who != []
    ensures IsTrace(run[..|who|], who[..|who| - 1])
    ensures StepBy(run[|who| - 1], who[|who| - 1], run[|who|])
  {
    hide StepBy;
    var front := run[..|who|];
    forall k | 0 <= k < |who| - 1 ensures StepBy(front[k], who[k], front[k + 1]) {
      assert StepBy(run[k], who[k], run[k + 1]);
    }
    var k := |who| - 1;
    assert StepBy(run[k], who[k], run[k + 1]);
  }

  /** What a step has appended to the log. */
  function Appended(s: State, s': State): seq<Op> {
    if |s.log| <= |s'.log| then s'.log[|s.log|..] else []
  }

  /** What the steps of thread t have appended. */
  function Own(run: seq<State>, who: seq<nat>, t: nat): seq<Op>
    requires |run| == |who| + 1
  {
    if who == [] then []
    else
      var n := |who| - 1;
      Own(run[..n + 1], who[..n], t) + if who[n] == t then Appended(run[n], run[n + 1]) else []
  }

  /** The steps that thread t has taken. */
  function Steps(who: seq<nat>, t: nat): nat {
    if who == [] then 0 else Steps(who[..|who| - 1], t) + if who[|who| - 1] == t then 1 else 0
  }

  /** With its first step thread t has begun a call, and it has not returned since. */
  ghost predicate Busy(run: seq<State>, who: seq<nat>, t: nat) {
    && IsTrace(run, who) && who != [] && who[0] == t < |run[0].threads| && run[0].threads[t] == Idle
    && forall k :: 1 <= k < |run| ==> t < |run[k].threads| && run[k].threads[t] != Idle
  }

  /** With its first step thread t has begun a call, and with the last one it returns. */
  ghost predicate Call(run: seq<State>, who: seq<nat>, t: nat) {
    && |who| >= 2 && |run| == |who| + 1 && Busy(run[..|who|], who[..|who| - 1], t)
    && StepBy(run[|who| - 1], who[|who| - 1], run[|who|])
    && t < |run[|who|].threads| && run[|who|].threads[t] == Idle
  }

  // ----- One step of the call -------------------------------------------------------------

  /** What has become of a call that began at first, when it stands at pc with these entries. */
  predicate Progress(first: PC, pc: PC, own: seq<Op>) {
    match first
    case PuData(_, x) =>
      if pc == PuCount then own == [Pushed(x)]
      else (pc.PuData? || pc.PuTag? || pc.PuRead? || pc.PuLink? || pc.PuCas?) && pc.x == x && own == []
    case PoUndo => pc == PoUndo && own == []
    case PoRead =>
      if pc.PoFree? then own == [Popped(pc.x)]
      else (pc.PoRead? || pc.PoNext? || pc.PoData? || pc.PoCas?) && own == []
    case _ => false
  }

  /** What a call has done that returns from pc. */
  predicate Done(first: PC, pc: PC, own: seq<Op>) {
    match first
    case PuData(_, x) => own == [Pushed(x)]
    case PoUndo => own == []
    case PoRead => pc.PoFree? && own == [Popped(pc.x)]
    case _ => false
  }

  lemma CallBegins(s: State, t: nat, s': State)
    requires StepBy(s, t, s') && s.threads[t] == Idle && s'.threads[t] != Idle
    ensures Appended(s, s') == [] && Progress(s'.threads[t], s'.threads[t], [])
  {
    hide InPool, PushStep, PopStep;
  }

  lemma OneStepOn(s: State, t: nat, s': State, first: PC, own: seq<Op>)
    requires StepBy(s, t, s') && Progress(first, s.threads[t], own)
    ensures if s'.threads[t] == Idle then Done(first, s.threads[t], own + Appended(s, s'))
            else Progress(first, s'.threads[t], own + Appended(s, s'))
  {
  }

  lemma OtherStep(s: State, u: nat, s': State, t: nat)
    requires StepBy(s, u, s') && t != u && t < |s.threads|
    ensures |s'.threads| == |s.threads| && s'.threads[t] == s.threads[t]
  {
    hide InPool;
  }

  lemma BusyBefore(run: seq<State>, who: seq<nat>, t: nat)
    requires Busy(run, who, t) && |who| >= 2
    ensures Busy(run[..|who|], who[..|who| - 1], t)
    ensures StepBy(run[|who| - 1], who[|who| - 1], run[|who|])
    ensures run[1] == run[..|who|][1] && run[|who| - 1] == run[..|who|][|who| - 1]
  {
    hide StepBy;
    ShorterTrace(run, who);
    assert forall k :: 1 <= k < |who| ==> run[..|who|][k] == run[k];
  }

  lemma {:induction false} Underway(run: seq<State>, who: seq<nat>, t: nat)
    requires Busy(run, who, t)
    ensures Progress(run[1].threads[t], run[|who|].threads[t], Own(run, who, t))
  {
    hide StepBy, Progress, Done, Appended;
    var n := |who| - 1;
    if n == 0 {
      ShorterTrace(run, who);
      CallBegins(run[0], t, run[1]);
      assert Own(run[..1], who[..0], t) == [];
    } else {
      BusyBefore(run, who, t);
      Underway(run[..n + 1], who[..n], t);
      if who[n] == t {
        OneStepOn(run[n], t, run[n + 1], run[1].threads[t], Own(run[..n + 1], who[..n], t));
      } else {
        OtherStep(run[n], who[n], run[n + 1], t);
        assert Own(run, who, t) == Own(run[..n + 1], who[..n], t);
      }
    }
  }

  /** Whatever the others do: a Push of x that returns has linked x exactly once, and done nothing
      else; a Pop that returns false has done nothing; one that returns a value has taken exactly
      one value off the stack, and returns that. */
  lemma CallOutcome(run: seq<State>, who: seq<nat>, t: nat)
    requires Call(run, who, t)
    ensures who[|who| - 1] == t
    ensures match run[1].threads[t]
            case PuData(_, x) => Own(run, who, t) == [Pushed(x)]
            case PoUndo => Own(run, who, t) == []
            case PoRead => run[|who| - 1].threads[t].PoFree? && Own(run, who, t) == [Popped(run[|who| - 1].threads[t].x)]
            case _ => false
  {
    hide StepBy, Progress, Appended;
    var n := |who| - 1;
    Underway(run[..n + 1], who[..n], t);
    if who[n] != t {
      OtherStep(run[n], who[n], run[n + 1], t);
      assert false;
    }
    OneStepOn(run[n], t, run[n + 1], run[1].threads[t], Own(run[..n + 1], who[..n], t));
  }

  // ----- Nobody waits ---------------------------------------------------------------------

  /** Of how many steps a call that stands at pc has made use, up to repetitions of its loop. */
  function Useful(pc: PC): nat {
    match pc
    case PuData(_, _) => 1
    case PuTag(_, _) => 2
    case PuRead(_, _, _) => 3
    case PuLink(_, _, _, _) => 4
    case PuCas(_, _, _, _) => 5
    case PuCount => 3
    case PoNext(_) => 2
    case PoData(_, _) => 3
    case PoCas(_, _, _) => 4
    case _ => 1
  }

  /** The steps of one turn of its loop. */
  function Round(pc: PC): nat {
    if pc.PuData? || pc.PuTag? || pc.PuRead? || pc.PuLink? || pc.PuCas? || pc.PuCount? then 3 else 4
  }

  /** The top is not what the call has read any more: the turn will be in vain. */
  predicate Late(s: State, pc: PC) { HasSeen(pc) && s.top != pc.seen }

  /** Every turn in vain is paid for by an entry in the log, g in all. */
  predicate Paid(s: State, pc: PC, steps: nat, g: int) {
    steps + (if Late(s, pc) then Round(pc) else 0) <= Useful(pc) + Round(pc) * g
  }

  lemma TopMoves(s: State, t: nat, s': State)
    requires StepBy(s, t, s')
    ensures |s'.log| == |s.log| || |s'.log| == |s.log| + 1
    ensures s'.top != s.top ==> |s'.log| == |s.log| + 1
  {
    hide InPool;
  }

  lemma OwnStepPaid(s: State, t: nat, s': State, steps: nat, g: int)
    requires StepBy(s, t, s') && s.threads[t] != Idle && Paid(s, s.threads[t], steps, g)
    ensures s'.threads[t] != Idle ==> Paid(s', s'.threads[t], steps + 1, g + |s'.log| - |s.log|)
  {
  }

  lemma OtherStepPaid(s: State, u: nat, s': State, pc: PC, steps: nat, g: int)
    requires StepBy(s, u, s') && Paid(s, pc, steps, g)
    ensures Paid(s', pc, steps, g + |s'.log| - |s.log|)
  {
    hide StepBy;
    TopMoves(s, u, s');
  }

  lemma {:induction false} AllPaid(run: seq<State>, who: seq<nat>, t: nat)
    requires Busy(run, who, t)
    ensures Paid(run[|who|], run[|who|].threads[t], Steps(who, t), |run[|who|].log| - |run[0].log|)
  {
    hide StepBy, Paid;
    var n := |who| - 1;
    if n == 0 {
      ShorterTrace(run, who);
      FirstStepPaid(run[0], t, run[1]);
      assert Steps(who[..0], t) == 0;
    } else {
      BusyBefore(run, who, t);
      AllPaid(run[..n + 1], who[..n], t);
      if who[n] == t {
        OwnStepPaid(run[n], t, run[n + 1], Steps(who[..n], t), |run[n].log| - |run[0].log|);
      } else {
        OtherStep(run[n], who[n], run[n + 1], t);
        OtherStepPaid(run[n], who[n], run[n + 1], run[n].threads[t], Steps(who[..n], t), |run[n].log| - |run[0].log|);
      }
    }
  }

  lemma FirstStepPaid(s: State, t: nat, s': State)
    requires StepBy(s, t, s') && s.threads[t] == Idle && s'.threads[t] != Idle
    ensures Paid(s', s'.threads[t], 1, |s'.log| - |s.log|)
  {
    hide InPool;
  }

  /** Lock freedom, with its bound: a call repeats its loop only as often as operations succeed
      meanwhile. A Push takes at most 5 steps and 3 for each of them without returning, a Pop 4 and 4. */
  lemma CallsAreLockFree(run: seq<State>, who: seq<nat>, t: nat)
    requires Busy(run, who, t)
    ensures var g := |run[|who|].log| - |run[0].log|;
            Steps(who, t) <= if run[1].threads[t].PuData? then 5 + 3 * g else 4 + 4 * g
  {
    hide StepBy;
    Underway(run, who, t);
    AllPaid(run, who, t);
  }

  // ----- No value is lost -----------------------------------------------------------------

  function B(b: bool): nat { if b then 1 else 0 }

  /** A Push of x begins. */
  predicate Begins(p: PC, q: PC, x: int) { p == Idle && q.PuData? && q.x == x }

  /** A Pop returns x. */
  predicate Returns(p: PC, q: PC, x: int) { p.PoFree? && p.x == x && q == Idle }

  predicate Shaped(run: seq<State>, who: seq<nat>) {
    && |run| == |who| + 1
    && forall k :: 0 <= k < |who| ==> who[k] < |run[k].threads| && who[k] < |run[k + 1].threads|
  }

  /** How many Pushes of x have begun. */
  function Given(run: seq<State>, who: seq<nat>, x: int): nat
    requires Shaped(run, who)
  {
    if who == [] then 0
    else
      var n := |who| - 1;
      Given(run[..n + 1], who[..n], x) + B(Begins(run[n].threads[who[n]], run[n + 1].threads[who[n]], x))
  }

  /** How many Pops have returned x. */
  function Returned(run: seq<State>, who: seq<nat>, x: int): nat
    requires Shaped(run, who)
  {
    if who == [] then 0
    else
      var n := |who| - 1;
      Returned(run[..n + 1], who[..n], x) + B(Returns(run[n].threads[who[n]], run[n + 1].threads[who[n]], x))
  }

  /** x is in the hands of a Push that has not linked it, or of a Pop that has unlinked it. */
  predicate Holds(pc: PC, x: int, push: bool) {
    if push then (pc.PuData? || pc.PuTag? || pc.PuRead? || pc.PuLink? || pc.PuCas?) && pc.x == x
    else pc.PoFree? && pc.x == x
  }

  function InHand(threads: seq<PC>, x: int, push: bool): nat {
    if threads == [] then 0 else B(Holds(threads[0], x, push)) + InHand(threads[1..], x, push)
  }

  lemma {:induction false} InHandUpdate(threads: seq<PC>, t: nat, pc: PC, x: int, push: bool)
    requires t < |threads|
    ensures InHand(threads[t := pc], x, push) + B(Holds(threads[t], x, push))
            == InHand(threads, x, push) + B(Holds(pc, x, push))
  {
    hide Holds;
    if t == 0 {
      assert threads[t := pc][1..] == threads[1..];
    } else {
      assert threads[t := pc][1..] == threads[1..][t - 1 := pc];
      InHandUpdate(threads[1..], t - 1, pc, x, push);
    }
  }

  lemma {:induction false} NothingInHand(threads: seq<PC>, x: int, push: bool)
    requires forall t :: 0 <= t < |threads| ==> threads[t] == Idle
    ensures InHand(threads, x, push) == 0
  {
    if threads != [] {
      assert threads[0] == Idle;
      NothingInHand(threads[1..], x, push);
    }
  }

  lemma SameThreads(s: State, t: nat, s': State)
    requires StepBy(s, t, s')
    ensures t < |s.threads| && s'.threads == s.threads[t := s'.threads[t]]
  {
    hide InPool;
  }

  lemma TraceShaped(run: seq<State>, who: seq<nat>)
    requires IsTrace(run, who)
    ensures Shaped(run, who)
  {
    hide StepBy;
    forall k | 0 <= k < |who| ensures who[k] < |run[k].threads| && who[k] < |run[k + 1].threads| {
      SameThreads(run[k], who[k], run[k + 1]);
    }
  }

  /** A value leaves a Push with its entry in the log, and comes to a Pop with its entry. */
  ghost predicate Accounted(p: PC, q: PC, log: seq<Op>, log': seq<Op>, x: int) {
    && B(Holds(q, x, true)) + multiset(log')[Pushed(x)]
       == B(Holds(p, x, true)) + multiset(log)[Pushed(x)] + B(Begins(p, q, x))
    && B(Holds(q, x, false)) + multiset(log)[Popped(x)] + B(Returns(p, q, x))
       == B(Holds(p, x, false)) + multiset(log')[Popped(x)]
  }

  lemma PushHands(s: State, t: nat, s': State, x: int)
    requires t < |s.threads|
    requires var pc := s.threads[t];
             pc.PuData? || pc.PuTag? || pc.PuRead? || pc.PuLink? || pc.PuCas? || pc.PuCount?
    requires PushStep(s, t, s')
    ensures Accounted(s.threads[t], s'.threads[t], s.log, s'.log, x)
  {
  }

  lemma PopHands(s: State, t: nat, s': State, x: int)
    requires t < |s.threads|
    requires var pc := s.threads[t];
             pc.PoUndo? || pc.PoRead? || pc.PoNext? || pc.PoData? || pc.PoCas? || pc.PoFree?
    requires PopStep(s, t, s')
    ensures Accounted(s.threads[t], s'.threads[t], s.log, s'.log, x)
  {
  }

  lemma StartHands(s: State, t: nat, s': State, x: int)
    requires t < |s.threads| && s.threads[t] == Idle && StartStep(s, t, s')
    ensures Accounted(Idle, s'.threads[t], s.log, s'.log, x)
  {
    hide InPool;
  }

  lemma StepAccounted(s: State, t: nat, s': State, x: int)
    requires StepBy(s, t, s')
    ensures t < |s.threads| == |s'.threads| && Accounted(s.threads[t], s'.threads[t], s.log, s'.log, x)
  {
    SameThreads(s, t, s');
    var pc := s.threads[t];
    hide Accounted, StartStep, PushStep, PopStep;
    if pc == Idle {
      StartHands(s, t, s', x);
    } else if pc.PuData? || pc.PuTag? || pc.PuRead? || pc.PuLink? || pc.PuCas? || pc.PuCount? {
      PushHands(s, t, s', x);
    } else {
      PopHands(s, t, s', x);
    }
  }

  lemma StackAccounted(s: State, t: nat, s': State, x: int)
    requires Inv(s) && StepBy(s, t, s')
    ensures multiset(Abs(s'))[x] + multiset(s'.log)[Popped(x)] + multiset(s.log)[Pushed(x)]
            == multiset(Abs(s))[x] + multiset(s.log)[Popped(x)] + multiset(s'.log)[Pushed(x)]
  {
    hide Inv, Abs, StepBy;
    StepRefines(s, t, s');
  }

  /** In every run, of every value: the Pushes that were given it are those that have linked it and
      those that still hold it; it is on the stack as often as it has been linked and not unlinked;
      and what has been unlinked has been returned or is about to be. */
  lemma {:induction false} NoValueIsLost(run: seq<State>, who: seq<nat>, x: int)
    requires IsTrace(run, who) && Init(run[0])
    ensures Shaped(run, who) && Inv(run[|who|])
    ensures var s := run[|who|];
            var pushed, popped := multiset(s.log)[Pushed(x)], multiset(s.log)[Popped(x)];
            && Given(run, who, x) == InHand(s.threads, x, true) + pushed
            && pushed == multiset(Abs(s))[x] + popped
            && popped == InHand(s.threads, x, false) + Returned(run, who, x)
  {
    TraceShaped(run, who);
    if who == [] {
      InitInv(run[0]);
      NothingInHand(run[0].threads, x, true);
      NothingInHand(run[0].threads, x, false);
    } else {
      hide StepBy, Inv, Init, Abs, Holds, Begins, Returns;
      var n := |who| - 1;
      ShorterTrace(run, who);
      assert run[..n + 1][0] == run[0];
      NoValueIsLost(run[..n + 1], who[..n], x);
      StepKeepsInv(run[n], who[n], run[n + 1]);
      StepAccounted(run[n], who[n], run[n + 1], x);
      StackAccounted(run[n], who[n], run[n + 1], x);
      SameThreads(run[n], who[n], run[n + 1]);
      InHandUpdate(run[n].threads, who[n], run[n + 1].threads[who[n]], x, true);
      InHandUpdate(run[n].threads, who[n], run[n + 1].threads[who[n]], x, false);
    }
  }
}
