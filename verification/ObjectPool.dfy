/**
 The lock-free object pool (CObjectPoolLib.h) as a step machine: Alloc and Release of any number
 of threads, one memory access a step. A node on the free list holds a plain pointer to the next
 node; the tagged address of a node is kept in the node itself and rewritten, with a new tag, by
 every Release. Tags are assumed not to repeat.
 */
module ObjectPool {

  import opened TaggedPtr

  const NULL := -1

  /** _next, and the tag half of _seqAddress (its address half is the node's own address). */
  datatype Node = Node(next: int, tag: int)

  datatype PC =
    | Idle
      // Alloc
    | AlRead | AlNext(seen: Ptr) | AlSeq(seen: Ptr, under: int) | AlCas(seen: Ptr, newTop: Ptr)
    | AlNew | AlCountNew(n: int) | AlCount(n: int)
      // Release
    | ReTag(n: int) | ReRead(n: int, g: int) | ReNext(n: int, g: int, seen: Ptr) | ReSeq(n: int, g: int, seen: Ptr)
    | ReCas(n: int, g: int, seen: Ptr) | ReCount

  datatype State = State(
    mem: seq<Node>,           // the dummy and every node ever created
    top: Ptr,                 // _top
    lastTag: int,             // _seqNumber
    allocCnt: int,            // _AllocNodeCnt
    activeCnt: int,           // _ActiveNodeCnt
    threads: seq<PC>,
    // observer's variables
    links: seq<Ptr>,          // the free list, top first
    active: set<int>          // the nodes that Alloc has returned and Release has not been given
  )

  predicate HasNode(pc: PC) {
    pc.AlCountNew? || pc.AlCount? || pc.ReTag? || pc.ReRead? || pc.ReNext? || pc.ReSeq? || pc.ReCas?
  }

  /** The node is in this thread's hands only. */
  predicate Owns(pc: PC, n: int) { HasNode(pc) && pc.n == n }

  // ----- Steps ----------------------------------------------------------------------------

  function Goto(s: State, t: nat, pc: PC): State
    requires t < |s.threads|
  {
    s.(threads := s.threads[t := pc])
  }

  /** A call begins: Alloc, or Release of a node that its caller has. */
  ghost predicate CallStep(s: State, t: nat, s': State)
    requires t < |s.threads|
  {
    || s' == Goto(s, t, AlRead)
    || (exists n :: n in s.active && s' == Goto(s, t, ReTag(n)).(active := s.active - {n}))
  }

  ghost predicate AllocStep(s: State, t: nat, s': State)
    requires t < |s.threads|
    requires var pc := s.threads[t];
             pc.AlRead? || pc.AlNext? || pc.AlSeq? || pc.AlCas? || pc.AlNew? || pc.AlCountNew? || pc.AlCount?
  {
    match s.threads[t]
    case AlRead => s' == Goto(s, t, if s.top.node == DUMMY.node then AlNew else AlNext(s.top))
    case AlNext(seen) => 0 <= seen.node < |s.mem| && s' == Goto(s, t, AlSeq(seen, s.mem[seen.node].next))
    case AlSeq(seen, under) => 0 <= under < |s.mem| && s' == Goto(s, t, AlCas(seen, Ptr(under, s.mem[under].tag)))
    case AlCas(seen, newTop) =>
      if s.top == seen then
        s' == Goto(s, t, AlCount(seen.node)).(top := newTop, links := if s.links == [] then [] else s.links[1..])
      else s' == Goto(s, t, AlRead)
    case AlNew => s' == Goto(s, t, AlCountNew(|s.mem|)).(mem := s.mem + [Node(NULL, 0)])
    case AlCountNew(n) => s' == Goto(s, t, AlCount(n)).(allocCnt := s.allocCnt + 1)
    case AlCount(n) => s' == Goto(s, t, Idle).(activeCnt := s.activeCnt + 1, active := s.active + {n})
  }

  ghost predicate ReleaseStep(s: State, t: nat, s': State)
    requires t < |s.threads|
    requires var pc := s.threads[t];
             pc.ReTag? || pc.ReRead? || pc.ReNext? || pc.ReSeq? || pc.ReCas? || pc.ReCount?
  {
    match s.threads[t]
    case ReTag(n) => s' == Goto(s, t, ReRead(n, s.lastTag + 1)).(lastTag := s.lastTag + 1)
    case ReRead(n, g) => s' == Goto(s, t, ReNext(n, g, s.top))
    case ReNext(n, g, seen) =>
      0 <= n < |s.mem| && s' == Goto(s, t, ReSeq(n, g, seen)).(mem := s.mem[n := s.mem[n].(next := seen.node)])
    case ReSeq(n, g, seen) =>
      0 <= n < |s.mem| && s' == Goto(s, t, ReCas(n, g, seen)).(mem := s.mem[n := s.mem[n].(tag := g)])
    case ReCas(n, g, seen) =>
      if s.top == seen then s' == Goto(s, t, ReCount).(top := Ptr(n, g), links := [Ptr(n, g)] + s.links)
      else s' == Goto(s, t, ReRead(n, g))
    case ReCount => s' == Goto(s, t, Idle).(activeCnt := s.activeCnt - 1)
  }

  ghost predicate StepBy(s: State, t: nat, s': State) {
    && t < |s.threads|
    && match s.threads[t]
       case Idle => CallStep(s, t, s')
       case AlRead | AlNext(_) | AlSeq(_, _) | AlCas(_, _) | AlNew | AlCountNew(_) | AlCount(_) => AllocStep(s, t, s')
       case ReTag(_) | ReRead(_, _) | ReNext(_, _, _) | ReSeq(_, _, _) | ReCas(_, _, _) | ReCount => ReleaseStep(s, t, s')
  }

  ghost predicate Step(s: State, s': State) { exists t: nat :: StepBy(s, t, s') }

  predicate Init(s: State) {
    && s.mem == [Node(NULL, 0)] && s.top == DUMMY && s.lastTag == 0 && s.allocCnt == 0 && s.activeCnt == 0
    && s.links == [] && s.active == {}
    && forall t :: 0 <= t < |s.threads| ==> s.threads[t] == Idle
  }

  // ----- Counting threads -----------------------------------------------------------------

  /** Threads that own a node, threads whose node is new and not counted yet, and threads inside
      Release. */
  datatype Tally = Tally(owning: int, created: int, releasing: int)

  function Weigh(pc: PC): (u: Tally)
    ensures u.owning >= 0 && u.created >= 0 && u.releasing >= 0
  {
    Tally(if HasNode(pc) then 1 else 0, if pc.AlCountNew? then 1 else 0,
          if pc.ReCount? || (HasNode(pc) && !pc.AlCountNew? && !pc.AlCount?) then 1 else 0)
  }

  function Plus(u: Tally, v: Tally): Tally {
    Tally(u.owning + v.owning, u.created + v.created, u.releasing + v.releasing)
  }

  function Total(threads: seq<PC>): (u: Tally)
    ensures u.owning >= 0 && u.created >= 0 && u.releasing >= 0
  {
    if threads == [] then Tally(0, 0, 0) else Plus(Weigh(threads[0]), Total(threads[1..]))
  }

  lemma {:induction false} TotalUpdate(threads: seq<PC>, t: nat, pc: PC)
    requires t < |threads|
    ensures Plus(Total(threads[t := pc]), Weigh(threads[t])) == Plus(Total(threads), Weigh(pc))
  {
    hide Weigh;
    if t == 0 {
      assert threads[t := pc][1..] == threads[1..];
    } else {
      assert threads[t := pc][1..] == threads[1..][t - 1 := pc];
      TotalUpdate(threads[1..], t - 1, pc);
    }
  }

  lemma {:induction false} IdleTotal(threads: seq<PC>)
    requires forall t :: 0 <= t < |threads| ==> threads[t] == Idle
    ensures Total(threads) == Tally(0, 0, 0)
  {
    hide HasNode, Weigh;
    if threads != [] {
      assert threads[0] == Idle;
      IdleWeight();
      IdleTotal(threads[1..]);
    }
  }

  lemma IdleWeight()
    ensures Weigh(Idle) == Tally(0, 0, 0)
  {
  }

  // ----- The invariant --------------------------------------------------------------------

  /** A node that has been released once has a real node, or the dummy, behind it for ever after. */
  ghost predicate MemInv(mem: seq<Node>) {
    && |mem| > 0 && mem[0].tag == 0
    && forall k :: 0 <= k < |mem| && mem[k].tag != 0 ==> 0 <= mem[k].next < |mem|
  }

  /** The free list: each node once, under the tag that it was last released with. */
  ghost predicate Chain(mem: seq<Node>, top: Ptr, links: seq<Ptr>, lastTag: int) {
    && top == Top(links)
    && (forall k :: 0 <= k < |links| ==>
          && 0 < links[k].node < |mem|
          && 0 < links[k].tag <= lastTag
          && mem[links[k].node] == Node(Below(links, k).node, links[k].tag))
    && (forall j, k :: 0 <= j < k < |links| ==> links[j].node != links[k].node && links[j].tag != links[k].tag)
  }

  predicate HasTag(pc: PC) { pc.ReRead? || pc.ReNext? || pc.ReSeq? || pc.ReCas? }

  predicate HasSeen(pc: PC) { pc.ReNext? || pc.ReSeq? || pc.ReCas? || pc.AlNext? || pc.AlSeq? || pc.AlCas? }

  /** What one thread may rely on. What Alloc has read below the top is right whenever that top is
      still on the list, because a tag is linked only once. */
  ghost predicate ThreadInv(mem: seq<Node>, links: seq<Ptr>, lastTag: int, pc: PC) {
    && (HasNode(pc) ==> 0 < pc.n < |mem| && !Linked(links, pc.n))
    && (HasTag(pc) ==> 0 < pc.g <= lastTag && !TagLinked(links, pc.g))
    && (pc.ReSeq? || pc.ReCas? ==> mem[pc.n].next == pc.seen.node)
    && (pc.ReCas? ==> mem[pc.n].tag == pc.g)
    && (HasSeen(pc) ==>
          pc.seen == DUMMY || (0 < pc.seen.node < |mem| && 0 < pc.seen.tag <= lastTag && mem[pc.seen.node].tag != 0))
    && (pc.AlNext? || pc.AlSeq? || pc.AlCas? ==> pc.seen != DUMMY)
    && (pc.AlSeq? ==>
          && 0 <= pc.under < |mem|
          && forall k :: 0 <= k < |links| && links[k] == pc.seen ==> pc.under == Below(links, k).node)
    && (pc.AlCas? ==> forall k :: 0 <= k < |links| && links[k] == pc.seen ==> pc.newTop == Below(links, k))
  }

  /** Two threads never own the same node or the same tag, and no thread has seen a tag that is
      not linked yet. */
  ghost predicate Apart(p: PC, q: PC) {
    && (forall n :: Owns(p, n) ==> !Owns(q, n))
    && (HasTag(p) && HasTag(q) ==> p.g != q.g)
    && (HasSeen(p) && HasTag(q) ==> p.seen.tag != q.g)
    && (HasSeen(q) && HasTag(p) ==> q.seen.tag != p.g)
  }

  /** An active node is neither free nor in a thread's hands. */
  ghost predicate ActiveInv(mem: seq<Node>, links: seq<Ptr>, active: set<int>) {
    forall n :: n in active ==> 0 < n < |mem| && !Linked(links, n)
  }

  ghost predicate NotActive(active: set<int>, pc: PC) {
    HasNode(pc) ==> pc.n !in active
  }

  ghost predicate CountInv(s: State) {
    var u := Total(s.threads);
    && |s.mem| - 1 == |s.links| + |s.active| + u.owning
    && s.allocCnt == |s.mem| - 1 - u.created
    && s.activeCnt == |s.active| + u.releasing
  }

  ghost predicate ThreadsInv(s: State) {
    && (forall t :: 0 <= t < |s.threads| ==>
          ThreadInv(s.mem, s.links, s.lastTag, s.threads[t]) && NotActive(s.active, s.threads[t]))
    && (forall t, u :: 0 <= t < u < |s.threads| ==> Apart(s.threads[t], s.threads[u]))
  }

  ghost predicate Inv(s: State) {
    && s.lastTag >= 0
    && MemInv(s.mem)
    && Chain(s.mem, s.top, s.links, s.lastTag)
    && ActiveInv(s.mem, s.links, s.active)
    && ThreadsInv(s)
    && CountInv(s)
  }

  // ----- One step -------------------------------------------------------------------------

  /** A step that changes nothing shared but counters and the set of active nodes. */
  lemma MoveKeeps(s: State, t: nat, s': State, pc: PC)
    requires Inv(s) && t < |s.threads|
    requires s'.mem == s.mem && s'.top == s.top && s'.links == s.links && s'.lastTag >= s.lastTag
    requires s'.threads == s.threads[t := pc]
    requires ThreadInv(s'.mem, s'.links, s'.lastTag, pc)
    requires forall u :: 0 <= u < |s.threads| && u != t ==> Apart(pc, s.threads[u]) && NotActive(s'.active, s.threads[u])
    requires NotActive(s'.active, pc) && ActiveInv(s'.mem, s'.links, s'.active)
    requires CountInv(s')
    ensures Inv(s')
  {
    hide MemInv, ActiveInv, NotActive, CountInv;
  }

  lemma CallKeeps(s: State, t: nat, s': State)
    requires Inv(s) && t < |s.threads| && s.threads[t].Idle? && CallStep(s, t, s')
    ensures Inv(s')
  {
    hide Total, Chain, MemInv;
    TotalUpdate(s.threads, t, s'.threads[t]);
    MoveKeeps(s, t, s', s'.threads[t]);
  }

  lemma AlReadKeeps(s: State, t: nat, s': State)
    requires Inv(s) && t < |s.threads| && s.threads[t].AlRead? && AllocStep(s, t, s')
    ensures Inv(s')
  {
    hide Total;
    TotalUpdate(s.threads, t, s'.threads[t]);
    if s.links != [] {
      assert TagLinked(s.links, s.links[0].tag);
    }
    MoveKeeps(s, t, s', s'.threads[t]);
  }

  lemma AlNextKeeps(s: State, t: nat, s': State)
    requires Inv(s) && t < |s.threads| && s.threads[t].AlNext? && AllocStep(s, t, s')
    ensures Inv(s')
  {
    hide Total;
    TotalUpdate(s.threads, t, s'.threads[t]);
    MoveKeeps(s, t, s', s'.threads[t]);
  }

  lemma AlSeqKeeps(s: State, t: nat, s': State)
    requires Inv(s) && t < |s.threads| && s.threads[t].AlSeq? && AllocStep(s, t, s')
    ensures Inv(s')
  {
    hide Total;
    TotalUpdate(s.threads, t, s'.threads[t]);
    MoveKeeps(s, t, s', s'.threads[t]);
  }

  lemma AlCountNewKeeps(s: State, t: nat, s': State)
    requires Inv(s) && t < |s.threads| && s.threads[t].AlCountNew? && AllocStep(s, t, s')
    ensures Inv(s')
  {
    hide Total, Chain, MemInv;
    TotalUpdate(s.threads, t, s'.threads[t]);
    MoveKeeps(s, t, s', s'.threads[t]);
  }

  /** Alloc returns a node that nobody else has: it was not active, and is not free. */
  lemma AlCountKeeps(s: State, t: nat, s': State)
    requires Inv(s) && t < |s.threads| && s.threads[t].AlCount? && AllocStep(s, t, s')
    ensures s.threads[t].n !in s.active && s'.active == s.active + {s.threads[t].n}
    ensures Inv(s')
  {
    hide Total, Chain, MemInv;
    TotalUpdate(s.threads, t, s'.threads[t]);
    assert Owns(s.threads[t], s.threads[t].n);
    MoveKeeps(s, t, s', s'.threads[t]);
  }

  lemma ReTagKeeps(s: State, t: nat, s': State)
    requires Inv(s) && t < |s.threads| && s.threads[t].ReTag? && ReleaseStep(s, t, s')
    ensures Inv(s')
  {
    hide Total, MemInv;
    TotalUpdate(s.threads, t, s'.threads[t]);
    MoveKeeps(s, t, s', s'.threads[t]);
  }

  lemma ReReadKeeps(s: State, t: nat, s': State)
    requires Inv(s) && t < |s.threads| && s.threads[t].ReRead? && ReleaseStep(s, t, s')
    ensures Inv(s')
  {
    hide Total;
    TotalUpdate(s.threads, t, s'.threads[t]);
    if s.links != [] {
      assert TagLinked(s.links, s.links[0].tag);
    }
    MoveKeeps(s, t, s', s'.threads[t]);
  }

  lemma ReCountKeeps(s: State, t: nat, s': State)
    requires Inv(s) && t < |s.threads| && s.threads[t].ReCount? && ReleaseStep(s, t, s')
    ensures Inv(s')
  {
    hide Total, Chain, MemInv;
    TotalUpdate(s.threads, t, s'.threads[t]);
    MoveKeeps(s, t, s', s'.threads[t]);
  }

  lemma RetryKeeps(s: State, t: nat, s': State)
    requires Inv(s) && t < |s.threads| && (s.threads[t].ReCas? || s.threads[t].AlCas?)
    requires s.top != s.threads[t].seen
    requires if s.threads[t].ReCas? then ReleaseStep(s, t, s') else AllocStep(s, t, s')
    ensures Inv(s')
  {
    hide Total, Chain, MemInv;
    TotalUpdate(s.threads, t, s'.threads[t]);
    MoveKeeps(s, t, s', s'.threads[t]);
  }

  /** A new node leaves everything that was there where it was. */
  lemma AlNewKeeps(s: State, t: nat, s': State)
    requires Inv(s) && t < |s.threads| && s.threads[t].AlNew? && AllocStep(s, t, s')
    ensures Inv(s')
  {
    hide Total;
    TotalUpdate(s.threads, t, s'.threads[t]);
    forall u | 0 <= u < |s.threads| && u != t
      ensures Apart(s'.threads[t], s.threads[u]) && ThreadInv(s'.mem, s'.links, s'.lastTag, s.threads[u])
    {
    }
  }

  /** Release writes to its own node. */
  lemma WriteKeeps(s: State, t: nat, s': State, pc: PC, n: int)
    requires Inv(s) && t < |s.threads| && Owns(s.threads[t], n) && Owns(pc, n) && |s.mem| == |s'.mem|
    requires MemInv(s'.mem) && s'.mem == s.mem[n := s'.mem[n]] && (s.mem[n].tag != 0 ==> s'.mem[n].tag != 0)
    requires s'.top == s.top && s'.links == s.links && s'.lastTag == s.lastTag && s'.active == s.active
    requires s'.threads == s.threads[t := pc]
    requires forall u :: 0 <= u < |s.threads| && u != t ==> Apart(pc, s.threads[u])
    requires ThreadInv(s'.mem, s'.links, s'.lastTag, pc)
    requires CountInv(s')
    ensures Inv(s')
  {
    hide MemInv, CountInv;
  }

  lemma ReNextKeeps(s: State, t: nat, s': State)
    requires Inv(s) && t < |s.threads| && s.threads[t].ReNext? && ReleaseStep(s, t, s')
    ensures Inv(s')
  {
    hide Total, Chain;
    TotalUpdate(s.threads, t, s'.threads[t]);
    WriteKeeps(s, t, s', s'.threads[t], s.threads[t].n);
  }

  lemma ReSeqKeeps(s: State, t: nat, s': State)
    requires Inv(s) && t < |s.threads| && s.threads[t].ReSeq? && ReleaseStep(s, t, s')
    ensures Inv(s')
  {
    hide Total, Chain;
    TotalUpdate(s.threads, t, s'.threads[t]);
    WriteKeeps(s, t, s', s'.threads[t], s.threads[t].n);
  }

  lemma ChainPush(mem: seq<Node>, top: Ptr, links: seq<Ptr>, lastTag: int, n: int, g: int)
    requires Chain(mem, top, links, lastTag) && 0 < n < |mem| && 0 < g <= lastTag
    requires !Linked(links, n) && !TagLinked(links, g) && mem[n] == Node(top.node, g)
    ensures Chain(mem, Ptr(n, g), [Ptr(n, g)] + links, lastTag)
  {
    BelowPushed(Ptr(n, g), links);
    var all := [Ptr(n, g)] + links;
    hide Below;
    forall j, k | 0 <= j < k < |all| ensures all[j].node != all[k].node && all[j].tag != all[k].tag {
      assert all[k] == links[k - 1];
      if j > 0 { assert all[j] == links[j - 1]; }
    }
  }

  lemma ChainPop(mem: seq<Node>, top: Ptr, links: seq<Ptr>, lastTag: int)
    requires Chain(mem, top, links, lastTag) && links != []
    ensures Chain(mem, Below(links, 0), links[1..], lastTag) && !Linked(links[1..], links[0].node)
  {
    BelowPopped(links);
  }

  lemma LinkSpares(mem: seq<Node>, links: seq<Ptr>, lastTag: int, p: PC, q: PC)
    requires p.ReCas? && Apart(p, q) && ThreadInv(mem, links, lastTag, q) && 0 < p.n
    ensures ThreadInv(mem, [Ptr(p.n, p.g)] + links, lastTag, q)
  {
    BelowPushed(Ptr(p.n, p.g), links);
    assert Owns(p, p.n);
  }

  lemma UnlinkSpares(mem: seq<Node>, links: seq<Ptr>, lastTag: int, q: PC)
    requires links != [] && ThreadInv(mem, links, lastTag, q)
    ensures ThreadInv(mem, links[1..], lastTag, q)
  {
    BelowPopped(links);
  }

  /** The released node, already pointing at the top, becomes the new top. */
  lemma LinkKeeps(s: State, t: nat, s': State)
    requires Inv(s) && t < |s.threads| && s.threads[t].ReCas? && s.top == s.threads[t].seen && ReleaseStep(s, t, s')
    ensures Inv(s')
  {
    hide Total, Chain, MemInv;
    TotalUpdate(s.threads, t, s'.threads[t]);
    var p := s.threads[t];
    ChainPush(s.mem, s.top, s.links, s.lastTag, p.n, p.g);
    forall u | 0 <= u < |s.threads| && u != t
      ensures ThreadInv(s'.mem, s'.links, s'.lastTag, s.threads[u])
    {
      LinkSpares(s.mem, s.links, s.lastTag, p, s.threads[u]);
    }
  }

  lemma TopLinked(links: seq<Ptr>)
    requires links != []
    ensures Linked(links, links[0].node)
  {
  }

  lemma TakenApart(mem: seq<Node>, links: seq<Ptr>, lastTag: int, n: int, q: PC)
    requires Linked(links, n) && ThreadInv(mem, links, lastTag, q)
    ensures Apart(AlCount(n), q) && Apart(q, AlCount(n))
  {
  }

  lemma UnlinkActive(mem: seq<Node>, links: seq<Ptr>, active: set<int>)
    requires ActiveInv(mem, links, active) && links != []
    ensures ActiveInv(mem, links[1..], active) && links[0].node !in active
  {
    BelowPopped(links);
    assert Linked(links, links[0].node);
  }

  /** When the compare-and-swap of Alloc succeeds, the top's tag is linked, and so what Alloc has
      read of the node below it is what is there now. */
  lemma TakenIsTop(s: State, t: nat)
    requires Inv(s) && t < |s.threads| && s.threads[t].AlCas? && s.top == s.threads[t].seen
    ensures s.links != [] && s.links[0] == s.top && s.threads[t].newTop == Below(s.links, 0)
    ensures 0 < s.top.node < |s.mem|
  {
    hide Total, MemInv;
  }

  lemma UnlinkCounts(s: State, t: nat, s': State)
    requires Inv(s) && t < |s.threads| && s.threads[t].AlCas? && s.top == s.threads[t].seen && s.links != []
    requires AllocStep(s, t, s')
    ensures CountInv(s')
  {
    hide Total, MemInv, Chain, ActiveInv, ThreadsInv;
    TotalUpdate(s.threads, t, s'.threads[t]);
  }

  lemma TakenAlone(mem: seq<Node>, links: seq<Ptr>, lastTag: int, n: int)
    requires links != [] && 0 < n < |mem| && !Linked(links[1..], n)
    ensures ThreadInv(mem, links[1..], lastTag, AlCount(n))
  {
  }

  lemma UnlinkKeeps(s: State, t: nat, s': State)
    requires Inv(s) && t < |s.threads| && s.threads[t].AlCas? && s.top == s.threads[t].seen && AllocStep(s, t, s')
    ensures Inv(s')
  {
    TakenIsTop(s, t);
    UnlinkCounts(s, t, s');
    hide CountInv, MemInv, Chain, Apart, Below, Linked, ActiveInv, ThreadInv;
    ChainPop(s.mem, s.top, s.links, s.lastTag);
    UnlinkActive(s.mem, s.links, s.active);
    TopLinked(s.links);
    TakenAlone(s.mem, s.links, s.lastTag, s.links[0].node);
    forall u | 0 <= u < |s.threads| && u != t
      ensures ThreadInv(s'.mem, s'.links, s'.lastTag, s.threads[u]) && Apart(s'.threads[t], s.threads[u])
      ensures Apart(s.threads[u], s'.threads[t])
    {
      UnlinkSpares(s.mem, s.links, s.lastTag, s.threads[u]);
      TakenApart(s.mem, s.links, s.lastTag, s.links[0].node, s.threads[u]);
    }
  }

  lemma StepKeepsInv(s: State, t: nat, s': State)
    requires Inv(s) && StepBy(s, t, s')
    ensures Inv(s')
  {
    hide Inv, CallStep, AllocStep, ReleaseStep;
    match s.threads[t]
    case Idle => CallKeeps(s, t, s');
    case AlRead => AlReadKeeps(s, t, s');
    case AlNext(_) => AlNextKeeps(s, t, s');
    case AlSeq(_, _) => AlSeqKeeps(s, t, s');
    case AlCas(seen, _) => if s.top == seen { UnlinkKeeps(s, t, s'); } else { RetryKeeps(s, t, s'); }
    case AlNew => AlNewKeeps(s, t, s');
    case AlCountNew(_) => AlCountNewKeeps(s, t, s');
    case AlCount(_) => AlCountKeeps(s, t, s');
    case ReTag(_) => ReTagKeeps(s, t, s');
    case ReRead(_, _) => ReReadKeeps(s, t, s');
    case ReNext(_, _, _) => ReNextKeeps(s, t, s');
    case ReSeq(_, _, _) => ReSeqKeeps(s, t, s');
    case ReCas(_, _, seen) => if s.top == seen { LinkKeeps(s, t, s'); } else { RetryKeeps(s, t, s'); }
    case ReCount => ReCountKeeps(s, t, s');
  }

  // ----- Runs -----------------------------------------------------------------------------

  ghost predicate IsRun(run: seq<State>) {
    && run != [] && Init(run[0])
    && forall k :: 0 < k < |run| ==> Step(run[k - 1], run[k])
  }

  lemma {:induction false} RunsKeepInv(run: seq<State>)
    requires IsRun(run)
    ensures Inv(run[|run| - 1])
  {
    hide Inv, StepBy, Init;
    if |run| == 1 {
      InitInv(run[0]);
    } else {
      RunsKeepInv(run[..|run| - 1]);
      var m := |run| - 1;
      assert Step(run[m - 1], run[m]);
      var t: nat :| StepBy(run[|run| - 2], t, run[|run| - 1]);
      StepKeepsInv(run[|run| - 2], t, run[|run| - 1]);
    }
  }

  lemma InitInv(s: State)
    requires Init(s)
    ensures Inv(s)
  {
    hide Total;
    IdleTotal(s.threads);
  }

  // ----- Theorems -------------------------------------------------------------------------

  /** In every run a node is in one pair of hands at most: one thread's, its user's, or the free
      list's. */
  lemma OneOwner(run: seq<State>, n: int)
    requires IsRun(run)
    ensures var s := run[|run| - 1];
            && (forall t, u :: 0 <= t < u < |s.threads| ==> !(Owns(s.threads[t], n) && Owns(s.threads[u], n)))
            && (forall t :: 0 <= t < |s.threads| && Owns(s.threads[t], n) ==> !Linked(s.links, n) && n !in s.active)
            && !(Linked(s.links, n) && n in s.active)
  {
    RunsKeepInv(run);
    hide IsRun, MemInv, CountInv, Chain;
    var s := run[|run| - 1];
    forall t, u | 0 <= t < u < |s.threads| ensures !(Owns(s.threads[t], n) && Owns(s.threads[u], n)) {
      assert Apart(s.threads[t], s.threads[u]);
    }
    forall t | 0 <= t < |s.threads| && Owns(s.threads[t], n) ensures !Linked(s.links, n) && n !in s.active {
      assert ThreadInv(s.mem, s.links, s.lastTag, s.threads[t]) && NotActive(s.active, s.threads[t]);
    }
  }

  /** Alloc returns a node that is neither in use nor free, and Release takes back only what is
      in use: between two returns of the same node there is a Release of it. */
  lemma AllocGivesUnused(run: seq<State>, s': State, t: nat)
    requires IsRun(run) && StepBy(run[|run| - 1], t, s') && run[|run| - 1].threads[t].AlCount?
    ensures var s := run[|run| - 1];
            var n := s.threads[t].n;
            && n !in s.active && s'.active == s.active + {n} && 0 < n < |s.mem| && !Linked(s.links, n)
            && forall u :: 0 <= u < |s.threads| && u != t ==> !Owns(s.threads[u], n)
  {
    RunsKeepInv(run);
    hide IsRun, MemInv, Chain, CountInv;
    var s := run[|run| - 1];
    AlCountKeeps(s, t, s');
    assert Owns(s.threads[t], s.threads[t].n);
  }

  /** Alloc follows a pointer that it read from a node somebody else may be using by then; it is
      never null and never dangling. */
  lemma NeverNull(run: seq<State>, t: nat)
    requires IsRun(run) && t < |run[|run| - 1].threads|
    ensures var s, pc := run[|run| - 1], run[|run| - 1].threads[t];
            && (pc.AlNext? ==> 0 < pc.seen.node < |s.mem| && 0 <= s.mem[pc.seen.node].next < |s.mem|)
            && (pc.AlSeq? ==> 0 <= pc.under < |s.mem|)
  {
    RunsKeepInv(run);
    hide IsRun, Chain, CountInv, ActiveInv, Apart;
    var s := run[|run| - 1];
    assert ThreadInv(s.mem, s.links, s.lastTag, s.threads[t]);
  }

  /** The two counters, in every state: a node that has been created and counted is free, in use
      or in the hands of a call; the active count, an unsigned word, is never decremented below 0. */
  lemma Accounting(run: seq<State>)
    requires IsRun(run)
    ensures var s, u := run[|run| - 1], Total(run[|run| - 1].threads);
            && s.allocCnt + u.created == |s.links| + |s.active| + u.owning
            && s.activeCnt == |s.active| + u.releasing >= 0
            && ((forall t :: 0 <= t < |s.threads| ==> s.threads[t] == Idle) ==>
                  s.activeCnt == |s.active| && s.allocCnt == |s.links| + |s.active|)
  {
    RunsKeepInv(run);
    hide IsRun, Total, MemInv, Chain, ActiveInv, ThreadsInv;
    var s := run[|run| - 1];
    if forall t :: 0 <= t < |s.threads| ==> s.threads[t] == Idle { IdleTotal(s.threads); }
  }

  // ----- The destructor -------------------------------------------------------------------

  ghost predicate Quiet(s: State) {
    && Inv(s)
    && forall t :: 0 <= t < |s.threads| ==> s.threads[t] == Idle
  }

  ghost function FirstNodes(links: seq<Ptr>, k: nat): set<int>
    requires k <= |links|
  {
    set j | 0 <= j < k :: links[j].node
  }

  /** With no call under way, the destructor deletes exactly the nodes on the free list, each once,
      and stops in the debugger, at both of its checks, exactly if a node has not been returned.
      When all have been, nothing of what was ever created is left. */
  method Destroy(s: State) returns (notReturned: bool, notDeleted: bool, deleted: set<int>)
    requires Quiet(s)
    ensures notReturned <==> s.active != {}
    ensures notDeleted <==> s.active != {}
    ensures forall n :: n in deleted <==> Linked(s.links, n)
    ensures s.active == {} ==> forall n :: n in deleted <==> 0 < n < |s.mem|
  {
    hide Total, ThreadsInv, ActiveInv, MemInv;
    IdleTotal(s.threads);
    var node := s.top.node;
    notReturned := s.activeCnt != 0;
    var allocCnt := s.allocCnt;
    deleted := {};
    ghost var k: nat := 0;
    while node != DUMMY.node
      invariant k <= |s.links| && allocCnt == s.allocCnt - k
      invariant node == (if k < |s.links| then s.links[k].node else DUMMY.node)
      invariant deleted == FirstNodes(s.links, k) && |deleted| == k
      decreases |s.links| - k
    {
      var oldTop := node;
      assert oldTop !in deleted;
      node := s.mem[oldTop].next;
      deleted := deleted + {oldTop};
      allocCnt := allocCnt - 1;
      k := k + 1;
    }
    notDeleted := allocCnt != 0;
    assert k == |s.links|;
    if s.active == {} {
      AllOfThem(deleted, |s.mem| - 1);
    }
  }

  lemma {:induction false} AllOfThem(a: set<int>, m: nat)
    requires |a| == m && forall n :: n in a ==> 0 < n <= m
    ensures forall n :: n in a <==> 0 < n <= m
  {
    if m > 0 {
      if m !in a {
        Few(a, m - 1);
      }
      AllOfThem(a - {m}, m - 1);
    }
  }

  lemma {:induction false} Few(a: set<int>, m: nat)
    requires forall n :: n in a ==> 0 < n <= m
    ensures |a| <= m
  {
    if m == 0 {
      assert forall n :: n in a ==> false;
    } else {
      Few(a - {m}, m - 1);
    }
  }
}
