/**
 The lock-free stack (CLockFreeStack.h) as a step machine: Push and Pop of any number of
 threads, one memory access a step. Nodes are reused at once: a node that has been popped may be
 handed out, overwritten and pushed again while another thread still looks at it. What makes the
 compare-and-swap sound is the tag in the upper bits of a pointer; tags are taken from a counter
 and assumed not to repeat.
 */
module TreiberStack {

  import opened TaggedPtr

  datatype Cell = Cell(data: int, next: Ptr)

  datatype PC =
    | Idle
      // Push
    | PuData(n: int, x: int) | PuTag(n: int, x: int)
    | PuRead(n: int, x: int, g: int) | PuLink(n: int, x: int, g: int, seen: Ptr) | PuCas(n: int, x: int, g: int, seen: Ptr)
    | PuCount
      // Pop
    | PoUndo
    | PoRead | PoNext(seen: Ptr) | PoData(seen: Ptr, under: Ptr) | PoCas(seen: Ptr, under: Ptr, x: int)
    | PoFree(n: int, x: int)

  datatype Op = Pushed(x: int) | Popped(x: int)

  datatype State = State(
    mem: seq<Cell>,           // every node that the pool can hand out, and the dummy
    top: Ptr,                 // m_top
    lastTag: int,             // m_seqNumber
    size: int,                // m_size
    threads: seq<PC>,
    // observer's variables
    links: seq<Ptr>,          // the linked nodes, top first
    log: seq<Op>              // the successful compare-and-swaps
  )

  // ----- Ownership ------------------------------------------------------------------------

  /** The node is this thread's alone: taken from the pool and not linked, or unlinked and not
      yet given back. */
  predicate Owns(pc: PC, n: int) {
    && (pc.PuData? || pc.PuTag? || pc.PuRead? || pc.PuLink? || pc.PuCas? || pc.PoFree?)
    && pc.n == n
  }

  /** In the pool: what the pool's Alloc may return, and whose contents it may change. */
  ghost predicate InPool(s: State, n: int) {
    && 0 < n < |s.mem|
    && !Linked(s.links, n)
    && forall t :: 0 <= t < |s.threads| ==> !Owns(s.threads[t], n)
  }

  // ----- Steps ----------------------------------------------------------------------------

  function Goto(s: State, t: nat, pc: PC): State
    requires t < |s.threads|
  {
    s.(threads := s.threads[t := pc])
  }

  /** An idle thread starts a Push with a node from the pool, or the first step of a Pop; or the
      pool scribbles over a node it holds. */
  ghost predicate StartStep(s: State, t: nat, s': State)
    requires t < |s.threads|
  {
    || (exists n, x :: InPool(s, n) && s' == Goto(s, t, PuData(n, x)))
    || s' == Goto(s, t, if s.size - 1 < 0 then PoUndo else PoRead).(size := s.size - 1)
    || (exists n :: InPool(s, n) && |s'.mem| == |s.mem| && s' == s.(mem := s.mem[n := s'.mem[n]]))
  }

  ghost predicate PushStep(s: State, t: nat, s': State)
    requires t < |s.threads|
    requires var pc := s.threads[t];
             pc.PuData? || pc.PuTag? || pc.PuRead? || pc.PuLink? || pc.PuCas? || pc.PuCount?
  {
    match s.threads[t]
    case PuData(n, x) =>
      0 <= n < |s.mem| && s' == Goto(s, t, PuTag(n, x)).(mem := s.mem[n := s.mem[n].(data := x)])
    case PuTag(n, x) => s' == Goto(s, t, PuRead(n, x, s.lastTag + 1)).(lastTag := s.lastTag + 1)
    case PuRead(n, x, g) => s' == Goto(s, t, PuLink(n, x, g, s.top))
    case PuLink(n, x, g, seen) =>
      0 <= n < |s.mem| && s' == Goto(s, t, PuCas(n, x, g, seen)).(mem := s.mem[n := s.mem[n].(next := seen)])
    case PuCas(n, x, g, seen) =>
      if s.top == seen then
        s' == Goto(s, t, PuCount).(top := Ptr(n, g), links := [Ptr(n, g)] + s.links, log := s.log + [Pushed(x)])
      else s' == Goto(s, t, PuRead(n, x, g))
    case PuCount => s' == Goto(s, t, Idle).(size := s.size + 1)
  }

  /** A Pop that reads the dummy goes straight to its compare-and-swap of the dummy by itself. */
  ghost predicate PopStep(s: State, t: nat, s': State)
    requires t < |s.threads|
    requires var pc := s.threads[t];
             pc.PoUndo? || pc.PoRead? || pc.PoNext? || pc.PoData? || pc.PoCas? || pc.PoFree?
  {
    match s.threads[t]
    case PoUndo => s' == Goto(s, t, Idle).(size := s.size + 1)
    case PoRead => s' == Goto(s, t, if s.top == DUMMY then PoCas(DUMMY, DUMMY, 0) else PoNext(s.top))
    case PoNext(seen) => 0 <= seen.node < |s.mem| && s' == Goto(s, t, PoData(seen, s.mem[seen.node].next))
    case PoData(seen, under) => 0 <= seen.node < |s.mem| && s' == Goto(s, t, PoCas(seen, under, s.mem[seen.node].data))
    case PoCas(seen, under, x) =>
      if s.top == seen then
        s' == Goto(s, t, PoFree(seen.node, x)).(top := under, links := if s.links == [] then [] else s.links[1..],
                                               log := s.log + [Popped(x)])
      else s' == Goto(s, t, PoRead)
    case PoFree(n, x) => s' == Goto(s, t, Idle)
  }

  ghost predicate StepBy(s: State, t: nat, s': State) {
    && t < |s.threads|
    && match s.threads[t]
       case Idle => StartStep(s, t, s')
       case PuData(_, _) | PuTag(_, _) | PuRead(_, _, _) | PuLink(_, _, _, _) | PuCas(_, _, _, _) | PuCount =>
         PushStep(s, t, s')
       case PoUndo | PoRead | PoNext(_) | PoData(_, _) | PoCas(_, _, _) | PoFree(_, _) => PopStep(s, t, s')
  }

  ghost predicate Step(s: State, s': State) { exists t: nat :: StepBy(s, t, s') }

  predicate Init(s: State) {
    && |s.mem| > 0 && s.top == DUMMY && s.lastTag == 0 && s.size == 0 && s.links == [] && s.log == []
    && forall t :: 0 <= t < |s.threads| ==> s.threads[t] == Idle
  }

  // ----- Counting threads -----------------------------------------------------------------

  /** Threads between a compare-and-swap and the counter (PuCount), about to take a failed
      decrement back (PoUndo), or holding a reservation (the loop of Pop). */
  datatype Tally = Tally(uncounted: int, failing: int, reserved: int)

  function Weigh(pc: PC): (u: Tally)
    ensures u.uncounted >= 0 && u.failing >= 0 && u.reserved >= 0
  {
    Tally(if pc.PuCount? then 1 else 0, if pc.PoUndo? then 1 else 0,
          if pc.PoRead? || pc.PoNext? || pc.PoData? || pc.PoCas? then 1 else 0)
  }

  function Plus(u: Tally, v: Tally): Tally {
    Tally(u.uncounted + v.uncounted, u.failing + v.failing, u.reserved + v.reserved)
  }

  function Total(threads: seq<PC>): (u: Tally)
    ensures u.uncounted >= 0 && u.failing >= 0 && u.reserved >= 0
  {
    if threads == [] then Tally(0, 0, 0) else Plus(Weigh(threads[0]), Total(threads[1..]))
  }

  lemma {:induction false} TotalUpdate(threads: seq<PC>, t: nat, pc: PC)
    requires t < |threads|
    ensures Plus(Total(threads[t := pc]), Weigh(threads[t])) == Plus(Total(threads), Weigh(pc))
  {
    hide Weigh;
    if t == 0 {
      assert threads[t := pc][1..] == threads[1..];
    } else {
      assert threads[t := pc][1..] == threads[1..][t - 1 := pc];
      TotalUpdate(threads[1..], t - 1, pc);
    }
  }

  lemma {:induction false} TotalHas(threads: seq<PC>, t: nat)
    requires t < |threads|
    ensures Total(threads).reserved >= Weigh(threads[t]).reserved
  {
    hide Weigh;
    if t > 0 {
      TotalHas(threads[1..], t - 1);
    }
  }

  // ----- The invariant --------------------------------------------------------------------

  /** The links are the chain that starts at the top: each node once, each tag once, and the last
      one on the dummy. */
  ghost predicate Chain(mem: seq<Cell>, top: Ptr, links: seq<Ptr>, lastTag: int) {
    && top == Top(links)
    && (forall k :: 0 <= k < |links| ==>
          && 0 < links[k].node < |mem|
          && 0 < links[k].tag <= lastTag
          && mem[links[k].node].next == Below(links, k))
    && (forall j, k :: 0 <= j < k < |links| ==> links[j].node != links[k].node && links[j].tag != links[k].tag)
  }

  predicate HasTag(pc: PC) { pc.PuRead? || pc.PuLink? || pc.PuCas? }

  predicate HasSeen(pc: PC) { pc.PuLink? || pc.PuCas? || pc.PoNext? || pc.PoData? || pc.PoCas? }

  /** What one thread may rely on. A popper's copies are right whenever the top it read is linked:
      linked now means linked ever since it was read, because a tag is linked only once. */
  ghost predicate ThreadInv(mem: seq<Cell>, links: seq<Ptr>, lastTag: int, pc: PC) {
    && (pc.PuData? || pc.PuTag? || pc.PuRead? || pc.PuLink? || pc.PuCas? || pc.PoFree? ==>
          0 < pc.n < |mem| && !Linked(links, pc.n))
    && (pc.PuTag? || pc.PuRead? || pc.PuLink? || pc.PuCas? ==> mem[pc.n].data == pc.x)
    && (HasTag(pc) ==> 0 < pc.g <= lastTag && !TagLinked(links, pc.g))
    && (pc.PuCas? ==> mem[pc.n].next == pc.seen)
    && (HasSeen(pc) ==> pc.seen == DUMMY || (0 < pc.seen.node < |mem| && 0 < pc.seen.tag <= lastTag))
    && (pc.PoNext? || pc.PoData? || pc.PoCas? ==> pc.seen != DUMMY)
    && (pc.PoData? || pc.PoCas? ==>
          forall k :: 0 <= k < |links| && links[k] == pc.seen ==> pc.under == Below(links, k))
    && (pc.PoCas? ==> forall k :: 0 <= k < |links| && links[k] == pc.seen ==> pc.x == mem[pc.seen.node].data)
  }

  /** Two threads never own the same node or the same tag, and no thread has seen a tag whose
      push has not happened. */
  ghost predicate Apart(p: PC, q: PC) {
    && (forall n :: Owns(p, n) ==> !Owns(q, n))
    && (HasTag(p) && HasTag(q) ==> p.g != q.g)
    && (HasSeen(p) && HasTag(q) ==> p.seen.tag != q.g)
    && (HasSeen(q) && HasTag(p) ==> q.seen.tag != p.g)
  }

  ghost predicate CountInv(s: State) {
    var u := Total(s.threads);
    |s.links| == s.size + u.failing + u.reserved + u.uncounted && s.size + u.failing >= 0
  }

  ghost predicate Inv(s: State) {
    && |s.mem| > 0 && s.lastTag >= 0
    && Chain(s.mem, s.top, s.links, s.lastTag)
    && (forall t :: 0 <= t < |s.threads| ==> ThreadInv(s.mem, s.links, s.lastTag, s.threads[t]))
    && (forall t, u :: 0 <= t < u < |s.threads| ==> Apart(s.threads[t], s.threads[u]))
    && CountInv(s)
  }

  // ----- One step -------------------------------------------------------------------------

  /** A step that changes nothing shared but counters: it is enough that the moving thread is
      right about itself and apart from the others. */
  lemma MoveKeeps(s: State, t: nat, s': State, pc: PC)
    requires Inv(s) && t < |s.threads|
    requires s'.mem == s.mem && s'.top == s.top && s'.links == s.links && s'.lastTag >= s.lastTag
    requires s'.threads == s.threads[t := pc]
    requires ThreadInv(s'.mem, s'.links, s'.lastTag, pc)
    requires forall u :: 0 <= u < |s.threads| && u != t ==> Apart(pc, s.threads[u])
    requires CountInv(s')
    ensures Inv(s')
  {
  }

  lemma {:induction false} TagKeeps(s: State, t: nat, s': State)
    requires Inv(s) && t < |s.threads| && (s.threads[t].PuTag? || s.threads[t].PuRead?) && PushStep(s, t, s')
    ensures Inv(s')
  {
    hide Total;
    TotalUpdate(s.threads, t, s'.threads[t]);
    MoveKeeps(s, t, s', s'.threads[t]);
  }

  lemma CounterKeeps(s: State, t: nat, s': State)
    requires Inv(s) && t < |s.threads|
    requires (s.threads[t].PuCount? && PushStep(s, t, s')) || (s.threads[t].PoUndo? && PopStep(s, t, s'))
    ensures Inv(s')
  {
    hide Total;
    TotalUpdate(s.threads, t, s'.threads[t]);
    MoveKeeps(s, t, s', s'.threads[t]);
  }

  /** A reserved Pop never reads the dummy. */
  lemma ReservedSeesNode(s: State, t: nat)
    requires Inv(s) && t < |s.threads| && Weigh(s.threads[t]).reserved == 1
    ensures s.links != [] && s.top != DUMMY
  {
    TotalHas(s.threads, t);
  }

  lemma ReadKeeps(s: State, t: nat, s': State)
    requires Inv(s) && t < |s.threads| && s.threads[t].PoRead? && PopStep(s, t, s')
    ensures Inv(s')
  {
    hide Total;
    ReservedSeesNode(s, t);
    TotalUpdate(s.threads, t, s'.threads[t]);
    assert TagLinked(s.links, s.links[0].tag);
    MoveKeeps(s, t, s', s'.threads[t]);
  }

  lemma NextKeeps(s: State, t: nat, s': State)
    requires Inv(s) && t < |s.threads| && s.threads[t].PoNext? && PopStep(s, t, s')
    ensures Inv(s')
  {
    hide Total;
    TotalUpdate(s.threads, t, s'.threads[t]);
    MoveKeeps(s, t, s', s'.threads[t]);
  }

  lemma DataKeeps(s: State, t: nat, s': State)
    requires Inv(s) && t < |s.threads| && s.threads[t].PoData? && PopStep(s, t, s')
    ensures Inv(s')
  {
    hide Total;
    TotalUpdate(s.threads, t, s'.threads[t]);
    MoveKeeps(s, t, s', s'.threads[t]);
  }

  lemma FreeKeeps(s: State, t: nat, s': State)
    requires Inv(s) && t < |s.threads| && s.threads[t].PoFree? && PopStep(s, t, s')
    ensures Inv(s')
  {
    hide Total;
    TotalUpdate(s.threads, t, s'.threads[t]);
    MoveKeeps(s, t, s', s'.threads[t]);
  }

  lemma AllocKeeps(s: State, t: nat, s': State, n: int, x: int)
    requires Inv(s) && t < |s.threads| && s.threads[t].Idle? && InPool(s, n) && s' == Goto(s, t, PuData(n, x))
    ensures Inv(s')
  {
    hide Total;
    TotalUpdate(s.threads, t, PuData(n, x));
    MoveKeeps(s, t, s', PuData(n, x));
  }

  lemma ReserveKeeps(s: State, t: nat, s': State)
    requires Inv(s) && t < |s.threads| && s.threads[t].Idle?
    requires s' == Goto(s, t, if s.size - 1 < 0 then PoUndo else PoRead).(size := s.size - 1)
    ensures Inv(s')
  {
    hide Total;
    TotalUpdate(s.threads, t, s'.threads[t]);
    MoveKeeps(s, t, s', s'.threads[t]);
  }

  /** A write to a node that is not linked, by its owner or by the pool. */
  lemma WriteKeeps(s: State, t: nat, s': State, pc: PC, n: int)
    requires Inv(s) && t < |s.threads| && 0 < n < |s.mem| == |s'.mem| && !Linked(s.links, n)
    requires forall k :: 0 <= k < |s.mem| && k != n ==> s'.mem[k] == s.mem[k]
    requires s'.top == s.top && s'.links == s.links && s'.lastTag == s.lastTag
    requires s'.threads == s.threads[t := pc]
    requires forall u :: 0 <= u < |s.threads| && u != t ==> !Owns(s.threads[u], n) && Apart(pc, s.threads[u])
    requires ThreadInv(s'.mem, s'.links, s'.lastTag, pc)
    requires CountInv(s')
    ensures Inv(s')
  {
    hide CountInv;
    forall u | 0 <= u < |s.threads| && u != t
      ensures ThreadInv(s'.mem, s'.links, s'.lastTag, s.threads[u])
    {
      hide Chain, Apart;
      WriteSpares(s.mem, s'.mem, s.links, s.lastTag, s.threads[u], n);
    }
    hide ThreadInv;
  }

  lemma WriteSpares(mem: seq<Cell>, mem': seq<Cell>, links: seq<Ptr>, lastTag: int, q: PC, n: int)
    requires ThreadInv(mem, links, lastTag, q) && !Owns(q, n) && !Linked(links, n) && |mem| == |mem'|
    requires forall k :: 0 <= k < |mem| && k != n ==> mem'[k] == mem[k]
    ensures ThreadInv(mem', links, lastTag, q)
  {
  }

  lemma PuDataKeeps(s: State, t: nat, s': State)
    requires Inv(s) && t < |s.threads| && s.threads[t].PuData? && PushStep(s, t, s')
    ensures Inv(s')
  {
    hide Total;
    TotalUpdate(s.threads, t, s'.threads[t]);
    WriteKeeps(s, t, s', s'.threads[t], s.threads[t].n);
  }

  lemma PuLinkKeeps(s: State, t: nat, s': State)
    requires Inv(s) && t < |s.threads| && s.threads[t].PuLink? && PushStep(s, t, s')
    ensures Inv(s')
  {
    hide Total;
    TotalUpdate(s.threads, t, s'.threads[t]);
    WriteKeeps(s, t, s', s'.threads[t], s.threads[t].n);
  }

  lemma ScribbleKeeps(s: State, t: nat, s': State, n: int)
    requires Inv(s) && t < |s.threads| && s.threads[t].Idle? && InPool(s, n)
    requires |s'.mem| == |s.mem| && s' == s.(mem := s.mem[n := s'.mem[n]])
    ensures Inv(s')
  {
    hide Total;
    assert s'.threads == s.threads[t := Idle];
    WriteKeeps(s, t, s', Idle, n);
  }

  lemma ChainPush(mem: seq<Cell>, top: Ptr, links: seq<Ptr>, lastTag: int, n: int, g: int)
    requires Chain(mem, top, links, lastTag) && 0 < n < |mem| && 0 < g <= lastTag
    requires !Linked(links, n) && !TagLinked(links, g) && mem[n].next == top
    ensures Chain(mem, Ptr(n, g), [Ptr(n, g)] + links, lastTag)
  {
    BelowPushed(Ptr(n, g), links);
    var all := [Ptr(n, g)] + links;
    hide Below;
    forall j, k | 0 <= j < k < |all| ensures all[j].node != all[k].node && all[j].tag != all[k].tag {
      assert all[k] == links[k - 1];
      if j > 0 { assert all[j] == links[j - 1]; }
    }
  }

  lemma ChainPop(mem: seq<Cell>, top: Ptr, links: seq<Ptr>, lastTag: int)
    requires Chain(mem, top, links, lastTag) && links != []
    ensures Chain(mem, Below(links, 0), links[1..], lastTag) && !Linked(links[1..], links[0].node)
  {
    BelowPopped(links);
  }

  lemma LinkSpares(mem: seq<Cell>, links: seq<Ptr>, lastTag: int, p: PC, q: PC)
    requires p.PuCas? && Apart(p, q) && ThreadInv(mem, links, lastTag, q) && 0 < p.n
    ensures ThreadInv(mem, [Ptr(p.n, p.g)] + links, lastTag, q)
  {
    BelowPushed(Ptr(p.n, p.g), links);
    assert Owns(p, p.n);
  }

  lemma UnlinkSpares(mem: seq<Cell>, links: seq<Ptr>, lastTag: int, q: PC)
    requires links != [] && ThreadInv(mem, links, lastTag, q)
    ensures ThreadInv(mem, links[1..], lastTag, q)
  {
    BelowPopped(links);
  }

  /** A node of the pusher's own, already pointing at the top, becomes the new top. */
  lemma LinkKeeps(s: State, t: nat, s': State)
    requires Inv(s) && t < |s.threads| && s.threads[t].PuCas? && s.top == s.threads[t].seen && PushStep(s, t, s')
    ensures Inv(s')
  {
    hide Total, Chain;
    TotalUpdate(s.threads, t, s'.threads[t]);
    var p := s.threads[t];
    ChainPush(s.mem, s.top, s.links, s.lastTag, p.n, p.g);
    forall u | 0 <= u < |s.threads| && u != t
      ensures ThreadInv(s'.mem, s'.links, s'.lastTag, s.threads[u])
    {
      LinkSpares(s.mem, s.links, s.lastTag, p, s.threads[u]);
    }
  }

  /** The top is unlinked; because its tag is linked, the popper's copies of its next pointer and
      its data are those of the top. */
  lemma UnlinkKeeps(s: State, t: nat, s': State)
    requires Inv(s) && t < |s.threads| && s.threads[t].PoCas? && s.top == s.threads[t].seen && PopStep(s, t, s')
    ensures s.links != [] && s.links[0] == s.threads[t].seen && 0 < s.links[0].node < |s.mem|
    ensures s.threads[t].x == s.mem[s.links[0].node].data
    ensures Inv(s')
  {
    hide Total;
    ReservedSeesNode(s, t);
    TotalUpdate(s.threads, t, s'.threads[t]);
    ChainPop(s.mem, s.top, s.links, s.lastTag);
    assert Linked(s.links, s.links[0].node);
    forall u | 0 <= u < |s.threads| && u != t
      ensures ThreadInv(s'.mem, s'.links, s'.lastTag, s.threads[u]) && Apart(s'.threads[t], s.threads[u])
    {
      UnlinkSpares(s.mem, s.links, s.lastTag, s.threads[u]);
    }
  }

  lemma RetryKeeps(s: State, t: nat, s': State)
    requires Inv(s) && t < |s.threads| && (s.threads[t].PuCas? || s.threads[t].PoCas?)
    requires s.top != s.threads[t].seen
    requires if s.threads[t].PuCas? then PushStep(s, t, s') else PopStep(s, t, s')
    ensures Inv(s')
  {
    hide Total;
    TotalUpdate(s.threads, t, s'.threads[t]);
    MoveKeeps(s, t, s', s'.threads[t]);
  }

  lemma StepKeepsInv(s: State, t: nat, s': State)
    requires Inv(s) && StepBy(s, t, s')
    ensures Inv(s')
  {
    hide Inv, PushStep, PopStep;
    match s.threads[t]
    case Idle =>
      assert StartStep(s, t, s');
      if n, x :| InPool(s, n) && s' == Goto(s, t, PuData(n, x)) {
        AllocKeeps(s, t, s', n, x);
      } else if n :| 0 < n < |s.mem| && InPool(s, n) && |s'.mem| == |s.mem| && s' == s.(mem := s.mem[n := s'.mem[n]]) {
        ScribbleKeeps(s, t, s', n);
      } else {
        ReserveKeeps(s, t, s');
      }
    case PuData(_, _) => PuDataKeeps(s, t, s');
    case PuTag(_, _) => TagKeeps(s, t, s');
    case PuRead(_, _, _) => TagKeeps(s, t, s');
    case PuLink(_, _, _, _) => PuLinkKeeps(s, t, s');
    case PuCas(_, _, _, seen) => if s.top == seen { LinkKeeps(s, t, s'); } else { RetryKeeps(s, t, s'); }
    case PuCount => CounterKeeps(s, t, s');
    case PoUndo => CounterKeeps(s, t, s');
    case PoRead => ReadKeeps(s, t, s');
    case PoNext(_) => NextKeeps(s, t, s');
    case PoData(_, _) => DataKeeps(s, t, s');
    case PoCas(seen, _, _) => if s.top == seen { UnlinkKeeps(s, t, s'); } else { RetryKeeps(s, t, s'); }
    case PoFree(_, _) => FreeKeeps(s, t, s');
  }

  // ----- Refinement of a stack ------------------------------------------------------------

  /** The values on the stack, top first. */
  function Values(mem: seq<Cell>, links: seq<Ptr>): (v: seq<int>)
    ensures |v| == |links|
  {
    seq(|links|, k requires 0 <= k < |links| => if 0 <= links[k].node < |mem| then mem[links[k].node].data else 0)
  }

  function Abs(s: State): seq<int> { Values(s.mem, s.links) }

  /** A write to a node that is not linked does not change the values. */
  lemma WriteUnseen(mem: seq<Cell>, links: seq<Ptr>, n: int, c: Cell)
    requires 0 <= n < |mem| && !Linked(links, n)
    ensures Values(mem[n := c], links) == Values(mem, links)
  {
  }

  lemma PushValues(mem: seq<Cell>, links: seq<Ptr>, p: Ptr)
    requires 0 <= p.node < |mem|
    ensures Values(mem, [p] + links) == [mem[p.node].data] + Values(mem, links)
  {
  }

  /** Every step leaves the values alone, or is the linearisation point of a Push, which puts its
      argument on top, or of a Pop, which takes away the top and will return exactly that. */
  lemma StepRefines(s: State, t: nat, s': State)
    requires Inv(s) && StepBy(s, t, s')
    ensures || (s'.log == s.log && Abs(s') == Abs(s))
            || (&& s.threads[t].PuCas? && s'.log == s.log + [Pushed(s.threads[t].x)]
                && Abs(s') == [s.threads[t].x] + Abs(s))
            || (&& s.threads[t].PoCas? && s'.threads[t].PoFree? && s'.log == s.log + [Popped(s'.threads[t].x)]
                && Abs(s) == [s'.threads[t].x] + Abs(s'))
  {
    hide Chain, Apart, Total, CountInv, Values;
    var pc := s.threads[t];
    if pc.PuData? || pc.PuLink? {
      WriteUnseen(s.mem, s.links, pc.n, s'.mem[pc.n]);
    } else if pc.PoCas? && s.top == pc.seen {
      UnlinkKeeps(s, t, s');
      assert s.links == [s.links[0]] + s.links[1..];
      PushValues(s.mem, s.links[1..], s.links[0]);
    } else if pc.PuCas? && s.top == pc.seen {
      PushValues(s.mem, s.links, Ptr(pc.n, pc.g));
    } else if pc.Idle? && s'.mem != s.mem {
      var n :| InPool(s, n) && |s'.mem| == |s.mem| && s' == s.(mem := s.mem[n := s'.mem[n]]);
      WriteUnseen(s.mem, s.links, n, s'.mem[n]);
    }
  }

  /** What a sequential stack does with the operations in the log. */
  datatype Replayed = Illegal | Holds(values: seq<int>)

  function Replay(log: seq<Op>): Replayed {
    if log == [] then Holds([])
    else match Replay(log[..|log| - 1])
      case Illegal => Illegal
      case Holds(v) =>
        match log[|log| - 1]
        case Pushed(x) => Holds([x] + v)
        case Popped(x) => if v != [] && v[0] == x then Holds(v[1..]) else Illegal
  }

  ghost predicate IsRun(run: seq<State>) {
    && run != [] && Init(run[0])
    && forall k :: 0 < k < |run| ==> Step(run[k - 1], run[k])
  }

  lemma InitInv(s: State)
    requires Init(s)
    ensures Inv(s) && s.log == [] && Abs(s) == []
  {
    hide Total;
    IdleTotal(s.threads);
  }

  lemma {:induction false} IdleTotal(threads: seq<PC>)
    requires forall t :: 0 <= t < |threads| ==> threads[t] == Idle
    ensures Total(threads) == Tally(0, 0, 0)
  {
    hide Weigh;
    if threads != [] {
      assert threads[0] == Idle;
      IdleWeight();
      IdleTotal(threads[1..]);
    }
  }

  lemma IdleWeight()
    ensures Weigh(Idle) == Tally(0, 0, 0)
  {
  }

  /** Every interleaving of pushes and pops is an execution of one sequential stack: the successful
      compare-and-swaps, in their order, are legal for it and leave it with the values linked now. */
  lemma {:induction false} RunsAreLifo(run: seq<State>)
    requires IsRun(run)
    ensures var s := run[|run| - 1]; Inv(s) && Replay(s.log) == Holds(Abs(s))
  {
    hide Inv, StepBy, Init, Abs;
    if |run| == 1 {
      InitInv(run[0]);
    } else {
      var before := run[..|run| - 1];
      RunsAreLifo(before);
      var s, s' := run[|run| - 2], run[|run| - 1];
      assert s == before[|before| - 1];
      var m := |run| - 1;
      assert Step(run[m - 1], run[m]);
      var t: nat :| StepBy(s, t, s');
      StepKeepsInv(s, t, s');
      StepRefines(s, t, s');
    }
  }

  // ----- The reservation counter ----------------------------------------------------------

  /** In every run: the counter accounts for every linked node, a thread inside the loop of Pop
      always finds a node, and when no operation is under way the counter is the number of nodes. */
  lemma Reservations(run: seq<State>, t: nat)
    requires IsRun(run) && t < |run[|run| - 1].threads|
    ensures var s, u := run[|run| - 1], Total(run[|run| - 1].threads);
            && |s.links| == s.size + u.failing + u.reserved + u.uncounted
            && s.size + u.failing >= 0
            && (s.threads[t].PoRead? ==> s.top != DUMMY)
            && (s.threads[t].PoCas? ==> s.threads[t].seen != DUMMY)
            && ((forall q :: 0 <= q < |s.threads| ==> s.threads[q] == Idle) ==> |s.links| == s.size)
  {
    RunsAreLifo(run);
    var s := run[|run| - 1];
    hide IsRun, Replay, Abs, Chain, Apart;
    if s.threads[t].PoRead? { ReservedSeesNode(s, t); }
    if forall q :: 0 <= q < |s.threads| ==> s.threads[q] == Idle { IdleTotal(s.threads); }
  }

  /** No node is ever owned by two threads, or owned while it is linked. */
  lemma NodesHaveOneOwner(run: seq<State>, n: int)
    requires IsRun(run)
    ensures var s := run[|run| - 1];
            && (forall t, u :: 0 <= t < u < |s.threads| ==> !(Owns(s.threads[t], n) && Owns(s.threads[u], n)))
            && (forall t :: 0 <= t < |s.threads| && Owns(s.threads[t], n) ==> !Linked(s.links, n))
  {
    RunsAreLifo(run);
    hide IsRun, Replay, Abs, Chain, CountInv;
    var s := run[|run| - 1];
    forall t, u | 0 <= t < u < |s.threads| ensures !(Owns(s.threads[t], n) && Owns(s.threads[u], n)) {
      assert Apart(s.threads[t], s.threads[u]);
    }
    forall t | 0 <= t < |s.threads| && Owns(s.threads[t], n) ensures !Linked(s.links, n) {
      assert ThreadInv(s.mem, s.links, s.lastTag, s.threads[t]);
    }
  }

  // ----- A Pop that returns false ---------------------------------------------------------

  /** Whether a Pop fails is decided by its decrement: it fails if and only if the nodes that are
      linked are no more than other calls have a claim on, a reserved Pop, a Push that has not
      counted its node yet, or a failing Pop that has not taken its decrement back. */
  lemma PopFails(run: seq<State>, s: State, t: nat, s': State)
    requires IsRun(run) && run[|run| - 1] == s && StepBy(s, t, s') && s.threads[t].Idle?
    requires s'.threads[t].PoUndo? || s'.threads[t].PoRead?
    ensures var u := Total(s.threads);
            s'.threads[t].PoUndo? <==> |s.links| <= u.failing + u.reserved + u.uncounted
  {
    RunsAreLifo(run);
    hide IsRun, Replay, Abs, Chain, Apart, ThreadInv, Total, PushStep, PopStep;
    PopStarts(s, t, s');
    hide StepBy;
  }

  lemma PopStarts(s: State, t: nat, s': State)
    requires t < |s.threads| && StartStep(s, t, s') && (s'.threads[t].PoUndo? || s'.threads[t].PoRead?)
    requires s.threads[t].Idle?
    ensures s'.threads[t].PoUndo? <==> s.size <= 0
  {
    hide InPool;
  }

  /** With no other call in progress, a Pop fails exactly on the empty stack. */
  lemma PopFailsAlone(run: seq<State>, s: State, t: nat, s': State)
    requires IsRun(run) && run[|run| - 1] == s && StepBy(s, t, s')
    requires forall q :: 0 <= q < |s.threads| ==> s.threads[q] == Idle
    requires s'.threads[t].PoUndo? || s'.threads[t].PoRead?
    ensures s'.threads[t].PoUndo? <==> s.links == []
  {
    hide IsRun, PushStep, PopStep, StartStep, Total;
    assert s.threads[t] == Idle;
    PopFails(run, s, t, s');
    IdleTotal(s.threads);
  }

  /** Three threads on an empty stack. Thread 0 starts a Pop and has decremented; thread 1 pushes x
      and returns; thread 2 starts a Pop. */
  function FailingRun(x: int): seq<State> {
    var free := [Cell(0, DUMMY), Cell(0, DUMMY)];
    var put := [Cell(0, DUMMY), Cell(x, DUMMY)];
    [State(free, DUMMY, 0, 0, [Idle, Idle, Idle], [], []),
     State(free, DUMMY, 0, -1, [PoUndo, Idle, Idle], [], []),
     State(free, DUMMY, 0, -1, [PoUndo, PuData(1, x), Idle], [], []),
     State(put, DUMMY, 0, -1, [PoUndo, PuTag(1, x), Idle], [], []),
     State(put, DUMMY, 1, -1, [PoUndo, PuRead(1, x, 1), Idle], [], []),
     State(put, DUMMY, 1, -1, [PoUndo, PuLink(1, x, 1, DUMMY), Idle], [], []),
     State(put, DUMMY, 1, -1, [PoUndo, PuCas(1, x, 1, DUMMY), Idle], [], []),
     State(put, Ptr(1, 1), 1, -1, [PoUndo, PuCount, Idle], [Ptr(1, 1)], [Pushed(x)]),
     State(put, Ptr(1, 1), 1, 0, [PoUndo, Idle, Idle], [Ptr(1, 1)], [Pushed(x)]),
     State(put, Ptr(1, 1), 1, -1, [PoUndo, Idle, PoUndo], [Ptr(1, 1)], [Pushed(x)])]
  }

  lemma FailingRunStart(x: int)
    ensures var r := FailingRun(x); Step(r[0], r[1]) && Step(r[1], r[2]) && Step(r[2], r[3])
  {
    var r := FailingRun(x);
    assert StepBy(r[0], 0, r[1]);
    assert InPool(r[1], 1) && r[2] == Goto(r[1], 1, PuData(1, x));
    assert StepBy(r[1], 1, r[2]);
    assert StepBy(r[2], 1, r[3]);
  }

  lemma FailingRunPush(x: int)
    ensures var r := FailingRun(x); Step(r[3], r[4]) && Step(r[4], r[5]) && Step(r[5], r[6])
  {
    var r := FailingRun(x);
    assert StepBy(r[3], 1, r[4]);
    assert StepBy(r[4], 1, r[5]);
    assert StepBy(r[5], 1, r[6]);
  }

  lemma FailingRunEnd(x: int)
    ensures var r := FailingRun(x); Step(r[6], r[7]) && Step(r[7], r[8]) && Step(r[8], r[9])
  {
    var r := FailingRun(x);
    assert StepBy(r[6], 1, r[7]);
    assert StepBy(r[7], 1, r[8]);
    assert StepBy(r[8], 2, r[9]);
  }

  /** Failing Pops are not those of a sequential stack: here one fails although a Push has
      completed, no Pop has succeeded, and its node is linked. */
  lemma PopFailsOnNonEmpty(x: int)
    ensures var r := FailingRun(x);
            && IsRun(r) && r[8].threads == [PoUndo, Idle, Idle] && r[9].threads[2] == PoUndo
            && r[9].log == [Pushed(x)] && Linked(r[9].links, 1)
  {
    FailingRunStart(x);
    FailingRunPush(x);
    FailingRunEnd(x);
    hide Step;
    assert FailingRun(x)[9].links[0].node == 1;
  }
}
