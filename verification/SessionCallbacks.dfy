/**
 The two programs together: what the session machine's calls of onAccept and onRelease push into the
 chat server's queue, in every run and whatever the peers send, and what the player map then holds.
 */
module SessionCallbacks {
  import opened SessionModel
  import opened SessionInvariant
  import opened SessionSystem
  import opened SessionTheorems
  import opened SessionSends
  import opened SessionSteps
  import opened ChatCallbacks
  import ChatRuns
  import ChatServer

  /** What a step at this place pushes into the chat server's queue. */
  function Pushed(pc: PC, s: Slot): seq<Arrival> {
    if pc.AcNotify? then [Arrival(ChatServer.Event(s.id, ChatServer.PlayerAlloc, 0), false)]
    else if pc.RlNotify? then [Arrival(ChatServer.Event(s.id, ChatServer.PlayerDelete, 0), false)]
    else []
  }

  /** The queue is what it was, and behind it what a step from a to b has pushed. */
  ghost predicate FedBy(a: Sys, b: Sys, front: seq<Arrival>, q: seq<Arrival>) {
    exists t: nat, i: nat :: StepBy(a, b, t, i) && q == front + Pushed(a.threads[t], a.slots[i])
  }

  /** The queue, with nothing taken out, holds what the steps of the run have pushed, in their order,
      and in between any packets of any peers. */
  ghost predicate Feeds(run: seq<Sys>, q: seq<Arrival>)
    decreases |run| + |q|
  {
    if q != [] && q[|q| - 1].peer then Feeds(run, q[..|q| - 1])
    else if |run| <= 1 then q == []
    else
      var a, b, before := run[|run| - 2], run[|run| - 1], run[..|run| - 1];
      exists front: seq<Arrival> :: |front| <= |q| && FedBy(a, b, front, q) && Feeds(before, front)
  }

  /** The id has been handed out by onAccept. */
  ghost predicate Announced(a: Sys, id: int) {
    exists j: nat :: j < |a.slots| && id in a.slots[j].h.issued
  }

  /** The id has been given to onRelease. */
  ghost predicate Gone(a: Sys, id: int) {
    exists j: nat :: j < |a.slots| && id in a.slots[j].h.released
  }

  lemma NothingAnnounced(a: Sys, id: int)
    requires Init(a)
    ensures !Announced(a, id) && !Gone(a, id)
  {
    forall j: nat | j < |a.slots| ensures a.slots[j].h.issued == {} == a.slots[j].h.released {
      assert a.slots[j] == InitSlot(j, true) || a.slots[j] == InitSlot(j, false);
    }
  }

  lemma AfterStep(a: Sys, b: Sys, t: nat, i: nat, id: int)
    requires StepBy(a, b, t, i)
    ensures Announced(b, id) <==> Announced(a, id) || (a.threads[t].AcNotify? && id == a.slots[i].id)
    ensures Gone(b, id) <==> Gone(a, id) || (a.threads[t].RlNotify? && id == a.slots[i].id)
  {
    hide SlotStep;
    StepEffect(a.g, i, a.threads[t], a.slots[i], b.g, b.slots[i], b.threads[t]);
    assert forall j: nat :: j < |a.slots| && j != i ==> b.slots[j] == a.slots[j];
    forall j: nat | j < |a.slots| && id in a.slots[j].h.issued ensures Announced(b, id) {
      assert id in b.slots[j].h.issued;
    }
    forall j: nat | j < |a.slots| && id in a.slots[j].h.released ensures Gone(b, id) {
      assert id in b.slots[j].h.released;
    }
    if a.threads[t].AcNotify? { assert a.slots[i].id in b.slots[i].h.issued; }
    if a.threads[t].RlNotify? { assert a.slots[i].id in b.slots[i].h.released; }
  }

  lemma OnPlace(a: Sys, b: Sys, t: nat, i: nat)
    requires StepBy(a, b, t, i) && (a.threads[t].AcNotify? || a.threads[t].RlNotify?)
    ensures a.threads[t].i == i
  {
    hide AcceptStep, ReleaseStep;
  }

  /** An id belongs to the slot that it names. */
  lemma IdsOfSlot(run: seq<Sys>, a: Sys, j: nat, id: int)
    requires RunTo(run, a) && j < |a.slots|
    ensures IdxOf(a.slots[j].id) == j
    ensures id in a.slots[j].h.issued ==> IdxOf(id) == j
    ensures id in a.slots[j].h.released ==> IdxOf(id) == j && id in a.slots[j].h.issued
  {
    hide RunTo, CountInv, OwnerInv, SendInv, RecvInv, OrderInv, Nests;
    AtSlot(run, a, j);
  }

  /** A callback about to be made keeps its promise: onAccept gets an id that nobody has been given,
      onRelease one that has been handed out and not released. */
  lemma PromiseKept(run: seq<Sys>, a: Sys, b: Sys, t: nat, i: nat)
    requires RunTo(run, a) && StepBy(a, b, t, i)
    ensures a.threads[t].AcNotify? ==> !Announced(a, a.slots[i].id)
    ensures a.threads[t].RlNotify? ==> Announced(a, a.slots[i].id) && !Gone(a, a.slots[i].id)
  {
    hide RunTo, SlotStep;
    if a.threads[t].AcNotify? || a.threads[t].RlNotify? {
      OnPlace(a, b, t, i);
      IdsAreFresh(run, a, t, i);
      var id := a.slots[i].id;
      IdsOfSlot(run, a, i, id);
      forall j: nat | j < |a.slots|
        ensures a.threads[t].AcNotify? ==> id !in a.slots[j].h.issued
        ensures a.threads[t].RlNotify? ==> id !in a.slots[j].h.released
      {
        IdsAreFresh(run, a, t, j);
        IdsOfSlot(run, a, j, id);
      }
    }
  }

  /** What the queue tells and what the library has done are the same. */
  ghost predicate InStep(a: Sys, q: seq<Arrival>) {
    && Disciplined(q)
    && (forall id :: id in Accepted(q) <==> Announced(a, id))
    && (forall id :: id in Released(q) <==> Gone(a, id))
  }

  lemma PushedInStep(run: seq<Sys>, a: Sys, b: Sys, t: nat, i: nat, front: seq<Arrival>, q: seq<Arrival>)
    requires RunTo(run, a) && StepBy(a, b, t, i) && InStep(a, front)
    requires q == front + Pushed(a.threads[t], a.slots[i])
    ensures InStep(b, q)
  {
    hide RunTo, SlotStep, Announced, Gone;
    PromiseKept(run, a, b, t, i);
    forall id
      ensures Announced(b, id) <==> Announced(a, id) || (a.threads[t].AcNotify? && id == a.slots[i].id)
      ensures Gone(b, id) <==> Gone(a, id) || (a.threads[t].RlNotify? && id == a.slots[i].id)
    {
      AfterStep(a, b, t, i, id);
    }
    if a.threads[t].AcNotify? || a.threads[t].RlNotify? {
      assert q[..|q| - 1] == front;
    } else {
      assert q == front;
    }
  }

  lemma PeerInStep(a: Sys, q: seq<Arrival>)
    requires q != [] && q[|q| - 1].peer && InStep(a, q[..|q| - 1])
    ensures InStep(a, q)
  {
    hide Announced, Gone;
  }

  /** In every run, whatever the peers send: the session machine announces an id once, and releases it
      at most once and after that. */
  lemma {:induction false} CallbacksAreDisciplined(run: seq<Sys>, q: seq<Arrival>)
    requires IsRun(run) && Feeds(run, q)
    ensures InStep(run[|run| - 1], q)
    decreases |run| + |q|
  {
    hide InStep, FedBy, Init, Bounds, Step;
    if q != [] && q[|q| - 1].peer {
      CallbacksAreDisciplined(run, q[..|q| - 1]);
      PeerInStep(run[|run| - 1], q);
    } else if |run| <= 1 {
      NothingPushed(run);
    } else {
      var a, b, before := run[|run| - 2], run[|run| - 1], run[..|run| - 1];
      var front :| |front| <= |q| && FedBy(a, b, front, q) && Feeds(before, front);
      ShorterRun(run);
      CallbacksAreDisciplined(before, front);
      OneMoreInStep(before, a, b, front, q);
    }
  }

  lemma OneMoreInStep(run: seq<Sys>, a: Sys, b: Sys, front: seq<Arrival>, q: seq<Arrival>)
    requires RunTo(run, a) && FedBy(a, b, front, q) && InStep(a, front)
    ensures InStep(b, q)
  {
    hide RunTo, SlotStep, InStep;
    var t: nat, i: nat :| StepBy(a, b, t, i) && q == front + Pushed(a.threads[t], a.slots[i]);
    PushedInStep(run, a, b, t, i, front, q);
  }

  lemma NothingPushed(run: seq<Sys>)
    requires IsRun(run) && |run| <= 1
    ensures InStep(run[|run| - 1], [])
  {
    hide Init, Announced, Gone;
    forall id ensures !Announced(run[0], id) && !Gone(run[0], id) { NothingAnnounced(run[0], id); }
  }

  /** Library and chat server together, in every run: the player map is exact and the assertions of
      PlayerAlloc and PlayerDelete hold in every state, if and only if no peer sends one of the two. */
  lemma RunIsSound(run: seq<Sys>, q: seq<Arrival>)
    requires IsRun(run) && Feeds(run, q)
    ensures Sound(q) <==> NoneForged(q)
  {
    hide Sound, NoneForged, Feeds, IsRun, Announced, Gone;
    CallbacksAreDisciplined(run, q);
    NetworkPacketsQuiet(q);
  }

  /** The chat server's players, once it has caught up, are the sessions that some slot has announced
      and not released. */
  lemma PlayersAreSessions(run: seq<Sys>, a: Sys, q: seq<Arrival>, id: int)
    requires RunTo(run, a) && Feeds(run, q) && NoneForged(q)
    ensures id in ChatRuns.Players(Events(q)) <==>
            exists j: nat :: j < |a.slots| && id in a.slots[j].h.issued && id !in a.slots[j].h.released
  {
    hide NoneForged, Feeds, IsRun;
    CallbacksAreDisciplined(run, q);
    KnownSessions(q);
    assert id in ChatRuns.Players(Events(q)) <==> Announced(a, id) && !Gone(a, id);
    forall j: nat | j < |a.slots| && id in a.slots[j].h.issued && id !in a.slots[j].h.released
      ensures !Gone(a, id)
    {
      forall k: nat | k < |a.slots| ensures id !in a.slots[k].h.released {
        IdsOfSlot(run, a, j, id);
        IdsOfSlot(run, a, k, id);
      }
    }
  }
}
