/**
 The prompt admission gate (sparkdeck/prompt_gate.py, PromptLease and PromptGate):
 a FIFO gate with a live limit. A ticket is the arrival number of an acquire; row t
 of `futures` is the future that the t-th acquire waits on, with its lease once
 granted. Between awaits every operation is atomic.
 */
module PromptGate {
  import opened Wrappers
  import opened Seqs

  /** The future of one acquire; a granted one holds its lease. */
  datatype Future = Pending | Granted(released: bool) | Cancelled

  datatype Gate = Gate(active: int, waiting: seq<nat>, futures: seq<Future>)

  const EMPTY := Gate(0, [], [])

  /** max(1, int(self.limit())) */
  function Bound(limit: int): (b: int) {
    if limit > 1 then limit else 1
  }

  /** The limit, but never less than one. */
  lemma BoundIsLimit(limit: int)
    ensures limit >= 1 ==> Bound(limit) == limit
    ensures limit < 1 ==> Bound(limit) == 1
  {
  }

  predicate IsPending(g: Gate, t: nat) {
    t < |g.futures| && g.futures[t] == Pending
  }

  // ----- the operations, on values ---------------------------------------------

  /** One turn of the loop in refresh. */
  function AdmitOne(g: Gate): Gate
    requires g.waiting != []
  {
    var t, rest := g.waiting[0], g.waiting[1..];
    if IsPending(g, t) then Gate(g.active + 1, rest, g.futures[t := Granted(false)])
    else g.(waiting := rest)
  }

  function Refresh(g: Gate, limit: int): Gate
    decreases |g.waiting|
  {
    if g.waiting == [] || g.active >= Bound(limit) then g else Refresh(AdmitOne(g), limit)
  }

  function Arrive(g: Gate, limit: int): Gate {
    Refresh(Gate(g.active, g.waiting + [|g.futures|], g.futures + [Pending]), limit)
  }

  /** PromptLease.release for the lease of ticket t. */
  function Release(g: Gate, t: nat, limit: int): Gate
    requires t < |g.futures| && g.futures[t].Granted?
  {
    if g.futures[t].released then g
    else Refresh(Gate(g.active - 1, g.waiting, g.futures[t := Granted(true)]), limit)
  }

  /** deque.remove(t), with a missing t suppressed. */
  function Without(waiting: seq<nat>, t: nat): seq<nat> {
    if waiting == [] then []
    else if waiting[0] == t then waiting[1..]
    else [waiting[0]] + Without(waiting[1..], t)
  }

  /** The exception path of acquire: give back a lease that was granted meanwhile, or leave the queue. */
  function Abandon(g: Gate, t: nat, limit: int): Gate
    requires t < |g.futures|
  {
    if g.futures[t].Granted? then Release(g, t, limit)
    else Gate(g.active, Without(g.waiting, t), g.futures[t := Cancelled])
  }

  // ----- the gate itself ---------------------------------------------------------

  class PromptGate {
    var active: int
    var waiting: seq<nat>
    var futures: seq<Future>

    function State(): Gate
      reads this
    {
      Gate(active, waiting, futures)
    }

    constructor ()
      ensures State() == EMPTY
    {
      active, waiting, futures := 0, [], [];
    }

    method RefreshGate(limit: int)
      modifies this
      ensures State() == Refresh(old(State()), limit)
    {
      while waiting != [] && active < Bound(limit)
        invariant Refresh(State(), limit) == Refresh(old(State()), limit)
        decreases |waiting|
      {
        var future := waiting[0];
        waiting := waiting[1..];
        if future < |futures| && futures[future] == Pending {
          active := active + 1;
          futures := futures[future := Granted(false)];
        }
      }
    }

    /** The first section of acquire; an event that is already set aborts. */
    method Acquire(cancelled: bool, limit: int) returns (ticket: Option<nat>)
      modifies this
      ensures cancelled ==> ticket == None && State() == old(State())
      ensures !cancelled ==> ticket == Some(|old(futures)|) && State() == Arrive(old(State()), limit)
    {
      if cancelled {
        return None;
      }
      ticket := Some(|futures|);
      futures := futures + [Pending];
      waiting := waiting + [|futures| - 1];
      RefreshGate(limit);
    }

    method ReleaseLease(ticket: nat, limit: int)
      requires ticket < |futures| && futures[ticket].Granted?
      modifies this
      ensures State() == Release(old(State()), ticket, limit)
    {
      if !futures[ticket].released {
        futures := futures[ticket := Granted(true)];
        active := active - 1;
        RefreshGate(limit);
      }
    }

    /** The except clause of acquire. */
    method AbandonTicket(ticket: nat, limit: int)
      requires ticket < |futures|
      modifies this
      ensures State() == Abandon(old(State()), ticket, limit)
    {
      if futures[ticket].Granted? {
        ReleaseLease(ticket, limit);
      } else {
        futures := futures[ticket := Cancelled];
        waiting := Without(waiting, ticket);
      }
    }
  }

  // ----- the invariant -------------------------------------------------------------

  /** The number of granted leases that are not released. */
  function Held(fs: seq<Future>): nat {
    if |fs| == 0 then 0 else Held(fs[..|fs| - 1]) + (if fs[|fs| - 1] == Granted(false) then 1 else 0)
  }

  predicate Increasing(s: seq<nat>) {
    forall i, j :: 0 <= i < j < |s| ==> s[i] < s[j]
  }

  /** The queue holds exactly the pending tickets, in arrival order. */
  ghost predicate QueueIsPending(g: Gate) {
    Increasing(g.waiting) && forall t: nat :: t in g.waiting <==> IsPending(g, t)
  }

  /** Nobody is admitted past a waiter that arrived before. */
  predicate Fifo(fs: seq<Future>) {
    forall a, b :: 0 <= a < b < |fs| && fs[a] == Pending ==> !fs[b].Granted?
  }

  ghost predicate Sound(g: Gate) {
    QueueIsPending(g) && Fifo(g.futures) && g.active == Held(g.futures)
  }

  /** Someone waits only if the limit last read is used up. */
  predicate NobodyForgotten(g: Gate, limit: int) {
    g.waiting != [] ==> g.active >= Bound(limit)
  }

  lemma {:induction false} HeldUpdate(fs: seq<Future>, t: nat, f: Future)
    requires t < |fs|
    ensures Held(fs[t := f]) + (if fs[t] == Granted(false) then 1 else 0)
         == Held(fs) + (if f == Granted(false) then 1 else 0)
  {
    var n := |fs| - 1;
    if t == n {
      assert fs[t := f][..n] == fs[..n];
    } else {
      HeldUpdate(fs[..n], t, f);
      assert fs[t := f][..n] == fs[..n][t := f];
    }
  }

  /** The head of a sound queue is pending and is the oldest pending ticket, so admitting it keeps soundness. */
  lemma AdmitOneKeeps(g: Gate)
    requires Sound(g) && g.waiting != []
    ensures IsPending(g, g.waiting[0])
    ensures Sound(AdmitOne(g)) && AdmitOne(g).active == g.active + 1
    ensures forall u :: 0 <= u < g.waiting[0] ==> g.futures[u] != Pending
  {
    var t, rest := g.waiting[0], g.waiting[1..];
    assert t in g.waiting;
    HeldUpdate(g.futures, t, Granted(false));
    var h := AdmitOne(g);
    assert forall u: nat :: u in g.waiting <==> u == t || u in rest;
    assert forall u :: u in rest ==> t < u;
    forall u: nat ensures u in h.waiting <==> IsPending(h, u) {
      assert u in g.waiting <==> IsPending(g, u);
    }
    forall u | 0 <= u < t ensures g.futures[u] != Pending {
      assert u in g.waiting <==> IsPending(g, u);
    }
  }

  /** A refresh keeps soundness, forgets nobody, and raises active only up to the bound. */
  lemma {:induction false} RefreshKeeps(g: Gate, limit: int)
    requires Sound(g)
    ensures var h := Refresh(g, limit);
            Sound(h) && NobodyForgotten(h, limit) && g.active <= h.active
            && (h.active <= g.active || h.active <= Bound(limit))
    decreases |g.waiting|
  {
    hide Sound;
    if g.waiting != [] && g.active < Bound(limit) {
      AdmitOneKeeps(g);
      RefreshKeeps(AdmitOne(g), limit);
    }
  }

  function Least(a: int, b: int): int {
    if a < b then a else b
  }

  /** How many waiters a refresh admits: as many as there are, and as there is room for. */
  function Room(g: Gate, limit: int): (n: nat)
    ensures n <= |g.waiting|
  {
    if g.active >= Bound(limit) then 0 else Least(|g.waiting|, Bound(limit) - g.active)
  }

  /** A refresh admits exactly the first Room waiters, and touches no other future. */
  lemma {:induction false} RefreshAdmitsFirst(g: Gate, limit: int)
    requires Sound(g)
    ensures var h, n := Refresh(g, limit), Room(g, limit);
            && h.waiting == g.waiting[n..] && h.active == g.active + n && |h.futures| == |g.futures|
            && forall t :: 0 <= t < |g.futures| ==>
                 h.futures[t] == if t in g.waiting[..n] then Granted(false) else g.futures[t]
    decreases |g.waiting|
  {
    hide Sound;
    if g.waiting != [] && g.active < Bound(limit) {
      AdmitOneKeeps(g);
      var h := AdmitOne(g);
      RefreshAdmitsFirst(h, limit);
      var n := Room(h, limit);
      assert Room(g, limit) == n + 1;
      assert g.waiting[..n + 1] == [g.waiting[0]] + h.waiting[..n];
      assert g.waiting[n + 1..] == h.waiting[n..];
    } else {
      assert g.waiting[0..] == g.waiting;
    }
  }

  lemma ArriveKeeps(g: Gate, limit: int)
    requires Sound(g)
    ensures Sound(Arrive(g, limit)) && NobodyForgotten(Arrive(g, limit), limit)
    ensures Arrive(g, limit).active <= g.active || Arrive(g, limit).active <= Bound(limit)
  {
    hide Refresh;
    var n := |g.futures|;
    var h := Gate(g.active, g.waiting + [n], g.futures + [Pending]);
    forall t: nat ensures t in h.waiting <==> IsPending(h, t) {
      assert t in g.waiting <==> IsPending(g, t);
    }
    assert forall t :: t in g.waiting ==> IsPending(g, t);
    SnocIncreasing(g.waiting, n);
    RefreshKeeps(h, limit);
  }

  lemma SnocIncreasing(s: seq<nat>, u: nat)
    requires Increasing(s) && forall v :: v in s ==> v < u
    ensures Increasing(s + [u])
  {
    assert forall j :: 0 <= j < |s| ==> s[j] in s;
  }

  lemma ReleaseKeeps(g: Gate, t: nat, limit: int)
    requires Sound(g) && t < |g.futures| && g.futures[t].Granted?
    ensures Sound(Release(g, t, limit))
    ensures !g.futures[t].released ==> NobodyForgotten(Release(g, t, limit), limit)
    ensures Release(g, t, limit).active <= g.active || Release(g, t, limit).active <= Bound(limit)
  {
    hide Refresh;
    if !g.futures[t].released {
      var h := Gate(g.active - 1, g.waiting, g.futures[t := Granted(true)]);
      HeldUpdate(g.futures, t, Granted(true));
      forall u: nat ensures u in h.waiting <==> IsPending(h, u) {
        assert u in g.waiting <==> IsPending(g, u);
      }
      assert h.active == Held(h.futures);
      assert Fifo(h.futures);
      RefreshKeeps(h, limit);
    }
  }

  lemma {:induction false} WithoutIncreasing(s: seq<nat>, t: nat)
    requires Increasing(s)
    ensures Increasing(Without(s, t))
    ensures forall u :: u in Without(s, t) <==> u in s && u != t
  {
    if s != [] {
      var rest := s[1..];
      assert forall i, j :: 0 <= i < j < |rest| ==> rest[i] == s[i + 1] < s[j + 1] == rest[j];
      WithoutIncreasing(rest, t);
      if s[0] != t {
        ConsIncreasing(s[0], Without(rest, t));
      }
    }
  }

  lemma ConsIncreasing(u: nat, s: seq<nat>)
    requires Increasing(s) && forall v :: v in s ==> u < v
    ensures Increasing([u] + s)
  {
    assert forall j :: 0 <= j < |s| ==> s[j] in s;
  }

  lemma AbandonKeeps(g: Gate, t: nat, limit: int)
    requires Sound(g) && t < |g.futures|
    ensures Sound(Abandon(g, t, limit))
    ensures g.futures[t] == Granted(false) ==> NobodyForgotten(Abandon(g, t, limit), limit)
    ensures Abandon(g, t, limit).active <= g.active || Abandon(g, t, limit).active <= Bound(limit)
  {
    hide Refresh, Without;
    if g.futures[t].Granted? {
      ReleaseKeeps(g, t, limit);
    } else {
      WithoutIncreasing(g.waiting, t);
      HeldUpdate(g.futures, t, Cancelled);
      var h := Abandon(g, t, limit);
      forall u: nat ensures u in h.waiting <==> IsPending(h, u) {
        assert u in g.waiting <==> IsPending(g, u);
      }
    }
  }

  /** Releasing twice is releasing once. */
  lemma ReleaseIdempotent(g: Gate, t: nat, limit: int, later: int)
    requires Sound(g) && t < |g.futures| && g.futures[t].Granted?
    ensures var h := Release(g, t, limit);
            t < |h.futures| && h.futures[t] == Granted(true) && Release(h, t, later) == h
  {
    hide Refresh;
    if !g.futures[t].released {
      var h := Gate(g.active - 1, g.waiting, g.futures[t := Granted(true)]);
      HeldUpdate(g.futures, t, Granted(true));
      forall u: nat ensures u in h.waiting <==> IsPending(h, u) {
        assert u in g.waiting <==> IsPending(g, u);
      }
      RefreshAdmitsFirst(h, limit);
      assert !IsPending(g, t);
      assert t in h.waiting[..Room(h, limit)] ==> t in h.waiting;
    }
  }
}
