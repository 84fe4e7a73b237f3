/**
 All requests of one serving group on one gate (sparkdeck/prompt_gate.py,
 PromptGate.acquire and run with their streams): every interleaving of arrivals,
 grants, cancellations, releases, stream steps and limit changes. Request t is the
 t-th that entered the queue.
 */
module PromptRequests {
  import opened Wrappers
  import opened PromptGate
  import PS = PromptStream
  import OD = OutputDetector

  /** Where a request is: in acquire, in its factory's task, in run's cleanup, behind a stream, or over. */
  datatype Phase =
    | Acquiring
    | Running
    | CleaningUp
    | Streaming(upstream: seq<string>, stream: PS.Stream)
    | Ended

  /** `lastRead` is the limit at the last refresh; `decrements` lists the tickets whose lease was given back. */
  datatype System = System(gate: Gate, phases: seq<Phase>, limit: int, lastRead: int, decrements: seq<nat>)

  datatype Event =
    | Enter(cancelled: bool)             // run() is called
    | GiveUp(t: nat)                     // acquire is cancelled, or finds its event set
    | Admit(t: nat)                      // acquire returns the lease
    | Return(t: nat)                     // the factory returns no stream or raises, or the request is cancelled
    | CleanUp(t: nat)                    // run's cleanup has ended
    | HandOff(t: nat, upstream: seq<string>)
    | StreamStep(t: nat, step: PS.Step)
    | SetLimit(limit: int)
    | RefreshAll

  function Initial(limit: int): System {
    System(EMPTY, [], limit, limit, [])
  }

  predicate Enabled(s: System, e: Event) {
    match e
    case GiveUp(t) => t < |s.phases| && t < |s.gate.futures| && s.phases[t] == Acquiring
    case Admit(t) => t < |s.phases| && t < |s.gate.futures| && s.phases[t] == Acquiring && s.gate.futures[t].Granted?
    case Return(t) => t < |s.phases| && s.phases[t] == Running
    case CleanUp(t) => t < |s.phases| && s.phases[t] == CleaningUp && t < |s.gate.futures| && s.gate.futures[t].Granted?
    case HandOff(t, _) => t < |s.phases| && s.phases[t] == Running
    case StreamStep(t, _) => t < |s.phases| && s.phases[t].Streaming? && t < |s.gate.futures| && s.gate.futures[t].Granted?
    case _ => true
  }

  /** lease.release() */
  function ReleaseIn(s: System, t: nat): System
    requires t < |s.gate.futures| && s.gate.futures[t].Granted?
  {
    if s.gate.futures[t].released then s
    else s.(gate := Release(s.gate, t, s.limit), lastRead := s.limit, decrements := s.decrements + [t])
  }

  function To(s: System, t: nat, phase: Phase): System
    requires t < |s.phases|
  {
    s.(phases := s.phases[t := phase])
  }

  function Next(decode: OD.Decoder, s: System, e: Event): System {
    if !Enabled(s, e) then s
    else
      match e
      case Enter(cancelled) =>
        if cancelled then s
        else s.(gate := Arrive(s.gate, s.limit), lastRead := s.limit, phases := s.phases + [Acquiring])
      case GiveUp(t) =>
        if s.gate.futures[t].Granted? then To(ReleaseIn(s, t), t, Ended)
        else To(s.(gate := Abandon(s.gate, t, s.limit)), t, Ended)
      case Admit(t) => To(s, t, Running)
      case Return(t) => To(s, t, CleaningUp)
      case CleanUp(t) => To(ReleaseIn(s, t), t, Ended)
      case HandOff(t, upstream) => To(s, t, Streaming(upstream, PS.Fresh(upstream)))
      case StreamStep(t, step) =>
        var (stream, release) := PS.Next(decode, s.phases[t].stream, s.gate.futures[t].released, step);
        var after := To(s, t, Streaming(s.phases[t].upstream, stream));
        if release then ReleaseIn(after, t) else after
      case SetLimit(limit) => s.(limit := limit)
      case RefreshAll => s.(gate := Refresh(s.gate, s.limit), lastRead := s.limit)
  }

  /** The state after a run of events. */
  function Run(decode: OD.Decoder, s: System, events: seq<Event>): System {
    if |events| == 0 then s else Next(decode, Run(decode, s, events[..|events| - 1]), events[|events| - 1])
  }

  // ----- what holds in every reachable state ---------------------------------------

  /** A request's future fits where the request is. */
  ghost predicate Fits(decode: OD.Decoder, future: Future, phase: Phase) {
    match phase
    case Acquiring => future == Pending || future == Granted(false)
    case Running => future == Granted(false)
    case CleaningUp => future == Granted(false)
    case Streaming(upstream, stream) => future.Granted? && PS.Sound(decode, upstream, stream, future.released)
    case Ended => future == Granted(true) || future == Cancelled
  }

  ghost predicate AllFit(decode: OD.Decoder, fs: seq<Future>, ps: seq<Phase>) {
    |fs| == |ps| && forall t :: 0 <= t < |fs| ==> Fits(decode, fs[t], ps[t])
  }

  predicate Distinct(s: seq<nat>) {
    forall i, j :: 0 <= i < j < |s| ==> s[i] != s[j]
  }

  /** Exactly the released leases were given back, each once. */
  ghost predicate GivenBackOnce(fs: seq<Future>, decrements: seq<nat>) {
    Distinct(decrements) && forall t: nat :: t in decrements <==> t < |fs| && fs[t] == Granted(true)
  }

  ghost predicate Safe(decode: OD.Decoder, s: System) {
    && Sound(s.gate)
    && NobodyForgotten(s.gate, s.lastRead)
    && AllFit(decode, s.gate.futures, s.phases)
    && GivenBackOnce(s.gate.futures, s.decrements)
  }

  /** What gate operations do to other tickets: at most grant what was pending. */
  predicate Same(a: Future, b: Future) {
    b == a || (a == Pending && b == Granted(false))
  }

  lemma RefreshEffect(g: Gate, limit: int)
    requires Sound(g)
    ensures |Refresh(g, limit).futures| == |g.futures|
    ensures forall t :: 0 <= t < |g.futures| ==> Same(g.futures[t], Refresh(g, limit).futures[t])
  {
    hide Refresh;
    RefreshAdmitsFirst(g, limit);
    var w := g.waiting[..Room(g, limit)];
    assert forall t :: t in w ==> t in g.waiting;
  }

  lemma ReleaseEffect(g: Gate, t: nat, limit: int)
    requires Sound(g) && t < |g.futures| && g.futures[t] == Granted(false)
    ensures var h := Release(g, t, limit);
            && |h.futures| == |g.futures| && h.futures[t] == Granted(true)
            && forall u :: 0 <= u < |g.futures| && u != t ==> Same(g.futures[u], h.futures[u])
  {
    hide Refresh, Fifo;
    var h := Gate(g.active - 1, g.waiting, g.futures[t := Granted(true)]);
    HeldUpdate(g.futures, t, Granted(true));
    assert forall u: nat :: IsPending(g, u) <==> IsPending(h, u);
    assert Fifo(h.futures) by { FifoUpdate(g.futures, t); }
    RefreshEffect(h, limit);
  }

  lemma FifoUpdate(fs: seq<Future>, t: nat)
    requires Fifo(fs) && t < |fs| && fs[t].Granted?
    ensures Fifo(fs[t := Granted(true)])
  {
  }

  lemma ArriveEffect(g: Gate, limit: int)
    requires Sound(g)
    ensures var h := Arrive(g, limit);
            && |h.futures| == |g.futures| + 1 && Same(Pending, h.futures[|g.futures|])
            && forall u :: 0 <= u < |g.futures| ==> Same(g.futures[u], h.futures[u])
  {
    hide Refresh;
    var n := |g.futures|;
    var h := Gate(g.active, g.waiting + [n], g.futures + [Pending]);
    assert Sound(h) by {
      forall t: nat ensures t in h.waiting <==> IsPending(h, t) {
        assert t in g.waiting <==> IsPending(g, t);
      }
      assert forall t :: t in g.waiting ==> IsPending(g, t);
      SnocIncreasing(g.waiting, n);
    }
    RefreshEffect(h, limit);
  }

  /** Same futures, one of them changed: the request of that one moves on, the others still fit. */
  lemma FitAfter(decode: OD.Decoder, fs: seq<Future>, gs: seq<Future>, ps: seq<Phase>, t: nat, phase: Phase)
    requires AllFit(decode, fs, ps) && |gs| == |fs| && t < |fs|
    requires forall u :: 0 <= u < |fs| && u != t ==> Same(fs[u], gs[u])
    requires Fits(decode, gs[t], phase)
    ensures AllFit(decode, gs, ps[t := phase])
  {
    hide PS.Sound;
    var qs := ps[t := phase];
    forall u | 0 <= u < |gs| ensures Fits(decode, gs[u], qs[u]) {
      assert Fits(decode, fs[u], ps[u]);
      assert u != t ==> Same(fs[u], gs[u]);
    }
  }

  lemma GivenBackSame(fs: seq<Future>, gs: seq<Future>, ds: seq<nat>)
    requires GivenBackOnce(fs, ds) && |gs| >= |fs|
    requires forall u :: 0 <= u < |fs| ==> Same(fs[u], gs[u])
    requires forall u :: |fs| <= u < |gs| ==> gs[u] != Granted(true)
    ensures GivenBackOnce(gs, ds)
  {
    forall t: nat ensures t in ds <==> t < |gs| && gs[t] == Granted(true) {
      assert t in ds <==> t < |fs| && fs[t] == Granted(true);
    }
  }

  lemma GivenBackNext(fs: seq<Future>, gs: seq<Future>, ds: seq<nat>, t: nat)
    requires GivenBackOnce(fs, ds) && |gs| == |fs| && t < |fs| && fs[t] == Granted(false) && gs[t] == Granted(true)
    requires forall u :: 0 <= u < |fs| && u != t ==> Same(fs[u], gs[u])
    ensures GivenBackOnce(gs, ds + [t])
  {
    assert t !in ds;
    assert forall i :: 0 <= i < |ds| ==> ds[i] in ds;
    forall u: nat ensures u in ds + [t] <==> u < |gs| && gs[u] == Granted(true) {
      assert u in ds <==> u < |fs| && fs[u] == Granted(true);
      assert u < |fs| && u != t ==> Same(fs[u], gs[u]);
    }
  }

  /** Releasing, while the request moves to a phase that fits a released lease. */
  lemma ReleaseInKeeps(decode: OD.Decoder, s: System, t: nat, phase: Phase)
    requires Safe(decode, s) && t < |s.gate.futures| && s.gate.futures[t].Granted?
    requires Fits(decode, Granted(true), phase)
    ensures Safe(decode, To(ReleaseIn(s, t), t, phase))
  {
    hide Sound, Release, Fits, NobodyForgotten, GivenBackOnce;
    if s.gate.futures[t].released {
      FitAfter(decode, s.gate.futures, s.gate.futures, s.phases, t, phase);
    } else {
      ReleaseKeeps(s.gate, t, s.limit);
      ReleaseEffect(s.gate, t, s.limit);
      var after := Release(s.gate, t, s.limit).futures;
      FitAfter(decode, s.gate.futures, after, s.phases, t, phase);
      GivenBackNext(s.gate.futures, after, s.decrements, t);
    }
  }

  lemma EnterKeeps(decode: OD.Decoder, s: System)
    requires Safe(decode, s)
    ensures Safe(decode, Next(decode, s, Enter(false)))
  {
    hide Sound, Arrive, NobodyForgotten, GivenBackOnce, PS.Sound;
    ArriveKeeps(s.gate, s.limit);
    ArriveEffect(s.gate, s.limit);
    var after := Next(decode, s, Enter(false));
    forall u | 0 <= u < |after.gate.futures| ensures Fits(decode, after.gate.futures[u], after.phases[u]) {
      if u < |s.phases| {
        assert Fits(decode, s.gate.futures[u], s.phases[u]);
        assert Same(s.gate.futures[u], after.gate.futures[u]);
      }
    }
    GivenBackSame(s.gate.futures, after.gate.futures, s.decrements);
  }

  lemma GiveUpKeeps(decode: OD.Decoder, s: System, t: nat)
    requires Safe(decode, s) && Enabled(s, GiveUp(t))
    ensures Safe(decode, Next(decode, s, GiveUp(t)))
  {
    hide Sound, Release, NobodyForgotten, Without, PS.Sound, GivenBackOnce;
    assert Fits(decode, s.gate.futures[t], s.phases[t]);
    if s.gate.futures[t].Granted? {
      ReleaseInKeeps(decode, s, t, Ended);
    } else {
      AbandonKeeps(s.gate, t, s.limit);
      var after := Abandon(s.gate, t, s.limit);
      assert after.futures == s.gate.futures[t := Cancelled];
      FitAfter(decode, s.gate.futures, after.futures, s.phases, t, Ended);
      CancelGivesNothingBack(s.gate.futures, t, s.decrements);
      LeavingForgetsNobody(s.gate, t, s.limit, s.lastRead);
    }
  }

  lemma CancelGivesNothingBack(fs: seq<Future>, t: nat, ds: seq<nat>)
    requires GivenBackOnce(fs, ds) && t < |fs| && fs[t] == Pending
    ensures GivenBackOnce(fs[t := Cancelled], ds)
  {
    var gs := fs[t := Cancelled];
    forall u: nat ensures u in ds <==> u < |gs| && gs[u] == Granted(true) {
      assert u in ds <==> u < |fs| && fs[u] == Granted(true);
    }
  }

  lemma LeavingForgetsNobody(g: Gate, t: nat, limit: int, lastRead: int)
    requires NobodyForgotten(g, lastRead) && t < |g.futures| && !g.futures[t].Granted?
    ensures NobodyForgotten(Abandon(g, t, limit), lastRead)
  {
  }

  lemma RefreshAllKeeps(decode: OD.Decoder, s: System)
    requires Safe(decode, s)
    ensures Safe(decode, Next(decode, s, RefreshAll))
  {
    hide Sound, Refresh, NobodyForgotten, GivenBackOnce, PS.Sound;
    RefreshKeeps(s.gate, s.limit);
    RefreshEffect(s.gate, s.limit);
    var after := Refresh(s.gate, s.limit);
    forall u | 0 <= u < |after.futures| ensures Fits(decode, after.futures[u], s.phases[u]) {
      assert Fits(decode, s.gate.futures[u], s.phases[u]);
      assert Same(s.gate.futures[u], after.futures[u]);
    }
    GivenBackSame(s.gate.futures, after.futures, s.decrements);
  }

  lemma StreamStepKeeps(decode: OD.Decoder, s: System, t: nat, step: PS.Step)
    requires Safe(decode, s) && Enabled(s, StreamStep(t, step))
    ensures Safe(decode, Next(decode, s, StreamStep(t, step)))
  {
    hide Sound, NobodyForgotten, GivenBackOnce, PS.Sound, PS.Next, Release;
    assert Fits(decode, s.gate.futures[t], s.phases[t]);
    var upstream, released := s.phases[t].upstream, s.gate.futures[t].released;
    PS.StepKeeps(decode, upstream, s.phases[t].stream, released, step);
    var (stream, release) := PS.Next(decode, s.phases[t].stream, released, step);
    var phase := Streaming(upstream, stream);
    if release {
      ReleaseInKeeps(decode, s, t, phase);
      assert Next(decode, s, StreamStep(t, step)) == To(ReleaseIn(s, t), t, phase);
    }
  }

  lemma HandOffKeeps(decode: OD.Decoder, s: System, t: nat, upstream: seq<string>)
    requires Safe(decode, s) && Enabled(s, HandOff(t, upstream))
    ensures Safe(decode, Next(decode, s, HandOff(t, upstream)))
  {
    hide Sound, NobodyForgotten, GivenBackOnce, PS.Sound;
    assert Fits(decode, s.gate.futures[t], s.phases[t]);
    PS.FreshIsSound(decode, upstream);
  }

  lemma NextKeeps(decode: OD.Decoder, s: System, e: Event)
    requires Safe(decode, s)
    ensures Safe(decode, Next(decode, s, e))
  {
    hide Sound, NobodyForgotten, GivenBackOnce, PS.Sound, Release, Arrive, Refresh;
    if Enabled(s, e) {
      match e {
        case Enter(cancelled) => if !cancelled { EnterKeeps(decode, s); }
        case GiveUp(t) => GiveUpKeeps(decode, s, t);
        case Admit(t) =>
          assert Fits(decode, s.gate.futures[t], s.phases[t]);
        case Return(t) =>
          assert Fits(decode, s.gate.futures[t], s.phases[t]);
        case CleanUp(t) => ReleaseInKeeps(decode, s, t, Ended);
        case HandOff(t, upstream) => HandOffKeeps(decode, s, t, upstream);
        case StreamStep(t, step) => StreamStepKeeps(decode, s, t, step);
        case SetLimit(_) =>
        case RefreshAll => RefreshAllKeeps(decode, s);
      }
    }
  }

  lemma InitialIsSafe(decode: OD.Decoder, limit: int)
    ensures Safe(decode, Initial(limit))
  {
  }

  /**
   In every run: active is the number of unreleased leases, nobody is admitted past
   an earlier waiter, nobody waits while the limit last read has room, every future
   fits its request (so every stream delivers in order and holds its lease until its
   first output), and every lease is given back at most once, when it is released.
   */
  lemma {:induction false} RunIsSafe(decode: OD.Decoder, limit: int, events: seq<Event>)
    ensures Safe(decode, Run(decode, Initial(limit), events))
  {
    hide Safe, Next;
    if |events| == 0 {
      InitialIsSafe(decode, limit);
    } else {
      RunIsSafe(decode, limit, events[..|events| - 1]);
      NextKeeps(decode, Run(decode, Initial(limit), events[..|events| - 1]), events[|events| - 1]);
    }
  }

  // ----- consequences ------------------------------------------------------------------

  /**
   A request that no longer owns anything: run has ended without a stream, or the
   stream's producer has ended its cleanup, its done callback has run, or aclose()
   has ended; a producer cancelled before its first turn only has the last two.
   */
  predicate Over(phase: Phase) {
    phase == Ended || (phase.Streaming? && PS.IsOver(phase.stream))
  }

  /** The done callback gives the lease back, whether or not the producer ever had a turn. */
  lemma CallbackReleases(decode: OD.Decoder, s: System, t: nat)
    requires Safe(decode, s) && t < |s.phases| && s.phases[t].Streaming? && PS.Enabled(s.phases[t].stream, PS.Callback)
    ensures var after := Next(decode, s, StreamStep(t, PS.Callback));
            t < |after.gate.futures| && after.gate.futures[t] == Granted(true) && Over(after.phases[t])
  {
    hide Sound, NobodyForgotten, GivenBackOnce, PS.Sound, Release;
    assert Fits(decode, s.gate.futures[t], s.phases[t]);
    var stream := s.phases[t].stream;
    assert PS.Next(decode, stream, s.gate.futures[t].released, PS.Callback)
        == (stream.(phase := stream.phase.(calledBack := true)), true);
    if !s.gate.futures[t].released {
      ReleaseEffect(s.gate, t, s.limit);
    }
  }

  /**
   No request is stuck: one in acquire can give up, and go on once it is granted; one
   that runs can return or hand its result off; a cleanup can end, and gives the lease
   back; a stream that is not at its end can take a step that brings it nearer. A new
   limit is the limit from then on.
   */
  lemma RequestsMove(decode: OD.Decoder, s: System, t: nat, upstream: seq<string>, limit: int)
    requires Safe(decode, s) && t < |s.phases|
    ensures match s.phases[t]
            case Acquiring =>
              && Next(decode, s, GiveUp(t)).phases == s.phases[t := Ended]
              && (s.gate.futures[t].Granted? ==> Next(decode, s, Admit(t)) == s.(phases := s.phases[t := Running]))
              && (s.gate.futures[t] == Pending ==> Next(decode, s, Admit(t)) == s)
            case Running =>
              && Next(decode, s, Return(t)) == s.(phases := s.phases[t := CleaningUp])
              && Next(decode, s, HandOff(t, upstream)) == s.(phases := s.phases[t := Streaming(upstream, PS.Fresh(upstream))])
            case CleaningUp =>
              var u := Next(decode, s, CleanUp(t));
              u.phases == s.phases[t := Ended] && t < |u.gate.futures| && u.gate.futures[t] == Granted(true)
            case Streaming(_, stream) =>
              !PS.AtEnd(stream) ==>
                var u := Next(decode, s, StreamStep(t, PS.Forward(stream)));
                |u.phases| == |s.phases| && u.phases[t].Streaming? && PS.Work(u.phases[t].stream) < PS.Work(stream)
            case Ended => true
    ensures Next(decode, s, SetLimit(limit)) == s.(limit := limit)
  {
    hide Sound, NobodyForgotten, GivenBackOnce, PS.Sound, PS.Next, PS.Work, PS.Forward, Release, Abandon;
    assert Fits(decode, s.gate.futures[t], s.phases[t]);
    match s.phases[t] {
      case CleaningUp => ReleaseEffect(s.gate, t, s.limit);
      case Streaming(upstream', stream) =>
        if !PS.AtEnd(stream) {
          PS.NeverStuck(decode, upstream', stream, s.gate.futures[t].released);
        }
      case _ =>
    }
  }

  lemma {:induction false} NoneHeld(fs: seq<Future>)
    requires forall t :: 0 <= t < |fs| ==> fs[t] != Granted(false)
    ensures Held(fs) == 0
  {
    if |fs| > 0 {
      NoneHeld(fs[..|fs| - 1]);
    }
  }

  lemma OverIsNotHeld(decode: OD.Decoder, future: Future, phase: Phase)
    requires Fits(decode, future, phase) && Over(phase)
    ensures future != Granted(false)
  {
    hide PS.InOrder, PS.HeldUntilOutput, PS.CancelledForAReason;
  }

  /** When every request is over, every slot is free again and nobody waits. */
  lemma NothingLeaks(decode: OD.Decoder, s: System)
    requires Safe(decode, s) && forall t :: 0 <= t < |s.phases| ==> Over(s.phases[t])
    ensures s.gate.active == 0 && s.gate.waiting == []
    ensures forall t: nat :: t < |s.gate.futures| && s.gate.futures[t].Granted? ==> t in s.decrements
  {
    hide Fits, Over;
    forall t | 0 <= t < |s.gate.futures| ensures s.gate.futures[t] != Granted(false) {
      OverIsNotHeld(decode, s.gate.futures[t], s.phases[t]);
    }
    NoneHeld(s.gate.futures);
  }

  /** A free slot is never kept from a waiter: when no lease is out, nobody waits. */
  lemma NoLostWakeUp(decode: OD.Decoder, s: System)
    requires Safe(decode, s) && s.gate.waiting != []
    ensures exists t :: 0 <= t < |s.gate.futures| && s.gate.futures[t] == Granted(false)
  {
    if forall t :: 0 <= t < |s.gate.futures| ==> s.gate.futures[t] != Granted(false) {
      NoneHeld(s.gate.futures);
    }
  }

  /** active rises only up to the current bound. */
  lemma RisesWithinBound(decode: OD.Decoder, s: System, e: Event)
    requires Safe(decode, s)
    ensures var t := Next(decode, s, e); t.gate.active <= s.gate.active || t.gate.active <= Bound(s.limit)
  {
    hide Sound, NobodyForgotten, GivenBackOnce, PS.Sound, PS.Next, Release, Arrive, Refresh, Abandon, Bound;
    if Enabled(s, e) {
      match e {
        case Enter(_) => ArriveKeeps(s.gate, s.limit);
        case GiveUp(t) =>
          if s.gate.futures[t].Granted? {
            ReleaseKeeps(s.gate, t, s.limit);
          } else {
            AbandonKeeps(s.gate, t, s.limit);
          }
        case CleanUp(t) => ReleaseKeeps(s.gate, t, s.limit);
        case StreamStep(t, _) => ReleaseKeeps(s.gate, t, s.limit);
        case RefreshAll => RefreshKeeps(s.gate, s.limit);
        case _ =>
      }
    }
  }

  predicate LimitsWithin(events: seq<Event>, most: int) {
    forall i :: 0 <= i < |events| && events[i].SetLimit? ==> events[i].limit <= most
  }

  lemma {:induction false} LimitStaysWithin(decode: OD.Decoder, limit: int, events: seq<Event>, most: int)
    requires limit <= most && LimitsWithin(events, most)
    ensures Run(decode, Initial(limit), events).limit <= most
  {
    hide PS.Next, Release, Arrive, Refresh, Abandon;
    if |events| > 0 {
      LimitStaysWithin(decode, limit, events[..|events| - 1], most);
    }
  }

  /** No more requests are in the prompt phase at once than the largest limit that was ever set allows. */
  lemma {:induction false} NeverMoreThanTheLimit(decode: OD.Decoder, limit: int, events: seq<Event>, most: int)
    requires limit <= most && LimitsWithin(events, most)
    ensures Run(decode, Initial(limit), events).gate.active <= if most >= 1 then most else 1
  {
    hide Next, Safe;
    if |events| > 0 {
      var init := events[..|events| - 1];
      NeverMoreThanTheLimit(decode, limit, init, most);
      RunIsSafe(decode, limit, init);
      LimitStaysWithin(decode, limit, init, most);
      RisesWithinBound(decode, Run(decode, Initial(limit), init), events[|events| - 1]);
    }
  }
}
