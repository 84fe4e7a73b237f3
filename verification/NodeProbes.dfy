/**
 Generation-checked status probes of one paired node (cluster.py, NodeRegistry):
 forced, shared and background probes, interleaved with invalidations. A status
 carries the generation of the oldest reading in it; nothing in the registry
 depends on that.
 */
module NodeProbes {
  import opened Wrappers

  /**
   A snapshot: `docker` tells whether it has a docker_ready field, `detailed` whether
   it holds the agent's telemetry; `oldest` is the generation at its oldest reading.
   */
  datatype Status = Status(online: bool, docker: bool, detailed: bool, oldest: nat)

  /**
   What the requests of a probe come to: no request for a disabled node, an exception,
   or an answer. `telemetry` is None when only the health endpoint answered (for a
   probe with details: because the status request failed), and else tells whether
   the agent's status has a docker_ready field.
   */
  datatype Outcome = Disabled | Unreachable | Reached(telemetry: Option<bool>)

  /** What a probe has to build a snapshot from; `carried` is the snapshot that was cached when it began. */
  datatype Reading = Reading(generation: nat, carried: Option<Status>)

  datatype Phase = Created | Active(reading: Reading) | Finished(status: Status, reading: Reading, outcome: Outcome) | Dropped

  datatype Task = Task(details: bool, phase: Phase)

  /** What a call of probe() comes to; `via` is the task that it waited for, if it did. */
  datatype Answer = Waits(task: nat) | Got(status: Status, via: Option<nat>)

  datatype Registry = Registry(generation: nat, cache: Option<(real, Status)>, inflight: Option<nat>, tasks: seq<Task>)

  const CACHE_TTL := 4.0
  const NEGATIVE_SERVE := 60.0

  predicate IsDone(t: Task) {
    t.phase.Finished? || t.phase.Dropped?
  }

  /** A cached entry that is fresh, and rich enough for the caller. */
  predicate IsReusable(entry: (real, Status), details: bool, now: real) {
    now - entry.0 < CACHE_TTL && (!details || entry.1.docker || !entry.1.online)
  }

  predicate IsServableNegative(entry: (real, Status), details: bool, allowStale: bool, now: real) {
    details && allowStale && !entry.1.online && now - entry.0 < NEGATIVE_SERVE
  }

  predicate IsReusableProbe(r: Registry, details: bool) {
    && r.inflight.Some? && r.inflight.value < |r.tasks|
    && !IsDone(r.tasks[r.inflight.value]) && (r.tasks[r.inflight.value].details || !details)
  }

  // ----- the operations, on values ----------------------------------------------

  function Invalidate(r: Registry): Registry {
    r.(cache := None, generation := r.generation + 1)
  }

  function StartProbe(r: Registry, details: bool): Registry {
    r.(tasks := r.tasks + [Task(details, Created)], inflight := Some(|r.tasks|))
  }

  function EnsureProbe(r: Registry, details: bool): Registry {
    if IsReusableProbe(r, details) then r else StartProbe(r, details)
  }

  function Probe(r: Registry, force: bool, details: bool, allowStale: bool, now: real): (Registry, Answer) {
    if !force && r.cache.Some? && IsReusable(r.cache.value, details, now) then (r, Got(r.cache.value.1, None))
    else if !force && r.cache.Some? && IsServableNegative(r.cache.value, details, allowStale, now) then
      (EnsureProbe(r, true), Got(r.cache.value.1, None))
    else if !force && IsReusableProbe(r, details) then (r, Waits(r.inflight.value))
    else (StartProbe(r, details), Waits(|r.tasks|))
  }

  /** The cached snapshot, as a probe keeps it. */
  function Carried(r: Registry): Option<Status> {
    if r.cache.Some? then Some(r.cache.value.1) else None
  }

  function Begin(r: Registry, t: nat): Registry
    requires t < |r.tasks|
  {
    r.(tasks := r.tasks[t := r.tasks[t].(phase := Active(Reading(r.generation, Carried(r))))])
  }

  function Older(a: nat, b: nat): nat {
    if a < b then a else b
  }

  /** The generation of a reading that also uses what it carries. */
  function OldestOf(reading: Reading): nat {
    if reading.carried.Some? then Older(reading.carried.value.oldest, reading.generation) else reading.generation
  }

  /**
   The snapshot of a probe: without telemetry a probe with details falls back to the
   cached snapshot, if there was one; an unreachable node keeps when it was last seen.
   */
  function Snapshot(reading: Reading, details: bool, outcome: Outcome): Status {
    match outcome
    case Disabled => Status(false, false, false, reading.generation)
    case Unreachable => Status(false, false, false, OldestOf(reading))
    case Reached(Some(docker)) => Status(true, docker, true, reading.generation)
    case Reached(None) =>
      if details && reading.carried.Some? then
        Status(true, reading.carried.value.docker, reading.carried.value.detailed, OldestOf(reading))
      else Status(true, false, false, reading.generation)
  }

  /** The end of _probe_now: publish, or start over when an invalidation came in between. */
  function Complete(r: Registry, t: nat, outcome: Outcome, now: real): Registry
    requires t < |r.tasks| && r.tasks[t].phase.Active?
  {
    var reading := r.tasks[t].phase.reading;
    if reading.generation != r.generation then Begin(r, t)
    else
      var status := Snapshot(reading, r.tasks[t].details, outcome);
      r.(cache := Some((now, status)), tasks := r.tasks[t := r.tasks[t].(phase := Finished(status, reading, outcome))])
  }

  function Forget(r: Registry, t: nat): Registry {
    if r.inflight == Some(t) then r.(inflight := None) else r
  }

  // ----- the registry itself ---------------------------------------------------------

  class NodeRegistry {
    var generation: nat
    var cache: Option<(real, Status)>
    var inflight: Option<nat>
    var tasks: seq<Task>

    function State(): Registry
      reads this
    {
      Registry(generation, cache, inflight, tasks)
    }

    constructor ()
      ensures State() == Registry(0, None, None, [])
    {
      generation, cache, inflight, tasks := 0, None, None, [];
    }

    method InvalidateStatus()
      modifies this
      ensures State() == Invalidate(old(State()))
    {
      cache := None;
      generation := generation + 1;
    }

    method StartTask(details: bool) returns (task: nat)
      modifies this
      ensures State() == StartProbe(old(State()), details) && task == |old(tasks)|
    {
      task := |tasks|;
      tasks := tasks + [Task(details, Created)];
      inflight := Some(task);
    }

    /** probe(), up to its first await. */
    method ProbeNode(force: bool, details: bool, allowStale: bool, now: real) returns (answer: Answer)
      modifies this
      ensures (State(), answer) == Probe(old(State()), force, details, allowStale, now)
    {
      if !force && cache.Some? {
        var age, entry := now - cache.value.0, cache.value.1;
        if age < CACHE_TTL && (!details || entry.docker || !entry.online) {
          return Got(entry, None);
        }
        if details && allowStale && !entry.online && age < NEGATIVE_SERVE {
          if !IsReusableProbe(State(), true) {
            var _ := StartTask(true);
          }
          return Got(entry, None);
        }
      }
      if !force && IsReusableProbe(State(), details) {
        return Waits(inflight.value);
      }
      var task := StartTask(details);
      answer := Waits(task);
    }

    method BeginTask(task: nat)
      requires task < |tasks|
      modifies this`tasks
      ensures State() == Begin(old(State()), task)
    {
      var carried := if cache.Some? then Some(cache.value.1) else None;
      tasks := tasks[task := tasks[task].(phase := Active(Reading(generation, carried)))];
    }

    method CompleteTask(task: nat, outcome: Outcome, now: real)
      requires task < |tasks| && tasks[task].phase.Active?
      modifies this
      ensures State() == Complete(old(State()), task, outcome, now)
    {
      var reading := tasks[task].phase.reading;
      if reading.generation != generation {
        BeginTask(task);
        return;
      }
      var status := Snapshot(reading, tasks[task].details, outcome);
      cache := Some((now, status));
      tasks := tasks[task := tasks[task].(phase := Finished(status, reading, outcome))];
    }

    method ForgetTask(task: nat)
      modifies this`inflight
      ensures State() == Forget(old(State()), task)
    {
      if inflight == Some(task) {
        inflight := None;
      }
    }
  }

  // ----- runs --------------------------------------------------------------------------

  /** A call of probe(): the generation when it was made, and its answer so far. */
  datatype Call = Call(details: bool, since: nat, answer: Answer)

  datatype System = System(registry: Registry, calls: seq<Call>)

  datatype Event =
    | InvalidateNow
    | CallProbe(force: bool, details: bool, allowStale: bool, now: real)
    | BeginRead(t: nat)
    | EndRead(t: nat, outcome: Outcome, now: real)
    | Drop(t: nat)             // the task is cancelled
    | Callback(t: nat)         // the done callback of a task
    | Resume(c: nat)           // a waiting call gets its task's result

  const START := System(Registry(0, None, None, []), [])

  predicate Enabled(s: System, e: Event) {
    match e
    case BeginRead(t) => t < |s.registry.tasks| && s.registry.tasks[t].phase == Created
    case EndRead(t, _, _) => t < |s.registry.tasks| && s.registry.tasks[t].phase.Active?
    case Drop(t) => t < |s.registry.tasks| && !IsDone(s.registry.tasks[t])
    case Callback(t) => t < |s.registry.tasks| && IsDone(s.registry.tasks[t])
    case Resume(c) =>
      c < |s.calls| && s.calls[c].answer.Waits? && s.calls[c].answer.task < |s.registry.tasks|
      && s.registry.tasks[s.calls[c].answer.task].phase.Finished?
    case _ => true
  }

  function Next(s: System, e: Event): System {
    var r := s.registry;
    if !Enabled(s, e) then s
    else
      match e
      case InvalidateNow => s.(registry := Invalidate(r))
      case CallProbe(force, details, allowStale, now) =>
        var (after, answer) := Probe(r, force, details, allowStale, now);
        System(after, s.calls + [Call(details, r.generation, answer)])
      case BeginRead(t) => s.(registry := Begin(r, t))
      case EndRead(t, outcome, now) => s.(registry := Complete(r, t, outcome, now))
      case Drop(t) => s.(registry := r.(tasks := r.tasks[t := r.tasks[t].(phase := Dropped)]))
      case Callback(t) => s.(registry := Forget(r, t))
      case Resume(c) =>
        var t := s.calls[c].answer.task;
        s.(calls := s.calls[c := s.calls[c].(answer := Got(r.tasks[t].phase.status, Some(t)))])
  }

  function Run(events: seq<Event>): System {
    if |events| == 0 then START else Next(Run(events[..|events| - 1]), events[|events| - 1])
  }

  // ----- safety --------------------------------------------------------------------------

  /** A snapshot of a node that is up has telemetry, and a docker_ready field only comes with it. */
  predicate IsConsistent(s: Status) {
    (s.docker ==> s.detailed) && (s.detailed ==> s.online)
  }

  /** What is cached was read, all of it, in the current generation. */
  predicate CacheIsCurrent(r: Registry) {
    r.cache.Some? ==> r.cache.value.1.oldest == r.generation && IsConsistent(r.cache.value.1)
  }

  /** A probe reads in a generation that has begun, and carries a snapshot of the same one. */
  predicate ReadingFits(reading: Reading, generation: nat) {
    && reading.generation <= generation
    && (reading.carried.Some? ==> reading.carried.value.oldest == reading.generation && IsConsistent(reading.carried.value))
  }

  predicate TaskFits(t: Task, generation: nat) {
    match t.phase
    case Active(reading) => ReadingFits(reading, generation)
    case Finished(status, reading, outcome) => ReadingFits(reading, generation) && status == Snapshot(reading, t.details, outcome)
    case _ => true
  }

  /** What a caller with details asks for: telemetry, or the news that there is no node to read it from. */
  predicate HasDetails(s: Status) {
    s.detailed || !s.online
  }

  /** The status request failed, and no telemetry was cached to fall back to. */
  predicate LacksTelemetry(reading: Reading, outcome: Outcome) {
    outcome == Reached(None) && !(reading.carried.Some? && reading.carried.value.detailed)
  }

  /** A call has, or will get, a snapshot that was read since it was made; from the cache with details, else from a probe that asked for them. */
  predicate CallFits(c: Call, r: Registry) {
    && c.since <= r.generation
    && match c.answer
       case Got(status, None) => c.since <= status.oldest && (c.details ==> HasDetails(status))
       case Got(status, Some(t)) =>
         && t < |r.tasks| && (c.details ==> r.tasks[t].details) && c.since <= status.oldest
         && r.tasks[t].phase.Finished? && r.tasks[t].phase.status == status
       case Waits(t) =>
         && t < |r.tasks| && (c.details ==> r.tasks[t].details)
         && (r.tasks[t].phase.Finished? ==> c.since <= r.tasks[t].phase.status.oldest)
  }

  predicate Safe(s: System) {
    && CacheIsCurrent(s.registry)
    && (forall t :: 0 <= t < |s.registry.tasks| ==> TaskFits(s.registry.tasks[t], s.registry.generation))
    && forall c :: 0 <= c < |s.calls| ==> CallFits(s.calls[c], s.registry)
  }

  lemma ProbeKeeps(s: System, e: Event)
    requires Safe(s) && e.CallProbe?
    ensures Safe(Next(s, e))
  {
    var after := Next(s, e);
    assert forall t :: 0 <= t < |s.registry.tasks| ==> after.registry.tasks[t] == s.registry.tasks[t];
    forall c | 0 <= c < |after.calls| ensures CallFits(after.calls[c], after.registry) {
      if c < |s.calls| {
        assert CallFits(s.calls[c], s.registry);
      }
    }
  }

  /** A probe that completes in its own generation publishes a snapshot of that generation. */
  lemma EndReadKeeps(s: System, e: Event)
    requires Safe(s) && e.EndRead? && Enabled(s, e)
    ensures Safe(Next(s, e))
  {
    var r, after := s.registry, Next(s, e).registry;
    assert TaskFits(r.tasks[e.t], r.generation);
    assert TaskFits(after.tasks[e.t], r.generation);
    forall c | 0 <= c < |s.calls| ensures CallFits(s.calls[c], after) {
      assert CallFits(s.calls[c], r);
    }
  }

  lemma NextKeeps(s: System, e: Event)
    requires Safe(s)
    ensures Safe(Next(s, e))
  {
    hide Probe, Complete;
    if Enabled(s, e) {
      match e {
        case CallProbe(_, _, _, _) => ProbeKeeps(s, e);
        case EndRead(_, _, _) => EndReadKeeps(s, e);
        case InvalidateNow =>
          forall c | 0 <= c < |s.calls| ensures CallFits(s.calls[c], Invalidate(s.registry)) {
            assert CallFits(s.calls[c], s.registry);
          }
        case BeginRead(t) =>
        case Drop(t) =>
        case Callback(t) =>
          forall c | 0 <= c < |s.calls| ensures CallFits(s.calls[c], Forget(s.registry, t)) {
            assert CallFits(s.calls[c], s.registry);
          }
        case Resume(c) =>
          assert CallFits(s.calls[c], s.registry);
          assert TaskFits(s.registry.tasks[s.calls[c].answer.task], s.registry.generation);
      }
    }
  }

  lemma {:induction false} RunIsSafe(events: seq<Event>)
    ensures Safe(Run(events))
  {
    hide Safe, Next;
    if |events| == 0 {
      assert Safe(START) by { StartIsSafe(); }
    } else {
      RunIsSafe(events[..|events| - 1]);
      NextKeeps(Run(events[..|events| - 1]), events[|events| - 1]);
    }
  }

  lemma StartIsSafe()
    ensures Safe(START)
  {
  }

  /** In every interleaving: what is cached was read entirely in the current generation. */
  lemma CachedIsCurrent(events: seq<Event>)
    ensures var r := Run(events).registry; r.cache.Some? ==> r.cache.value.1.oldest == r.generation
  {
    hide Run;
    RunIsSafe(events);
  }

  /** In every interleaving: what a call of probe() returns was read since the last invalidation before the call. */
  lemma ReturnedIsFresh(events: seq<Event>, c: nat)
    requires c < |Run(events).calls| && Run(events).calls[c].answer.Got?
    ensures Run(events).calls[c].answer.status.oldest >= Run(events).calls[c].since
  {
    hide Run;
    RunIsSafe(events);
    assert CallFits(Run(events).calls[c], Run(events).registry);
  }

  /**
   In every interleaving, for a call with details: an answer from the cache has them;
   an answer from a probe, shared or its own, has them if and only if it is not true
   that the probe's status request failed with no telemetry cached when it began.
   */
  lemma ReturnedHasDetailsIff(events: seq<Event>, c: nat)
    requires c < |Run(events).calls| && Run(events).calls[c].details && Run(events).calls[c].answer.Got?
    ensures var status, via := Run(events).calls[c].answer.status, Run(events).calls[c].answer.via;
            if via.None? then HasDetails(status)
            else
              && via.value < |Run(events).registry.tasks| && Run(events).registry.tasks[via.value].phase.Finished?
              && var phase := Run(events).registry.tasks[via.value].phase;
                 HasDetails(status) <==> !LacksTelemetry(phase.reading, phase.outcome)
  {
    hide Run;
    RunIsSafe(events);
    var s := Run(events);
    assert CallFits(s.calls[c], s.registry);
    if s.calls[c].answer.via.Some? {
      assert TaskFits(s.registry.tasks[s.calls[c].answer.via.value], s.registry.generation);
    }
  }

  const FAILED_TELEMETRY := [CallProbe(false, true, false, 0.0), BeginRead(0), EndRead(0, Reached(None), 0.0), Resume(0)]

  lemma RunStep(events: seq<Event>, n: nat)
    requires n < |events|
    ensures Run(events[..n + 1]) == Next(Run(events[..n]), events[n])
  {
    assert events[..n + 1][..n] == events[..n];
  }

  /** A first probe whose status request fails answers a call that asked for details without them. */
  lemma DetailsCanBeMissing()
    ensures var s := Run(FAILED_TELEMETRY);
            |s.calls| == 1 && s.calls[0].details && s.calls[0].answer.Got? && !HasDetails(s.calls[0].answer.status)
  {
    var events := FAILED_TELEMETRY;
    assert events[..0] == [] && events[..4] == events;
    RunStep(events, 0);
    RunStep(events, 1);
    RunStep(events, 2);
    RunStep(events, 3);
  }

  /** A snapshot is published only by a probe whose reading lies in the current generation; any other probe reads again. */
  lemma PublishedIsCurrent(events: seq<Event>, t: nat, outcome: Outcome, now: real)
    requires Enabled(Run(events), EndRead(t, outcome, now))
    ensures var before := Run(events).registry;
            var after := Next(Run(events), EndRead(t, outcome, now)).registry;
            if before.tasks[t].phase.reading.generation == before.generation
            then after.tasks[t].phase.Finished? && after.cache == Some((now, after.tasks[t].phase.status))
                 && after.tasks[t].phase.status.oldest == after.generation
            else after.cache == before.cache && after.tasks[t].phase.Active? && after.tasks[t].phase.reading.generation == after.generation
  {
    hide Run;
    RunIsSafe(events);
    assert TaskFits(Run(events).registry.tasks[t], Run(events).registry.generation);
  }

  // ----- what is answered, and from where -------------------------------------------------

  /** The status is what some finished probe came to. */
  predicate IsPublished(r: Registry, status: Status) {
    exists t :: 0 <= t < |r.tasks| && FinishedWith(r.tasks[t], status)
  }

  predicate FinishedWith(t: Task, status: Status) {
    t.phase.Finished? && t.phase.status == status && SaysWhatWasRead(t.details, t.phase.reading, t.phase.outcome, status)
  }

  /**
   Online exactly if the node answered; docker_ready exactly if the status that was read
   has it, or if a probe with details had to fall back to a cached one that has it.
   */
  predicate SaysWhatWasRead(details: bool, reading: Reading, outcome: Outcome, status: Status) {
    && (status.online <==> outcome.Reached?)
    && (status.docker <==> outcome == Reached(Some(true))
                           || (outcome == Reached(None) && details && reading.carried.Some? && reading.carried.value.docker))
    && (outcome.Reached? && outcome.telemetry.Some? ==> status.detailed)
  }

  /** Whatever was cached or answered is what a finished probe came to. */
  predicate AllPublished(s: System) {
    && (forall t :: 0 <= t < |s.registry.tasks| && s.registry.tasks[t].phase.Finished?
          ==> FinishedWith(s.registry.tasks[t], s.registry.tasks[t].phase.status))
    && (s.registry.cache.Some? ==> IsPublished(s.registry, s.registry.cache.value.1))
    && forall c :: 0 <= c < |s.calls| && s.calls[c].answer.Got? ==> IsPublished(s.registry, s.calls[c].answer.status)
  }

  /** Finished probes stay as they are. */
  predicate KeepsFinished(r: Registry, t: Registry) {
    |r.tasks| <= |t.tasks| && forall i :: 0 <= i < |r.tasks| && r.tasks[i].phase.Finished? ==> t.tasks[i] == r.tasks[i]
  }

  lemma StaysPublished(r: Registry, t: Registry, status: Status)
    requires IsPublished(r, status) && KeepsFinished(r, t)
    ensures IsPublished(t, status)
  {
    var i :| 0 <= i < |r.tasks| && FinishedWith(r.tasks[i], status);
    assert FinishedWith(t.tasks[i], status);
  }

  lemma NextKeepsFinished(s: System, e: Event)
    ensures KeepsFinished(s.registry, Next(s, e).registry)
  {
  }

  lemma SnapshotSays(reading: Reading, details: bool, outcome: Outcome)
    ensures SaysWhatWasRead(details, reading, outcome, Snapshot(reading, details, outcome))
  {
  }

  lemma NextKeepsPublished(s: System, e: Event)
    requires AllPublished(s)
    ensures AllPublished(Next(s, e))
  {
    hide Snapshot, SaysWhatWasRead, IsPublished, KeepsFinished;
    var after := Next(s, e);
    NextKeepsFinished(s, e);
    if Enabled(s, e) {
      if e.EndRead? {
        EndReadPublishes(s, e);
      }
      FinishedStay(s, e);
      if s.registry.cache.Some? {
        StaysPublished(s.registry, after.registry, s.registry.cache.value.1);
      }
      forall c | 0 <= c < |after.calls| && after.calls[c].answer.Got? ensures IsPublished(after.registry, after.calls[c].answer.status) {
        if c < |s.calls| && s.calls[c].answer.Got? {
          StaysPublished(s.registry, after.registry, s.calls[c].answer.status);
        } else if e.Resume? {
          TaskIsPublished(s.registry, s.calls[e.c].answer.task);
        }
      }
    }
  }

  lemma TaskIsPublished(r: Registry, t: nat)
    requires t < |r.tasks| && r.tasks[t].phase.Finished? && FinishedWith(r.tasks[t], r.tasks[t].phase.status)
    ensures IsPublished(r, r.tasks[t].phase.status)
  {
  }

  lemma EndReadPublishes(s: System, e: Event)
    requires e.EndRead? && Enabled(s, e) && AllPublished(s)
    ensures var r := Next(s, e).registry; r.cache.Some? ==> IsPublished(r, r.cache.value.1)
  {
    hide Snapshot, SaysWhatWasRead;
    var r, after := s.registry, Next(s, e).registry;
    var reading := r.tasks[e.t].phase.reading;
    if reading.generation == r.generation {
      SnapshotSays(reading, r.tasks[e.t].details, e.outcome);
      assert FinishedWith(after.tasks[e.t], after.cache.value.1);
    } else if r.cache.Some? {
      NextKeepsFinished(s, e);
      StaysPublished(r, after, r.cache.value.1);
    }
  }

  lemma FinishedStay(s: System, e: Event)
    requires Enabled(s, e) && AllPublished(s)
    ensures var r := Next(s, e).registry;
            forall t :: 0 <= t < |r.tasks| && r.tasks[t].phase.Finished? ==> FinishedWith(r.tasks[t], r.tasks[t].phase.status)
  {
    hide Snapshot, SaysWhatWasRead, IsPublished;
    if e.EndRead? {
      SnapshotSays(s.registry.tasks[e.t].phase.reading, s.registry.tasks[e.t].details, e.outcome);
    }
  }

  /**
   In every interleaving: whatever a call of probe() returns or the cache holds is what
   some finished probe came to, online exactly if the node answered that probe.
   */
  lemma {:induction false} AnswersSayWhatWasRead(events: seq<Event>)
    ensures AllPublished(Run(events))
  {
    hide AllPublished, Next;
    if |events| == 0 {
      assert AllPublished(START) by { NothingPublished(); }
    } else {
      AnswersSayWhatWasRead(events[..|events| - 1]);
      NextKeepsPublished(Run(events[..|events| - 1]), events[|events| - 1]);
    }
  }

  lemma NothingPublished()
    ensures AllPublished(START)
  {
  }

  /** Which cached entries answer a call: for 4 seconds any that is rich enough or negative, for 60 a negative one on request. */
  predicate AnswersCall(entry: (real, Status), details: bool, allowStale: bool, now: real) {
    || (now - entry.0 < 4.0 && (details && entry.1.online ==> entry.1.docker))
    || (now - entry.0 < 60.0 && details && allowStale && !entry.1.online)
  }

  /** A probe that a call with these details may wait for, in flight. */
  predicate IsInFlight(r: Registry, t: nat, details: bool) {
    t < |r.tasks| && r.inflight == Some(t) && !IsDone(r.tasks[t]) && (details ==> r.tasks[t].details)
  }

  /**
   After every run, up to its first await: a call is answered from the cache if and only
   if it is not forced and an entry answers it; a stale one also has a refresh in flight.
   Any other call waits for a probe in flight that is rich enough: the one that was in
   flight before, if it was and the call is not forced, and else a new one.
   */
  lemma CallIsAnsweredIff(events: seq<Event>, force: bool, details: bool, allowStale: bool, now: real)
    ensures var s := Run(events);
            var t := Run(events + [CallProbe(force, details, allowStale, now)]);
            var answered := !force && s.registry.cache.Some? && AnswersCall(s.registry.cache.value, details, allowStale, now);
            && |t.calls| == |s.calls| + 1 && t.calls[..|s.calls|] == s.calls
            && var answer := t.calls[|s.calls|].answer;
               if answered then
                 && answer == Got(s.registry.cache.value.1, None)
                 && (now - s.registry.cache.value.0 >= 4.0 ==> exists i :: IsInFlight(t.registry, i, true))
               else
                 && answer.Waits? && IsInFlight(t.registry, answer.task, details)
                 && (answer.task == |s.registry.tasks|
                     <==> force || !(exists i :: IsInFlight(s.registry, i, details)))
  {
    hide Run;
    var s := Run(events);
    var e := CallProbe(force, details, allowStale, now);
    RunSnoc(events, e);
    InFlightIff(s.registry, details);
    InFlightIff(s.registry, true);
    InFlightIff(Next(s, e).registry, true);
    InFlightIff(Next(s, e).registry, details);
  }

  lemma RunSnoc(events: seq<Event>, e: Event)
    ensures Run(events + [e]) == Next(Run(events), e)
  {
    assert (events + [e])[..|events|] == events;
  }

  lemma InFlightIff(r: Registry, details: bool)
    ensures IsReusableProbe(r, details) <==> exists i :: IsInFlight(r, i, details)
  {
    if IsReusableProbe(r, details) {
      assert IsInFlight(r, r.inflight.value, details);
    }
  }

  // ----- generations and tasks, from the events alone --------------------------------------

  function Invalidations(events: seq<Event>): nat {
    if |events| == 0 then 0
    else Invalidations(events[..|events| - 1]) + if events[|events| - 1] == InvalidateNow then 1 else 0
  }

  lemma NextGeneration(s: System, e: Event)
    ensures Next(s, e).registry.generation == s.registry.generation + if e == InvalidateNow then 1 else 0
  {
    hide Snapshot;
  }

  /** The generation counts the invalidations. */
  lemma {:induction false} GenerationCounts(events: seq<Event>)
    ensures Run(events).registry.generation == Invalidations(events)
  {
    hide Next;
    if |events| > 0 {
      GenerationCounts(events[..|events| - 1]);
      NextGeneration(Run(events[..|events| - 1]), events[|events| - 1]);
    }
  }

  /** A call's `since` is the number of invalidations before it was made. */
  lemma CallsCount(events: seq<Event>, force: bool, details: bool, allowStale: bool, now: real)
    ensures var s, t := Run(events), Run(events + [CallProbe(force, details, allowStale, now)]);
            |t.calls| == |s.calls| + 1 && t.calls[|s.calls|].since == Invalidations(events) && t.calls[|s.calls|].details == details
  {
    hide Run, Probe;
    GenerationCounts(events);
    RunSnoc(events, CallProbe(force, details, allowStale, now));
  }

  /** A snapshot is no younger than anything in it. */
  lemma OldestIsOldest(reading: Reading)
    ensures OldestOf(reading) <= reading.generation
    ensures reading.carried.Some? ==> OldestOf(reading) <= reading.carried.value.oldest
    ensures OldestOf(reading) == reading.generation || reading.carried.Some?
  {
  }

  /**
   After every run: a cancelled task is done, and stays without a status; the callback of
   a task takes it, and no other, out of flight; an invalidation empties the cache.
   */
  lemma TaskEvents(events: seq<Event>, t: nat)
    ensures var r := Run(events).registry;
            && (Enabled(Run(events), Drop(t)) ==>
                  var q := Run(events + [Drop(t)]).registry;
                  t < |q.tasks| && IsDone(q.tasks[t]) && !q.tasks[t].phase.Finished? && q.cache == r.cache && q.inflight == r.inflight)
            && (Enabled(Run(events), Callback(t)) ==>
                  var q := Run(events + [Callback(t)]).registry;
                  q.inflight != Some(t) && (r.inflight != Some(t) ==> q.inflight == r.inflight) && q.tasks == r.tasks && q.cache == r.cache)
            && var q := Run(events + [InvalidateNow]).registry;
               q.cache == None && q.tasks == r.tasks && q.inflight == r.inflight
  {
    hide Run, Probe, Snapshot;
    RunSnoc(events, Drop(t));
    RunSnoc(events, Callback(t));
    RunSnoc(events, InvalidateNow);
  }
}
