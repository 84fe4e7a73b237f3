/**
 Token accounting of one serving unit (sparkdeck/live_metrics.py, _Series and
 LiveHistory.tick/end): cumulative per-request counters are turned into tokens per
 bucket. A bucket here holds its tokens, from which the rates are computed;
 `closed` is the history of all buckets that were ever closed.
 */
module LiveMetrics {
  import opened Wrappers
  import opened Seqs

  datatype State = Output | Thinking | Prefill

  /** One live request as a tick reads it. */
  datatype Record = Record(rid: nat, state: State, tokens: nat)

  /** A baseline in `previous`. */
  datatype Sample = Sample(rid: nat, tokens: nat)

  datatype Bucket = Bucket(output: nat, thinking: nat)

  datatype Series = Series(buckets: seq<Bucket>, times: seq<real>, opened': real, output: nat, thinking: nat,
                           pendingOutput: nat, pendingThinking: nat, previous: seq<Sample>,
                           closed: seq<Bucket>)

  const MAX_BUCKETS := 3600

  function NewSeries(now: real): Series {
    Series([], [], now, 0, 0, 0, 0, [], [])
  }

  function Find(ps: seq<Sample>, rid: nat): Option<Sample> {
    if |ps| == 0 then None else if ps[0].rid == rid then Some(ps[0]) else Find(ps[1..], rid)
  }

  function Without(ps: seq<Sample>, rid: nat): seq<Sample> {
    if |ps| == 0 then [] else if ps[0].rid == rid then ps[1..] else [ps[0]] + Without(ps[1..], rid)
  }

  function Growth(from: nat, to: nat): nat {
    if to > from then to - from else 0
  }

  /** The tokens that one record adds to a state. */
  function Delta(ps: seq<Sample>, r: Record, state: State): nat {
    var p := Find(ps, r.rid);
    if p.Some? && r.state == state then Growth(p.value.tokens, r.tokens) else 0
  }

  function Deltas(ps: seq<Sample>, rs: seq<Record>, state: State): nat {
    if |rs| == 0 then 0 else Deltas(ps, rs[..|rs| - 1], state) + Delta(ps, rs[|rs| - 1], state)
  }

  /** The baselines after a sample. */
  function Samples(rs: seq<Record>): (r: seq<Sample>)
    ensures |r| == |rs|
  {
    if |rs| == 0 then [] else [Sample(rs[0].rid, rs[0].tokens)] + Samples(rs[1..])
  }

  // ----- the operations, on values ---------------------------------------------

  function Flush(s: Series): Series {
    s.(output := s.output + s.pendingOutput, thinking := s.thinking + s.pendingThinking, pendingOutput := 0, pendingThinking := 0)
  }

  function Fold(s: Series, rs: seq<Record>): Series {
    s.(output := s.output + Deltas(s.previous, rs, Output), thinking := s.thinking + Deltas(s.previous, rs, Thinking),
       previous := Samples(rs))
  }

  /** deque.append with a maximal length */
  function Push<T>(d: seq<T>, x: T): seq<T> {
    if |d| >= MAX_BUCKETS then d[1..] + [x] else d + [x]
  }

  function Close(s: Series, closedAt: real, now: real): Series {
    s.(buckets := Push(s.buckets, Bucket(s.output, s.thinking)), times := Push(s.times, closedAt),
       closed := s.closed + [Bucket(s.output, s.thinking)], opened' := now, output := 0, thinking := 0)
  }

  /** One tick: the records of the unit's live, unpaused requests, and none when it has none. */
  function Tick(s: Series, rs: seq<Record>, now: real, interval: real): Series {
    var folded := Fold(Flush(s), rs);
    if now - s.opened' >= interval then Close(folded, s.opened' + interval, now) else folded
  }

  function End(s: Series, r: Record, paused: bool): Series {
    if paused then s
    else
      var f := Flush(s);
      var p := Find(f.previous, r.rid);
      var popped := f.(previous := Without(f.previous, r.rid));
      if p.None? then popped
      else
        Flush(popped.(
          pendingOutput := if r.state == Output then Growth(p.value.tokens, r.tokens) else 0,
          pendingThinking := if r.state == Thinking then Growth(p.value.tokens, r.tokens) else 0))
  }

  // ----- the series itself ---------------------------------------------------------

  class SeriesRecorder {
    var buckets: seq<Bucket>
    var times: seq<real>
    var opened': real
    var output: nat
    var thinking: nat
    var pendingOutput: nat
    var pendingThinking: nat
    var previous: seq<Sample>
    var closed: seq<Bucket>

    function State(): Series
      reads this
    {
      Series(buckets, times, opened', output, thinking, pendingOutput, pendingThinking, previous, closed)
    }

    constructor (now: real)
      ensures State() == NewSeries(now)
    {
      buckets, times, opened', output, thinking := [], [], now, 0, 0;
      pendingOutput, pendingThinking, previous, closed := 0, 0, [], [];
    }

    method FlushPending()
      modifies this`output, this`thinking, this`pendingOutput, this`pendingThinking
      ensures State() == Flush(old(State()))
    {
      output := output + pendingOutput;
      thinking := thinking + pendingThinking;
      pendingOutput, pendingThinking := 0, 0;
    }

    method FoldSample(records: seq<Record>)
      modifies this`output, this`thinking, this`previous
      ensures State() == Fold(old(State()), records)
    {
      var outputDelta, thinkingDelta := 0, 0;
      var current: seq<Sample> := [];
      for i := 0 to |records|
        invariant State() == old(State())
        invariant outputDelta == Deltas(previous, records[..i], Output)
        invariant thinkingDelta == Deltas(previous, records[..i], Thinking)
        invariant current + Samples(records[i..]) == Samples(records)
      {
        TakeSnoc(records, i);
        assert records[i..][0] == records[i] && records[i..][1..] == records[i + 1..];
        var r := records[i];
        var p := Find(previous, r.rid);
        Assoc(current, [Sample(r.rid, r.tokens)], Samples(records[i + 1..]));
        current := current + [Sample(r.rid, r.tokens)];
        if p.Some? && r.state == Output {
          outputDelta := outputDelta + Growth(p.value.tokens, r.tokens);
        } else if p.Some? && r.state == Thinking {
          thinkingDelta := thinkingDelta + Growth(p.value.tokens, r.tokens);
        }
      }
      assert records[..|records|] == records && records[|records|..] == [];
      assert current + [] == current;
      previous := current;
      output := output + outputDelta;
      thinking := thinking + thinkingDelta;
    }

    method CloseBucket(closedAt: real, now: real)
      modifies this`buckets, this`times, this`closed, this`opened', this`output, this`thinking
      ensures State() == Close(old(State()), closedAt, now)
    {
      buckets := Push(buckets, Bucket(output, thinking));
      times := Push(times, closedAt);
      closed := closed + [Bucket(output, thinking)];
      opened', output, thinking := now, 0, 0;
    }

    /** _accumulate */
    method Accumulate(records: seq<Record>, now: real, interval: real)
      modifies this
      ensures State() == Tick(old(State()), records, now, interval)
    {
      FlushPending();
      var close := now - opened' >= interval;
      var closedAt := opened' + interval;
      FoldSample(records);
      if close {
        CloseBucket(closedAt, now);
      }
    }

    /** The part of end() that concerns the series. */
    method EndRequest(record: Record, paused: bool)
      modifies this
      ensures State() == End(old(State()), record, paused)
    {
      if paused {
        return;
      }
      FlushPending();
      var p := Find(previous, record.rid);
      previous := Without(previous, record.rid);
      if p.Some? {
        if record.state == Output {
          pendingOutput := pendingOutput + Growth(p.value.tokens, record.tokens);
        } else if record.state == Thinking {
          pendingThinking := pendingThinking + Growth(p.value.tokens, record.tokens);
        }
      }
      FlushPending();
    }
  }

  // ----- runs ------------------------------------------------------------------------

  datatype Event = Sampled(records: seq<Record>, now: real, interval: real) | Ended(record: Record, paused: bool)

  function Next(s: Series, e: Event): Series {
    match e
    case Sampled(rs, now, interval) => Tick(s, rs, now, interval)
    case Ended(r, paused) => End(s, r, paused)
  }

  function Run(now: real, events: seq<Event>): Series {
    if |events| == 0 then NewSeries(now) else Next(Run(now, events[..|events| - 1]), events[|events| - 1])
  }

  /** A counter that does not fall, and grows only while the request is in the output or thinking state. */
  predicate Steady(ps: seq<Sample>, r: Record) {
    var p := Find(ps, r.rid);
    p.Some? ==> p.value.tokens <= r.tokens && (p.value.tokens < r.tokens ==> r.state != Prefill)
  }

  predicate DistinctRecords(rs: seq<Record>) {
    forall i, j :: 0 <= i < j < |rs| ==> rs[i].rid != rs[j].rid
  }

  predicate SteadyEvent(s: Series, e: Event) {
    match e
    case Sampled(rs, _, interval) =>
      interval > 0.0 && DistinctRecords(rs) && forall i :: 0 <= i < |rs| ==> Steady(s.previous, rs[i])
    case Ended(r, paused) => paused || Steady(s.previous, r)
  }

  predicate SteadyRun(now: real, events: seq<Event>) {
    |events| == 0
    || (SteadyRun(now, events[..|events| - 1]) && SteadyEvent(Run(now, events[..|events| - 1]), events[|events| - 1]))
  }

  /** The tokens of one state in some buckets. */
  function BucketTokens(bs: seq<Bucket>, state: State): nat {
    if |bs| == 0 then 0
    else
      var b := bs[|bs| - 1];
      BucketTokens(bs[..|bs| - 1], state) + (match state case Output => b.output case Thinking => b.thinking case Prefill => 0)
  }

  /** The tokens of one state in the open bucket, and pending. */
  function OpenTokens(s: Series, state: State): nat {
    match state
    case Output => s.output + s.pendingOutput
    case Thinking => s.thinking + s.pendingThinking
    case Prefill => 0
  }

  /** All tokens of one state that went to closed buckets, the open bucket and what is pending. */
  function Credited(s: Series, state: State): nat {
    BucketTokens(s.closed, state) + OpenTokens(s, state)
  }

  // ----- the reference: what each request was observed to emit ------------------------

  /** One request, from the events alone: its current span of samples (first and last counter), and what earlier spans grew by. */
  datatype Track = Track(span: Option<(nat, nat)>, total: int)

  function Gain(t: Track): int {
    t.total + if t.span.Some? then t.span.value.1 - t.span.value.0 else 0
  }

  function RecordOf(rs: seq<Record>, rid: nat): Option<Record> {
    if |rs| == 0 then None else if rs[0].rid == rid then Some(rs[0]) else RecordOf(rs[1..], rid)
  }

  /** A sample without the request ends its span; so does its end, which observes a last counter. */
  function Observe(t: Track, e: Event, rid: nat): Track {
    match e
    case Sampled(rs, _, _) =>
      var r := RecordOf(rs, rid);
      if r.None? then Track(None, Gain(t))
      else if t.span.Some? then t.(span := Some((t.span.value.0, r.value.tokens)))
      else t.(span := Some((r.value.tokens, r.value.tokens)))
    case Ended(r, paused) =>
      if paused || r.rid != rid then t
      else if t.span.Some? then Track(None, t.total + r.tokens - t.span.value.0)
      else t
  }

  function Tracked(events: seq<Event>, rid: nat): Track {
    if |events| == 0 then Track(None, 0) else Observe(Tracked(events[..|events| - 1], rid), events[|events| - 1], rid)
  }

  function Observed(events: seq<Event>, rids: seq<nat>): int {
    if |rids| == 0 then 0 else Gain(Tracked(events, rids[0])) + Observed(events, rids[1..])
  }

  /** What an event shows a request to have emitted in a state since it was last observed. */
  function Emits(t: Track, e: Event, rid: nat, state: State): int {
    match e
    case Sampled(rs, _, _) =>
      var r := RecordOf(rs, rid);
      if r.Some? && t.span.Some? && r.value.state == state then r.value.tokens - t.span.value.1 else 0
    case Ended(r, paused) =>
      if !paused && r.rid == rid && t.span.Some? && r.state == state then r.tokens - t.span.value.1 else 0
  }

  /** What a request was observed to emit in a state. */
  function Emitted(events: seq<Event>, rid: nat, state: State): int {
    if |events| == 0 then 0
    else
      var init := events[..|events| - 1];
      Emitted(init, rid, state) + Emits(Tracked(init, rid), events[|events| - 1], rid, state)
  }

  function EmittedBy(events: seq<Event>, rids: seq<nat>, state: State): int {
    if |rids| == 0 then 0 else Emitted(events, rids[0], state) + EmittedBy(events, rids[1..], state)
  }

  predicate Distinct(rids: seq<nat>) {
    forall i, j :: 0 <= i < j < |rids| ==> rids[i] != rids[j]
  }

  /** The requests of an event are among the given ones. */
  predicate IsAmong(e: Event, rids: seq<nat>) {
    match e
    case Sampled(rs, _, _) => forall i :: 0 <= i < |rs| ==> rs[i].rid in rids
    case Ended(r, _) => r.rid in rids
  }

  // ----- conservation ---------------------------------------------------------------------

  predicate DistinctSamples(ps: seq<Sample>) {
    forall i, j :: 0 <= i < j < |ps| ==> ps[i].rid != ps[j].rid
  }

  lemma {:induction false} FindSamples(rs: seq<Record>, rid: nat)
    ensures Find(Samples(rs), rid) == if RecordOf(rs, rid).Some? then Some(Sample(rid, RecordOf(rs, rid).value.tokens)) else None
  {
    if |rs| > 0 {
      FindSamples(rs[1..], rid);
      assert Samples(rs)[1..] == Samples(rs[1..]);
    }
  }

  lemma {:induction false} SampleAt(rs: seq<Record>, i: nat)
    requires i < |rs|
    ensures Samples(rs)[i] == Sample(rs[i].rid, rs[i].tokens)
  {
    if i > 0 {
      SampleAt(rs[1..], i - 1);
    }
  }

  lemma SamplesDistinct(rs: seq<Record>)
    requires DistinctRecords(rs)
    ensures DistinctSamples(Samples(rs))
  {
    hide Samples;
    forall i | 0 <= i < |rs| ensures Samples(rs)[i].rid == rs[i].rid {
      SampleAt(rs, i);
    }
  }

  lemma {:induction false} FindWithout(ps: seq<Sample>, rid: nat, other: nat)
    requires DistinctSamples(ps)
    ensures Find(Without(ps, rid), other) == if other == rid then None else Find(ps, other)
    ensures DistinctSamples(Without(ps, rid))
    ensures forall p :: p in Without(ps, rid) ==> p in ps
  {
    if |ps| > 0 {
      var rest := ps[1..];
      assert forall i :: 0 <= i < |rest| ==> rest[i] == ps[i + 1];
      assert DistinctSamples(rest);
      if ps[0].rid == rid {
        FindNone(rest, rid);
      } else {
        FindWithout(rest, rid, other);
        var after := [ps[0]] + Without(rest, rid);
        assert after[1..] == Without(rest, rid);
        assert forall i :: 0 <= i < |Without(rest, rid)| ==> Without(rest, rid)[i] in rest;
      }
    }
  }

  lemma {:induction false} FindNone(ps: seq<Sample>, rid: nat)
    requires forall i :: 0 <= i < |ps| ==> ps[i].rid != rid
    ensures Find(ps, rid) == None
  {
    if |ps| > 0 {
      FindNone(ps[1..], rid);
    }
  }

  /** The baseline of a request is the last counter of its current span. */
  predicate Matches(ps: seq<Sample>, t: Track, rid: nat) {
    Find(ps, rid) == if t.span.Some? then Some(Sample(rid, t.span.value.1)) else None
  }

  /** What one event credits to one request, for one state. */
  function CreditOf(ps: seq<Sample>, e: Event, rid: nat, state: State): int {
    match e
    case Sampled(rs, _, _) =>
      var r := RecordOf(rs, rid);
      if r.None? then 0 else Delta(ps, r.value, state)
    case Ended(r, paused) =>
      if paused || r.rid != rid then 0 else Delta(ps, r, state)
  }

  lemma {:induction false} RecordIsOne(rs: seq<Record>, rid: nat)
    ensures RecordOf(rs, rid).Some? ==> RecordOf(rs, rid).value in rs && RecordOf(rs, rid).value.rid == rid
  {
    if |rs| > 0 && rs[0].rid != rid {
      RecordIsOne(rs[1..], rid);
    }
  }

  /** One event, one request: it is credited what it emitted, state by state, its gain grows by that, and its baseline follows. */
  lemma OneRequest(s: Series, t: Track, e: Event, rid: nat)
    requires SteadyEvent(s, e) && DistinctSamples(s.previous) && Matches(s.previous, t, rid)
    ensures Matches(Next(s, e).previous, Observe(t, e, rid), rid)
    ensures CreditOf(s.previous, e, rid, Output) == Emits(t, e, rid, Output)
    ensures CreditOf(s.previous, e, rid, Thinking) == Emits(t, e, rid, Thinking)
    ensures Gain(Observe(t, e, rid)) == Gain(t) + Emits(t, e, rid, Output) + Emits(t, e, rid, Thinking)
  {
    hide Find, Without, Samples, Deltas, DistinctSamples, RecordOf, Push;
    match e {
      case Sampled(rs, _, _) =>
        FindSamples(rs, rid);
        RecordIsOne(rs, rid);
        var r := RecordOf(rs, rid);
        if r.Some? {
          var i :| 0 <= i < |rs| && rs[i] == r.value;
          assert Steady(s.previous, rs[i]);
        }
      case Ended(r, paused) =>
        FindWithout(s.previous, r.rid, rid);
    }
  }

  function CreditOver(ps: seq<Sample>, e: Event, rids: seq<nat>, state: State): int {
    if |rids| == 0 then 0 else CreditOf(ps, e, rids[0], state) + CreditOver(ps, e, rids[1..], state)
  }

  /** The first record of a sample adds its delta to exactly one request. */
  lemma {:induction false} CreditOneMore(ps: seq<Sample>, rs: seq<Record>, now: real, interval: real, rids: seq<nat>, state: State)
    requires Distinct(rids) && DistinctRecords(rs) && |rs| > 0
    ensures CreditOver(ps, Sampled(rs, now, interval), rids, state)
         == CreditOver(ps, Sampled(rs[1..], now, interval), rids, state) + if rs[0].rid in rids then Delta(ps, rs[0], state) else 0
  {
    hide Delta;
    if |rids| > 0 {
      assert forall i :: 0 <= i < |rids| - 1 ==> rids[1..][i] == rids[i + 1];
      CreditOneMore(ps, rs, now, interval, rids[1..], state);
      if rs[0].rid == rids[0] {
        assert rs[0].rid !in rids[1..];
        RecordElsewhere(rs);
      }
    }
  }

  lemma RecordElsewhere(rs: seq<Record>)
    requires DistinctRecords(rs) && |rs| > 0
    ensures RecordOf(rs[1..], rs[0].rid) == None
  {
    forall i | 0 <= i < |rs| - 1 ensures rs[1..][i].rid != rs[0].rid {
      assert rs[1..][i] == rs[i + 1];
    }
    RecordNone(rs[1..], rs[0].rid);
  }

  lemma {:induction false} RecordNone(rs: seq<Record>, rid: nat)
    requires forall i :: 0 <= i < |rs| ==> rs[i].rid != rid
    ensures RecordOf(rs, rid) == None
  {
    if |rs| > 0 {
      RecordNone(rs[1..], rid);
    }
  }

  lemma {:induction false} DeltasHead(ps: seq<Sample>, rs: seq<Record>, state: State)
    requires |rs| > 0
    ensures Deltas(ps, rs, state) == Delta(ps, rs[0], state) + Deltas(ps, rs[1..], state)
  {
    hide Delta;
    if |rs| > 1 {
      DeltasHead(ps, rs[..|rs| - 1], state);
      assert rs[..|rs| - 1][1..] == rs[1..][..|rs| - 2];
    }
  }

  lemma {:induction false} SampleCredits(ps: seq<Sample>, rs: seq<Record>, now: real, interval: real, rids: seq<nat>, state: State)
    requires Distinct(rids) && DistinctRecords(rs) && IsAmong(Sampled(rs, now, interval), rids)
    ensures CreditOver(ps, Sampled(rs, now, interval), rids, state) == Deltas(ps, rs, state)
  {
    hide Delta, Distinct;
    if |rs| == 0 {
      NoCredit(ps, now, interval, rids, state);
    } else {
      assert forall i :: 0 <= i < |rs| - 1 ==> rs[1..][i] == rs[i + 1];
      SampleCredits(ps, rs[1..], now, interval, rids, state);
      CreditOneMore(ps, rs, now, interval, rids, state);
      DeltasHead(ps, rs, state);
    }
  }

  lemma {:induction false} NoCredit(ps: seq<Sample>, now: real, interval: real, rids: seq<nat>, state: State)
    ensures CreditOver(ps, Sampled([], now, interval), rids, state) == 0
  {
    if |rids| > 0 {
      NoCredit(ps, now, interval, rids[1..], state);
    }
  }

  lemma {:induction false} EndCredits(ps: seq<Sample>, r: Record, paused: bool, rids: seq<nat>, state: State)
    requires Distinct(rids)
    ensures CreditOver(ps, Ended(r, paused), rids, state) == if !paused && r.rid in rids then Delta(ps, r, state) else 0
  {
    hide Delta;
    if |rids| > 0 {
      assert forall i :: 0 <= i < |rids| - 1 ==> rids[1..][i] == rids[i + 1];
      EndCredits(ps, r, paused, rids[1..], state);
    }
  }

  /** One event, all requests: the credited tokens of a state grow by what the requests are credited. */
  lemma AllRequests(s: Series, e: Event, rids: seq<nat>, state: State)
    requires SteadyEvent(s, e) && Distinct(rids) && IsAmong(e, rids) && state != Prefill
    ensures Credited(Next(s, e), state) == Credited(s, state) + CreditOver(s.previous, e, rids, state)
  {
    hide Find, Without, Samples, Deltas, Distinct, CreditOver, Push, Steady, BucketTokens;
    match e {
      case Sampled(rs, now, interval) =>
        SampleCredits(s.previous, rs, now, interval, rids, state);
        var folded := Fold(Flush(s), rs);
        TokensSnoc(s.closed, Bucket(folded.output, folded.thinking), state);
      case Ended(r, paused) => EndCredits(s.previous, r, paused, rids, state);
    }
  }

  lemma TokensSnoc(bs: seq<Bucket>, b: Bucket, state: State)
    ensures BucketTokens(bs + [b], state)
         == BucketTokens(bs, state) + (match state case Output => b.output case Thinking => b.thinking case Prefill => 0)
  {
    assert (bs + [b])[..|bs|] == bs;
  }

  lemma NextDistinct(s: Series, e: Event)
    requires SteadyEvent(s, e) && DistinctSamples(s.previous)
    ensures DistinctSamples(Next(s, e).previous)
  {
    hide Find, Without, Samples, Deltas, DistinctSamples, Push, Steady;
    match e {
      case Sampled(rs, _, _) => SamplesDistinct(rs);
      case Ended(r, _) => FindWithout(s.previous, r.rid, r.rid);
    }
  }

  lemma {:induction false} RunDistinct(now: real, events: seq<Event>)
    requires SteadyRun(now, events)
    ensures DistinctSamples(Run(now, events).previous)
  {
    hide Next, SteadyEvent;
    if |events| > 0 {
      RunDistinct(now, events[..|events| - 1]);
      NextDistinct(Run(now, events[..|events| - 1]), events[|events| - 1]);
    }
  }

  /** The baselines of a run are the last counters of the current spans. */
  lemma {:induction false} RunMatches(now: real, events: seq<Event>, rid: nat)
    requires SteadyRun(now, events)
    ensures Matches(Run(now, events).previous, Tracked(events, rid), rid)
  {
    hide Next, SteadyEvent, Observe, DistinctSamples;
    if |events| > 0 {
      var init := events[..|events| - 1];
      RunMatches(now, init, rid);
      RunDistinct(now, init);
      OneRequest(Run(now, init), Tracked(init, rid), events[|events| - 1], rid);
    }
  }

  lemma RunOne(now: real, events: seq<Event>, rid: nat)
    requires |events| > 0 && SteadyRun(now, events)
    ensures var init, e := events[..|events| - 1], events[|events| - 1];
            var ps, t := Run(now, init).previous, Tracked(init, rid);
            && CreditOf(ps, e, rid, Output) == Emits(t, e, rid, Output)
            && CreditOf(ps, e, rid, Thinking) == Emits(t, e, rid, Thinking)
            && Gain(Tracked(events, rid)) == Gain(t) + Emits(t, e, rid, Output) + Emits(t, e, rid, Thinking)
  {
    hide Next, SteadyEvent, Observe, DistinctSamples, Matches, Gain, Run, CreditOf, Emits;
    var init := events[..|events| - 1];
    RunMatches(now, init, rid);
    RunDistinct(now, init);
    OneRequest(Run(now, init), Tracked(init, rid), events[|events| - 1], rid);
  }

  lemma {:induction false} EmittedNext(now: real, events: seq<Event>, rids: seq<nat>, state: State)
    requires |events| > 0 && SteadyRun(now, events) && state != Prefill
    ensures var init := events[..|events| - 1];
            var credit := CreditOver(Run(now, init).previous, events[|events| - 1], rids, state);
            EmittedBy(events, rids, state) == EmittedBy(init, rids, state) + credit
  {
    hide SteadyRun, CreditOf, Emits, Run, Tracked;
    if |rids| > 0 {
      EmittedNext(now, events, rids[1..], state);
      RunOne(now, events, rids[0]);
    }
  }

  lemma {:induction false} NothingEmitted(rids: seq<nat>, state: State)
    ensures EmittedBy([], rids, state) == 0
  {
    if |rids| > 0 {
      NothingEmitted(rids[1..], state);
    }
  }

  /**
   In every run of ticks, ends and rollovers over steady requests, for output and for
   thinking: the tokens credited to closed buckets, the open bucket and pending are
   exactly what all requests were observed to emit in that state.
   */
  lemma {:induction false} StatesAreConserved(now: real, events: seq<Event>, rids: seq<nat>, state: State)
    requires SteadyRun(now, events) && Distinct(rids) && forall i :: 0 <= i < |events| ==> IsAmong(events[i], rids)
    requires state != Prefill
    ensures Credited(Run(now, events), state) == EmittedBy(events, rids, state)
  {
    hide Next, SteadyEvent, Distinct, IsAmong, Tracked, Emits;
    if |events| == 0 {
      NothingEmitted(rids, state);
    } else {
      var init := events[..|events| - 1];
      assert forall i :: 0 <= i < |init| ==> init[i] == events[i];
      StatesAreConserved(now, init, rids, state);
      AllRequests(Run(now, init), events[|events| - 1], rids, state);
      EmittedNext(now, events, rids, state);
    }
  }

  /** What a request emits in both states is what its spans grow by: the last observed counter minus the first sampled one. */
  lemma {:induction false} GainIsEmitted(now: real, events: seq<Event>, rid: nat)
    requires SteadyRun(now, events)
    ensures Gain(Tracked(events, rid)) == Emitted(events, rid, Output) + Emitted(events, rid, Thinking)
  {
    hide Next, SteadyEvent, Observe, Emits;
    if |events| > 0 {
      GainIsEmitted(now, events[..|events| - 1], rid);
      RunOne(now, events, rid);
    }
  }

  lemma {:induction false} ObservedIsEmitted(now: real, events: seq<Event>, rids: seq<nat>)
    requires SteadyRun(now, events)
    ensures Observed(events, rids) == EmittedBy(events, rids, Output) + EmittedBy(events, rids, Thinking)
  {
    hide SteadyRun, Gain, Tracked, Emitted;
    if |rids| > 0 {
      ObservedIsEmitted(now, events, rids[1..]);
      GainIsEmitted(now, events, rids[0]);
    }
  }

  /** Both states together: summed over all requests, the last observed counter minus the first sampled one. */
  lemma TokensAreConserved(now: real, events: seq<Event>, rids: seq<nat>)
    requires SteadyRun(now, events) && Distinct(rids) && forall i :: 0 <= i < |events| ==> IsAmong(events[i], rids)
    ensures Credited(Run(now, events), Output) + Credited(Run(now, events), Thinking) == Observed(events, rids)
  {
    hide SteadyRun, Distinct, IsAmong, Run, Credited, Observed, EmittedBy;
    StatesAreConserved(now, events, rids, Output);
    StatesAreConserved(now, events, rids, Thinking);
    ObservedIsEmitted(now, events, rids);
  }

  // ----- what the deque keeps ------------------------------------------------------------------

  /** The buckets are the last that were closed, as many as the deque holds. */
  predicate AreLastOf(buckets: seq<Bucket>, closed: seq<Bucket>) {
    && |buckets| == (if |closed| < MAX_BUCKETS then |closed| else MAX_BUCKETS)
    && buckets == closed[|closed| - |buckets|..]
  }

  lemma PushKeepsLast(buckets: seq<Bucket>, closed: seq<Bucket>, b: Bucket)
    requires AreLastOf(buckets, closed)
    ensures AreLastOf(Push(buckets, b), closed + [b])
  {
  }

  lemma NextKeepsLast(s: Series, e: Event)
    requires AreLastOf(s.buckets, s.closed)
    ensures AreLastOf(Next(s, e).buckets, Next(s, e).closed)
  {
    hide Deltas, Samples, Find, Without, Growth, Push, AreLastOf;
    if e.Sampled? {
      var folded := Fold(Flush(s), e.records);
      PushKeepsLast(s.buckets, s.closed, Bucket(folded.output, folded.thinking));
    }
  }

  lemma {:induction false} RunKeepsLast(now: real, events: seq<Event>)
    ensures AreLastOf(Run(now, events).buckets, Run(now, events).closed)
  {
    hide Next;
    if |events| > 0 {
      RunKeepsLast(now, events[..|events| - 1]);
      NextKeepsLast(Run(now, events[..|events| - 1]), events[|events| - 1]);
    }
  }

  lemma {:induction false} TokensSplit(a: seq<Bucket>, b: seq<Bucket>, state: State)
    ensures BucketTokens(a + b, state) == BucketTokens(a, state) + BucketTokens(b, state)
  {
    if |b| == 0 {
      assert a + b == a;
    } else {
      TokensSplit(a, b[..|b| - 1], state);
      assert (a + b)[..|a + b| - 1] == a + b[..|b| - 1];
    }
  }

  /** The closed buckets that the deque no longer holds. */
  function Evicted(s: Series): seq<Bucket>
    requires |s.buckets| <= |s.closed|
  {
    s.closed[..|s.closed| - |s.buckets|]
  }

  /**
   Conservation over the buckets themselves, state by state: the tokens in the deque's
   buckets, in those that it evicted, in the open bucket and pending are what all
   requests were observed to emit; nothing is evicted while no more than 3600 buckets
   have closed.
   */
  lemma TokensAreInBuckets(now: real, events: seq<Event>, rids: seq<nat>, state: State)
    requires SteadyRun(now, events) && Distinct(rids) && forall i :: 0 <= i < |events| ==> IsAmong(events[i], rids)
    requires state != Prefill
    ensures var s := Run(now, events);
            && |s.buckets| <= |s.closed| && |s.buckets| <= 3600 && (|s.closed| <= 3600 ==> Evicted(s) == [])
            && BucketTokens(s.buckets, state) + BucketTokens(Evicted(s), state) + OpenTokens(s, state) == EmittedBy(events, rids, state)
  {
    hide Run, SteadyRun, Distinct, IsAmong, EmittedBy, BucketTokens, OpenTokens;
    RunKeepsLast(now, events);
    StatesAreConserved(now, events, rids, state);
    var s := Run(now, events);
    TokensSplit(Evicted(s), s.buckets, state);
    assert Evicted(s) + s.buckets == s.closed;
  }

  /**
   After every run, a tick closes the open bucket if and only if a whole interval has
   passed since that was opened, at the end of that interval; the bucket holds what was
   open and pending and what this sample adds, and the next one is empty.
   */
  lemma TickClosesIff(now: real, events: seq<Event>, rs: seq<Record>, at: real, interval: real)
    ensures var s, t := Run(now, events), Run(now, events + [Sampled(rs, at, interval)]);
            if at >= s.opened' + interval then
              && |t.closed| == |s.closed| + 1 && t.closed[..|s.closed|] == s.closed
              && t.closed[|s.closed|].output == OpenTokens(s, Output) + Deltas(s.previous, rs, Output)
              && t.closed[|s.closed|].thinking == OpenTokens(s, Thinking) + Deltas(s.previous, rs, Thinking)
              && t.times != [] && t.times[|t.times| - 1] == s.opened' + interval
              && t.opened' == at && OpenTokens(t, Output) == OpenTokens(t, Thinking) == 0
            else
              && t.closed == s.closed && t.times == s.times && t.opened' == s.opened'
              && OpenTokens(t, Output) == OpenTokens(s, Output) + Deltas(s.previous, rs, Output)
              && OpenTokens(t, Thinking) == OpenTokens(s, Thinking) + Deltas(s.previous, rs, Thinking)
  {
    hide Deltas, Samples;
    assert (events + [Sampled(rs, at, interval)])[..|events|] == events;
  }

  // ----- bucket times --------------------------------------------------------------------------

  predicate Increasing(ts: seq<real>) {
    forall i, j :: 0 <= i < j < |ts| ==> ts[i] < ts[j]
  }

  /** Buckets and times in lockstep, times increasing, the last not after the open bucket's start. */
  predicate InLockstep(s: Series) {
    && |s.buckets| == |s.times| <= MAX_BUCKETS && Increasing(s.times)
    && (|s.times| > 0 ==> s.times[|s.times| - 1] <= s.opened')
  }

  lemma PushIncreasing(ts: seq<real>, t: real)
    requires Increasing(ts) && (|ts| > 0 ==> ts[|ts| - 1] < t)
    ensures Increasing(Push(ts, t))
  {
    var kept := if |ts| >= MAX_BUCKETS then ts[1..] else ts;
    assert forall i :: 0 <= i < |ts| ==> ts[i] <= ts[|ts| - 1];
    assert Increasing(kept) && forall i :: 0 <= i < |kept| ==> kept[i] < t;
  }

  /** In every run with positive intervals, whatever the clock does, bucket close times strictly increase, in lockstep with the buckets. */
  lemma {:induction false} CloseTimesIncrease(now: real, events: seq<Event>)
    requires forall i :: 0 <= i < |events| && events[i].Sampled? ==> events[i].interval > 0.0
    ensures InLockstep(Run(now, events))
  {
    hide InLockstep, Next;
    if |events| == 0 {
      NothingIncreases(now);
    } else {
      var init, e := events[..|events| - 1], events[|events| - 1];
      assert forall i :: 0 <= i < |init| ==> init[i] == events[i];
      CloseTimesIncrease(now, init);
      NextKeepsLockstep(Run(now, init), e);
    }
  }

  lemma NextKeepsLockstep(s: Series, e: Event)
    requires InLockstep(s) && (e.Sampled? ==> e.interval > 0.0)
    ensures InLockstep(Next(s, e))
  {
    hide Increasing, Deltas, Samples, Find, Without, Growth, Push;
    if e.Sampled? && e.now - s.opened' >= e.interval {
      PushIncreasing(s.times, s.opened' + e.interval);
      PushEnds(s.times, s.opened' + e.interval);
      var folded := Fold(Flush(s), e.records);
      PushEnds(s.buckets, Bucket(folded.output, folded.thinking));
    }
  }

  lemma PushEnds<T>(d: seq<T>, x: T)
    requires |d| <= MAX_BUCKETS
    ensures |Push(d, x)| == (if |d| >= MAX_BUCKETS then |d| else |d| + 1) && Push(d, x)[|Push(d, x)| - 1] == x
  {
  }

  lemma NothingIncreases(now: real)
    ensures InLockstep(NewSeries(now))
  {
  }
}
