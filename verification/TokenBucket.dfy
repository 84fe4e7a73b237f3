/**
 The virtual-time token bucket (sparkdeck/download_throttle.py, TokenBucket) over
 real numbers. Every operation runs under the bucket's lock, so any number of
 threads is a sequence of operations.
 */
module TokenBucket {
  import opened Wrappers

  datatype Bucket = Bucket(rate: real, due: real, unlimited: bool)

  /** What a limited acquire asks for: when it was made, for how many bytes, and the rate then in force. */
  datatype Demand = Demand(now: real, count: nat, rate: real)

  /** A reservation, and when it comes due. */
  datatype Charge = Charge(demand: Demand, due: real)

  predicate Valid(b: Bucket) {
    b.rate > 0.0
  }

  function Later(a: real, b: real): real {
    if a >= b then a else b
  }

  /** set_rate; None is a value that float() refuses. */
  function SetRate(b: Bucket, rate: Option<real>): Bucket {
    if rate.None? then b
    else if rate.value > 0.0 then b.(rate := rate.value, unlimited := false)
    else b.(unlimited := true)
  }

  function Cost(count: nat, rate: real): real
    requires rate > 0.0
  {
    count as real / rate
  }

  /** The reservation that acquire makes, if any. */
  function Reserve(b: Bucket, count: int, now: real): Option<Charge>
    requires Valid(b)
  {
    if count <= 0 || b.unlimited then None
    else Some(Charge(Demand(now, count, b.rate), Later(now, b.due) + Cost(count, b.rate)))
  }

  class TokenBucket {
    var rate: real
    var due: real
    var unlimited: bool

    function State(): Bucket
      reads this
    {
      Bucket(rate, due, unlimited)
    }

    constructor (bytesPerSecond: real)
      requires bytesPerSecond > 0.0
      ensures State() == Bucket(bytesPerSecond, 0.0, false)
    {
      rate, due, unlimited := bytesPerSecond, 0.0, false;
    }

    method ChangeRate(bytesPerSecond: Option<real>)
      modifies this`rate, this`unlimited
      ensures State() == SetRate(old(State()), bytesPerSecond)
    {
      if bytesPerSecond.Some? {
        if bytesPerSecond.value > 0.0 {
          rate := bytesPerSecond.value;
          unlimited := false;
        } else {
          unlimited := true;
        }
      }
    }

    /** acquire; the wait is what the caller sleeps. */
    method Acquire(count: int, now: real) returns (wait: real)
      requires Valid(State())
      modifies this`due
      ensures if count <= 0 || old(unlimited) then State() == old(State()) && wait == 0.0
              else
                && State() == old(State()).(due := Later(now, old(due)) + Cost(count, old(rate)))
                && wait == due - now
      ensures Reserve(old(State()), count, now).Some? ==> due == Reserve(old(State()), count, now).value.due
      ensures Reserve(old(State()), count, now).None? ==> due == old(due)
    {
      if count <= 0 || unlimited {
        return 0.0;
      }
      var start := if now >= due then now else due;
      due := start + count as real / rate;
      wait := due - now;
    }
  }

  // ----- runs ----------------------------------------------------------------------

  datatype Op = Rate(rate: Option<real>) | Take(count: int, now: real)

  /** The bucket, and all reservations in order. */
  datatype Run = Run(bucket: Bucket, log: seq<Charge>)

  function After(r: Run, op: Op): Run
    requires Valid(r.bucket)
  {
    match op
    case Rate(rate) => r.(bucket := SetRate(r.bucket, rate))
    case Take(count, now) =>
      var charge := Reserve(r.bucket, count, now);
      if charge.None? then r else Run(r.bucket.(due := charge.value.due), r.log + [charge.value])
  }

  function RunOf(rate: real, ops: seq<Op>): (r: Run)
    requires rate > 0.0
    ensures Valid(r.bucket)
  {
    if |ops| == 0 then Run(Bucket(rate, 0.0, false), []) else After(RunOf(rate, ops[..|ops| - 1]), ops[|ops| - 1])
  }

  // ----- the limited acquires, from the operations alone -----------------------------

  /** The rate in force: the last number that was set, or the first rate; None without a limit. */
  function RateAfter(rate: real, ops: seq<Op>): (r: Option<real>)
    requires rate > 0.0
    ensures r.Some? ==> r.value > 0.0
  {
    if |ops| == 0 then Some(rate)
    else
      match ops[|ops| - 1]
      case Rate(Some(r)) => if r > 0.0 then Some(r) else None
      case _ => RateAfter(rate, ops[..|ops| - 1])
  }

  /** A limited acquire is for a positive count while there is a limit. */
  predicate IsLimited(rate: real, before: seq<Op>, op: Op)
    requires rate > 0.0
  {
    op.Take? && op.count > 0 && RateAfter(rate, before).Some?
  }

  function Demands(rate: real, ops: seq<Op>): seq<Demand>
    requires rate > 0.0
  {
    if |ops| == 0 then []
    else
      var init, op := ops[..|ops| - 1], ops[|ops| - 1];
      Demands(rate, init) + if IsLimited(rate, init, op) then [Demand(op.now, op.count, RateAfter(rate, init).value)] else []
  }

  /** The demands of a log. */
  function Asked(log: seq<Charge>): (ds: seq<Demand>)
    ensures |ds| == |log| && forall i :: 0 <= i < |log| ==> ds[i] == log[i].demand
  {
    seq(|log|, i requires 0 <= i < |log| => log[i].demand)
  }

  /** The bucket's rate and limit are what the operations set. */
  lemma {:induction false} BucketFollows(rate: real, ops: seq<Op>)
    requires rate > 0.0
    ensures var b := RunOf(rate, ops).bucket;
            b.unlimited == RateAfter(rate, ops).None? && (!b.unlimited ==> RateAfter(rate, ops) == Some(b.rate))
  {
    hide Cost, Later;
    if |ops| > 0 {
      BucketFollows(rate, ops[..|ops| - 1]);
    }
  }

  /** Every limited acquire is reserved, in order, with its count, time and rate, and nothing else is. */
  lemma {:induction false} LogIsDemands(rate: real, ops: seq<Op>)
    requires rate > 0.0
    ensures Asked(RunOf(rate, ops).log) == Demands(rate, ops)
  {
    hide Cost, Later;
    if |ops| > 0 {
      LogIsDemands(rate, ops[..|ops| - 1]);
      BucketFollows(rate, ops[..|ops| - 1]);
    }
  }

  /** After any operations: a limited acquire is due its cost after it is made or after the due time; any other waits for nothing and leaves the due time. */
  lemma AcquireAfter(rate: real, ops: seq<Op>, count: int, now: real)
    requires rate > 0.0
    ensures var before, after := RunOf(rate, ops).bucket, RunOf(rate, ops + [Take(count, now)]).bucket;
            if IsLimited(rate, ops, Take(count, now))
            then after.due == Later(now, before.due) + Cost(count, before.rate) && RateAfter(rate, ops) == Some(before.rate)
            else after == before
  {
    hide Cost, Later;
    BucketFollows(rate, ops);
    assert (ops + [Take(count, now)])[..|ops|] == ops;
  }

  // ----- the schedule ------------------------------------------------------------------

  function LastDue(log: seq<Charge>): real {
    if |log| == 0 then 0.0 else log[|log| - 1].due
  }

  /** Every reservation starts when it is made or when the one before comes due, whichever is later. */
  predicate IsSchedule(log: seq<Charge>) {
    |log| == 0
    || (var c := log[|log| - 1];
        IsSchedule(log[..|log| - 1]) && c.demand.count > 0 && c.demand.rate > 0.0
        && c.due == Later(c.demand.now, LastDue(log[..|log| - 1])) + Cost(c.demand.count, c.demand.rate))
  }

  lemma {:induction false} RunIsSchedule(rate: real, ops: seq<Op>)
    requires rate > 0.0
    ensures var r := RunOf(rate, ops); IsSchedule(r.log) && r.bucket.due == LastDue(r.log)
  {
    hide After, IsSchedule;
    if |ops| == 0 {
      NoSchedule();
    } else {
      RunIsSchedule(rate, ops[..|ops| - 1]);
      AfterKeepsSchedule(RunOf(rate, ops[..|ops| - 1]), ops[|ops| - 1]);
    }
  }

  lemma NoSchedule()
    ensures IsSchedule([])
  {
  }

  lemma AfterKeepsSchedule(r: Run, op: Op)
    requires Valid(r.bucket) && IsSchedule(r.log) && r.bucket.due == LastDue(r.log)
    ensures IsSchedule(After(r, op).log) && After(r, op).bucket.due == LastDue(After(r, op).log)
  {
    hide Cost;
    if op.Take? && Reserve(r.bucket, op.count, op.now).Some? {
      assert After(r, op).log[..|r.log|] == r.log;
    }
  }

  // ----- the closed form of the schedule ------------------------------------------------

  predicate HasRates(ds: seq<Demand>) {
    forall i :: 0 <= i < |ds| ==> ds[i].rate > 0.0
  }

  /** The time that the demands from the j-th on take. */
  function CostFrom(ds: seq<Demand>, j: nat): real
    requires j <= |ds| && HasRates(ds)
  {
    if |ds| == j then 0.0 else CostFrom(ds[..|ds| - 1], j) + Cost(ds[|ds| - 1].count, ds[|ds| - 1].rate)
  }

  lemma {:induction false} ScheduleHasRates(log: seq<Charge>)
    requires IsSchedule(log)
    ensures HasRates(Asked(log))
  {
    if |log| > 0 {
      ScheduleHasRates(log[..|log| - 1]);
      assert Asked(log)[..|log| - 1] == Asked(log[..|log| - 1]);
      assert forall i :: 0 <= i < |log| - 1 ==> Asked(log)[i] == Asked(log)[..|log| - 1][i];
    }
  }

  /** The start that the j-th demand gives the schedule; the bucket itself starts at 0. */
  function Candidate(ds: seq<Demand>, j: nat): real
    requires j <= |ds| && HasRates(ds)
  {
    if j == |ds| then CostFrom(ds, 0) else ds[j].now + CostFrom(ds, j)
  }

  /** The greatest, over every demand j, of when j was made plus what all from j on cost, and of what all cost from time 0. */
  ghost predicate IsGreatestStart(ds: seq<Demand>, due: real)
    requires HasRates(ds)
  {
    && (forall j: nat :: j <= |ds| ==> due >= Candidate(ds, j))
    && exists j: nat :: j <= |ds| && due == Candidate(ds, j)
  }

  lemma CandidateSnoc(ds: seq<Demand>, j: nat)
    requires |ds| > 0 && j <= |ds| && HasRates(ds)
    ensures HasRates(ds[..|ds| - 1])
    ensures var init, cost := ds[..|ds| - 1], Cost(ds[|ds| - 1].count, ds[|ds| - 1].rate);
            Candidate(ds, j) == if j < |init| then Candidate(init, j) + cost
                                else if j == |init| then ds[j].now + cost
                                else Candidate(init, |init|) + cost
  {
    hide Cost;
    var init := ds[..|ds| - 1];
    assert forall i :: 0 <= i < |init| ==> init[i] == ds[i];
    assert CostFrom(init, |init|) == 0.0;
  }

  lemma GreatestNext(ds: seq<Demand>, before: real, due: real)
    requires |ds| > 0 && HasRates(ds) && HasRates(ds[..|ds| - 1]) && IsGreatestStart(ds[..|ds| - 1], before)
    requires due == Later(ds[|ds| - 1].now, before) + Cost(ds[|ds| - 1].count, ds[|ds| - 1].rate)
    ensures IsGreatestStart(ds, due)
  {
    hide Cost, Candidate;
    var init := ds[..|ds| - 1];
    assert before >= Candidate(init, |init|);
    forall j: nat | j <= |ds| ensures due >= Candidate(ds, j) {
      CandidateSnoc(ds, j);
    }
    if ds[|init|].now >= before {
      CandidateSnoc(ds, |init|);
      assert due == Candidate(ds, |init|);
    } else {
      var j: nat :| j <= |init| && before == Candidate(init, j);
      var k := if j < |init| then j else |ds|;
      CandidateSnoc(ds, k);
      assert due == Candidate(ds, k);
    }
  }

  lemma {:induction false} DueIsGreatest(log: seq<Charge>)
    requires IsSchedule(log)
    ensures HasRates(Asked(log)) && IsGreatestStart(Asked(log), LastDue(log))
  {
    hide Cost;
    ScheduleHasRates(log);
    var ds := Asked(log);
    if |log| == 0 {
      assert LastDue(log) == Candidate(ds, 0);
    } else {
      hide IsGreatestStart;
      var init := log[..|log| - 1];
      DueIsGreatest(init);
      assert ds[..|ds| - 1] == Asked(init);
      GreatestNext(ds, LastDue(init), LastDue(log));
    }
  }

  /**
   After any run of acquires and rate changes the due time is the greatest, over the
   limited acquires among the operations, of when one was made plus what it and all
   later ones cost at the rates in force.
   */
  lemma RunDueIsGreatest(rate: real, ops: seq<Op>)
    requires rate > 0.0
    ensures HasRates(Demands(rate, ops)) && IsGreatestStart(Demands(rate, ops), RunOf(rate, ops).bucket.due)
  {
    hide IsSchedule, IsGreatestStart, RunOf, Demands, HasRates;
    RunIsSchedule(rate, ops);
    LogIsDemands(rate, ops);
    DueIsGreatest(RunOf(rate, ops).log);
  }

  // ----- bytes in a window -----------------------------------------------------------------

  /** The bytes of the reservations that come due in (s, t]. */
  function BytesDue(log: seq<Charge>, s: real, t: real): nat {
    if |log| == 0 then 0
    else BytesDue(log[..|log| - 1], s, t) + (if s < log[|log| - 1].due <= t then log[|log| - 1].demand.count else 0)
  }

  /** No demand is at a higher rate or for more bytes. */
  predicate Within(ds: seq<Demand>, maxRate: real, largest: nat) {
    forall i :: 0 <= i < |ds| ==> ds[i].rate <= maxRate && ds[i].count <= largest
  }

  /** What a rate lets through in a span. */
  function AtRate(rate: real, span: real): real {
    rate * span
  }

  lemma CostCovers(count: nat, rate: real, maxRate: real, span: real)
    requires 0.0 < rate <= maxRate && Cost(count, rate) <= span
    ensures count as real <= AtRate(maxRate, span)
  {
    var cost := Cost(count, rate);
    assert count as real == rate * cost;
    assert rate * cost <= maxRate * cost;
    Scale(maxRate, cost, span);
  }

  lemma Scale(rate: real, a: real, b: real)
    requires rate > 0.0 && a <= b
    ensures AtRate(rate, a) <= AtRate(rate, b) && AtRate(rate, 0.0) == 0.0
  {
  }

  function Sooner(a: real, b: real): real {
    if a <= b then a else b
  }

  /** What the window's bound is before its end is reached. */
  predicate Bounded(log: seq<Charge>, s: real, t: real, maxRate: real, largest: nat) {
    var bytes, reached := BytesDue(log, s, t), Sooner(LastDue(log), t);
    bytes > 0 ==> reached > s && bytes as real <= AtRate(maxRate, reached - s) + largest as real
  }

  lemma {:induction false} WindowBounded(log: seq<Charge>, s: real, t: real, maxRate: real, largest: nat)
    requires IsSchedule(log) && Within(Asked(log), maxRate, largest) && s <= t && maxRate > 0.0
    ensures Bounded(log, s, t, maxRate, largest)
  {
    hide Cost;
    if |log| > 0 {
      var init, c := log[..|log| - 1], log[|log| - 1];
      assert forall i :: 0 <= i < |init| ==> Asked(init)[i] == Asked(log)[i];
      WindowBounded(init, s, t, maxRate, largest);
      assert c.demand == Asked(log)[|log| - 1];
      CostPositive(c.demand.count, c.demand.rate);
      WindowNext(init, c, s, t, maxRate, largest);
      assert log == init + [c];
    }
  }

  lemma CostPositive(count: nat, rate: real)
    requires count > 0 && rate > 0.0
    ensures Cost(count, rate) > 0.0
  {
  }

  lemma WindowNext(init: seq<Charge>, c: Charge, s: real, t: real, maxRate: real, largest: nat)
    requires Bounded(init, s, t, maxRate, largest) && s <= t && 0.0 < c.demand.rate <= maxRate && 0 < c.demand.count <= largest
    requires c.due == Later(c.demand.now, LastDue(init)) + Cost(c.demand.count, c.demand.rate)
    requires Cost(c.demand.count, c.demand.rate) > 0.0
    ensures Bounded(init + [c], s, t, maxRate, largest)
  {
    hide Cost, AtRate;
    var log := init + [c];
    assert log[..|init|] == init;
    var before := BytesDue(init, s, t);
    var reached := Sooner(LastDue(init), t);
    if s < c.due <= t {
      if before > 0 {
        CostCovers(c.demand.count, c.demand.rate, maxRate, c.due - reached);
        Distribute(maxRate, reached - s, c.due - reached);
        assert (reached - s) + (c.due - reached) == c.due - s;
      } else {
        Scale(maxRate, 0.0, c.due - s);
      }
    } else if before > 0 {
      Scale(maxRate, reached - s, Sooner(c.due, t) - s);
    }
  }

  lemma Distribute(rate: real, a: real, b: real)
    ensures AtRate(rate, a) + AtRate(rate, b) == AtRate(rate, a + b)
  {
  }

  /** When the k-th limited acquire comes due: the due time that it leaves behind. */
  function DueOf(rate: real, ops: seq<Op>, k: nat): real
    requires rate > 0.0 && k < |Demands(rate, ops)|
  {
    LogIsDemands(rate, ops);
    RunOf(rate, ops).log[k].due
  }

  /** The bytes of the limited acquires, of n at first, that come due in (s, t]. */
  function BytesOf(rate: real, ops: seq<Op>, n: nat, s: real, t: real): nat
    requires rate > 0.0 && n <= |Demands(rate, ops)|
  {
    if n == 0 then 0
    else BytesOf(rate, ops, n - 1, s, t) + if s < DueOf(rate, ops, n - 1) <= t then Demands(rate, ops)[n - 1].count else 0
  }

  lemma {:induction false} BytesAreDue(rate: real, ops: seq<Op>, n: nat, s: real, t: real)
    requires rate > 0.0 && n <= |Demands(rate, ops)|
    ensures n <= |RunOf(rate, ops).log| && BytesOf(rate, ops, n, s, t) == BytesDue(RunOf(rate, ops).log[..n], s, t)
  {
    hide RunOf, Demands;
    LogIsDemands(rate, ops);
    var log := RunOf(rate, ops).log;
    if n > 0 {
      BytesAreDue(rate, ops, n - 1, s, t);
      assert log[..n][..n - 1] == log[..n - 1];
      assert Asked(log)[n - 1] == log[n - 1].demand;
    }
  }

  /**
   In every run, whatever the threads, clock readings and rate changes: the bytes of
   all limited acquires that come due in a window (s, t] are at most the highest rate
   times its length plus the largest single acquire.
   */
  lemma WindowBound(rate: real, ops: seq<Op>, s: real, t: real, maxRate: real, largest: nat)
    requires rate > 0.0 && s <= t && maxRate > 0.0 && Within(Demands(rate, ops), maxRate, largest)
    ensures BytesOf(rate, ops, |Demands(rate, ops)|, s, t) as real <= maxRate * (t - s) + largest as real
  {
    hide BytesDue, RunOf, IsSchedule, LastDue, BytesOf, Demands, Within;
    RunIsSchedule(rate, ops);
    LogIsDemands(rate, ops);
    var log := RunOf(rate, ops).log;
    BytesAreDue(rate, ops, |log|, s, t);
    assert log[..|log|] == log;
    WindowBounded(log, s, t, maxRate, largest);
    WholeWindow(BytesDue(log, s, t), Sooner(LastDue(log), t), s, t, maxRate, largest);
  }

  lemma WholeWindow(bytes: nat, reached: real, s: real, t: real, maxRate: real, largest: nat)
    requires bytes > 0 ==> reached > s && bytes as real <= AtRate(maxRate, reached - s) + largest as real
    requires s <= t && reached <= t && maxRate > 0.0
    ensures bytes as real <= maxRate * (t - s) + largest as real
  {
    var whole := maxRate * (t - s);
    Scale(maxRate, 0.0, t - s);
    assert whole >= 0.0;
    if bytes > 0 {
      var part := maxRate * (reached - s);
      Scale(maxRate, reached - s, t - s);
      assert part <= whole;
      assert bytes as real <= part + largest as real;
    }
  }

  /** A reader that sleeps its wait has not got its bytes sooner than its own cost, nor before the bytes of the one before. */
  lemma WaitsItsCost(rate: real, ops: seq<Op>, count: int, now: real)
    requires rate > 0.0 && IsLimited(rate, ops, Take(count, now))
    ensures var before, after := RunOf(rate, ops).bucket.due, RunOf(rate, ops + [Take(count, now)]).bucket.due;
            after - now >= Cost(count, RateAfter(rate, ops).value) && after > before
  {
    hide Cost, RunOf;
    AcquireAfter(rate, ops, count, now);
    CostPositive(count, RunOf(rate, ops).bucket.rate);
  }
}
