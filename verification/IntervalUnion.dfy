/**
 The sort-and-merge sweep over request intervals, and the nearest-rank percentile
 (mcp_server.py, ControllerClient._interval_union_seconds and _percentile). Times
 are whole ticks.
 */
module IntervalUnion {
  import opened Wrappers
  import opened Seqs

  type Interval = (int, int)

  // ----- sorted() --------------------------------------------------------------

  /** Tuple order. */
  predicate AtMost(a: Interval, b: Interval) {
    a.0 < b.0 || (a.0 == b.0 && a.1 <= b.1)
  }

  function Insert(x: Interval, s: seq<Interval>): seq<Interval> {
    if s == [] || AtMost(x, s[0]) then [x] + s else [s[0]] + Insert(x, s[1..])
  }

  function Sorted(s: seq<Interval>): seq<Interval> {
    if s == [] then [] else Insert(s[0], Sorted(s[1..]))
  }

  predicate Ascending(s: seq<Interval>) {
    forall i, j :: 0 <= i < j < |s| ==> s[i].0 <= s[j].0
  }

  // ----- the covered ticks ---------------------------------------------------------

  /** The ticks from a to b, without b. */
  function Cells(a: int, b: int): (r: set<int>)
    ensures forall t :: t in r <==> a <= t < b
    ensures |r| == if a <= b then b - a else 0
    decreases b - a
  {
    if a >= b then {} else Cells(a, b - 1) + {b - 1}
  }

  /** The ticks that some interval covers. */
  function Covered(s: seq<Interval>): set<int> {
    if s == [] then {} else Cells(s[0].0, s[0].1) + Covered(s[1..])
  }

  lemma {:induction false} CoveredIff(s: seq<Interval>, t: int)
    ensures t in Covered(s) <==> exists i :: 0 <= i < |s| && s[i].0 <= t < s[i].1
  {
    if s != [] {
      CoveredIff(s[1..], t);
      if exists i :: 0 <= i < |s| && s[i].0 <= t < s[i].1 {
        var i :| 0 <= i < |s| && s[i].0 <= t < s[i].1;
        assert i > 0 ==> s[1..][i - 1] == s[i];
      }
    }
  }

  lemma {:induction false} CoveredSnoc(s: seq<Interval>, x: Interval)
    ensures Covered(s + [x]) == Covered(s) + Cells(x.0, x.1)
  {
    if s == [] {
      assert [x][1..] == [] && [] + [x] == [x];
    } else {
      CoveredSnoc(s[1..], x);
      TailAppend(s, [x]);
    }
  }

  lemma {:induction false} InsertCovered(x: Interval, s: seq<Interval>)
    ensures Covered(Insert(x, s)) == Cells(x.0, x.1) + Covered(s)
  {
    hide Cells, AtMost;
    if s == [] || AtMost(x, s[0]) {
      assert ([x] + s)[1..] == s;
    } else {
      InsertCovered(x, s[1..]);
      assert ([s[0]] + Insert(x, s[1..]))[1..] == Insert(x, s[1..]);
    }
  }

  lemma {:induction false} InsertMembers(x: Interval, s: seq<Interval>)
    ensures multiset(Insert(x, s)) == multiset{x} + multiset(s)
  {
    hide AtMost;
    if !(s == [] || AtMost(x, s[0])) {
      InsertMembers(x, s[1..]);
      HeadTail(s);
    }
  }

  lemma {:induction false} InsertAscending(x: Interval, s: seq<Interval>)
    requires Ascending(s)
    ensures Ascending(Insert(x, s))
  {
    if !(s == [] || AtMost(x, s[0])) {
      InsertAscending(x, s[1..]);
      var rest := Insert(x, s[1..]);
      InsertMembers(x, s[1..]);
      forall j | 0 <= j < |rest| ensures s[0].0 <= rest[j].0 {
        assert rest[j] in multiset(rest);
        assert rest[j] in multiset(s[1..]) ==> rest[j] in s[1..];
      }
    }
  }

  lemma {:induction false} SortedKeeps(s: seq<Interval>)
    ensures Covered(Sorted(s)) == Covered(s) && Ascending(Sorted(s)) && multiset(Sorted(s)) == multiset(s)
  {
    hide Insert, Cells, Ascending;
    if s == [] {
      NothingAscends();
    } else {
      SortedKeeps(s[1..]);
      InsertCovered(s[0], Sorted(s[1..]));
      InsertMembers(s[0], Sorted(s[1..]));
      InsertAscending(s[0], Sorted(s[1..]));
      HeadTail(s);
    }
  }

  lemma NothingAscends()
    ensures Ascending([])
  {
  }

  predicate Forward(s: seq<Interval>) {
    forall i :: 0 <= i < |s| ==> s[i].0 <= s[i].1
  }

  lemma SortedForward(s: seq<Interval>)
    requires Forward(s)
    ensures Forward(Sorted(s))
  {
    SortedKeeps(s);
    forall i | 0 <= i < |Sorted(s)| ensures Sorted(s)[i].0 <= Sorted(s)[i].1 {
      assert Sorted(s)[i] in multiset(Sorted(s));
      assert Sorted(s)[i] in s;
    }
  }

  // ----- the sweep -----------------------------------------------------------------

  /** What the sweep has seen: closed runs of `total` ticks, all before the run [start, end). */
  ghost predicate Swept(seen: seq<Interval>, total: int, start: int, end: int) {
    start <= end && exists closed: set<int> :: IsClosed(closed, seen, total, start, end)
  }

  ghost predicate IsClosed(closed: set<int>, seen: seq<Interval>, total: int, start: int, end: int) {
    Covered(seen) == closed + Cells(start, end) && |closed| == total && forall t :: t in closed ==> t < start
  }

  lemma SweptOne(x: Interval)
    requires x.0 <= x.1
    ensures Swept([x], 0, x.0, x.1)
  {
    assert [x][1..] == [];
    assert IsClosed({}, [x], 0, x.0, x.1);
  }

  lemma SweptCount(seen: seq<Interval>, total: int, start: int, end: int)
    requires Swept(seen, total, start, end)
    ensures |Covered(seen)| == total + end - start
  {
    var closed: set<int> :| IsClosed(closed, seen, total, start, end);
    DisjointCount(closed, Cells(start, end));
  }

  lemma DisjointCount(a: set<int>, b: set<int>)
    requires a !! b
    ensures |a + b| == |a| + |b|
  {
  }

  /** The next interval overlaps or touches the open run. */
  lemma SweptMerge(seen: seq<Interval>, total: int, start: int, end: int, x: Interval)
    requires Swept(seen, total, start, end) && start <= x.0 <= end && x.0 <= x.1
    ensures Swept(seen + [x], total, start, if x.1 > end then x.1 else end)
  {
    hide Cells, Covered;
    var closed: set<int> :| IsClosed(closed, seen, total, start, end);
    CoveredSnoc(seen, x);
    var longer := if x.1 > end then x.1 else end;
    CellsMerge(start, end, x.0, x.1);
    UnionAssoc(closed, Cells(start, end), Cells(x.0, x.1));
    assert IsClosed(closed, seen + [x], total, start, longer);
  }

  lemma CellsMerge(a: int, b: int, c: int, d: int)
    requires a <= c <= b && c <= d
    ensures Cells(a, b) + Cells(c, d) == Cells(a, if d > b then d else b)
  {
  }

  lemma UnionAssoc(a: set<int>, b: set<int>, c: set<int>)
    ensures a + b + c == a + (b + c)
  {
  }

  /** The next interval is behind the open run. */
  lemma SweptClose(seen: seq<Interval>, total: int, start: int, end: int, x: Interval)
    requires Swept(seen, total, start, end) && end < x.0 <= x.1
    ensures Swept(seen + [x], total + end - start, x.0, x.1)
  {
    var closed: set<int> :| IsClosed(closed, seen, total, start, end);
    CoveredSnoc(seen, x);
    DisjointCount(closed, Cells(start, end));
    var all := closed + Cells(start, end);
    assert IsClosed(all, seen + [x], total + end - start, x.0, x.1);
  }

  /** _interval_union_seconds: the number of ticks that the intervals cover. */
  method IntervalUnionTicks(intervals: seq<Interval>) returns (result: int)
    requires Forward(intervals)
    ensures result == |Covered(intervals)|
  {
    hide Covered, Sorted, Swept, Forward, Ascending;
    if intervals == [] {
      NothingCovered();
      return 0;
    }
    var ordered := Sorted(intervals);
    SortedForward(intervals);
    SortedKeeps(intervals);
    SortedSize(intervals);
    StartsInOrder(ordered, 0, 0);
    var start, end := ordered[0].0, ordered[0].1;
    var total := 0;
    SweptOne(ordered[0]);
    assert ordered[..1] == [ordered[0]];
    for i := 1 to |ordered|
      invariant Swept(ordered[..i], total, start, end)
      invariant start <= ordered[i - 1].0
    {
      TakeSnoc(ordered, i);
      StartsInOrder(ordered, i - 1, i);
      if ordered[i].0 <= end {
        SweptMerge(ordered[..i], total, start, end, ordered[i]);
        end := if ordered[i].1 > end then ordered[i].1 else end;
      } else {
        SweptClose(ordered[..i], total, start, end, ordered[i]);
        total := total + (end - start);
        start, end := ordered[i].0, ordered[i].1;
      }
    }
    assert ordered[..|ordered|] == ordered;
    SweptCount(ordered, total, start, end);
    result := total + end - start;
  }

  lemma SortedSize(s: seq<Interval>)
    ensures |Sorted(s)| == |s|
  {
    SortedKeeps(s);
    assert |multiset(Sorted(s))| == |multiset(s)|;
  }

  lemma NothingCovered()
    ensures Covered([]) == {}
  {
  }

  lemma StartsInOrder(s: seq<Interval>, i: nat, j: nat)
    requires Ascending(s) && Forward(s) && i <= j < |s|
    ensures s[i].0 <= s[j].0 <= s[j].1
  {
  }

  /** The result depends only on which ticks are covered: not on order, and not on how intervals are cut. */
  lemma OrderDoesNotMatter(a: seq<Interval>, b: seq<Interval>)
    requires multiset(a) == multiset(b)
    ensures Covered(a) == Covered(b)
  {
    forall t ensures t in Covered(a) <==> t in Covered(b) {
      CoveredIff(a, t);
      CoveredIff(b, t);
      SameMembers(a, b);
      assert t in Covered(a) ==> exists x :: x in a && x.0 <= t < x.1;
      assert t in Covered(b) ==> exists x :: x in b && x.0 <= t < x.1;
    }
  }

  lemma SameMembers(a: seq<Interval>, b: seq<Interval>)
    requires multiset(a) == multiset(b)
    ensures forall x :: x in a <==> x in b
  {
    forall x ensures x in a <==> x in b {
      assert x in a <==> x in multiset(a);
      assert x in b <==> x in multiset(b);
    }
  }

  // ----- _percentile --------------------------------------------------------------------

  function InsertValue(x: real, s: seq<real>): (r: seq<real>)
    ensures |r| == |s| + 1
  {
    if s == [] || x <= s[0] then [x] + s else [s[0]] + InsertValue(x, s[1..])
  }

  function SortedValues(s: seq<real>): (r: seq<real>)
    ensures |r| == |s|
  {
    if s == [] then [] else InsertValue(s[0], SortedValues(s[1..]))
  }

  /** How many values are at most v. */
  function CountUpTo(s: seq<real>, v: real): (n: nat)
    ensures n <= |s|
  {
    if s == [] then 0 else CountUpTo(s[1..], v) + (if s[0] <= v then 1 else 0)
  }

  predicate AscendingValues(s: seq<real>) {
    forall i, j :: 0 <= i < j < |s| ==> s[i] <= s[j]
  }

  lemma {:induction false} InsertValueKeeps(x: real, s: seq<real>, v: real)
    ensures CountUpTo(InsertValue(x, s), v) == CountUpTo(s, v) + (if x <= v then 1 else 0)
    ensures forall y :: y in InsertValue(x, s) <==> y == x || y in s
    ensures AscendingValues(s) ==> AscendingValues(InsertValue(x, s))
  {
    if s == [] || x <= s[0] {
      assert ([x] + s)[1..] == s;
    } else {
      var rest := InsertValue(x, s[1..]);
      InsertValueKeeps(x, s[1..], v);
      assert ([s[0]] + rest)[1..] == rest;
      assert forall y :: y in s <==> y == s[0] || y in s[1..];
      if AscendingValues(s) {
        assert forall y :: y in s[1..] ==> s[0] <= y;
        AscendingCons(s[0], rest);
      }
    }
  }

  lemma AscendingCons(first: real, rest: seq<real>)
    requires AscendingValues(rest) && forall y :: y in rest ==> first <= y
    ensures AscendingValues([first] + rest)
  {
    var all := [first] + rest;
    assert forall j :: 0 <= j < |rest| ==> rest[j] in rest && all[j + 1] == rest[j];
  }

  lemma {:induction false} SortedValuesKeeps(s: seq<real>, v: real)
    ensures CountUpTo(SortedValues(s), v) == CountUpTo(s, v)
    ensures AscendingValues(SortedValues(s))
    ensures forall y :: y in SortedValues(s) <==> y in s
  {
    if s != [] {
      SortedValuesKeeps(s[1..], v);
      InsertValueKeeps(s[0], SortedValues(s[1..]), v);
      assert forall y :: y in s <==> y == s[0] || y in s[1..];
    }
  }

  /** In ascending order, the values up to the k-th are at least k + 1, and those below it at most k. */
  lemma {:induction false} RankCount(s: seq<real>, k: nat, v: real)
    requires AscendingValues(s) && k < |s|
    ensures s[k] <= v ==> CountUpTo(s, v) >= k + 1
    ensures v < s[k] ==> CountUpTo(s, v) <= k
  {
    if k > 0 {
      assert s[1..][k - 1] == s[k];
      RankCount(s[1..], k - 1, v);
    } else if v < s[0] {
      NoneUpTo(s, v);
    }
  }

  lemma {:induction false} NoneUpTo(s: seq<real>, v: real)
    requires forall i :: 0 <= i < |s| ==> v < s[i]
    ensures CountUpTo(s, v) == 0
  {
    if s != [] {
      NoneUpTo(s[1..], v);
    }
  }

  /** math.ceil */
  function Ceil(x: real): (n: int)
    ensures n as real >= x && (n - 1) as real < x
  {
    if x.Floor as real == x then x.Floor else x.Floor + 1
  }

  /** percentile * len(ordered) */
  function PartOf(part: real, n: nat): real {
    part * n as real
  }

  /** The index that _percentile takes, before it is used. */
  function Rank(wanted: real): nat {
    if Ceil(wanted) > 1 then Ceil(wanted) - 1 else 0
  }

  /**
   _percentile: the smallest of the values such that at least the given part of all
   values is at most it; for any part above 1 the index is out of range (None).
   */
  method Percentile(values: seq<real>, part: real) returns (result: Option<real>)
    ensures values == [] ==> result == Some(0.0)
    ensures result.None? <==> values != [] && part > 1.0
    ensures values != [] && result.Some? ==>
              result.value in values && CountUpTo(values, result.value) as real >= PartOf(part, |values|)
    ensures values != [] && result.Some? ==>
              forall v :: v in values && v < result.value ==> (CountUpTo(values, v) as real) < PartOf(part, |values|)
  {
    hide CountUpTo, SortedValues, AscendingValues, PartOf, Rank;
    if values == [] {
      return Some(0.0);
    }
    var ordered := SortedValues(values);
    SortedValuesKeeps(values, 0.0);
    var wanted := PartOf(part, |values|);
    PartOfAll(part, |values|);
    RankFacts(wanted, |values|);
    var index := Rank(wanted);
    if index >= |ordered| {
      return None;
    }
    result := Some(ordered[index]);
    SortedValuesKeeps(values, ordered[index]);
    RankCount(ordered, index, ordered[index]);
    forall v | v in values && v < ordered[index] ensures (CountUpTo(values, v) as real) < wanted {
      SortedValuesKeeps(values, v);
      RankCount(ordered, index, v);
      CountsItself(values, v);
    }
  }

  lemma PartOfAll(part: real, n: nat)
    requires n >= 1
    ensures part > 1.0 <==> PartOf(part, n) > n as real
  {
    if part <= 1.0 {
      assert (1.0 - part) * n as real >= 0.0;
    } else {
      assert (part - 1.0) * n as real > 0.0;
    }
  }

  lemma RankFacts(wanted: real, n: nat)
    requires n >= 1
    ensures Rank(wanted) >= n <==> wanted > n as real
    ensures (Rank(wanted) + 1) as real >= wanted
    ensures Rank(wanted) > 0 ==> (Rank(wanted) as real) < wanted
  {
  }

  lemma {:induction false} CountsItself(s: seq<real>, v: real)
    requires v in s
    ensures CountUpTo(s, v) >= 1
  {
    if s[0] != v {
      CountsItself(s[1..], v);
    }
  }
}
