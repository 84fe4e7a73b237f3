/**
 The prefix-affinity table (sparkdeck/prefix_affinity.py): a bounded table with
 least-recently-touched eviction and a time to live. Clock readings are parameters.
 */
module PrefixAffinity {
  import opened Wrappers
  import opened Seqs

  /** A key is the scope and a digest, the digest being the text that was hashed. */
  datatype Key = Key(scope: string, digest: seq<int>)

  datatype Entry = Entry(key: Key, target: string, touched: real)

  /** What keys() gives for one prefix. */
  datatype PrefixKey = PrefixKey(digest: seq<int>, strength: int)

  // ----- the table as a sequence, least recently touched first -------------------

  predicate HasKey(es: seq<Entry>, key: Key) {
    exists i :: 0 <= i < |es| && es[i].key == key
  }

  function Find(es: seq<Entry>, key: Key): (r: Option<Entry>)
    ensures r.Some? ==> r.value in es && r.value.key == key
    ensures r.None? ==> !HasKey(es, key)
  {
    if es == [] then None
    else if es[0].key == key then Some(es[0])
    else Find(es[1..], key)
  }

  function Without(es: seq<Entry>, key: Key): (r: seq<Entry>)
    ensures |r| <= |es|
  {
    if es == [] then []
    else if es[0].key == key then Without(es[1..], key)
    else [es[0]] + Without(es[1..], key)
  }

  /** self.entries[key] = ... and move_to_end(key) */
  function Touch(es: seq<Entry>, e: Entry): seq<Entry> {
    Without(es, e.key) + [e]
  }

  function Young(es: seq<Entry>, ttl: real, now: real): (r: seq<Entry>)
    ensures |r| <= |es|
  {
    if es == [] then []
    else (if now - es[0].touched >= ttl then [] else [es[0]]) + Young(es[1..], ttl, now)
  }

  /** The last `capacity` entries. */
  function Trim(es: seq<Entry>, capacity: nat): seq<Entry> {
    if |es| > capacity then es[|es| - capacity..] else es
  }

  // ----- lookups -------------------------------------------------------------------

  /** sorted(keys, key=strength, reverse=True): stable, strongest first. */
  function Insert(k: PrefixKey, ks: seq<PrefixKey>): seq<PrefixKey> {
    if ks == [] || k.strength >= ks[0].strength then [k] + ks else [ks[0]] + Insert(k, ks[1..])
  }

  function Strongest(ks: seq<PrefixKey>): seq<PrefixKey> {
    if ks == [] then [] else Insert(ks[0], Strongest(ks[1..]))
  }

  /** The entry that a key of a lookup finds. */
  function HitOf(es: seq<Entry>, scope: string, allowed: set<string>, k: PrefixKey): Option<Entry> {
    if k.strength <= 0 then None
    else match Find(es, Key(scope, k.digest))
      case None => None
      case Some(e) => if e.target in allowed then Some(e) else None
  }

  function FirstHit(es: seq<Entry>, scope: string, allowed: set<string>, ks: seq<PrefixKey>): Option<Entry> {
    if ks == [] then None
    else
      var hit := HitOf(es, scope, allowed, ks[0]);
      if hit.Some? then hit else FirstHit(es, scope, allowed, ks[1..])
  }

  class Table {
    const ttl: real
    const capacity: nat
    var entries: seq<Entry>

    constructor (ttl: real, capacity: nat)
      ensures this.ttl == ttl && this.capacity == capacity && entries == []
    {
      this.ttl, this.capacity, entries := ttl, capacity, [];
    }

    /** _expire, with its clock reading */
    method Expire(now: real)
      modifies this
      ensures entries == Young(old(entries), ttl, now)
    {
      var all, i := entries, 0;
      entries := [];
      while i < |all|
        invariant 0 <= i <= |all|
        invariant Young(old(entries), ttl, now) == entries + Young(all[i..], ttl, now)
      {
        assert all[i..][1..] == all[i + 1..];
        if !(now - all[i].touched >= ttl) {
          Assoc(entries, [all[i]], Young(all[i + 1..], ttl, now));
          entries := entries + [all[i]];
        } else {
          assert [] + Young(all[i + 1..], ttl, now) == Young(all[i + 1..], ttl, now);
        }
        i := i + 1;
      }
      assert all[|all|..] == [] && entries + [] == entries;
    }

    /** lookup; `now` is read on entry, `later` when there is a hit. */
    method Lookup(scope: string, keys: seq<PrefixKey>, candidates: seq<string>, now: real, later: real)
      returns (target: Option<string>)
      modifies this
      ensures var live := Young(old(entries), ttl, now);
              var hit := FirstHit(live, scope, (set c | c in candidates), Strongest(keys));
              && target == (if hit.Some? then Some(hit.value.target) else None)
              && entries == if hit.Some? then Touch(live, hit.value.(touched := later)) else live
    {
      Expire(now);
      var allowed := set c | c in candidates;
      var sorted := Strongest(keys);
      var i := 0;
      while i < |sorted|
        invariant 0 <= i <= |sorted|
        invariant entries == Young(old(entries), ttl, now)
        invariant FirstHit(entries, scope, allowed, sorted) == FirstHit(entries, scope, allowed, sorted[i..])
      {
        var digest, strength := sorted[i].digest, sorted[i].strength;
        assert sorted[i..][1..] == sorted[i + 1..];
        if strength > 0 {
          var entry := Find(entries, Key(scope, digest));
          if entry.Some? && entry.value.target in allowed {
            entries := Touch(entries, entry.value.(touched := later));
            return Some(entry.value.target);
          }
        }
        i := i + 1;
      }
      target := None;
    }

    method Remember(scope: string, keys: seq<PrefixKey>, target: string, now: real, later: real)
      modifies this
      ensures keys == [] ==> entries == old(entries)
      ensures keys != [] ==>
                entries == Trim(Touch(Young(old(entries), ttl, now),
                                      Entry(Key(scope, keys[|keys| - 1].digest), target, later)), capacity)
    {
      if keys == [] {
        return;
      }
      Expire(now);
      entries := Touch(entries, Entry(Key(scope, keys[|keys| - 1].digest), target, later));
      ghost var touched := entries;
      while |entries| > capacity
        invariant Trim(entries, capacity) == Trim(touched, capacity)
        decreases |entries|
      {
        assert entries[1..][|entries| - 1 - capacity..] == entries[|entries| - capacity..];
        entries := entries[1..];
      }
    }
  }

  // ----- runs --------------------------------------------------------------------------

  /** A call with its clock readings. */
  datatype Call =
    | Lookup(scope: string, keys: seq<PrefixKey>, candidates: set<string>, now: real, later: real)
    | Remember(scope: string, keys: seq<PrefixKey>, target: string, now: real, later: real)

  /** The table, the touches so far in order, and the last expiry reading and last reading. */
  datatype Run = Run(es: seq<Entry>, touches: seq<Entry>, expiry: real, clock: real)

  function CallHit(es: seq<Entry>, ttl: real, c: Call): Option<Entry>
    requires c.Lookup?
  {
    FirstHit(Young(es, ttl, c.now), c.scope, c.candidates, Strongest(c.keys))
  }

  /** The touch that a call makes, if any. */
  function TouchOf(es: seq<Entry>, ttl: real, c: Call): Option<Entry> {
    match c
    case Lookup(_, _, _, _, later) =>
      var hit := CallHit(es, ttl, c);
      if hit.Some? then Some(hit.value.(touched := later)) else None
    case Remember(scope, keys, target, _, later) =>
      if keys == [] then None else Some(Entry(Key(scope, keys[|keys| - 1].digest), target, later))
  }

  function After(r: Run, ttl: real, capacity: nat, c: Call): Run {
    if c.Remember? && c.keys == [] then r
    else
      var touch := TouchOf(r.es, ttl, c);
      var live := Young(r.es, ttl, c.now);
      match touch
      case None => Run(live, r.touches, c.now, if c.now > r.clock then c.now else r.clock)
      case Some(e) =>
        Run(if c.Lookup? then Touch(live, e) else Trim(Touch(live, e), capacity), r.touches + [e], c.now, c.later)
  }

  function RunOf(ttl: real, capacity: nat, calls: seq<Call>): Run {
    if |calls| == 0 then Run([], [], 0.0, 0.0)
    else After(RunOf(ttl, capacity, calls[..|calls| - 1]), ttl, capacity, calls[|calls| - 1])
  }

  /** The clock never goes back, within and between calls. */
  predicate Monotone(calls: seq<Call>, from: real) {
    |calls| == 0
    || (Monotone(calls[..|calls| - 1], from)
        && (if |calls| == 1 then from else calls[|calls| - 2].later) <= calls[|calls| - 1].now <= calls[|calls| - 1].later)
  }

  // ----- the reference: last touches -------------------------------------------------------

  /** The last touch of every key, in the order of these last touches. */
  function LastTouches(h: seq<Entry>): seq<Entry> {
    if |h| == 0 then [] else Touch(LastTouches(h[..|h| - 1]), h[|h| - 1])
  }

  /** Distinct keys, and touched in order, none after `clock`. */
  predicate Ordered(es: seq<Entry>, clock: real) {
    && (forall i, j :: 0 <= i < j < |es| ==> es[i].key != es[j].key && es[i].touched <= es[j].touched)
    && forall i :: 0 <= i < |es| ==> es[i].touched <= clock
  }

  /** The table is the youngest `capacity` of the last touches that are younger than ttl. */
  ghost predicate Law(r: Run, ttl: real, capacity: nat) {
    && r.expiry <= r.clock
    && Ordered(LastTouches(r.touches), r.clock)
    && r.es == Trim(Young(LastTouches(r.touches), ttl, r.expiry), capacity)
  }

  lemma {:induction false} YoungSplit(a: seq<Entry>, b: seq<Entry>, ttl: real, now: real)
    ensures Young(a + b, ttl, now) == Young(a, ttl, now) + Young(b, ttl, now)
  {
    if a == [] {
      assert a + b == b;
    } else {
      YoungSplit(a[1..], b, ttl, now);
      TailAppend(a, b);
      var head := if now - a[0].touched >= ttl then [] else [a[0]];
      Assoc(head, Young(a[1..], ttl, now), Young(b, ttl, now));
    }
  }

  lemma {:induction false} WithoutSplit(a: seq<Entry>, b: seq<Entry>, key: Key)
    ensures Without(a + b, key) == Without(a, key) + Without(b, key)
  {
    if a == [] {
      assert a + b == b;
    } else {
      WithoutSplit(a[1..], b, key);
      TailAppend(a, b);
      if a[0].key != key {
        Assoc([a[0]], Without(a[1..], key), Without(b, key));
      }
    }
  }

  /** How many leading entries of an ordered table are too old. */
  function OldCount(es: seq<Entry>, ttl: real, now: real): (n: nat)
    ensures n <= |es|
  {
    if es == [] || !(now - es[0].touched >= ttl) then 0 else 1 + OldCount(es[1..], ttl, now)
  }

  lemma {:induction false} AllYoung(es: seq<Entry>, ttl: real, now: real)
    requires forall i :: 0 <= i < |es| ==> !(now - es[i].touched >= ttl)
    ensures Young(es, ttl, now) == es
  {
    if es != [] {
      AllYoung(es[1..], ttl, now);
      HeadTail(es);
    }
  }

  /** In an ordered table the young entries are a suffix. */
  lemma {:induction false} YoungIsSuffix(es: seq<Entry>, clock: real, ttl: real, now: real)
    requires Ordered(es, clock)
    ensures Young(es, ttl, now) == es[OldCount(es, ttl, now)..]
  {
    if es != [] {
      if now - es[0].touched >= ttl {
        YoungIsSuffix(es[1..], clock, ttl, now);
        assert es[1..][OldCount(es[1..], ttl, now)..] == es[1 + OldCount(es[1..], ttl, now)..];
        assert [] + Young(es[1..], ttl, now) == Young(es[1..], ttl, now);
      } else {
        AllYoung(es, ttl, now);
      }
    }
  }

  lemma {:induction false} OldCountGrows(es: seq<Entry>, ttl: real, now: real, later: real)
    requires now <= later
    ensures OldCount(es, ttl, now) <= OldCount(es, ttl, later)
  {
    if es != [] && now - es[0].touched >= ttl {
      OldCountGrows(es[1..], ttl, now, later);
    }
  }

  lemma {:induction false} OldCountBehind(es: seq<Entry>, ttl: real, now: real, i: nat)
    requires i <= OldCount(es, ttl, now)
    ensures OldCount(es[i..], ttl, now) == OldCount(es, ttl, now) - i
  {
    if i > 0 {
      OldCountBehind(es[1..], ttl, now, i - 1);
      assert es[1..][i - 1..] == es[i..];
    } else {
      assert es[0..] == es;
    }
  }

  lemma {:induction false} OldCountPast(es: seq<Entry>, clock: real, ttl: real, now: real, i: nat)
    requires Ordered(es, clock) && OldCount(es, ttl, now) <= i <= |es|
    ensures OldCount(es[i..], ttl, now) == 0
  {
    if i > 0 {
      if now - es[0].touched >= ttl {
        OldCountPast(es[1..], clock, ttl, now, i - 1);
        assert es[1..][i - 1..] == es[i..];
      } else if i < |es| {
        assert es[i..][0] == es[i];
      }
    } else {
      assert es[0..] == es;
    }
  }

  lemma OrderedSuffix(es: seq<Entry>, clock: real, i: nat)
    requires Ordered(es, clock) && i <= |es|
    ensures Ordered(es[i..], clock)
  {
  }

  /** Where the table begins among the last touches. */
  function Begin(es: seq<Entry>, ttl: real, capacity: nat, now: real): (n: nat)
    ensures n <= |es|
  {
    var old', cut := OldCount(es, ttl, now), |es| - capacity;
    if old' < cut then cut else old'
  }

  lemma TrimYoung(es: seq<Entry>, clock: real, ttl: real, capacity: nat, now: real)
    requires Ordered(es, clock)
    ensures Trim(Young(es, ttl, now), capacity) == es[Begin(es, ttl, capacity, now)..]
  {
    hide Young, OldCount, Ordered;
    YoungIsSuffix(es, clock, ttl, now);
    var i := OldCount(es, ttl, now);
    if |es| - i > capacity {
      assert es[i..][|es| - i - capacity..] == es[|es| - capacity..];
    }
  }

  /** Expiring again, later, is expiring once. */
  lemma ExpireAgain(es: seq<Entry>, clock: real, ttl: real, capacity: nat, now: real, later: real)
    requires Ordered(es, clock) && now <= later
    ensures Young(Trim(Young(es, ttl, now), capacity), ttl, later) == Trim(Young(es, ttl, later), capacity)
  {
    hide Young, OldCount, Ordered, Trim;
    TrimYoung(es, clock, ttl, capacity, now);
    TrimYoung(es, clock, ttl, capacity, later);
    OldCountGrows(es, ttl, now, later);
    var i := Begin(es, ttl, capacity, now);
    OrderedSuffix(es, clock, i);
    YoungIsSuffix(es[i..], clock, ttl, later);
    if i <= OldCount(es, ttl, later) {
      OldCountBehind(es, ttl, later, i);
    } else {
      OldCountPast(es, clock, ttl, later, i);
    }
    assert es[i..][OldCount(es[i..], ttl, later)..] == es[i + OldCount(es[i..], ttl, later)..];
  }

  lemma {:induction false} WithoutDistinct(es: seq<Entry>, clock: real, key: Key)
    requires Ordered(es, clock)
    ensures IsWithout(Without(es, key), es, clock, key)
  {
    hide IsWithout;
    if es != [] {
      WithoutDistinct(es[1..], clock, key);
      WithoutHead(es, clock, key);
    } else {
      EmptyIsWithout(clock, key);
    }
  }

  lemma EmptyIsWithout(clock: real, key: Key)
    ensures IsWithout([], [], clock, key)
  {
  }

  /** Removing a key from an ordered table. */
  ghost predicate IsWithout(rest: seq<Entry>, es: seq<Entry>, clock: real, key: Key) {
    && Ordered(rest, clock)
    && |rest| == |es| - (if HasKey(es, key) then 1 else 0)
    && !HasKey(rest, key)
    && forall e :: e in rest ==> e in es
  }

  lemma WithoutHead(es: seq<Entry>, clock: real, key: Key)
    requires es != [] && Ordered(es, clock) && IsWithout(Without(es[1..], key), es[1..], clock, key)
    ensures IsWithout(Without(es, key), es, clock, key)
  {
    var rest := Without(es[1..], key);
    if es[0].key == key {
      assert !HasKey(es[1..], key) by {
        assert forall j :: 0 <= j < |es| - 1 ==> es[1..][j].key != key;
      }
    } else {
      ConsIsWithout(es, rest, clock, key);
    }
  }

  lemma ConsIsWithout(es: seq<Entry>, rest: seq<Entry>, clock: real, key: Key)
    requires es != [] && es[0].key != key && Ordered(es, clock) && IsWithout(rest, es[1..], clock, key)
    ensures IsWithout([es[0]] + rest, es, clock, key)
  {
    var all := [es[0]] + rest;
    assert forall j :: 0 <= j < |rest| ==> rest[j] in es[1..];
    assert Ordered(all, clock);
    assert !HasKey(all, key) by {
      assert forall j :: 0 <= j < |all| ==> all[j] == if j == 0 then es[0] else rest[j - 1];
    }
    if HasKey(es, key) {
      var i :| 0 <= i < |es| && es[i].key == key;
      assert es[1..][i - 1].key == key;
    } else {
      assert forall j :: 0 <= j < |es| - 1 ==> es[1..][j] == es[j + 1];
    }
  }

  lemma {:induction false} AbsentStays(es: seq<Entry>, key: Key)
    ensures !HasKey(es, key) ==> Without(es, key) == es
  {
    if es != [] && !HasKey(es, key) {
      assert !HasKey(es[1..], key) by {
        assert forall j :: 0 <= j < |es| - 1 ==> es[1..][j] == es[j + 1];
      }
      AbsentStays(es[1..], key);
      assert es[0].key != key;
      HeadTail(es);
    }
  }

  lemma TouchOrdered(es: seq<Entry>, clock: real, e: Entry)
    requires Ordered(es, clock) && clock <= e.touched
    ensures Ordered(Touch(es, e), e.touched)
  {
    WithoutDistinct(es, clock, e.key);
    var rest := Without(es, e.key);
    assert forall j :: 0 <= j < |rest| ==> rest[j].key != e.key;
  }

  lemma TrimBehind(a: seq<Entry>, b: seq<Entry>, capacity: nat)
    requires |b| >= capacity
    ensures Trim(a + b, capacity) == Trim(b, capacity)
  {
  }

  /** Touching and trimming the table is touching all last touches, then expiring and trimming. */
  lemma TouchTable(es: seq<Entry>, clock: real, ttl: real, capacity: nat, now: real, e: Entry)
    requires Ordered(es, clock) && now <= e.touched && ttl > 0.0
    ensures Trim(Touch(Trim(Young(es, ttl, now), capacity), e), capacity) == Trim(Young(Touch(es, e), ttl, now), capacity)
  {
    hide Young, OldCount, Ordered, Without, Trim;
    var i, j := OldCount(es, ttl, now), Begin(es, ttl, capacity, now);
    YoungIsSuffix(es, clock, ttl, now);
    TrimYoung(es, clock, ttl, capacity, now);
    YoungTouch(es, clock, ttl, now, e);
    if i < j {
      assert es[i..] == es[i..j] + es[j..];
      WithoutSplit(es[i..j], es[j..], e.key);
      OrderedSuffix(es, clock, j);
      WithoutDistinct(es[j..], clock, e.key);
      Assoc(Without(es[i..j], e.key), Without(es[j..], e.key), [e]);
      TrimBehind(Without(es[i..j], e.key), Without(es[j..], e.key) + [e], capacity);
    }
  }

  lemma YoungTouch(es: seq<Entry>, clock: real, ttl: real, now: real, e: Entry)
    requires Ordered(es, clock) && now <= e.touched && ttl > 0.0
    ensures Young(Touch(es, e), ttl, now) == Touch(Young(es, ttl, now), e)
  {
    hide Young, Ordered, Without;
    YoungSplit(Without(es, e.key), [e], ttl, now);
    YoungOne(e, ttl, now);
    YoungWithout(es, ttl, now, e.key);
  }

  lemma YoungOne(e: Entry, ttl: real, now: real)
    requires now <= e.touched && ttl > 0.0
    ensures Young([e], ttl, now) == [e]
  {
    assert Young([e][1..], ttl, now) == [];
  }

  lemma WithoutCons(e: Entry, es: seq<Entry>, key: Key)
    ensures Without([e] + es, key) == (if e.key == key then [] else [e]) + Without(es, key)
  {
    assert ([e] + es)[1..] == es;
  }

  lemma YoungCons(e: Entry, es: seq<Entry>, ttl: real, now: real)
    ensures Young([e] + es, ttl, now) == (if now - e.touched >= ttl then [] else [e]) + Young(es, ttl, now)
  {
    assert ([e] + es)[1..] == es;
  }

  lemma {:induction false} YoungWithout(es: seq<Entry>, ttl: real, now: real, key: Key)
    ensures Young(Without(es, key), ttl, now) == Without(Young(es, ttl, now), key)
  {
    if es != [] {
      hide Young, Without;
      var e, rest := es[0], es[1..];
      YoungWithout(rest, ttl, now, key);
      HeadTail(es);
      WithoutCons(e, rest, key);
      YoungCons(e, rest, ttl, now);
      YoungCons(e, Without(rest, key), ttl, now);
      WithoutCons(e, Young(rest, ttl, now), key);
      assert forall s: seq<Entry> :: [] + s == s;
    }
  }

  // ----- the law over runs --------------------------------------------------------------

  lemma FindsOnlyItsOwn(es: seq<Entry>, scope: string, allowed: set<string>, ks: seq<PrefixKey>)
    ensures var hit := FirstHit(es, scope, allowed, ks); hit.Some? ==> HasKey(es, hit.value.key)
  {
    if ks != [] && HitOf(es, scope, allowed, ks[0]).None? {
      FindsOnlyItsOwn(es, scope, allowed, ks[1..]);
    } else if ks != [] {
      var hit := FirstHit(es, scope, allowed, ks);
      assert hit.value in es;
    }
  }

  /** A hit's touch leaves the table's size, so it would survive a trim. */
  lemma HitNeedsNoTrim(es: seq<Entry>, clock: real, capacity: nat, e: Entry)
    requires Ordered(es, clock) && |es| <= capacity && HasKey(es, e.key)
    ensures Touch(es, e) == Trim(Touch(es, e), capacity)
  {
    hide Without, HasKey, Ordered;
    WithoutDistinct(es, clock, e.key);
  }

  lemma AfterKeepsLaw(r: Run, ttl: real, capacity: nat, c: Call)
    requires Law(r, ttl, capacity) && ttl > 0.0 && r.clock <= c.now <= c.later
    ensures Law(After(r, ttl, capacity, c), ttl, capacity)
  {
    hide Young, Ordered, Without, Trim, FirstHit, Strongest, HasKey;
    var all := LastTouches(r.touches);
    ExpireAgain(all, r.clock, ttl, capacity, r.expiry, c.now);
    var live := Young(r.es, ttl, c.now);
    match TouchOf(r.es, ttl, c) {
      case None =>
        OrderedLater(all, r.clock, c.now);
      case Some(e) =>
        assert (r.touches + [e])[..|r.touches|] == r.touches;
        TouchOrdered(all, r.clock, e);
        TouchTable(all, r.clock, ttl, capacity, c.now, e);
        if c.Lookup? {
          FindsOnlyItsOwn(live, c.scope, c.candidates, Strongest(c.keys));
          TrimYoung(all, r.clock, ttl, capacity, c.now);
          OrderedSuffix(all, r.clock, Begin(all, ttl, capacity, c.now));
          HitNeedsNoTrim(live, r.clock, capacity, e);
        }
    }
  }

  lemma OrderedLater(es: seq<Entry>, clock: real, later: real)
    requires Ordered(es, clock) && clock <= later
    ensures Ordered(es, later)
  {
  }

  lemma MonotoneClock(ttl: real, capacity: nat, calls: seq<Call>)
    requires Monotone(calls, 0.0)
    ensures RunOf(ttl, capacity, calls).clock <= (if |calls| == 0 then 0.0 else calls[|calls| - 1].later)
  {
    hide Young, Without, Trim, FirstHit, Strongest, Touch;
    if |calls| > 0 {
      MonotoneClock(ttl, capacity, calls[..|calls| - 1]);
    }
  }

  /** After every run with a monotone clock and a positive time to live, the table obeys the law. */
  lemma {:induction false} TableObeysLaw(ttl: real, capacity: nat, calls: seq<Call>)
    requires Monotone(calls, 0.0) && ttl > 0.0
    ensures Law(RunOf(ttl, capacity, calls), ttl, capacity)
  {
    hide Law, After, CallHit;
    if |calls| == 0 {
      EmptyLaw(ttl, capacity);
    } else {
      var init := calls[..|calls| - 1];
      TableObeysLaw(ttl, capacity, init);
      MonotoneClock(ttl, capacity, init);
      AfterKeepsLaw(RunOf(ttl, capacity, init), ttl, capacity, calls[|calls| - 1]);
    }
  }

  lemma EmptyLaw(ttl: real, capacity: nat)
    ensures Law(Run([], [], 0.0, 0.0), ttl, capacity)
  {
  }
}
