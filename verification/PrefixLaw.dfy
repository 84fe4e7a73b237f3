/**
 The exact LRU and TTL law of the prefix-affinity table, key by key: which
 touches the table still knows.
 */
module PrefixLaw {
  import opened Wrappers
  import opened Seqs
  import opened PrefixAffinity

  function KeysOf(h: seq<Entry>): set<Key> {
    if |h| == 0 then {} else KeysOf(h[..|h| - 1]) + {h[|h| - 1].key}
  }

  /** Touch q is the last of its key, is younger than ttl, and fewer than `capacity` other keys were touched since. */
  ghost predicate StillKnown(h: seq<Entry>, q: nat, ttl: real, capacity: nat, now: real) {
    q < |h| && h[q].key !in KeysOf(h[q + 1..]) && now - h[q].touched < ttl && |KeysOf(h[q + 1..])| < capacity
  }

  lemma {:induction false} WithoutHasKey(es: seq<Entry>, key: Key, other: Key)
    ensures HasKey(Without(es, key), other) <==> other != key && HasKey(es, other)
  {
    if es != [] {
      WithoutHasKey(es[1..], key, other);
      HasKeyCons(es[0], es[1..], other);
      HeadTail(es);
      if es[0].key != key {
        HasKeyCons(es[0], Without(es[1..], key), other);
      }
    }
  }

  lemma HasKeyCons(e: Entry, es: seq<Entry>, key: Key)
    ensures HasKey([e] + es, key) <==> e.key == key || HasKey(es, key)
  {
    var all := [e] + es;
    assert all[0] == e && forall i :: 0 <= i < |es| ==> all[i + 1] == es[i];
  }

  lemma HasKeySnoc(es: seq<Entry>, e: Entry, key: Key)
    ensures HasKey(es + [e], key) <==> e.key == key || HasKey(es, key)
  {
    var all := es + [e];
    assert all[|es|] == e && forall i :: 0 <= i < |es| ==> all[i] == es[i];
  }

  /** One last touch for every key that was ever touched. */
  lemma {:induction false} LastTouchesKeys(h: seq<Entry>, clock: real)
    requires Ordered(LastTouches(h), clock) && TouchedInOrder(h)
    ensures |LastTouches(h)| == |KeysOf(h)|
    ensures forall key :: HasKey(LastTouches(h), key) <==> key in KeysOf(h)
  {
    hide Without, HasKey, Ordered;
    if |h| > 0 {
      var init, e := h[..|h| - 1], h[|h| - 1];
      InOrderOrdered(init);
      LastTouchesKeys(init, Latest(init));
      var all := LastTouches(init);
      WithoutDistinct(all, Latest(init), e.key);
      forall key ensures HasKey(LastTouches(h), key) <==> key in KeysOf(h) {
        WithoutHasKey(all, e.key, key);
        HasKeySnoc(Without(all, e.key), e, key);
      }
      if HasKey(all, e.key) {
        assert KeysOf(h) == KeysOf(init);
      } else {
        AbsentStays(all, e.key);
      }
    } else {
      assert forall key :: !HasKey([], key) by { EmptyHasNoKey(); }
    }
  }

  lemma EmptyHasNoKey()
    ensures forall key :: !HasKey([], key)
  {
  }

  predicate TouchedInOrder(h: seq<Entry>) {
    forall i, j :: 0 <= i < j < |h| ==> h[i].touched <= h[j].touched
  }

  function Latest(h: seq<Entry>): real {
    if |h| == 0 then 0.0 else h[|h| - 1].touched
  }

  lemma {:induction false} InOrderOrdered(h: seq<Entry>)
    requires TouchedInOrder(h)
    ensures Ordered(LastTouches(h), Latest(h))
  {
    hide Without;
    if |h| > 0 {
      var init, e := h[..|h| - 1], h[|h| - 1];
      InOrderOrdered(init);
      if |init| > 0 {
        assert init[|init| - 1].touched <= e.touched;
        TouchOrdered(LastTouches(init), Latest(init), e);
      }
    }
  }

  /** A key's last touch is behind the last touches of older keys and before those of the later ones. */
  lemma {:induction false} LastTouchesSplit(h: seq<Entry>, q: nat) returns (older: seq<Entry>)
    requires q < |h| && h[q].key !in KeysOf(h[q + 1..])
    ensures LastTouches(h) == older + ([h[q]] + LastTouches(h[q + 1..]))
  {
    hide Without;
    var n := |h| - 1;
    var init, e := h[..n], h[n];
    if q == n {
      older := Without(LastTouches(init), e.key);
      assert h[q + 1..] == [];
      assert [h[q]] + LastTouches([]) == [h[q]];
    } else {
      var mid := h[q + 1..];
      assert mid[..|mid| - 1] == init[q + 1..] && mid[|mid| - 1] == e;
      var before := LastTouchesSplit(init, q);
      older := Without(before, e.key);
      var later := LastTouches(init[q + 1..]);
      WithoutSplit(before, [h[q]] + later, e.key);
      WithoutSplit([h[q]], later, e.key);
      WithoutOther(h[q], e.key);
      assert LastTouches(mid) == Without(later, e.key) + [e];
    }
  }

  lemma WithoutOther(e: Entry, key: Key)
    requires e.key != key
    ensures Without([e], key) == [e]
  {
  }

  /** In an ordered table exactly the first OldCount entries are too old. */
  lemma {:induction false} OldCountSplits(es: seq<Entry>, clock: real, ttl: real, now: real, i: nat)
    requires Ordered(es, clock) && i < |es|
    ensures i < OldCount(es, ttl, now) <==> now - es[i].touched >= ttl
  {
    if now - es[0].touched >= ttl {
      if i > 0 {
        OldCountSplits(es[1..], clock, ttl, now, i - 1);
      }
    } else {
      assert es[0].touched <= es[i].touched;
    }
  }

  lemma FoundAt(es: seq<Entry>, clock: real, i: nat, p: nat)
    requires Ordered(es, clock) && i <= |es| && p < |es|
    ensures HasKey(es[i..], es[p].key) <==> i <= p
    ensures i <= p ==> Find(es[i..], es[p].key) == Some(es[p])
  {
    var tail, key := es[i..], es[p].key;
    if i <= p {
      assert tail[p - i].key == key;
      var found := Find(tail, key);
      assert found.value in tail;
      var j :| 0 <= j < |tail| && tail[j] == found.value;
      assert es[i + j].key == key;
    } else {
      assert forall j :: 0 <= j < |tail| ==> tail[j] == es[i + j];
    }
  }

  /**
   The table knows a key exactly when the key's last touch, a remember or a hit, is
   younger than ttl at the last expiry reading and fewer than `capacity` distinct
   other keys were touched since; it then has that touch's target and time.
   */
  lemma KnownIff(r: Run, ttl: real, capacity: nat, key: Key)
    requires Law(r, ttl, capacity) && TouchedInOrder(r.touches)
    ensures HasKey(r.es, key) <==> exists q: nat :: q < |r.touches| && r.touches[q].key == key && StillKnown(r.touches, q, ttl, capacity, r.expiry)
    ensures forall q: nat :: q < |r.touches| && r.touches[q].key == key && StillKnown(r.touches, q, ttl, capacity, r.expiry)
              ==> Find(r.es, key) == Some(r.touches[q])
  {
    hide Ordered, LastTouches, HasKey, Find, Without, Young, Trim, OldCount, StillKnown;
    if key in KeysOf(r.touches) {
      var last := LastIndex(r.touches, key);
      LastTouchKnownIff(r, ttl, capacity, last);
      forall q: nat | q < |r.touches| && r.touches[q].key == key && StillKnown(r.touches, q, ttl, capacity, r.expiry)
        ensures q == last
      {
        OnlyLast(r.touches, q, last, ttl, capacity, r.expiry);
      }
    } else {
      LastTouchesKeys(r.touches, r.clock);
      TrimYoung(LastTouches(r.touches), r.clock, ttl, capacity, r.expiry);
      SuffixHasKey(LastTouches(r.touches), Begin(LastTouches(r.touches), ttl, capacity, r.expiry), key);
      forall q: nat | q < |r.touches| ensures r.touches[q].key != key {
        KeyIn(r.touches, q);
      }
    }
  }

  lemma SuffixHasKey(es: seq<Entry>, i: nat, key: Key)
    requires i <= |es|
    ensures HasKey(es[i..], key) ==> HasKey(es, key)
  {
    if HasKey(es[i..], key) {
      var j :| 0 <= j < |es[i..]| && es[i..][j].key == key;
      assert es[i + j].key == key;
    }
  }

  lemma {:induction false} KeyIn(h: seq<Entry>, q: nat)
    requires q < |h|
    ensures h[q].key in KeysOf(h)
  {
    if q < |h| - 1 {
      KeyIn(h[..|h| - 1], q);
    }
  }

  lemma {:induction false} LastIndex(h: seq<Entry>, key: Key) returns (q: nat)
    requires key in KeysOf(h)
    ensures q < |h| && h[q].key == key && key !in KeysOf(h[q + 1..])
  {
    var n := |h| - 1;
    if h[n].key == key {
      q := n;
      assert h[n + 1..] == [];
    } else {
      q := LastIndex(h[..n], key);
      var mid := h[q + 1..];
      assert mid[..|mid| - 1] == h[..n][q + 1..] && mid[|mid| - 1] == h[n];
    }
  }

  lemma OnlyLast(h: seq<Entry>, q: nat, last: nat, ttl: real, capacity: nat, now: real)
    requires last < |h| && h[last].key !in KeysOf(h[last + 1..])
    requires q < |h| && h[q].key == h[last].key && StillKnown(h, q, ttl, capacity, now)
    ensures q == last
  {
    if q < last {
      KeyIn(h[q + 1..], last - q - 1);
    } else if last < q {
      KeyIn(h[last + 1..], q - last - 1);
    }
  }

  lemma LastTouchKnownIff(r: Run, ttl: real, capacity: nat, q: nat)
    requires Law(r, ttl, capacity) && TouchedInOrder(r.touches)
    requires q < |r.touches| && r.touches[q].key !in KeysOf(r.touches[q + 1..])
    ensures HasKey(r.es, r.touches[q].key) <==> StillKnown(r.touches, q, ttl, capacity, r.expiry)
    ensures HasKey(r.es, r.touches[q].key) ==> Find(r.es, r.touches[q].key) == Some(r.touches[q])
  {
    hide Ordered, LastTouches, HasKey, Find, Without, Young, Trim, OldCount, KeysOf;
    var all, later := LastTouches(r.touches), r.touches[q + 1..];
    var older := LastTouchesSplit(r.touches, q);
    var p := |older|;
    assert all[p] == r.touches[q];
    InOrderOrdered(later);
    LastTouchesKeys(later, Latest(later));
    TrimYoung(all, r.clock, ttl, capacity, r.expiry);
    FoundAt(all, r.clock, Begin(all, ttl, capacity, r.expiry), p);
    OldCountSplits(all, r.clock, ttl, r.expiry, p);
  }

  /** In a run with a monotone clock the touches are in order. */
  lemma {:induction false} RunTouchesInOrder(ttl: real, capacity: nat, calls: seq<Call>)
    requires Monotone(calls, 0.0)
    ensures TouchedInOrder(RunOf(ttl, capacity, calls).touches)
    ensures Latest(RunOf(ttl, capacity, calls).touches) <= RunOf(ttl, capacity, calls).clock
  {
    hide CallHit, Young, Trim, Touch;
    if |calls| > 0 {
      var init, c := calls[..|calls| - 1], calls[|calls| - 1];
      RunTouchesInOrder(ttl, capacity, init);
      MonotoneClock(ttl, capacity, init);
      var h := RunOf(ttl, capacity, init).touches;
      if TouchOf(RunOf(ttl, capacity, init).es, ttl, c).Some? {
        var e := TouchOf(RunOf(ttl, capacity, init).es, ttl, c).value;
      }
    }
  }

  /** The law for every key, after every run. */
  lemma RunKnowsIff(ttl: real, capacity: nat, calls: seq<Call>, key: Key)
    requires Monotone(calls, 0.0) && ttl > 0.0
    ensures var r := RunOf(ttl, capacity, calls);
            HasKey(r.es, key) <==> exists q: nat :: q < |r.touches| && r.touches[q].key == key && StillKnown(r.touches, q, ttl, capacity, r.expiry)
  {
    hide *;
    TableObeysLaw(ttl, capacity, calls);
    RunTouchesInOrder(ttl, capacity, calls);
    KnownIff(RunOf(ttl, capacity, calls), ttl, capacity, key);
  }
}
