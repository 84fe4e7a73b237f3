/**
 A lookup finds the longest served prefix: the table's law, the keys of a body and
 the injectivity of the framing, put together.
 */
module PrefixLookup {
  import opened Wrappers
  import opened Seqs
  import opened PrefixAffinity
  import opened PrefixLaw
  import opened PrefixKeys

  // ----- strongest first ---------------------------------------------------------

  predicate Descending(ks: seq<PrefixKey>) {
    forall i, j :: 0 <= i < j < |ks| ==> ks[i].strength >= ks[j].strength
  }

  lemma {:induction false} InsertDescending(k: PrefixKey, ks: seq<PrefixKey>)
    requires Descending(ks)
    ensures Descending(Insert(k, ks))
    ensures forall x :: x in Insert(k, ks) <==> x == k || x in ks
  {
    if ks != [] && !(k.strength >= ks[0].strength) {
      var rest := Insert(k, ks[1..]);
      assert Descending(ks[1..]);
      InsertDescending(k, ks[1..]);
      assert forall x :: x in ks <==> x == ks[0] || x in ks[1..];
      assert forall j :: 0 <= j < |rest| ==> rest[j] in rest;
      assert forall x :: x in ks[1..] ==> x.strength <= ks[0].strength;
    } else if ks != [] {
      assert forall j :: 0 <= j < |ks| ==> ks[0].strength >= ks[j].strength;
    }
  }

  lemma {:induction false} StrongestDescending(ks: seq<PrefixKey>)
    ensures Descending(Strongest(ks))
    ensures forall x :: x in Strongest(ks) <==> x in ks
  {
    hide Insert;
    if ks != [] {
      StrongestDescending(ks[1..]);
      InsertDescending(ks[0], Strongest(ks[1..]));
      assert forall x :: x in ks <==> x == ks[0] || x in ks[1..];
    }
  }

  /** The first hit is the hit of a key that no other hit's key is stronger than. */
  ghost predicate IsStrongestHit(es: seq<Entry>, scope: string, allowed: set<string>, ks: seq<PrefixKey>, hit: Option<Entry>) {
    if hit.None? then forall k :: k in ks ==> HitOf(es, scope, allowed, k).None?
    else exists k :: k in ks && HitOf(es, scope, allowed, k) == hit
           && forall x :: x in ks && HitOf(es, scope, allowed, x).Some? ==> x.strength <= k.strength
  }

  lemma {:induction false} FirstIsStrongest(es: seq<Entry>, scope: string, allowed: set<string>, ks: seq<PrefixKey>)
    requires Descending(ks)
    ensures IsStrongestHit(es, scope, allowed, ks, FirstHit(es, scope, allowed, ks))
  {
    hide HitOf;
    if ks != [] {
      assert forall x :: x in ks <==> x == ks[0] || x in ks[1..];
      if HitOf(es, scope, allowed, ks[0]).None? {
        FirstIsStrongest(es, scope, allowed, ks[1..]);
      } else {
        assert forall x :: x in ks ==> x.strength <= ks[0].strength;
      }
    }
  }

  lemma LookupIsStrongestHit(es: seq<Entry>, scope: string, allowed: set<string>, ks: seq<PrefixKey>)
    ensures IsStrongestHit(es, scope, allowed, ks, FirstHit(es, scope, allowed, Strongest(ks)))
  {
    hide HitOf, FirstHit, Strongest, Descending;
    StrongestDescending(ks);
    FirstIsStrongest(es, scope, allowed, Strongest(ks));
  }

  // ----- prefixes of a body -----------------------------------------------------------

  /** A prompt that was served: scope, context and messages. */
  datatype Prompt = Prompt(scope: string, context: Bytes, messages: seq<Bytes>)

  function KeyOf(p: Prompt): Key {
    Key(p.scope, Digest(p.context, p.messages))
  }

  predicate IsServable(p: Prompt) {
    IsPrompt(p.context, p.messages)
  }

  lemma KeyOfInjective(p: Prompt, q: Prompt)
    requires IsServable(p) && IsServable(q)
    ensures KeyOf(p) == KeyOf(q) <==> p == q
  {
    hide Digest, IsPrompt;
    FramingInjective(p.context, p.messages, q.context, q.messages);
  }

  predicate WellEncoded(body: Body) {
    body.context.Some? && body.messages.Some? && AllUsable(body.messages.value)
    && IsPrompt(body.context.value, Encodings(body.messages.value))
  }

  /** The prompt of the first i messages. */
  function PrefixOf(scope: string, body: Body, i: nat): Prompt
    requires WellEncoded(body) && i <= |body.messages.value|
  {
    Prompt(scope, body.context.value, Encodings(body.messages.value)[..i])
  }

  /** A prefix that takes part in selection: the body has an assistant turn, and the prefix a conversation message. */
  predicate Selectable(endpoint: string, body: Body, i: nat) {
    && Keyable(endpoint, body) && 1 <= i <= |body.messages.value|
    && HasRole(body.messages.value, {"assistant"}) && HasRole(body.messages.value[..i], CONVERSATION)
  }

  lemma {:induction false} SizeStrict(context: Bytes, encs: seq<Bytes>, i: nat, j: nat)
    requires i <= j <= |encs| && context != [] && forall k :: 0 <= k < |encs| ==> encs[k] != []
    ensures Size(context, encs[..i]) >= 1
    ensures i < j ==> Size(context, encs[..i]) < Size(context, encs[..j])
    decreases j
  {
    if i < j {
      SizeStrict(context, encs, i, j - 1);
      TakeSnoc(encs, j - 1);
    } else if i > 0 {
      SizeStrict(context, encs, i - 1, i - 1);
      TakeSnoc(encs, i - 1);
    }
  }

  lemma StrengthIsLength(endpoint: string, body: Body, i: nat, j: nat)
    requires Keyable(endpoint, body) && WellEncoded(body) && 1 <= i <= j <= |body.messages.value|
    ensures PrefixKeyAt(body, i).strength > 0 <==> Selectable(endpoint, body, i)
    ensures PrefixKeyAt(body, i).digest == KeyOf(PrefixOf("", body, i)).digest
    ensures i < j && Selectable(endpoint, body, j) ==> PrefixKeyAt(body, i).strength < PrefixKeyAt(body, j).strength
  {
    hide Size, HasRole, Digest, ClosesAfter;
    var encs := Encodings(body.messages.value);
    assert forall k :: 0 <= k < |encs| ==> encs[k] in encs;
    assert forall k :: 0 <= k < |encs| ==> encs[k] != [];
    SizeStrict(body.context.value, encs, i, j);
  }

  /** The first i messages were served before by a candidate that the table still knows. */
  ghost predicate Served(es: seq<Entry>, scope: string, endpoint: string, body: Body, allowed: set<string>, i: nat)
    requires WellEncoded(body)
  {
    && Selectable(endpoint, body, i)
    && var found := Find(es, KeyOf(PrefixOf(scope, body, i)));
       found.Some? && found.value.target in allowed
  }

  lemma HitIsServed(es: seq<Entry>, scope: string, endpoint: string, body: Body, allowed: set<string>, i: nat)
    requires Keyable(endpoint, body) && WellEncoded(body) && 1 <= i <= |body.messages.value|
    ensures HitOf(es, scope, allowed, PrefixKeyAt(body, i)).Some? <==> Served(es, scope, endpoint, body, allowed, i)
    ensures Served(es, scope, endpoint, body, allowed, i) ==>
              HitOf(es, scope, allowed, PrefixKeyAt(body, i)) == Find(es, KeyOf(PrefixOf(scope, body, i)))
  {
    hide Selectable, Keyable, Digest, Find, PrefixKeyAt;
    StrengthIsLength(endpoint, body, i, i);
  }

  /** What a lookup answers: the longest served prefix's entry, and None only when no prefix is served. */
  ghost predicate IsLongestServed(es: seq<Entry>, scope: string, endpoint: string, body: Body, allowed: set<string>, hit: Option<Entry>)
    requires WellEncoded(body)
  {
    if hit.None? then forall i: nat :: !Served(es, scope, endpoint, body, allowed, i)
    else exists i: nat ::
           && Served(es, scope, endpoint, body, allowed, i)
           && hit == Find(es, KeyOf(PrefixOf(scope, body, i)))
           && forall j: nat :: Served(es, scope, endpoint, body, allowed, j) ==> j <= i
  }

  lemma LookupIsLongestServed(es: seq<Entry>, scope: string, endpoint: string, body: Body, allowed: set<string>)
    requires WellEncoded(body)
    ensures IsLongestServed(es, scope, endpoint, body, allowed, FirstHit(es, scope, allowed, Strongest(Keys(endpoint, body))))
  {
    hide HitOf, FirstHit, Strongest, Find, PrefixKeyAt, IsPrompt, Encodings, KeyOf, HasRole, INSTRUCTION, Size;
    var ks := Keys(endpoint, body);
    var hit := FirstHit(es, scope, allowed, Strongest(ks));
    LookupIsStrongestHit(es, scope, allowed, ks);
    forall i: nat | Served(es, scope, endpoint, body, allowed, i)
      ensures KeyAt(ks, body, i) in ks && HitOf(es, scope, allowed, KeyAt(ks, body, i)).Some?
    {
      assert ks[i - 1] == PrefixKeyAt(body, i);
      HitIsServed(es, scope, endpoint, body, allowed, i);
    }
    if hit.Some? {
      var k :| k in ks && HitOf(es, scope, allowed, k) == hit
        && forall x :: x in ks && HitOf(es, scope, allowed, x).Some? ==> x.strength <= k.strength;
      var n :| 0 <= n < |ks| && ks[n] == k;
      assert k == PrefixKeyAt(body, n + 1);
      HitIsServed(es, scope, endpoint, body, allowed, n + 1);
      forall j: nat | Served(es, scope, endpoint, body, allowed, j) ensures j <= n + 1 {
        if n + 1 < j {
          StrengthIsLength(endpoint, body, n + 1, j);
        }
      }
    }
  }

  function KeyAt(ks: seq<PrefixKey>, body: Body, i: nat): PrefixKey {
    if 1 <= i <= |ks| then ks[i - 1] else PrefixKey([], 0)
  }

  // ----- in terms of what was served -----------------------------------------------

  /** Touch q was a touch of exactly this prompt, and the table still knows it. */
  ghost predicate KnownPrompt(prompts: seq<Prompt>, h: seq<Entry>, q: nat, p: Prompt, ttl: real, capacity: nat, now: real) {
    q < |prompts| && prompts[q] == p && StillKnown(h, q, ttl, capacity, now)
  }

  /**
   Finding a prompt's key is having served exactly that prompt: the same scope,
   context and messages, as the table's last touch of it, young and not crowded out.
   */
  lemma FoundIffServed(r: Run, prompts: seq<Prompt>, p: Prompt, ttl: real, capacity: nat)
    requires Law(r, ttl, capacity) && TouchedInOrder(r.touches) && IsServable(p)
    requires |prompts| == |r.touches|
    requires forall q :: 0 <= q < |prompts| ==> IsServable(prompts[q]) && r.touches[q].key == KeyOf(prompts[q])
    ensures Find(r.es, KeyOf(p)).Some? <==> exists q: nat :: KnownPrompt(prompts, r.touches, q, p, ttl, capacity, r.expiry)
    ensures forall q: nat :: KnownPrompt(prompts, r.touches, q, p, ttl, capacity, r.expiry) ==> Find(r.es, KeyOf(p)) == Some(r.touches[q])
  {
    hide Law, TouchedInOrder, IsServable, KeyOf, StillKnown, Find, HasKey;
    KnownIff(r, ttl, capacity, KeyOf(p));
    FindIffHasKey(r.es, KeyOf(p));
    forall q: nat | q < |prompts| ensures r.touches[q].key == KeyOf(p) <==> prompts[q] == p {
      KeyOfInjective(prompts[q], p);
    }
    if Find(r.es, KeyOf(p)).Some? {
      var q: nat :| q < |r.touches| && r.touches[q].key == KeyOf(p) && StillKnown(r.touches, q, ttl, capacity, r.expiry);
      assert KnownPrompt(prompts, r.touches, q, p, ttl, capacity, r.expiry);
    }
  }

  lemma FindIffHasKey(es: seq<Entry>, key: Key)
    ensures Find(es, key).Some? <==> HasKey(es, key)
  {
    if Find(es, key).Some? {
      var e := Find(es, key).value;
      var i :| 0 <= i < |es| && es[i] == e;
    }
  }

  // ----- after a run ------------------------------------------------------------------

  /** Every remember in the run is for the prompt that its keys end with. */
  ghost predicate RemembersPrompts(calls: seq<Call>) {
    forall i :: 0 <= i < |calls| && calls[i].Remember? && calls[i].keys != [] ==>
      exists p :: IsServable(p) && KeyOf(p) == Key(calls[i].scope, calls[i].keys[|calls[i].keys| - 1].digest)
  }

  /** The keys of a body end with the key of its whole prompt, so a remember with them is for that prompt. */
  lemma KeysEndWithPrompt(scope: string, endpoint: string, body: Body)
    requires WellEncoded(body) && Keys(endpoint, body) != []
    ensures var ks := Keys(endpoint, body);
            var p := Prompt(scope, body.context.value, Encodings(body.messages.value));
            IsServable(p) && KeyOf(p) == Key(scope, ks[|ks| - 1].digest)
  {
    hide IsPrompt, Digest, Size, HasRole, INSTRUCTION;
    var encs := Encodings(body.messages.value);
    assert encs[..|encs|] == encs;
  }

  /** The prompts behind the touches of a run. */
  ghost predicate AreServed(prompts: seq<Prompt>, h: seq<Entry>) {
    |prompts| == |h| && forall q :: 0 <= q < |h| ==> IsServable(prompts[q]) && h[q].key == KeyOf(prompts[q])
  }

  lemma {:induction false} RunServesPrompts(ttl: real, capacity: nat, calls: seq<Call>) returns (prompts: seq<Prompt>)
    requires Monotone(calls, 0.0) && ttl > 0.0 && RemembersPrompts(calls)
    ensures AreServed(prompts, RunOf(ttl, capacity, calls).touches)
  {
    hide IsServable, KeyOf, CallHit, Young, Trim, Touch, Monotone;
    if |calls| == 0 {
      prompts := [];
    } else {
      var init, c := calls[..|calls| - 1], calls[|calls| - 1];
      assert Monotone(init, 0.0) by { MonotoneInit(calls); }
      assert forall i :: 0 <= i < |init| ==> init[i] == calls[i];
      prompts := RunServesPrompts(ttl, capacity, init);
      var r := RunOf(ttl, capacity, init);
      var touch := TouchOf(r.es, ttl, c);
      if touch.Some? {
        var p := TouchIsServed(ttl, capacity, init, c, prompts);
        prompts := prompts + [p];
      }
    }
  }

  lemma MonotoneInit(calls: seq<Call>)
    requires Monotone(calls, 0.0) && |calls| > 0
    ensures Monotone(calls[..|calls| - 1], 0.0)
  {
  }

  lemma TouchIsServed(ttl: real, capacity: nat, init: seq<Call>, c: Call, prompts: seq<Prompt>) returns (p: Prompt)
    requires Monotone(init, 0.0) && ttl > 0.0 && AreServed(prompts, RunOf(ttl, capacity, init).touches)
    requires TouchOf(RunOf(ttl, capacity, init).es, ttl, c).Some?
    requires c.Remember? ==> exists p :: IsServable(p) && KeyOf(p) == Key(c.scope, c.keys[|c.keys| - 1].digest)
    ensures IsServable(p) && KeyOf(p) == TouchOf(RunOf(ttl, capacity, init).es, ttl, c).value.key
  {
    hide IsServable, KeyOf, Young, Trim, Touch, Monotone, FirstHit, Strongest, HasKey;
    if c.Remember? {
      p :| IsServable(p) && KeyOf(p) == Key(c.scope, c.keys[|c.keys| - 1].digest);
    } else {
      var r := RunOf(ttl, capacity, init);
      var live := Young(r.es, ttl, c.now);
      FindsOnlyItsOwn(live, c.scope, c.candidates, Strongest(c.keys));
      var key := CallHit(r.es, ttl, c).value.key;
      YoungHasKey(r.es, ttl, c.now, key);
      RunKnowsIff(ttl, capacity, init, key);
      var q: nat :| q < |r.touches| && r.touches[q].key == key && StillKnown(r.touches, q, ttl, capacity, r.expiry);
      p := prompts[q];
    }
  }

  lemma {:induction false} YoungHasKey(es: seq<Entry>, ttl: real, now: real, key: Key)
    ensures HasKey(Young(es, ttl, now), key) ==> HasKey(es, key)
  {
    if es != [] {
      YoungHasKey(es[1..], ttl, now, key);
      HeadTail(es);
      HasKeyCons(es[0], es[1..], key);
      HasKeyCons(es[0], Young(es[1..], ttl, now), key);
      assert [] + Young(es[1..], ttl, now) == Young(es[1..], ttl, now);
    }
  }

  /** What expires at a reading leaves a table that obeys the law at that reading. */
  lemma LiveObeysLaw(r: Run, ttl: real, capacity: nat, now: real)
    requires Law(r, ttl, capacity) && r.clock <= now
    ensures Law(Run(Young(r.es, ttl, now), r.touches, now, now), ttl, capacity)
  {
    hide Young, Ordered, Trim, LastTouches;
    ExpireAgain(LastTouches(r.touches), r.clock, ttl, capacity, r.expiry, now);
    OrderedLater(LastTouches(r.touches), r.clock, now);
  }

  /** Touch q served the body's first i messages, to a candidate, and is still known at `now`. */
  ghost predicate ServedBy(prompts: seq<Prompt>, h: seq<Entry>, q: nat, scope: string, endpoint: string, body: Body, i: nat,
                           allowed: set<string>, ttl: real, capacity: nat, now: real)
    requires WellEncoded(body)
  {
    && Selectable(endpoint, body, i)
    && KnownPrompt(prompts, h, q, PrefixOf(scope, body, i), ttl, capacity, now)
    && q < |h| && h[q].target in allowed
  }

  lemma ServedIff(r: Run, prompts: seq<Prompt>, scope: string, endpoint: string, body: Body, i: nat,
                  allowed: set<string>, ttl: real, capacity: nat)
    requires Law(r, ttl, capacity) && TouchedInOrder(r.touches) && AreServed(prompts, r.touches) && WellEncoded(body)
    ensures Served(r.es, scope, endpoint, body, allowed, i)
       <==> exists q: nat :: ServedBy(prompts, r.touches, q, scope, endpoint, body, i, allowed, ttl, capacity, r.expiry)
    ensures forall q: nat :: ServedBy(prompts, r.touches, q, scope, endpoint, body, i, allowed, ttl, capacity, r.expiry) ==>
              Find(r.es, KeyOf(PrefixOf(scope, body, i))) == Some(r.touches[q])
  {
    hide Law, TouchedInOrder, KeyOf, StillKnown, Find, KnownPrompt, Keyable, HasRole;
    if Selectable(endpoint, body, i) {
      var p := PrefixOf(scope, body, i);
      assert IsServable(p);
      FoundIffServed(r, prompts, p, ttl, capacity);
      if Find(r.es, KeyOf(p)).Some? {
        var q: nat :| KnownPrompt(prompts, r.touches, q, p, ttl, capacity, r.expiry);
        assert Served(r.es, scope, endpoint, body, allowed, i) ==>
                 ServedBy(prompts, r.touches, q, scope, endpoint, body, i, allowed, ttl, capacity, r.expiry) by {
                   KnownInRange(prompts, r.touches, q, p, ttl, capacity, r.expiry);
                 }
      }
    }
  }

  lemma KnownInRange(prompts: seq<Prompt>, h: seq<Entry>, q: nat, p: Prompt, ttl: real, capacity: nat, now: real)
    requires KnownPrompt(prompts, h, q, p, ttl, capacity, now)
    ensures q < |h|
  {
  }

  /**
   After any run, a lookup with a body's keys answers with the last remembered or
   touched target of the longest prefix of the body's messages that was served
   whole under the same scope and context, is still known, holds a user, tool or
   function message, and went to a candidate; it answers None exactly when there is
   no such prefix or the body has no assistant turn.
   */
  lemma RunLookup(ttl: real, capacity: nat, calls: seq<Call>, prompts: seq<Prompt>, scope: string, endpoint: string, body: Body,
                  allowed: set<string>, now: real)
    requires Monotone(calls, 0.0) && ttl > 0.0 && RunOf(ttl, capacity, calls).clock <= now && WellEncoded(body)
    requires AreServed(prompts, RunOf(ttl, capacity, calls).touches)
    ensures var h := RunOf(ttl, capacity, calls).touches;
            var hit := FirstHit(Young(RunOf(ttl, capacity, calls).es, ttl, now), scope, allowed, Strongest(Keys(endpoint, body)));
            if hit.None? then
              forall i: nat, q: nat :: !ServedBy(prompts, h, q, scope, endpoint, body, i, allowed, ttl, capacity, now)
            else exists i: nat, q: nat ::
                   && ServedBy(prompts, h, q, scope, endpoint, body, i, allowed, ttl, capacity, now)
                   && hit == Some(h[q])
                   && forall j: nat, p: nat :: ServedBy(prompts, h, p, scope, endpoint, body, j, allowed, ttl, capacity, now) ==> j <= i
  {
    hide *;
    TableObeysLaw(ttl, capacity, calls);
    RunTouchesInOrder(ttl, capacity, calls);
    var r := RunOf(ttl, capacity, calls);
    LiveObeysLaw(r, ttl, capacity, now);
    var live := Run(Young(r.es, ttl, now), r.touches, now, now);
    LookupIsLongestServed(live.es, scope, endpoint, body, allowed);
    InTermsOfTouches(live, prompts, scope, endpoint, body, allowed, ttl, capacity,
                     FirstHit(live.es, scope, allowed, Strongest(Keys(endpoint, body))));
  }

  /** A longest served prefix, by the touches that served it. */
  lemma InTermsOfTouches(r: Run, prompts: seq<Prompt>, scope: string, endpoint: string, body: Body, allowed: set<string>,
                         ttl: real, capacity: nat, hit: Option<Entry>)
    requires Law(r, ttl, capacity) && TouchedInOrder(r.touches) && AreServed(prompts, r.touches) && WellEncoded(body)
    requires IsLongestServed(r.es, scope, endpoint, body, allowed, hit)
    ensures if hit.None? then
              forall i: nat, q: nat :: !ServedBy(prompts, r.touches, q, scope, endpoint, body, i, allowed, ttl, capacity, r.expiry)
            else exists i: nat, q: nat ::
                   && ServedBy(prompts, r.touches, q, scope, endpoint, body, i, allowed, ttl, capacity, r.expiry)
                   && hit == Some(r.touches[q])
                   && forall j: nat, p: nat ::
                        ServedBy(prompts, r.touches, p, scope, endpoint, body, j, allowed, ttl, capacity, r.expiry) ==> j <= i
  {
    hide Law, TouchedInOrder, AreServed, KeyOf, Find, WellEncoded, Keyable, HasRole, KnownPrompt;
    forall i: nat, q: nat | ServedBy(prompts, r.touches, q, scope, endpoint, body, i, allowed, ttl, capacity, r.expiry)
      ensures Served(r.es, scope, endpoint, body, allowed, i)
    {
      ServedIff(r, prompts, scope, endpoint, body, i, allowed, ttl, capacity);
    }
    if hit.Some? {
      var i: nat :| Served(r.es, scope, endpoint, body, allowed, i)
        && hit == Find(r.es, KeyOf(PrefixOf(scope, body, i)))
        && forall j: nat :: Served(r.es, scope, endpoint, body, allowed, j) ==> j <= i;
      ServedIff(r, prompts, scope, endpoint, body, i, allowed, ttl, capacity);
      var q: nat :| ServedBy(prompts, r.touches, q, scope, endpoint, body, i, allowed, ttl, capacity, r.expiry);
      assert hit == Some(r.touches[q]);
    }
  }
}
