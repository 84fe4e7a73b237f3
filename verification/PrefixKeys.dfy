/**
 The keys of a conversation's prefixes (sparkdeck/prefix_affinity.py, keys): a
 running digest over a context and length-prefixed messages. The JSON texts are
 parameters; SHA-256 is taken to be injective, so a digest is the hashed text.
 */
module PrefixKeys {
  import opened Wrappers
  import opened Seqs
  import opened PrefixAffinity

  type Bytes = seq<int>

  /** A message's role and compact JSON text; None when the role or the text cannot be used. */
  datatype Message = Message(role: string, encoded: Option<Bytes>)

  /** The request body: its context fields as JSON text, and its messages if they are a list; None is a non-object. */
  datatype Body = Body(context: Option<Bytes>, messages: Option<seq<Option<Message>>>)

  const MAX_MESSAGES := 512
  const MAX_SIZE := 2 * 1024 * 1024

  // ----- framing ---------------------------------------------------------------

  /** n.to_bytes(k, "big") */
  function BigEndian(n: nat, k: nat): (r: Bytes)
    ensures |r| == k
  {
    if k == 0 then [] else BigEndian(n / 256, k - 1) + [n % 256]
  }

  function Power(k: nat): (p: nat)
    ensures p >= 1
  {
    if k == 0 then 1 else 256 * Power(k - 1)
  }

  function Frame(e: Bytes): Bytes {
    BigEndian(|e|, 8) + e
  }

  /** The hashed text after a context and messages. */
  function Digest(context: Bytes, encs: seq<Bytes>): Bytes {
    if |encs| == 0 then context else Digest(context, encs[..|encs| - 1]) + Frame(encs[|encs| - 1])
  }

  function Size(context: Bytes, encs: seq<Bytes>): nat {
    if |encs| == 0 then |context| else Size(context, encs[..|encs| - 1]) + |encs[|encs| - 1]|
  }

  lemma {:induction false} BigEndianInjective(a: nat, b: nat, k: nat)
    requires a < Power(k) && b < Power(k) && BigEndian(a, k) == BigEndian(b, k)
    ensures a == b
  {
    if k > 0 {
      var x, y := BigEndian(a / 256, k - 1), BigEndian(b / 256, k - 1);
      assert x == (x + [a % 256])[..k - 1] && y == (y + [b % 256])[..k - 1];
      assert (x + [a % 256])[k - 1] == a % 256 && (y + [b % 256])[k - 1] == b % 256;
      BigEndianInjective(a / 256, b / 256, k - 1);
    }
  }

  predicate Encodable(e: Bytes) {
    |e| < Power(8)
  }

  function Frames(encs: seq<Bytes>): Bytes {
    if |encs| == 0 then [] else Frame(encs[0]) + Frames(encs[1..])
  }

  lemma {:induction false} FramesSnoc(encs: seq<Bytes>, e: Bytes)
    ensures Frames(encs + [e]) == Frames(encs) + Frame(e)
  {
    hide Frame;
    if |encs| == 0 {
      assert [e][1..] == [] && [] + [e] == [e];
      assert Frame(e) + [] == Frame(e) == [] + Frame(e);
    } else {
      FramesSnoc(encs[1..], e);
      TailAppend(encs, [e]);
      Assoc(Frame(encs[0]), Frames(encs[1..]), Frame(e));
    }
  }

  lemma {:induction false} DigestIsFrames(context: Bytes, encs: seq<Bytes>)
    ensures Digest(context, encs) == context + Frames(encs)
  {
    hide Frame;
    if |encs| == 0 {
      assert context + [] == context;
    } else {
      var init, e := encs[..|encs| - 1], encs[|encs| - 1];
      DigestIsFrames(context, init);
      InitLast(encs);
      FramesSnoc(init, e);
      Assoc(context, Frames(init), Frame(e));
    }
  }

  /** Two framed texts with the same bytes begin with the same message. */
  lemma FirstFrame(a: Bytes, x: Bytes, b: Bytes, y: Bytes)
    requires Encodable(a) && Encodable(b) && Frame(a) + x == Frame(b) + y
    ensures a == b && x == y
  {
    hide BigEndian, Power;
    var s := Frame(a) + x;
    assert BigEndian(|a|, 8) == s[..8] && BigEndian(|b|, 8) == s[..8];
    BigEndianInjective(|a|, |b|, 8);
    assert a == s[8..8 + |a|] && b == s[8..8 + |b|];
    assert x == s[8 + |a|..] && y == s[8 + |b|..];
  }

  lemma {:induction false} FramesInjective(a: seq<Bytes>, b: seq<Bytes>)
    requires Frames(a) == Frames(b)
    requires (forall e :: e in a ==> Encodable(e)) && (forall e :: e in b ==> Encodable(e))
    ensures a == b
  {
    hide BigEndian, Encodable;
    if |a| > 0 && |b| > 0 {
      assert a[0] in a && b[0] in b;
      FirstFrame(a[0], Frames(a[1..]), b[0], Frames(b[1..]));
      assert (forall e :: e in a[1..] ==> e in a) && (forall e :: e in b[1..] ==> e in b);
      FramesInjective(a[1..], b[1..]);
      HeadTail(a);
      HeadTail(b);
    }
  }

  // ----- JSON object texts delimit themselves -------------------------------------

  const QUOTE := 34
  const BACKSLASH := 92
  const OPEN := 123
  const CLOSE := 125

  /** Open braces outside strings, whether inside a string, and whether the next byte is escaped. */
  datatype Scanner = Scanner(depth: int, inString: bool, escaped: bool)

  function Scan(s: Scanner, b: int): Scanner {
    if s.inString then
      if s.escaped then s.(escaped := false)
      else if b == BACKSLASH then s.(escaped := true)
      else if b == QUOTE then s.(inString := false)
      else s
    else if b == QUOTE then s.(inString := true)
    else if b == OPEN then s.(depth := s.depth + 1)
    else if b == CLOSE then s.(depth := s.depth - 1)
    else s
  }

  /** How many bytes until the braces are balanced again. */
  function ClosesAfter(text: Bytes, s: Scanner): Option<nat> {
    if text == [] then None
    else
      var t := Scan(s, text[0]);
      if t.depth == 0 && !t.inString then Some(1)
      else
        var rest := ClosesAfter(text[1..], t);
        if rest.Some? then Some(rest.value + 1) else None
  }

  /** A JSON object's text: its braces balance first at its end. */
  predicate IsObjectText(text: Bytes) {
    text != [] && text[0] == OPEN && ClosesAfter(text, Scanner(0, false, false)) == Some(|text|)
  }

  lemma {:induction false} ClosesInside(a: Bytes, b: Bytes, s: Scanner)
    requires ClosesAfter(a, s).Some?
    ensures ClosesAfter(a + b, s) == ClosesAfter(a, s)
  {
    hide Scan;
    TailAppend(a, b);
    var t := Scan(s, a[0]);
    if !(t.depth == 0 && !t.inString) {
      ClosesInside(a[1..], b, t);
    }
  }

  lemma ObjectTextsDelimit(a: Bytes, x: Bytes, b: Bytes, y: Bytes)
    requires IsObjectText(a) && IsObjectText(b) && a + x == b + y
    ensures a == b && x == y
  {
    ClosesInside(a, x, Scanner(0, false, false));
    ClosesInside(b, y, Scanner(0, false, false));
    assert a == (a + x)[..|a|] && b == (b + y)[..|b|];
    assert x == (a + x)[|a|..] && y == (b + y)[|b|..];
  }

  /** A context and messages as keys() can hash them. */
  predicate IsPrompt(context: Bytes, encs: seq<Bytes>) {
    IsObjectText(context) && forall e :: e in encs ==> IsObjectText(e) && Encodable(e)
  }

  /** Equal digests come from equal contexts and equal message lists. */
  lemma FramingInjective(context: Bytes, encs: seq<Bytes>, other: Bytes, others: seq<Bytes>)
    requires IsPrompt(context, encs) && IsPrompt(other, others)
    ensures Digest(context, encs) == Digest(other, others) <==> context == other && encs == others
  {
    hide Frame, IsObjectText, Digest, Frames, Encodable;
    if Digest(context, encs) == Digest(other, others) {
      DigestIsFrames(context, encs);
      DigestIsFrames(other, others);
      ObjectTextsDelimit(context, Frames(encs), other, Frames(others));
      FramesInjective(encs, others);
    }
  }

  // ----- keys() -------------------------------------------------------------------

  predicate AllUsable(ms: seq<Option<Message>>) {
    forall i :: 0 <= i < |ms| ==> ms[i].Some? && ms[i].value.encoded.Some?
  }

  function Encodings(ms: seq<Option<Message>>): (encs: seq<Bytes>)
    requires AllUsable(ms)
    ensures |encs| == |ms|
  {
    seq(|ms|, i requires 0 <= i < |ms| => ms[i].value.encoded.value)
  }

  predicate HasRole(ms: seq<Option<Message>>, roles: set<string>) {
    exists i :: 0 <= i < |ms| && ms[i].Some? && ms[i].value.role in roles
  }

  const CONVERSATION: set<string> := {"user", "tool", "function"}
  const INSTRUCTION: set<string> := {"system", "developer"}

  /** The body's prompt can be keyed at all. */
  predicate Keyable(endpoint: string, body: Body) {
    && endpoint == "chat/completions"
    && body.messages.Some? && 1 <= |body.messages.value| <= MAX_MESSAGES
    && body.context.Some? && AllUsable(body.messages.value)
    && Size(body.context.value, Encodings(body.messages.value)) <= MAX_SIZE
    && body.messages.value[|body.messages.value| - 1].value.role !in INSTRUCTION
  }

  /** The key of the first i messages. */
  function PrefixKeyAt(body: Body, i: nat): PrefixKey
    requires body.messages.Some? && body.context.Some? && AllUsable(body.messages.value) && i <= |body.messages.value|
  {
    var ms := body.messages.value;
    var context, encs := body.context.value, Encodings(ms)[..i];
    PrefixKey(Digest(context, encs), if HasRole(ms, {"assistant"}) && HasRole(ms[..i], CONVERSATION) then Size(context, encs) else 0)
  }

  function Keys(endpoint: string, body: Body): seq<PrefixKey> {
    if !Keyable(endpoint, body) then []
    else seq(|body.messages.value|, i requires 0 <= i < |body.messages.value| => PrefixKeyAt(body, i + 1))
  }

  /** One of the messages has this role. */
  predicate Says(ms: seq<Option<Message>>, role: string) {
    exists i :: 0 <= i < |ms| && ms[i].Some? && ms[i].value.role == role
  }

  function TotalSize(encs: seq<Bytes>): nat {
    if |encs| == 0 then 0 else |encs[0]| + TotalSize(encs[1..])
  }

  lemma {:induction false} SizeIsTotal(context: Bytes, encs: seq<Bytes>)
    ensures Size(context, encs) == |context| + TotalSize(encs)
  {
    if |encs| > 0 {
      var init := encs[..|encs| - 1];
      SizeIsTotal(context, init);
      InitLast(encs);
      TotalSizeSnoc(init, encs[|encs| - 1]);
    }
  }

  lemma {:induction false} TotalSizeSnoc(encs: seq<Bytes>, e: Bytes)
    ensures TotalSize(encs + [e]) == TotalSize(encs) + |e|
  {
    if |encs| == 0 {
      assert (encs + [e])[1..] == [];
    } else {
      TotalSizeSnoc(encs[1..], e);
      TailAppend(encs, [e]);
    }
  }

  lemma RolesAre(ms: seq<Option<Message>>)
    ensures HasRole(ms, CONVERSATION) <==> Says(ms, "user") || Says(ms, "tool") || Says(ms, "function")
    ensures HasRole(ms, {"assistant"}) <==> Says(ms, "assistant")
  {
    if HasRole(ms, CONVERSATION) {
      var i :| 0 <= i < |ms| && ms[i].Some? && ms[i].value.role in CONVERSATION;
    }
  }

  /**
   Which bodies get keys, and which: a chat completion of 1 to 512 messages, all of them
   objects that can be encoded, with a context that can, of at most 2 MiB together, whose
   last message does not instruct. Each prefix gets the digest of its own text, and its
   size as strength if some message is the assistant's and the prefix has one of a user,
   tool or function.
   */
  lemma WhichKeys(endpoint: string, body: Body)
    ensures Keys(endpoint, body) != [] <==>
              && endpoint == "chat/completions" && body.context.Some? && body.messages.Some?
              && var ms := body.messages.value;
                 && 1 <= |ms| <= 512 && AllUsable(ms)
                 && |body.context.value| + TotalSize(Encodings(ms)) <= 2097152
                 && ms[|ms| - 1].value.role != "system" && ms[|ms| - 1].value.role != "developer"
    ensures Keys(endpoint, body) != [] ==>
              var ms, context, keys := body.messages.value, body.context.value, Keys(endpoint, body);
              && |keys| == |ms|
              && forall i :: 0 <= i < |keys| ==> IsPlainKey(keys[i], context, ms, i)
  {
    hide Digest, Size, TotalSize, HasRole, Says, IsPlainKey;
    if body.context.Some? && body.messages.Some? && AllUsable(body.messages.value) {
      var ms, context := body.messages.value, body.context.value;
      SizeIsTotal(context, Encodings(ms));
      forall n: nat | 1 <= n <= |ms| ensures IsPlainKey(PrefixKeyAt(body, n), context, ms, n - 1) {
        KeyIsPlain(body, n - 1);
      }
    }
  }

  /** The key of the first i + 1 messages, in plain terms. */
  predicate IsPlainKey(key: PrefixKey, context: Bytes, ms: seq<Option<Message>>, i: nat)
    requires i < |ms| && AllUsable(ms)
  {
    var encs := Encodings(ms)[..i + 1];
    && key.digest == context + Frames(encs)
    && key.strength == if Says(ms, "assistant") && SaysOf(ms[..i + 1]) then |context| + TotalSize(encs) else 0
  }

  lemma KeyIsPlain(body: Body, i: nat)
    requires body.messages.Some? && body.context.Some? && AllUsable(body.messages.value) && i < |body.messages.value|
    ensures IsPlainKey(PrefixKeyAt(body, i + 1), body.context.value, body.messages.value, i)
  {
    hide Digest, Size, TotalSize, Frames, HasRole, Says;
    var ms, context := body.messages.value, body.context.value;
    DigestIsFrames(context, Encodings(ms)[..i + 1]);
    SizeIsTotal(context, Encodings(ms)[..i + 1]);
    RolesAre(ms);
    RolesAre(ms[..i + 1]);
  }

  predicate SaysOf(ms: seq<Option<Message>>) {
    Says(ms, "user") || Says(ms, "tool") || Says(ms, "function")
  }

  lemma {:induction false} SizeGrows(context: Bytes, encs: seq<Bytes>, i: nat)
    requires i <= |encs|
    ensures Size(context, encs[..i]) <= Size(context, encs)
    decreases |encs|
  {
    if i < |encs| {
      SizeGrows(context, encs[..|encs| - 1], i);
      assert encs[..|encs| - 1][..i] == encs[..i];
    } else {
      assert encs[..i] == encs;
    }
  }

  lemma HasRoleSnoc(ms: seq<Option<Message>>, i: nat, roles: set<string>)
    requires i < |ms| && ms[i].Some?
    ensures HasRole(ms[..i + 1], roles) <==> HasRole(ms[..i], roles) || ms[i].value.role in roles
  {
    TakeSnoc(ms, i);
    if HasRole(ms[..i], roles) {
      var j :| 0 <= j < i && ms[..i][j].Some? && ms[..i][j].value.role in roles;
      assert ms[..i + 1][j] == ms[..i][j];
    }
    if ms[i].value.role in roles {
      assert ms[..i + 1][i] == ms[i];
    }
    if HasRole(ms[..i + 1], roles) && !(ms[i].value.role in roles) {
      var j :| 0 <= j < i + 1 && ms[..i + 1][j].Some? && ms[..i + 1][j].value.role in roles;
      assert ms[..i][j] == ms[..i + 1][j];
    }
  }

  method FindRole(ms: seq<Option<Message>>, role: string) returns (found: bool)
    ensures found == HasRole(ms, {role})
  {
    for i := 0 to |ms|
      invariant forall j :: 0 <= j < i && ms[j].Some? ==> ms[j].value.role != role
    {
      if ms[i].Some? && ms[i].value.role == role {
        return true;
      }
    }
    found := false;
  }

  method KeysOfBody(endpoint: string, body: Body) returns (keys: seq<PrefixKey>)
    ensures keys == Keys(endpoint, body)
  {
    hide Digest, Frame, HasRole;
    if endpoint != "chat/completions" {
      return [];
    }
    if body.messages.None? || |body.messages.value| == 0 || |body.messages.value| > MAX_MESSAGES {
      return [];
    }
    var ms := body.messages.value;
    if body.context.None? || (exists i :: 0 <= i < |ms| && ms[i].None?) {
      return [];
    }
    keys := HashMessages(body);
  }

  /** The try block of keys(). */
  method HashMessages(body: Body) returns (keys: seq<PrefixKey>)
    requires body.messages.Some? && 1 <= |body.messages.value| <= MAX_MESSAGES && body.context.Some?
    requires forall i :: 0 <= i < |body.messages.value| ==> body.messages.value[i].Some?
    ensures keys == Keys("chat/completions", body)
  {
    hide Digest, BigEndian, HasRole, Size;
    var ms, context := body.messages.value, body.context.value;
    var digest, size := context, |context|;
    EmptyDigest(context);
    var following := FindRole(ms, "assistant");
    var conversation := false;
    keys := [];
    NoRole(ms);
    for i := 0 to |ms|
      invariant AllUsable(ms[..i])
      invariant i == 0 || size <= MAX_SIZE
      invariant digest == Digest(context, Encodings(ms[..i])) && size == Size(context, Encodings(ms[..i]))
      invariant conversation == HasRole(ms[..i], CONVERSATION)
      invariant |keys| == i && forall j :: 0 <= j < i ==> IsKeyOf(keys[j], body, ms, following, j + 1)
    {
      var message := ms[i].value;
      if message.encoded.None? {
        assert !AllUsable(ms);
        return [];
      }
      var encoded := message.encoded.value;
      HashOneMore(context, ms, i);
      HasRoleSnoc(ms, i, CONVERSATION);
      size := size + |encoded|;
      if size > MAX_SIZE {
        TooLarge(context, ms, i + 1);
        return [];
      }
      digest := digest + BigEndian(|encoded|, 8);
      digest := digest + encoded;
      Assoc(Digest(context, Encodings(ms[..i])), BigEndian(|encoded|, 8), encoded);
      conversation := conversation || message.role in CONVERSATION;
      keys := keys + [PrefixKey(digest, if following && conversation then size else 0)];
    }
    assert ms[..|ms|] == ms;
    assert AllUsable(ms);
    EncodingsTake(ms);
    if ms[|ms| - 1].value.role in INSTRUCTION {
      return [];
    }
    assert keys == Keys("chat/completions", body);
  }

  predicate IsKeyOf(key: PrefixKey, body: Body, ms: seq<Option<Message>>, following: bool, i: nat) {
    && i <= |ms| && AllUsable(ms[..i]) && body.context.Some?
    && key == PrefixKey(Digest(body.context.value, Encodings(ms[..i])),
                        if following && HasRole(ms[..i], CONVERSATION) then Size(body.context.value, Encodings(ms[..i])) else 0)
  }

  lemma EncodingsTake(ms: seq<Option<Message>>)
    requires AllUsable(ms)
    ensures forall i :: 0 <= i <= |ms| ==> Encodings(ms[..i]) == Encodings(ms)[..i]
  {
  }

  lemma EmptyDigest(context: Bytes)
    ensures Digest(context, []) == context && Size(context, []) == |context|
  {
  }

  lemma NoRole(ms: seq<Option<Message>>)
    ensures !HasRole(ms[..0], CONVERSATION)
  {
  }

  lemma HashOneMore(context: Bytes, ms: seq<Option<Message>>, i: nat)
    requires i < |ms| && AllUsable(ms[..i]) && ms[i].Some? && ms[i].value.encoded.Some?
    ensures AllUsable(ms[..i + 1])
    ensures Digest(context, Encodings(ms[..i + 1])) == Digest(context, Encodings(ms[..i])) + Frame(ms[i].value.encoded.value)
    ensures Size(context, Encodings(ms[..i + 1])) == Size(context, Encodings(ms[..i])) + |ms[i].value.encoded.value|
  {
    hide Frame;
    TakeSnoc(ms, i);
    assert Encodings(ms[..i + 1])[..i] == Encodings(ms[..i]);
  }

  lemma TooLarge(context: Bytes, ms: seq<Option<Message>>, i: nat)
    requires i <= |ms| && AllUsable(ms[..i]) && Size(context, Encodings(ms[..i])) > MAX_SIZE
    ensures AllUsable(ms) ==> Size(context, Encodings(ms)) > MAX_SIZE
  {
    hide Size;
    if AllUsable(ms) {
      EncodingsTake(ms);
      SizeGrows(context, Encodings(ms), i);
    }
  }
}
