/**
 Compact JSON text as json.dumps writes it with ensure_ascii=False, sorted keys and no
 spaces, in UTF-8: what sparkdeck/prefix_affinity.py hashes (keys).
 */
module JsonText {
  import opened Wrappers
  import opened Seqs
  import opened PrefixKeys

  /** A JSON value. Strings are the UTF-8 bytes of their characters, a number is its text, and an object's members are in the order of their names. */
  datatype Json =
    | Literal(text: Bytes)
    | Text(chars: Bytes)
    | Array(elements: seq<Json>)
    | Object(members: seq<Member>)

  datatype Member = Member(name: Bytes, value: Json)

  /** Lower-case hexadecimal digit. */
  function HexDigit(n: nat): int {
    if n < 10 then 48 + n else 87 + n
  }

  /** One byte of a string: quotes, backslashes and control characters are escaped. */
  function Escape(b: int): Bytes {
    if b == 34 then [92, 34]
    else if b == 92 then [92, 92]
    else if b == 8 then [92, 98]
    else if b == 9 then [92, 116]
    else if b == 10 then [92, 110]
    else if b == 12 then [92, 102]
    else if b == 13 then [92, 114]
    else if 0 <= b < 32 then [92, 117, 48, 48, HexDigit(b / 16), HexDigit(b % 16)]
    else [b]
  }

  function EscapeAll(chars: Bytes): Bytes {
    if chars == [] then [] else Escape(chars[0]) + EscapeAll(chars[1..])
  }

  function Quoted(chars: Bytes): Bytes {
    [34] + EscapeAll(chars) + [34]
  }

  function Encode(v: Json): Bytes
    decreases v, 0
  {
    match v
    case Literal(text) => text
    case Text(chars) => Quoted(chars)
    case Array(elements) => [91] + EncodeAll(elements) + [93]
    case Object(members) => [123] + EncodeMembers(members) + [125]
  }

  function EncodeAll(vs: seq<Json>): Bytes
    decreases vs, 0
  {
    if vs == [] then []
    else if |vs| == 1 then Encode(vs[0])
    else Encode(vs[0]) + ([44] + EncodeAll(vs[1..]))
  }

  function EncodeMembers(ms: seq<Member>): Bytes
    decreases ms, 0
  {
    if ms == [] then []
    else
      var first := Quoted(ms[0].name) + ([58] + Encode(ms[0].value));
      if |ms| == 1 then first else first + ([44] + EncodeMembers(ms[1..]))
  }

  /** A number, true, false, null, NaN or Infinity: letters, digits, signs and points. */
  predicate IsLiteral(text: Bytes) {
    forall i :: 0 <= i < |text| ==> 65 <= text[i] <= 90 || 97 <= text[i] <= 122 || 48 <= text[i] <= 57 || text[i] in [43, 45, 46]
  }

  predicate IsValue(v: Json)
    decreases v, 0
  {
    match v
    case Literal(text) => IsLiteral(text)
    case Text(_) => true
    case Array(elements) => forall i :: 0 <= i < |elements| ==> IsValue(elements[i])
    case Object(members) => forall i :: 0 <= i < |members| ==> IsValue(members[i].value)
  }

  // ----- scanning an encoded value ------------------------------------------------

  function ScanAll(s: Scanner, text: Bytes): Scanner
    decreases |text|
  {
    if text == [] then s else ScanAll(Scan(s, text[0]), text[1..])
  }

  predicate IsClosed(s: Scanner) {
    s.depth == 0 && !s.inString
  }

  /** No byte of the text closes the outermost brace. */
  predicate StaysOpen(s: Scanner, text: Bytes)
    decreases |text|
  {
    text == [] || (!IsClosed(Scan(s, text[0])) && StaysOpen(Scan(s, text[0]), text[1..]))
  }

  /** Inside some brace, between tokens: the text passes and leaves the scanner as it was. */
  ghost predicate Passes(text: Bytes) {
    forall depth: int :: depth >= 1 ==> PassesAt(text, depth)
  }

  predicate PassesAt(text: Bytes, depth: int) {
    ScanAll(Scanner(depth, false, false), text) == Scanner(depth, false, false) && StaysOpen(Scanner(depth, false, false), text)
  }

  lemma {:induction false} ScanJoin(s: Scanner, a: Bytes, b: Bytes)
    ensures ScanAll(s, a + b) == ScanAll(ScanAll(s, a), b)
    ensures StaysOpen(s, a + b) <==> StaysOpen(s, a) && StaysOpen(ScanAll(s, a), b)
    decreases |a|
  {
    hide Scan;
    if a == [] {
      assert a + b == b;
    } else {
      TailAppend(a, b);
      ScanJoin(Scan(s, a[0]), a[1..], b);
    }
  }

  lemma PassesJoin(a: Bytes, b: Bytes)
    requires Passes(a) && Passes(b)
    ensures Passes(a + b)
  {
    hide Scan, ScanAll, StaysOpen;
    forall depth: int | depth >= 1 ensures PassesAt(a + b, depth) {
      assert PassesAt(a, depth) && PassesAt(b, depth);
      ScanJoin(Scanner(depth, false, false), a, b);
    }
  }

  /** A byte that means nothing to the scanner outside strings. */
  lemma PlainPasses(b: int)
    requires b != 34 && b != 123 && b != 125
    ensures Passes([b])
  {
    forall depth: int | depth >= 1 ensures PassesAt([b], depth) {
      ScanOne(Scanner(depth, false, false), b);
    }
  }

  lemma ScanOne(s: Scanner, b: int)
    ensures ScanAll(s, [b]) == Scan(s, b) && (StaysOpen(s, [b]) <==> !IsClosed(Scan(s, b)))
  {
    assert [b][1..] == [];
    assert StaysOpen(Scan(s, b), []) && ScanAll(Scan(s, b), []) == Scan(s, b);
  }

  lemma {:induction false} LiteralPasses(text: Bytes)
    requires IsLiteral(text)
    ensures Passes(text)
  {
    hide Scan;
    if text == [] {
      NothingPasses();
    } else {
      LiteralPasses(text[1..]);
      PlainPasses(text[0]);
      PassesJoin([text[0]], text[1..]);
      HeadTail(text);
    }
  }

  lemma NothingPasses()
    ensures Passes([])
  {
    forall depth: int | depth >= 1 ensures PassesAt([], depth) {
    }
  }

  /** Inside a string an escaped byte leaves the scanner inside it. */
  lemma EscapeStays(depth: int, b: int)
    ensures ScanAll(Scanner(depth, true, false), Escape(b)) == Scanner(depth, true, false)
    ensures StaysOpen(Scanner(depth, true, false), Escape(b))
  {
    var s := Scanner(depth, true, false);
    var e := Escape(b);
    ScanOne(s, e[0]);
    if |e| == 2 {
      assert e == [92] + [e[1]];
      ScanJoin(s, [92], [e[1]]);
      ScanOne(Scanner(depth, true, true), e[1]);
    } else if |e| == 6 {
      UnicodeStays(depth, e[4], e[5]);
    }
  }

  lemma UnicodeStays(depth: int, x: int, y: int)
    requires x != 34 && x != 92 && y != 34 && y != 92
    ensures ScanAll(Scanner(depth, true, false), [92, 117, 48, 48, x, y]) == Scanner(depth, true, false)
    ensures StaysOpen(Scanner(depth, true, false), [92, 117, 48, 48, x, y])
  {
    var s, t := Scanner(depth, true, false), Scanner(depth, true, true);
    assert [92, 117, 48, 48, x, y] == [92] + ([117] + ([48] + ([48] + ([x] + [y]))));
    ScanOne(s, 92);
    ScanOne(t, 117);
    ScanOne(s, 48);
    ScanOne(s, x);
    ScanOne(s, y);
    ScanJoin(s, [x], [y]);
    ScanJoin(s, [48], [x] + [y]);
    ScanJoin(s, [48], [48] + ([x] + [y]));
    ScanJoin(t, [117], [48] + ([48] + ([x] + [y])));
    ScanJoin(s, [92], [117] + ([48] + ([48] + ([x] + [y]))));
  }

  lemma {:induction false} EscapeAllStays(depth: int, chars: Bytes)
    ensures ScanAll(Scanner(depth, true, false), EscapeAll(chars)) == Scanner(depth, true, false)
    ensures StaysOpen(Scanner(depth, true, false), EscapeAll(chars))
  {
    hide Scan, Escape;
    if chars != [] {
      EscapeAllStays(depth, chars[1..]);
      EscapeStays(depth, chars[0]);
      ScanJoin(Scanner(depth, true, false), Escape(chars[0]), EscapeAll(chars[1..]));
    }
  }

  lemma QuotedPasses(chars: Bytes)
    ensures Passes(Quoted(chars))
  {
    hide EscapeAll, ScanAll, StaysOpen;
    var e := EscapeAll(chars);
    forall depth: int | depth >= 1 ensures PassesAt(Quoted(chars), depth) {
      var s, t := Scanner(depth, false, false), Scanner(depth, true, false);
      EscapeAllStays(depth, chars);
      ScanOne(s, 34);
      ScanOne(t, 34);
      ScanJoin(t, e, [34]);
      Assoc([34], e, [34]);
      ScanJoin(s, [34], e + [34]);
    }
  }

  // ----- whole values --------------------------------------------------------------

  lemma {:induction false} ValuePasses(v: Json)
    requires IsValue(v)
    ensures Passes(Encode(v))
    decreases v, 0
  {
    hide Passes, Quoted;
    match v {
      case Literal(text) => LiteralPasses(text);
      case Text(chars) => QuotedPasses(chars);
      case Array(elements) =>
        AllPass(elements);
        PlainPasses(91);
        PlainPasses(93);
        PassesJoin([91], EncodeAll(elements));
        PassesJoin([91] + EncodeAll(elements), [93]);
      case Object(members) =>
        MembersPass(members);
        BracesPass(EncodeMembers(members));
    }
  }

  lemma {:induction false} AllPass(vs: seq<Json>)
    requires forall i :: 0 <= i < |vs| ==> IsValue(vs[i])
    ensures Passes(EncodeAll(vs))
    decreases vs, 0
  {
    hide Passes, IsValue, Encode;
    if vs == [] {
      NothingPasses();
    } else {
      ValuePasses(vs[0]);
      AllPass(vs[1..]);
      PlainPasses(44);
      PassesJoin([44], EncodeAll(vs[1..]));
      PassesJoin(Encode(vs[0]), [44] + EncodeAll(vs[1..]));
    }
  }

  lemma {:induction false} MembersPass(ms: seq<Member>)
    requires forall i :: 0 <= i < |ms| ==> IsValue(ms[i].value)
    ensures Passes(EncodeMembers(ms))
    decreases ms, 0
  {
    hide Passes, IsValue, Encode, Quoted;
    if ms == [] {
      NothingPasses();
    } else {
      QuotedPasses(ms[0].name);
      ValuePasses(ms[0].value);
      PlainPasses(58);
      PlainPasses(44);
      PassesJoin([58], Encode(ms[0].value));
      var first := Quoted(ms[0].name) + ([58] + Encode(ms[0].value));
      PassesJoin(Quoted(ms[0].name), [58] + Encode(ms[0].value));
      MembersPass(ms[1..]);
      PassesJoin([44], EncodeMembers(ms[1..]));
      PassesJoin(first, [44] + EncodeMembers(ms[1..]));
    }
  }

  lemma BracesPass(body: Bytes)
    requires Passes(body)
    ensures Passes([123] + body + [125])
  {
    hide ScanAll, StaysOpen;
    forall depth: int | depth >= 1 ensures PassesAt([123] + body + [125], depth) {
      var s, t := Scanner(depth, false, false), Scanner(depth + 1, false, false);
      assert PassesAt(body, depth + 1);
      ScanOne(s, 123);
      ScanOne(t, 125);
      ScanJoin(t, body, [125]);
      Assoc([123], body, [125]);
      ScanJoin(s, [123], body + [125]);
    }
  }

  /** How far a text that stays open is from closing. */
  lemma {:induction false} ClosesBehind(a: Bytes, b: Bytes, s: Scanner)
    requires StaysOpen(s, a)
    ensures ClosesAfter(b, ScanAll(s, a)).Some? ==>
              ClosesAfter(a + b, s).Some? && ClosesAfter(a + b, s).value == |a| + ClosesAfter(b, ScanAll(s, a)).value
  {
    hide Scan;
    if a == [] {
      assert a + b == b;
    } else {
      TailAppend(a, b);
      ClosesBehind(a[1..], b, Scan(s, a[0]));
    }
  }

  /** The text of every JSON object is an object text: its outermost brace closes first at its end, whatever strings and objects are inside. */
  lemma ObjectIsObjectText(members: seq<Member>)
    requires IsValue(Object(members))
    ensures IsObjectText(Encode(Object(members)))
  {
    hide Encode, EncodeMembers, ScanAll, StaysOpen, IsValue;
    var body := EncodeMembers(members);
    var s, t := Scanner(0, false, false), Scanner(1, false, false);
    BodyPasses(members);
    assert PassesAt(body, 1);
    ScanOne(s, 123);
    Assoc([123], body, [125]);
    ScanJoin(s, [123], body);
    assert ClosesAfter([125], t) == Some(1);
    assert StaysOpen(s, [123] + body) && ScanAll(s, [123] + body) == t;
    ClosesBehind([123] + body, [125], s);
    EncodeObject(members);
  }

  lemma BodyPasses(members: seq<Member>)
    requires IsValue(Object(members))
    ensures Passes(EncodeMembers(members))
  {
    hide Encode, EncodeMembers, Passes;
    MembersPass(members);
  }

  lemma EncodeObject(members: seq<Member>)
    ensures Encode(Object(members)) == [123] + EncodeMembers(members) + [125]
  {
  }

  function EncodeEach(objects: seq<seq<Member>>): (encs: seq<Bytes>)
    ensures |encs| == |objects| && forall i :: 0 <= i < |objects| ==> encs[i] == Encode(Object(objects[i]))
  {
    seq(|objects|, i requires 0 <= i < |objects| => Encode(Object(objects[i])))
  }

  /**
   For contexts and messages that are JSON objects, of less than 2^64 bytes each: the
   hashed texts are equal exactly if the contexts' texts are and the messages' texts
   are, one by one. No message can pass for a part of another or of the context.
   */
  lemma PromptsFrame(context: seq<Member>, messages: seq<seq<Member>>, other: seq<Member>, others: seq<seq<Member>>)
    requires IsValue(Object(context)) && IsValue(Object(other))
    requires forall i :: 0 <= i < |messages| ==> IsValue(Object(messages[i])) && Encodable(Encode(Object(messages[i])))
    requires forall i :: 0 <= i < |others| ==> IsValue(Object(others[i])) && Encodable(Encode(Object(others[i])))
    ensures Digest(Encode(Object(context)), EncodeEach(messages)) == Digest(Encode(Object(other)), EncodeEach(others))
       <==> Encode(Object(context)) == Encode(Object(other)) && EncodeEach(messages) == EncodeEach(others)
  {
    hide Encode, IsValue, IsObjectText, Digest, Encodable;
    ObjectIsObjectText(context);
    ObjectIsObjectText(other);
    forall i | 0 <= i < |messages| ensures IsObjectText(Encode(Object(messages[i]))) { ObjectIsObjectText(messages[i]); }
    forall i | 0 <= i < |others| ensures IsObjectText(Encode(Object(others[i]))) { ObjectIsObjectText(others[i]); }
    FramingInjective(Encode(Object(context)), EncodeEach(messages), Encode(Object(other)), EncodeEach(others));
  }
}
