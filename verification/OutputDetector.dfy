/**
 First-output detection (sparkdeck/prompt_gate.py, _OutputDetector): finds the
 first complete `data:` line that carries generated output, however the text is
 cut into chunks. What json.loads makes of the text behind `data:` is a parameter.
 */
module OutputDetector {
  import opened Wrappers
  import opened Seqs
  import opened PyText

  /** A delta or message: absent or falsy, a truthy non-object, or an object's output fields. */
  datatype Part =
    | Falsy
    | NotObject
    | Fields(content: bool, reasoningContent: bool, reasoning: bool, toolCalls: bool, functionCall: bool)

  /** One element of "choices"; flags say whether a member is truthy. */
  datatype Choice = NotDict | Choice(text: bool, delta: Part, message: Part)

  datatype Payload = NotDict | Payload(choices: seq<Choice>)

  /** json.loads of a stripped text; None when it raises. */
  type Decoder = string -> Option<Payload>

  const CAP := 1024 * 1024

  predicate CarriesPart(p: Part) {
    p.Fields? && (p.content || p.reasoningContent || p.reasoning || p.toolCalls || p.functionCall)
  }

  predicate CarriesChoice(c: Choice) {
    c.Choice? && (c.text || CarriesPart(if c.delta != Falsy then c.delta else c.message))
  }

  predicate CarriesAny(cs: seq<Choice>) {
    |cs| > 0 && (CarriesAny(cs[..|cs| - 1]) || CarriesChoice(cs[|cs| - 1]))
  }

  /** A complete line that ends the prompt phase. */
  predicate IsOutput(decode: Decoder, line: string) {
    && StartsWith(line, "data:")
    && decode(line[5..]).Some? && decode(line[5..]).value.Payload?
    && CarriesAny(decode(line[5..]).value.choices)
  }

  /** A delta, or the message where the delta is absent: an object with generated content in one of five fields. */
  predicate HasContent(p: Part) {
    exists content, reasoningContent, reasoning, toolCalls, functionCall ::
      p == Fields(content, reasoningContent, reasoning, toolCalls, functionCall)
      && true in [content, reasoningContent, reasoning, toolCalls, functionCall]
  }

  predicate IsCarrier(c: Choice) {
    match c
    case NotDict => false
    case Choice(text, Falsy, message) => text || HasContent(message)
    case Choice(text, delta, _) => text || HasContent(delta)
  }

  lemma {:induction false} CarriesAnyIff(cs: seq<Choice>)
    ensures CarriesAny(cs) <==> exists i :: 0 <= i < |cs| && IsCarrier(cs[i])
  {
    if |cs| > 0 {
      var init, last := cs[..|cs| - 1], cs[|cs| - 1];
      CarriesAnyIff(init);
      assert forall i :: 0 <= i < |init| ==> init[i] == cs[i];
      if last.Choice? {
        ContentIff(if last.delta != Falsy then last.delta else last.message);
      }
      assert CarriesChoice(last) <==> IsCarrier(cs[|cs| - 1]);
    }
  }

  lemma ContentIff(p: Part)
    ensures CarriesPart(p) <==> HasContent(p)
  {
    if CarriesPart(p) {
      assert p == Fields(p.content, p.reasoningContent, p.reasoning, p.toolCalls, p.functionCall);
      assert true in [p.content, p.reasoningContent, p.reasoning, p.toolCalls, p.functionCall];
    }
  }

  /**
   Exactly which lines end the prompt phase: those whose JSON object has a choice with
   text, or with generated content in its delta (or its message, without a delta). A
   first delta that only names a role does not.
   */
  lemma OutputIff(decode: Decoder, line: string)
    ensures IsOutput(decode, line) <==>
              && |line| >= 5 && line[..5] == "data:"
              && decode(line[5..]).Some? && decode(line[5..]).value.Payload?
              && var cs := decode(line[5..]).value.choices; exists i :: 0 <= i < |cs| && IsCarrier(cs[i])
    ensures !IsCarrier(Choice(false, Fields(false, false, false, false, false), Falsy))
  {
    hide CarriesAny, IsCarrier;
    if StartsWith(line, "data:") && decode(line[5..]).Some? && decode(line[5..]).value.Payload? {
      CarriesAnyIff(decode(line[5..]).value.choices);
    }
    RoleOnly();
  }

  lemma RoleOnly()
    ensures !IsCarrier(Choice(false, Fields(false, false, false, false, false), Falsy))
  {
  }

  // ----- lines of a text -------------------------------------------------------

  function LineEnd(text: string): (n: nat)
    ensures n <= |text|
    ensures n < |text| ==> text[n] == '\n'
    ensures forall i :: 0 <= i < n ==> text[i] != '\n'
  {
    if text == "" || text[0] == '\n' then 0 else 1 + LineEnd(text[1..])
  }

  /** Some complete line of the text carries output. */
  predicate HasOutput(decode: Decoder, text: string)
    decreases |text|
  {
    var n := LineEnd(text);
    n < |text| && (IsOutput(decode, text[..n]) || HasOutput(decode, text[n + 1..]))
  }

  /** The text behind the last line feed. */
  function Tail(text: string): string
    decreases |text|
  {
    var n := LineEnd(text);
    if n < |text| then Tail(text[n + 1..]) else text
  }

  lemma {:induction false} SplitFirst(text: string)
    ensures var n := LineEnd(text);
            SplitOn('\n', text) == if n < |text| then [text[..n]] + SplitOn('\n', text[n + 1..]) else [text]
  {
    if text != "" && text[0] != '\n' {
      var rest, n := text[1..], LineEnd(text) - 1;
      SplitFirst(rest);
      HeadTail(text);
      if n < |rest| {
        SplitBehind([text[0]], rest, n);
        SplitBehind([text[0]], rest, n + 1);
        SplitLonger(text[0], rest, rest[..n], SplitOn('\n', rest[n + 1..]));
      } else {
        assert [rest] + [] == [rest] && [text] + [] == [text];
        SplitLonger(text[0], rest, rest, []);
      }
    }
  }

  lemma SplitLonger(c: char, rest: string, first: string, more: seq<string>)
    requires c != '\n' && SplitOn('\n', rest) == [first] + more
    ensures SplitOn('\n', [c] + rest) == [[c] + first] + more
  {
    assert ([c] + rest)[1..] == rest && ([first] + more)[1..] == more;
  }

  /** Some element but the last carries output. */
  predicate CarriesBeforeLast(decode: Decoder, parts: seq<string>) {
    |parts| >= 2 && (IsOutput(decode, parts[0]) || CarriesBeforeLast(decode, parts[1..]))
  }

  /** In terms of str.split: a part other than the last carries output, and the last is the tail. */
  lemma {:induction false} OutputIsALine(decode: Decoder, text: string)
    ensures var parts := SplitOn('\n', text);
            && (HasOutput(decode, text) <==> CarriesBeforeLast(decode, parts))
            && Tail(text) == parts[|parts| - 1]
    decreases |text|
  {
    hide IsOutput, SplitOn;
    SplitFirst(text);
    var n := LineEnd(text);
    if n < |text| {
      OutputIsALine(decode, text[n + 1..]);
      var rest := SplitOn('\n', text[n + 1..]);
      assert ([text[..n]] + rest)[1..] == rest;
    }
  }

  /** The text behind the first line that carries output. */
  function Behind(decode: Decoder, text: string): string
    requires HasOutput(decode, text)
    decreases |text|
  {
    var n := LineEnd(text);
    if IsOutput(decode, text[..n]) then text[n + 1..] else Behind(decode, text[n + 1..])
  }

  // ----- the detector -------------------------------------------------------------

  function Capped(pending: string): string {
    if |pending| > CAP then "" else pending
  }

  /** What one feed leaves pending, and whether it reports output. */
  function Feed(decode: Decoder, pending: string, chunk: string): (string, bool) {
    if HasOutput(decode, pending + chunk) then (Behind(decode, pending + chunk), true)
    else (Capped(Tail(pending + chunk)), false)
  }

  class Detector {
    const decode: Decoder
    var pending: string

    constructor (decode: Decoder)
      ensures this.decode == decode && pending == ""
    {
      this.decode := decode;
      pending := "";
    }

    method HasCarrier(choices: seq<Choice>) returns (found: bool)
      ensures found == CarriesAny(choices)
    {
      for i := 0 to |choices|
        invariant !CarriesAny(choices[..i])
      {
        TakeSnoc(choices, i);
        var c := choices[i];
        if c.Choice? {
          if c.text {
            CarriesMore(choices, i + 1);
            return true;
          }
          var delta := if c.delta != Falsy then c.delta else c.message;
          if delta.Fields? && (delta.content || delta.reasoningContent || delta.reasoning || delta.toolCalls || delta.functionCall) {
            CarriesMore(choices, i + 1);
            return true;
          }
        }
      }
      assert choices[..|choices|] == choices;
      found := false;
    }

    method FeedChunk(chunk: string) returns (hit: bool)
      modifies this
      ensures (pending, hit) == Feed(decode, old(pending), chunk)
    {
      hide IsOutput;
      pending := pending + chunk;
      ghost var text := pending;
      while LineEnd(pending) < |pending|
        invariant HasOutput(decode, text) == HasOutput(decode, pending)
        invariant Tail(text) == Tail(pending)
        invariant HasOutput(decode, text) ==> Behind(decode, text) == Behind(decode, pending)
        decreases |pending|
      {
        var n := LineEnd(pending);
        var line := pending[..n];
        pending := pending[n + 1..];
        var output := TestLine(line);
        if output {
          return true;
        }
      }
      if |pending| > CAP {
        pending := "";
      }
      hit := false;
    }

    method TestLine(line: string) returns (output: bool)
      ensures output == IsOutput(decode, line)
    {
      if !StartsWith(line, "data:") {
        return false;
      }
      var payload := decode(line[5..]);
      if payload.None? || payload.value.NotDict? {
        return false;
      }
      output := HasCarrier(payload.value.choices);
    }
  }

  lemma {:induction false} CarriesMore(cs: seq<Choice>, i: nat)
    requires i <= |cs| && CarriesAny(cs[..i])
    ensures CarriesAny(cs)
    decreases |cs|
  {
    if i == |cs| {
      assert cs[..i] == cs;
    } else {
      assert cs[..|cs| - 1][..i] == cs[..i];
      CarriesMore(cs[..|cs| - 1], i);
    }
  }

  // ----- chunks ---------------------------------------------------------------------

  lemma LineEndBefore(a: string, b: string)
    ensures LineEnd(a) < |a| ==> LineEnd(a + b) == LineEnd(a)
  {
    var n := LineEnd(a);
    if n < |a| {
      assert (a + b)[n] == '\n';
      assert forall i :: 0 <= i < n ==> (a + b)[i] == a[i];
      assert !(LineEnd(a + b) < n);
    }
  }

  /** Cutting a text anywhere: the first part's tail and the second part tell the rest. */
  lemma {:induction false} CutAnywhere(decode: Decoder, a: string, b: string)
    ensures Tail(a + b) == Tail(Tail(a) + b)
    ensures HasOutput(decode, a + b) <==> HasOutput(decode, a) || HasOutput(decode, Tail(a) + b)
    decreases |a|
  {
    hide IsOutput;
    var n := LineEnd(a);
    if n < |a| {
      LineEndBefore(a, b);
      CutAnywhere(decode, a[n + 1..], b);
      assert (a + b)[..n] == a[..n] && (a + b)[n + 1..] == a[n + 1..] + b;
    }
  }

  /** Feeds of the chunks before the k-th: what is pending, as long as none reports output. */
  function PendingBefore(decode: Decoder, chunks: seq<string>, k: nat): string
    requires k <= |chunks|
  {
    if k == 0 then "" else Feed(decode, PendingBefore(decode, chunks, k - 1), chunks[k - 1]).0
  }

  predicate HitsAt(decode: Decoder, chunks: seq<string>, k: nat)
    requires k < |chunks|
  {
    Feed(decode, PendingBefore(decode, chunks, k), chunks[k]).1
  }

  /** The first j + 1 chunks together contain a complete line that carries output. */
  predicate OutputBy(decode: Decoder, chunks: seq<string>, j: nat) {
    j < |chunks| && HasOutput(decode, Concat(chunks[0..j + 1]))
  }

  predicate QuietUntil(decode: Decoder, chunks: seq<string>, k: nat)
    requires k <= |chunks|
  {
    forall j :: 0 <= j < k ==> !HitsAt(decode, chunks, j)
  }

  /** The chunk behind the last one at whose end an unfinished line was over the cap of 1 MiB. */
  function Start(chunks: seq<string>, k: nat): (s: nat)
    requires k <= |chunks|
    ensures s <= k
  {
    if k == 0 then 0
    else
      var s := Start(chunks, k - 1);
      if |Tail(Concat(chunks[s..k]))| > 0x10_0000 then k else s
  }

  lemma ConcatSnoc(chunks: seq<string>, s: nat, k: nat)
    requires s <= k < |chunks|
    ensures Concat(chunks[s..k + 1]) == Concat(chunks[s..k]) + chunks[k]
  {
    assert chunks[s..k + 1] == chunks[s..k] + [chunks[k]];
    ConcatAppend(chunks[s..k], [chunks[k]]);
    assert [chunks[k]][1..] == [];
    assert chunks[k] + "" == chunks[k];
  }

  /** While nothing is reported: what is pending, and that no line behind the cut carries output. */
  lemma {:induction false} PendingIsTail(decode: Decoder, chunks: seq<string>, k: nat)
    requires k <= |chunks| && QuietUntil(decode, chunks, k)
    ensures PendingBefore(decode, chunks, k) == Tail(Concat(chunks[Start(chunks, k)..k]))
    ensures !HasOutput(decode, Concat(chunks[Start(chunks, k)..k]))
  {
    hide HasOutput, Tail, Concat;
    if k == 0 {
      NothingIn(decode, chunks);
    } else {
      PendingIsTail(decode, chunks, k - 1);
      assert !HitsAt(decode, chunks, k - 1);
      var s := Start(chunks, k - 1);
      ConcatSnoc(chunks, s, k - 1);
      CutAnywhere(decode, Concat(chunks[s..k - 1]), chunks[k - 1]);
      NothingIn(decode, chunks[k..]);
      assert chunks[k..k] == [] == chunks[k..][0..0];
    }
  }

  lemma NothingIn(decode: Decoder, chunks: seq<string>)
    ensures Concat(chunks[0..0]) == "" && Tail("") == "" && !HasOutput(decode, "")
  {
  }

  /**
   The detector first reports output at chunk k exactly when the chunks since the
   last overflow, up to and with the k-th, contain a complete line that carries
   output; where the chunks are cut does not matter.
   */
  lemma FirstHitIff(decode: Decoder, chunks: seq<string>, k: nat)
    requires k < |chunks| && QuietUntil(decode, chunks, k)
    ensures HitsAt(decode, chunks, k) <==> HasOutput(decode, Concat(chunks[Start(chunks, k)..k + 1]))
  {
    hide HasOutput, Tail, Concat, PendingBefore, Start;
    PendingIsTail(decode, chunks, k);
    var s := Start(chunks, k);
    ConcatSnoc(chunks, s, k);
    CutAnywhere(decode, Concat(chunks[s..k]), chunks[k]);
  }

  /** No unfinished line is over the cap of 1 MiB at the end of a chunk. */
  predicate WithinCap(chunks: seq<string>, k: nat)
    requires k <= |chunks|
  {
    forall j :: 1 <= j <= k ==> |Tail(Concat(chunks[0..j]))| <= 0x10_0000
  }

  lemma {:induction false} WithinCapStart(chunks: seq<string>, k: nat)
    requires k <= |chunks| && WithinCap(chunks, k)
    ensures Start(chunks, k) == 0
  {
    hide Tail, Concat, CAP;
    if k > 0 {
      WithinCapStart(chunks, k - 1);
    }
  }

  /** With no overflow, the first report is at the first chunk that completes an output line of the whole text. */
  lemma {:induction false} FirstHitIsFirstOutput(decode: Decoder, chunks: seq<string>, k: nat)
    requires k < |chunks| && WithinCap(chunks, k)
    ensures QuietUntil(decode, chunks, k) && HitsAt(decode, chunks, k)
       <==> OutputBy(decode, chunks, k) && forall j: nat :: j < k ==> !OutputBy(decode, chunks, j)
  {
    hide HasOutput, Tail, Concat, HitsAt, Start, CAP;
    QuietIff(decode, chunks, k);
    WithinCapStart(chunks, k);
    if QuietUntil(decode, chunks, k) {
      FirstHitIff(decode, chunks, k);
    }
  }

  lemma {:induction false} QuietIff(decode: Decoder, chunks: seq<string>, k: nat)
    requires k <= |chunks| && WithinCap(chunks, k)
    ensures QuietUntil(decode, chunks, k) <==> forall j: nat :: j < k ==> !OutputBy(decode, chunks, j)
  {
    hide HasOutput, Tail, Concat, HitsAt, Start, CAP;
    if k > 0 {
      QuietIff(decode, chunks, k - 1);
      WithinCapStart(chunks, k - 1);
      if QuietUntil(decode, chunks, k - 1) {
        FirstHitIff(decode, chunks, k - 1);
        assert QuietUntil(decode, chunks, k) <==> !HitsAt(decode, chunks, k - 1);
      }
      assert OutputBy(decode, chunks, k - 1) <==> HasOutput(decode, Concat(chunks[0..k]));
    }
  }
}
