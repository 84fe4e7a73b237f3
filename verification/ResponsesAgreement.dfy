/**
 The incremental and the whole translation: for every fragmentation of one upstream
 message that does not mix text and refusal, the terminal event of the stream
 carries exactly the response that from_chat_response gives for the assembled
 message, and the stream is aborted exactly when from_chat_response raises.
 */
module ResponsesAgreement {
  import opened Wrappers
  import opened Seqs
  import opened Responses
  import opened ResponsesStream
  import PyText
  import SseReader

  // ----- the message that a well-formed upstream carries ---------------

  predicate WellFormedCalls(ds: seq<CallDelta>) {
    forall i :: 0 <= i < |ds| ==> ds[i].CallDelta?
  }

  predicate WellFormedChoice(c: ChunkChoice) {
    c.ChunkChoice? && (c.index == 0 ==> c.delta.Some? && WellFormedCalls(c.delta.value.calls))
  }

  predicate WellFormedChoices(cs: seq<ChunkChoice>) {
    |cs| == 0 || (WellFormedChoice(cs[0]) && WellFormedChoices(cs[1..]))
  }

  /** No error chunk, no broken payload and no malformed field before the end marker. */
  predicate WellFormed(ps: seq<Payload>) {
    |ps| == 0 || ps[0].DoneMarker?
    || (ps[0].Data? && ps[0].chunk.error == "" && !ps[0].chunk.usage.BadUsage?
        && WellFormedChoices(ps[0].chunk.choices) && WellFormed(ps[1..]))
  }

  /** The deltas of choice 0, in order. */
  function ChoiceDeltas(cs: seq<ChunkChoice>): seq<Delta>
    requires WellFormedChoices(cs)
  {
    if |cs| == 0 then []
    else (if cs[0].index == 0 then [cs[0].delta.value] else []) + ChoiceDeltas(cs[1..])
  }

  function Deltas(ps: seq<Payload>): seq<Delta>
    requires WellFormed(ps)
  {
    if |ps| == 0 || ps[0].DoneMarker? then []
    else ChoiceDeltas(ps[0].chunk.choices) + Deltas(ps[1..])
  }

  /** The last non-empty finish reason of choice 0. */
  function ChoiceFinish(finish: string, cs: seq<ChunkChoice>): string
    requires WellFormedChoices(cs)
    decreases |cs|
  {
    if |cs| == 0 then finish
    else ChoiceFinish(if cs[0].index == 0 && cs[0].finish != "" then cs[0].finish else finish, cs[1..])
  }

  function LastFinish(finish: string, ps: seq<Payload>): string
    requires WellFormed(ps)
    decreases |ps|
  {
    if |ps| == 0 || ps[0].DoneMarker? then finish
    else LastFinish(ChoiceFinish(finish, ps[0].chunk.choices), ps[1..])
  }

  function LastUsage(usage: Option<ChatUsage>, ps: seq<Payload>): Option<ChatUsage>
    requires WellFormed(ps)
    decreases |ps|
  {
    if |ps| == 0 || ps[0].DoneMarker? then usage
    else LastUsage(if ps[0].chunk.usage.SomeUsage? then Some(ps[0].chunk.usage.usage) else usage, ps[1..])
  }

  function Text(ds: seq<Delta>, refusal: bool): string {
    if |ds| == 0 then "" else (if refusal then ds[0].refusal else ds[0].content) + Text(ds[1..], refusal)
  }

  function CallDeltas(ds: seq<Delta>): seq<CallDelta> {
    if |ds| == 0 then [] else ds[0].calls + CallDeltas(ds[1..])
  }

  function JoinCalls(a: ChatCall, b: ChatCall): ChatCall {
    ChatCall(a.id + b.id, a.name + b.name, a.arguments + b.arguments)
  }

  const NO_CALL := ChatCall("", "", "")

  /** The concatenated fragments of one index. */
  function Assembled(cds: seq<CallDelta>, index: int): ChatCall
    requires WellFormedCalls(cds)
  {
    if |cds| == 0 then NO_CALL
    else
      var rest := Assembled(cds[1..], index);
      if cds[0].index == index then JoinCalls(ChatCall(cds[0].id, cds[0].name, cds[0].arguments), rest) else rest
  }

  /** The assembled calls, listed by the given indices. */
  function CallList(cds: seq<CallDelta>, order: seq<int>): seq<ChatCall>
    requires WellFormedCalls(cds)
  {
    if |order| == 0 then [] else [Assembled(cds, order[0])] + CallList(cds, order[1..])
  }

  /** The message in one piece: its text if there is any, its refusal, and the calls in the given order. */
  function Whole(ps: seq<Payload>, order: seq<int>): ChatResult
    requires WellFormed(ps) && WellFormedCalls(CallDeltas(Deltas(ps)))
  {
    var ds := Deltas(ps);
    Choice(LastFinish("", ps),
           ChatMessage(if Text(ds, false) == "" then None else Some(Text(ds, false)), Text(ds, true), CallList(CallDeltas(ds), order)),
           LastUsage(None, ps))
  }

  /** Both text and refusal occur. */
  predicate IsMixed(ps: seq<Payload>)
    requires WellFormed(ps)
  {
    Text(Deltas(ps), false) != "" && Text(Deltas(ps), true) != ""
  }

  predicate WellFormedDeltas(ds: seq<Delta>) {
    |ds| == 0 || (WellFormedCalls(ds[0].calls) && WellFormedDeltas(ds[1..]))
  }

  /** Text only, or refusal only. */
  predicate OneKind(ds: seq<Delta>, refusal: bool) {
    |ds| == 0
    || ((if refusal then ds[0].content == "" else ds[0].refusal == "") && WellFormedCalls(ds[0].calls) && OneKind(ds[1..], refusal))
  }

  /** The order in which indices first appear, after those already seen. */
  function Seen(keys: seq<int>, cds: seq<CallDelta>): seq<int>
    requires WellFormedCalls(cds)
    decreases |cds|
  {
    if |cds| == 0 then keys
    else Seen(if cds[0].index in keys then keys else keys + [cds[0].index], cds[1..])
  }

  predicate Increasing(s: seq<int>) {
    forall i, j :: 0 <= i < j < |s| ==> s[i] < s[j]
  }

  // ----- folding deltas instead of payloads ----------------------------

  function FoldDeltas(core: Core, ds: seq<Delta>): CoreStep
    decreases |ds|
  {
    if |ds| == 0 then Going(core)
    else
      match OnDelta(core, ds[0])
      case Raised(c) => Raised(c)
      case Going(c) => FoldDeltas(c, ds[1..])
  }

  lemma {:induction false} FoldAppend(core: Core, a: seq<Delta>, b: seq<Delta>)
    ensures FoldDeltas(core, a + b)
         == match FoldDeltas(core, a) case Raised(c) => Raised(c) case Going(c) => FoldDeltas(c, b)
    decreases |a|
  {
    hide OnDelta;
    if |a| == 0 {
      assert a + b == b;
    } else {
      TailAppend(a, b);
      match OnDelta(core, a[0]) {
        case Raised(_) =>
        case Going(c) => FoldAppend(c, a[1..], b);
      }
    }
  }

  lemma {:induction false} ChoicesFold(st: State, cs: seq<ChunkChoice>)
    requires WellFormedChoices(cs) && FoldDeltas(st.core, ChoiceDeltas(cs)).Going?
    ensures OnChoices(st, cs)
         == Running(State(FoldDeltas(st.core, ChoiceDeltas(cs)).core, ChoiceFinish(st.finish, cs), st.usage))
    decreases |cs|
  {
    hide OnDelta;
    if |cs| > 0 {
      var c := cs[0];
      if c.index == 0 {
        var d := c.delta.value;
        FoldAppend(st.core, [d], ChoiceDeltas(cs[1..]));
        var st1 := if c.finish != "" then st.(finish := c.finish) else st;
        ChoicesFold(st1.(core := OnDelta(st.core, d).core), cs[1..]);
      } else {
        assert ChoiceDeltas(cs) == ChoiceDeltas(cs[1..]);
        ChoicesFold(st, cs[1..]);
      }
    }
  }

  lemma {:induction false} PayloadsFold(st: State, usage: Option<ChatUsage>, ps: seq<Payload>)
    requires WellFormed(ps) && FoldDeltas(st.core, Deltas(ps)).Going?
    requires st.usage == UsageField(usage)
    ensures OnPayloads(st, ps)
         == Stopped(State(FoldDeltas(st.core, Deltas(ps)).core, LastFinish(st.finish, ps), UsageField(LastUsage(usage, ps))))
    decreases |ps|
  {
    hide OnDelta, FoldDeltas, OnChoices;
    if |ps| > 0 && ps[0].Data? {
      var chunk := ps[0].chunk;
      var ds := ChoiceDeltas(chunk.choices);
      FoldAppend(st.core, ds, Deltas(ps[1..]));
      var usage1 := if chunk.usage.SomeUsage? then Some(chunk.usage.usage) else usage;
      var st1 := st.(usage := UsageField(usage1));
      ChoicesFold(st1, chunk.choices);
      PayloadsFold(OnChoices(st1, chunk.choices).state, usage1, ps[1..]);
    } else {
      FoldNothing(st.core);
    }
  }

  lemma FoldNothing(core: Core)
    ensures FoldDeltas(core, []) == Going(core)
  {
  }

  // ----- what folding deltas gives --------------------------------------

  function AddAll(calls: seq<CallState>, cds: seq<CallDelta>): seq<CallState>
    requires WellFormedCalls(cds)
    decreases |cds|
  {
    if |cds| == 0 then calls else AddAll(AddFragment(calls, cds[0]), cds[1..])
  }

  lemma {:induction false} OnCallsAdds(core: Core, cds: seq<CallDelta>)
    requires WellFormedCalls(cds)
    ensures OnCalls(core, cds) == Going(core.(calls := AddAll(core.calls, cds)))
    decreases |cds|
  {
    if |cds| > 0 {
      OnCallsAdds(core.(calls := AddFragment(core.calls, cds[0])), cds[1..]);
    }
  }

  lemma {:induction false} AddAllAppend(calls: seq<CallState>, a: seq<CallDelta>, b: seq<CallDelta>)
    requires WellFormedCalls(a) && WellFormedCalls(b)
    ensures WellFormedCalls(a + b) && AddAll(calls, a + b) == AddAll(AddAll(calls, a), b)
    decreases |a|
  {
    hide AddFragment;
    if |a| == 0 {
      assert a + b == b;
    } else {
      TailAppend(a, b);
      AddAllAppend(AddFragment(calls, a[0]), a[1..], b);
    }
  }

  function AddText(message: Option<Part>, text: string, refusal: bool): Option<Part> {
    if text == "" then message
    else
      var part := message.GetOr(EmptyPart(refusal));
      Some(part.(text := part.text + text))
  }

  predicate FitsKind(message: Option<Part>, refusal: bool) {
    message.Some? ==> message.value.Refusal? == refusal
  }

  lemma DeltaGoing(core: Core, d: Delta, refusal: bool)
    requires OneKind([d], refusal) && FitsKind(core.message, refusal)
    ensures var step := OnDelta(core, d);
            && step.Going?
            && step.core.message == AddText(core.message, if refusal then d.refusal else d.content, refusal)
            && step.core.calls == AddAll(core.calls, d.calls)
            && FitsKind(step.core.message, refusal)
  {
    hide AddAll, OnCalls;
    var text := if d.content != "" then d.content else d.refusal;
    if text == "" {
      OnCallsAdds(core, d.calls);
    } else {
      OnCallsAdds(OnText(core, text, d.refusal != "").core, d.calls);
    }
  }

  lemma AddTextTwice(message: Option<Part>, a: string, b: string, refusal: bool)
    ensures AddText(AddText(message, a, refusal), b, refusal) == AddText(message, a + b, refusal)
  {
    var part := message.GetOr(EmptyPart(refusal));
    Assoc(part.text, a, b);
    if a == "" { assert a + b == b; }
    if b == "" { assert a + b == a; }
  }

  lemma {:induction false} FoldGoing(core: Core, ds: seq<Delta>, refusal: bool)
    requires OneKind(ds, refusal) && FitsKind(core.message, refusal)
    ensures WellFormedCalls(CallDeltas(ds))
    ensures var step := FoldDeltas(core, ds);
            && step.Going?
            && step.core.message == AddText(core.message, Text(ds, refusal), refusal)
            && step.core.calls == AddAll(core.calls, CallDeltas(ds))
    decreases |ds|
  {
    if |ds| > 0 {
      hide OnDelta, AddAll, AddText;
      var d := ds[0];
      DeltaGoing(core, d, refusal);
      var c := OnDelta(core, d).core;
      FoldGoing(c, ds[1..], refusal);
      AddTextTwice(core.message, if refusal then d.refusal else d.content, Text(ds[1..], refusal), refusal);
      AddAllAppend(core.calls, d.calls, CallDeltas(ds[1..]));
    }
  }

  // ----- the dictionary holds each index's concatenation -----------------

  function Keys(calls: seq<CallState>): (keys: seq<int>)
    ensures |keys| == |calls| && forall k :: 0 <= k < |calls| ==> keys[k] == calls[k].index
  {
    seq(|calls|, k requires 0 <= k < |calls| => calls[k].index)
  }

  predicate Distinct(keys: seq<int>) {
    forall i, j :: 0 <= i < j < |keys| ==> keys[i] != keys[j]
  }

  /** What the dictionary holds for an index so far. */
  function Held(calls: seq<CallState>, index: int): ChatCall {
    var k := Find(calls, index);
    if k < |calls| then calls[k].call else NO_CALL
  }

  lemma {:induction false} FindAt(calls: seq<CallState>, k: nat)
    requires k < |calls| && Distinct(Keys(calls))
    ensures Find(calls, calls[k].index) == k
  {
    if k > 0 {
      var t := calls[1..];
      assert Keys(calls)[0] != Keys(calls)[k];
      assert Distinct(Keys(t)) by {
        forall i, j | 0 <= i < j < |t| ensures Keys(t)[i] != Keys(t)[j] {
          assert Keys(calls)[i + 1] != Keys(calls)[j + 1];
        }
      }
      FindAt(t, k - 1);
    }
  }

  lemma {:induction false} FindMissing(calls: seq<CallState>, index: int)
    ensures Find(calls, index) == |calls| <==> index !in Keys(calls)
  {
    if |calls| > 0 {
      FindMissing(calls[1..], index);
      assert Keys(calls) == [calls[0].index] + Keys(calls[1..]);
    }
  }

  lemma AddFragmentHolds(calls: seq<CallState>, d: CallDelta, index: int)
    requires d.CallDelta? && Distinct(Keys(calls))
    ensures var after := AddFragment(calls, d);
            && Distinct(Keys(after))
            && Keys(after) == (if d.index in Keys(calls) then Keys(calls) else Keys(calls) + [d.index])
            && Held(after, index)
               == (if d.index == index then JoinCalls(Held(calls, index), ChatCall(d.id, d.name, d.arguments))
                   else Held(calls, index))
  {
    hide Find;
    var after := AddFragment(calls, d);
    var k := Find(calls, d.index);
    FindMissing(calls, d.index);
    FindMissing(calls, index);
    FindMissing(after, index);
    assert Keys(after) == if k == |calls| then Keys(calls) + [d.index] else Keys(calls);
    HeldAt(calls, index);
    HeldAt(after, index);
    if d.index == index {
      FindAt(after, k);
    } else if index in Keys(calls) {
      FindAt(after, Find(calls, index));
    }
  }

  lemma HeldAt(calls: seq<CallState>, index: int)
    ensures Held(calls, index) == if Find(calls, index) < |calls| then calls[Find(calls, index)].call else NO_CALL
  {
  }

  lemma {:induction false} AddAllHolds(calls: seq<CallState>, cds: seq<CallDelta>, index: int)
    requires WellFormedCalls(cds) && Distinct(Keys(calls))
    ensures var after := AddAll(calls, cds);
            && Distinct(Keys(after)) && Keys(after) == Seen(Keys(calls), cds)
            && Held(after, index) == JoinCalls(Held(calls, index), Assembled(cds, index))
    decreases |cds|
  {
    hide AddFragment, Held, Keys, JoinCalls, Distinct;
    if |cds| > 0 {
      var d, rest := cds[0], cds[1..];
      AddFragmentHolds(calls, d, index);
      AddAllHolds(AddFragment(calls, d), rest, index);
      JoinCallsAssoc(Held(calls, index), ChatCall(d.id, d.name, d.arguments), Assembled(rest, index));
    } else {
      JoinNothing(Held(calls, index));
    }
  }

  lemma JoinCallsAssoc(a: ChatCall, b: ChatCall, c: ChatCall)
    ensures JoinCalls(JoinCalls(a, b), c) == JoinCalls(a, JoinCalls(b, c))
  {
    Assoc(a.id, b.id, c.id);
    Assoc(a.name, b.name, c.name);
    Assoc(a.arguments, b.arguments, c.arguments);
  }

  lemma JoinNothing(a: ChatCall)
    ensures JoinCalls(a, NO_CALL) == a && JoinCalls(NO_CALL, a) == a
  {
    assert a.id + "" == a.id && a.name + "" == a.name && a.arguments + "" == a.arguments;
    assert "" + a.id == a.id && "" + a.name == a.name && "" + a.arguments == a.arguments;
  }

  function CallsOf(states: seq<CallState>): seq<ChatCall> {
    if |states| == 0 then [] else [states[0].call] + CallsOf(states[1..])
  }

  /** Read in dictionary order, the assembled calls are those of the indices in order of appearance. */
  lemma {:induction false} DictionaryOrder(states: seq<CallState>, cds: seq<CallDelta>, from: nat)
    requires WellFormedCalls(cds) && states == AddAll([], cds) && from <= |states|
    ensures |states| == |Seen([], cds)|
    ensures CallsOf(states[from..]) == CallList(cds, Seen([], cds)[from..])
    decreases |states| - from
  {
    hide AddAll, Held;
    AddAllHolds([], cds, 0);
    assert Keys([]) == [];
    if from < |states| {
      var index := states[from].index;
      DictionaryOrder(states, cds, from + 1);
      AddAllHolds([], cds, index);
      HeldAt([], index);
      FindAt(states, from);
      HeldAt(states, index);
      JoinNothing(Assembled(cds, index));
      assert Keys(states)[from] == index;
      assert states[from..][0] == states[from] && states[from..][1..] == states[from + 1..];
      var seen := Seen([], cds);
      assert seen[from..][0] == index && seen[from..][1..] == seen[from + 1..];
    }
  }

  // ----- increasing enumerations are unique ------------------------------

  lemma {:induction false} IncreasingUnique(a: seq<int>, b: seq<int>)
    requires Increasing(a) && Increasing(b)
    requires forall x :: x in a <==> x in b
    ensures a == b
  {
    if a == [] {
      assert forall k :: 0 <= k < |b| ==> b[k] in a;
    } else {
      assert a[0] in a;
      var i :| 0 <= i < |b| && b[i] == a[0];
      assert b[0] in b;
      var j :| 0 <= j < |a| && a[j] == b[0];
      assert a[0] == b[0];
      forall x ensures x in a[1..] <==> x in b[1..] {
        TailMember(a, x);
        TailMember(b, x);
      }
      IncreasingUnique(a[1..], b[1..]);
      HeadTail(a);
      HeadTail(b);
    }
  }

  lemma TailMember(a: seq<int>, x: int)
    requires a != [] && Increasing(a)
    ensures x in a[1..] <==> x in a && x != a[0]
  {
    if x in a[1..] {
      var i :| 0 <= i < |a[1..]| && a[1..][i] == x;
      assert a[i + 1] == x;
    }
    if x in a && x != a[0] {
      var i :| 0 <= i < |a| && a[i] == x;
      assert a[1..][i - 1] == x;
    }
  }

  predicate HasIndex(cds: seq<CallDelta>, x: int) {
    exists i :: 0 <= i < |cds| && cds[i].CallDelta? && cds[i].index == x
  }

  lemma {:induction false} SeenMembers(keys: seq<int>, cds: seq<CallDelta>, x: int)
    requires WellFormedCalls(cds)
    ensures x in Seen(keys, cds) <==> x in keys || HasIndex(cds, x)
    decreases |cds|
  {
    if |cds| > 0 {
      hide HasIndex;
      SeenMembers(if cds[0].index in keys then keys else keys + [cds[0].index], cds[1..], x);
    }
  }

  // ----- publishing is CallItems with a provisional status ---------------

  lemma {:induction false} PublishIsCallItems(decode: Decoder, tools: seq<FlatTool>, states: seq<CallState>, status: Status, truncated: bool, base: nat)
    requires truncated ==> status == Incomplete
    ensures var p, whole := Publish(decode, tools, states, truncated, base), CallItems(decode, tools, CallsOf(states), status, truncated);
            && p.ok == whole.Success?
            && (p.ok ==> AllWithStatus(p.items, status) == whole.value)
  {
    if |states| > 0 {
      hide IsCustom, RestoreName;
      PublishIsCallItems(decode, tools, states[1..], status, truncated, base + 1);
      var call := states[0].call;
      assert CallsOf(states)[0] == call && CallsOf(states)[1..] == CallsOf(states[1..]);
      var mine, whole := CallItem(decode, tools, call, InProgress, truncated), CallItem(decode, tools, call, status, truncated);
      if mine.Success? {
        assert WithStatus(Restore(tools, mine.value), status) == Restore(tools, whole.value);
        var p := Publish(decode, tools, states, truncated, base);
        assert p.items[1..] == Publish(decode, tools, states[1..], truncated, base + 1).items;
      }
    }
  }

  lemma {:induction false} AllWithStatusAppend(a: seq<Item>, b: seq<Item>, status: Status)
    ensures AllWithStatus(a + b, status) == AllWithStatus(a, status) + AllWithStatus(b, status)
  {
  }

  // ----- agreement --------------------------------------------------------

  /** The terminal event says what the whole translation says. */
  predicate Agrees(last: Body, whole: Result<Response, string>) {
    match whole
    case Success(response) => last == Finished(response)
    case Failure(_) => last.Aborted?
  }

  lemma ConcludeAgrees(decode: Decoder, tools: seq<FlatTool>, st: State, refusal: bool, text: string, usage: Option<ChatUsage>)
    requires st.core.message == AddText(None, text, refusal) && st.usage == UsageField(usage)
    ensures var message := ChatMessage(if refusal || text == "" then None else Some(text), if refusal then text else "",
                                       CallsOf(st.core.calls));
            var bodies := Conclude(decode, tools, st);
            bodies != [] && Agrees(bodies[|bodies| - 1], FromChat(decode, tools, Choice(st.finish, message, usage)))
  {
    hide Publish, CallItems, Close, CallsOf, AddText, MessageItems, MessageOutput, AllWithStatus, IncompleteReason, UsageField;
    if st.finish != "" {
      var status, truncated := FinalStatus(st.finish), st.finish == "length";
      var head := MessageOutput(st.core.message);
      PublishIsCallItems(decode, tools, st.core.calls, status, truncated, |head|);
      var p := Publish(decode, tools, st.core.calls, truncated, |head|);
      AllWithStatusAppend(head, p.items, status);
      MessageAgrees(text, refusal, status, CallsOf(st.core.calls));
    }
  }

  /** The accumulated message is the whole one. */
  lemma MessageAgrees(text: string, refusal: bool, status: Status, calls: seq<ChatCall>)
    ensures AllWithStatus(MessageOutput(AddText(None, text, refusal)), status)
         == MessageItems(ChatMessage(if refusal || text == "" then None else Some(text), if refusal then text else "", calls), status)
  {
    assert "" + text == text;
  }

  /** `order` lists the call indices of the fragments in increasing order. */
  ghost predicate IndexOrder(order: seq<int>, cds: seq<CallDelta>) {
    Increasing(order) && forall x :: x in order <==> HasIndex(cds, x)
  }

  lemma AppearanceOrder(order: seq<int>, cds: seq<CallDelta>)
    requires WellFormedCalls(cds) && IndexOrder(order, cds) && Increasing(Seen([], cds))
    ensures Seen([], cds) == order
  {
    hide Seen, HasIndex;
    forall x ensures x in order <==> x in Seen([], cds) {
      SeenMembers([], cds, x);
    }
    IncreasingUnique(order, Seen([], cds));
  }

  /** The state in which a well-formed, unmixed upstream leaves the adapter. */
  lemma StreamState(ps: seq<Payload>, refusal: bool)
    requires WellFormed(ps) && OneKind(Deltas(ps), refusal)
    ensures WellFormedCalls(CallDeltas(Deltas(ps)))
    ensures var end := OnPayloads(START, ps);
            && end.Stopped?
            && end.state.core.message == AddText(None, Text(Deltas(ps), refusal), refusal)
            && end.state.core.calls == AddAll([], CallDeltas(Deltas(ps)))
            && end.state.finish == LastFinish("", ps)
            && end.state.usage == UsageField(LastUsage(None, ps))
  {
    hide FoldDeltas, OnPayloads, AddText, AddAll, Text, CallDeltas, WellFormed, OneKind, LastFinish, LastUsage;
    FoldGoing(START.core, Deltas(ps), refusal);
    PayloadsFold(START, None, ps);
  }

  // ----- messages of one kind, and mixed ones --------------------------------------

  lemma {:induction false} DeltasAppend(a: seq<Delta>, b: seq<Delta>)
    requires WellFormedDeltas(a) && WellFormedDeltas(b)
    ensures WellFormedDeltas(a + b)
  {
    if |a| == 0 {
      assert a + b == b;
    } else {
      DeltasAppend(a[1..], b);
      TailAppend(a, b);
    }
  }

  lemma {:induction false} ChoicesWellFormed(cs: seq<ChunkChoice>)
    requires WellFormedChoices(cs)
    ensures WellFormedDeltas(ChoiceDeltas(cs))
  {
    if |cs| > 0 {
      ChoicesWellFormed(cs[1..]);
      var first := if cs[0].index == 0 then [cs[0].delta.value] else [];
      assert |first| == 1 ==> first[1..] == [];
      DeltasAppend(first, ChoiceDeltas(cs[1..]));
    }
  }

  lemma {:induction false} PayloadsWellFormed(ps: seq<Payload>)
    requires WellFormed(ps)
    ensures WellFormedDeltas(Deltas(ps))
  {
    hide ChoiceDeltas, WellFormedDeltas;
    if |ps| > 0 && ps[0].Data? {
      ChoicesWellFormed(ps[0].chunk.choices);
      PayloadsWellFormed(ps[1..]);
      DeltasAppend(ChoiceDeltas(ps[0].chunk.choices), Deltas(ps[1..]));
    } else {
      assert WellFormedDeltas([]) by { NoDeltas(); }
    }
  }

  lemma NoDeltas()
    ensures WellFormedDeltas([])
  {
  }

  lemma {:induction false} CallsWellFormed(ds: seq<Delta>)
    requires WellFormedDeltas(ds)
    ensures WellFormedCalls(CallDeltas(ds))
  {
    if |ds| > 0 {
      CallsWellFormed(ds[1..]);
    }
  }

  /** Without the other kind's text a message is of one kind. */
  lemma {:induction false} OneKindIffNoOther(ds: seq<Delta>, refusal: bool)
    requires WellFormedDeltas(ds)
    ensures Text(ds, !refusal) == "" ==> OneKind(ds, refusal)
  {
    if |ds| > 0 {
      OneKindIffNoOther(ds[1..], refusal);
    }
  }

  lemma DeltaCalls(core: Core, d: Delta)
    requires WellFormedCalls(d.calls) && OnDelta(core, d).Going?
    ensures OnDelta(core, d).core.calls == AddAll(core.calls, d.calls)
  {
    hide AddAll, OnCalls;
    var text := if d.content != "" then d.content else d.refusal;
    if text == "" {
      OnCallsAdds(core, d.calls);
    } else {
      OnCallsAdds(OnText(core, text, d.refusal != "").core, d.calls);
    }
  }

  /** Whatever the texts, a stream that goes on has collected all calls. */
  lemma {:induction false} FoldCalls(core: Core, ds: seq<Delta>)
    requires WellFormedDeltas(ds) && FoldDeltas(core, ds).Going?
    ensures WellFormedCalls(CallDeltas(ds))
    ensures FoldDeltas(core, ds).core.calls == AddAll(core.calls, CallDeltas(ds))
    decreases |ds|
  {
    hide OnDelta, AddAll;
    CallsWellFormed(ds);
    if |ds| == 0 {
      assert AddAll(core.calls, []) == core.calls by { AddNothing(core.calls); }
    } else {
      DeltaCalls(core, ds[0]);
      FoldCalls(OnDelta(core, ds[0]).core, ds[1..]);
      AddAllAppend(core.calls, ds[0].calls, CallDeltas(ds[1..]));
    }
  }

  lemma AddNothing(calls: seq<CallState>)
    ensures AddAll(calls, []) == calls
  {
  }

  lemma {:induction false} ChoicesRaise(st: State, cs: seq<ChunkChoice>)
    requires WellFormedChoices(cs) && FoldDeltas(st.core, ChoiceDeltas(cs)).Raised?
    ensures OnChoices(st, cs).Failing?
    decreases |cs|
  {
    hide OnDelta;
    if |cs| > 0 {
      var c := cs[0];
      if c.index == 0 {
        var d := c.delta.value;
        FoldAppend(st.core, [d], ChoiceDeltas(cs[1..]));
        assert [d][1..] == [];
        assert FoldDeltas(st.core, [d]) == OnDelta(st.core, d);
        var st1 := if c.finish != "" then st.(finish := c.finish) else st;
        if OnDelta(st.core, d).Going? {
          ChoicesRaise(st1.(core := OnDelta(st.core, d).core), cs[1..]);
        }
      } else {
        assert ChoiceDeltas(cs) == ChoiceDeltas(cs[1..]);
        ChoicesRaise(st, cs[1..]);
      }
    }
  }

  lemma {:induction false} PayloadsRaise(st: State, ps: seq<Payload>)
    requires WellFormed(ps) && FoldDeltas(st.core, Deltas(ps)).Raised?
    ensures OnPayloads(st, ps).Failing?
    decreases |ps|
  {
    hide OnDelta, FoldDeltas, OnChoices, ChoiceDeltas;
    FoldNothing(st.core);
    if |ps| > 0 && ps[0].Data? {
      var chunk := ps[0].chunk;
      var ds := ChoiceDeltas(chunk.choices);
      FoldAppend(st.core, ds, Deltas(ps[1..]));
      var st1 := if chunk.usage.SomeUsage? then st.(usage := Some(UsageOf(chunk.usage.usage))) else st;
      if FoldDeltas(st.core, ds).Raised? {
        ChoicesRaise(st1, chunk.choices);
      } else {
        ChoicesFold(st1, chunk.choices);
        PayloadsRaise(OnChoices(st1, chunk.choices).state, ps[1..]);
      }
    }
  }

  /** A stream's response has at most one message item; one of a mixed message has two. */
  lemma MixedDisagrees(decode: Decoder, tools: seq<FlatTool>, st: State, message: ChatMessage, usage: Option<ChatUsage>)
    requires message.content.Some? && message.refusal != "" && message.calls == CallsOf(st.core.calls)
    ensures var bodies := Conclude(decode, tools, st);
            bodies != [] && (Agrees(bodies[|bodies| - 1], FromChat(decode, tools, Choice(st.finish, message, usage)))
                             <==> FromChat(decode, tools, Choice(st.finish, message, usage)).Failure?)
  {
    hide Publish, CallItems, Close, CallsOf, AllWithStatus;
    if st.finish != "" {
      var status, truncated := FinalStatus(st.finish), st.finish == "length";
      var head := MessageOutput(st.core.message);
      PublishIsCallItems(decode, tools, st.core.calls, status, truncated, |head|);
      PublishSize(decode, tools, st.core.calls, truncated, |head|);
      CallsSize(st.core.calls);
    }
  }

  lemma {:induction false} PublishSize(decode: Decoder, tools: seq<FlatTool>, states: seq<CallState>, truncated: bool, base: nat)
    ensures |Publish(decode, tools, states, truncated, base).items| <= |states|
  {
    hide CallItem;
    if |states| > 0 {
      PublishSize(decode, tools, states[1..], truncated, base + 1);
    }
  }

  lemma {:induction false} CallsSize(states: seq<CallState>)
    ensures |CallsOf(states)| == |states|
  {
    if |states| > 0 {
      CallsSize(states[1..]);
    }
  }

  /** A message without refusal, or without text, however fragmented. */
  lemma UnmixedAgrees(decode: Decoder, tools: seq<FlatTool>, ps: seq<Payload>, refusal: bool)
    requires WellFormed(ps) && Text(Deltas(ps), !refusal) == "" && WellFormedCalls(CallDeltas(Deltas(ps)))
    ensures var bodies := Stream(decode, tools, ps);
            var whole := Whole(ps, Seen([], CallDeltas(Deltas(ps))));
            bodies != [] && Agrees(bodies[|bodies| - 1], FromChat(decode, tools, whole))
  {
    hide Conclude, FromChat, OnPayloads, AddText, AddAll, Text, CallDeltas, WellFormed, OneKind, LastFinish, LastUsage,
         Seen, CallList, CallsOf, WellFormedDeltas;
    var cds := CallDeltas(Deltas(ps));
    PayloadsWellFormed(ps);
    OneKindIffNoOther(Deltas(ps), refusal);
    StreamState(ps, refusal);
    var st := OnPayloads(START, ps).state;
    DictionaryOrder(st.core.calls, cds, 0);
    assert st.core.calls[0..] == st.core.calls && Seen([], cds)[0..] == Seen([], cds);
    ConcludeAgrees(decode, tools, st, refusal, Text(Deltas(ps), refusal), LastUsage(None, ps));
  }

  /** Text without refusal is listed as output text, and refusal without text as a refusal, finished or not. */
  lemma OneKindIsListed(decode: Decoder, tools: seq<FlatTool>, ps: seq<Payload>, refusal: bool)
    requires WellFormed(ps) && Text(Deltas(ps), !refusal) == "" && Text(Deltas(ps), refusal) != ""
    ensures var bodies := Stream(decode, tools, ps);
            && bodies != [] && (bodies[|bodies| - 1].Finished? || bodies[|bodies| - 1].Aborted?)
            && var output := bodies[|bodies| - 1].response.output;
               && output != [] && output[0].Message?
               && output[0].part == Some(if refusal then Refusal(Text(Deltas(ps), true)) else OutputText(Text(Deltas(ps), false)))
  {
    hide OnPayloads, AddAll, Text, CallDeltas, WellFormed, OneKind, LastFinish, LastUsage, WellFormedDeltas, Publish, Close;
    PayloadsWellFormed(ps);
    OneKindIffNoOther(Deltas(ps), refusal);
    StreamState(ps, refusal);
    var text := Text(Deltas(ps), refusal);
    assert "" + text == text;
  }

  lemma MixedAgreesIff(decode: Decoder, tools: seq<FlatTool>, ps: seq<Payload>)
    requires WellFormed(ps) && IsMixed(ps) && WellFormedCalls(CallDeltas(Deltas(ps)))
    ensures var bodies := Stream(decode, tools, ps);
            var whole := FromChat(decode, tools, Whole(ps, Seen([], CallDeltas(Deltas(ps)))));
            bodies != [] && (Agrees(bodies[|bodies| - 1], whole) <==> whole.Failure?)
  {
    hide Conclude, FromChat, OnPayloads, AddAll, Text, CallDeltas, WellFormed, LastFinish, LastUsage, FoldDeltas,
         Seen, CallList, CallsOf, WellFormedDeltas;
    var ds, cds := Deltas(ps), CallDeltas(Deltas(ps));
    PayloadsWellFormed(ps);
    if FoldDeltas(START.core, ds).Raised? {
      PayloadsRaise(START, ps);
    } else {
      FoldCalls(START.core, ds);
      PayloadsFold(START, None, ps);
      var st := OnPayloads(START, ps).state;
      DictionaryOrder(st.core.calls, cds, 0);
      assert st.core.calls[0..] == st.core.calls && Seen([], cds)[0..] == Seen([], cds);
      MixedDisagrees(decode, tools, st, Whole(ps, Seen([], cds)).message, LastUsage(None, ps));
    }
  }

  /**
   For every fragmentation of a well-formed message, with its calls in the order in
   which their indices first appear, the two translations agree if and only if the
   message does not mix text and refusal, or the whole translation raises.
   */
  lemma StreamingIsWholeByAppearance(decode: Decoder, tools: seq<FlatTool>, ps: seq<Payload>)
    requires WellFormed(ps)
    ensures WellFormedCalls(CallDeltas(Deltas(ps)))
    ensures var bodies := Stream(decode, tools, ps);
            var whole := FromChat(decode, tools, Whole(ps, Seen([], CallDeltas(Deltas(ps)))));
            bodies != [] && (Agrees(bodies[|bodies| - 1], whole) <==> !IsMixed(ps) || whole.Failure?)
  {
    hide Stream, FromChat, Whole, WellFormed, Seen, Agrees, Text, WellFormedDeltas, CallDeltas;
    PayloadsWellFormed(ps);
    CallsWellFormed(Deltas(ps));
    if IsMixed(ps) {
      MixedAgreesIff(decode, tools, ps);
    } else if Text(Deltas(ps), true) == "" {
      UnmixedAgrees(decode, tools, ps, false);
    } else {
      UnmixedAgrees(decode, tools, ps, true);
    }
  }

  /** The same for the calls in index order, when the indices first appear in that order. */
  lemma StreamingIsWhole(decode: Decoder, tools: seq<FlatTool>, ps: seq<Payload>, order: seq<int>)
    requires WellFormed(ps) && WellFormedCalls(CallDeltas(Deltas(ps)))
    requires IndexOrder(order, CallDeltas(Deltas(ps))) && Increasing(Seen([], CallDeltas(Deltas(ps))))
    ensures var bodies, whole := Stream(decode, tools, ps), FromChat(decode, tools, Whole(ps, order));
            bodies != [] && (Agrees(bodies[|bodies| - 1], whole) <==> !IsMixed(ps) || whole.Failure?)
  {
    hide Stream, FromChat, Whole, WellFormed, IsMixed, Seen, IndexOrder, Increasing, Agrees;
    AppearanceOrder(order, CallDeltas(Deltas(ps)));
    StreamingIsWholeByAppearance(decode, tools, ps);
  }

  function Fragment(content: string, refusal: string, finish: string): Payload {
    Data(Chunk("", NoUsage, [ChunkChoice(0, finish, Some(Delta(content, refusal, [])))]))
  }

  lemma FragmentDeltas(content: string, refusal: string, finish: string, more: seq<Payload>)
    requires WellFormed(more)
    ensures WellFormed([Fragment(content, refusal, finish)] + more)
    ensures Deltas([Fragment(content, refusal, finish)] + more) == [Delta(content, refusal, [])] + Deltas(more)
    ensures LastFinish("", [Fragment(content, refusal, finish)] + more) == LastFinish(finish, more)
  {
    var ps := [Fragment(content, refusal, finish)] + more;
    var cs := ps[0].chunk.choices;
    assert ps[1..] == more && cs[1..] == [];
    assert ChoiceDeltas(cs) == [Delta(content, refusal, [])];
    assert ChoiceFinish("", cs) == ChoiceFinish(finish, cs[1..]) == finish;
  }

  /** A text fragment and then a refusal fragment: the stream is aborted, and the whole translation gives two message items. */
  lemma MixedIsAborted(decode: Decoder, tools: seq<FlatTool>)
    ensures var ps := [Fragment("a", "", "")] + ([Fragment("", "b", "stop")] + []);
            && WellFormed(ps) && WellFormedCalls(CallDeltas(Deltas(ps))) && IsMixed(ps)
            && (var bodies := Stream(decode, tools, ps); bodies != [] && bodies[|bodies| - 1].Aborted?)
            && (var whole := FromChat(decode, tools, Whole(ps, [])); whole.Success? && |whole.value.output| == 2)
  {
    var last := [Fragment("", "b", "stop")] + [];
    var ps := [Fragment("a", "", "")] + last;
    FragmentDeltas("", "b", "stop", []);
    FragmentDeltas("a", "", "", last);
    var ds := Deltas(ps);
    assert ds == [Delta("a", "", []), Delta("", "b", [])];
    TextOfTwo(ds[0], ds[1]);
    RaisesOnMixing(START.core);
    PayloadsRaise(START, ps);
  }

  lemma TextOfTwo(a: Delta, b: Delta)
    ensures Text([a, b], false) == a.content + b.content && Text([a, b], true) == a.refusal + b.refusal
    ensures CallDeltas([a, b]) == a.calls + b.calls
  {
    var ds := [a, b];
    assert ds[1..] == [b] && ds[1..][1..] == [];
    assert Text([b], false) == b.content + "" == b.content && Text([b], true) == b.refusal + "" == b.refusal;
    assert CallDeltas([b]) == b.calls + [] == b.calls;
  }

  lemma RaisesOnMixing(core: Core)
    requires core.message == None
    ensures FoldDeltas(core, [Delta("a", "", []), Delta("", "b", [])]).Raised?
  {
    var ds := [Delta("a", "", []), Delta("", "b", [])];
    assert ds[1..] == [Delta("", "b", [])];
    var first := OnDelta(core, ds[0]);
    assert first.Going? && first.core.message == Some(OutputText("" + "a"));
    assert OnDelta(first.core, ds[1..][0]).Raised?;
  }

  function ParseAll(parse: string -> Payload, texts: seq<string>): seq<Payload> {
    if |texts| == 0 then [] else [parse(texts[0])] + ParseAll(parse, texts[1..])
  }

  /** From text chunks to terminal event: neither chunking nor fragmentation shows. */
  lemma ChunksToResponse(decode: Decoder, tools: seq<FlatTool>, parse: string -> Payload, chunks: seq<string>)
    requires SseReader.NoStutter(PyText.Concat(chunks))
    requires WellFormed(ParseAll(parse, SseReader.Payloads(PyText.Concat(chunks))))
    ensures var ps := ParseAll(parse, SseReader.Payloads(PyText.Concat(chunks)));
            && WellFormedCalls(CallDeltas(Deltas(ps)))
            && var bodies := Stream(decode, tools, ParseAll(parse, SseReader.Read(chunks)));
               var whole := FromChat(decode, tools, Whole(ps, Seen([], CallDeltas(Deltas(ps)))));
               bodies != [] && (Agrees(bodies[|bodies| - 1], whole) <==> !IsMixed(ps) || whole.Failure?)
  {
    hide Stream, FromChat, Whole, WellFormed, IsMixed, ParseAll, SseReader.Payloads, SseReader.Read, Agrees, Seen, CallDeltas;
    SseReader.ChunkingInvariant(chunks);
    StreamingIsWholeByAppearance(decode, tools, ParseAll(parse, SseReader.Payloads(PyText.Concat(chunks))));
  }
}
