/**
 The event-stream protocol that every run of the incremental translation keeps,
 whether the upstream is well formed or not.
 */
module ResponsesProtocol {
  import opened Wrappers
  import opened Seqs
  import opened Responses
  import opened ResponsesStream

  predicate IsTerminal(b: Body) {
    b.Finished? || b.Aborted?
  }

  predicate NoTerminal(bodies: seq<Body>) {
    forall i :: 0 <= i < |bodies| ==> !IsTerminal(bodies[i])
  }

  predicate HasIndex(b: Body, k: nat) {
    match b
    case ItemAdded(i, _) => i == k
    case PartAdded(i, _) => i == k
    case TextDelta(i, _, _) => i == k
    case ValueDone(i, _, _) => i == k
    case PartDone(i, _) => i == k
    case ItemDone(i, _) => i == k
    case _ => false
  }

  /** The events about output item k, in order. */
  function At(bodies: seq<Body>, k: nat): seq<Body> {
    if |bodies| == 0 then []
    else (if HasIndex(bodies[0], k) then [bodies[0]] else []) + At(bodies[1..], k)
  }

  predicate AllDeltas(ds: seq<Body>, k: nat, kind: Kind) {
    forall i :: 0 <= i < |ds| ==> ds[i].TextDelta? && ds[i].index == k && ds[i].kind == kind
  }

  function DeltaText(ds: seq<Body>): string {
    if |ds| == 0 then ""
    else DeltaText(ds[..|ds| - 1]) + (if ds[|ds| - 1].TextDelta? then ds[|ds| - 1].text else "")
  }

  /** A message as it opens: the bare item, its empty part, then deltas that add up to its text. */
  predicate OpenMessage(es: seq<Body>, k: nat, part: Part) {
    && |es| >= 2
    && es[0] == ItemAdded(k, Message(InProgress, None))
    && es[1] == PartAdded(k, part.(text := ""))
    && AllDeltas(es[2..], k, if part.Refusal? then RefusalKind else TextKind)
    && DeltaText(es[2..]) == part.text
  }

  /**
   The life of one item: added once, first, and empty; deltas that add up to the
   value announced as done; done once, last, exactly as the terminal response
   lists it.
   */
  predicate Life(es: seq<Body>, k: nat, item: Item) {
    if item.Message? then
      && item.part.Some? && |es| >= 3
      && OpenMessage(es[..|es| - 3], k, item.part.value)
      && es[|es| - 3..] == [ValueDone(k, if item.part.value.Refusal? then RefusalKind else TextKind, item.part.value.text),
                            PartDone(k, item.part.value), ItemDone(k, item)]
    else
      && |es| == 4
      && es[0].ItemAdded? && es[0].index == k && WithStatus(es[0].item, item.status) == item.(value := "")
      && es[1] == TextDelta(k, if item.CustomCall? then InputKind else ArgumentsKind, item.value)
      && es[2] == ValueDone(k, if item.CustomCall? then InputKind else ArgumentsKind, item.value)
      && es[3] == ItemDone(k, item)
  }

  // ----- while the upstream is read -------------------------------------

  /** The log so far: the two opening events and the message as far as it has come. */
  predicate Reading(core: Core) {
    && |core.log| >= 2
    && core.log[0] == Created(FRESH) && core.log[1] == Progress(FRESH)
    && if core.message.Some? then OpenMessage(core.log[2..], 0, core.message.value) else |core.log| == 2
  }

  lemma OnTextReads(core: Core, text: string, refusal: bool)
    requires Reading(core)
    ensures Reading(OnText(core, text, refusal).core)
  {
    hide OpenMessage;
    var empty := EmptyPart(refusal);
    var begun := if core.message.Some? then core
                 else Core(Some(empty), core.calls,
                           core.log + [ItemAdded(0, Message(InProgress, None)), PartAdded(0, empty)]);
    assert Reading(begun) by {
      if core.message.None? {
        assert begun.log[2..] == [ItemAdded(0, Message(InProgress, None)), PartAdded(0, empty)];
        OpenMessageStarts(empty);
      }
    }
    var part := begun.message.value;
    if refusal == part.Refusal? {
      var d := TextDelta(0, PartKind(part), text);
      assert (begun.log + [d])[2..] == begun.log[2..] + [d];
      OpenMessageGrows(begun.log[2..], part, text);
    }
  }

  lemma OpenMessageGrows(es: seq<Body>, part: Part, text: string)
    requires OpenMessage(es, 0, part)
    ensures OpenMessage(es + [TextDelta(0, PartKind(part), text)], 0, part.(text := part.text + text))
  {
    hide DeltaText;
    var d := TextDelta(0, PartKind(part), text);
    DeltaTextSnoc(es[2..], d);
    assert (es + [d])[2..] == es[2..] + [d];
  }

  lemma OpenMessageStarts(empty: Part)
    requires empty.text == ""
    ensures OpenMessage([ItemAdded(0, Message(InProgress, None)), PartAdded(0, empty)], 0, empty)
  {
    assert [ItemAdded(0, Message(InProgress, None)), PartAdded(0, empty)][2..] == [];
  }

  lemma DeltaTextSnoc(ds: seq<Body>, d: Body)
    ensures DeltaText(ds + [d]) == DeltaText(ds) + if d.TextDelta? then d.text else ""
  {
    assert (ds + [d])[..|ds|] == ds;
  }

  lemma {:induction false} OnCallsReads(core: Core, ds: seq<CallDelta>)
    requires Reading(core)
    ensures Reading(OnCalls(core, ds).core)
    decreases |ds|
  {
    hide OpenMessage;
    if |ds| > 0 && ds[0].CallDelta? {
      OnCallsReads(core.(calls := AddFragment(core.calls, ds[0])), ds[1..]);
    }
  }

  lemma OnDeltaReads(core: Core, d: Delta)
    requires Reading(core)
    ensures Reading(OnDelta(core, d).core)
  {
    hide Reading, OnText, OnCalls;
    var text := if d.content != "" then d.content else d.refusal;
    if text == "" {
      OnCallsReads(core, d.calls);
    } else {
      OnTextReads(core, text, d.refusal != "");
      if OnText(core, text, d.refusal != "").Going? {
        OnCallsReads(OnText(core, text, d.refusal != "").core, d.calls);
      }
    }
  }

  lemma {:induction false} OnChoicesReads(st: State, cs: seq<ChunkChoice>)
    requires Reading(st.core)
    ensures Reading(OnChoices(st, cs).state.core)
    decreases |cs|
  {
    hide Reading, OnDelta;
    if |cs| > 0 {
      if cs[0].ChunkChoice? && cs[0].delta.Some? {
        OnDeltaReads(st.core, cs[0].delta.value);
      }
      var s := OnChoice(st, cs[0]);
      if s.Running? {
        OnChoicesReads(s.state, cs[1..]);
      }
    }
  }

  lemma {:induction false} OnPayloadsReads(st: State, ps: seq<Payload>)
    requires Reading(st.core)
    ensures Reading(OnPayloads(st, ps).state.core)
    decreases |ps|
  {
    hide Reading, OnChoices;
    if |ps| > 0 {
      if ps[0].Data? {
        var chunk := ps[0].chunk;
        OnChoicesReads(st, chunk.choices);
        if chunk.usage.SomeUsage? {
          OnChoicesReads(st.(usage := Some(UsageOf(chunk.usage.usage))), chunk.choices);
        }
      }
      var s := OnPayload(st, ps[0]);
      if s.Running? {
        OnPayloadsReads(s.state, ps[1..]);
      }
    }
  }

  // ----- the events of one item ------------------------------------------

  lemma {:induction false} AtAppend(a: seq<Body>, b: seq<Body>, k: nat)
    ensures At(a + b, k) == At(a, k) + At(b, k)
  {
    hide HasIndex;
    if |a| == 0 {
      assert a + b == b;
    } else {
      AtAppend(a[1..], b, k);
      TailAppend(a, b);
      Assoc(if HasIndex(a[0], k) then [a[0]] else [], At(a[1..], k), At(b, k));
    }
  }

  /** Events that are all about item k are found at k and nowhere else. */
  lemma {:induction false} AtAll(bodies: seq<Body>, k: nat, j: nat)
    requires forall i :: 0 <= i < |bodies| ==> HasIndex(bodies[i], k)
    ensures At(bodies, j) == if j == k then bodies else []
  {
    if |bodies| > 0 {
      AtAll(bodies[1..], k, j);
      HeadTail(bodies);
    }
  }

  lemma AtNone(b: Body, j: nat)
    requires forall k: nat :: !HasIndex(b, k)
    ensures At([b], j) == []
  {
    assert [b][1..] == [];
  }

  lemma {:induction false} PublishedAreCalls(decode: Decoder, tools: seq<FlatTool>, calls: seq<CallState>, truncated: bool, base: nat)
    ensures forall i :: 0 <= i < |Publish(decode, tools, calls, truncated, base).items|
                    ==> !Publish(decode, tools, calls, truncated, base).items[i].Message?
  {
    hide CallItem, Restore;
    if |calls| > 0 {
      PublishedAreCalls(decode, tools, calls[1..], truncated, base + 1);
    }
  }

  /** What item j's publication looks like among the items from base on. */
  function PublishedAt(items: seq<Item>, base: nat, j: nat): seq<Body> {
    if base <= j < base + |items| && !items[j - base].Message? then PublishOne(j, items[j - base]) else []
  }

  lemma {:induction false} AtPublish(decode: Decoder, tools: seq<FlatTool>, calls: seq<CallState>, truncated: bool, base: nat, j: nat)
    ensures var p := Publish(decode, tools, calls, truncated, base);
            At(p.log, j) == PublishedAt(p.items, base, j)
  {
    hide CallItem, Restore, At;
    AtNothing(j);
    if |calls| > 0 {
      var raw := CallItem(decode, tools, calls[0].call, InProgress, truncated);
      if raw.Success? {
        var item := Restore(tools, raw.value);
        var rest := Publish(decode, tools, calls[1..], truncated, base + 1);
        AtPublish(decode, tools, calls[1..], truncated, base + 1, j);
        AtAppend(PublishOne(base, item), rest.log, j);
        AtAll(PublishOne(base, item), base, j);
        PublishedAtCons(item, rest.items, base, j);
      }
    }
  }

  lemma AtNothing(j: nat)
    ensures At([], j) == []
  {
  }

  lemma PublishedAtCons(item: Item, items: seq<Item>, base: nat, j: nat)
    requires !item.Message?
    ensures PublishedAt([item] + items, base, j) == (if j == base then PublishOne(base, item) else []) + PublishedAt(items, base + 1, j)
  {
    hide PublishOne;
  }

  lemma {:induction false} AtClose(items: seq<Item>, status: Status, base: nat, j: nat)
    ensures At(Close(items, status, base), j)
         == if base <= j < base + |items| then CloseOne(j, WithStatus(items[j - base], status)) else []
  {
    if |items| > 0 {
      var head := CloseOne(base, WithStatus(items[0], status));
      AtClose(items[1..], status, base + 1, j);
      AtAppend(head, Close(items[1..], status, base + 1), j);
      AtAll(head, base, j);
    }
  }

  lemma AtReading(core: Core, j: nat)
    requires Reading(core)
    ensures At(core.log, j) == if j == 0 && core.message.Some? then core.log[2..] else []
  {
    hide DeltaText;
    var l := core.log;
    AtNone(l[0], j);
    AtNone(l[1], j);
    assert l == [l[0]] + ([l[1]] + l[2..]);
    AtAppend([l[0]], [l[1]] + l[2..], j);
    AtAppend([l[1]], l[2..], j);
    if core.message.Some? {
      var es := l[2..];
      assert forall i :: 2 <= i < |es| ==> es[i] == es[2..][i - 2];
    }
    AtAll(l[2..], 0, j);
  }

  // ----- no terminal event before the last --------------------------------

  lemma {:induction false} PublishNotTerminal(decode: Decoder, tools: seq<FlatTool>, calls: seq<CallState>, truncated: bool, base: nat)
    ensures NoTerminal(Publish(decode, tools, calls, truncated, base).log)
  {
    hide CallItem, Restore;
    if |calls| > 0 {
      PublishNotTerminal(decode, tools, calls[1..], truncated, base + 1);
    }
  }

  lemma {:induction false} CloseNotTerminal(items: seq<Item>, status: Status, base: nat)
    ensures NoTerminal(Close(items, status, base))
  {
    if |items| > 0 {
      CloseNotTerminal(items[1..], status, base + 1);
    }
  }

  lemma ReadingNotTerminal(core: Core)
    requires Reading(core)
    ensures NoTerminal(core.log)
  {
    hide DeltaText;
    if core.message.Some? {
      var es := core.log[2..];
      assert forall i :: 4 <= i < |core.log| ==> core.log[i] == es[2..][i - 4];
      assert core.log[2] == es[0] && core.log[3] == es[1];
    }
  }

  // ----- the protocol -------------------------------------------------------

  /** Every run: two opening events, then exactly one terminal event, at the very end. */
  lemma OneTerminalEvent(decode: Decoder, tools: seq<FlatTool>, ps: seq<Payload>)
    ensures var b := Stream(decode, tools, ps);
            && |b| >= 3 && b[0] == Created(FRESH) && b[1] == Progress(FRESH)
            && forall i :: 0 <= i < |b| ==> (IsTerminal(b[i]) <==> i == |b| - 1)
  {
    hide OnPayloads, Publish, Close, Reading;
    ReadingStart();
    OnPayloadsReads(START, ps);
    var st := OnPayloads(START, ps).state;
    ReadingNotTerminal(st.core);
    ReadingOpens(st.core);
    var head := MessageOutput(st.core.message);
    var p := Publish(decode, tools, st.core.calls, st.finish == "length", |head|);
    PublishNotTerminal(decode, tools, st.core.calls, st.finish == "length", |head|);
    CloseNotTerminal(head + p.items, FinalStatus(st.finish), 0);
  }

  lemma ReadingStart()
    ensures Reading(START.core)
  {
  }

  lemma ReadingOpens(core: Core)
    requires Reading(core)
    ensures |core.log| >= 2 && core.log[0] == Created(FRESH) && core.log[1] == Progress(FRESH)
  {
  }

  /** On a run that is not aborted, the events about each output item are exactly its life, and there are no others. */
  lemma EveryItemHasItsLife(decode: Decoder, tools: seq<FlatTool>, ps: seq<Payload>, k: nat)
    requires var b := Stream(decode, tools, ps); b != [] && b[|b| - 1].Finished?
    ensures var b := Stream(decode, tools, ps);
            var output := b[|b| - 1].response.output;
            if k < |output| then Life(At(b, k), k, output[k]) else At(b, k) == []
  {
    hide OnPayloads, Publish, Close, Reading;
    ReadingStart();
    OnPayloadsReads(START, ps);
    var st := OnPayloads(START, ps).state;
    FinishedLife(decode, tools, st, k);
  }

  /** Item k's events on a finished run: its part of the log, its publication, its close. */
  lemma AtFinished(decode: Decoder, tools: seq<FlatTool>, st: State, k: nat)
    requires Reading(st.core)
    requires var b := Conclude(decode, tools, st); b != [] && b[|b| - 1].Finished?
    ensures var b, head, status := Conclude(decode, tools, st), MessageOutput(st.core.message), FinalStatus(st.finish);
            var p := Publish(decode, tools, st.core.calls, st.finish == "length", |head|);
            && b[|b| - 1].response.output == AllWithStatus(head + p.items, status)
            && At(b, k) == At(st.core.log, k) + At(p.log, k) + At(Close(head + p.items, status, 0), k) + []
  {
    hide Publish, Close, Reading, At;
    var head := MessageOutput(st.core.message);
    var status := FinalStatus(st.finish);
    var p := Publish(decode, tools, st.core.calls, st.finish == "length", |head|);
    var close := Close(head + p.items, status, 0);
    var b := Conclude(decode, tools, st);
    var last := b[|b| - 1];
    AtNone(last, k);
    AtAppend(st.core.log + p.log + close, [last], k);
    AtAppend(st.core.log + p.log, close, k);
    AtAppend(st.core.log, p.log, k);
  }

  lemma FinishedLife(decode: Decoder, tools: seq<FlatTool>, st: State, k: nat)
    requires Reading(st.core)
    requires var b := Conclude(decode, tools, st); b != [] && b[|b| - 1].Finished?
    ensures var b := Conclude(decode, tools, st);
            var output := b[|b| - 1].response.output;
            if k < |output| then Life(At(b, k), k, output[k]) else At(b, k) == []
  {
    hide *;
    AtFinished(decode, tools, st, k);
    var head := MessageOutput(st.core.message);
    var p := Publish(decode, tools, st.core.calls, st.finish == "length", |head|);
    AtReading(st.core, k);
    PublishedAreCalls(decode, tools, st.core.calls, st.finish == "length", |head|);
    AtPublish(decode, tools, st.core.calls, st.finish == "length", |head|, k);
    AtClose(head + p.items, FinalStatus(st.finish), 0, k);
    LifeOfParts(st.core, head, p.items, FinalStatus(st.finish), k);
  }

  lemma LifeOfParts(core: Core, head: seq<Item>, items: seq<Item>, status: Status, k: nat)
    requires Reading(core) && head == MessageOutput(core.message)
    requires forall i :: 0 <= i < |items| ==> !items[i].Message?
    ensures var read := if k == 0 && core.message.Some? then core.log[2..] else [];
            var close := if 0 <= k < 0 + |head + items| then CloseOne(k, WithStatus((head + items)[k - 0], status)) else [];
            var output, es := AllWithStatus(head + items, status), read + PublishedAt(items, |head|, k) + close + [];
            if k < |output| then Life(es, k, output[k]) else es == []
  {
    hide *;
    var all := head + items;
    HeadIsMessage(core, head);
    PublishedWhere(items, |head|, k);
    if k < |head| {
      assert AllWithStatus(all, status)[k] == WithStatus(all[k], status);
      HeadItem(core, head, status);
      MessageLife(core, WithStatus(head[0], status));
    } else if k < |all| {
      assert AllWithStatus(all, status)[k] == WithStatus(all[k], status);
      CallLife(items[k - |head|], status, k);
    }
  }

  lemma HeadIsMessage(core: Core, head: seq<Item>)
    requires head == MessageOutput(core.message)
    ensures |head| == if core.message.Some? then 1 else 0
  {
  }

  lemma HeadItem(core: Core, head: seq<Item>, status: Status)
    requires head == MessageOutput(core.message) && core.message.Some?
    ensures WithStatus(head[0], status).Message? && WithStatus(head[0], status).part == core.message
  {
  }

  lemma PublishedWhere(items: seq<Item>, base: nat, j: nat)
    requires forall i :: 0 <= i < |items| ==> !items[i].Message?
    ensures PublishedAt(items, base, j) == if base <= j < base + |items| then PublishOne(j, items[j - base]) else []
  {
    hide PublishOne;
  }

  lemma CallLife(item: Item, status: Status, k: nat)
    requires !item.Message?
    ensures Life([] + PublishOne(k, item) + CloseOne(k, WithStatus(item, status)) + [], k, WithStatus(item, status))
  {
  }

  lemma MessageLife(core: Core, item: Item)
    requires Reading(core) && core.message.Some? && item.Message? && item.part == core.message
    ensures Life(core.log[2..] + [] + CloseOne(0, item) + [], 0, item)
  {
    hide OpenMessage;
    var es := core.log[2..] + [] + CloseOne(0, item) + [];
    assert es[..|es| - 3] == core.log[2..];
    assert es[|es| - 3..] == CloseOne(0, item);
  }

  // ----- the kinds of deltas and done events -------------------------------------

  /** A delta or done event is about a listed item, and of the kind that the item is. */
  predicate KindFits(b: Body, output: seq<Item>) {
    b.TextDelta? || b.ValueDone? ==>
      && b.index < |output|
      && match output[b.index]
         case Message(_, Some(OutputText(_))) => b.kind == TextKind
         case Message(_, Some(Refusal(_))) => b.kind == RefusalKind
         case Message(_, None) => false
         case FunctionCall(_, _, _, _, _) => b.kind == ArgumentsKind
         case CustomCall(_, _, _, _, _) => b.kind == InputKind
  }

  predicate KindsFit(bodies: seq<Body>, output: seq<Item>) {
    forall i :: 0 <= i < |bodies| ==> KindFits(bodies[i], output)
  }

  lemma KindsFitAppend(a: seq<Body>, b: seq<Body>, output: seq<Item>)
    requires KindsFit(a, output) && KindsFit(b, output)
    ensures KindsFit(a + b, output)
  {
  }

  lemma ReadingKindsFit(core: Core, items: seq<Item>)
    requires Reading(core)
    ensures KindsFit(core.log, MessageOutput(core.message) + items)
  {
    hide DeltaText;
    var l := core.log;
    forall i | 0 <= i < |l| ensures KindFits(l[i], MessageOutput(core.message) + items) {
      if i >= 2 {
        var es := l[2..];
        assert l[i] == es[i - 2];
        if i >= 4 {
          assert es[2..][i - 4] == l[i];
        }
      }
    }
  }

  lemma {:induction false} PublishKindsFit(decode: Decoder, tools: seq<FlatTool>, calls: seq<CallState>, truncated: bool, head: seq<Item>)
    ensures var p := Publish(decode, tools, calls, truncated, |head|); KindsFit(p.log, head + p.items)
    decreases |calls|
  {
    hide CallItem, Restore;
    if |calls| > 0 {
      var raw := CallItem(decode, tools, calls[0].call, InProgress, truncated);
      if raw.Success? {
        var item := Restore(tools, raw.value);
        var rest := Publish(decode, tools, calls[1..], truncated, |head| + 1);
        PublishKindsFit(decode, tools, calls[1..], truncated, head + [item]);
        Assoc(head, [item], rest.items);
        assert (head + ([item] + rest.items))[|head|] == item;
        KindsFitAppend(PublishOne(|head|, item), rest.log, head + ([item] + rest.items));
      }
    }
  }

  lemma {:induction false} CloseKindsFit(items: seq<Item>, status: Status, head: seq<Item>)
    requires forall i :: 0 <= i < |items| && items[i].Message? ==> items[i].part.Some?
    ensures KindsFit(Close(items, status, |head|), head + items)
    decreases |items|
  {
    if |items| > 0 {
      CloseKindsFit(items[1..], status, head + [items[0]]);
      assert head + [items[0]] + items[1..] == head + items;
      KindsFitAppend(CloseOne(|head|, WithStatus(items[0], status)), Close(items[1..], status, |head| + 1), head + items);
    }
  }

  /** Status changes leave the kinds alone. */
  lemma KindsFitWithStatus(bodies: seq<Body>, output: seq<Item>, status: Status)
    requires KindsFit(bodies, output)
    ensures KindsFit(bodies, AllWithStatus(output, status))
  {
    hide AllWithStatus;
    forall i | 0 <= i < |bodies| ensures KindFits(bodies[i], AllWithStatus(output, status)) {
      assert KindFits(bodies[i], output);
    }
  }

  /**
   Every run, well formed or not, aborted or not: each delta and done event is about
   an item that the terminal response lists, and is of that item's kind.
   */
  lemma EventKindsFit(decode: Decoder, tools: seq<FlatTool>, ps: seq<Payload>)
    ensures var b := Stream(decode, tools, ps); b != [] && IsTerminal(b[|b| - 1]) && KindsFit(b, b[|b| - 1].response.output)
  {
    hide OnPayloads, Publish, Close, Reading, KindFits, AllWithStatus;
    ReadingStart();
    OnPayloadsReads(START, ps);
    var end := OnPayloads(START, ps);
    if end.Failing? || end.state.finish == "" {
      ReadingKindsFit(end.state.core, []);
      var head := MessageOutput(end.state.core.message);
      assert head + [] == head;
      AbortKindsFit(end.state.core.log, head, end.state.usage);
    } else {
      ConcludeKindsFit(decode, tools, end.state);
    }
  }

  lemma TerminalFits(last: Body, output: seq<Item>)
    requires IsTerminal(last)
    ensures KindFits(last, output)
  {
  }

  lemma AbortKindsFit(log: seq<Body>, output: seq<Item>, usage: Option<Usage>)
    requires KindsFit(log, output)
    ensures var b := Abort(log, output, usage);
            b != [] && IsTerminal(b[|b| - 1]) && b[|b| - 1].response.output == output && KindsFit(b, output)
  {
    hide KindFits;
    TerminalFits(Abort(log, output, usage)[|log|], output);
  }

  lemma ConcludeKindsFit(decode: Decoder, tools: seq<FlatTool>, st: State)
    requires Reading(st.core) && st.finish != ""
    ensures var b := Conclude(decode, tools, st);
            b != [] && IsTerminal(b[|b| - 1]) && KindsFit(b, b[|b| - 1].response.output)
  {
    hide Publish, Close, Reading, KindsFit, AllWithStatus;
    var head := MessageOutput(st.core.message);
    var status := FinalStatus(st.finish);
    var p := Publish(decode, tools, st.core.calls, st.finish == "length", |head|);
    var output := head + p.items;
    ReadingKindsFit(st.core, p.items);
    PublishKindsFit(decode, tools, st.core.calls, st.finish == "length", head);
    KindsFitAppend(st.core.log, p.log, output);
    if !p.ok {
      AbortKindsFit(st.core.log + p.log, output, st.usage);
    } else {
      PublishedAreCalls(decode, tools, st.core.calls, st.finish == "length", |head|);
      CloseKindsFit(output, status, []);
      assert [] + output == output;
      KindsFitAppend(st.core.log + p.log, Close(output, status, 0), output);
      KindsFitWithStatus(st.core.log + p.log + Close(output, status, 0), output, status);
      var last := Finished(Response(status, AllWithStatus(output, status), st.usage, IncompleteReason(st.finish), None));
      LastFits(st.core.log + p.log + Close(output, status, 0), last);
    }
  }

  lemma LastFits(bodies: seq<Body>, last: Body)
    requires IsTerminal(last) && KindsFit(bodies, last.response.output)
    ensures KindsFit(bodies + [last], last.response.output)
  {
  }

  // ----- how runs end --------------------------------------------------------------

  /** A run that is aborted says so: a failed response with the error and no reason; one that finishes has neither error nor failure. */
  lemma TerminalSays(decode: Decoder, tools: seq<FlatTool>, ps: seq<Payload>)
    ensures var b := Stream(decode, tools, ps);
            b != [] && match b[|b| - 1]
                       case Aborted(r) => r.status == Failed && r.error == Some("upstream_error") && r.incompleteReason == None
                       case Finished(r) => (r.status == Completed || r.status == Incomplete) && r.error == None
                                           && (r.incompleteReason.Some? <==> r.status == Incomplete)
                       case _ => false
  {
    hide OnPayloads, Publish, Close, AllWithStatus;
  }

  /**
   What a delta brought before it raised is kept: its text is announced and in the
   message, the calls before the malformed one are collected, and its finish reason counts.
   */
  lemma RaisingKeeps(st: State, c: ChunkChoice)
    requires c.ChunkChoice? && c.index == 0 && c.delta.Some?
    ensures var t := OnChoice(st, c).state;
            && t.core == OnDelta(st.core, c.delta.value).core && t.usage == st.usage
            && t.finish == (if c.finish != "" then c.finish else st.finish)
    ensures var d, t := c.delta.value, OnChoice(st, c).state;
            d.content != "" && d.refusal == "" && (st.core.message.Some? ==> st.core.message.value.OutputText?) ==>
              && t.core.message.Some? && |t.core.log| > 0
              && t.core.message == Some(OutputText((if st.core.message.Some? then st.core.message.value.text else "") + d.content))
              && t.core.log[|t.core.log| - 1] == TextDelta(0, TextKind, d.content)
  {
    hide OnCalls;
    CallsLeaveText(if c.delta.value.content != "" && OnText(st.core, c.delta.value.content, c.delta.value.refusal != "").Going?
                   then OnText(st.core, c.delta.value.content, c.delta.value.refusal != "").core else st.core, c.delta.value.calls);
  }

  lemma {:induction false} CallsLeaveText(core: Core, ds: seq<CallDelta>)
    ensures OnCalls(core, ds).core.message == core.message && OnCalls(core, ds).core.log == core.log
    decreases |ds|
  {
    if |ds| > 0 && ds[0].CallDelta? {
      CallsLeaveText(core.(calls := AddFragment(core.calls, ds[0])), ds[1..]);
    }
  }
}
