/**
 The incremental translation (sparkdeck/responses.py, stream_chat_response):
 first as functions of the upstream payloads, then as the adapter object whose
 fields the generator updates.
 */
module ResponsesStream {
  import opened Wrappers
  import opened Seqs
  import opened Responses

  // ----- upstream -----------------------------------------------------

  /** One entry of delta["tool_calls"]; null and missing fields are "". */
  datatype CallDelta = BadCall | CallDelta(index: int, id: string, name: string, arguments: string)

  datatype Delta = Delta(content: string, refusal: string, calls: seq<CallDelta>)

  /** A choice; `delta` is None when it is not an object. */
  datatype ChunkChoice = BadChoice | ChunkChoice(index: int, finish: string, delta: Option<Delta>)

  datatype ChunkUsage = NoUsage | BadUsage | SomeUsage(usage: ChatUsage)

  datatype Chunk = Chunk(error: string, usage: ChunkUsage, choices: seq<ChunkChoice>)

  /** A payload of the SSE reader: the end marker, a parsed chunk, or one that raises while it is read. */
  datatype Payload = DoneMarker | Broken | Data(chunk: Chunk)

  // ----- events -------------------------------------------------------

  datatype Kind = TextKind | RefusalKind | ArgumentsKind | InputKind

  datatype Body =
    | Created(response: Response)
    | Progress(response: Response)
    | ItemAdded(index: nat, item: Item)
    | PartAdded(index: nat, part: Part)
    | TextDelta(index: nat, kind: Kind, text: string)
    | ValueDone(index: nat, kind: Kind, text: string)
    | PartDone(index: nat, part: Part)
    | ItemDone(index: nat, item: Item)
    | Finished(response: Response)
    | Aborted(response: Response)

  datatype Event = Event(sequence: nat, body: Body)

  // ----- the translation as functions ---------------------------------

  /** The part of the state that deltas touch. */
  datatype Core = Core(message: Option<Part>, calls: seq<CallState>, log: seq<Body>)

  /** An entry of the insertion-ordered `calls` dictionary. */
  datatype CallState = CallState(index: int, call: ChatCall)

  datatype CoreStep = Going(core: Core) | Raised(core: Core)

  function PartKind(part: Part): Kind {
    if part.Refusal? then RefusalKind else TextKind
  }

  function EmptyPart(refusal: bool): Part {
    if refusal then Refusal("") else OutputText("")
  }

  /** A text fragment: the message item is begun on the first one. */
  function OnText(core: Core, text: string, refusal: bool): CoreStep {
    var begun := if core.message.Some? then core
                  else Core(Some(EmptyPart(refusal)), core.calls,
                            core.log + [ItemAdded(0, Message(InProgress, None)), PartAdded(0, EmptyPart(refusal))]);
    var part := begun.message.value;
    if refusal != part.Refusal? then Raised(begun)
    else
      Going(Core(Some(part.(text := part.text + text)), core.calls, begun.log + [TextDelta(0, PartKind(part), text)]))
  }

  /** Position of an index in the dictionary, or its size. */
  function Find(calls: seq<CallState>, index: int): (k: nat)
    ensures k <= |calls|
    ensures k < |calls| ==> calls[k].index == index
  {
    if |calls| == 0 || calls[0].index == index then 0 else 1 + Find(calls[1..], index)
  }

  function Extend(call: ChatCall, d: CallDelta): ChatCall
    requires d.CallDelta?
  {
    ChatCall(call.id + d.id, call.name + d.name, call.arguments + d.arguments)
  }

  /** setdefault, then the three concatenations. */
  function AddFragment(calls: seq<CallState>, d: CallDelta): seq<CallState>
    requires d.CallDelta?
  {
    var k := Find(calls, d.index);
    if k == |calls| then calls + [CallState(d.index, Extend(ChatCall("", "", ""), d))]
    else calls[k := CallState(d.index, Extend(calls[k].call, d))]
  }

  function OnCalls(core: Core, ds: seq<CallDelta>): CoreStep
    decreases |ds|
  {
    if |ds| == 0 then Going(core)
    else if ds[0].BadCall? then Raised(core)
    else OnCalls(core.(calls := AddFragment(core.calls, ds[0])), ds[1..])
  }

  function OnDelta(core: Core, d: Delta): CoreStep {
    var text := if d.content != "" then d.content else d.refusal;
    if text == "" then OnCalls(core, d.calls)
    else
      match OnText(core, text, d.refusal != "")
      case Raised(c) => Raised(c)
      case Going(c) => OnCalls(c, d.calls)
  }

  datatype State = State(core: Core, finish: string, usage: Option<Usage>)

  /** `Stopped` is the end marker, `Failing` a raised exception. */
  datatype Step = Running(state: State) | Stopped(state: State) | Failing(state: State)

  function OnChoice(st: State, c: ChunkChoice): Step {
    if c.BadChoice? then Failing(st)
    else if c.index != 0 then Running(st)
    else
      var st1 := if c.finish != "" then st.(finish := c.finish) else st;
      if c.delta.None? then Failing(st1)
      else
        match OnDelta(st1.core, c.delta.value)
        case Raised(core) => Failing(st1.(core := core))
        case Going(core) => Running(st1.(core := core))
  }

  function OnChoices(st: State, cs: seq<ChunkChoice>): Step
    decreases |cs|
  {
    if |cs| == 0 then Running(st)
    else
      var s := OnChoice(st, cs[0]);
      if s.Running? then OnChoices(s.state, cs[1..]) else s
  }

  function OnChunk(st: State, chunk: Chunk): Step {
    if chunk.error != "" then Failing(st)
    else
      match chunk.usage
      case BadUsage => Failing(st)
      case NoUsage => OnChoices(st, chunk.choices)
      case SomeUsage(u) => OnChoices(st.(usage := Some(UsageOf(u))), chunk.choices)
  }

  function OnPayload(st: State, p: Payload): Step {
    match p
    case DoneMarker => Stopped(st)
    case Broken => Failing(st)
    case Data(chunk) => OnChunk(st, chunk)
  }

  function OnPayloads(st: State, ps: seq<Payload>): Step
    decreases |ps|
  {
    if |ps| == 0 then Stopped(st)
    else
      var s := OnPayload(st, ps[0]);
      if s.Running? then OnPayloads(s.state, ps[1..]) else s
  }

  // ----- after the upstream -------------------------------------------

  function MessageOutput(message: Option<Part>): seq<Item> {
    if message.Some? then [Message(InProgress, message)] else []
  }

  function CallKind(item: Item): Kind {
    if item.CustomCall? then InputKind else ArgumentsKind
  }

  /** The events of one assembled call, published when its metadata is complete. */
  function PublishOne(index: nat, item: Item): seq<Body>
    requires !item.Message?
  {
    [ItemAdded(index, item.(value := "")), TextDelta(index, CallKind(item), item.value),
     ValueDone(index, CallKind(item), item.value)]
  }

  datatype Published = Published(items: seq<Item>, log: seq<Body>, ok: bool)

  function Publish(decode: Decoder, tools: seq<FlatTool>, calls: seq<CallState>, truncated: bool, base: nat): Published {
    if |calls| == 0 then Published([], [], true)
    else
      match CallItem(decode, tools, calls[0].call, InProgress, truncated)
      case Failure(_) => Published([], [], false)
      case Success(raw) =>
        var item := Restore(tools, raw);
        var rest := Publish(decode, tools, calls[1..], truncated, base + 1);
        Published([item] + rest.items, PublishOne(base, item) + rest.log, rest.ok)
  }

  /** The events that close one item, which carries its final status by then. */
  function CloseOne(index: nat, item: Item): seq<Body> {
    if item.Message? && item.part.Some? then
      [ValueDone(index, PartKind(item.part.value), item.part.value.text), PartDone(index, item.part.value),
       ItemDone(index, item)]
    else [ItemDone(index, item)]
  }

  function Close(items: seq<Item>, status: Status, base: nat): seq<Body> {
    if |items| == 0 then []
    else CloseOne(base, WithStatus(items[0], status)) + Close(items[1..], status, base + 1)
  }

  function AllWithStatus(items: seq<Item>, status: Status): (r: seq<Item>)
    ensures |r| == |items|
    ensures forall k :: 0 <= k < |r| ==> r[k] == WithStatus(items[k], status)
  {
    if |items| == 0 then [] else [WithStatus(items[0], status)] + AllWithStatus(items[1..], status)
  }

  function Abort(log: seq<Body>, output: seq<Item>, usage: Option<Usage>): seq<Body> {
    log + [Aborted(Response(Failed, output, usage, None, Some("upstream_error")))]
  }

  function Conclude(decode: Decoder, tools: seq<FlatTool>, st: State): seq<Body> {
    var head := MessageOutput(st.core.message);
    if st.finish == "" then Abort(st.core.log, head, st.usage)
    else
      var status := FinalStatus(st.finish);
      var p := Publish(decode, tools, st.core.calls, st.finish == "length", |head|);
      var output := head + p.items;
      if !p.ok then Abort(st.core.log + p.log, output, st.usage)
      else
        st.core.log + p.log + Close(output, status, 0)
        + [Finished(Response(status, AllWithStatus(output, status), st.usage, IncompleteReason(st.finish), None))]
  }

  const START := State(Core(None, [], [Created(FRESH), Progress(FRESH)]), "", None)

  /** Every event body of a run, in order. */
  function Stream(decode: Decoder, tools: seq<FlatTool>, payloads: seq<Payload>): seq<Body> {
    var end := OnPayloads(START, payloads);
    if end.Failing? then Abort(end.state.core.log, MessageOutput(end.state.core.message), end.state.usage)
    else Conclude(decode, tools, end.state)
  }

  // ----- the adapter object -------------------------------------------

  function Number(bodies: seq<Body>): seq<Event> {
    seq(|bodies|, i requires 0 <= i < |bodies| => Event(i, bodies[i]))
  }

  class StreamAdapter {
    const decode: Decoder
    const tools: seq<FlatTool>
    var response: Response
    var sequence: nat
    var message: bool
    var calls: seq<CallState>
    var finish: string
    var events: seq<Event>
    ghost var bodies: seq<Body>

    ghost predicate Numbered()
      reads this`events, this`sequence, this`bodies
    {
      events == Number(bodies) && sequence == |bodies|
    }

    /** What holds while upstream chunks are read: the output is the message, if there is one. */
    ghost predicate Valid()
      reads this
    {
      && Numbered()
      && response == Response(InProgress, MessageOutput(Part()), response.usage, None, None)
      && (message <==> response.output != [])
    }

    ghost function Part(): Option<Part>
      reads this
    {
      if |response.output| > 0 && response.output[0].Message? then response.output[0].part else None
    }

    ghost function View(): State
      reads this
    {
      State(Core(Part(), calls, bodies), finish, response.usage)
    }

    constructor (decode: Decoder, tools: seq<FlatTool>)
      ensures Valid() && View() == State(Core(None, [], []), "", None)
      ensures this.decode == decode && this.tools == tools
    {
      this.decode, this.tools := decode, tools;
      response, sequence, message, calls, finish, events := FRESH, 0, false, [], "", [];
      bodies := [];
    }

    /** event(): stamp the next sequence number on a body. */
    method Emit(body: Body)
      requires Numbered()
      modifies this`sequence, this`events, this`bodies
      ensures Numbered() && bodies == old(bodies) + [body]
    {
      events := events + [Event(sequence, body)];
      sequence := sequence + 1;
      bodies := bodies + [body];
    }

    method TakeText(text: string, refusal: bool) returns (ok: bool)
      requires Valid()
      modifies this`response, this`message, this`sequence, this`events, this`bodies
      ensures Valid()
      ensures match OnText(old(View().core), text, refusal)
              case Going(core) => ok && View() == old(View()).(core := core)
              case Raised(core) => !ok && View() == old(View()).(core := core)
    {
      if !message {
        message := true;
        response := response.(output := response.output + [Message(InProgress, None)]);
        Emit(ItemAdded(0, response.output[0]));
        response := response.(output := [Message(InProgress, Some(EmptyPart(refusal)))]);
        Emit(PartAdded(0, EmptyPart(refusal)));
        assert bodies == old(bodies) + [ItemAdded(0, Message(InProgress, None)), PartAdded(0, EmptyPart(refusal))];
      }
      var part := response.output[0].part.value;
      if refusal != part.Refusal? {
        return false;
      }
      response := response.(output := [Message(InProgress, Some(part.(text := part.text + text)))]);
      Emit(TextDelta(0, PartKind(part), text));
      return true;
    }

    method TakeCalls(ds: seq<CallDelta>) returns (ok: bool)
      requires Valid()
      modifies this`calls
      ensures Valid()
      ensures match OnCalls(old(View().core), ds)
              case Going(core) => ok && View() == old(View()).(core := core)
              case Raised(core) => !ok && View() == old(View()).(core := core)
    {
      assert ds[0..] == ds;
      for i := 0 to |ds|
        invariant Valid()
        invariant OnCalls(View().core, ds[i..]) == OnCalls(old(View().core), ds)
        invariant View() == old(View()).(core := old(View().core).(calls := calls))
      {
        assert ds[i..][0] == ds[i] && ds[i..][1..] == ds[i + 1..];
        if ds[i].BadCall? {
          return false;
        }
        var k := Find(calls, ds[i].index);
        if k == |calls| {
          calls := calls + [CallState(ds[i].index, Extend(ChatCall("", "", ""), ds[i]))];
        } else {
          calls := calls[k := CallState(ds[i].index, Extend(calls[k].call, ds[i]))];
        }
      }
      return true;
    }

    method TakeDelta(d: Delta) returns (ok: bool)
      requires Valid()
      modifies this`response, this`message, this`sequence, this`events, this`bodies, this`calls
      ensures Valid()
      ensures match OnDelta(old(View().core), d)
              case Going(core) => ok && View() == old(View()).(core := core)
              case Raised(core) => !ok && View() == old(View()).(core := core)
    {
      hide OnText, OnCalls;
      var text := if d.content != "" then d.content else d.refusal;
      if text != "" {
        ok := TakeText(text, d.refusal != "");
        if !ok {
          return;
        }
      }
      ok := TakeCalls(d.calls);
    }

    method TakeChoices(cs: seq<ChunkChoice>) returns (ok: bool)
      requires Valid()
      modifies this
      ensures Valid()
      ensures OnChoices(old(View()), cs) == if ok then Running(View()) else Failing(View())
    {
      hide OnDelta, Valid;
      assert cs[0..] == cs;
      for i := 0 to |cs|
        invariant Valid()
        invariant OnChoices(View(), cs[i..]) == OnChoices(old(View()), cs)
      {
        assert cs[i..][0] == cs[i] && cs[i..][1..] == cs[i + 1..];
        ok := TakeChoice(cs[i]);
        if !ok {
          return;
        }
      }
      ok := true;
    }

    method TakeChoice(c: ChunkChoice) returns (ok: bool)
      requires Valid()
      modifies this
      ensures Valid()
      ensures OnChoice(old(View()), c) == if ok then Running(View()) else Failing(View())
    {
      hide OnDelta;
      if c.BadChoice? {
        return false;
      }
      if c.index != 0 {
        return true;
      }
      if c.finish != "" {
        finish := c.finish;
      }
      if c.delta.None? {
        return false;
      }
      ok := TakeDelta(c.delta.value);
    }

    method TakeChunk(chunk: Chunk) returns (ok: bool)
      requires Valid()
      modifies this
      ensures Valid()
      ensures OnChunk(old(View()), chunk) == if ok then Running(View()) else Failing(View())
    {
      hide OnChoices;
      if chunk.error != "" || chunk.usage.BadUsage? {
        return false;
      }
      if chunk.usage.SomeUsage? {
        response := response.(usage := Some(UsageOf(chunk.usage.usage)));
      }
      ok := TakeChoices(chunk.choices);
    }

    /** The loop over the reader's payloads: stops at the end marker, at the end, or on an exception. */
    method TakePayloads(payloads: seq<Payload>) returns (ok: bool)
      requires Valid()
      modifies this
      ensures Valid()
      ensures OnPayloads(old(View()), payloads) == if ok then Stopped(View()) else Failing(View())
    {
      hide OnChunk, Valid;
      assert payloads[0..] == payloads;
      for i := 0 to |payloads|
        invariant Valid()
        invariant OnPayloads(View(), payloads[i..]) == OnPayloads(old(View()), payloads)
      {
        assert payloads[i..][0] == payloads[i] && payloads[i..][1..] == payloads[i + 1..];
        match payloads[i] {
          case DoneMarker => return true;
          case Broken => return false;
          case Data(chunk) =>
            ok := TakeChunk(chunk);
            if !ok {
              return;
            }
        }
      }
      ok := true;
    }

    /** Publish every assembled call, in dictionary order, until one does not decode. */
    method PublishCalls(truncated: bool) returns (ok: bool)
      requires Numbered()
      modifies this`response, this`sequence, this`events, this`bodies
      ensures Numbered()
      ensures var p := Publish(decode, tools, calls, truncated, old(|response.output|));
              && response == old(response).(output := old(response.output) + p.items)
              && bodies == old(bodies) + p.log && ok == p.ok
    {
      hide CallItem, Restore, Numbered;
      ghost var p := Publish(decode, tools, calls, truncated, |response.output|);
      assert calls[0..] == calls;
      for i := 0 to |calls|
        invariant Numbered()
        invariant response == old(response).(output := response.output)
        invariant Extends(old(response.output), p.items, response.output,
                          Publish(decode, tools, calls[i..], truncated, |response.output|).items)
        invariant Extends(old(bodies), p.log, bodies,
                          Publish(decode, tools, calls[i..], truncated, |response.output|).log)
        invariant Publish(decode, tools, calls[i..], truncated, |response.output|).ok == p.ok
      {
        assert calls[i..][0] == calls[i] && calls[i..][1..] == calls[i + 1..];
        var raw := CallItem(decode, tools, calls[i].call, InProgress, truncated);
        if raw.Failure? {
          ExtendsNothing(old(response.output), p.items, response.output);
          ExtendsNothing(old(bodies), p.log, bodies);
          return false;
        }
        var item := Restore(tools, raw.value);
        ghost var rest := Publish(decode, tools, calls[i + 1..], truncated, |response.output| + 1);
        ExtendsStep(old(response.output), p.items, response.output, [item], rest.items);
        ExtendsStep(old(bodies), p.log, bodies, PublishOne(|response.output|, item), rest.log);
        PublishCall(item);
      }
      assert calls[|calls|..] == [];
      ExtendsNothing(old(response.output), p.items, response.output);
      ExtendsNothing(old(bodies), p.log, bodies);
      ok := true;
    }

    method PublishCall(item: Item)
      requires Numbered() && !item.Message?
      modifies this`response, this`sequence, this`events, this`bodies
      ensures Numbered()
      ensures response == old(response).(output := old(response.output) + [item])
      ensures bodies == old(bodies) + PublishOne(old(|response.output|), item)
    {
      hide Numbered;
      var index := |response.output|;
      response := response.(output := response.output + [item.(value := "")]);
      Emit(ItemAdded(index, item.(value := "")));
      Emit(TextDelta(index, CallKind(item), item.value));
      response := response.(output := response.output[index := item]);
      Emit(ValueDone(index, CallKind(item), item.value));
      assert response.output == old(response.output) + [item];
      assert bodies == old(bodies) + PublishOne(index, item);
    }

    /** Give every item its final status and emit its closing events. */
    method CloseItems(status: Status)
      requires Numbered()
      modifies this`response, this`sequence, this`events, this`bodies
      ensures Numbered()
      ensures response == old(response).(output := AllWithStatus(old(response.output), status))
      ensures bodies == old(bodies) + Close(old(response.output), status, 0)
    {
      hide Numbered, CloseOne;
      ghost var before := response.output;
      ghost var all := Close(before, status, 0);
      assert before[0..] == before;
      for i := 0 to |response.output|
        invariant Numbered() && |response.output| == |before|
        invariant response == old(response).(output := response.output)
        invariant forall k :: 0 <= k < |before| ==> response.output[k] == if k < i then WithStatus(before[k], status) else before[k]
        invariant Extends(old(bodies), all, bodies, Close(before[i..], status, i))
      {
        assert before[i..][0] == before[i] && before[i..][1..] == before[i + 1..];
        var item := WithStatus(response.output[i], status);
        response := response.(output := response.output[i := item]);
        ExtendsStep(old(bodies), all, bodies, CloseOne(i, item), Close(before[i + 1..], status, i + 1));
        EmitClose(i, item);
      }
      assert before[|before|..] == [];
      ExtendsNothing(old(bodies), all, bodies);
      assert response.output == AllWithStatus(before, status);
    }

    method EmitClose(index: nat, item: Item)
      requires Numbered()
      modifies this`sequence, this`events, this`bodies
      ensures Numbered() && bodies == old(bodies) + CloseOne(index, item)
    {
      hide Numbered;
      if item.Message? && item.part.Some? {
        var part := item.part.value;
        Emit(ValueDone(index, PartKind(part), part.text));
        Emit(PartDone(index, part));
      }
      Emit(ItemDone(index, item));
      assert bodies == old(bodies) + CloseOne(index, item);
    }

    method EmitAbort()
      requires Numbered()
      modifies this`response, this`sequence, this`events, this`bodies
      ensures Numbered()
      ensures response.usage == old(response.usage) && response.output == old(response.output)
      ensures old(response.incompleteReason) == None
          ==> bodies == Abort(old(bodies), old(response.output), old(response.usage))
    {
      response := response.(status := Failed, error := Some("upstream_error"));
      Emit(Aborted(response));
    }

    /** The whole generator. */
    method Run(payloads: seq<Payload>)
      requires Valid() && View() == State(Core(None, [], []), "", None)
      modifies this
      ensures bodies == Stream(decode, tools, payloads) && events == Number(bodies)
    {
      hide OnPayloads, Publish, Close;
      Emit(Created(response));
      Emit(Progress(response));
      assert View() == START;
      var ok := TakePayloads(payloads);
      if !ok {
        EmitAbort();
        return;
      }
      ok := ConcludeRun();
      if !ok {
        EmitAbort();
      }
    }

    /** Everything after the upstream, up to the first exception. */
    method ConcludeRun() returns (ok: bool)
      requires Valid()
      modifies this
      ensures Numbered()
      ensures response.incompleteReason == None || ok
      ensures if ok then bodies == Conclude(decode, tools, old(View()))
              else Abort(bodies, response.output, response.usage) == Conclude(decode, tools, old(View()))
    {
      hide Publish, Close;
      if finish == "" {
        return false;
      }
      var status := FinalStatus(finish);
      ok := PublishCalls(finish == "length");
      if !ok {
        return;
      }
      CloseItems(status);
      response := response.(status := status, incompleteReason := IncompleteReason(finish));
      Emit(Finished(response));
    }
  }
}
