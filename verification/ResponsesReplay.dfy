/**
 The stateless round trip (sparkdeck/responses.py, _to_chat_request): what the
 adapter put out, sent back as input, is again the assistant turn it came from.
 */
module ResponsesReplay {
  import opened Wrappers
  import opened Seqs
  import opened Responses
  import PyText

  // ----- request input ------------------------------------------------

  /** A content part. The three text kinds are one; other kinds are not supported. */
  datatype ContentPart =
    | TextPart(text: string)
    | ImagePart(url: string, detail: string)
    | RefusalPart(text: string)
    | OtherPart

  datatype Content = Plain(text: string) | Parts(parts: seq<ContentPart>) | BadContent

  /** An input item; a missing namespace is "". `Malformed` lacks a required field. */
  datatype InputItem =
    | MessageIn(role: string, content: Content)
    | CallIn(custom: bool, callId: string, name: string, namespace: string, payload: string)
    | ResultIn(callId: string, output: Content)
    | MalformedIn

  datatype ChatPart = ChatText(text: string) | ChatImage(url: string, detail: string)

  datatype ChatContent = NullContent | TextContent(text: string) | PartContent(parts: seq<ChatPart>)

  datatype Turn = Turn(role: string, content: ChatContent, calls: seq<ChatCall>, toolCallId: string)

  function ChatParts(parts: seq<ContentPart>, toolOutput: bool): Result<seq<ChatPart>, string> {
    if |parts| == 0 then Success([])
    else
      var part := match parts[0]
        case TextPart(t) => Success(ChatText(t))
        case RefusalPart(t) => Success(ChatText(t))
        case ImagePart(url, detail) =>
          if toolOutput then Failure("Unsupported Responses content type")
          else if url == "" then Failure("input_image requires image_url; uploaded files are not supported")
          else Success(ChatImage(url, detail))
        case OtherPart => Failure("Unsupported Responses content type");
      if part.Failure? then Failure(part.error)
      else
        match ChatParts(parts[1..], toolOutput)
        case Failure(e) => Failure(e)
        case Success(more) => Success([part.value] + more)
  }

  function PartTexts(parts: seq<ChatPart>): seq<string> {
    if |parts| == 0 then []
    else (if parts[0].ChatText? then [parts[0].text] else []) + PartTexts(parts[1..])
  }

  /** _content */
  function ContentOf(content: Content, toolOutput: bool): Result<ChatContent, string> {
    match content
    case Plain(t) => Success(TextContent(t))
    case BadContent => Failure("Message content must be text or a list of content parts")
    case Parts(parts) =>
      match ChatParts(parts, toolOutput)
      case Failure(e) => Failure(e)
      case Success(ps) =>
        if toolOutput then Success(TextContent(PyText.Join("\n", PartTexts(ps)))) else Success(PartContent(ps))
  }

  function Flattened(name: string, namespace: string): string {
    if namespace == "" then name else Qualified(namespace, name)
  }

  /** A call item joins the assistant turn it follows, or opens one. */
  function AddCall(turns: seq<Turn>, call: ChatCall): seq<Turn> {
    if |turns| > 0 && turns[|turns| - 1].role == "assistant" then
      var last := turns[|turns| - 1];
      turns[..|turns| - 1] + [last.(calls := last.calls + [call])]
    else turns + [Turn("assistant", NullContent, [call], "")]
  }

  predicate KnownRole(role: string) {
    role == "user" || role == "assistant" || role == "system" || role == "developer"
  }

  function AddItem(encode: string -> string, turns: seq<Turn>, item: InputItem): Result<seq<Turn>, string> {
    match item
    case MalformedIn => Failure("Invalid Responses request structure")
    case MessageIn(role, content) =>
      if !KnownRole(role) then Failure("Unsupported message role")
      else
        (match ContentOf(content, false)
         case Failure(e) => Failure(e)
         case Success(c) => Success(turns + [Turn(if role == "developer" then "system" else role, c, [], "")]))
    case CallIn(custom, callId, name, namespace, payload) =>
      Success(AddCall(turns, ChatCall(callId, Flattened(name, namespace), if custom then encode(payload) else payload)))
    case ResultIn(callId, output) =>
      match ContentOf(output, true)
      case Failure(e) => Failure(e)
      case Success(c) => Success(turns + [Turn("tool", c, [], callId)])
  }

  /** The messages that a list of input items adds to those already there. */
  function AddItems(encode: string -> string, turns: seq<Turn>, items: seq<InputItem>): Result<seq<Turn>, string>
    decreases |items|
  {
    if |items| == 0 then Success(turns)
    else
      match AddItem(encode, turns, items[0])
      case Failure(e) => Failure(e)
      case Success(next) => AddItems(encode, next, items[1..])
  }

  /** The loop of _to_chat_request over body["input"], which extends its last turn in place. */
  method ToMessages(encode: string -> string, instructions: string, items: seq<InputItem>) returns (r: Result<seq<Turn>, string>)
    ensures r == AddItems(encode, if instructions != "" then [Turn("system", TextContent(instructions), [], "")] else [], items)
  {
    hide AddItem;
    var messages: seq<Turn> := [];
    if instructions != "" {
      messages := [Turn("system", TextContent(instructions), [], "")];
    }
    ghost var start := messages;
    assert items[0..] == items;
    for i := 0 to |items|
      invariant AddItems(encode, messages, items[i..]) == AddItems(encode, start, items)
    {
      assert items[i..][0] == items[i] && items[i..][1..] == items[i + 1..];
      var next := TakeItem(encode, messages, items[i]);
      if next.Failure? {
        return next;
      }
      messages := next.value;
    }
    return Success(messages);
  }

  method TakeItem(encode: string -> string, before: seq<Turn>, item: InputItem) returns (r: Result<seq<Turn>, string>)
    ensures r == AddItem(encode, before, item)
  {
    hide ContentOf;
    var messages := before;
    match item {
      case MalformedIn => return Failure("Invalid Responses request structure");
      case MessageIn(role, content) =>
        if !KnownRole(role) {
          return Failure("Unsupported message role");
        }
        var c := ContentOf(content, false);
        if c.Failure? {
          return Failure(c.error);
        }
        messages := messages + [Turn(if role == "developer" then "system" else role, c.value, [], "")];
      case CallIn(custom, callId, name, namespace, payload) =>
        var call := ChatCall(callId, Flattened(name, namespace), if custom then encode(payload) else payload);
        var n := |messages|;
        if n > 0 && messages[n - 1].role == "assistant" {
          messages := messages[n - 1 := messages[n - 1].(calls := messages[n - 1].calls + [call])];
          assert messages == AddCall(before, call);
        } else {
          messages := messages + [Turn("assistant", NullContent, [call], "")];
        }
      case ResultIn(callId, output) =>
        var c := ContentOf(output, true);
        if c.Failure? {
          return Failure(c.error);
        }
        messages := messages + [Turn("tool", c.value, [], callId)];
    }
    return Success(messages);
  }

  // ----- messages and results ------------------------------------------------

  /** A part that both message and tool contents can hold. */
  predicate IsText(p: ContentPart) {
    p.TextPart? || p.RefusalPart?
  }

  /** A part that a message can hold. */
  predicate IsSupported(p: ContentPart) {
    IsText(p) || (p.ImagePart? && p.url != "")
  }

  /** The chat part says what the input part does. */
  predicate SaysSame(p: ContentPart, c: ChatPart) {
    match p
    case TextPart(t) => c == ChatText(t)
    case RefusalPart(t) => c == ChatText(t)
    case ImagePart(url, detail) => c == ChatImage(url, detail)
    case OtherPart => false
  }

  lemma {:induction false} PartsSaySame(parts: seq<ContentPart>, toolOutput: bool)
    ensures ChatParts(parts, toolOutput).Success?
       <==> forall i :: 0 <= i < |parts| ==> if toolOutput then IsText(parts[i]) else IsSupported(parts[i])
    ensures ChatParts(parts, toolOutput).Success? ==>
              var ps := ChatParts(parts, toolOutput).value;
              |ps| == |parts| && forall i :: 0 <= i < |ps| ==> SaysSame(parts[i], ps[i])
  {
    if |parts| > 0 {
      PartsSaySame(parts[1..], toolOutput);
      assert forall i :: 0 <= i < |parts| - 1 ==> parts[1..][i] == parts[i + 1];
      if ChatParts(parts, toolOutput).Success? {
        var ps := ChatParts(parts, toolOutput).value;
        assert ps[1..] == ChatParts(parts[1..], toolOutput).value;
        assert forall i :: 1 <= i < |ps| ==> ps[i] == ps[1..][i - 1];
      }
    }
  }

  function TextOf(p: ContentPart): string
    requires IsText(p)
  {
    p.text
  }

  /** The texts of text parts, in order. */
  function Texts(parts: seq<ContentPart>): (ts: seq<string>)
    requires forall i :: 0 <= i < |parts| ==> IsText(parts[i])
    ensures |ts| == |parts| && forall i :: 0 <= i < |parts| ==> ts[i] == TextOf(parts[i])
  {
    seq(|parts|, i requires 0 <= i < |parts| => TextOf(parts[i]))
  }

  lemma {:induction false} TextsOfParts(parts: seq<ContentPart>, ps: seq<ChatPart>)
    requires |ps| == |parts| && forall i :: 0 <= i < |parts| ==> IsText(parts[i]) && SaysSame(parts[i], ps[i])
    ensures PartTexts(ps) == Texts(parts)
  {
    if |parts| > 0 {
      assert forall i :: 0 <= i < |parts| - 1 ==> parts[1..][i] == parts[i + 1] && ps[1..][i] == ps[i + 1];
      TextsOfParts(parts[1..], ps[1..]);
      assert SaysSame(parts[0], ps[0]);
      assert Texts(parts) == [TextOf(parts[0])] + Texts(parts[1..]);
    }
  }

  /** The content of a turn says what a message's content does, part by part. */
  predicate SaysContent(content: Content, c: ChatContent) {
    match content
    case BadContent => false
    case Plain(text) => c == TextContent(text)
    case Parts(parts) =>
      c.PartContent? && |c.parts| == |parts| && forall i :: 0 <= i < |parts| ==> SaysSame(parts[i], c.parts[i])
  }

  /**
   A message item adds one turn, if its role is known and its content supported, and
   fails otherwise: a developer speaks as the system, any other role as itself.
   */
  lemma MessageTurn(encode: string -> string, turns: seq<Turn>, role: string, content: Content)
    ensures var r := AddItem(encode, turns, MessageIn(role, content));
            && (r.Success? <==>
                  && role in ["user", "assistant", "system", "developer"] && !content.BadContent?
                  && (content.Parts? ==> forall i :: 0 <= i < |content.parts| ==> IsSupported(content.parts[i])))
            && (r.Success? ==>
                  && |r.value| == |turns| + 1 && r.value[..|turns|] == turns
                  && var turn := r.value[|turns|];
                     && turn.role == (if role == "developer" then "system" else role)
                     && SaysContent(content, turn.content) && turn.calls == [] && turn.toolCallId == "")
  {
    hide ChatParts, PartTexts, PyText.Join;
    if content.Parts? {
      PartsSaySame(content.parts, false);
    }
  }

  /**
   A result item adds one tool turn with its call id and its text, the texts of its
   parts one a line, and fails exactly if a part is not text.
   */
  lemma ResultTurn(encode: string -> string, turns: seq<Turn>, callId: string, output: Content)
    ensures var r := AddItem(encode, turns, ResultIn(callId, output));
            && (r.Success? <==> !output.BadContent? && (output.Parts? ==> forall i :: 0 <= i < |output.parts| ==> IsText(output.parts[i])))
            && (output.Plain? ==> r == Success(turns + [Turn("tool", TextContent(output.text), [], callId)]))
            && (r.Success? && output.Parts? ==>
                  r == Success(turns + [Turn("tool", TextContent(PyText.Join("\n", Texts(output.parts))), [], callId)]))
  {
    hide ChatParts, PartTexts, PyText.Join, Texts;
    if output.Parts? {
      PartsSaySame(output.parts, true);
      var ps := ChatParts(output.parts, true);
      if ps.Success? {
        TextsOfParts(output.parts, ps.value);
      }
    }
  }

  // ----- names ---------------------------------------------------------

  /** Every namespaced tool is named by its namespace and bare name. */
  predicate Qualifies(tools: seq<FlatTool>) {
    forall i :: 0 <= i < |tools| && tools[i].namespace.Some?
      ==> tools[i].namespace.value != "" && tools[i].name == Qualified(tools[i].namespace.value, tools[i].bare)
  }

  /** The name that a restored item flattens back to. */
  function Reflattened(tools: seq<FlatTool>, name: string, namespace: Option<string>): string {
    var (n, ns) := RestoreName(tools, name, namespace);
    Flattened(n, ns.GetOr(""))
  }

  /** Some namespaced tool of this name has the bare name of a later namespaced tool. */
  predicate Chained(tools: seq<FlatTool>, name: string) {
    exists i, j :: 0 <= i < j < |tools| && tools[i].name == name && tools[i].namespace.Some?
                   && tools[j].namespace.Some? && tools[j].name == tools[i].bare
  }

  predicate NamesLater(tools: seq<FlatTool>, name: string) {
    exists j :: 0 <= j < |tools| && tools[j].namespace.Some? && tools[j].name == name
  }

  /** Where a walk over the tools ends up: at a name it was given, or at a tool's own name. */
  lemma {:induction false} ReflattenedIsNamed(tools: seq<FlatTool>, name: string, namespace: Option<string>)
    requires WellNamed(tools) && Qualifies(tools)
    ensures !NamesLater(tools, name) ==> RestoreName(tools, name, namespace) == (name, namespace)
    ensures NamesLater(tools, name)
        ==> exists j :: 0 <= j < |tools| && tools[j].name == Reflattened(tools, name, namespace)
  {
    if |tools| > 0 {
      var t := tools[1..];
      var taken := tools[0].name == name && tools[0].namespace.Some?;
      var (n, ns) := if taken then (tools[0].bare, tools[0].namespace) else (name, namespace);
      ReflattenedIsNamed(t, n, ns);
      if NamesLater(tools, name) {
        if NamesLater(t, n) {
          var j :| 0 <= j < |t| && t[j].name == Reflattened(t, n, ns);
          assert tools[j + 1].name == Reflattened(tools, name, namespace);
        } else {
          var j :| 0 <= j < |tools| && tools[j].namespace.Some? && tools[j].name == name;
          assert j > 0 ==> t[j - 1] == tools[j];
          assert taken;
          assert tools[0].name == Reflattened(tools, name, namespace);
        }
      } else {
        assert forall j :: 0 <= j < |t| ==> t[j] == tools[j + 1];
      }
    }
  }

  /** A name comes back from restore and flatten unchanged, if and only if it is not chained. */
  lemma {:induction false} NameSurvivesIff(tools: seq<FlatTool>, name: string)
    requires WellNamed(tools) && Qualifies(tools)
    ensures Reflattened(tools, name, None) == name <==> !Chained(tools, name)
  {
    if |tools| > 0 {
      var t := tools[1..];
      if tools[0].name == name && tools[0].namespace.Some? {
        ReflattenedIsNamed(t, tools[0].bare, tools[0].namespace);
      } else {
        NameSurvivesIff(t, name);
      }
    }
  }

  /** What a name that is not chained is restored to: the bare name and namespace of the namespaced tool of that name, or itself. */
  lemma RestoresTo(tools: seq<FlatTool>, name: string)
    requires WellNamed(tools) && Qualifies(tools) && !Chained(tools, name)
    ensures forall i :: 0 <= i < |tools| && tools[i].name == name && tools[i].namespace.Some?
              ==> RestoreName(tools, name, None) == (tools[i].bare, tools[i].namespace)
    ensures !NamesLater(tools, name) ==> RestoreName(tools, name, None) == (name, None)
  {
    if !NamesLater(tools, name) {
      ReflattenedIsNamed(tools, name, None);
    }
    forall i | 0 <= i < |tools| && tools[i].name == name && tools[i].namespace.Some?
      ensures RestoreName(tools, name, None) == (tools[i].bare, tools[i].namespace)
    {
      RestoresAt(tools, name, i);
    }
  }

  lemma {:induction false} RestoresAt(tools: seq<FlatTool>, name: string, i: nat)
    requires WellNamed(tools) && Qualifies(tools) && !Chained(tools, name)
    requires i < |tools| && tools[i].name == name && tools[i].namespace.Some?
    ensures RestoreName(tools, name, None) == (tools[i].bare, tools[i].namespace)
  {
    var t := tools[1..];
    if i == 0 {
      assert forall j :: 0 <= j < |t| ==> t[j] == tools[j + 1];
      ReflattenedIsNamed(t, tools[0].bare, tools[0].namespace);
    } else {
      assert t[i - 1] == tools[i];
      NotChainedTail(tools, name);
      RestoresAt(t, name, i - 1);
    }
  }

  lemma NotChainedTail(tools: seq<FlatTool>, name: string)
    requires tools != [] && WellNamed(tools) && Qualifies(tools) && !Chained(tools, name)
    ensures WellNamed(tools[1..]) && Qualifies(tools[1..]) && !Chained(tools[1..], name)
  {
    var t := tools[1..];
    assert forall i :: 0 <= i < |t| ==> t[i] == tools[i + 1];
  }

  const CHAINED_TOOLS := [Namespace("a", [Child("function", Some("b__c"))]), Namespace("b", [Child("function", Some("c"))])]

  /** An accepted request with a chained name: the call of a__b__c comes back as one of b__c. */
  lemma ChainedRequest()
    ensures var tools := Expand(CHAINED_TOOLS);
            WellNamed(tools) && Qualifies(tools) && Chained(tools, "a__b__c") && Reflattened(tools, "a__b__c", None) != "a__b__c"
  {
    var request := CHAINED_TOOLS;
    var first := FlatTool("function", Qualified("a", "b__c"), Some("a"), "b__c");
    var second := FlatTool("function", Qualified("b", "c"), Some("b"), "c");
    OneChild(request[0]);
    OneChild(request[1]);
    assert request[1..] == [request[1]] && request[1..][1..] == [];
    assert Expand(request) == [first] + ([second] + []) == [first, second];
    assert Qualified("a", "b__c") == "a__b__c" && Qualified("b", "c") == "b__c";
    var both := [first, second];
    assert both[0].name == "a__b__c" && both[1].name == both[0].bare;
    ExpandQualifies(request);
    NameSurvivesIff(Expand(request), "a__b__c");
  }

  lemma OneChild(tool: Tool)
    requires tool.Namespace? && tool.name != "" && |tool.children| == 1 && tool.children[0].name.Some?
    ensures var c := tool.children[0];
            ExpandTool(tool) == [FlatTool(c.kind, Qualified(tool.name, c.name.value), Some(tool.name), c.name.value)]
  {
    assert ExpandChildren(tool.name, tool.children[1..]) == [];
  }

  lemma {:induction false} ChildrenQualify(namespace: string, children: seq<Child>)
    requires namespace != "" && WellNamed(ExpandChildren(namespace, children))
    ensures Qualifies(ExpandChildren(namespace, children))
  {
    if |children| > 0 {
      var all, t := ExpandChildren(namespace, children), ExpandChildren(namespace, children[1..]);
      assert all[1..] == t;
      ChildrenQualify(namespace, children[1..]);
      assert forall i :: 1 <= i < |all| ==> all[i] == t[i - 1];
      assert all[0].name != "";
    }
  }

  lemma WellNamedSplit(a: seq<FlatTool>, b: seq<FlatTool>)
    requires WellNamed(a + b)
    ensures WellNamed(a) && WellNamed(b)
  {
    assert forall i :: 0 <= i < |a| ==> a[i] == (a + b)[i];
    assert forall i :: 0 <= i < |b| ==> b[i] == (a + b)[|a| + i];
  }

  /** The flattened tools of any accepted request qualify. */
  lemma {:induction false} ExpandQualifies(tools: seq<Tool>)
    requires WellNamed(Expand(tools))
    ensures Qualifies(Expand(tools))
  {
    if |tools| > 0 {
      var a, b := ExpandTool(tools[0]), Expand(tools[1..]);
      WellNamedSplit(a, b);
      if tools[0].Namespace? && tools[0].name != "" {
        ChildrenQualify(tools[0].name, tools[0].children);
      }
      ExpandQualifies(tools[1..]);
      assert forall i :: 0 <= i < |a + b| ==> (a + b)[i] == if i < |a| then a[i] else b[i - |a|];
    }
  }

  // ----- the round trip --------------------------------------------------

  /** The call id as the client sees it; `minted` is the text of a generated one. */
  function IdText(id: CallId, minted: string): string {
    if id.Upstream? then id.text else minted
  }

  /** An output item as the client sends it back. */
  function AsInput(item: Item, minted: string): InputItem {
    match item
    case Message(_, part) =>
      MessageIn("assistant", Parts(if part.None? then []
                                   else if part.value.Refusal? then [RefusalPart(part.value.text)]
                                   else [TextPart(part.value.text)]))
    case FunctionCall(_, id, name, ns, value) => CallIn(false, IdText(id, minted), name, ns.GetOr(""), value)
    case CustomCall(_, id, name, ns, value) => CallIn(true, IdText(id, minted), name, ns.GetOr(""), value)
  }

  function AllAsInput(items: seq<Item>, minted: seq<string>): seq<InputItem>
    requires |minted| == |items|
  {
    if |items| == 0 then [] else [AsInput(items[0], minted[0])] + AllAsInput(items[1..], minted[1..])
  }

  /** The upstream call as it comes back: custom arguments are reduced to their input string. */
  function Replayed(decode: Decoder, encode: string -> string, tools: seq<FlatTool>, call: ChatCall, minted: string): ChatCall {
    ChatCall(if call.id == "" then minted else call.id, call.name,
             if IsCustom(tools, call.name) then encode(decode(call.arguments).GetOr(call.arguments)) else call.arguments)
  }

  function AllReplayed(decode: Decoder, encode: string -> string, tools: seq<FlatTool>, calls: seq<ChatCall>, minted: seq<string>): seq<ChatCall>
    requires |minted| == |calls|
  {
    if |calls| == 0 then []
    else [Replayed(decode, encode, tools, calls[0], minted[0])] + AllReplayed(decode, encode, tools, calls[1..], minted[1..])
  }

  lemma CallReplays(decode: Decoder, encode: string -> string, tools: seq<FlatTool>, call: ChatCall, status: Status, truncated: bool, minted: string, turns: seq<Turn>)
    requires WellNamed(tools) && Qualifies(tools) && !Chained(tools, call.name)
    requires CallItem(decode, tools, call, status, truncated).Success?
    ensures var item := Restore(tools, CallItem(decode, tools, call, status, truncated).value);
            AddItem(encode, turns, AsInput(item, minted))
              == Success(AddCall(turns, Replayed(decode, encode, tools, call, minted)))
  {
    hide IsCustom, RestoreName, WellNamed, Qualifies, Chained, AddCall;
    NameSurvivesIff(tools, call.name);
  }

  predicate EndsAssistant(turns: seq<Turn>) {
    |turns| > 0 && turns[|turns| - 1].role == "assistant"
  }

  /** `turns` with calls added to its last turn. */
  function WithCalls(turns: seq<Turn>, calls: seq<ChatCall>): seq<Turn>
    requires |turns| > 0
  {
    var last := turns[|turns| - 1];
    turns[..|turns| - 1] + [last.(calls := last.calls + calls)]
  }

  lemma {:induction false} CallsReplay(decode: Decoder, encode: string -> string, tools: seq<FlatTool>, calls: seq<ChatCall>, status: Status, truncated: bool, minted: seq<string>, turns: seq<Turn>)
    requires WellNamed(tools) && Qualifies(tools) && |minted| == |calls| && EndsAssistant(turns)
    requires forall k :: 0 <= k < |calls| ==> !Chained(tools, calls[k].name)
    requires CallItems(decode, tools, calls, status, truncated).Success?
    ensures AddItems(encode, turns, AllAsInput(CallItems(decode, tools, calls, status, truncated).value, minted))
         == Success(WithCalls(turns, AllReplayed(decode, encode, tools, calls, minted)))
    decreases |calls|
  {
    hide CallItem, Restore, WellNamed, Qualifies, Chained, AddItem, AsInput, Replayed;
    if |calls| == 0 {
      var last := turns[|turns| - 1];
      assert last.calls + [] == last.calls;
      InitLast(turns);
    } else {
      var items := CallItems(decode, tools, calls, status, truncated).value;
      var rest := CallItems(decode, tools, calls[1..], status, truncated).value;
      assert items[1..] == rest;
      CallReplays(decode, encode, tools, calls[0], status, truncated, minted[0], turns);
      var call := Replayed(decode, encode, tools, calls[0], minted[0]);
      var next := AddCall(turns, call);
      CallsReplay(decode, encode, tools, calls[1..], status, truncated, minted[1..], next);
      var ins := AllAsInput(items, minted);
      assert ins[1..] == AllAsInput(rest, minted[1..]);
      WithCallsStep(turns, call, AllReplayed(decode, encode, tools, calls[1..], minted[1..]));
    }
  }

  lemma WithCallsStep(turns: seq<Turn>, call: ChatCall, more: seq<ChatCall>)
    requires EndsAssistant(turns)
    ensures EndsAssistant(AddCall(turns, call))
    ensures WithCalls(AddCall(turns, call), more) == WithCalls(turns, [call] + more)
  {
    var n := |turns| - 1;
    var next := AddCall(turns, call);
    assert next[..n] == turns[..n];
    Assoc(turns[n].calls, [call], more);
  }

  lemma {:induction false} AddItemsAppend(encode: string -> string, turns: seq<Turn>, a: seq<InputItem>, b: seq<InputItem>)
    ensures AddItems(encode, turns, a + b)
         == match AddItems(encode, turns, a) case Failure(e) => Failure(e) case Success(t) => AddItems(encode, t, b)
    decreases |a|
  {
    hide AddItem;
    if |a| == 0 {
      assert a + b == b;
    } else {
      TailAppend(a, b);
      var next := AddItem(encode, turns, a[0]);
      if next.Success? {
        AddItemsAppend(encode, next.value, a[1..], b);
      }
    }
  }

  /** The assistant turn that a text-and-calls output comes back as. */
  function ReplayedTurn(decode: Decoder, encode: string -> string, tools: seq<FlatTool>, message: ChatMessage, minted: seq<string>): Turn
    requires |minted| == |message.calls|
  {
    Turn("assistant", if message.content.Some? then PartContent([ChatText(message.content.value)]) else NullContent,
         AllReplayed(decode, encode, tools, message.calls, minted), "")
  }

  /**
   Sending the output of from_chat_response back after any history adds exactly
   one assistant turn: the same text, the same call ids, the same flattened
   names and the same arguments. Without text, the history must not end in an
   assistant turn, which the calls would join.
   */
  lemma OutputReplays(decode: Decoder, encode: string -> string, tools: seq<FlatTool>, finish: string, message: ChatMessage,
                      usage: Option<ChatUsage>, minted: seq<string>, history: seq<InputItem>, start: seq<Turn>)
    requires WellNamed(tools) && Qualifies(tools)
    requires forall k :: 0 <= k < |message.calls| ==> !Chained(tools, message.calls[k].name)
    requires message.refusal == "" && (message.content.Some? || message.calls != [])
    requires FromChat(decode, tools, Choice(finish, message, usage)).Success?
    requires |minted| == |message.calls|
    requires var h := AddItems(encode, start, history); h.Success? && (message.content.None? ==> !EndsAssistant(h.value))
    ensures var output := FromChat(decode, tools, Choice(finish, message, usage)).value.output;
            var ids := if message.content.Some? then [""] + minted else minted;
            AddItems(encode, start, history + AllAsInput(output, ids))
              == Success(AddItems(encode, start, history).value + [ReplayedTurn(decode, encode, tools, message, minted)])
  {
    hide AddItems, WellNamed, Qualifies, Chained, EndsAssistant, CallItems, AllAsInput, ReplayedTurn;
    var turns := AddItems(encode, start, history).value;
    var status, truncated := FinalStatus(finish), finish == "length";
    var items := CallItems(decode, tools, message.calls, status, truncated).value;
    var output := FromChat(decode, tools, Choice(finish, message, usage)).value.output;
    var ids := if message.content.Some? then [""] + minted else minted;
    AddItemsAppend(encode, start, history, AllAsInput(output, ids));
    if message.content.Some? {
      var text := message.content.value;
      assert output == [Message(status, Some(OutputText(text)))] + items;
      TextReplays(encode, turns, text, status, items, minted);
      CallsReplay(decode, encode, tools, message.calls, status, truncated, minted,
                  turns + [Turn("assistant", PartContent([ChatText(text)]), [], "")]);
      TextTurn(decode, encode, tools, message, minted, turns);
    } else {
      assert output == items;
      FirstCallReplays(decode, encode, tools, message.calls, status, truncated, minted, turns);
      CallTurn(decode, encode, tools, message, minted, turns);
    }
  }

  lemma TextReplays(encode: string -> string, turns: seq<Turn>, text: string, status: Status, items: seq<Item>, minted: seq<string>)
    requires |minted| == |items|
    ensures var open := turns + [Turn("assistant", PartContent([ChatText(text)]), [], "")];
            && EndsAssistant(open)
            && AddItems(encode, turns, AllAsInput([Message(status, Some(OutputText(text)))] + items, [""] + minted))
               == AddItems(encode, open, AllAsInput(items, minted))
  {
    hide AddCall, PyText.Join, PartTexts;
    var all, ids := [Message(status, Some(OutputText(text)))] + items, [""] + minted;
    assert all[1..] == items && ids[1..] == minted;
    var ins := AllAsInput(all, ids);
    assert ins[1..] == AllAsInput(items, minted);
    assert [TextPart(text)][1..] == [];
    assert ChatParts([TextPart(text)], false) == Success([ChatText(text)] + []);
    assert [ChatText(text)] + [] == [ChatText(text)];
    assert AddItem(encode, turns, ins[0]) == Success(turns + [Turn("assistant", PartContent([ChatText(text)]), [], "")]);
  }

  lemma TextTurn(decode: Decoder, encode: string -> string, tools: seq<FlatTool>, message: ChatMessage, minted: seq<string>, turns: seq<Turn>)
    requires |minted| == |message.calls| && message.content.Some?
    ensures WithCalls(turns + [Turn("assistant", PartContent([ChatText(message.content.value)]), [], "")],
                      AllReplayed(decode, encode, tools, message.calls, minted))
         == turns + [ReplayedTurn(decode, encode, tools, message, minted)]
  {
    hide AllReplayed;
    var open := turns + [Turn("assistant", PartContent([ChatText(message.content.value)]), [], "")];
    assert open[..|open| - 1] == turns;
    var calls := AllReplayed(decode, encode, tools, message.calls, minted);
    assert [] + calls == calls;
  }

  lemma FirstCallReplays(decode: Decoder, encode: string -> string, tools: seq<FlatTool>, calls: seq<ChatCall>, status: Status, truncated: bool, minted: seq<string>, turns: seq<Turn>)
    requires WellNamed(tools) && Qualifies(tools) && |minted| == |calls| > 0 && !EndsAssistant(turns)
    requires forall k :: 0 <= k < |calls| ==> !Chained(tools, calls[k].name)
    requires CallItems(decode, tools, calls, status, truncated).Success?
    ensures AddItems(encode, turns, AllAsInput(CallItems(decode, tools, calls, status, truncated).value, minted))
         == Success(WithCalls(turns + [Turn("assistant", NullContent, [Replayed(decode, encode, tools, calls[0], minted[0])], "")],
                              AllReplayed(decode, encode, tools, calls[1..], minted[1..])))
  {
    hide CallItem, Restore, WellNamed, Qualifies, Chained, AddItem, AsInput, Replayed, WithCalls, AllReplayed;
    var items := CallItems(decode, tools, calls, status, truncated).value;
    var rest := CallItems(decode, tools, calls[1..], status, truncated).value;
    assert items[1..] == rest;
    CallReplays(decode, encode, tools, calls[0], status, truncated, minted[0], turns);
    var next := turns + [Turn("assistant", NullContent, [Replayed(decode, encode, tools, calls[0], minted[0])], "")];
    CallsReplay(decode, encode, tools, calls[1..], status, truncated, minted[1..], next);
    assert AllAsInput(items, minted)[1..] == AllAsInput(rest, minted[1..]);
  }

  lemma CallTurn(decode: Decoder, encode: string -> string, tools: seq<FlatTool>, message: ChatMessage, minted: seq<string>, turns: seq<Turn>)
    requires |minted| == |message.calls| > 0 && message.content.None?
    ensures var calls := message.calls;
            WithCalls(turns + [Turn("assistant", NullContent, [Replayed(decode, encode, tools, calls[0], minted[0])], "")],
                      AllReplayed(decode, encode, tools, calls[1..], minted[1..]))
              == turns + [ReplayedTurn(decode, encode, tools, message, minted)]
  {
    hide Replayed;
    var open := turns + [Turn("assistant", NullContent, [Replayed(decode, encode, tools, message.calls[0], minted[0])], "")];
    assert open[..|open| - 1] == turns;
  }

  /** Replaying a completed custom call keeps its input string, if the JSON encoding decodes to what it encoded. */
  lemma CustomInputSurvives(decode: Decoder, encode: string -> string, tools: seq<FlatTool>, call: ChatCall, minted: string)
    requires forall s :: decode(encode(s)) == Some(s)
    requires IsCustom(tools, call.name) && decode(call.arguments).Some?
    ensures decode(Replayed(decode, encode, tools, call, minted).arguments) == decode(call.arguments)
  {
    var input := decode(call.arguments).value;
    assert decode(encode(input)) == Some(input);
  }

  // ----- calls and their results ----------------------------------------------

  /** The results of some calls, in the same order, as a client sends them. */
  function ResultItems(ids: seq<string>, outputs: seq<string>): seq<InputItem>
    requires |ids| == |outputs|
  {
    if |ids| == 0 then [] else [ResultIn(ids[0], Plain(outputs[0]))] + ResultItems(ids[1..], outputs[1..])
  }

  function ResultTurns(ids: seq<string>, outputs: seq<string>): seq<Turn>
    requires |ids| == |outputs|
  {
    if |ids| == 0 then [] else [Turn("tool", TextContent(outputs[0]), [], ids[0])] + ResultTurns(ids[1..], outputs[1..])
  }

  lemma {:induction false} ResultsReplay(encode: string -> string, turns: seq<Turn>, ids: seq<string>, outputs: seq<string>)
    requires |ids| == |outputs|
    ensures AddItems(encode, turns, ResultItems(ids, outputs)) == Success(turns + ResultTurns(ids, outputs))
    decreases |ids|
  {
    hide AddItem;
    if |ids| == 0 {
      assert turns + [] == turns;
    } else {
      var turn := Turn("tool", TextContent(outputs[0]), [], ids[0]);
      ResultTurn(encode, turns, ids[0], Plain(outputs[0]));
      ResultsReplay(encode, turns + [turn], ids[1..], outputs[1..]);
      assert ResultItems(ids, outputs)[1..] == ResultItems(ids[1..], outputs[1..]);
      Assoc(turns, [turn], ResultTurns(ids[1..], outputs[1..]));
    }
  }

  /** The ids of calls. */
  function IdsOf(calls: seq<ChatCall>): (ids: seq<string>)
    ensures |ids| == |calls| && forall i :: 0 <= i < |calls| ==> ids[i] == calls[i].id
  {
    seq(|calls|, i requires 0 <= i < |calls| => calls[i].id)
  }

  /**
   A whole exchange sent back: the output of from_chat_response, and a result for each
   of its calls. What is added is the assistant turn of the output and one tool turn a
   call, in order, each with the id of the call that it answers and with its text.
   */
  lemma ExchangeReplays(decode: Decoder, encode: string -> string, tools: seq<FlatTool>, finish: string, message: ChatMessage,
                        usage: Option<ChatUsage>, minted: seq<string>, history: seq<InputItem>, start: seq<Turn>, outputs: seq<string>)
    requires WellNamed(tools) && Qualifies(tools)
    requires forall k :: 0 <= k < |message.calls| ==> !Chained(tools, message.calls[k].name)
    requires message.refusal == "" && (message.content.Some? || message.calls != [])
    requires FromChat(decode, tools, Choice(finish, message, usage)).Success?
    requires |minted| == |message.calls| == |outputs|
    requires var h := AddItems(encode, start, history); h.Success? && (message.content.None? ==> !EndsAssistant(h.value))
    ensures var items := AllAsInput(FromChat(decode, tools, Choice(finish, message, usage)).value.output,
                                    if message.content.Some? then [""] + minted else minted);
            var turn := ReplayedTurn(decode, encode, tools, message, minted);
            && |turn.calls| == |outputs|
            && AddItems(encode, start, history + items + ResultItems(IdsOf(turn.calls), outputs))
               == Success(AddItems(encode, start, history).value + [turn] + ResultTurns(IdsOf(turn.calls), outputs))
  {
    hide AddItems, WellNamed, Qualifies, Chained, EndsAssistant, CallItems, AllAsInput, AllReplayed, ResultItems, ResultTurns, FromChat;
    AllReplayedSize(decode, encode, tools, message.calls, minted);
    OutputReplays(decode, encode, tools, finish, message, usage, minted, history, start);
    var items := AllAsInput(FromChat(decode, tools, Choice(finish, message, usage)).value.output,
                            if message.content.Some? then [""] + minted else minted);
    var turn := ReplayedTurn(decode, encode, tools, message, minted);
    AddItemsAppend(encode, start, history + items, ResultItems(IdsOf(turn.calls), outputs));
    ResultsReplay(encode, AddItems(encode, start, history).value + [turn], IdsOf(turn.calls), outputs);
  }

  lemma {:induction false} AllReplayedSize(decode: Decoder, encode: string -> string, tools: seq<FlatTool>, calls: seq<ChatCall>, minted: seq<string>)
    requires |minted| == |calls|
    ensures |AllReplayed(decode, encode, tools, calls, minted)| == |calls|
  {
    hide Replayed;
    if |calls| > 0 {
      AllReplayedSize(decode, encode, tools, calls[1..], minted[1..]);
    }
  }
}
