/**
 The Responses protocol adapter (sparkdeck/responses.py): its data, the tool
 table, and the translation of a complete chat response in one piece.

 JSON values are datatypes. Generated identifiers are not represented: an item
 carries no id of its own, and a call id is either the upstream's or generated.
 `decode` stands for json.loads(arguments)["input"], None when that raises or is
 not a string.
 */
module Responses {
  import opened Wrappers
  import opened Seqs

  type Decoder = string -> Option<string>

  // ----- tools --------------------------------------------------------

  datatype Child = Child(kind: string, name: Option<string>)

  /** An entry of request["tools"]; a missing name is "", with which a namespace counts as a single tool. */
  datatype Tool =
    | Single(kind: string, name: string)
    | Namespace(name: string, children: seq<Child>)

  /** A tool after namespace expansion; a name that is missing is "". */
  datatype FlatTool = FlatTool(kind: string, name: string, namespace: Option<string>, bare: string)

  function Qualified(namespace: string, bare: string): string {
    namespace + "__" + bare
  }

  function ExpandChildren(namespace: string, children: seq<Child>): seq<FlatTool> {
    if |children| == 0 then []
    else
      var c := children[0];
      var bare := c.name.GetOr("");
      [FlatTool(c.kind, if c.name.Some? then Qualified(namespace, bare) else "", Some(namespace), bare)]
      + ExpandChildren(namespace, children[1..])
  }

  function ExpandTool(tool: Tool): seq<FlatTool> {
    match tool
    case Single(kind, name) => [FlatTool(kind, name, None, name)]
    case Namespace(name, children) =>
      if name == "" then [FlatTool("namespace", "", None, "")] else ExpandChildren(name, children)
  }

  function Expand(tools: seq<Tool>): seq<FlatTool> {
    if |tools| == 0 then [] else ExpandTool(tools[0]) + Expand(tools[1..])
  }

  /** Every name is present and no two are equal. */
  predicate WellNamed(flat: seq<FlatTool>) {
    && (forall i :: 0 <= i < |flat| ==> flat[i].name != "")
    && (forall i, j :: 0 <= i < j < |flat| ==> flat[i].name != flat[j].name)
  }

  /** Where a flattened tool comes from: a single tool is itself, a child is named behind its namespace, and a namespace without a name has none. */
  predicate ComesFrom(t: FlatTool, tool: Tool) {
    match tool
    case Single(kind, name) => t.kind == kind && t.name == t.bare == name && t.namespace == None
    case Namespace("", _) => t.name == "" && t.namespace == None
    case Namespace(namespace, children) =>
      exists j :: 0 <= j < |children| && IsChild(t, namespace, children[j])
  }

  predicate IsChild(t: FlatTool, namespace: string, c: Child) {
    && t.kind == c.kind && t.namespace == Some(namespace)
    && (c.name.None? ==> t.name == "")
    && (c.name.Some? ==> t.bare == c.name.value && t.name == namespace + "__" + c.name.value)
  }

  lemma {:induction false} ChildrenExpand(namespace: string, children: seq<Child>)
    ensures |ExpandChildren(namespace, children)| == |children|
    ensures forall j :: 0 <= j < |children| ==> IsChild(ExpandChildren(namespace, children)[j], namespace, children[j])
  {
    if |children| > 0 {
      var all := ExpandChildren(namespace, children);
      ChildrenExpand(namespace, children[1..]);
      assert all[1..] == ExpandChildren(namespace, children[1..]);
      assert forall j :: 1 <= j < |children| ==> all[j] == all[1..][j - 1] && children[j] == children[1..][j - 1];
    }
  }

  /** How many tools an entry stands for. */
  function Width(tool: Tool): nat {
    if tool.Namespace? && tool.name != "" then |tool.children| else 1
  }

  function TotalWidth(tools: seq<Tool>): nat {
    if |tools| == 0 then 0 else Width(tools[0]) + TotalWidth(tools[1..])
  }

  /** The expansion has one tool for each entry and child, in order, and each comes from its entry. */
  lemma {:induction false} ExpandComesFrom(tools: seq<Tool>)
    ensures |Expand(tools)| == TotalWidth(tools)
    ensures forall k :: 0 <= k < |Expand(tools)| ==> exists i :: 0 <= i < |tools| && ComesFrom(Expand(tools)[k], tools[i])
  {
    hide ComesFrom;
    if |tools| > 0 {
      var all, first, rest := Expand(tools), ExpandTool(tools[0]), Expand(tools[1..]);
      ExpandComesFrom(tools[1..]);
      ToolExpands(tools[0]);
      forall k | 0 <= k < |all| ensures exists i :: 0 <= i < |tools| && ComesFrom(all[k], tools[i]) {
        if k < |first| {
          assert ComesFrom(all[k], tools[0]);
        } else {
          var i :| 0 <= i < |tools| - 1 && ComesFrom(rest[k - |first|], tools[1..][i]);
          assert ComesFrom(all[k], tools[i + 1]);
        }
      }
    }
  }

  lemma ToolExpands(tool: Tool)
    ensures |ExpandTool(tool)| == Width(tool)
    ensures forall k :: 0 <= k < |ExpandTool(tool)| ==> ComesFrom(ExpandTool(tool)[k], tool)
  {
    if tool.Namespace? && tool.name != "" {
      ChildrenExpand(tool.name, tool.children);
    }
  }

  lemma {:induction false} ExpandSnoc(tools: seq<Tool>, tool: Tool)
    ensures Expand(tools + [tool]) == Expand(tools) + ExpandTool(tool)
  {
    hide ExpandTool;
    if |tools| == 0 {
      assert tools + [tool] == [tool];
      assert Expand([tool]) == ExpandTool(tool) + Expand([tool][1..]);
      assert ExpandTool(tool) + [] == ExpandTool(tool);
    } else {
      ExpandSnoc(tools[1..], tool);
      TailAppend(tools, [tool]);
      Assoc(ExpandTool(tools[0]), Expand(tools[1..]), ExpandTool(tool));
    }
  }

  /** _flat_tools: succeeds, with the expansion, exactly when it is well named. */
  method FlatTools(tools: seq<Tool>) returns (r: Result<seq<FlatTool>, string>)
    ensures r == if WellNamed(Expand(tools)) then Success(Expand(tools))
                 else Failure("Tool names must be present and unique after namespace expansion")
  {
    hide ExpandTool, WellNamed;
    var flattened: seq<FlatTool> := [];
    assert WellNamed([]) by { NothingIsWellNamed(); }
    for i := 0 to |tools|
      invariant flattened == Expand(tools[..i]) && WellNamed(flattened)
    {
      TakeSnoc(tools, i);
      ExpandSnoc(tools[..i], tools[i]);
      var ok, added := AddTools(flattened, ExpandTool(tools[i]));
      if !ok {
        ExpandSplit(tools, i);
        if WellNamed(Expand(tools)) {
          WellNamedInit(flattened + ExpandTool(tools[i]), Expand(tools[i + 1..]));
        }
        return Failure("Tool names must be present and unique after namespace expansion");
      }
      flattened := added;
    }
    assert tools[..|tools|] == tools;
    return Success(flattened);
  }

  /** The inner loop: add one entry's tools, rejecting a missing or repeated name. */
  method AddTools(flat: seq<FlatTool>, children: seq<FlatTool>) returns (ok: bool, added: seq<FlatTool>)
    requires WellNamed(flat)
    ensures ok <==> WellNamed(flat + children)
    ensures ok ==> added == flat + children
  {
    added := flat;
    assert flat + children[..0] == flat;
    for j := 0 to |children|
      invariant added == flat + children[..j] && WellNamed(added)
    {
      TakeSnoc(children, j);
      Assoc(flat, children[..j], [children[j]]);
      if children[j].name == "" || exists i :: 0 <= i < |added| && added[i].name == children[j].name {
        NotWellNamed(added, children[j], children[j + 1..]);
        TakeDrop(children, j + 1);
        Assoc(flat, children[..j + 1], children[j + 1..]);
        return false, [];
      }
      added := added + [children[j]];
    }
    assert children[..|children|] == children;
    ok := true;
  }

  lemma NothingIsWellNamed()
    ensures WellNamed([])
  {
  }

  lemma WellNamedInit(a: seq<FlatTool>, b: seq<FlatTool>)
    requires WellNamed(a + b)
    ensures WellNamed(a)
  {
    assert forall i :: 0 <= i < |a| ==> a[i] == (a + b)[i];
  }

  lemma NotWellNamed(flat: seq<FlatTool>, bad: FlatTool, more: seq<FlatTool>)
    requires bad.name == "" || exists i :: 0 <= i < |flat| && flat[i].name == bad.name
    ensures !WellNamed(flat + [bad] + more)
  {
    var all := flat + [bad] + more;
    assert all[|flat|] == bad;
    if bad.name != "" {
      var i :| 0 <= i < |flat| && flat[i].name == bad.name;
      assert all[i] == flat[i];
    }
  }

  lemma {:induction false} ExpandSplit(tools: seq<Tool>, i: nat)
    requires i < |tools|
    ensures Expand(tools) == Expand(tools[..i]) + ExpandTool(tools[i]) + Expand(tools[i + 1..])
  {
    hide ExpandTool;
    if i == 0 {
      assert [] + ExpandTool(tools[0]) == ExpandTool(tools[0]);
    } else {
      ExpandSplit(tools[1..], i - 1);
      assert tools[..i][1..] == tools[1..][..i - 1];
      assert tools[1..][i..] == tools[i + 1..];
      Assoc(ExpandTool(tools[0]), Expand(tools[1..i]), ExpandTool(tools[i]));
      Assoc(ExpandTool(tools[0]), Expand(tools[1..i]) + ExpandTool(tools[i]), Expand(tools[i + 1..]));
    }
  }

  predicate IsCustom(tools: seq<FlatTool>, name: string) {
    exists i :: 0 <= i < |tools| && tools[i].kind == "custom" && tools[i].name == name
  }

  // ----- items --------------------------------------------------------

  datatype Status = InProgress | Completed | Incomplete | Failed

  datatype CallId = Upstream(text: string) | Generated

  datatype Part = OutputText(text: string) | Refusal(text: string)

  /** An output item. A message's content list holds at most one part. */
  datatype Item =
    | Message(status: Status, part: Option<Part>)
    | FunctionCall(status: Status, callId: CallId, name: string, namespace: Option<string>, value: string)
    | CustomCall(status: Status, callId: CallId, name: string, namespace: Option<string>, value: string)

  function WithStatus(item: Item, status: Status): Item {
    item.(status := status)
  }

  datatype ChatUsage = ChatUsage(prompt: Option<int>, cached: Option<int>, completion: Option<int>,
                                 reasoning: Option<int>, total: Option<int>)
  datatype Usage = Usage(input: int, cached: int, output: int, reasoning: int, total: int)

  /** _usage for a usage object that is present. */
  function UsageOf(u: ChatUsage): Usage {
    Usage(u.prompt.GetOr(0), u.cached.GetOr(0), u.completion.GetOr(0), u.reasoning.GetOr(0),
          u.total.GetOr(u.prompt.GetOr(0) + u.completion.GetOr(0)))
  }

  datatype Response = Response(status: Status, output: seq<Item>, usage: Option<Usage>,
                               incompleteReason: Option<string>, error: Option<string>)

  const FRESH := Response(InProgress, [], None, None, None)

  /** A tool call of the upstream message; missing fields are "". */
  datatype ChatCall = ChatCall(id: string, name: string, arguments: string)

  // ----- one call -----------------------------------------------------

  /**
   _restore_namespace: a single pass over the flattened tools that renames as it
   goes, so a restored bare name is compared with the tools that follow.
   */
  function RestoreName(tools: seq<FlatTool>, name: string, namespace: Option<string>): (string, Option<string>) {
    if |tools| == 0 then (name, namespace)
    else if tools[0].name == name && tools[0].namespace.Some? then
      RestoreName(tools[1..], tools[0].bare, tools[0].namespace)
    else RestoreName(tools[1..], name, namespace)
  }

  function Restore(tools: seq<FlatTool>, item: Item): (r: Item)
    requires !item.Message?
    ensures !r.Message? && r.value == item.value && r.CustomCall? == item.CustomCall?
  {
    var (name, namespace) := RestoreName(tools, item.name, item.namespace);
    item.(name := name, namespace := namespace)
  }

  /** _call_item. A custom tool's arguments must decode, except when the token limit cut them off. */
  function CallItem(decode: Decoder, tools: seq<FlatTool>, call: ChatCall, status: Status, truncated: bool): (r: Result<Item, string>)
    ensures r.Success? ==> !r.value.Message?
    ensures r.Failure? <==> IsCustom(tools, call.name) && decode(call.arguments).None? && !truncated
  {
    var id := if call.id == "" then Generated else Upstream(call.id);
    if !IsCustom(tools, call.name) then
      Success(FunctionCall(status, id, call.name, None, call.arguments))
    else
      match decode(call.arguments)
      case Some(value) => Success(CustomCall(status, id, call.name, None, value))
      case None =>
        if truncated then Success(CustomCall(Incomplete, id, call.name, None, call.arguments))
        else Failure("Invalid arguments from custom tool")
  }

  /**
   What a call becomes: a custom call with its decoded input if the table has a custom
   tool of its name, with the cut-off text and incomplete if it does not decode but was
   truncated, and a failure if it was not; and otherwise a function call with its
   arguments as they are. A missing id is generated.
   */
  lemma CallBecomes(decode: Decoder, tools: seq<FlatTool>, call: ChatCall, status: Status, truncated: bool)
    ensures var r, id := CallItem(decode, tools, call, status, truncated), if call.id != "" then Upstream(call.id) else Generated;
            if exists t :: t in tools && t.name == call.name && t.kind == "custom" then
              match decode(call.arguments)
              case Some(input) => r == Success(CustomCall(status, id, call.name, None, input))
              case None =>
                if truncated then r == Success(CustomCall(Incomplete, id, call.name, None, call.arguments)) else r.Failure?
            else r == Success(FunctionCall(status, id, call.name, None, call.arguments))
  {
    if t :| t in tools && t.name == call.name && t.kind == "custom" {
      var i :| 0 <= i < |tools| && tools[i] == t;
      assert IsCustom(tools, call.name);
    }
  }

  /** The items of a call list, in order; the first bad call fails the whole list. */
  function CallItems(decode: Decoder, tools: seq<FlatTool>, calls: seq<ChatCall>, status: Status, truncated: bool): (r: Result<seq<Item>, string>)
    ensures r.Success? ==> |r.value| == |calls| && forall k :: 0 <= k < |calls| ==> !r.value[k].Message?
  {
    if |calls| == 0 then Success([])
    else
      match CallItem(decode, tools, calls[0], status, truncated)
      case Failure(e) => Failure(e)
      case Success(item) =>
        match CallItems(decode, tools, calls[1..], status, truncated)
        case Failure(e) => Failure(e)
        case Success(items) => Success([Restore(tools, item)] + items)
  }

  // ----- the whole response -------------------------------------------

  datatype ChatMessage = ChatMessage(content: Option<string>, refusal: string, calls: seq<ChatCall>)

  datatype ChatResult =
    | Malformed
    | UpstreamError(error: string)
    | NoChoices
    | Choice(finish: string, message: ChatMessage, usage: Option<ChatUsage>)

  function FinalStatus(finish: string): Status {
    if finish == "length" || finish == "content_filter" then Incomplete else Completed
  }

  function IncompleteReason(finish: string): Option<string> {
    if finish == "length" then Some("max_output_tokens")
    else if finish == "content_filter" then Some("content_filter")
    else None
  }

  function MessageItems(message: ChatMessage, status: Status): seq<Item> {
    (if message.content.Some? then [Message(status, Some(OutputText(message.content.value)))] else [])
    + (if message.refusal != "" then [Message(status, Some(Refusal(message.refusal)))] else [])
  }

  function UsageField(usage: Option<ChatUsage>): Option<Usage> {
    match usage
    case None => None
    case Some(u) => Some(UsageOf(u))
  }

  /** from_chat_response, as a function of the upstream payload. */
  function FromChat(decode: Decoder, tools: seq<FlatTool>, result: ChatResult): (r: Result<Response, string>)
    ensures r.Success? && result.Choice?
        ==> |r.value.output| == |MessageItems(result.message, FinalStatus(result.finish))| + |result.message.calls|
  {
    match result
    case Malformed => Failure("Malformed upstream chat response")
    case UpstreamError(e) => Success(FRESH.(status := Failed, error := Some(e)))
    case NoChoices => Failure("Upstream chat response has no choices")
    case Choice(finish, message, usage) =>
      if finish == "" then Failure("Upstream chat response has no finish reason")
      else
        var status := FinalStatus(finish);
        match CallItems(decode, tools, message.calls, status, finish == "length")
        case Failure(e) => Failure(e)
        case Success(items) =>
          Success(Response(status, MessageItems(message, status) + items, UsageField(usage),
                           IncompleteReason(finish), None))
  }

  /** A custom tool's call whose arguments do not decode. */
  predicate IsBadCall(decode: Decoder, tools: seq<FlatTool>, call: ChatCall) {
    decode(call.arguments).None? && exists t :: t in tools && t.name == call.name && t.kind == "custom"
  }

  lemma {:induction false} CallItemsSucceedIff(decode: Decoder, tools: seq<FlatTool>, calls: seq<ChatCall>, status: Status, truncated: bool)
    ensures CallItems(decode, tools, calls, status, truncated).Success?
       <==> truncated || forall k :: 0 <= k < |calls| ==> !IsBadCall(decode, tools, calls[k])
  {
    hide CallItem, IsBadCall, IsCustom, Restore;
    if |calls| > 0 {
      CallItemsSucceedIff(decode, tools, calls[1..], status, truncated);
      CustomIff(decode, tools, calls[0]);
      assert forall k :: 0 <= k < |calls| - 1 ==> calls[1..][k] == calls[k + 1];
    }
  }

  lemma CustomIff(decode: Decoder, tools: seq<FlatTool>, call: ChatCall)
    ensures IsBadCall(decode, tools, call) <==> IsCustom(tools, call.name) && decode(call.arguments).None?
  {
    if IsCustom(tools, call.name) {
      var i :| 0 <= i < |tools| && tools[i].kind == "custom" && tools[i].name == call.name;
      assert tools[i] in tools;
    }
  }

  /**
   When the whole translation fails: for a malformed result, without choices, without a
   finish reason, and for a custom call that does not decode unless the token limit cut
   it off. An upstream error is a failed response with that error and nothing else.
   */
  lemma ChatOutcome(decode: Decoder, tools: seq<FlatTool>, result: ChatResult)
    ensures var r := FromChat(decode, tools, result);
            match result
            case Malformed => r.Failure?
            case NoChoices => r.Failure?
            case UpstreamError(e) => r == Success(Response(Failed, [], None, None, Some(e)))
            case Choice(finish, message, _) =>
              r.Success? <==>
                finish != "" && (finish == "length" || forall k :: 0 <= k < |message.calls| ==> !IsBadCall(decode, tools, message.calls[k]))
  {
    hide CallItems, MessageItems, IsBadCall;
    if result.Choice? {
      CallItemsSucceedIff(decode, tools, result.message.calls, FinalStatus(result.finish), result.finish == "length");
    }
  }

  /** The fields of a translated response, one by one. */
  lemma ResponseFields(decode: Decoder, tools: seq<FlatTool>, finish: string, message: ChatMessage, usage: Option<ChatUsage>)
    requires FromChat(decode, tools, Choice(finish, message, usage)).Success?
    ensures var r := FromChat(decode, tools, Choice(finish, message, usage)).value;
            && (r.status == Incomplete <==> finish == "length" || finish == "content_filter")
            && (r.status == Completed <==> finish != "length" && finish != "content_filter")
            && (r.incompleteReason == Some("max_output_tokens") <==> finish == "length")
            && (r.incompleteReason == Some("content_filter") <==> finish == "content_filter")
            && (r.incompleteReason == None <==> r.status == Completed)
            && r.error == None && (r.usage.Some? <==> usage.Some?)
            && (usage.Some? ==> UsageFits(usage.value, r.usage.value))
  {
    hide CallItems, MessageItems;
  }

  /** Every reported count goes to its own field; what is missing is 0, and a missing total the sum of both sides. */
  predicate UsageFits(u: ChatUsage, r: Usage) {
    && (u.prompt.Some? ==> r.input == u.prompt.value) && (u.prompt.None? ==> r.input == 0)
    && (u.completion.Some? ==> r.output == u.completion.value) && (u.completion.None? ==> r.output == 0)
    && (u.cached.Some? ==> r.cached == u.cached.value) && (u.cached.None? ==> r.cached == 0)
    && (u.reasoning.Some? ==> r.reasoning == u.reasoning.value) && (u.reasoning.None? ==> r.reasoning == 0)
    && (u.total.Some? ==> r.total == u.total.value) && (u.total.None? ==> r.total == r.input + r.output)
  }

  /** from_chat_response itself: the output list grows item by item, call by call. */
  method FromChatResponse(decode: Decoder, tools: seq<FlatTool>, result: ChatResult) returns (r: Result<Response, string>)
    ensures r == FromChat(decode, tools, result)
  {
    match result {
      case Malformed => return Failure("Malformed upstream chat response");
      case UpstreamError(e) => return Success(FRESH.(status := Failed, error := Some(e)));
      case NoChoices => return Failure("Upstream chat response has no choices");
      case Choice(finish, message, usage) =>
        if finish == "" {
          return Failure("Upstream chat response has no finish reason");
        }
        var status, truncated := FinalStatus(finish), finish == "length";
        var output: seq<Item> := [];
        if message.content.Some? {
          output := output + [Message(status, Some(OutputText(message.content.value)))];
        }
        if message.refusal != "" {
          output := output + [Message(status, Some(Refusal(message.refusal)))];
        }
        assert output == MessageItems(message, status);
        var items := AppendCalls(decode, tools, message.calls, status, truncated, output);
        match items {
          case Failure(e) => return Failure(e);
          case Success(all) =>
            return Success(Response(status, all, UsageField(usage), IncompleteReason(finish), None));
        }
    }
  }

  /** The loop over the message's tool calls. */
  method AppendCalls(decode: Decoder, tools: seq<FlatTool>, calls: seq<ChatCall>, status: Status, truncated: bool, head: seq<Item>)
    returns (r: Result<seq<Item>, string>)
    ensures match CallItems(decode, tools, calls, status, truncated)
            case Failure(e) => r == Failure(e)
            case Success(items) => r == Success(head + items)
  {
    hide CallItem, Restore;
    var output := head;
    ghost var whole := CallItems(decode, tools, calls, status, truncated);
    assert calls[0..] == calls;
    for k := 0 to |calls|
      invariant ContinuesItems(whole, output, head, CallItems(decode, tools, calls[k..], status, truncated))
    {
      assert calls[k..][0] == calls[k] && calls[k..][1..] == calls[k + 1..];
      var item := CallItem(decode, tools, calls[k], status, truncated);
      match item {
        case Failure(e) => return Failure(e);
        case Success(call) =>
          output := output + [Restore(tools, call)];
      }
    }
    assert calls[|calls|..] == [];
    assert output + [] == output;
    return Success(output);
  }

  /** `whole` is what `output` after `head` becomes once the remaining items `rest` are appended. */
  ghost predicate ContinuesItems(whole: Result<seq<Item>, string>, output: seq<Item>, head: seq<Item>, rest: Result<seq<Item>, string>) {
    match rest
    case Failure(e) => whole == Failure(e)
    case Success(items) => whole.Success? && output + items == head + whole.value
  }
}
