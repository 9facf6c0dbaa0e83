/** `pkg/llm/client/openai/session.go` and what the two OpenAI clients share: the chat
    session whose history the clients append to, the messages sent to the model, and the
    lookup of a tool by name. The MCP tools and the JSON decoding of tool arguments are
    abstract: a tool is its name, description and input schema (as text), decoding is
    `check` (`None` when the arguments decode, else the decoder's message), and calling a
    tool is `call` (its content, or the error's message). */
module LlmSession {
  import opened Wrappers

  /** One history entry; the clients read the first non-empty field. */
  datatype Message = Message(
    systemMessage: string,
    userMessage: string,
    assistantMessage: string,
    toolCallId: string,
    toolContent: string)

  function SystemMessage(text: string): Message { Message(text, "", "", "", "") }
  function UserMessage(text: string): Message { Message("", text, "", "", "") }
  function AssistantMessage(text: string): Message { Message("", "", text, "", "") }
  function ToolResult(id: string, content: string): Message { Message("", "", "", id, content) }

  /** An MCP tool of the session. */
  datatype Tool = Tool(name: string, description: string, schema: string)

  type ArgsCheck = string -> Option<string>
  type Caller = (Tool, string, string) -> Result<string, string>

  /** The session: the prompt, the history and the tools. The clients append to the
      history in place. */
  class Session {
    var prompt: string
    var history: seq<Message>
    var tools: seq<Tool>

    constructor(prompt: string, tools: seq<Tool>)
      ensures this.prompt == prompt && this.tools == tools && history == []
    {
      this.prompt := prompt;
      this.tools := tools;
      history := [];
    }
  }

  /** A message of the request sent to the model. A tool result goes as a user message of
      two text parts in the compatible client and as a tool message in the other. */
  datatype ParamMessage =
    | SystemParam(text: string)
    | UserParam(text: string)
    | AssistantParam(text: string)
    | UserPartsParam(parts: seq<string>)
    | ToolParam(content: string, toolCallId: string)

  /** The request messages of a history: each entry classified in order, the entries the
      classification drops left out. */
  function Collect(history: seq<Message>, classify: Message -> Option<ParamMessage>): (r: seq<ParamMessage>)
    ensures |r| <= |history|
  {
    if history == [] then []
    else
      var front := Collect(history[..|history| - 1], classify);
      match classify(history[|history| - 1])
      case Some(p) => front + [p]
      case None => front
  }

  /** The request of a longer history extends the request of the shorter one. */
  lemma {:induction false} CollectConcat(a: seq<Message>, b: seq<Message>, classify: Message -> Option<ParamMessage>)
    ensures Collect(a + b, classify) == Collect(a, classify) + Collect(b, classify)
    decreases |b|
  {
    if b == [] {
      assert a + b == a;
    } else {
      assert (a + b)[..|a + b| - 1] == a + b[..|b| - 1];
      assert (a + b)[|a + b| - 1] == b[|b| - 1];
      CollectConcat(a, b[..|b| - 1], classify);
    }
  }

  /** Every entry the classification keeps gives one message, so the request has as many
      messages as the history, exactly when no entry is dropped. */
  lemma {:induction false} CollectAllKept(history: seq<Message>, classify: Message -> Option<ParamMessage>)
    ensures |Collect(history, classify)| == |history| <==> forall k :: 0 <= k < |history| ==> classify(history[k]).Some?
  {
    if history != [] {
      var front := history[..|history| - 1];
      CollectAllKept(front, classify);
      assert forall k :: 0 <= k < |front| ==> history[k] == front[k];
      if classify(history[|history| - 1]).None? {
        assert |Collect(history, classify)| < |history|;
      } else if |Collect(history, classify)| != |history| {
        var k :| 0 <= k < |front| && classify(front[k]).None?;
        assert classify(history[k]).None?;
      }
    }
  }

  // ---------------------------------------------------------------------------------------
  // toolCall

  /** The position of the first tool with the name. */
  function FirstTool(tools: seq<Tool>, name: string): (r: Option<nat>)
    ensures r.Some? ==> r.value < |tools| && tools[r.value].name == name
    ensures r.Some? ==> forall j :: 0 <= j < r.value ==> tools[j].name != name
    ensures r.None? ==> forall j :: 0 <= j < |tools| ==> tools[j].name != name
  {
    if tools == [] then None
    else if tools[0].name == name then Some(0)
    else match FirstTool(tools[1..], name)
      case None => None
      case Some(k) => Some(k + 1)
  }

  /** What toolCall answers, always under the given id: "not found" when no tool has the
      name, the decoder's complaint when the arguments do not decode, else the first
      matching tool's content or its failure. */
  function ToolCallSpec(tools: seq<Tool>, id: string, name: string, argJson: string, check: ArgsCheck, call: Caller): Message
  {
    match FirstTool(tools, name)
    case None => ToolResult(id, "tool " + name + " not found")
    case Some(k) =>
      if check(argJson).Some? then ToolResult(id, "unmarshal json argument failed: " + check(argJson).value)
      else match call(tools[k], name, argJson)
        case Err(e) => ToolResult(id, "call tool " + name + " failed: " + e)
        case Ok(content) => ToolResult(id, content)
  }

  /** toolCall: the tools are tried in order and the first one with the name is used. */
  method ToolCall(tools: seq<Tool>, id: string, name: string, argJson: string, check: ArgsCheck, call: Caller)
    returns (m: Message)
    ensures m == ToolCallSpec(tools, id, name, argJson, check, call)
  {
    var i := 0;
    while i < |tools|
      invariant 0 <= i <= |tools|
      invariant forall j :: 0 <= j < i ==> tools[j].name != name
      decreases |tools| - i
    {
      var t := tools[i];
      if t.name != name {
        i := i + 1;
        continue;
      }
      assert FirstTool(tools, name) == Some(i);
      var err := check(argJson);
      if err.Some? {
        return ToolResult(id, "unmarshal json argument failed: " + err.value);
      }
      var content := call(t, name, argJson);
      if content.Err? {
        return ToolResult(id, "call tool " + name + " failed: " + content.error);
      }
      return ToolResult(id, content.value);
    }
    assert FirstTool(tools, name).None?;
    m := ToolResult(id, "tool " + name + " not found");
  }

  /** The answer keeps the id, carries only a tool result, names a missing tool, and does
      not call the tool when the arguments do not decode. */
  lemma ToolCallOutcomes(tools: seq<Tool>, id: string, name: string, argJson: string, check: ArgsCheck, call: Caller, call': Caller)
    ensures var m := ToolCallSpec(tools, id, name, argJson, check, call);
      m.toolCallId == id && m.systemMessage == "" && m.userMessage == "" && m.assistantMessage == ""
    ensures (forall j :: 0 <= j < |tools| ==> tools[j].name != name) ==>
      ToolCallSpec(tools, id, name, argJson, check, call).toolContent == "tool " + name + " not found"
    ensures check(argJson).Some? ==>
      ToolCallSpec(tools, id, name, argJson, check, call) == ToolCallSpec(tools, id, name, argJson, check, call')
  {
  }
}
