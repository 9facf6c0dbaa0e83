/** `pkg/llm/client/openai/compatible.go`: the client for OpenAI-compatible services
    without native tool calls. Tools are described in the system prompt, and the model asks
    for one by writing a `<tool_use>` block. Not modelled here: the prompt texts, which are
    defined elsewhere (`prompts`); the JSON and XML encoders (`schemaJson`, `defineXml`);
    the block extraction of utils.go (`extract`); and the XML decoding of a block (`parse`),
    which gives the fields it filled and the decoder's message on failure. The stream is
    the sequence of content deltas of the chunks that carry a choice. */
module LlmCompatible {
  import opened Wrappers
  import opened LlmSession
  import GoStrings

  const UserInstructions: string := "# User Instructions"
  const NowBegin: string := "Now Begin! If you solve the task correctly, you will receive a reward of $1,000,000."

  /** The prompt texts the system message is made of. */
  datatype Prompts = Prompts(system: string, toolUse: string, toolUseRules: string)

  /** A tool as described to the model. */
  datatype ToolDef = ToolDef(name: string, description: string, arguments: string)

  /** A tool block as decoded. */
  datatype ToolUse = ToolUse(name: string, arguments: string)

  type SchemaJson = Tool -> string
  type DefineXml = seq<ToolDef> -> string
  type Extract = string -> seq<string>
  type Parse = string -> (ToolUse, Option<string>)

  // ---------------------------------------------------------------------------------------
  // CompatibleSystem and Chart

  /** The tools as described to the model, in order. */
  function ToolDefs(tools: seq<Tool>, schemaJson: SchemaJson): (defs: seq<ToolDef>)
  {
    seq(|tools|, k requires 0 <= k < |tools| => ToolDef(tools[k].name, tools[k].description, schemaJson(tools[k])))
  }

  /** The user's instructions part of the system text: present only when there is a
      prompt. */
  function Instructions(prompt: string): string
  {
    if prompt != "" then UserInstructions + prompt else ""
  }

  /** The tool section of the system text: present only when there are tools. */
  function ToolSection(prompts: Prompts, tools: seq<Tool>, schemaJson: SchemaJson, defineXml: DefineXml): string
  {
    if |tools| > 0 then prompts.toolUse + defineXml(ToolDefs(tools, schemaJson)) + prompts.toolUseRules else ""
  }

  /** The system text: the base prompt, the user's instructions, the tool section and the
      closing sentence. */
  function SystemText(prompts: Prompts, prompt: string, tools: seq<Tool>, schemaJson: SchemaJson, defineXml: DefineXml): string
  {
    prompts.system + Instructions(prompt) + ToolSection(prompts, tools, schemaJson, defineXml) + NowBegin
  }

  /** CompatibleSystem: a session with history is left alone; an empty one gets its system
      message. */
  method CompatibleSystem(session: Session, prompts: Prompts, schemaJson: SchemaJson, defineXml: DefineXml)
    modifies session
    ensures session.prompt == old(session.prompt) && session.tools == old(session.tools)
    ensures old(session.history) != [] ==> session.history == old(session.history)
    ensures old(session.history) == [] ==>
      session.history == [SystemMessage(SystemText(prompts, session.prompt, session.tools, schemaJson, defineXml))]
  {
    if |session.history| > 0 {
      return;
    }
    var prompt, tools := session.prompt, session.tools;
    var buf := prompts.system;
    if prompt != "" {
      buf := buf + UserInstructions;
      buf := buf + prompt;
      assert buf == prompts.system + (UserInstructions + prompt);
    }
    assert buf == prompts.system + Instructions(prompt);
    if |tools| > 0 {
      buf := buf + prompts.toolUse;
      var defs: seq<ToolDef> := [];
      var i := 0;
      while i < |tools|
        invariant 0 <= i <= |tools|
        invariant defs == ToolDefs(tools[..i], schemaJson)
        decreases |tools| - i
      {
        defs := defs + [ToolDef(tools[i].name, tools[i].description, schemaJson(tools[i]))];
        i := i + 1;
      }
      assert tools[..i] == tools;
      buf := buf + defineXml(defs);
      buf := buf + prompts.toolUseRules;
      assert buf == prompts.system + Instructions(prompt) + (prompts.toolUse + defineXml(defs) + prompts.toolUseRules);
    }
    assert buf == prompts.system + Instructions(prompt) + ToolSection(prompts, tools, schemaJson, defineXml);
    buf := buf + NowBegin;
    session.history := session.history + [SystemMessage(buf)];
  }

  /** The system text starts with the base prompt, followed by the user's instructions
      exactly when there is a prompt. */
  lemma SystemTextPrefix(prompts: Prompts, prompt: string, tools: seq<Tool>, schemaJson: SchemaJson, defineXml: DefineXml)
    ensures var t := SystemText(prompts, prompt, tools, schemaJson, defineXml);
      var n := |prompts.system|;
      && n <= |t| && t[..n] == prompts.system
      && (prompt != "" ==> n + |UserInstructions| + |prompt| <= |t| && t[n..n + |UserInstructions| + |prompt|] == UserInstructions + prompt)
      && (prompt == "" ==> t[n..] == ToolSection(prompts, tools, schemaJson, defineXml) + NowBegin)
  {
    var t := SystemText(prompts, prompt, tools, schemaJson, defineXml);
    var n := |prompts.system|;
    var rest := ToolSection(prompts, tools, schemaJson, defineXml) + NowBegin;
    assert t == prompts.system + (Instructions(prompt) + rest);
    assert t[..n] == prompts.system;
    assert t[n..] == Instructions(prompt) + rest;
    if prompt != "" {
      assert t[n..][..|UserInstructions| + |prompt|] == UserInstructions + prompt;
    }
  }

  /** The system text ends with the closing sentence, preceded by the tool section when
      there are tools; without tools it is the base prompt, the instructions and the
      closing sentence alone. */
  lemma SystemTextSuffix(prompts: Prompts, prompt: string, tools: seq<Tool>, schemaJson: SchemaJson, defineXml: DefineXml)
    ensures var t := SystemText(prompts, prompt, tools, schemaJson, defineXml);
      && GoStrings.HasSuffix(t, NowBegin)
      && (|tools| > 0 ==> GoStrings.HasSuffix(t, prompts.toolUse + defineXml(ToolDefs(tools, schemaJson)) + prompts.toolUseRules + NowBegin))
      && (|tools| == 0 ==> t == prompts.system + Instructions(prompt) + NowBegin)
  {
    var t := SystemText(prompts, prompt, tools, schemaJson, defineXml);
    var head := prompts.system + Instructions(prompt);
    var tail := ToolSection(prompts, tools, schemaJson, defineXml) + NowBegin;
    assert t == head + tail;
    assert t[|head|..] == tail;
    assert t[|t| - |NowBegin|..] == NowBegin;
  }

  /** CompatibleClient.Chart, up to the reply loop: the system message when the session
      is new, then the user message. */
  method Chart(session: Session, userMessage: string, prompts: Prompts, schemaJson: SchemaJson, defineXml: DefineXml)
    modifies session
    ensures session.prompt == old(session.prompt) && session.tools == old(session.tools)
    ensures session.history ==
      (if old(session.history) == [] then [SystemMessage(SystemText(prompts, session.prompt, session.tools, schemaJson, defineXml))]
       else old(session.history)) + [UserMessage(userMessage)]
  {
    CompatibleSystem(session, prompts, schemaJson, defineXml);
    session.history := session.history + [UserMessage(userMessage)];
  }

  // ---------------------------------------------------------------------------------------
  // chatCompletionNewParams

  /** How an entry is sent: the first non-empty of its system, user, assistant and tool call
      fields decides, a tool result becoming a user message of two text parts; an entry
      with all four empty is not sent. */
  function Classify(m: Message): (r: Option<ParamMessage>)
    ensures r.None? <==> m.systemMessage == "" && m.userMessage == "" && m.assistantMessage == "" && m.toolCallId == ""
    ensures m.systemMessage != "" ==> r == Some(SystemParam(m.systemMessage))
    ensures r.Some? && r.value.UserPartsParam? ==> m.toolCallId != "" && |r.value.parts| == 2 && r.value.parts[1] == m.toolContent
  {
    if m.systemMessage != "" then Some(SystemParam(m.systemMessage))
    else if m.userMessage != "" then Some(UserParam(m.userMessage))
    else if m.assistantMessage != "" then Some(AssistantParam(m.assistantMessage))
    else if m.toolCallId != "" then
      Some(UserPartsParam(["Here is the result of tool call " + m.toolCallId + ":", m.toolContent]))
    else None
  }

  /** chatCompletionNewParams: the request messages, one per sent entry, in history order.
      The model settings are not modelled. */
  method ChatCompletionNewParams(session: Session) returns (messages: seq<ParamMessage>)
    ensures messages == Collect(session.history, Classify)
  {
    var history := session.history;
    messages := [];
    var i := 0;
    while i < |history|
      invariant 0 <= i <= |history|
      invariant messages == Collect(history[..i], Classify)
      decreases |history| - i
    {
      var msg := history[i];
      assert history[..i + 1][..i] == history[..i];
      if msg.systemMessage != "" {
        messages := messages + [SystemParam(msg.systemMessage)];
      } else if msg.userMessage != "" {
        messages := messages + [UserParam(msg.userMessage)];
      } else if msg.assistantMessage != "" {
        messages := messages + [AssistantParam(msg.assistantMessage)];
      } else if msg.toolCallId != "" {
        messages := messages + [UserPartsParam(["Here is the result of tool call " + msg.toolCallId + ":", msg.toolContent])];
      }
      i := i + 1;
    }
    assert history[..i] == history;
  }

  /** After Chart the request ends with the user's message, unless it is empty: an empty
      user message is not sent. */
  lemma ChartRequest(history: seq<Message>, userMessage: string)
    ensures userMessage != "" ==>
      Collect(history + [UserMessage(userMessage)], Classify) == Collect(history, Classify) + [UserParam(userMessage)]
    ensures userMessage == "" ==> Collect(history + [UserMessage(userMessage)], Classify) == Collect(history, Classify)
  {
    assert (history + [UserMessage(userMessage)])[..|history|] == history;
  }

  // ---------------------------------------------------------------------------------------
  // tryToolCall and handleStream

  /** What tryToolCall answers: per block, a parse error message under the id "unknown"
      when the block does not decode, then the tool call with the decoded name as both id
      and name. */
  function TryToolCallSpec(blocks: seq<string>, tools: seq<Tool>, parse: Parse, check: ArgsCheck, call: Caller): seq<Message>
  {
    if blocks == [] then []
    else
      var front := TryToolCallSpec(blocks[..|blocks| - 1], tools, parse, check, call);
      var (toolUse, err) := parse(blocks[|blocks| - 1]);
      front
      + (if err.Some? then [ToolResult("unknown", "parse tool use error: " + err.value)] else [])
      + [ToolCallSpec(tools, toolUse.name, toolUse.name, toolUse.arguments, check, call)]
  }

  /** tryToolCall. */
  method TryToolCall(content: string, session: Session, extract: Extract, parse: Parse, check: ArgsCheck, call: Caller)
    returns (result: seq<Message>)
    ensures result == TryToolCallSpec(extract(content), session.tools, parse, check, call)
  {
    var messages := extract(content);
    var tools := session.tools;
    result := [];
    var i := 0;
    while i < |messages|
      invariant 0 <= i <= |messages|
      invariant result == TryToolCallSpec(messages[..i], tools, parse, check, call)
      decreases |messages| - i
    {
      var (toolUse, err) := parse(messages[i]);
      assert messages[..i + 1][..i] == messages[..i];
      if err.Some? {
        result := result + [ToolResult("unknown", "parse tool use error: " + err.value)];
      }
      var msg := ToolCall(tools, toolUse.name, toolUse.name, toolUse.arguments, check, call);
      result := result + [msg];
      i := i + 1;
    }
    assert messages[..i] == messages;
  }

  /** Every block gives one tool result, and one more for each block that does not decode;
      every result is under the id "unknown" or a decoded tool name. */
  lemma {:induction false} TryToolCallCount(blocks: seq<string>, tools: seq<Tool>, parse: Parse, check: ArgsCheck, call: Caller)
    ensures var r := TryToolCallSpec(blocks, tools, parse, check, call);
      |r| == |blocks| + |Failed(blocks, parse)|
    ensures forall m :: m in TryToolCallSpec(blocks, tools, parse, check, call) ==>
      m.toolCallId == "unknown" || exists k :: 0 <= k < |blocks| && m.toolCallId == parse(blocks[k]).0.name
  {
    if blocks != [] {
      var front := blocks[..|blocks| - 1];
      TryToolCallCount(front, tools, parse, check, call);
      forall m | m in TryToolCallSpec(blocks, tools, parse, check, call)
        ensures m.toolCallId == "unknown" || exists k :: 0 <= k < |blocks| && m.toolCallId == parse(blocks[k]).0.name
      {
        if m in TryToolCallSpec(front, tools, parse, check, call) && m.toolCallId != "unknown" {
          var k :| 0 <= k < |front| && m.toolCallId == parse(front[k]).0.name;
          assert front[k] == blocks[k];
        }
      }
    }
  }

  /** The blocks that do not decode. */
  function Failed(blocks: seq<string>, parse: Parse): (r: seq<string>)
    ensures |r| <= |blocks|
  {
    if blocks == [] then []
    else Failed(blocks[..|blocks| - 1], parse) + (if parse(blocks[|blocks| - 1]).1.Some? then [blocks[|blocks| - 1]] else [])
  }

  /** The concatenated deltas. */
  function Concat(deltas: seq<string>): string
  {
    if deltas == [] then "" else Concat(deltas[..|deltas| - 1]) + deltas[|deltas| - 1]
  }

  /** The reply text as the tool check sees it: a newline is added when it does not end
      with one. */
  function Terminated(message: string): string
  {
    if GoStrings.HasSuffix(message, "\n") then message else message + "\n"
  }

  /** The tool results of a reply: those of its blocks when it mentions "tool_use". */
  function ToolMessagesOf(message: string, tools: seq<Tool>, extract: Extract, parse: Parse, check: ArgsCheck, call: Caller): seq<Message>
  {
    var m := Terminated(message);
    if GoStrings.Contains(m, "tool_use") then TryToolCallSpec(extract(m), tools, parse, check, call) else []
  }

  /** handleStream after the stream: the reply is recorded when non-empty, the tool
      results follow it, and another round is requested, with the request of the new
      history, exactly when there are tool results. The streamed pieces are the non-empty
      deltas and a final newline when the reply does not end with one. */
  method HandleStream(session: Session, deltas: seq<string>, extract: Extract, parse: Parse, check: ArgsCheck, call: Caller)
    returns (next: Option<seq<ParamMessage>>, streamed: seq<string>)
    modifies session
    ensures session.prompt == old(session.prompt) && session.tools == old(session.tools)
    ensures var message := Concat(deltas);
      var tools := ToolMessagesOf(message, session.tools, extract, parse, check, call);
      && session.history == old(session.history) + (if message != "" then [AssistantMessage(message)] else []) + tools
      && (next.Some? <==> tools != [])
      && (next.Some? ==> next.value == Collect(session.history, Classify))
      && streamed == NonEmpty(deltas) + (if GoStrings.HasSuffix(message, "\n") then [] else ["\n"])
  {
    var message;
    message, streamed := ReadStream(deltas);
    if message != "" {
      session.history := session.history + [AssistantMessage(message)];
    }
    var toolCallMessages, newline := ToolMessages(session, message, extract, parse, check, call);
    streamed := streamed + newline;
    if |toolCallMessages| > 0 {
      session.history := session.history + toolCallMessages;
      var p := ChatCompletionNewParams(session);
      return Some(p), streamed;
    }
    next := None;
  }

  /** The middle of handleStream: the newline added to a reply that lacks one, and the
      tool results of the terminated reply. */
  method ToolMessages(session: Session, message: string, extract: Extract, parse: Parse, check: ArgsCheck, call: Caller)
    returns (toolCallMessages: seq<Message>, newline: seq<string>)
    ensures toolCallMessages == ToolMessagesOf(message, session.tools, extract, parse, check, call)
    ensures newline == if GoStrings.HasSuffix(message, "\n") then [] else ["\n"]
  {
    var full := message;
    newline := [];
    if !GoStrings.HasSuffix(full, "\n") {
      full := full + "\n";
      newline := ["\n"];
    }
    toolCallMessages := [];
    if GoStrings.Contains(full, "tool_use") {
      var msg := TryToolCall(full, session, extract, parse, check, call);
      toolCallMessages := toolCallMessages + msg;
    }
  }

  /** The loop over the stream: the reply is the deltas concatenated, and each non-empty
      delta is streamed as it comes. */
  method ReadStream(deltas: seq<string>) returns (message: string, streamed: seq<string>)
    ensures message == Concat(deltas) && streamed == NonEmpty(deltas)
  {
    message := "";
    streamed := [];
    var i := 0;
    while i < |deltas|
      invariant 0 <= i <= |deltas|
      invariant message == Concat(deltas[..i]) && streamed == NonEmpty(deltas[..i])
      decreases |deltas| - i
    {
      assert deltas[..i + 1][..i] == deltas[..i];
      if |deltas[i]| > 0 {
        message := message + deltas[i];
        streamed := streamed + [deltas[i]];
      }
      i := i + 1;
    }
    assert deltas[..i] == deltas;
  }

  /** The non-empty deltas, in order. */
  function NonEmpty(deltas: seq<string>): seq<string>
  {
    if deltas == [] then []
    else NonEmpty(deltas[..|deltas| - 1]) + (if |deltas[|deltas| - 1]| > 0 then [deltas[|deltas| - 1]] else [])
  }

  /** A reply that does not mention "tool_use" ends the conversation. */
  lemma NoToolUseNoRound(message: string, tools: seq<Tool>, extract: Extract, parse: Parse, check: ArgsCheck, call: Caller)
    requires !GoStrings.Contains(message, "tool_use")
    ensures ToolMessagesOf(message, tools, extract, parse, check, call) == []
  {
    if Terminated(message) != message {
      NewlineAddsNoToolUse(message);
    }
  }

  /** Appending a newline does not make "tool_use" appear. */
  lemma NewlineAddsNoToolUse(message: string)
    ensures GoStrings.Contains(message + "\n", "tool_use") ==> GoStrings.Contains(message, "tool_use")
  {
    var m := message + "\n";
    if GoStrings.Contains(m, "tool_use") {
      var j :| 0 <= j <= |m| - 8 && GoStrings.OccursAt(m, "tool_use", j);
      assert m[j..j + 8] == "tool_use";
      assert m[j + 7] == m[j..j + 8][7] == 'e';
      assert m[|m| - 1] == '\n';
      assert j + 8 <= |message|;
      assert message[j..j + 8] == m[j..j + 8];
      assert GoStrings.OccursAt(message, "tool_use", j);
    }
  }
}
