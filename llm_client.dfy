/** `pkg/llm/client/openai/client.go`: the client for services with native tool calls.
    The stream is the sequence of the first choices' deltas of the chunks that carry a
    choice; a delta holds content or tool-call pieces. The MCP call behind a tool is the
    parameter `call`, the JSON decoding of its arguments `check`. */
module LlmClient {
  import opened Wrappers
  import opened LlmSession

  /** A tool-call piece of a delta. */
  datatype ToolCallDelta = ToolCallDelta(id: string, name: string, arguments: string)

  /** The first choice's delta of a chunk. */
  datatype Delta = Delta(content: string, toolCalls: seq<ToolCallDelta>)

  /** A function tool offered in the request: the tool's name and description, and the
      properties of its input schema as the parameters of an object. */
  datatype FunctionTool = FunctionTool(name: string, description: string, properties: string)

  /** The request: the messages and the tools. The model settings are not modelled. */
  datatype Request = Request(messages: seq<ParamMessage>, tools: seq<FunctionTool>)

  // ---------------------------------------------------------------------------------------
  // Chat

  /** Client.Chat, up to the reply loop: the user message is appended, whatever it is. */
  method Chat(session: Session, userMessage: string)
    modifies session
    ensures session.prompt == old(session.prompt) && session.tools == old(session.tools)
    ensures session.history == old(session.history) + [UserMessage(userMessage)]
  {
    session.history := session.history + [UserMessage(userMessage)];
  }

  // ---------------------------------------------------------------------------------------
  // chatCompletionNewParams

  /** How an entry is sent: the first non-empty of its system, user, assistant and tool call
      fields decides, a tool result becoming a tool message under its id; an entry with
      all four empty is not sent. */
  function Classify(m: Message): (r: Option<ParamMessage>)
    ensures r.None? <==> m.systemMessage == "" && m.userMessage == "" && m.assistantMessage == "" && m.toolCallId == ""
    ensures m.systemMessage != "" ==> r == Some(SystemParam(m.systemMessage))
    ensures r.Some? && r.value.ToolParam? ==> r.value == ToolParam(m.toolContent, m.toolCallId) && m.toolCallId != ""
  {
    if m.systemMessage != "" then Some(SystemParam(m.systemMessage))
    else if m.userMessage != "" then Some(UserParam(m.userMessage))
    else if m.assistantMessage != "" then Some(AssistantParam(m.assistantMessage))
    else if m.toolCallId != "" then Some(ToolParam(m.toolContent, m.toolCallId))
    else None
  }

  /** The function tool offered for a session tool. */
  function FunctionToolOf(t: Tool): FunctionTool
  {
    FunctionTool(t.name, t.description, t.schema)
  }

  /** The request of a session: its history's messages and one function tool per session
      tool, in order. */
  function RequestOf(history: seq<Message>, tools: seq<Tool>): (r: Request)
  {
    Request(Collect(history, Classify), seq(|tools|, k requires 0 <= k < |tools| => FunctionToolOf(tools[k])))
  }

  /** chatCompletionNewParams. */
  method ChatCompletionNewParams(session: Session) returns (p: Request)
    ensures p == RequestOf(session.history, session.tools)
  {
    var messages := Messages(session.history);
    var tools := FunctionTools(session.tools);
    p := Request(messages, tools);
  }

  /** The message loop of chatCompletionNewParams. */
  method Messages(history: seq<Message>) returns (messages: seq<ParamMessage>)
    ensures messages == Collect(history, Classify)
  {
    messages := [];
    var i := 0;
    while i < |history|
      invariant 0 <= i <= |history|
      invariant messages == Collect(history[..i], Classify)
      decreases |history| - i
    {
      var msg := history[i];
      assert history[..i + 1][..i] == history[..i];
      if msg.systemMessage != "" {
        messages := messages + [SystemParam(msg.systemMessage)];
      } else if msg.userMessage != "" {
        messages := messages + [UserParam(msg.userMessage)];
      } else if msg.assistantMessage != "" {
        messages := messages + [AssistantParam(msg.assistantMessage)];
      } else if msg.toolCallId != "" {
        messages := messages + [ToolParam(msg.toolContent, msg.toolCallId)];
      }
      i := i + 1;
    }
    assert history[..i] == history;
  }

  /** The tool loop of chatCompletionNewParams. */
  method FunctionTools(tools: seq<Tool>) returns (r: seq<FunctionTool>)
    ensures r == RequestOf([], tools).tools
  {
    r := [];
    if |tools| > 0 {
      var i := 0;
      while i < |tools|
        invariant 0 <= i <= |tools|
        invariant |r| == i && forall k :: 0 <= k < i ==> r[k] == FunctionToolOf(tools[k])
        decreases |tools| - i
      {
        r := r + [FunctionToolOf(tools[i])];
        i := i + 1;
      }
    }
  }

  /** Chat always records the user message, but an empty one is not sent; a tool result
      is sent as a tool message under its own id. */
  lemma ChatRequest(history: seq<Message>, userMessage: string, id: string, content: string)
    ensures userMessage != "" ==>
      Collect(history + [UserMessage(userMessage)], Classify) == Collect(history, Classify) + [UserParam(userMessage)]
    ensures userMessage == "" ==> Collect(history + [UserMessage(userMessage)], Classify) == Collect(history, Classify)
    ensures id != "" ==> Collect(history + [ToolResult(id, content)], Classify) == Collect(history, Classify) + [ToolParam(content, id)]
  {
    assert (history + [UserMessage(userMessage)])[..|history|] == history;
    assert (history + [ToolResult(id, content)])[..|history|] == history;
  }

  // ---------------------------------------------------------------------------------------
  // handleStream

  /** What the deltas of a stream give: the reply, the pieces streamed and the tool
      results. A delta with content adds to the reply and is streamed; otherwise each of
      its tool-call pieces is answered by tool call, in order. */
  datatype Outcome = Outcome(message: string, streamed: seq<string>, toolMessages: seq<Message>)

  /** The answers to the tool-call pieces of one delta. */
  function Answers(calls: seq<ToolCallDelta>, tools: seq<Tool>, check: ArgsCheck, call: Caller): (r: seq<Message>)
  {
    seq(|calls|, k requires 0 <= k < |calls| => ToolCallSpec(tools, calls[k].id, calls[k].name, calls[k].arguments, check, call))
  }

  /** The outcome of the deltas, from the end. */
  function OutcomeOf(deltas: seq<Delta>, tools: seq<Tool>, check: ArgsCheck, call: Caller): Outcome
  {
    if deltas == [] then Outcome("", [], [])
    else
      var o := OutcomeOf(deltas[..|deltas| - 1], tools, check, call);
      var d := deltas[|deltas| - 1];
      if |d.content| > 0 then o.(message := o.message + d.content, streamed := o.streamed + [d.content])
      else o.(toolMessages := o.toolMessages + Answers(d.toolCalls, tools, check, call))
  }

  /** The loop over the stream. */
  method ReadStream(session: Session, deltas: seq<Delta>, check: ArgsCheck, call: Caller) returns (o: Outcome)
    ensures o == OutcomeOf(deltas, session.tools, check, call)
  {
    var tools := session.tools;
    o := Outcome("", [], []);
    var i := 0;
    while i < |deltas|
      invariant 0 <= i <= |deltas|
      invariant o == OutcomeOf(deltas[..i], tools, check, call)
      decreases |deltas| - i
    {
      assert deltas[..i + 1][..i] == deltas[..i];
      var ch := deltas[i];
      if |ch.content| > 0 {
        o := o.(message := o.message + ch.content, streamed := o.streamed + [ch.content]);
      } else if |ch.toolCalls| > 0 {
        var answers := AnswerAll(tools, ch.toolCalls, check, call);
        o := o.(toolMessages := o.toolMessages + answers);
      }
      i := i + 1;
    }
    assert deltas[..i] == deltas;
  }

  /** The inner loop: tool call for each tool-call piece of a delta. */
  method AnswerAll(tools: seq<Tool>, calls: seq<ToolCallDelta>, check: ArgsCheck, call: Caller) returns (r: seq<Message>)
    ensures r == Answers(calls, tools, check, call)
  {
    r := [];
    var j := 0;
    while j < |calls|
      invariant 0 <= j <= |calls|
      invariant |r| == j
      invariant forall k :: 0 <= k < j ==> r[k] == ToolCallSpec(tools, calls[k].id, calls[k].name, calls[k].arguments, check, call)
      decreases |calls| - j
    {
      var msg := ToolCall(tools, calls[j].id, calls[j].name, calls[j].arguments, check, call);
      r := r + [msg];
      j := j + 1;
    }
  }

  /** handleStream: the reply is recorded when non-empty, the tool results follow it, and
      another round is requested, with the request of the new history, exactly when there
      are tool results. */
  method HandleStream(session: Session, deltas: seq<Delta>, check: ArgsCheck, call: Caller)
    returns (next: Option<Request>, streamed: seq<string>)
    modifies session
    ensures session.prompt == old(session.prompt) && session.tools == old(session.tools)
    ensures var o := OutcomeOf(deltas, session.tools, check, call);
      && session.history == old(session.history) + (if o.message != "" then [AssistantMessage(o.message)] else []) + o.toolMessages
      && (next.Some? <==> o.toolMessages != [])
      && (next.Some? ==> next.value == RequestOf(session.history, session.tools))
      && streamed == o.streamed
  {
    var o := ReadStream(session, deltas, check, call);
    streamed := o.streamed;
    if o.message != "" {
      session.history := session.history + [AssistantMessage(o.message)];
    }
    if |o.toolMessages| > 0 {
      session.history := session.history + o.toolMessages;
      var p := ChatCompletionNewParams(session);
      return Some(p), streamed;
    }
    next := None;
  }

  /** The reply is the concatenation of the contents, the streamed pieces are the
      non-empty contents, and there is one tool result per tool-call piece of a delta
      without content, under that piece's id. */
  lemma {:induction false} OutcomeParts(deltas: seq<Delta>, tools: seq<Tool>, check: ArgsCheck, call: Caller)
    ensures var o := OutcomeOf(deltas, tools, check, call);
      && |o.toolMessages| == PieceCount(deltas)
      && (forall m :: m in o.toolMessages ==> m.toolCallId in PieceIds(deltas))
      && (forall s :: s in o.streamed ==> s != "")
      && o.message == Contents(deltas)
  {
    if deltas != [] {
      var front := deltas[..|deltas| - 1];
      var d := deltas[|deltas| - 1];
      OutcomeParts(front, tools, check, call);
      ContentsSnoc(front, d);
      assert front + [d] == deltas;
      var o := OutcomeOf(deltas, tools, check, call);
      var a := Answers(d.toolCalls, tools, check, call);
      forall m | m in o.toolMessages
        ensures m.toolCallId in PieceIds(deltas)
      {
        if |d.content| == 0 && m in a {
          var k :| 0 <= k < |a| && a[k] == m;
          ToolCallOutcomes(tools, d.toolCalls[k].id, d.toolCalls[k].name, d.toolCalls[k].arguments, check, call, call);
        }
      }
    }
  }

  /** The number of tool-call pieces of the deltas without content. */
  function PieceCount(deltas: seq<Delta>): nat
  {
    if deltas == [] then 0
    else
      var d := deltas[|deltas| - 1];
      PieceCount(deltas[..|deltas| - 1]) + (if |d.content| > 0 then 0 else |d.toolCalls|)
  }

  /** The ids of the tool-call pieces of the deltas without content. */
  function PieceIds(deltas: seq<Delta>): set<string>
  {
    if deltas == [] then {}
    else
      var d := deltas[|deltas| - 1];
      PieceIds(deltas[..|deltas| - 1]) + (if |d.content| > 0 then {} else set k | 0 <= k < |d.toolCalls| :: d.toolCalls[k].id)
  }

  /** The contents of the deltas, one after the other. */
  function Contents(deltas: seq<Delta>): string
  {
    if deltas == [] then "" else deltas[0].content + Contents(deltas[1..])
  }

  lemma {:induction false} ContentsSnoc(deltas: seq<Delta>, d: Delta)
    ensures Contents(deltas + [d]) == Contents(deltas) + d.content
    decreases |deltas|
  {
    if deltas == [] {
      assert [d][1..] == [];
    } else {
      assert (deltas + [d])[0] == deltas[0];
      assert (deltas + [d])[1..] == deltas[1..] + [d];
      ContentsSnoc(deltas[1..], d);
    }
  }

  /** A stream without tool-call pieces ends the conversation. */
  lemma NoPiecesNoRound(deltas: seq<Delta>, tools: seq<Tool>, check: ArgsCheck, call: Caller)
    requires forall k :: 0 <= k < |deltas| ==> deltas[k].toolCalls == []
    ensures OutcomeOf(deltas, tools, check, call).toolMessages == []
  {
    OutcomeParts(deltas, tools, check, call);
    PieceCountZero(deltas);
  }

  /** Deltas without tool-call pieces have none to count. */
  lemma {:induction false} PieceCountZero(deltas: seq<Delta>)
    requires forall k :: 0 <= k < |deltas| ==> deltas[k].toolCalls == []
    ensures PieceCount(deltas) == 0
  {
    if deltas != [] {
      PieceCountZero(deltas[..|deltas| - 1]);
    }
  }
}
