/** The chat assistant's dispatch (ai-service/core/llm_service.py,
    generate_answer): one chat turn decides between a registered tool, an
    unknown tool, and the retrieval fallback; a tool result that is an empty
    JSON list asks the model for a spelling suggestion instead. Every call to
    the model, the chat, the tools and the vector store is an oracle; the
    result records which path ran and which calls were made. */
module LlmService {
  import opened Common
  import DbQueryService

  /** The `__name__` of each registered tool, in registration order. */
  const Tools: seq<string> := ["find_projects_by_concept", "find_projects", "find_users", "scrape_for_info"]

  const Unhandled: string := "Sorry, I'm not sure how to handle that request."

  /** The exceptions the dispatch distinguishes; `JsonDecodeError` is a kind
      of `ValueError`. */
  datatype Exc = JsonDecodeError | TypeError | ValueError | IndexError | AttributeError | OtherError

  /** The outer `except (ValueError, IndexError, AttributeError)`. */
  predicate CaughtByDispatch(e: Exc) {
    e == JsonDecodeError || e == ValueError || e == IndexError || e == AttributeError
  }

  /** The inner `except (json.JSONDecodeError, TypeError)`. */
  predicate CaughtBySuggestion(e: Exc) {
    e == JsonDecodeError || e == TypeError
  }

  /** The outcome of one external call. */
  datatype Call<T> = Ok(value: T) | Fail(exc: Exc)

  datatype FunctionCall = FunctionCall(name: string, args: seq<(string, string)>)

  /** A message sent on the chat after the few-shot history. */
  datatype ChatMessage = UserQuery(text: string) | FunctionResponse(name: string, result: string)

  /** A tool invocation: the tool's position in `Tools` and the arguments. */
  datatype ToolCall = ToolCall(tool: nat, args: seq<(string, string)>)

  /** The calls made so far: chat messages, generate_content prompts, tool
      invocations and vector-store queries, each in order. */
  datatype Trace = Trace(chat: seq<ChatMessage>, prompts: seq<string>, toolCalls: seq<ToolCall>, retrievals: seq<string>)

  datatype Path = NoTool | Suggestion | ToolAnswer | Retrieval

  /** What generate_answer does: return a text along one path, or let an
      exception escape. */
  datatype Outcome = Answered(path: Path, text: string, trace: Trace) | Raised(exc: Exc, trace: Trace)

  /** The backends as oracles:
      `firstReply`: sending the query, then reading the function call of the
      reply's first part; `runTool`: invoking a tool; `suggestion`: the text
      of the spelling-suggestion generation; `toolReply`: the first-part text
      of the reply to the function response; `retrieve`: the vector store's
      similar documents for a text; `ragReply`: the text of the retrieval
      generation. */
  datatype Backends = Backends(
    firstReply: Call<Call<FunctionCall>>,
    runTool: ToolCall -> Call<string>,
    suggestion: Call<string>,
    toolReply: Call<string>,
    retrieve: string -> Call<string>,
    ragReply: Call<string>)

  /** The `next(...)` lookup: the first registered tool with that name. */
  function FindTool(name: string): (r: Option<nat>)
    ensures r.None? <==> name !in Tools
    ensures r.Some? ==> (r.value < |Tools| && Tools[r.value] == name
      && forall j :: 0 <= j < r.value ==> Tools[j] != name)
  {
    FindFrom(name, 0)
  }

  function FindFrom(name: string, k: nat): (r: Option<nat>)
    requires k <= |Tools|
    ensures r.None? <==> forall j :: k <= j < |Tools| ==> Tools[j] != name
    ensures r.Some? ==> (k <= r.value < |Tools| && Tools[r.value] == name
      && forall j :: k <= j < r.value ==> Tools[j] != name)
    decreases |Tools| - k
  {
    if k == |Tools| then None
    else if Tools[k] == name then Some(k)
    else FindFrom(name, k + 1)
  }

  /** The white space `json.loads` skips. */
  predicate IsJsonSpace(c: char) {
    c == ' ' || c == '\t' || c == '\n' || c == '\r'
  }

  /** `json.loads(s)` is the empty list `[]`. */
  predicate IsEmptyJsonList(s: string) {
    var t := Trim(s, IsJsonSpace);
    |t| >= 2 && t[0] == '[' && t[|t| - 1] == ']'
    && forall i :: 1 <= i < |t| - 1 ==> IsJsonSpace(t[i])
  }

  /** A text that is a JSON object is never the empty list. */
  lemma ObjectIsNotEmptyList(s: string)
    requires |s| > 0 && s[0] == '{' && s[|s| - 1] == '}'
    ensures !IsEmptyJsonList(s)
  {
    var l := TrimLeft(s, IsJsonSpace);
    assert !IsJsonSpace(s[0]);
    assert l == s;
    var t := TrimRight(l, IsJsonSpace);
    if t != [] {
      assert t[0] == '{';
    }
  }

  /** The envelopes of find_projects and find_users never trigger the
      spelling suggestion. */
  lemma EnvelopeIsNotEmptyList(e: DbQueryService.Envelope, dataJson: string)
    ensures !IsEmptyJsonList(DbQueryService.Dumps(e, dataJson))
  {
    ObjectIsNotEmptyList(DbQueryService.Dumps(e, dataJson));
  }

  const SuggestionHead: string := "The user searched for '"
  const SuggestionTail: string := "', but the database returned no results. Is there a likely spelling mistake in the query? If so, suggest the correct spelling. If not, just say you couldn't find anything."

  /** The spelling-suggestion prompt; it embeds the query. */
  function SuggestionPrompt(query: string): (r: string)
    ensures OccursAt(r, query, |SuggestionHead|)
  {
    SuggestionHead + query + SuggestionTail
  }

  const RagHead: string := "\n        Answer the user's query based on the following context from the platform's knowledge base.\n\n        Context:\n        "
  const RagMiddle: string := "\n\n        User Query:\n        "
  const RagTail: string := "\n        "

  /** The retrieval prompt; it embeds the context and then the query. */
  function RagPrompt(context: string, query: string): (r: string)
    ensures OccursAt(r, context, |RagHead|)
    ensures OccursAt(r, query, |RagHead| + |context| + |RagMiddle|)
  {
    RagHead + context + RagMiddle + query + RagTail
  }

  /** How the `try` block ends: with an answer, or with an exception and the
      calls made until then. */
  datatype Step = Returned(path: Path, text: string, trace: Trace) | Threw(exc: Exc, trace: Trace)

  /** The `try` block of generate_answer, after the query was sent. */
  function Dispatch(query: string, read: Call<FunctionCall>, b: Backends): (r: Step)
    ensures 1 <= |r.trace.chat| <= 2 && r.trace.chat[0] == UserQuery(query)
    ensures |r.trace.chat| == 2 ==> r.trace.chat[1].FunctionResponse? && |r.trace.toolCalls| == 1
    ensures r.trace.retrievals == [] && |r.trace.prompts| <= 1 && |r.trace.toolCalls| <= 1
    ensures r.Returned? ==> r.path != Retrieval
    ensures read.Fail? ==> r == Threw(read.exc, Trace([UserQuery(query)], [], [], []))
    // A known tool name runs the first tool with that name, with the call's arguments.
    ensures read.Ok? && FindTool(read.value.name).Some? ==>
      r.trace.toolCalls == [ToolCall(FindTool(read.value.name).value, read.value.args)]
    // An unknown tool name gets the fixed apology and nothing else happens.
    ensures read.Ok? && read.value.name !in Tools ==>
      r == Returned(NoTool, Unhandled, Trace([UserQuery(query)], [], [], []))
  {
    var t0 := Trace([UserQuery(query)], [], [], []);
    if read.Fail? then Threw(read.exc, t0)
    else
      var fc := read.value;
      var k := FindTool(fc.name);
      if k.None? then Returned(NoTool, Unhandled, t0)
      else
        var call := ToolCall(k.value, fc.args);
        var t1 := t0.(toolCalls := [call]);
        var result := b.runTool(call);
        if result.Fail? then Threw(result.exc, t1)
        else
          var s := result.value;
          var t2 := if IsEmptyJsonList(s) then t1.(prompts := [SuggestionPrompt(query)]) else t1;
          if IsEmptyJsonList(s) && b.suggestion.Ok? then Returned(Suggestion, b.suggestion.value, t2)
          else if IsEmptyJsonList(s) && !CaughtBySuggestion(b.suggestion.exc) then Threw(b.suggestion.exc, t2)
          else
            var t3 := t2.(chat := t2.chat + [FunctionResponse(fc.name, s)]);
            if b.toolReply.Fail? then Threw(b.toolReply.exc, t3)
            else Returned(ToolAnswer, b.toolReply.value, t3)
  }

  /** generate_answer */
  function GenerateAnswer(query: string, b: Backends): (r: Outcome)
    // The query goes out once, first; the chat then gets at most one
    // function response, and only after a tool ran.
    ensures 1 <= |r.trace.chat| <= 2 && r.trace.chat[0] == UserQuery(query)
    ensures |r.trace.chat| == 2 ==> r.trace.chat[1].FunctionResponse? && |r.trace.toolCalls| == 1
    ensures |r.trace.toolCalls| <= 1 && |r.trace.prompts| <= 2
    // Sending the query is outside the try: its failure escapes.
    ensures b.firstReply.Fail? ==> r == Raised(b.firstReply.exc, Trace([UserQuery(query)], [], [], []))
    // The vector store is consulted only on the retrieval fallback, once,
    // with the query.
    ensures r.trace.retrievals == [] || r.trace.retrievals == [query]
    ensures r.Answered? ==> (r.path == Retrieval <==> r.trace.retrievals != [])
  {
    if b.firstReply.Fail? then Raised(b.firstReply.exc, Trace([UserQuery(query)], [], [], []))
    else
      var step := Dispatch(query, b.firstReply.value, b);
      if step.Returned? then Answered(step.path, step.text, step.trace)
      else if !CaughtByDispatch(step.exc) then Raised(step.exc, step.trace)
      else
        var t := step.trace.(retrievals := [query]);
        var context := b.retrieve(query);
        if context.Fail? then Raised(context.exc, t)
        else
          var t' := t.(prompts := t.prompts + [RagPrompt(context.value, query)]);
          if b.ragReply.Fail? then Raised(b.ragReply.exc, t')
          else Answered(Retrieval, b.ragReply.value, t')
  }

  /** The read of the first reply's call, when the query was sent. */
  function FirstCall(b: Backends): Option<FunctionCall> {
    if b.firstReply.Ok? && b.firstReply.value.Ok? then Some(b.firstReply.value.value) else None
  }

  /** A known tool whose result is an empty JSON list: one suggestion
      generation with the query in its prompt, and its text is the answer; no
      function response is sent. */
  lemma SuggestionPath(query: string, b: Backends)
    requires FirstCall(b).Some? && FindTool(FirstCall(b).value.name).Some?
    requires var call := ToolCall(FindTool(FirstCall(b).value.name).value, FirstCall(b).value.args);
      b.runTool(call).Ok? && IsEmptyJsonList(b.runTool(call).value)
    requires b.suggestion.Ok?
    ensures var call := ToolCall(FindTool(FirstCall(b).value.name).value, FirstCall(b).value.args);
      GenerateAnswer(query, b)
      == Answered(Suggestion, b.suggestion.value, Trace([UserQuery(query)], [SuggestionPrompt(query)], [call], []))
  {
  }

  /** A known tool whose result is anything but an empty JSON list: the result
      goes back as one function response, and the reply's text is the
      answer. */
  lemma ToolAnswerPath(query: string, b: Backends)
    requires FirstCall(b).Some? && FindTool(FirstCall(b).value.name).Some?
    requires var call := ToolCall(FindTool(FirstCall(b).value.name).value, FirstCall(b).value.args);
      b.runTool(call).Ok? && !IsEmptyJsonList(b.runTool(call).value)
    requires b.toolReply.Ok?
    ensures var fc := FirstCall(b).value;
      var call := ToolCall(FindTool(fc.name).value, fc.args);
      GenerateAnswer(query, b) == Answered(ToolAnswer, b.toolReply.value,
        Trace([UserQuery(query), FunctionResponse(fc.name, b.runTool(call).value)], [], [call], []))
  {
  }

  /** The database tools' envelopes always take the function-response path. */
  lemma EnvelopeGetsToolAnswer(query: string, b: Backends, e: DbQueryService.Envelope, dataJson: string)
    requires FirstCall(b).Some? && FindTool(FirstCall(b).value.name).Some?
    requires var call := ToolCall(FindTool(FirstCall(b).value.name).value, FirstCall(b).value.args);
      b.runTool(call) == Ok(DbQueryService.Dumps(e, dataJson))
    requires b.toolReply.Ok?
    ensures GenerateAnswer(query, b).Answered? && GenerateAnswer(query, b).path == ToolAnswer
  {
    EnvelopeIsNotEmptyList(e, dataJson);
    ToolAnswerPath(query, b);
  }

  /** A reply whose call cannot be read falls back to retrieval: one
      vector-store query and one generation whose prompt holds the context
      and the query. */
  lemma UnreadableReplyRetrieves(query: string, b: Backends)
    requires b.firstReply.Ok? && b.firstReply.value.Fail? && CaughtByDispatch(b.firstReply.value.exc)
    requires b.retrieve(query).Ok? && b.ragReply.Ok?
    ensures GenerateAnswer(query, b)
      == Answered(Retrieval, b.ragReply.value,
           Trace([UserQuery(query)], [RagPrompt(b.retrieve(query).value, query)], [], [query]))
  {
  }

  /** A tool failing with a caught exception also falls back to retrieval,
      after the tool call. */
  lemma ToolErrorRetrieves(query: string, b: Backends)
    requires FirstCall(b).Some? && FindTool(FirstCall(b).value.name).Some?
    requires var call := ToolCall(FindTool(FirstCall(b).value.name).value, FirstCall(b).value.args);
      b.runTool(call).Fail? && CaughtByDispatch(b.runTool(call).exc)
    requires b.retrieve(query).Ok? && b.ragReply.Ok?
    ensures var call := ToolCall(FindTool(FirstCall(b).value.name).value, FirstCall(b).value.args);
      GenerateAnswer(query, b)
      == Answered(Retrieval, b.ragReply.value,
           Trace([UserQuery(query)], [RagPrompt(b.retrieve(query).value, query)], [call], [query]))
  {
  }

  /** The vector store is consulted exactly when the `try` block throws one
      of the exceptions its handler names. */
  lemma RetrievalExactlyWhenCaught(query: string, b: Backends)
    ensures GenerateAnswer(query, b).trace.retrievals != [] <==>
      (b.firstReply.Ok? && Dispatch(query, b.firstReply.value, b).Threw?
       && CaughtByDispatch(Dispatch(query, b.firstReply.value, b).exc))
  {
  }

  /** A TypeError from the suggestion generation is swallowed by the inner
      handler: the tool result is then sent as a function response after
      all. */
  lemma SuggestionTypeErrorContinues(query: string, b: Backends)
    requires FirstCall(b).Some? && FindTool(FirstCall(b).value.name).Some?
    requires var call := ToolCall(FindTool(FirstCall(b).value.name).value, FirstCall(b).value.args);
      b.runTool(call).Ok? && IsEmptyJsonList(b.runTool(call).value)
    requires b.suggestion == Fail(TypeError) && b.toolReply.Ok?
    ensures var fc := FirstCall(b).value;
      var call := ToolCall(FindTool(fc.name).value, fc.args);
      GenerateAnswer(query, b) == Answered(ToolAnswer, b.toolReply.value,
        Trace([UserQuery(query), FunctionResponse(fc.name, b.runTool(call).value)], [SuggestionPrompt(query)], [call], []))
  {
    var fc := FirstCall(b).value;
    var call := ToolCall(FindTool(fc.name).value, fc.args);
    var t := Trace([UserQuery(query), FunctionResponse(fc.name, b.runTool(call).value)], [SuggestionPrompt(query)], [call], []);
    assert Dispatch(query, b.firstReply.value, b) == Returned(ToolAnswer, b.toolReply.value, t);
  }
}
