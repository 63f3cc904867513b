/**
  The tool registry, the safety policy and the server's dispatch, as functions from one message to
  its reply and to the handlers it ran.
 */
module McpServerSpec {
  import opened Common
  import opened Substrings
  import opened Json
  import opened McpProtocol

  // ---------- tools ----------

  datatype Category = QueryTool | Modify | Analyze | Export

  datatype Parameter = Parameter(name: string, required: bool)

  /** `run` is the handler: what str() gives for the value it returns, or None if it raises. */
  datatype Tool = Tool(name: string, category: Category, parameters: seq<Parameter>, run: Json -> Option<string>)

  /** The `_tools` dictionary. */
  type Registry = map<string, Tool>

  function Register(tools: Registry, tool: Tool): Registry { tools[tool.name := tool] }

  /** A handler that was called, and with what. */
  datatype Ran = Ran(tool: Tool, arguments: Json)

  /** `name in arguments` for whatever arguments are; None when Python refuses the test. */
  function Contains(arguments: Json, name: string): Option<bool> {
    match arguments
    case Obj(members) => Some(GetMember(members, name).Some?)
    case Arr(items) => Some(Str(name) in items)
    case Str(s) => Some(Within(name, s))
    case _ => None
  }

  function Required(parameters: seq<Parameter>): seq<string> {
    if parameters == [] then []
    else (if parameters[0].required then [parameters[0].name] else []) + Required(parameters[1..])
  }

  /** str(result.data) and whether result.error is set; None when execute_tool raises. */
  datatype ToolResult = ToolResult(text: string, isError: bool)

  datatype Execution = Execution(result: Option<ToolResult>, ran: seq<Ran>)

  /** execute_tool: handler(**arguments) reaches the handler only with a dictionary. */
  function ExecuteTool(tools: Registry, name: string, arguments: Json): Execution {
    if name !in tools then Execution(Some(ToolResult("None", true)), [])
    else
      var tool := tools[name];
      if exists p | p in Required(tool.parameters) :: Contains(arguments, p).None? then Execution(None, [])
      else if exists p | p in Required(tool.parameters) :: Contains(arguments, p) == Some(false) then
        Execution(Some(ToolResult("None", true)), [])
      else if !arguments.Obj? then Execution(None, [])
      else
        var r := tool.run(arguments);
        Execution(if r.Some? then Some(ToolResult(r.value, false)) else None, [Ran(tool, arguments)])
  }

  // ---------- safety ----------

  datatype Mode = ReadOnly | Cautious | FullAccess

  datatype SafetyConfig = SafetyConfig(mode: Mode, blocked: seq<string>)

  /** validate_tool_call returns, rather than raises. */
  predicate Permitted(tool: Tool, config: SafetyConfig) {
    tool.name !in config.blocked && !(config.mode == ReadOnly && tool.category == Modify)
  }

  // ---------- dispatch ----------

  datatype PromptOutcome = UnknownPrompt | RenderFailed | Rendered(text: string) | LookupRaises

  /** Prompts, listings and the texts of errors come from code outside this model. So does `beyond`:
      Python also reads strings with lone surrogates, which no value here can hold, and text that
      uses them may be read as any value, or refused. */
  datatype Library = Library(
    serverInfo: Json,
    toolList: Registry -> Json,
    promptList: Json,
    prompt: Json -> PromptOutcome,
    describe: Json -> string,
    beyond: string -> Option<Json>)

  datatype Dispatched = Dispatched(reply: Option<Message>, ran: seq<Ran>)

  function Success(id: Json, result: Json): Message { Response(VERSION, id, result, Null) }

  function Failure(id: Json, code: int, message: string): Message {
    Response(VERSION, id, Null, Obj([("code", Num(code)), ("message", Str(message))]))
  }

  function ToolReply(id: Json, text: string, isError: bool): Message {
    Success(id, Obj([("content", Arr([Obj([("type", Str("text")), ("text", Str(text))])])), ("isError", Bool(isError))]))
  }

  /** _handle_tools_call; no reply means that it raised. */
  function CallTool(tools: Registry, config: SafetyConfig, lib: Library, id: Json, params: Json): Dispatched {
    if !params.Obj? then Dispatched(None, [])
    else
      var name, arguments := GetOr(params, "name", Str("")), GetOr(params, "arguments", Obj([]));
      // A list or a dictionary cannot be looked up in a dictionary.
      if name.Arr? || name.Obj? then Dispatched(None, [])
      else if !name.Str? || name.s !in tools then
        Dispatched(Some(Failure(id, -32602, "Unknown tool: " + lib.describe(name))), [])
      else if !Permitted(tools[name.s], config) then
        Dispatched(Some(ToolReply(id, "Safety violation: " + lib.describe(name), true)), [])
      else
        var e := ExecuteTool(tools, name.s, arguments);
        Dispatched(if e.result.Some? then Some(ToolReply(id, e.result.value.text, e.result.value.isError)) else None, e.ran)
  }

  function GetPrompt(lib: Library, id: Json, params: Json): Dispatched {
    if !params.Obj? then Dispatched(None, [])
    else
      match lib.prompt(params)
      case UnknownPrompt => Dispatched(Some(Failure(id, -32602, "Unknown prompt")), [])
      case RenderFailed => Dispatched(Some(Failure(id, -32603, "Prompt render error")), [])
      case Rendered(text) => Dispatched(Some(Success(id, Obj([("text", Str(text))]))), [])
      case LookupRaises => Dispatched(None, [])
  }

  /** _handle_message */
  function Dispatch(tools: Registry, config: SafetyConfig, lib: Library, m: Message): Dispatched
    requires m.Request?
  {
    if m.method_ == Str("initialize") then Dispatched(Some(Success(m.id, lib.serverInfo)), [])
    else if m.method_ == Str("tools/list") then Dispatched(Some(Success(m.id, Obj([("tools", lib.toolList(tools))]))), [])
    else if m.method_ == Str("tools/call") then CallTool(tools, config, lib, m.id, m.params)
    else if m.method_ == Str("prompts/list") then Dispatched(Some(Success(m.id, Obj([("prompts", lib.promptList)]))), [])
    else if m.method_ == Str("prompts/get") then GetPrompt(lib, m.id, m.params)
    else Dispatched(Some(Failure(m.id, -32601, "Method not found: " + lib.describe(m.method_))), [])
  }

  /** What arrives on the socket: text, or a binary frame that is no JSON text to from_json. */
  datatype Raw = TextFrame(text: string) | BinaryFrame

  function Parsed(raw: Raw, lib: Library): Result<Message, ParseError> {
    match raw
    case TextFrame(text) =>
      if FromText(text) == Err(NotJson) && lib.beyond(text).Some? then FromJson(lib.beyond(text).value) else FromText(text)
    case BinaryFrame => Err(NotAnObject)
  }

  /** The body of the receive loop: at most one reply. */
  function Answer(tools: Registry, config: SafetyConfig, lib: Library, raw: Raw): Dispatched {
    match Parsed(raw, lib)
    case Err(_) => Dispatched(Some(Failure(Null, -32603, "error")), [])
    case Ok(m) =>
      if m.Request? then
        var d := Dispatch(tools, config, lib, m);
        if d.reply.Some? then d else d.(reply := Some(Failure(Null, -32603, "error")))
      else Dispatched(None, [])
  }

  // ---------- runs ----------

  datatype Step = RegisterTool(tool: Tool) | Receive(raw: Raw)

  datatype State = State(tools: Registry, replies: seq<Message>, ran: seq<Ran>)

  function Advance(s: State, step: Step, config: SafetyConfig, lib: Library): State {
    match step
    case RegisterTool(tool) => s.(tools := Register(s.tools, tool))
    case Receive(raw) =>
      var d := Answer(s.tools, config, lib, raw);
      State(s.tools, s.replies + (if d.reply.Some? then [d.reply.value] else []), s.ran + d.ran)
  }

  function Run(s: State, steps: seq<Step>, config: SafetyConfig, lib: Library): State
    decreases |steps|
  {
    if steps == [] then s else Run(Advance(s, steps[0], config, lib), steps[1..], config, lib)
  }

  // ---------- safety over runs ----------

  ghost predicate Keyed(tools: Registry) { forall k | k in tools :: tools[k].name == k }

  /** The call was permitted and every required argument was there. */
  ghost predicate Proper(r: Ran, config: SafetyConfig) {
    && r.tool.name !in config.blocked
    && !(config.mode == ReadOnly && r.tool.category == Modify)
    && r.arguments.Obj?
    && forall p | p in r.tool.parameters && p.required :: Get(r.arguments, p.name).Some?
  }

  lemma {:induction false} RequiredCovers(parameters: seq<Parameter>)
    ensures forall p | p in parameters && p.required :: p.name in Required(parameters)
  {
    if parameters != [] { RequiredCovers(parameters[1..]); }
  }

  lemma ExecuteIsProper(tools: Registry, name: string, arguments: Json, config: SafetyConfig)
    requires name in tools && Permitted(tools[name], config)
    ensures forall r | r in ExecuteTool(tools, name, arguments).ran :: Proper(r, config)
  {
    RequiredCovers(tools[name].parameters);
  }

  lemma CallToolIsProper(tools: Registry, config: SafetyConfig, lib: Library, id: Json, params: Json)
    ensures forall r | r in CallTool(tools, config, lib, id, params).ran :: Proper(r, config)
  {
    if params.Obj? {
      var name := GetOr(params, "name", Str(""));
      if name.Str? && name.s in tools && Permitted(tools[name.s], config) {
        ExecuteIsProper(tools, name.s, GetOr(params, "arguments", Obj([])), config);
      }
    }
  }

  lemma DispatchIsProper(tools: Registry, config: SafetyConfig, lib: Library, m: Message)
    requires m.Request?
    ensures forall r | r in Dispatch(tools, config, lib, m).ran :: Proper(r, config)
  {
    CallToolIsProper(tools, config, lib, m.id, m.params);
  }

  lemma AnswerIsProper(tools: Registry, config: SafetyConfig, lib: Library, raw: Raw)
    ensures forall r | r in Answer(tools, config, lib, raw).ran :: Proper(r, config)
  {
    var parsed := Parsed(raw, lib);
    if parsed.Ok? && parsed.value.Request? { DispatchIsProper(tools, config, lib, parsed.value); }
  }

  /** In every run of registrations and messages no handler of a blocked tool runs, no modifying
      handler runs in read-only mode and none runs without its required arguments; and a tool is
      always found under its own name, so checking the definition checks what is executed. */
  lemma {:induction false} OnlyProperCallsRun(s: State, steps: seq<Step>, config: SafetyConfig, lib: Library)
    requires Keyed(s.tools) && forall r | r in s.ran :: Proper(r, config)
    ensures Keyed(Run(s, steps, config, lib).tools)
    ensures forall r | r in Run(s, steps, config, lib).ran :: Proper(r, config)
    decreases |steps|
  {
    if steps != [] {
      if steps[0].Receive? { AnswerIsProper(s.tools, config, lib, steps[0].raw); }
      OnlyProperCallsRun(Advance(s, steps[0], config, lib), steps[1..], config, lib);
    }
  }

  // ---------- replies over runs ----------

  predicate Answerable(raw: Raw, lib: Library) { Parsed(raw, lib).Err? || Parsed(raw, lib).value.Request? }

  /** The id a reply must carry: the request's own, or null if parsing or dispatch raised. */
  function ReplyId(tools: Registry, config: SafetyConfig, lib: Library, raw: Raw): Json {
    var parsed := Parsed(raw, lib);
    if parsed.Ok? && parsed.value.Request? && Dispatch(tools, config, lib, parsed.value).reply.Some?
    then parsed.value.id
    else Null
  }

  ghost predicate RepliesTo(tools: Registry, config: SafetyConfig, lib: Library, raw: Raw, reply: Message) {
    && reply.Response?
    && reply.id == ReplyId(tools, config, lib, raw)
    && (reply.id.Null? ==> reply.error.Obj? && Get(reply.error, "code") == Some(Num(-32603)))
  }

  /** One reply per request and per unreadable message, in order, and none for anything else. */
  ghost predicate InStep(tools: Registry, steps: seq<Step>, config: SafetyConfig, lib: Library, replies: seq<Message>)
    decreases |steps|
  {
    if steps == [] then replies == []
    else
      match steps[0]
      case RegisterTool(tool) => InStep(Register(tools, tool), steps[1..], config, lib, replies)
      case Receive(raw) =>
        if Answerable(raw, lib) then
          && replies != [] && RepliesTo(tools, config, lib, raw, replies[0])
          && InStep(tools, steps[1..], config, lib, replies[1..])
        else InStep(tools, steps[1..], config, lib, replies)
  }

  lemma FailureCode(id: Json, code: int, message: string)
    ensures Get(Failure(id, code, message).error, "code") == Some(Num(code))
  {
  }

  lemma DispatchReplies(tools: Registry, config: SafetyConfig, lib: Library, m: Message)
    requires m.Request?
    ensures var d := Dispatch(tools, config, lib, m);
            d.reply.Some? ==> d.reply.value.Response? && d.reply.value.id == m.id
                              && (d.reply.value.result.Null? || d.reply.value.error.Null?)
  {
  }

  lemma AnswerReplies(tools: Registry, config: SafetyConfig, lib: Library, raw: Raw)
    ensures var d := Answer(tools, config, lib, raw);
            && (d.reply.Some? <==> Answerable(raw, lib))
            && (d.reply.Some? ==> RepliesTo(tools, config, lib, raw, d.reply.value) && Faithful(d.reply.value))
  {
    FailureCode(Null, -32603, "error");
    var parsed := Parsed(raw, lib);
    if parsed.Ok? && parsed.value.Request? {
      DispatchReplies(tools, config, lib, parsed.value);
      RequestHasId(raw, lib);
    }
  }

  /** from_json makes a request only of a message with an id that is not null. */
  lemma RequestHasId(raw: Raw, lib: Library)
    requires Parsed(raw, lib).Ok? && Parsed(raw, lib).value.Request?
    ensures !Parsed(raw, lib).value.id.Null?
  {
  }

  lemma {:induction false} RunReplies(s: State, steps: seq<Step>, config: SafetyConfig, lib: Library)
    ensures s.replies <= Run(s, steps, config, lib).replies
    ensures InStep(s.tools, steps, config, lib, Run(s, steps, config, lib).replies[|s.replies|..])
    decreases |steps|
  {
    if steps != [] {
      var next := Advance(s, steps[0], config, lib);
      var last := Run(next, steps[1..], config, lib).replies;
      RunReplies(next, steps[1..], config, lib);
      if steps[0].Receive? {
        AnswerReplies(s.tools, config, lib, steps[0].raw);
        if Answerable(steps[0].raw, lib) {
          var reply := Answer(s.tools, config, lib, steps[0].raw).reply.value;
          assert next.replies == s.replies + [reply];
          assert last[|s.replies|..][0] == reply && last[|s.replies|..][1..] == last[|next.replies|..];
        }
      }
    }
  }

  /** On a fresh connection the replies match the messages one by one. */
  lemma ConnectionRepliesInStep(tools: Registry, steps: seq<Step>, config: SafetyConfig, lib: Library)
    ensures InStep(tools, steps, config, lib, Run(State(tools, [], []), steps, config, lib).replies)
  {
    RunReplies(State(tools, [], []), steps, config, lib);
    var replies := Run(State(tools, [], []), steps, config, lib).replies;
    assert replies[0..] == replies;
  }

  /** The client reads back every reply as it was built. */
  lemma RepliesAreReadable(tools: Registry, config: SafetyConfig, lib: Library, raw: Raw)
    requires Answerable(raw, lib) && MessageWellFormed(Answer(tools, config, lib, raw).reply.value)
    ensures FromText(ToText(Answer(tools, config, lib, raw).reply.value)) == Ok(Answer(tools, config, lib, raw).reply.value)
  {
    AnswerReplies(tools, config, lib, raw);
    RoundTripIff(Answer(tools, config, lib, raw).reply.value);
  }

  // ---------- the undo stack ----------

  /** push_undo: the oldest entry makes room; None when popping an empty list raises. */
  function Push<T>(stack: seq<T>, entry: T, max: int): Option<seq<T>> {
    if |stack| >= max then (if stack == [] then None else Some(stack[1..] + [entry]))
    else Some(stack + [entry])
  }

  function PushAll<T>(stack: seq<T>, entries: seq<T>, max: int): Option<seq<T>>
    decreases |entries|
  {
    if entries == [] then Some(stack)
    else
      var s := Push(stack, entries[0], max);
      if s.None? then None else PushAll(s.value, entries[1..], max)
  }

  /** The last n entries. */
  function Last<T>(s: seq<T>, n: nat): seq<T> { if |s| <= n then s else s[|s| - n..] }

  /** The stack holds the latest `max` entries, and pushing works exactly for a positive limit. */
  lemma {:induction false} PushAllKeepsLatest<T>(stack: seq<T>, entries: seq<T>, max: int)
    requires stack == [] || |stack| <= max
    ensures PushAll(stack, entries, max) ==
              (if max >= 1 || entries == [] then Some(if max < 0 then stack else Last(stack + entries, max)) else None)
    decreases |entries|
  {
    if entries == [] {
      assert stack + entries == stack;
    } else if max >= 1 {
      PushAllKeepsLatest(Push(stack, entries[0], max).value, entries[1..], max);
      PushThenLatest(stack, entries[0], entries[1..], max);
      assert [entries[0]] + entries[1..] == entries;
    }
  }

  lemma PushThenLatest<T>(stack: seq<T>, entry: T, more: seq<T>, max: nat)
    requires |stack| <= max && max >= 1
    ensures Last(Push(stack, entry, max).value + more, max) == Last(stack + ([entry] + more), max)
  {
    var all := stack + ([entry] + more);
    if |stack| >= max {
      assert Push(stack, entry, max).value + more == all[1..];
    } else {
      assert Push(stack, entry, max).value + more == all;
    }
  }
}
