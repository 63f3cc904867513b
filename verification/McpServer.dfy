/** The registry, guard and connection objects of the server. */
module McpServers {
  import opened Common
  import opened Json
  import opened McpProtocol
  import Spec = McpServerSpec
  import opened McpServerSpec

  class RevitTools {
    var tools: Registry

    constructor ()
      ensures tools == map[] && Keyed(tools)
    {
      tools := map[];
    }

    method RegisterTool(tool: Tool)
      modifies this
      ensures tools == Register(old(tools), tool)
      ensures Keyed(old(tools)) ==> Keyed(tools)
    {
      tools := tools[tool.name := tool];
    }

    function GetTool(name: string): (r: Option<Tool>)
      reads this
      ensures Keyed(tools) && r.Some? ==> r.value.name == name
    {
      if name in tools then Some(tools[name]) else None
    }

    /** execute_tool: None when it raises; `ran` tells whether the handler was reached. */
    method ExecuteTool(name: string, arguments: Json) returns (r: Option<ToolResult>, ran: seq<Ran>)
      ensures Execution(r, ran) == Spec.ExecuteTool(tools, name, arguments)
    {
      if name !in tools { return Some(ToolResult("None", true)), []; }
      var tool := tools[name];
      var required := Required(tool.parameters);
      var missing: seq<string> := [];
      var i := 0;
      while i < |required|
        invariant 0 <= i <= |required|
        invariant forall p | p in required[..i] :: Contains(arguments, p).Some?
        invariant missing == [] <==> forall p | p in required[..i] :: Contains(arguments, p) == Some(true)
      {
        var present := Contains(arguments, required[i]);
        assert required[..i + 1] == required[..i] + [required[i]];
        if present.None? { return None, []; }
        if !present.value { missing := missing + [required[i]]; }
        i := i + 1;
      }
      assert required[..i] == required;
      if missing != [] { return Some(ToolResult("None", true)), []; }
      if !arguments.Obj? { return None, []; }
      var value := tool.run(arguments);
      ran := [Ran(tool, arguments)];
      r := if value.Some? then Some(ToolResult(value.value, false)) else None;
    }
  }

  class SafetyGuard {
    const config: SafetyConfig
    const maxUndoStack: int
    var undoStack: seq<Json>

    constructor (config: SafetyConfig, maxUndoStack: int)
      ensures this.config == config && this.maxUndoStack == maxUndoStack && undoStack == []
    {
      this.config, this.maxUndoStack, undoStack := config, maxUndoStack, [];
    }

    /** validate_tool_call: false where it raises SafetyViolationError. */
    method ValidateToolCall(tool: Tool) returns (allowed: bool)
      ensures allowed <==> Permitted(tool, config)
    {
      if tool.name in config.blocked { return false; }
      if config.mode == ReadOnly {
        if tool.category == Modify { return false; }
      }
      allowed := true;
    }

    /** push_undo: false where popping the empty stack raises. */
    method PushUndo(operation: Json) returns (ok: bool)
      modifies this
      ensures ok == Push(old(undoStack), operation, maxUndoStack).Some?
      ensures undoStack == if ok then Push(old(undoStack), operation, maxUndoStack).value else old(undoStack)
    {
      if |undoStack| >= maxUndoStack {
        if undoStack == [] { return false; }
        undoStack := undoStack[1..];
      }
      undoStack := undoStack + [operation];
      ok := true;
    }

    method UndoLast() returns (entry: Option<Json>)
      modifies this
      ensures old(undoStack) == [] ==> entry == None && undoStack == []
      ensures old(undoStack) != [] ==> entry.Some? && undoStack + [entry.value] == old(undoStack)
    {
      if undoStack == [] { return None; }
      entry := Some(undoStack[|undoStack| - 1]);
      undoStack := undoStack[..|undoStack| - 1];
    }
  }

  class McpServer {
    const tools: RevitTools
    const safety: SafetyGuard
    const library: Library
    var connections: set<nat>
    var ran: seq<Ran>

    constructor (tools: RevitTools, safety: SafetyGuard, library: Library)
      ensures this.tools == tools && this.safety == safety && this.library == library
      ensures connections == {} && ran == []
    {
      this.tools, this.safety, this.library := tools, safety, library;
      connections, ran := {}, [];
    }

    /** _handle_tools_call: None where it raises. */
    method HandleToolsCall(id: Json, params: Json) returns (reply: Option<Message>)
      modifies this`ran
      ensures var d := CallTool(tools.tools, safety.config, library, id, params);
              reply == d.reply && ran == old(ran) + d.ran
    {
      if !params.Obj? { return None; }
      var name, arguments := GetOr(params, "name", Str("")), GetOr(params, "arguments", Obj([]));
      if name.Arr? || name.Obj? { return None; }
      var definition := if name.Str? then tools.GetTool(name.s) else None;
      if definition.None? {
        return Some(Failure(id, -32602, "Unknown tool: " + library.describe(name)));
      }
      var allowed := safety.ValidateToolCall(definition.value);
      if !allowed {
        return Some(ToolReply(id, "Safety violation: " + library.describe(name), true));
      }
      var result, called := tools.ExecuteTool(name.s, arguments);
      ran := ran + called;
      reply := if result.Some? then Some(ToolReply(id, result.value.text, result.value.isError)) else None;
    }

    /** _handle_message: None where it raises. */
    method HandleMessage(m: Message) returns (reply: Option<Message>)
      requires m.Request?
      modifies this`ran
      ensures var d := Dispatch(tools.tools, safety.config, library, m);
              reply == d.reply && ran == old(ran) + d.ran
    {
      if m.method_ == Str("initialize") { return Some(Success(m.id, library.serverInfo)); }
      if m.method_ == Str("tools/list") {
        return Some(Success(m.id, Obj([("tools", library.toolList(tools.tools))])));
      }
      if m.method_ == Str("tools/call") {
        reply := HandleToolsCall(m.id, m.params);
        return;
      }
      if m.method_ == Str("prompts/list") { return Some(Success(m.id, Obj([("prompts", library.promptList)]))); }
      if m.method_ == Str("prompts/get") { return GetPrompt(library, m.id, m.params).reply; }
      reply := Some(Failure(m.id, -32601, "Method not found: " + library.describe(m.method_)));
    }

    /** _handle_connection: reads frames until the client is gone and sends replies as text. */
    method HandleConnection(websocket: nat, frames: seq<Raw>) returns (sent: seq<string>)
      modifies this
      ensures connections == old(connections) - {websocket}
      ensures var s := Spec.Run(State(tools.tools, [], old(ran)), ReceiveAll(frames), safety.config, library);
              sent == Texts(s.replies) && ran == s.ran
    {
      connections := connections + {websocket};
      sent := [];
      ghost var s := State(tools.tools, [], ran);
      ghost var all := Spec.Run(s, ReceiveAll(frames), safety.config, library);
      var i := 0;
      while i < |frames|
        invariant 0 <= i <= |frames|
        invariant connections == old(connections) + {websocket}
        invariant sent == Texts(s.replies) && ran == s.ran && tools.tools == s.tools
        invariant Spec.Run(s, ReceiveAll(frames[i..]), safety.config, library) == all
      {
        ReceiveStep(s, frames, i, safety.config, library);
        var reply := AnswerFrame(frames[i]);
        if reply.Some? {
          TextsSnoc(s.replies, reply.value);
          sent := sent + [ToText(reply.value)];
        } else {
          assert s.replies + [] == s.replies;
        }
        s := Advance(s, Receive(frames[i]), safety.config, library);
        i := i + 1;
      }
      assert frames[i..] == [];
      connections := connections - {websocket};
    }

    /** The try block of the receive loop with its handler: the reply to send, if any. */
    method AnswerFrame(frame: Raw) returns (reply: Option<Message>)
      modifies this`ran
      ensures var d := Answer(tools.tools, safety.config, library, frame);
              reply == d.reply && ran == old(ran) + d.ran
    {
      var message := Parsed(frame, library);
      if message.Err? { return Some(Failure(Null, -32603, "error")); }
      if !message.value.Request? { return None; }
      reply := HandleMessage(message.value);
      if reply.None? { reply := Some(Failure(Null, -32603, "error")); }
    }
  }

  lemma ReceiveStep(s: State, frames: seq<Raw>, i: nat, config: SafetyConfig, lib: Library)
    requires i < |frames|
    ensures Spec.Run(s, ReceiveAll(frames[i..]), config, lib)
         == Spec.Run(Advance(s, Receive(frames[i]), config, lib), ReceiveAll(frames[i + 1..]), config, lib)
  {
    assert frames[i..][1..] == frames[i + 1..];
    assert ReceiveAll(frames[i..])[1..] == ReceiveAll(frames[i + 1..]);
  }

  function ReceiveAll(frames: seq<Raw>): seq<Step> {
    if frames == [] then [] else [Receive(frames[0])] + ReceiveAll(frames[1..])
  }

  function Texts(replies: seq<Message>): seq<string> {
    if replies == [] then [] else [ToText(replies[0])] + Texts(replies[1..])
  }

  lemma {:induction false} TextsSnoc(replies: seq<Message>, m: Message)
    ensures Texts(replies + [m]) == Texts(replies) + [ToText(m)]
  {
    if replies == [] {
      assert Texts([m][1..]) == [];
    } else {
      assert (replies + [m])[1..] == replies[1..] + [m];
      TextsSnoc(replies[1..], m);
    }
  }
}
