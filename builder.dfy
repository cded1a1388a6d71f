// The turn graph: the dynamic tool node that runs every call of the last
// AI message against the live registry, and the static edge relation
// between the five nodes.  Tool lookup and invocation are parameters.

module GraphBuilder {
  import opened Util
  import opened GraphState
  import opened Guardrails

  /** The message for one tool call: not found, the tool's output, or the exception it raised. */
  function ToolReply(tc: ToolCall, registered: string -> bool, invoke: (string, string) -> Result<string>): (m: Message)
    ensures m.ToolResult? && m.toolCallId == tc.id && m.name == tc.name && m.id.None?
    ensures !registered(tc.name) ==> m.content == "Error: tool '" + tc.name + "' not found in registry"
    ensures registered(tc.name) && invoke(tc.name, tc.args).Ok? ==> m.content == invoke(tc.name, tc.args).value
    ensures registered(tc.name) && invoke(tc.name, tc.args).Err? ==>
      m.content == "Error executing tool '" + tc.name + "': " + invoke(tc.name, tc.args).msg
  {
    if !registered(tc.name) then ToolResult("Error: tool '" + tc.name + "' not found in registry", None, tc.id, tc.name)
    else match invoke(tc.name, tc.args)
      case Ok(out) => ToolResult(out, None, tc.id, tc.name)
      case Err(e) => ToolResult("Error executing tool '" + tc.name + "': " + e, None, tc.id, tc.name)
  }

  /** One reply per call, in call order. */
  function ToolReplies(tcs: seq<ToolCall>, registered: string -> bool, invoke: (string, string) -> Result<string>): (r: seq<Message>)
    ensures |r| == |tcs|
    ensures forall i :: 0 <= i < |tcs| ==> r[i] == ToolReply(tcs[i], registered, invoke)
  {
    seq(|tcs|, i requires 0 <= i < |tcs| => ToolReply(tcs[i], registered, invoke))
  }

  /** The calls the tool node answers: those of the last message when it is an AI message. */
  function PendingCalls(ms: seq<Message>): seq<ToolCall>
    requires ms != []
  {
    var last := ms[|ms| - 1];
    if last.Ai? then last.toolCalls else []
  }

  /**
   * `_dynamic_tool_node`: one tool-result message per call of the last
   * message; an empty history raises (None).
   */
  method DynamicToolNode(ms: seq<Message>, registered: string -> bool, invoke: (string, string) -> Result<string>)
    returns (r: Option<seq<Message>>)
    ensures r.None? <==> ms == []
    ensures r.Some? ==> r.value == ToolReplies(PendingCalls(ms), registered, invoke)
  {
    if ms == [] {
      return None;
    }
    var tcs := PendingCalls(ms);
    if tcs == [] {
      return Some([]);
    }
    var results: seq<Message> := [];
    for i := 0 to |tcs|
      invariant results == ToolReplies(tcs[..i], registered, invoke)
    {
      var tc := tcs[i];
      if !registered(tc.name) {
        results := results + [ToolResult("Error: tool '" + tc.name + "' not found in registry", None, tc.id, tc.name)];
        continue;
      }
      var out := invoke(tc.name, tc.args);
      if out.Ok? {
        results := results + [ToolResult(out.value, None, tc.id, tc.name)];
      } else {
        results := results + [ToolResult("Error executing tool '" + tc.name + "': " + out.msg, None, tc.id, tc.name)];
      }
    }
    assert tcs[..|tcs|] == tcs;
    return Some(results);
  }

  /** An unregistered tool's reply does not depend on what invoking would do. */
  lemma UnknownToolNotInvoked(tc: ToolCall, registered: string -> bool, i1: (string, string) -> Result<string>, i2: (string, string) -> Result<string>)
    requires !registered(tc.name)
    ensures ToolReply(tc, registered, i1) == ToolReply(tc, registered, i2)
  {
  }

  /** Every reply answers a pending call, so none of them is an orphan for the history sanitizer. */
  lemma RepliesAnswerCalls(ms: seq<Message>, registered: string -> bool, invoke: (string, string) -> Result<string>)
    requires ms != []
    ensures var tcs := PendingCalls(ms);
      forall m :: m in ToolReplies(tcs, registered, invoke) ==> exists j :: 0 <= j < |tcs| && tcs[j].id == m.toolCallId && tcs[j].name == m.name
  {
    var tcs := PendingCalls(ms);
    var r := ToolReplies(tcs, registered, invoke);
    forall m | m in r
      ensures exists j :: 0 <= j < |tcs| && tcs[j].id == m.toolCallId && tcs[j].name == m.name
    {
      var j :| 0 <= j < |r| && r[j] == m;
      assert r[j] == ToolReply(tcs[j], registered, invoke);
    }
  }

  // ---------------------------------------------------------------
  // Edges
  // ---------------------------------------------------------------

  datatype Node = Start | InputGuard | Rewriter | AgentStep | Tools | OutputGuard | End

  /** `tools_condition`: the last message is an AI message with at least one tool call. */
  predicate WantsTools(s: AgentState) {
    s.messages != [] && s.messages[|s.messages| - 1].Ai? && s.messages[|s.messages| - 1].toolCalls != []
  }

  /** The node that runs after `n` in state `s`. */
  function Next(n: Node, s: AgentState): (r: Node)
    ensures n == Start ==> r == InputGuard
    ensures n == InputGuard ==> (r == End <==> s.action == Block) && (r != End ==> r == Rewriter)
    ensures n == Rewriter ==> r == AgentStep
    ensures n == AgentStep ==> (r == Tools <==> WantsTools(s)) && (r != Tools ==> r == OutputGuard)
    ensures n == Tools ==> r == AgentStep
    ensures n == OutputGuard ==> (r == AgentStep <==> s.action == Retry) && (r != AgentStep ==> r == End)
  {
    match n
    case Start => InputGuard
    case InputGuard => if RouteAfterInputGuard(s) == "pass" then Rewriter else End
    case Rewriter => AgentStep
    case AgentStep => if WantsTools(s) then Tools else OutputGuard
    case Tools => AgentStep
    case OutputGuard => if RouteAfterOutputGuard(s) == "agent" then AgentStep else End
    case End => End
  }

  /** The edges of the compiled graph. */
  const Edges: set<(Node, Node)> := {
    (Start, InputGuard),
    (InputGuard, Rewriter), (InputGuard, End),
    (Rewriter, AgentStep),
    (AgentStep, Tools), (AgentStep, OutputGuard),
    (Tools, AgentStep),
    (OutputGuard, AgentStep), (OutputGuard, End)
  }

  /** Every step the graph takes follows one of its edges. */
  lemma NextFollowsEdges(n: Node, s: AgentState)
    requires n != End
    ensures (n, Next(n, s)) in Edges
  {
  }

  /** Only the two guardrails end a turn, and the agent is entered only after the rewriter, the tools or a retry. */
  lemma EdgeShape(a: Node, b: Node)
    requires (a, b) in Edges
    ensures b == End ==> a == InputGuard || a == OutputGuard
    ensures b == AgentStep ==> a == Rewriter || a == Tools || a == OutputGuard
    ensures a == Start <==> b == InputGuard
  {
  }
}
