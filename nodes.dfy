// The agent node and the history hygiene around it: rebuilding AI messages
// without nameless tool calls, dropping orphan tool results, trimming the
// history to the last turns, and narrowing the bound tools with the routing
// index.  The language model and the tool search are parameters.

module AgentNode {
  import opened Util
  import opened GraphState
  import opened Registry

  predicate Named(tc: ToolCall) { tc.name != [] }

  /** Every call carries a name and there are no invalid calls: what the provider accepts. */
  predicate Clean(m: Message) {
    m.Ai? ==> (forall i :: 0 <= i < |m.toolCalls| ==> Named(m.toolCalls[i])) && m.invalidCalls == 0
  }

  function NamedCalls(tcs: seq<ToolCall>): (r: seq<ToolCall>)
    ensures forall tc :: tc in r <==> tc in tcs && Named(tc)
    ensures r == Filter(tcs, Named)
    ensures |r| <= |tcs|
    ensures r == tcs <==> forall i :: 0 <= i < |tcs| ==> Named(tcs[i])
  {
    FilterAll(tcs, Named);
    if tcs == [] then []
    else
      var rest := NamedCalls(tcs[1..]);
      if Named(tcs[0]) then [tcs[0]] + rest else rest
  }

  function NamedRawCalls(rcs: seq<RawCall>): (r: seq<RawCall>)
    ensures forall rc :: rc in r <==> rc in rcs && rc.functionName != []
    ensures r == Filter(rcs, (rc: RawCall) => rc.functionName != [])
  {
    if rcs == [] then []
    else (if rcs[0].functionName != [] then [rcs[0]] else []) + NamedRawCalls(rcs[1..])
  }

  /** `_rebuild_clean_ai_message`: the same content with only the named calls, in both call lists. */
  function RebuildCleanAi(m: Message): (r: Message)
    requires m.Ai?
    ensures r.Ai? && Clean(r) && r.content == m.content
    ensures r.id.None?
    ensures forall tc :: tc in r.toolCalls <==> tc in m.toolCalls && Named(tc)
    ensures r.rawCalls.Some? <==> m.rawCalls.Some?
    ensures r.rawCalls.Some? ==> forall rc :: rc in r.rawCalls.value <==> rc in m.rawCalls.value && rc.functionName != []
  {
    var raw := if m.rawCalls.Some? then Some(NamedRawCalls(m.rawCalls.value)) else None;
    var calls := NamedCalls(m.toolCalls);
    assert forall i :: 0 <= i < |calls| ==> calls[i] in calls;
    Ai(m.content, None, calls, raw, 0)
  }

  /** An AI message with a nameless call or an invalid call. */
  predicate NeedsRebuild(m: Message) {
    m.Ai? && ((exists i :: 0 <= i < |m.toolCalls| && !Named(m.toolCalls[i])) || m.invalidCalls > 0)
  }

  lemma NeedsRebuildIffUnclean(m: Message)
    ensures NeedsRebuild(m) <==> !Clean(m)
  {
  }

  /** The ids of the named calls of every AI message. */
  function ValidIds(ms: seq<Message>): (r: set<string>)
    ensures forall id :: id in r <==> exists i, j :: (
      && 0 <= i < |ms| && ms[i].Ai? && 0 <= j < |ms[i].toolCalls|
      && Named(ms[i].toolCalls[j]) && ms[i].toolCalls[j].id == id)
  {
    if ms == [] then {}
    else
      var init := ms[..|ms| - 1];
      var m := ms[|ms| - 1];
      assert forall i :: 0 <= i < |init| ==> init[i] == ms[i];
      ValidIds(init) + (if m.Ai? then CallIds(m.toolCalls) else {})
  }

  function CallIds(tcs: seq<ToolCall>): (r: set<string>)
    ensures forall id :: id in r <==> exists j :: 0 <= j < |tcs| && Named(tcs[j]) && tcs[j].id == id
  {
    if tcs == [] then {}
    else
      var init := tcs[..|tcs| - 1];
      assert forall j :: 0 <= j < |init| ==> init[j] == tcs[j];
      CallIds(init) + (if Named(tcs[|tcs| - 1]) then {tcs[|tcs| - 1].id} else {})
  }

  /** What happens to one message: orphan results go, dirty AI messages are rebuilt, and dropped if nothing is left. */
  function KeepOne(m: Message, valid: set<string>): (r: Option<Message>)
    ensures r.Some? ==> Clean(r.value)
    ensures r.Some? && r.value.ToolResult? ==> r.value.toolCallId in valid
    ensures Clean(m) && (m.ToolResult? ==> m.toolCallId in valid) ==> r == Some(m)
  {
    if m.ToolResult? && m.toolCallId !in valid then None
    else if NeedsRebuild(m) then
      var b := RebuildCleanAi(m);
      if b.toolCalls == [] && b.content == [] then None else Some(b)
    else Some(m)
  }

  /** The sanitized history: each message as `KeepOne` decides, in the original order. */
  function Sanitized(ms: seq<Message>, valid: set<string>): (r: seq<Message>)
    ensures |r| <= |ms|
    ensures forall i :: 0 <= i < |r| ==> Clean(r[i])
    ensures forall i :: 0 <= i < |r| && r[i].ToolResult? ==> r[i].toolCallId in valid
  {
    if ms == [] then []
    else
      var prev := Sanitized(ms[..|ms| - 1], valid);
      match KeepOne(ms[|ms| - 1], valid)
      case None => prev
      case Some(m) => prev + [m]
  }

  /** The first pass of `_sanitize_history`: the ids of every named tool call of an AI message. */
  method CollectValidIds(ms: seq<Message>) returns (valid: set<string>)
    ensures valid == ValidIds(ms)
  {
    valid := {};
    for i := 0 to |ms|
      invariant valid == ValidIds(ms[..i])
    {
      assert ms[..i + 1][..i] == ms[..i];
      var m := ms[i];
      if m.Ai? {
        var j := 0;
        while j < |m.toolCalls|
          invariant 0 <= j <= |m.toolCalls|
          invariant valid == ValidIds(ms[..i]) + CallIds(m.toolCalls[..j])
        {
          assert m.toolCalls[..j + 1][..j] == m.toolCalls[..j];
          if m.toolCalls[j].name != [] {
            valid := valid + {m.toolCalls[j].id};
          }
          j := j + 1;
        }
        assert m.toolCalls[..j] == m.toolCalls;
      }
    }
    assert ms[..|ms|] == ms;
  }

  /** `_sanitize_history`: collects the valid call ids in one pass and filters in a second. */
  method SanitizeHistory(ms: seq<Message>) returns (cleaned: seq<Message>)
    ensures cleaned == Sanitized(ms, ValidIds(ms))
  {
    var valid := CollectValidIds(ms);
    cleaned := [];
    for i := 0 to |ms|
      invariant cleaned == Sanitized(ms[..i], valid)
    {
      assert ms[..i + 1][..i] == ms[..i];
      var m := ms[i];
      if m.ToolResult? && m.toolCallId !in valid {
        continue;
      }
      if NeedsRebuild(m) {
        m := RebuildCleanAi(m);
        if m.toolCalls == [] && m.content == [] {
          continue;
        }
      }
      cleaned := cleaned + [m];
    }
    assert ms[..|ms|] == ms;
  }

  /** A clean history without orphans passes through unchanged. */
  lemma {:induction false} SanitizedKeepsClean(ms: seq<Message>, valid: set<string>)
    requires forall i :: 0 <= i < |ms| ==> Clean(ms[i]) && (ms[i].ToolResult? ==> ms[i].toolCallId in valid)
    ensures Sanitized(ms, valid) == ms
  {
    if ms != [] {
      SanitizedKeepsClean(ms[..|ms| - 1], valid);
    }
  }

  /** Every id that was valid stays valid: a rebuilt message keeps its named calls and a dropped one had none. */
  lemma {:induction false} SanitizedValidIds(ms: seq<Message>, valid: set<string>)
    ensures ValidIds(Sanitized(ms, valid)) == ValidIds(ms)
  {
    if ms != [] {
      var init := ms[..|ms| - 1];
      var m := ms[|ms| - 1];
      SanitizedValidIds(init, valid);
      var prev := Sanitized(init, valid);
      KeepOneIds(m, valid);
      match KeepOne(m, valid)
      case None =>
      case Some(x) => ValidIdsSnoc(prev, x);
    }
  }

  /** The ids one message contributes. */
  function MessageIds(m: Message): set<string> {
    if m.Ai? then CallIds(m.toolCalls) else {}
  }

  lemma ValidIdsSnoc(ms: seq<Message>, m: Message)
    ensures ValidIds(ms + [m]) == ValidIds(ms) + MessageIds(m)
  {
    assert (ms + [m])[..|ms + [m]| - 1] == ms;
  }

  /** Keeping, rebuilding or dropping a message never changes the ids it contributes. */
  lemma KeepOneIds(m: Message, valid: set<string>)
    ensures KeepOne(m, valid).Some? ==> MessageIds(KeepOne(m, valid).value) == MessageIds(m)
    ensures KeepOne(m, valid).None? ==> MessageIds(m) == {}
  {
    if NeedsRebuild(m) {
      CallIdsNamed(m.toolCalls);
      if NamedCalls(m.toolCalls) == [] {
        assert CallIds(m.toolCalls) == CallIds([]);
      }
    }
  }

  /** Dropping the nameless calls keeps every valid id. */
  lemma CallIdsNamed(tcs: seq<ToolCall>)
    ensures CallIds(NamedCalls(tcs)) == CallIds(tcs)
  {
    NamedIdsKept(tcs, NamedCalls(tcs));
    NamedIdsFromSource(tcs, NamedCalls(tcs));
  }

  lemma NamedIdsKept(tcs: seq<ToolCall>, nc: seq<ToolCall>)
    requires nc == NamedCalls(tcs)
    ensures CallIds(tcs) <= CallIds(nc)
  {
    forall id | id in CallIds(tcs) ensures id in CallIds(nc) {
      var j :| 0 <= j < |tcs| && Named(tcs[j]) && tcs[j].id == id;
      assert tcs[j] in nc;
      var k :| 0 <= k < |nc| && nc[k] == tcs[j];
    }
  }

  lemma NamedIdsFromSource(tcs: seq<ToolCall>, nc: seq<ToolCall>)
    requires nc == NamedCalls(tcs)
    ensures CallIds(nc) <= CallIds(tcs)
  {
    forall id | id in CallIds(nc) ensures id in CallIds(tcs) {
      var k :| 0 <= k < |nc| && Named(nc[k]) && nc[k].id == id;
      assert nc[k] in tcs;
      var j :| 0 <= j < |tcs| && tcs[j] == nc[k];
    }
  }

  /** Sanitizing twice is sanitizing once. */
  lemma SanitizeIdempotent(ms: seq<Message>)
    ensures var once := Sanitized(ms, ValidIds(ms));
      Sanitized(once, ValidIds(once)) == once
  {
    var once := Sanitized(ms, ValidIds(ms));
    SanitizedValidIds(ms, ValidIds(ms));
    SanitizedKeepsClean(once, ValidIds(once));
  }

  // ---------------------------------------------------------------
  // Trimming
  // ---------------------------------------------------------------

  function HumanCount(ms: seq<Message>): nat {
    if ms == [] then 0 else HumanCount(ms[..|ms| - 1]) + (if ms[|ms| - 1].Human? then 1 else 0)
  }

  lemma {:induction false} HumanCountAppend(a: seq<Message>, b: seq<Message>)
    ensures HumanCount(a + b) == HumanCount(a) + HumanCount(b)
  {
    if b == [] {
      assert a + b == a;
    } else {
      HumanCountAppend(a, b[..|b| - 1]);
      assert (a + b)[..|a + b| - 1] == a + b[..|b| - 1];
    }
  }

  /** The positions of the human messages, in order; the j-th has j humans before it. */
  function HumanIndices(ms: seq<Message>): (r: seq<nat>)
    ensures |r| == HumanCount(ms)
    ensures forall j :: 0 <= j < |r| ==> r[j] < |ms| && ms[r[j]].Human? && HumanCount(ms[..r[j]]) == j
  {
    if ms == [] then []
    else
      var init := ms[..|ms| - 1];
      var prev := HumanIndices(init);
      assert forall j :: 0 <= j < |prev| ==> ms[..prev[j]] == init[..prev[j]];
      assert ms[..|ms| - 1] == init;
      if ms[|ms| - 1].Human? then prev + [|ms| - 1] else prev
  }

  /**
   * `_trim_history`: with more human messages than the turn limit, the
   * history from the limit-th-from-last human message on.
   */
  function TrimHistory(ms: seq<Message>, maxTurns: nat): (r: seq<Message>)
    requires maxTurns >= 1
    ensures |r| <= |ms| && r == ms[|ms| - |r|..]
    ensures HumanCount(ms) <= maxTurns ==> r == ms
    ensures HumanCount(ms) > maxTurns ==> HumanCount(r) == maxTurns && r[0].Human?
  {
    var hi := HumanIndices(ms);
    if |hi| <= maxTurns then ms
    else
      var cutoff := hi[|hi| - maxTurns];
      HumanCountAppend(ms[..cutoff], ms[cutoff..]);
      assert ms[..cutoff] + ms[cutoff..] == ms;
      ms[cutoff..]
  }

  /** `_sanitize_response`: a clean response is returned as it is, a dirty one rebuilt. */
  function SanitizeResponse(m: Message): (r: Message)
    ensures Clean(r)
    ensures r == m <==> Clean(m)
  {
    if !NeedsRebuild(m) then m
    else
      var b := RebuildCleanAi(m);
      assert b != m by {
        if m.invalidCalls == 0 {
          var i :| 0 <= i < |m.toolCalls| && !Named(m.toolCalls[i]);
          assert m.toolCalls[i] in m.toolCalls;
        }
      }
      b
  }

  // ---------------------------------------------------------------
  // Tool selection and the agent
  // ---------------------------------------------------------------

  /** The registry's tools whose names are among the candidates, in registry order. */
  function WithNames(tools: seq<Tool>, names: seq<string>): (r: seq<Tool>)
    ensures forall t :: t in r <==> t in tools && t.name in names
    ensures r == Filter(tools, (t: Tool) => t.name in names)
    ensures |r| <= |tools|
  {
    if tools == [] then []
    else (if tools[0].name in names then [tools[0]] else []) + WithNames(tools[1..], names)
  }

  /** No candidate name keeps no tool. */
  lemma {:induction false} WithNamesOfNone(tools: seq<Tool>)
    ensures WithNames(tools, []) == []
  {
    if tools != [] {
      WithNamesOfNone(tools[1..]);
    }
  }

  /** The routing query: the rewritten query when there is one, else the last human message. */
  function RoutingQuery(s: AgentState): (q: string)
    ensures s.rewritten != [] ==> q == s.rewritten
    ensures s.rewritten == [] ==> q == ExtractLastHumanQuery(s.messages)
  {
    if s.rewritten != [] then s.rewritten else ExtractLastHumanQuery(s.messages)
  }

  /**
   * `_select_relevant_tools`: the tools the routing index proposes for
   * the query, falling back to every tool when there is no query, no
   * candidate, no overlap or the search raises (None).
   */
  function SelectRelevantTools(s: AgentState, allTools: seq<Tool>, search: string -> Option<seq<string>>): (r: seq<Tool>)
    ensures r == allTools || (search(RoutingQuery(s)).Some? && r != [] && r == WithNames(allTools, search(RoutingQuery(s)).value))
    ensures RoutingQuery(s) == [] ==> r == allTools
    ensures search(RoutingQuery(s)).None? ==> r == allTools
    ensures RoutingQuery(s) != [] && search(RoutingQuery(s)).Some? && WithNames(allTools, search(RoutingQuery(s)).value) != [] ==>
      r == WithNames(allTools, search(RoutingQuery(s)).value)
    ensures forall t :: t in r ==> t in allTools
    ensures r == [] ==> allTools == []
  {
    var q := RoutingQuery(s);
    if q == [] then allTools
    else match search(q)
      case None => allTools
      case Some(names) =>
        if names == [] then
          WithNamesOfNone(allTools);
          allTools
        else
          var filtered := WithNames(allTools, names);
          if filtered != [] then filtered else allTools
  }

  /** What the model returns: an answer, or the text of the exception it raised. */
  datatype LlmReply = Reply(m: Message) | Raised(error: string)

  /** The model: a prompt and the bound tools (None: no tools bound). */
  type Llm = (seq<Message>, Option<seq<Tool>>) -> LlmReply

  /** The prompt: the system prompt, then the trimmed and sanitized history. */
  function AgentPrompt(s: AgentState, systemPrompt: string, maxTurns: nat): (p: seq<Message>)
    requires maxTurns >= 1
    ensures |p| >= 1 && p[0] == System(systemPrompt, None)
    ensures forall i :: 1 <= i < |p| ==> Clean(p[i])
    ensures |p| <= 1 + |s.messages|
    ensures p == [System(systemPrompt, None)] + Sanitized(TrimHistory(s.messages, maxTurns), ValidIds(TrimHistory(s.messages, maxTurns)))
  {
    var h := TrimHistory(s.messages, maxTurns);
    var p := [System(systemPrompt, None)] + Sanitized(h, ValidIds(h));
    assert forall i :: 1 <= i < |p| ==> p[i] == Sanitized(h, ValidIds(h))[i - 1];
    p
  }

  /** The provider rejected a nameless tool call: the only error retried without tools. */
  predicate ToolFormatError(e: string) {
    Contains(e, "tool_calls") && Contains(e, "function.name")
  }

  /**
   * `agent`: calls the model with the selected tools, retries once without
   * tools on a tool-format error, and adds the sanitized answer.  Any other
   * error propagates (None).
   */
  function Agent(s: AgentState, systemPrompt: string, maxTurns: nat, allTools: seq<Tool>,
                 search: string -> Option<seq<string>>, llm: Llm): (u: Option<Update>)
    requires maxTurns >= 1
    ensures var p := AgentPrompt(s, systemPrompt, maxTurns);
      var first := llm(p, Some(SelectRelevantTools(s, allTools, search)));
      && (u.None? <==> first.Raised? && (!ToolFormatError(first.error) || llm(p, None).Raised?))
      && (first.Reply? ==> u == Some(Update([SanitizeResponse(first.m)], [Record("agent", "")], None, None, None, None)))
      && (first.Raised? && ToolFormatError(first.error) && llm(p, None).Reply? ==>
            u == Some(Update([SanitizeResponse(llm(p, None).m)], [Record("agent", "")], None, None, None, None)))
    ensures u.Some? ==> |u.value.messages| == 1 && Clean(u.value.messages[0])
    ensures u.Some? ==> u.value.action.None? && u.value.started.None? && u.value.retryCount.None? && u.value.rewritten.None?
  {
    var p := AgentPrompt(s, systemPrompt, maxTurns);
    var tools := SelectRelevantTools(s, allTools, search);
    match llm(p, Some(tools))
    case Reply(m) => Some(Update([SanitizeResponse(m)], [Record("agent", "")], None, None, None, None))
    case Raised(e) =>
      if ToolFormatError(e) then
        match llm(p, None)
        case Reply(m) => Some(Update([SanitizeResponse(m)], [Record("agent", "")], None, None, None, None))
        case Raised(_) => None
      else None
  }
}
