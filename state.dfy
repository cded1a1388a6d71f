// The turn state shared by every graph node: the messages, the per-turn
// trace, the guardrail action, the rewritten query, the output-retry count
// and the conversation-started flag, together with the reducers that fold a
// node's partial update into the state.

module GraphState {
  import opened Util

  datatype ToolCall = ToolCall(name: string, id: string, args: string)

  /** A provider-format call kept in `additional_kwargs`; only its function name matters here. */
  datatype RawCall = RawCall(functionName: string)

  /** The four message kinds; `id` is the message id the reducer merges on. */
  datatype Message =
    | Human(content: string, id: Option<string>)
    | Ai(content: string, id: Option<string>, toolCalls: seq<ToolCall>, rawCalls: Option<seq<RawCall>>, invalidCalls: nat)
    | System(content: string, id: Option<string>)
    | ToolResult(content: string, id: Option<string>, toolCallId: string, name: string)

  /** A plain answer without tool calls. */
  function AiText(content: string, id: Option<string>): Message {
    Ai(content, id, [], None, 0)
  }

  /** A trace entry; `Reset` is the sentinel object that starts a new turn. */
  datatype TraceItem = Reset | Record(node: string, action: string)

  datatype Action = Pass | Block | Retry

  datatype AgentState = AgentState(
    messages: seq<Message>,
    trace: seq<TraceItem>,
    action: Action,
    rewritten: string,
    retryCount: int,
    started: bool)

  /** What a node returns: the keys it leaves out are `None`. */
  datatype Update = Update(
    messages: seq<Message>,
    trace: seq<TraceItem>,
    action: Option<Action>,
    rewritten: Option<string>,
    retryCount: Option<int>,
    started: Option<bool>)

  /** The field defaults of a state no update has touched yet. */
  const Initial := AgentState([], [], Pass, "", 0, false)

  /** The trace reducer: an update led by the sentinel replaces the trace, any other update is appended. */
  function AppendTrace(current: seq<TraceItem>, update: seq<TraceItem>): (r: seq<TraceItem>)
    ensures update != [] && update[0] == Reset ==> r == update[1..]
    ensures (update == [] || update[0] != Reset) ==> r == current + update
  {
    if update != [] && update[0] == Reset then update[1..] else current + update
  }

  /** The message reducer for one message: a message whose id is already present replaces it in place, any other is appended. */
  function AddMessage(current: seq<Message>, m: Message): (r: seq<Message>)
    ensures m.id.None? ==> r == current + [m]
    ensures m.id.Some? && (forall i :: 0 <= i < |current| ==> current[i].id != m.id) ==> r == current + [m]
    ensures m.id.Some? && (exists i :: 0 <= i < |current| && current[i].id == m.id) ==>
      r == current[FirstWithId(current, m.id) := m]
    ensures |r| == |current| || r == current + [m]
    ensures m in r
  {
    if m.id.None? then current + [m]
    else if exists i :: 0 <= i < |current| && current[i].id == m.id then
      var i := FirstWithId(current, m.id);
      assert current[i := m][i] == m;
      current[i := m]
    else current + [m]
  }

  /** The position of the first message carrying `id`. */
  function FirstWithId(current: seq<Message>, id: Option<string>): (k: nat)
    requires exists i :: 0 <= i < |current| && current[i].id == id
    ensures k < |current| && current[k].id == id
    ensures forall j :: 0 <= j < k ==> current[j].id != id
  {
    if current[0].id == id then 0
    else
      assert exists i :: 0 <= i < |current[1..]| && current[1..][i].id == id by {
        var i :| 0 <= i < |current| && current[i].id == id;
        assert current[1..][i - 1] == current[i];
      }
      1 + FirstWithId(current[1..], id)
  }

  /** The message reducer for an update: its messages in turn, each replacing or appending. */
  function AddMessages(current: seq<Message>, ms: seq<Message>): (r: seq<Message>)
    ensures (forall i :: 0 <= i < |ms| ==> ms[i].id.None?) ==> r == current + ms
    ensures |ms| == 1 ==> r == AddMessage(current, ms[0])
    ensures |current| <= |r| <= |current| + |ms|
    ensures ms != [] ==> ms[|ms| - 1] in r
    decreases |ms|
  {
    if ms == [] then current
    else
      var r := AddMessages(AddMessage(current, ms[0]), ms[1..]);
      assert forall i :: 0 <= i < |ms[1..]| ==> ms[1..][i] == ms[i + 1];
      assert (forall i :: 0 <= i < |ms| ==> ms[i].id.None?) ==> r == current + [ms[0]] + ms[1..];
      r
  }

  /** A message whose id no update message carries keeps its place. */
  lemma {:induction false} AddMessagesKeepsOthers(current: seq<Message>, ms: seq<Message>, j: nat)
    requires j < |current|
    requires forall k :: 0 <= k < |ms| ==> ms[k].id != current[j].id
    ensures j < |AddMessages(current, ms)| && AddMessages(current, ms)[j] == current[j]
    decreases |ms|
  {
    if ms != [] {
      var c1 := AddMessage(current, ms[0]);
      assert c1[j] == current[j];
      assert forall k :: 0 <= k < |ms[1..]| ==> ms[1..][k] == ms[k + 1];
      AddMessagesKeepsOthers(c1, ms[1..], j);
    }
  }

  /** An update whose every message carries an id already present only replaces: the length and the ids stay. */
  lemma {:induction false} AddMessagesReplaceOnly(current: seq<Message>, ms: seq<Message>)
    requires forall k :: 0 <= k < |ms| ==> ms[k].id.Some? && exists i :: 0 <= i < |current| && current[i].id == ms[k].id
    ensures |AddMessages(current, ms)| == |current|
    ensures forall j :: 0 <= j < |current| ==> AddMessages(current, ms)[j].id == current[j].id
    decreases |ms|
  {
    if ms != [] {
      var c1 := AddMessage(current, ms[0]);
      assert forall j :: 0 <= j < |current| ==> c1[j].id == current[j].id;
      forall k | 0 <= k < |ms[1..]|
        ensures ms[1..][k].id.Some? && exists i :: 0 <= i < |c1| && c1[i].id == ms[1..][k].id
      {
        assert ms[1..][k] == ms[k + 1];
        var i :| 0 <= i < |current| && current[i].id == ms[k + 1].id;
        assert c1[i].id == ms[k + 1].id;
      }
      AddMessagesReplaceOnly(c1, ms[1..]);
    }
  }

  /** Folds a node's update into the state: messages and trace through their reducers, the other keys overwritten when present. */
  function ApplyUpdate(s: AgentState, u: Update): (r: AgentState)
    ensures r.trace == AppendTrace(s.trace, u.trace)
    ensures u.action.None? ==> r.action == s.action
    ensures u.started.None? ==> r.started == s.started
    ensures u.retryCount.None? ==> r.retryCount == s.retryCount
    ensures u.rewritten.None? ==> r.rewritten == s.rewritten
    ensures u.messages == [] ==> r.messages == s.messages
  {
    AgentState(
      AddMessages(s.messages, u.messages),
      AppendTrace(s.trace, u.trace),
      if u.action.Some? then u.action.value else s.action,
      if u.rewritten.Some? then u.rewritten.value else s.rewritten,
      if u.retryCount.Some? then u.retryCount.value else s.retryCount,
      if u.started.Some? then u.started.value else s.started)
  }

  /** `build_graph_input`: the input every entry point sends at the start of a turn. */
  function BuildGraphInput(query: string): (u: Update)
    ensures u.started.None?
    ensures u.trace == [Reset]
  {
    Update([Human(query, None)], [Reset], Some(Pass), Some(""), Some(0), None)
  }

  /** A new turn forgets the previous trace, resets the per-turn fields and keeps the conversation-started flag. */
  lemma NewTurn(s: AgentState, query: string)
    ensures var t := ApplyUpdate(s, BuildGraphInput(query));
      && t.messages == s.messages + [Human(query, None)]
      && t.trace == []
      && t.action == Pass && t.rewritten == "" && t.retryCount == 0
      && t.started == s.started
  {
    var u := BuildGraphInput(query);
    assert AddMessages(s.messages, u.messages) == s.messages + [Human(query, None)];
  }

  /** Within a turn the trace holds exactly the records the turn's nodes appended. */
  lemma {:induction false} TurnTrace(previous: seq<TraceItem>, records: seq<seq<TraceItem>>)
    requires forall i :: 0 <= i < |records| ==> Reset !in records[i]
    ensures Fold(AppendTrace(previous, [Reset]), records) == Flatten(records)
  {
    if records != [] {
      var init := records[..|records| - 1];
      TurnTrace(previous, init);
      var last := records[|records| - 1];
      assert last == [] || last[0] != Reset by {
        if last != [] {
          assert last[0] in last;
        }
      }
    }
  }

  /** Applies trace updates one after another. */
  function Fold(t: seq<TraceItem>, records: seq<seq<TraceItem>>): seq<TraceItem> {
    if records == [] then t else AppendTrace(Fold(t, records[..|records| - 1]), records[|records| - 1])
  }

  function Flatten(records: seq<seq<TraceItem>>): seq<TraceItem> {
    if records == [] then [] else Flatten(records[..|records| - 1]) + records[|records| - 1]
  }

  /** The first turn of a conversation starts from the defaults plus the user's message. */
  lemma FirstTurn(query: string)
    ensures ApplyUpdate(Initial, BuildGraphInput(query)) == AgentState([Human(query, None)], [], Pass, "", 0, false)
  {
    NewTurn(Initial, query);
  }

  /** `extract_last_human_query`: the newest human message with non-empty content, or "". */
  function ExtractLastHumanQuery(ms: seq<Message>): (r: string)
    ensures r == [] <==> forall i :: 0 <= i < |ms| && ms[i].Human? ==> ms[i].content == []
    ensures r != [] ==> exists i :: (
      && 0 <= i < |ms| && ms[i].Human? && ms[i].content == r
      && forall j :: i < j < |ms| && ms[j].Human? ==> ms[j].content == [])
  {
    if ms == [] then []
    else
      var m := ms[|ms| - 1];
      if m.Human? && m.content != [] then
        assert ms[|ms| - 1].content == m.content;
        m.content
      else
        var init := ms[..|ms| - 1];
        var r := ExtractLastHumanQuery(init);
        LastHumanEarlier(ms, init, r);
        r
  }

  /** When the newest message is not a human message with content, the
      newest such message lies among the earlier ones. */
  lemma LastHumanEarlier(ms: seq<Message>, init: seq<Message>, r: string)
    requires ms != [] && init == ms[..|ms| - 1]
    requires !(ms[|ms| - 1].Human? && ms[|ms| - 1].content != [])
    requires r == [] <==> forall i :: 0 <= i < |init| && init[i].Human? ==> init[i].content == []
    requires r != [] ==> exists i :: (
      && 0 <= i < |init| && init[i].Human? && init[i].content == r
      && forall j :: i < j < |init| && init[j].Human? ==> init[j].content == [])
    ensures r == [] <==> forall i :: 0 <= i < |ms| && ms[i].Human? ==> ms[i].content == []
    ensures r != [] ==> exists i :: (
      && 0 <= i < |ms| && ms[i].Human? && ms[i].content == r
      && forall j :: i < j < |ms| && ms[j].Human? ==> ms[j].content == [])
  {
    NoHumanEarlier(ms, init);
    if r != [] {
      var i :| && 0 <= i < |init| && init[i].Human? && init[i].content == r
               && forall j :: i < j < |init| && init[j].Human? ==> init[j].content == [];
      HumanWitnessEarlier(ms, init, i);
    }
  }

  lemma NoHumanEarlier(ms: seq<Message>, init: seq<Message>)
    requires ms != [] && init == ms[..|ms| - 1]
    requires !(ms[|ms| - 1].Human? && ms[|ms| - 1].content != [])
    ensures (forall i :: 0 <= i < |init| && init[i].Human? ==> init[i].content == [])
      <==> (forall i :: 0 <= i < |ms| && ms[i].Human? ==> ms[i].content == [])
  {
    assert forall i :: 0 <= i < |init| ==> init[i] == ms[i];
  }

  lemma HumanWitnessEarlier(ms: seq<Message>, init: seq<Message>, i: nat)
    requires ms != [] && init == ms[..|ms| - 1]
    requires !(ms[|ms| - 1].Human? && ms[|ms| - 1].content != [])
    requires i < |init| && init[i].Human?
    requires forall j :: i < j < |init| && init[j].Human? ==> init[j].content == []
    ensures ms[i] == init[i]
    ensures forall j :: i < j < |ms| && ms[j].Human? ==> ms[j].content == []
  {
    forall j | i < j < |ms| && ms[j].Human? ensures ms[j].content == [] {
      if j < |init| {
        assert ms[j] == init[j];
      }
    }
  }

  /** `extract_tools_used`: the names of named tool-result messages, each once, in first-occurrence order. */
  function ExtractToolsUsed(ms: seq<Message>): (r: seq<string>)
    ensures Distinct(r)
    ensures forall n :: n in r <==> n != [] && exists i :: 0 <= i < |ms| && ms[i].ToolResult? && ms[i].name == n
  {
    if ms == [] then []
    else
      var init := ms[..|ms| - 1];
      var prev := ExtractToolsUsed(init);
      var m := ms[|ms| - 1];
      assert forall i :: 0 <= i < |init| ==> init[i] == ms[i];
      if m.ToolResult? && m.name != [] && m.name !in prev then prev + [m.name] else prev
  }

  /** More messages only extend the list of tools used: earlier names keep their positions. */
  lemma {:induction false} ToolsUsedPrefix(a: seq<Message>, b: seq<Message>)
    ensures ExtractToolsUsed(a) <= ExtractToolsUsed(a + b)
  {
    if b != [] {
      var init := b[..|b| - 1];
      ToolsUsedPrefix(a, init);
      assert (a + b)[..|a + b| - 1] == a + init;
      var prev := ExtractToolsUsed(a + init);
      var full := ExtractToolsUsed(a + b);
      assert prev <= full;
      var x := ExtractToolsUsed(a);
      assert x == prev[..|x|];
      assert prev == full[..|prev|];
      assert x == full[..|x|];
    } else {
      assert a + b == a;
    }
  }
}
