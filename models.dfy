// Validation of the chat API's request body and of the pipeline trace
// entries.  A request arrives as a map from field name to string value;
// a trace entry as the optional values of its known fields plus the
// names of whatever extra keys the graph nodes added.

module Models {
  import opened Util

  const QueryMaxLen: nat := 5000
  const ThreadIdMaxLen: nat := 128
  const DefaultThreadId: string := "default"
  const RequestFields: set<string> := {"query", "session_id", "thread_id"}

  datatype ChatRequest = ChatRequest(query: string, sessionId: string, threadId: string)

  /** A word character: ASCII letter, digit or underscore. */
  predicate IsWordChar(c: char) {
    ('a' <= c <= 'z') || ('A' <= c <= 'Z') || ('0' <= c <= '9') || c == '_'
  }

  /** One character of ^[\w\-:.]+$ */
  predicate ThreadIdChar(c: char) {
    IsWordChar(c) || c == '-' || c == ':' || c == '.'
  }

  predicate ValidThreadId(t: string) {
    1 <= |t| <= ThreadIdMaxLen && forall i :: 0 <= i < |t| ==> ThreadIdChar(t[i])
  }

  predicate ValidRequest(r: ChatRequest) {
    1 <= |r.query| <= QueryMaxLen && ValidThreadId(r.threadId)
  }

  /** The request body as sent: the three fields, all present. */
  function ToBody(r: ChatRequest): map<string, string> {
    map["query" := r.query, "session_id" := r.sessionId, "thread_id" := r.threadId]
  }

  /**
   * Parses a request body.  Unknown fields are rejected; a missing
   * session id is replaced by a fresh one and a missing thread id by
   * "default".
   */
  function ParseChatRequest(body: map<string, string>, freshSessionId: string): (r: Result<ChatRequest>)
    ensures r.Ok? ==> ValidRequest(r.value)
    ensures r.Ok? ==> body.Keys <= RequestFields && "query" in body && r.value.query == body["query"]
    ensures r.Ok? ==> r.value.sessionId == (if "session_id" in body then body["session_id"] else freshSessionId)
    ensures r.Ok? ==> r.value.threadId == (if "thread_id" in body then body["thread_id"] else DefaultThreadId)
    ensures !(body.Keys <= RequestFields) ==> r.Err?
    ensures "query" !in body ==> r.Err?
  {
    if !(body.Keys <= RequestFields) then Err("extra fields not permitted")
    else if "query" !in body then Err("query: field required")
    else if !(1 <= |body["query"]| <= QueryMaxLen) then Err("query: length must be within 1..5000")
    else
      var thread := if "thread_id" in body then body["thread_id"] else DefaultThreadId;
      var session := if "session_id" in body then body["session_id"] else freshSessionId;
      if !(1 <= |thread| <= ThreadIdMaxLen) then Err("thread_id: length must be within 1..128")
      else if !(forall i :: 0 <= i < |thread| ==> ThreadIdChar(thread[i])) then Err("thread_id: pattern mismatch")
      else Ok(ChatRequest(body["query"], session, thread))
  }

  /** Every valid request survives being sent and parsed again. */
  lemma RequestRoundTrip(r: ChatRequest, freshSessionId: string)
    requires ValidRequest(r)
    ensures ParseChatRequest(ToBody(r), freshSessionId) == Ok(r)
  {
    var body := ToBody(r);
    assert body.Keys == RequestFields;
    assert body["query"] == r.query && body["session_id"] == r.sessionId && body["thread_id"] == r.threadId;
  }

  /** A body with just a valid query is accepted with the default thread id. */
  lemma QueryOnlyAccepted(q: string, freshSessionId: string)
    requires 1 <= |q| <= QueryMaxLen
    ensures ParseChatRequest(map["query" := q], freshSessionId) == Ok(ChatRequest(q, freshSessionId, DefaultThreadId))
  {
    var body := map["query" := q];
    assert body.Keys == {"query"};
    assert forall i :: 0 <= i < |DefaultThreadId| ==> ThreadIdChar(DefaultThreadId[i]);
  }

  // ---------------------------------------------------------------
  // Trace entries
  // ---------------------------------------------------------------

  datatype TraceEntry = TraceEntry(
    node: string,
    durationMs: real,
    action: Option<string>,
    reason: Option<string>,
    toolsBound: Option<int>,
    disclaimerAppended: Option<bool>)

  /** A trace record as a node emitted it; `extra` names keys the schema does not know. */
  datatype TraceInput = TraceInput(
    node: Option<string>,
    durationMs: Option<real>,
    action: Option<string>,
    reason: Option<string>,
    toolsBound: Option<int>,
    disclaimerAppended: Option<bool>,
    extra: set<string>)

  predicate ValidTrace(e: TraceEntry) {
    e.durationMs >= 0.0 && (e.toolsBound.Some? ==> e.toolsBound.value >= 0)
  }

  function ToInput(e: TraceEntry, extra: set<string>): TraceInput {
    TraceInput(Some(e.node), Some(e.durationMs), e.action, e.reason, e.toolsBound, e.disclaimerAppended, extra)
  }

  /** Validates a trace record: node is required, the duration defaults to 0, extra keys are ignored. */
  function ParseTraceEntry(t: TraceInput): (r: Result<TraceEntry>)
    ensures r.Ok? ==> ValidTrace(r.value)
    ensures r.Ok? ==> t.node.Some? && r.value.node == t.node.value
    ensures r.Ok? ==> r.value.durationMs == (if t.durationMs.Some? then t.durationMs.value else 0.0)
    ensures t.node.None? ==> r.Err?
    ensures t.durationMs.Some? && t.durationMs.value < 0.0 ==> r.Err?
    ensures t.toolsBound.Some? && t.toolsBound.value < 0 ==> r.Err?
  {
    if t.node.None? then Err("node: field required")
    else
      var d := if t.durationMs.Some? then t.durationMs.value else 0.0;
      if d < 0.0 then Err("duration_ms: must be >= 0")
      else if t.toolsBound.Some? && t.toolsBound.value < 0 then Err("tools_bound: must be >= 0")
      else Ok(TraceEntry(t.node.value, d, t.action, t.reason, t.toolsBound, t.disclaimerAppended))
  }

  /** Extra keys never change the outcome, and every valid entry is read back unchanged. */
  lemma TraceRoundTrip(e: TraceEntry, extra: set<string>)
    requires ValidTrace(e)
    ensures ParseTraceEntry(ToInput(e, extra)) == Ok(e)
  {
  }

  lemma TraceIgnoresExtra(t: TraceInput, extra: set<string>)
    ensures ParseTraceEntry(t.(extra := extra)) == ParseTraceEntry(t)
  {
  }
}
