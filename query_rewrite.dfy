// The query rewriter node: decides whether a short follow-up question is
// rewritten into a standalone one, builds the prompt from the recent
// conversation and accepts the model's answer only when it is a real
// change.  The model is a parameter.

module QueryRewrite {
  import opened Util
  import opened GraphState

  const RewriteThreshold := 15

  /** One-character answers that still carry meaning (yes, male, female, ...). */
  const MeaningfulSingle: set<string> := {"네", "예", "응", "M", "F", "남", "여"}

  const RewriteSystem := "당신은 보험 상담 챗봇의 질문 명확화 도우미입니다.\n사용자의 짧거나 문맥 의존적인 후속 질문을, 이전 대화를 참고하여 완전하고 독립적인 질문으로 재작성하세요.\n규칙:\n- 재작성된 질문 한 줄만 출력하세요.\n- 설명·따옴표·번호는 포함하지 마세요.\n- 원래 의도를 바꾸지 마세요.\n- 재작성이 불필요하면 원문 그대로 출력하세요.\n- 챗봇이 추가 정보(성별, 나이, 상품명 등)를 물었고 사용자가 단답으로 응답한 경우, 그 정보를 이전 요청에 합쳐서 완전한 질문으로 만드세요.\n  예: 챗봇이 '성별을 알려주세요' → 사용자 '아버지' → '70세 남성 기준 두 상품 합산 보험료를 알려줘'\n  예: 챗봇이 '어떤 상품인가요?' → 사용자 '종신보험' → '종신보험 상품 정보를 알려줘'"

  /** The human and AI messages before the newest message. */
  function Prior(ms: seq<Message>): (r: seq<Message>)
    ensures forall m :: m in r <==> (ms != [] && m in ms[..|ms| - 1] && (m.Human? || m.Ai?))
    ensures |r| <= |ms|
    ensures ms != [] ==> r == Filter(ms[..|ms| - 1], (m: Message) => m.Human? || m.Ai?)
  {
    if ms == [] then [] else HumanOrAi(ms[..|ms| - 1])
  }

  function HumanOrAi(ms: seq<Message>): (r: seq<Message>)
    ensures forall m :: m in r <==> m in ms && (m.Human? || m.Ai?)
    ensures r == Filter(ms, (m: Message) => m.Human? || m.Ai?)
    ensures |r| <= |ms|
  {
    if ms == [] then []
    else (if ms[0].Human? || ms[0].Ai? then [ms[0]] else []) + HumanOrAi(ms[1..])
  }

  /** The prompt: the instructions, at most the last four prior messages, then the question to rewrite. */
  function RewritePrompt(query: string, prior: seq<Message>): (p: seq<Message>)
    ensures |p| == 2 + Min(4, |prior|)
    ensures p[0] == System(RewriteSystem, None)
    ensures p[1..|p| - 1] == prior[|prior| - Min(4, |prior|)..]
    ensures p[|p| - 1] == Human("위 대화를 참고하여 이 후속 질문을 완전한 독립 질문으로 재작성: 「" + query + "」", None)
  {
    var context := prior[|prior| - Min(4, |prior|)..];
    var p := [System(RewriteSystem, None)] + context + [Human("위 대화를 참고하여 이 후속 질문을 완전한 독립 질문으로 재작성: 「" + query + "」", None)];
    assert p[1..|p| - 1] == context;
    p
  }

  /** `.strip().strip('"').strip("'").strip("「」")` on the model's answer. */
  function CleanRewrite(answer: string): string {
    StripChars(StripChars(StripChars(Strip(answer), {'"'}), {'\''}), {'「', '」'})
  }

  /** The three ways the node can decide. */
  datatype Decision = Skip | TooShort | AskModel

  function Decide(s: AgentState): (d: Decision)
    ensures d == Skip <==> |Strip(ExtractLastHumanQuery(s.messages))| >= RewriteThreshold || Prior(s.messages) == []
    ensures d == TooShort <==> d != Skip && |Strip(ExtractLastHumanQuery(s.messages))| <= 1
                                && Strip(ExtractLastHumanQuery(s.messages)) !in MeaningfulSingle
  {
    var stripped := Strip(ExtractLastHumanQuery(s.messages));
    if |stripped| >= RewriteThreshold || Prior(s.messages) == [] then Skip
    else if |stripped| <= 1 && stripped !in MeaningfulSingle then TooShort
    else AskModel
  }

  /**
   * `query_rewriter`: leaves long questions and fresh conversations alone,
   * records a meaningless one-character question as it is, and otherwise
   * takes the model's rewrite when it is non-empty and differs from the
   * question.  A model failure (None) is swallowed.
   */
  function QueryRewriter(s: AgentState, llm: seq<Message> -> Option<string>): (u: Update)
    ensures u.messages == []
    ensures u.action.None? && u.retryCount.None? && u.started.None?
    ensures |u.trace| == 1 && u.trace[0] != Reset
    ensures Decide(s) == Skip ==> u.rewritten.None?
    ensures Decide(s) == TooShort ==> u.rewritten == Some(Strip(ExtractLastHumanQuery(s.messages)))
    ensures Decide(s) == AskModel && u.rewritten.Some? ==>
      var q := ExtractLastHumanQuery(s.messages);
      var answer := llm(RewritePrompt(q, Prior(s.messages)));
      && answer.Some? && u.rewritten.value == CleanRewrite(answer.value)
      && u.rewritten.value != [] && u.rewritten.value != q
    ensures Decide(s) == AskModel ==>
      var q := ExtractLastHumanQuery(s.messages);
      var answer := llm(RewritePrompt(q, Prior(s.messages)));
      && (answer.None? ==> u.rewritten.None?)
      && (answer.Some? && CleanRewrite(answer.value) != [] && CleanRewrite(answer.value) != q ==>
            u.rewritten == Some(CleanRewrite(answer.value)))
  {
    var q := ExtractLastHumanQuery(s.messages);
    match Decide(s)
    case Skip => Update([], [Record("query_rewriter", "skip")], None, None, None, None)
    case TooShort => Update([], [Record("query_rewriter", "skip")], None, Some(Strip(q)), None, None)
    case AskModel =>
      match llm(RewritePrompt(q, Prior(s.messages)))
      case Some(answer) =>
        var rewritten := CleanRewrite(answer);
        if rewritten != [] && rewritten != q then
          Update([], [Record("query_rewriter", "rewrite")], None, Some(rewritten), None, None)
        else
          Update([], [Record("query_rewriter", "skip")], None, None, None, None)
      case None => Update([], [Record("query_rewriter", "skip")], None, None, None, None)
  }

  /** The rewriter never touches the conversation: applying its update keeps every message. */
  lemma RewriterKeepsHistory(s: AgentState, llm: seq<Message> -> Option<string>)
    ensures ApplyUpdate(s, QueryRewriter(s, llm)).messages == s.messages
  {
  }

  /** A first question is never rewritten: without prior messages the node skips. */
  lemma FirstQuestionNotRewritten(query: string, llm: seq<Message> -> Option<string>)
    ensures var s := ApplyUpdate(Initial, BuildGraphInput(query));
      QueryRewriter(s, llm).rewritten.None?
  {
    var s := ApplyUpdate(Initial, BuildGraphInput(query));
    FirstTurn(query);
    assert s.messages[..|s.messages| - 1] == [];
  }
}
