// Input and output guardrails: the rule checks, the embedding-based domain
// decision, tool-name scrubbing, disclaimer selection, the two guardrail
// nodes and the routes after them.  Regular-expression searches and the
// embedding model are parameters.

module Guardrails {
  import opened Util
  import opened GraphState

  datatype GuardrailResult = GuardrailResult(passed: bool, reason: string)

  const Ok := GuardrailResult(true, "")

  /** A compiled pattern's `search`, reduced to whether it matches. */
  type Matcher = string -> bool

  /** A compiled pattern's `search`, returning the matched text. */
  type Searcher = string -> Option<string>

  /** The embedding model: the largest cosine similarity to the in-domain and to the out-of-domain examples, or None when it raises. */
  type Embedder = string -> Option<(real, real)>

  const InjectionRefusal := "죄송합니다. 해당 요청은 처리할 수 없습니다."
  const DomainRefusal := "보험 관련 질문에만 답변할 수 있습니다. 보험 상품, 가입, 보장, 청구 등에 대해 질문해 주세요."
  const InThreshold: real := 0.87
  const MarginThreshold: real := 0.03

  /** `check_prompt_injection`: fails as soon as one pattern matches. */
  function CheckPromptInjection(text: string, patterns: seq<Matcher>): (r: GuardrailResult)
    ensures !r.passed <==> exists i :: 0 <= i < |patterns| && patterns[i](text)
    ensures r == Ok || r == GuardrailResult(false, InjectionRefusal)
  {
    if patterns == [] then Ok
    else if patterns[0](text) then GuardrailResult(false, InjectionRefusal)
    else
      var r := CheckPromptInjection(text, patterns[1..]);
      assert forall i :: 1 <= i < |patterns| ==> patterns[i] == patterns[1..][i - 1];
      r
  }

  /** The threshold-and-margin decision on the two similarities. */
  function DomainPasses(maxIn: real, maxOut: real): (pass: bool)
    ensures maxIn >= InThreshold ==> pass
    ensures maxIn < InThreshold ==> (pass <==> maxOut - maxIn < MarginThreshold)
  {
    if maxIn >= InThreshold then true
    else if maxOut - maxIn >= MarginThreshold then false
    else true
  }

  /** A higher in-domain similarity never turns a pass into a block. */
  lemma DomainMonotone(maxIn: real, maxIn': real, maxOut: real)
    requires DomainPasses(maxIn, maxOut) && maxIn <= maxIn'
    ensures DomainPasses(maxIn', maxOut)
  {
  }

  /** The measured stock-tip query: in 0.853, out 0.898 is blocked. */
  lemma StockTipBlocked()
    ensures !DomainPasses(0.853, 0.898)
  {
  }

  /** `check_domain_relevance`: short text and embedding failures pass; otherwise the decision above. */
  function CheckDomainRelevance(text: string, embed: Embedder): (r: GuardrailResult)
    ensures !r.passed <==> |Strip(text)| >= 5 && embed(text).Some? && !DomainPasses(embed(text).value.0, embed(text).value.1)
    ensures r == Ok || r == GuardrailResult(false, DomainRefusal)
  {
    if |Strip(text)| < 5 then Ok
    else match embed(text)
      case None => Ok
      case Some(sims) => if DomainPasses(sims.0, sims.1) then Ok else GuardrailResult(false, DomainRefusal)
  }

  /** `check_pii_leak`: the label of the first matching PII pattern. */
  function CheckPiiLeak(text: string, patterns: seq<(Matcher, string)>): (r: GuardrailResult)
    ensures !r.passed <==> exists i :: 0 <= i < |patterns| && patterns[i].0(text)
    ensures !r.passed ==> exists i :: (
      && 0 <= i < |patterns| && patterns[i].0(text) && r.reason == "응답에 " + patterns[i].1 + " 포함"
      && forall j :: 0 <= j < i ==> !patterns[j].0(text))
    ensures r.passed ==> r == Ok
  {
    if patterns == [] then Ok
    else if patterns[0].0(text) then GuardrailResult(false, "응답에 " + patterns[0].1 + " 포함")
    else
      var r := CheckPiiLeak(text, patterns[1..]);
      assert forall i :: 1 <= i < |patterns| ==> patterns[i] == patterns[1..][i - 1];
      r
  }

  /** `check_forbidden_output`: the first forbidden phrase found, quoted with its reason. */
  function CheckForbiddenOutput(text: string, patterns: seq<(Searcher, string)>): (r: GuardrailResult)
    ensures !r.passed <==> exists i :: 0 <= i < |patterns| && patterns[i].0(text).Some?
    ensures !r.passed ==> exists i :: (
      && 0 <= i < |patterns| && patterns[i].0(text).Some?
      && r.reason == "부적절한 표현 감지: '" + patterns[i].0(text).value + "' → " + patterns[i].1
      && forall j :: 0 <= j < i ==> patterns[j].0(text).None?)
    ensures r.passed ==> r == Ok
  {
    if patterns == [] then Ok
    else match patterns[0].0(text)
      case Some(m) => GuardrailResult(false, "부적절한 표현 감지: '" + m + "' → " + patterns[0].1)
      case None =>
        var r := CheckForbiddenOutput(text, patterns[1..]);
        assert forall i :: 1 <= i < |patterns| ==> patterns[i] == patterns[1..][i - 1];
        r
  }

  /** `check_empty_response`: fails exactly on empty or all-whitespace text. */
  function CheckEmptyResponse(text: string): (r: GuardrailResult)
    ensures r.passed <==> exists i :: 0 <= i < |text| && !IsSpace(text[i])
    ensures r.passed ==> r == Ok
  {
    StripEmptyIffAllSpace(text);
    if text == [] || Strip(text) == [] then GuardrailResult(false, "빈 응답") else Ok
  }

  // ---------------------------------------------------------------
  // Tool-name scrubbing
  // ---------------------------------------------------------------

  predicate NoDoubleSpace(s: string) {
    forall i :: 0 <= i < |s| - 1 ==> !(s[i] == ' ' && s[i + 1] == ' ')
  }

  /** The text with every space character removed. */
  function NonSpaces(s: string): string {
    if s == [] then [] else (if s[0] == ' ' then [] else [s[0]]) + NonSpaces(s[1..])
  }

  /** Drops the leading run of spaces. */
  function SkipSpaces(s: string): (r: string)
    ensures r == [] || r[0] != ' '
    ensures |r| <= |s|
  {
    if s != [] && s[0] == ' ' then SkipSpaces(s[1..]) else s
  }

  /** `re.sub(r'  +', ' ', s)`: every run of spaces becomes one space. */
  function CollapseSpaces(s: string): (r: string)
    ensures NoDoubleSpace(r)
    ensures s != [] ==> r != [] && r[0] == s[0]
    decreases |s|
  {
    if s == [] then []
    else if s[0] == ' ' then [' '] + CollapseSpaces(SkipSpaces(s[1..]))
    else [s[0]] + CollapseSpaces(s[1..])
  }

  /** Skipping spaces loses no other character. */
  lemma {:induction false} SkipSpacesKeepsText(s: string)
    ensures NonSpaces(SkipSpaces(s)) == NonSpaces(s)
  {
    if s != [] && s[0] == ' ' {
      SkipSpacesKeepsText(s[1..]);
    }
  }

  /** Collapsing spaces loses no other character and keeps the order of the rest. */
  lemma {:induction false} CollapseKeepsText(s: string)
    ensures NonSpaces(CollapseSpaces(s)) == NonSpaces(s)
    decreases |s|
  {
    if s != [] && s[0] == ' ' {
      var rest := SkipSpaces(s[1..]);
      SkipSpacesKeepsText(s[1..]);
      CollapseKeepsText(rest);
      var c := CollapseSpaces(rest);
      assert ([' '] + c)[1..] == c;
    } else if s != [] {
      CollapseKeepsText(s[1..]);
      var c := CollapseSpaces(s[1..]);
      assert ([s[0]] + c)[1..] == c;
    }
  }

  /** What is skipped is a run of spaces, and what is left is the rest of the text. */
  lemma {:induction false} SkipSpacesSplit(s: string)
    ensures SkipSpaces(s) == s[|s| - |SkipSpaces(s)|..]
    ensures forall i :: 0 <= i < |s| - |SkipSpaces(s)| ==> s[i] == ' '
  {
    if s != [] && s[0] == ' ' {
      SkipSpacesSplit(s[1..]);
      var r := SkipSpaces(s[1..]);
      assert s[1..][|s| - 1 - |r|..] == s[|s| - |r|..];
      forall i | 1 <= i < |s| - |r| ensures s[i] == ' ' {
        assert s[i] == s[1..][i - 1];
      }
    }
  }

  /** Skipping the spaces before `a + b` skips those of `a`, and those of `b` too when `a` is all spaces. */
  lemma {:induction false} SkipSpacesAppend(a: string, b: string)
    ensures SkipSpaces(a) != [] ==> SkipSpaces(a + b) == SkipSpaces(a) + b
    ensures SkipSpaces(a) == [] && (b == [] || b[0] != ' ') ==> SkipSpaces(a + b) == b
  {
    if a != [] && a[0] == ' ' {
      assert (a + b)[1..] == a[1..] + b;
      SkipSpacesAppend(a[1..], b);
    } else if a == [] {
      assert a + b == b;
    }
  }

  /** A non-empty run of spaces collapses to one space. */
  lemma CollapseOfSpaces(s: string)
    requires s != [] && forall i :: 0 <= i < |s| ==> s[i] == ' '
    ensures CollapseSpaces(s) == " "
  {
    SkipSpacesSplit(s[1..]);
    assert SkipSpaces(s[1..]) == [];
  }

  /** A text without spaces is kept as it is. */
  lemma {:induction false} CollapseOfWord(w: string)
    requires forall i :: 0 <= i < |w| ==> w[i] != ' '
    ensures CollapseSpaces(w) == w
  {
    if w != [] {
      CollapseOfWord(w[1..]);
      assert w == [w[0]] + w[1..];
    }
  }

  /**
   * Collapsing distributes over a concatenation whose seam is not between
   * two spaces; with the two lemmas above this pins down every output.
   */
  lemma {:induction false} CollapseAppend(x: string, y: string)
    requires x == [] || y == [] || x[|x| - 1] != ' ' || y[0] != ' '
    ensures CollapseSpaces(x + y) == CollapseSpaces(x) + CollapseSpaces(y)
    decreases |x|
  {
    if x == [] {
      assert x + y == y;
    } else if x[0] != ' ' {
      var rx := x[1..];
      if rx != [] {
        assert rx[|rx| - 1] == x[|x| - 1];
      }
      CollapseAppend(rx, y);
      CollapseWordStep(x, y);
    } else {
      var sx := SkipSpaces(x[1..]);
      SkipSpacesSplit(x[1..]);
      if sx != [] {
        assert sx[|sx| - 1] == x[|x| - 1];
        CollapseAppend(sx, y);
        CollapseSpaceStep(x, y);
      } else {
        assert x[|x| - 1] == ' ' by {
          if |x| > 1 {
            assert x[1..][|x| - 2] == x[|x| - 1];
          }
        }
        CollapseBlankStep(x, y);
      }
    }
  }

  lemma CollapseWordStep(x: string, y: string)
    requires x != [] && x[0] != ' '
    requires CollapseSpaces(x[1..] + y) == CollapseSpaces(x[1..]) + CollapseSpaces(y)
    ensures CollapseSpaces(x + y) == CollapseSpaces(x) + CollapseSpaces(y)
  {
    var rx := x[1..];
    assert (x + y)[1..] == rx + y && (x + y)[0] == x[0];
    ConsAppend(CollapseSpaces(x), CollapseSpaces(x + y), CollapseSpaces(rx), CollapseSpaces(rx + y), CollapseSpaces(y), x[0]);
  }

  /** A text opening with a space collapses to one space and the collapse of what follows the run. */
  lemma CollapseSpaceHead(z: string)
    requires z != [] && z[0] == ' '
    ensures CollapseSpaces(z) == [' '] + CollapseSpaces(SkipSpaces(z[1..]))
  {
  }

  lemma CollapseSpaceStep(x: string, y: string)
    requires x != [] && x[0] == ' ' && SkipSpaces(x[1..]) != []
    requires CollapseSpaces(SkipSpaces(x[1..]) + y) == CollapseSpaces(SkipSpaces(x[1..])) + CollapseSpaces(y)
    ensures CollapseSpaces(x + y) == CollapseSpaces(x) + CollapseSpaces(y)
  {
    var sx := SkipSpaces(x[1..]);
    var xy := x + y;
    assert xy[1..] == x[1..] + y && xy[0] == ' ';
    SkipSpacesAppend(x[1..], y);
    CollapseSpaceHead(xy);
    CollapseSpaceHead(x);
    ConsAppend(CollapseSpaces(x), CollapseSpaces(xy), CollapseSpaces(sx), CollapseSpaces(sx + y), CollapseSpaces(y), ' ');
  }


  lemma CollapseBlankStep(x: string, y: string)
    requires x != [] && x[0] == ' ' && SkipSpaces(x[1..]) == []
    requires y == [] || y[0] != ' '
    ensures CollapseSpaces(x + y) == CollapseSpaces(x) + CollapseSpaces(y)
  {
    assert (x + y)[1..] == x[1..] + y && (x + y)[0] == ' ';
    SkipSpacesAppend(x[1..], y);
    assert CollapseSpaces(x) == [' '] + CollapseSpaces([]);
  }

  /** A slice of a text without double spaces has none either. */
  lemma SliceNoDoubleSpace(s: string, i: nat, j: nat)
    requires NoDoubleSpace(s) && i <= j <= |s|
    ensures NoDoubleSpace(s[i..j])
  {
    forall k | 0 <= k < |s[i..j]| - 1
      ensures !(s[i..j][k] == ' ' && s[i..j][k + 1] == ' ')
    {
      assert s[i..j][k] == s[i + k] && s[i..j][k + 1] == s[i + k + 1];
    }
  }

  /**
   * `sanitize_tool_names`: removes internal tool names and product codes
   * (the two substitutions are parameters), collapses runs of spaces and
   * strips the ends.
   */
  function SanitizeToolNames(text: string, dropToolNames: string -> string, dropCodes: string -> string): (r: string)
    ensures r == Strip(CollapseSpaces(dropCodes(dropToolNames(text))))
    ensures NoDoubleSpace(r)
    ensures r == [] || (!IsSpace(r[0]) && !IsSpace(r[|r| - 1]))
  {
    var c := CollapseSpaces(dropCodes(dropToolNames(text)));
    StripNoDoubleSpace(c);
    Strip(c)
  }

  /** Stripping the ends keeps a text free of double spaces. */
  lemma StripNoDoubleSpace(c: string)
    requires NoDoubleSpace(c)
    ensures NoDoubleSpace(Strip(c))
  {
    var l := LStrip(c);
    SliceNoDoubleSpace(c, |c| - |l|, |c|);
    SliceNoDoubleSpace(l, 0, |RStrip(l)|);
  }

  // ---------------------------------------------------------------
  // Disclaimers
  // ---------------------------------------------------------------

  const PremiumDisclaimer := "이 금액은 예시이며, 실제 보험료는 상품·보장내용·건강상태에 따라 달라집니다. 정확한 보험료는 설계사 상담 또는 공식 홈페이지를 통해 확인해 주세요."
  const ProductDisclaimer := "상품 상세 내용은 약관을 기준으로 하며, 가입 전 반드시 상품설명서와 약관을 확인하시기 바랍니다."
  const CoverageDisclaimer := "보장 내용은 약관을 기준으로 하며, 여기 표시된 내용은 참고용입니다. 실제 보장 범위와 지급 조건은 약관에서 정한 바에 따릅니다."

  /** The trigger tools of each disclaimer, in the order they are tried. */
  const Disclaimers: seq<(set<string>, string)> := [
    ({"premium_estimate", "premium_compare", "plan_options", "renewal_premium_projection", "affordability_check"}, PremiumDisclaimer),
    ({"product_compare", "product_search", "product_get"}, ProductDisclaimer),
    ({"coverage_summary", "coverage_detail", "benefit_amount_lookup", "benefit_limit_rules", "event_eligibility_check"}, CoverageDisclaimer)
  ]

  predicate Triggers(group: set<string>, used: seq<string>) {
    exists t :: t in used && t in group
  }

  /** The text of the first group whose trigger tools meet the tools used. */
  function FirstTriggered(groups: seq<(set<string>, string)>, used: seq<string>): (r: Option<string>)
    ensures r.None? <==> forall i :: 0 <= i < |groups| ==> !Triggers(groups[i].0, used)
    ensures r.Some? ==> exists i :: (
      && 0 <= i < |groups| && Triggers(groups[i].0, used) && r.value == groups[i].1
      && forall j :: 0 <= j < i ==> !Triggers(groups[j].0, used))
  {
    if groups == [] then None
    else if Triggers(groups[0].0, used) then Some(groups[0].1)
    else
      var r := FirstTriggered(groups[1..], used);
      assert forall i :: 1 <= i < |groups| ==> groups[i] == groups[1..][i - 1];
      r
  }

  /** `_select_disclaimer`. */
  function SelectDisclaimer(used: seq<string>): (r: Option<string>)
    ensures r.None? <==> forall i :: 0 <= i < |Disclaimers| ==> !Triggers(Disclaimers[i].0, used)
  {
    FirstTriggered(Disclaimers, used)
  }

  /** A premium tool decides the disclaimer even when product tools were used too. */
  lemma PremiumFirst(used: seq<string>)
    requires "premium_estimate" in used
    ensures SelectDisclaimer(used) == Some(PremiumDisclaimer)
  {
    assert Triggers(Disclaimers[0].0, used);
  }

  const Marker := "\n※ "

  /** Appends the disclaimer unless it, or any earlier disclaimer marker, is already in the text. */
  function AppendDisclaimer(cleaned: string, d: Option<string>): (r: string)
    ensures r != cleaned ==> d.Some? && r == RStrip(cleaned) + "\n\n※ " + d.value
    ensures d.None? || Contains(cleaned, d.value) || Contains(cleaned, Marker) ==> r == cleaned
  {
    if d.Some? && !Contains(cleaned, d.value) && !Contains(cleaned, Marker) then RStrip(cleaned) + "\n\n※ " + d.value
    else cleaned
  }

  /** Appending is idempotent, and an amended answer is never amended again, whatever disclaimer a second pass picks. */
  lemma AppendDisclaimerOnce(cleaned: string, d: Option<string>, d': Option<string>)
    ensures var once := AppendDisclaimer(cleaned, d);
      && AppendDisclaimer(once, d) == once
      && (once != cleaned ==> AppendDisclaimer(once, d') == once)
  {
    var once := AppendDisclaimer(cleaned, d);
    if once != cleaned {
      var a := RStrip(cleaned) + "\n";
      assert "\n\n※ " == "\n" + Marker;
      assert once == a + Marker + d.value;
      ContainsInfix(a, Marker, d.value);
      assert Contains(once, Marker);
    }
  }

  // ---------------------------------------------------------------
  // Nodes
  // ---------------------------------------------------------------

  /** `input_guardrail`: the injection check always, the domain check only before the conversation has started. */
  function InputGuardrail(s: AgentState, injection: seq<Matcher>, embed: Embedder): (u: Update)
    ensures var q := ExtractLastHumanQuery(s.messages);
      u.action == Some(Block) <==> !CheckPromptInjection(q, injection).passed || (!s.started && !CheckDomainRelevance(q, embed).passed)
    ensures u.action == Some(Block) || u.action == Some(Pass)
    ensures u.action == Some(Block) ==> |u.messages| == 1 && u.messages[0].Ai? && u.messages[0].toolCalls == []
    ensures u.action == Some(Pass) ==> u.messages == []
    ensures u.started.None? && u.retryCount.None? && u.rewritten.None?
    ensures |u.trace| == 1 && u.trace[0] != Reset
  {
    var q := ExtractLastHumanQuery(s.messages);
    var inj := CheckPromptInjection(q, injection);
    if !inj.passed then InputBlocked(inj.reason)
    else if !s.started && !CheckDomainRelevance(q, embed).passed then InputBlocked(CheckDomainRelevance(q, embed).reason)
    else Update([], [Record("input_guardrail", "pass")], Some(Pass), None, None, None)
  }

  function InputBlocked(reason: string): Update {
    Update([AiText(reason, None)], [Record("input_guardrail", "block")], Some(Block), None, None, None)
  }

  /** Once the conversation has started the domain model plays no part. */
  lemma FollowupSkipsDomain(s: AgentState, injection: seq<Matcher>, e1: Embedder, e2: Embedder)
    requires s.started
    ensures InputGuardrail(s, injection, e1) == InputGuardrail(s, injection, e2)
  {
  }

  /** The output checks in order: PII, forbidden phrases, empty answer. */
  function OutputChecks(text: string, pii: seq<(Matcher, string)>, forbidden: seq<(Searcher, string)>): (r: GuardrailResult)
    ensures r.passed <==> CheckPiiLeak(text, pii).passed && CheckForbiddenOutput(text, forbidden).passed && CheckEmptyResponse(text).passed
  {
    var p := CheckPiiLeak(text, pii);
    if !p.passed then p
    else
      var f := CheckForbiddenOutput(text, forbidden);
      if !f.passed then f else CheckEmptyResponse(text)
  }

  const MaxOutputRetries := 1
  const SafeResponse := "죄송합니다. 응답을 생성하는 과정에서 문제가 발견되었습니다. 다시 질문해 주시면 정확한 정보로 답변드리겠습니다."

  function LastText(ms: seq<Message>): string {
    if ms == [] then "" else ms[|ms| - 1].content
  }

  function LastId(ms: seq<Message>): Option<string> {
    if ms == [] then None else ms[|ms| - 1].id
  }

  function RetryHint(reason: string): string {
    "[출력 검증 실패] 직전 응답이 다음 이유로 차단되었습니다: " + reason + "\n위반 표현을 사용하지 않고 같은 내용을 다시 답변해 주세요."
  }

  /**
   * `output_guardrail`: a failed check asks the agent once more, then
   * replaces the answer with the safe response; a passing answer is
   * scrubbed of tool names and gets its disclaimer.
   */
  function OutputGuardrail(s: AgentState, pii: seq<(Matcher, string)>, forbidden: seq<(Searcher, string)>,
                           dropToolNames: string -> string, dropCodes: string -> string): (u: Update)
    ensures var passed := OutputChecks(LastText(s.messages), pii, forbidden).passed;
      && (u.action == Some(Pass) <==> passed)
      && (u.action == Some(Retry) <==> !passed && s.retryCount < MaxOutputRetries)
      && (u.action == Some(Block) <==> !passed && s.retryCount >= MaxOutputRetries)
    ensures u.started == Some(true) <==> u.action == Some(Pass)
    ensures u.started.None? <==> u.action != Some(Pass)
    ensures u.action == Some(Retry) ==> u.retryCount == Some(s.retryCount + 1) && |u.messages| == 1 && u.messages[0].System?
    ensures u.action != Some(Retry) ==> u.retryCount.None?
    ensures u.action == Some(Block) ==> u.messages == [AiText(SafeResponse, LastId(s.messages))]
    ensures u.action == Some(Pass) ==>
      var shown := AppendDisclaimer(SanitizeToolNames(LastText(s.messages), dropToolNames, dropCodes), SelectDisclaimer(ExtractToolsUsed(s.messages)));
      if u.messages == [] then shown == LastText(s.messages) else u.messages == [AiText(shown, LastId(s.messages))]
    ensures u.rewritten.None? && |u.trace| == 1 && u.trace[0] != Reset
  {
    var text := LastText(s.messages);
    var res := OutputChecks(text, pii, forbidden);
    if !res.passed then
      if s.retryCount < MaxOutputRetries then
        Update([System(RetryHint(res.reason), None)], [Record("output_guardrail", "retry")], Some(Retry), None, Some(s.retryCount + 1), None)
      else
        Update([AiText(SafeResponse, LastId(s.messages))], [Record("output_guardrail", "block")], Some(Block), None, None, None)
    else
      var cleaned := SanitizeToolNames(text, dropToolNames, dropCodes);
      var d := SelectDisclaimer(ExtractToolsUsed(s.messages));
      if d.Some? && !Contains(cleaned, d.value) && !Contains(cleaned, Marker) then
        Update([AiText(AppendDisclaimer(cleaned, d), LastId(s.messages))], [Record("output_guardrail", "pass")], Some(Pass), None, None, Some(true))
      else if cleaned != text then
        Update([AiText(cleaned, LastId(s.messages))], [Record("output_guardrail", "pass")], Some(Pass), None, None, Some(true))
      else
        Update([], [Record("output_guardrail", "pass")], Some(Pass), None, None, Some(true))
  }

  /** Within one turn the output guardrail asks for at most one retry: after a retry the next failure blocks. */
  lemma RetryAtMostOnce(s: AgentState, later: AgentState, pii: seq<(Matcher, string)>, forbidden: seq<(Searcher, string)>,
                        dropToolNames: string -> string, dropCodes: string -> string)
    requires s.retryCount >= 0
    requires OutputGuardrail(s, pii, forbidden, dropToolNames, dropCodes).action == Some(Retry)
    requires later.retryCount == ApplyUpdate(s, OutputGuardrail(s, pii, forbidden, dropToolNames, dropCodes)).retryCount
    ensures OutputGuardrail(later, pii, forbidden, dropToolNames, dropCodes).action != Some(Retry)
  {
  }

  /** `route_after_input_guard`. */
  function RouteAfterInputGuard(s: AgentState): (r: string)
    ensures r == "block" <==> s.action == Block
    ensures r == "block" || r == "pass"
  {
    if s.action == Block then "block" else "pass"
  }

  /** `route_after_output_guard`. */
  function RouteAfterOutputGuard(s: AgentState): (r: string)
    ensures r == "agent" <==> s.action == Retry
    ensures r == "agent" || r == "__end__"
  {
    if s.action == Retry then "agent" else "__end__"
  }
}
