// Tool-search evaluation metrics: hit rank, reciprocal rank and the
// Hit@1 / Recall@k / MRR / No-Call accuracy arithmetic over a batch of
// evaluation results.  The tool search itself is an oracle returning
// ranked candidates; scores are taken as given reals.

module EvalRecall {
  import opened Util
  import opened ToolIndex

  /** Default cosine threshold under which a no-call query counts as correct. */
  const DefaultNoCallThreshold: real := 0.86

  /** One test case: a query and the tool it should route to (None: no tool). */
  datatype Case = Case(query: string, expected: Option<string>)

  datatype EvalResult = EvalResult(
    query: string,
    expected: Option<string>,
    ranked: seq<string>,
    scores: seq<real>,
    hitRank: Option<nat>)

  /** The tool search, called with a query and k. */
  type Searcher = (string, nat) -> seq<ToolCandidate>

  predicate IsNoCall(r: EvalResult) {
    r.expected.None?
  }

  /** A result that expects a tool. */
  predicate IsToolCall(r: EvalResult) {
    !IsNoCall(r)
  }

  /** The first score, or 0 when nothing was returned. */
  function TopScore(r: EvalResult): (s: real)
    ensures r.scores == [] ==> s == 0.0
    ensures r.scores != [] ==> s == r.scores[0]
  {
    if r.scores != [] then r.scores[0] else 0.0
  }

  // ---------------------------------------------------------------
  // Hit rank
  // ---------------------------------------------------------------

  /** First 1-based position of `name` in `ranked`, or None. */
  function FirstRank(ranked: seq<string>, name: string): (r: Option<nat>)
    ensures r.None? <==> name !in ranked
    ensures r.Some? ==> 1 <= r.value <= |ranked| && ranked[r.value - 1] == name
    ensures r.Some? ==> forall j :: 0 <= j < r.value - 1 ==> ranked[j] != name
  {
    if ranked == [] then None
    else if ranked[0] == name then Some(1)
    else match FirstRank(ranked[1..], name)
      case None => None
      case Some(k) => Some(k + 1)
  }

  /** The hit rank of a case: None for no-call cases. */
  function HitRank(expected: Option<string>, ranked: seq<string>): (r: Option<nat>)
    ensures expected.None? ==> r.None?
    ensures expected.Some? ==> (r.None? <==> expected.value !in ranked)
    ensures r.Some? ==> expected.Some? && 1 <= r.value <= |ranked| && ranked[r.value - 1] == expected.value
    ensures r.Some? ==> forall j :: 0 <= j < r.value - 1 ==> ranked[j] != expected.value
  {
    if expected.Some? then FirstRank(ranked, expected.value) else None
  }

  function Names(cs: seq<ToolCandidate>): (r: seq<string>)
    ensures |r| == |cs| && forall i :: 0 <= i < |cs| ==> r[i] == cs[i].name
  {
    if cs == [] then [] else [cs[0].name] + Names(cs[1..])
  }

  function Scores(cs: seq<ToolCandidate>): (r: seq<real>)
    ensures |r| == |cs| && forall i :: 0 <= i < |cs| ==> r[i] == cs[i].score
  {
    if cs == [] then [] else [cs[0].score] + Scores(cs[1..])
  }

  /** The result recorded for one case, given the candidates the search returned. */
  function Evaluate(c: Case, cands: seq<ToolCandidate>): EvalResult {
    EvalResult(c.query, c.expected, Names(cands), Scores(cands), HitRank(c.expected, Names(cands)))
  }

  /** Runs every case through the search, in order. */
  method RunSearch(cases: seq<Case>, search: Searcher, k: nat) returns (results: seq<EvalResult>)
    ensures |results| == |cases|
    ensures forall i :: 0 <= i < |cases| ==> results[i] == Evaluate(cases[i], search(cases[i].query, k))
  {
    results := [];
    for i := 0 to |cases|
      invariant |results| == i
      invariant forall j :: 0 <= j < i ==> results[j] == Evaluate(cases[j], search(cases[j].query, k))
    {
      var cands := search(cases[i].query, k);
      var ranked := Names(cands);
      var scores := Scores(cands);
      var hitRank := HitRank(cases[i].expected, ranked);
      results := results + [EvalResult(cases[i].query, cases[i].expected, ranked, scores, hitRank)];
    }
  }

  /** 1/hit_rank, or 0 when there is no (truthy) hit rank. */
  function ReciprocalRank(r: EvalResult): (rr: real)
    ensures 0.0 <= rr <= 1.0
    ensures r.hitRank == Some(1) ==> rr == 1.0
    ensures rr > 0.0 <==> r.hitRank.Some? && r.hitRank.value != 0
    ensures r.hitRank.Some? && r.hitRank.value > 1 ==> rr <= 0.5
  {
    if r.hitRank.Some? && r.hitRank.value != 0 then 1.0 / (r.hitRank.value as real) else 0.0
  }

  // ---------------------------------------------------------------
  // Metrics
  // ---------------------------------------------------------------

  /** `[r for r in results if not r.is_no_call]`. */
  function ToolCalls(rs: seq<EvalResult>): (r: seq<EvalResult>)
    ensures forall x :: x in r ==> x in rs && !IsNoCall(x)
  {
    if rs == [] then []
    else (if IsNoCall(rs[0]) then [] else [rs[0]]) + ToolCalls(rs[1..])
  }

  /** `[r for r in results if r.is_no_call]`. */
  function NoCalls(rs: seq<EvalResult>): (r: seq<EvalResult>)
    ensures forall x :: x in r ==> x in rs && IsNoCall(x)
  {
    if rs == [] then []
    else (if IsNoCall(rs[0]) then [rs[0]] else []) + NoCalls(rs[1..])
  }

  /** The tool-call results are exactly those of the list comprehension, in order. */
  lemma {:induction false} ToolCallsInOrder(rs: seq<EvalResult>)
    ensures ToolCalls(rs) == Filter(rs, IsToolCall)
  {
    if rs != [] {
      ToolCallsInOrder(rs[1..]);
    }
  }

  /** The no-call results are exactly those of the list comprehension, in order. */
  lemma {:induction false} NoCallsInOrder(rs: seq<EvalResult>)
    ensures NoCalls(rs) == Filter(rs, IsNoCall)
  {
    if rs != [] {
      NoCallsInOrder(rs[1..]);
    }
  }

  /** Every result is either a tool-call or a no-call result. */
  lemma {:induction false} PartitionSizes(rs: seq<EvalResult>)
    ensures |ToolCalls(rs)| + |NoCalls(rs)| == |rs|
  {
    if rs != [] {
      PartitionSizes(rs[1..]);
    }
  }

  function CountHit1(tc: seq<EvalResult>): nat {
    if tc == [] then 0 else (if tc[0].hitRank == Some(1) then 1 else 0) + CountHit1(tc[1..])
  }

  function CountRecalled(tc: seq<EvalResult>): nat {
    if tc == [] then 0 else (if tc[0].hitRank.Some? then 1 else 0) + CountRecalled(tc[1..])
  }

  function SumReciprocal(tc: seq<EvalResult>): real {
    if tc == [] then 0.0 else ReciprocalRank(tc[0]) + SumReciprocal(tc[1..])
  }

  function CountBelow(nc: seq<EvalResult>, threshold: real): nat {
    if nc == [] then 0 else (if TopScore(nc[0]) < threshold then 1 else 0) + CountBelow(nc[1..], threshold)
  }

  /** Hit@1 hits are recalls, and the reciprocal-rank sum lies between the two counts. */
  lemma {:induction false} CountsOrdered(tc: seq<EvalResult>)
    ensures CountHit1(tc) <= CountRecalled(tc) <= |tc|
    ensures CountHit1(tc) as real <= SumReciprocal(tc) <= CountRecalled(tc) as real
  {
    if tc != [] {
      CountsOrdered(tc[1..]);
    }
  }

  lemma {:induction false} CountBelowBound(nc: seq<EvalResult>, threshold: real)
    ensures CountBelow(nc, threshold) <= |nc|
  {
    if nc != [] {
      CountBelowBound(nc[1..], threshold);
    }
  }

  /** a/b, or 0 when b is 0. */
  function Ratio(a: real, b: nat): real {
    if b == 0 then 0.0 else a / (b as real)
  }

  lemma RatioMono(a: real, c: real, b: nat)
    requires a <= c
    ensures Ratio(a, b) <= Ratio(c, b)
  {
    if b != 0 {
      var d := b as real;
      assert c / d - a / d == (c - a) / d;
    }
  }

  lemma RatioUnit(a: real, b: nat)
    requires 0.0 <= a <= b as real
    ensures 0.0 <= Ratio(a, b) <= 1.0
  {
    if b != 0 {
      var d := b as real;
      assert a / d <= d / d by { RatioMono(a, d, b); }
    }
  }

  datatype Metrics = Metrics(
    k: nat,
    tcTotal: nat, ncTotal: nat, total: nat,
    hit1: nat, recall: nat, ncCorrect: nat,
    toolAcc: real, recallAtK: real, mrr: real, noCallAcc: real, overallAcc: real)

  /**
   * What the report's numbers promise of each other: hits at rank 1 are
   * recalls, the totals add up, every guarded ratio is 0 without a
   * denominator, and accuracy at rank 1 <= MRR <= recall@k, all in [0, 1].
   */
  predicate Consistent(m: Metrics) {
    && m.hit1 <= m.recall <= m.tcTotal
    && m.ncCorrect <= m.ncTotal
    && (m.tcTotal == 0 ==> m.toolAcc == 0.0 && m.recallAtK == 0.0 && m.mrr == 0.0)
    && (m.ncTotal == 0 ==> m.noCallAcc == 0.0)
    && (m.total == 0 ==> m.overallAcc == 0.0)
    && (m.total != 0 ==> m.overallAcc == (m.hit1 + m.ncCorrect) as real / (m.total as real))
    && 0.0 <= m.toolAcc <= m.mrr <= m.recallAtK <= 1.0
    && 0.0 <= m.noCallAcc <= 1.0 && 0.0 <= m.overallAcc <= 1.0
  }

  /** The metrics of one evaluation run: counts over the tool-call and no-call results and their guarded ratios. */
  function ComputeMetrics(rs: seq<EvalResult>, k: nat, threshold: real): (m: Metrics)
    ensures m.k == k
    ensures m.tcTotal == |ToolCalls(rs)| && m.ncTotal == |NoCalls(rs)|
    ensures m.tcTotal + m.ncTotal == m.total == |rs|
    ensures m.hit1 == CountHit1(ToolCalls(rs)) && m.recall == CountRecalled(ToolCalls(rs))
    ensures m.ncCorrect == CountBelow(NoCalls(rs), threshold)
    ensures m.toolAcc == Ratio(m.hit1 as real, m.tcTotal) && m.recallAtK == Ratio(m.recall as real, m.tcTotal)
    ensures m.mrr == Ratio(SumReciprocal(ToolCalls(rs)), m.tcTotal) && m.noCallAcc == Ratio(m.ncCorrect as real, m.ncTotal)
    ensures m.overallAcc == Ratio((m.hit1 + m.ncCorrect) as real, m.total)
    ensures Consistent(m)
  {
    PartitionSizes(rs);
    MetricsOf(k, ToolCalls(rs), NoCalls(rs), threshold)
  }

  /** The metrics of the split results. */
  function MetricsOf(k: nat, tc: seq<EvalResult>, nc: seq<EvalResult>, threshold: real): (m: Metrics)
    ensures m.k == k && m.tcTotal == |tc| && m.ncTotal == |nc| && m.total == |tc| + |nc|
    ensures m.hit1 == CountHit1(tc) && m.recall == CountRecalled(tc)
    ensures m.ncCorrect == CountBelow(nc, threshold)
    ensures m.toolAcc == Ratio(m.hit1 as real, m.tcTotal) && m.recallAtK == Ratio(m.recall as real, m.tcTotal)
    ensures m.mrr == Ratio(SumReciprocal(tc), m.tcTotal) && m.noCallAcc == Ratio(m.ncCorrect as real, m.ncTotal)
    ensures m.overallAcc == Ratio((m.hit1 + m.ncCorrect) as real, m.total)
    ensures Consistent(m)
  {
    ToolCallRatios(tc);
    CountBelowBound(nc, threshold);
    var hit1 := CountHit1(tc);
    var ncCorrect := CountBelow(nc, threshold);
    RatioUnit(ncCorrect as real, |nc|);
    RatioUnit((hit1 + ncCorrect) as real, |tc| + |nc|);
    Metrics(k, |tc|, |nc|, |tc| + |nc|, hit1, CountRecalled(tc), ncCorrect,
      Ratio(hit1 as real, |tc|), Ratio(CountRecalled(tc) as real, |tc|), Ratio(SumReciprocal(tc), |tc|),
      Ratio(ncCorrect as real, |nc|), Ratio((hit1 + ncCorrect) as real, |tc| + |nc|))
  }

  /** Accuracy at rank 1, mean reciprocal rank and recall are ordered ratios in [0, 1]. */
  lemma ToolCallRatios(tc: seq<EvalResult>)
    ensures CountHit1(tc) <= CountRecalled(tc) <= |tc|
    ensures 0.0 <= Ratio(CountHit1(tc) as real, |tc|) <= Ratio(SumReciprocal(tc), |tc|)
                <= Ratio(CountRecalled(tc) as real, |tc|) <= 1.0
  {
    CountsOrdered(tc);
    var hit1, sumRR, recall := CountHit1(tc) as real, SumReciprocal(tc), CountRecalled(tc) as real;
    RatioMono(hit1, sumRR, |tc|);
    RatioMono(sumRR, recall, |tc|);
    RatioUnit(hit1, |tc|);
    RatioUnit(recall, |tc|);
  }
}
