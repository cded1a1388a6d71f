// Coverage, benefit and event tools: section matching over a product's
// coverage table, benefit amounts and limits, event eligibility, the
// diagnosis and ICD lookups and the rider bundle recommendation.  The
// coverage, limit, definition, ICD, rider and waiting-period tables are
// parameters.

module Coverage {
  import opened Util
  import opened Tables

  /** A product's coverage: section name to a nested dict or a text. */
  type Sections = Dict<Value>

  function NoCoverageMessage(code: string): string {
    "상품 '" + code + "'의 보장 정보 없음"
  }

  datatype Summary = Summary(code: string, name: string, coverage: Sections)

  /** The whole coverage; the product name is "" when the product is not listed. */
  function CoverageSummary(products: Products, coverages: Dict<Sections>, code: string): (r: Result<Summary>)
    ensures r.Err? <==> !HasKey(coverages, code) || Get(coverages, code).value == []
    ensures r.Ok? ==> Entry(code, r.value.coverage) in coverages
    ensures r.Ok? ==> r.value.name == (if HasKey(products, code) then Get(products, code).value.name else "")
  {
    match Get(coverages, code)
      case None => Err(NoCoverageMessage(code))
      case Some(cov) =>
        if cov == [] then Err(NoCoverageMessage(code))
        else Ok(Summary(code, match Get(products, code) case Some(p) => p.name case None => "", cov))
  }

  // ---------------------------------------------------------------
  // Matching entries into a result dict
  // ---------------------------------------------------------------

  /** Whether a nested entry is collected: its key contains the needle and, for amounts, its value is text. */
  predicate Keep(e: Entry<Value>, needle: string, textOnly: bool) {
    Contains(Lower(e.key), needle) && (!textOnly || e.value.VStr?)
  }

  /** `for k, v in es: if keep: d[k] = v`. */
  function PutMatching(d: Dict<Value>, es: seq<Entry<Value>>, needle: string, textOnly: bool): (r: Dict<Value>)
    requires UniqueKeys(d)
    ensures UniqueKeys(r)
  {
    if es == [] then d
    else
      var prev := PutMatching(d, es[..|es| - 1], needle, textOnly);
      var e := es[|es| - 1];
      if Keep(e, needle, textOnly) then Put(prev, e.key, e.value) else prev
  }

  /** Some entry of `es` with key `k` is collected. */
  predicate KeptKey(es: seq<Entry<Value>>, k: string, needle: string, textOnly: bool) {
    exists j :: 0 <= j < |es| && es[j].key == k && Keep(es[j], needle, textOnly)
  }

  lemma KeptKeySnoc(es: seq<Entry<Value>>, k: string, needle: string, textOnly: bool)
    requires es != []
    ensures KeptKey(es, k, needle, textOnly) <==>
      KeptKey(es[..|es| - 1], k, needle, textOnly) || (es[|es| - 1].key == k && Keep(es[|es| - 1], needle, textOnly))
  {
    var init := es[..|es| - 1];
    if KeptKey(init, k, needle, textOnly) {
      var j :| 0 <= j < |init| && init[j].key == k && Keep(init[j], needle, textOnly);
      assert es[j] == init[j];
    }
    if KeptKey(es, k, needle, textOnly) {
      var j :| 0 <= j < |es| && es[j].key == k && Keep(es[j], needle, textOnly);
      if j < |init| {
        assert init[j] == es[j];
      }
    }
  }

  lemma {:induction false} PutMatchingKeys(d: Dict<Value>, es: seq<Entry<Value>>, needle: string, textOnly: bool, k: string)
    requires UniqueKeys(d)
    ensures HasKey(PutMatching(d, es, needle, textOnly), k) <==> HasKey(d, k) || KeptKey(es, k, needle, textOnly)
  {
    if es != [] {
      var init := es[..|es| - 1];
      var e := es[|es| - 1];
      PutMatchingKeys(d, init, needle, textOnly, k);
      KeptKeySnoc(es, k, needle, textOnly);
      var prev := PutMatching(d, init, needle, textOnly);
      if Keep(e, needle, textOnly) {
        PutHasKey(prev, e.key, e.value, k);
      }
    }
  }

  /** What one section adds: its matching nested entries, or itself when it is a text whose name matches. */
  function SectionStep(d: Dict<Value>, section: Entry<Value>, needle: string, textOnly: bool, byName: bool): (r: Dict<Value>)
    requires UniqueKeys(d)
    ensures UniqueKeys(r)
  {
    match section.value
      case VDict(es) => PutMatching(d, es, needle, textOnly)
      case VStr(_) =>
        if byName && Contains(Lower(section.key), needle) then Put(d, section.key, section.value) else d
      case _ => d
  }

  /** The result of the section loop over `sections`. */
  function Collect(sections: Sections, needle: string, textOnly: bool, byName: bool): (r: Dict<Value>)
    ensures UniqueKeys(r)
  {
    if sections == [] then []
    else SectionStep(Collect(sections[..|sections| - 1], needle, textOnly, byName), sections[|sections| - 1], needle, textOnly, byName)
  }

  /** A key is collected exactly when a nested entry or a named text section supplies it. */
  predicate Supplies(section: Entry<Value>, k: string, needle: string, textOnly: bool, byName: bool) {
    match section.value
      case VDict(es) => KeptKey(es, k, needle, textOnly)
      case VStr(_) => byName && section.key == k && Contains(Lower(k), needle)
      case _ => false
  }

  lemma {:induction false} CollectKeys(sections: Sections, needle: string, textOnly: bool, byName: bool, k: string)
    ensures HasKey(Collect(sections, needle, textOnly, byName), k) <==>
      exists i :: 0 <= i < |sections| && Supplies(sections[i], k, needle, textOnly, byName)
  {
    if sections != [] {
      var init := sections[..|sections| - 1];
      var s := sections[|sections| - 1];
      var prev := Collect(init, needle, textOnly, byName);
      CollectKeys(init, needle, textOnly, byName, k);
      match s.value {
        case VDict(es) => PutMatchingKeys(prev, es, needle, textOnly, k);
        case VStr(_) =>
          if byName && Contains(Lower(s.key), needle) {
            PutHasKey(prev, s.key, s.value, k);
          }
        case _ =>
      }
      SuppliesSnoc(sections, init, k, needle, textOnly, byName);
    }
  }

  lemma SuppliesSnoc(sections: Sections, init: Sections, k: string, needle: string, textOnly: bool, byName: bool)
    requires sections != [] && init == sections[..|sections| - 1]
    ensures (exists i :: 0 <= i < |sections| && Supplies(sections[i], k, needle, textOnly, byName)) <==>
      (exists i :: 0 <= i < |init| && Supplies(init[i], k, needle, textOnly, byName))
      || Supplies(sections[|sections| - 1], k, needle, textOnly, byName)
  {
    if exists i :: 0 <= i < |init| && Supplies(init[i], k, needle, textOnly, byName) {
      var i :| 0 <= i < |init| && Supplies(init[i], k, needle, textOnly, byName);
      assert sections[i] == init[i];
    }
    if exists i :: 0 <= i < |sections| && Supplies(sections[i], k, needle, textOnly, byName) {
      var i :| 0 <= i < |sections| && Supplies(sections[i], k, needle, textOnly, byName);
      if i < |init| {
        assert init[i] == sections[i];
      }
    }
  }

  /** Every collected key contains the needle (lower-cased). */
  lemma CollectedKeysMatch(sections: Sections, needle: string, textOnly: bool, byName: bool, k: string)
    requires HasKey(Collect(sections, needle, textOnly, byName), k)
    ensures Contains(Lower(k), needle)
  {
    CollectKeys(sections, needle, textOnly, byName, k);
    var i :| 0 <= i < |sections| && Supplies(sections[i], k, needle, textOnly, byName);
  }

  /** The nested loop shared by `coverage_detail` and `benefit_amount_lookup`. */
  method CollectLoop(sections: Sections, needle: string, textOnly: bool, byName: bool) returns (matched: Dict<Value>)
    ensures matched == Collect(sections, needle, textOnly, byName)
  {
    matched := [];
    for i := 0 to |sections|
      invariant matched == Collect(sections[..i], needle, textOnly, byName)
    {
      CollectStep(sections, i, needle, textOnly, byName);
      var section := sections[i];
      match section.value {
        case VDict(es) =>
          ghost var start := matched;
          for j := 0 to |es|
            invariant UniqueKeys(start)
            invariant matched == PutMatching(start, es[..j], needle, textOnly)
          {
            PutMatchingStep(start, es, j, needle, textOnly);
            var e := es[j];
            if Contains(Lower(e.key), needle) && (!textOnly || e.value.VStr?) {
              matched := Put(matched, e.key, e.value);
            }
          }
          assert es[..|es|] == es;
        case VStr(_) =>
          if byName && Contains(Lower(section.key), needle) {
            matched := Put(matched, section.key, section.value);
          }
        case _ =>
      }
    }
    assert sections[..|sections|] == sections;
  }

  lemma CollectStep(sections: Sections, i: nat, needle: string, textOnly: bool, byName: bool)
    requires i < |sections|
    ensures Collect(sections[..i + 1], needle, textOnly, byName)
      == SectionStep(Collect(sections[..i], needle, textOnly, byName), sections[i], needle, textOnly, byName)
  {
    assert sections[..i + 1][..i] == sections[..i];
  }

  lemma PutMatchingStep(d: Dict<Value>, es: seq<Entry<Value>>, j: nat, needle: string, textOnly: bool)
    requires UniqueKeys(d) && j < |es|
    ensures var prev := PutMatching(d, es[..j], needle, textOnly);
      PutMatching(d, es[..j + 1], needle, textOnly)
      == if Keep(es[j], needle, textOnly) then Put(prev, es[j].key, es[j].value) else prev
  {
    assert es[..j + 1][..j] == es[..j];
  }

  // ---------------------------------------------------------------
  // Detail and amounts
  // ---------------------------------------------------------------

  datatype Detail = Detail(details: Sections, waitingPeriods: Dict<string>)

  /** `coverage_detail`: the matching entries, or the whole coverage when nothing matches. */
  method CoverageDetail(coverages: Dict<Sections>, periods: Dict<Dict<string>>, code: string, coverageType: string)
    returns (r: Result<Detail>)
    ensures r.Err? <==> !HasKey(coverages, code) || Get(coverages, code).value == []
    ensures r.Ok? ==> var cov := Get(coverages, code).value;
      var m := Collect(cov, Lower(coverageType), false, true);
      r.value == Detail(if m != [] then m else cov, GetOr(periods, code, []))
  {
    var cov := Get(coverages, code);
    if cov.None? || cov.value == [] {
      return Err(NoCoverageMessage(code));
    }
    var matched := CollectLoop(cov.value, Lower(coverageType), false, true);
    r := Ok(Detail(if matched != [] then matched else cov.value, GetOr(periods, code, [])));
  }

  datatype Amounts = Amounts(found: Dict<Value>) | AmountNotFound(message: string)

  /** `benefit_amount_lookup`: text values of nested keys that contain the benefit name. */
  method BenefitAmountLookup(coverages: Dict<Sections>, code: string, benefitName: string) returns (r: Result<Amounts>)
    ensures r.Err? <==> !HasKey(coverages, code) || Get(coverages, code).value == []
    ensures r.Ok? ==> var m := Collect(Get(coverages, code).value, Lower(benefitName), true, false);
      if m == [] then r.value.AmountNotFound? else r.value == Amounts(m)
  {
    var cov := Get(coverages, code);
    if cov.None? || cov.value == [] {
      return Err(NoCoverageMessage(code));
    }
    var found := CollectLoop(cov.value, Lower(benefitName), true, false);
    if found == [] {
      return Ok(AmountNotFound("해당 급부를 찾을 수 없습니다. 약관을 확인해 주세요."));
    }
    r := Ok(Amounts(found));
  }

  /** Amounts are always text and come from a nested entry whose key contains the name. */
  lemma AmountsAreText(sections: Sections, needle: string, k: string)
    requires HasKey(Collect(sections, needle, true, false), k)
    ensures Contains(Lower(k), needle)
    ensures exists i, j :: (0 <= i < |sections| && sections[i].value.VDict? && 0 <= j < |sections[i].value.entries|
                            && sections[i].value.entries[j].key == k && sections[i].value.entries[j].value.VStr?)
  {
    CollectKeys(sections, needle, true, false, k);
    var i :| 0 <= i < |sections| && Supplies(sections[i], k, needle, true, false);
    var es := sections[i].value.entries;
    var j :| 0 <= j < |es| && es[j].key == k && Keep(es[j], needle, true);
  }

  // ---------------------------------------------------------------
  // Limits, events, definitions, ICD codes
  // ---------------------------------------------------------------

  /** The limits whose key contains the name; all of them for an empty name or no match. */
  function BenefitLimitRules(limits: Dict<Dict<Value>>, code: string, benefitName: string): (r: Dict<Value>)
    ensures var all := GetOr(limits, code, []);
      && (benefitName == [] || KeysContaining(all, Lower(benefitName)) == [] ==> r == all)
      && (benefitName != [] && KeysContaining(all, Lower(benefitName)) != [] ==> r == KeysContaining(all, Lower(benefitName)))
      && (forall e :: e in r ==> e in all)
      && (r != all ==> forall e :: e in r <==> e in all && Contains(Lower(e.key), Lower(benefitName)))
  {
    var all := GetOr(limits, code, []);
    var bn := Lower(benefitName);
    var matched := if bn != [] then KeysContaining(all, bn) else all;
    if matched != [] then matched else all
  }

  datatype Assessment = Assessment(likelyCovered: bool, conditions: seq<string>, caveats: seq<string>)

  const ExcludedActs: seq<string> := ["자해", "고의", "음주운전", "범죄"]

  /** `any(term in ef for term in [...])`. */
  predicate MentionsAny(ef: string, terms: seq<string>) {
    exists i :: 0 <= i < |terms| && Contains(ef, terms[i])
  }

  /** Event eligibility: intentional acts are excluded; the waiting-period texts may add caveats. */
  function EventEligibility(products: Products, periods: Dict<Dict<string>>, code: string, facts: string): (r: Result<Assessment>)
    ensures r.Err? <==> !HasKey(products, code)
    ensures r.Ok? ==> (r.value.likelyCovered <==> !MentionsAny(Lower(facts), ExcludedActs))
    ensures r.Ok? ==> (r.value.conditions == [] <==> r.value.likelyCovered)
    ensures r.Ok? ==> var pp := GetOr(periods, code, []);
      && |r.value.caveats| == (if Contains(GetOr(pp, "면책기간", ""), "면책") then 1 else 0)
                              + (if Contains(GetOr(pp, "감액기간", ""), "감액") then 1 else 0)
  {
    if !HasKey(products, code) then Err("상품 '" + code + "' 없음")
    else
      var pp := GetOr(periods, code, []);
      var caveats :=
        (if Contains(GetOr(pp, "면책기간", ""), "면책") then ["면책기간 해당 여부를 확인해야 합니다."] else [])
        + (if Contains(GetOr(pp, "감액기간", ""), "감액") then ["감액기간 해당 여부를 확인해야 합니다."] else []);
      if MentionsAny(Lower(facts), ExcludedActs) then
        Ok(Assessment(false, ["고의/자해/범죄행위는 면책사유에 해당합니다."], caveats))
      else Ok(Assessment(true, [], caveats))
  }

  /** The caveats depend on the product's periods only, never on the facts. */
  lemma EventCaveatsIgnoreFacts(products: Products, periods: Dict<Dict<string>>, code: string, f1: string, f2: string)
    requires HasKey(products, code)
    ensures EventEligibility(products, periods, code, f1).value.caveats == EventEligibility(products, periods, code, f2).value.caveats
  {
  }

  datatype Lookup = Definitions(matched: Dict<string>) | NotFound(message: string)

  /** Definitions whose term contains the query (case-insensitive). */
  function DiagnosisDefinition(definitions: Dict<string>, term: string): (r: Lookup)
    ensures r.NotFound? <==> KeysContaining(definitions, Lower(term)) == []
    ensures r.Definitions? ==> forall e :: e in r.matched <==> e in definitions && Contains(Lower(e.key), Lower(term))
  {
    var m := KeysContaining(definitions, Lower(term));
    if m == [] then NotFound("해당 용어의 정의를 찾을 수 없습니다. 약관을 참조해 주세요.") else Definitions(m)
  }

  /** `ic in k.upper() or k.upper() in ic`. */
  predicate IcdMatch(ic: string, k: string) {
    Contains(Upper(k), ic) || Contains(ic, Upper(k))
  }

  function IcdMatches(mappings: Dict<string>, ic: string): (r: Dict<string>)
    ensures |r| <= |mappings|
    ensures forall e :: e in r <==> e in mappings && IcdMatch(ic, e.key)
    ensures r == Filter(mappings, (e: Entry<string>) => IcdMatch(ic, e.key))
  {
    if mappings == [] then []
    else (if IcdMatch(ic, mappings[0].key) then [mappings[0]] else []) + IcdMatches(mappings[1..], ic)
  }

  /** Codes related either way to the upper-cased query. */
  function IcdMappingLookup(mappings: Dict<string>, icdCode: string): (r: Lookup)
    ensures r.NotFound? <==> IcdMatches(mappings, Upper(icdCode)) == []
    ensures r.Definitions? ==> forall e :: e in r.matched <==> e in mappings && IcdMatch(Upper(icdCode), e.key)
  {
    var m := IcdMatches(mappings, Upper(icdCode));
    if m == [] then NotFound("해당 ICD 코드를 찾을 수 없습니다.") else Definitions(m)
  }

  /** A query naming a listed code exactly, in any case, finds it. */
  lemma IcdExactFound(mappings: Dict<string>, i: nat, icdCode: string)
    requires i < |mappings|
    requires Upper(icdCode) == Upper(mappings[i].key)
    ensures mappings[i] in IcdMappingLookup(mappings, icdCode).matched
  {
    ContainsSelf(Upper(icdCode));
    assert mappings[i] in mappings;
  }

  datatype ConflictRule = ConflictRule(rule: string, priority: string)

  /** The dental product has its own crown-over-filling rule; every other code gets the general order. */
  function MultiBenefitConflictRule(code: string): (r: ConflictRule)
    ensures StartsWith(r.priority, "크라운") <==> code == "B00197011"
  {
    if code == "B00197011" then
      ConflictRule("동일 치아에 대해 충전치료와 크라운치료가 동시에 발생할 경우, 크라운치료만 인정됩니다.", "크라운 > 충전(동일 치아 기준)")
    else
      var priority := "면책 > 감액 > 한도 > 중복지급불가 순서로 적용";
      assert priority[0] != "크라운"[0];
      ConflictRule("동일 사고에 대한 중복 급부는 약관에서 정한 우선순위에 따릅니다.", priority)
  }

  // ---------------------------------------------------------------
  // Rider bundle
  // ---------------------------------------------------------------

  /** A rider suits the goal when the goal is empty or one of its words occurs in the rider's name and description. */
  predicate Suits(r: Rider, gl: string) {
    gl == [] || exists w :: 0 <= w < |Words(gl)| && Contains(Lower(r.name + r.desc), Words(gl)[w])
  }

  function Suitable(riders: seq<Rider>, gl: string): (r: seq<Rider>)
    ensures |r| <= |riders|
    ensures forall x :: x in r ==> x in riders && Suits(x, gl)
    ensures r == Filter(riders, (x: Rider) => Suits(x, gl))
  {
    if riders == [] then []
    else
      var init, last := riders[..|riders| - 1], riders[|riders| - 1];
      FilterAppend(init, [last], (x: Rider) => Suits(x, gl));
      assert init + [last] == riders;
      Suitable(init, gl) + (if Suits(last, gl) then [last] else [])
  }

  lemma SuitableAll(riders: seq<Rider>)
    ensures Suitable(riders, "") == riders
  {
    FilterAll(riders, (x: Rider) => Suits(x, ""));
  }

  /** The recommendation: suitable riders (the first two when none suits), at most three. */
  function Bundle(riders: seq<Rider>, goal: string): (r: seq<Rider>)
    ensures |r| <= 3
    ensures forall x :: x in r ==> x in riders
    ensures Suitable(riders, Lower(goal)) != [] ==> forall x :: x in r ==> Suits(x, Lower(goal))
    ensures var recs := Suitable(riders, Lower(goal));
      recs != [] ==> |r| == Min(3, |recs|) && r <= recs
    ensures Suitable(riders, Lower(goal)) == [] ==> r == riders[..Min(2, |riders|)]
  {
    var recs := Suitable(riders, Lower(goal));
    var chosen := if recs != [] then recs else riders[..Min(2, |riders|)];
    chosen[..Min(3, |chosen|)]
  }

  lemma SuitableStep(riders: seq<Rider>, i: nat, gl: string)
    requires i < |riders|
    ensures Suitable(riders[..i + 1], gl) == Suitable(riders[..i], gl) + (if Suits(riders[i], gl) then [riders[i]] else [])
  {
    assert riders[..i + 1][..i] == riders[..i];
  }

  /** The matching loop of `rider_bundle_recommend`: the riders whose name or
      description mentions a word of the goal, in order. */
  method MatchRiders(riders: seq<Rider>, gl: string) returns (recs: seq<Rider>)
    ensures recs == Suitable(riders, gl)
  {
    recs := [];
    for i := 0 to |riders|
      invariant recs == Suitable(riders[..i], gl)
    {
      SuitableStep(riders, i, gl);
      if Suits(riders[i], gl) {
        recs := recs + [riders[i]];
      }
    }
    assert riders[..|riders|] == riders;
  }

  /** `rider_bundle_recommend`, with the matching loop. */
  method RiderBundle(riderTable: Dict<seq<Rider>>, code: string, goal: string) returns (r: Result<seq<Rider>>)
    ensures r.Err? <==> GetOr(riderTable, code, []) == []
    ensures r.Ok? ==> r.value == Bundle(GetOr(riderTable, code, []), goal)
  {
    var riders := GetOr(riderTable, code, []);
    if riders == [] {
      return Err("상품 '" + code + "'의 특약 정보 없음");
    }
    var recs := MatchRiders(riders, Lower(goal));
    if recs == [] {
      recs := riders[..Min(2, |riders|)];
    }
    r := Ok(recs[..Min(3, |recs|)]);
  }

  /** With no goal the first three riders are recommended. */
  lemma BundleNoGoal(riders: seq<Rider>)
    ensures Bundle(riders, "") == riders[..Min(3, |riders|)]
  {
    SuitableAll(riders);
    assert Lower("") == "";
  }
}
