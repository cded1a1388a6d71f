// Underwriting rules: the eligibility precheck over age limits and
// history flags, the question set, knockout rules, required documents,
// waiting periods, exclusions, amount limits, renewal rules, the job-risk
// lookup and the disclosure risk score.  The product, flag, rule, period,
// exclusion, limit and job tables are parameters, and so is the result of
// the user-info guard that runs before the precheck.

module Underwriting {
  import opened Util
  import opened Tables

  /** A history flag: keywords that trigger it, whether it is a knockout, and its note. */
  datatype Flag = Flag(keywords: seq<string>, isKnockout: bool, note: string)

  /** `any(kw in hs for kw in keywords)`. */
  predicate Mentions(hs: string, keywords: seq<string>) {
    exists i :: 0 <= i < |keywords| && Contains(hs, keywords[i])
  }

  function NoProductMessage(code: string): string {
    "상품 '" + code + "' 없음"
  }

  // ---------------------------------------------------------------
  // Precheck
  // ---------------------------------------------------------------

  /** The precheck's answer: an unknown product, or the assessment. */
  datatype Verdict =
    | NoProduct(reason: string)
    | Assessed(
        productCode: string, productName: string, age: int, gender: string,
        eligible: bool, knockouts: seq<string>, caveats: seq<string>,
        needsExpertReview: bool, simplified: bool)

  const SimplifiedTriggers: seq<string> := ["암", "cancer", "입원", "수술"]

  /**
   * The age knockouts.  The messages read `p['min_age']` and `p['max_age']`
   * directly, so an age beyond a default limit of a product without that
   * key raises (None here).
   */
  function AgeIssues(p: Product, age: int): (r: Option<seq<string>>)
    ensures r.None? <==> (age < 0 && p.minAge.None?) || (age > 999 && p.maxAge.None?)
    ensures r.Some? ==> (r.value != [] <==> age < MinAgeOf(p) || age > MaxAgeOf(p))
    ensures r.Some? ==> |r.value| <= 2
  {
    if age < MinAgeOf(p) && p.minAge.None? then None
    else if age > MaxAgeOf(p) && p.maxAge.None? then None
    else
      var low := if age < MinAgeOf(p) then ["최소 가입 나이(" + IntToString(p.minAge.value) + "세) 미만"] else [];
      var high := if age > MaxAgeOf(p) then ["최대 가입 나이(" + IntToString(p.maxAge.value) + "세) 초과"] else [];
      Some(low + high)
  }

  /** The common flags followed by the product's own. */
  function FlagGroups(flagTable: Dict<seq<Flag>>, code: string): seq<Flag> {
    GetOr(flagTable, "_common", []) + GetOr(flagTable, code, [])
  }

  /** Notes of the flags that fire on `hs` and are (or are not) knockouts, in flag order. */
  function FlagNotes(fs: seq<Flag>, hs: string, knockout: bool): (r: seq<string>)
    ensures |r| <= |fs|
  {
    if fs == [] then []
    else
      var last := fs[|fs| - 1];
      FlagNotes(fs[..|fs| - 1], hs, knockout)
        + (if Mentions(hs, last.keywords) && last.isKnockout == knockout then [last.note] else [])
  }

  /** Flag `f` fires on `hs`, has the given kind and carries `note`. */
  predicate Gives(f: Flag, hs: string, knockout: bool, note: string) {
    Mentions(hs, f.keywords) && f.isKnockout == knockout && f.note == note
  }

  /** A note is listed exactly when some flag carrying it fires with the right kind. */
  lemma {:induction false} FlagNotesMember(fs: seq<Flag>, hs: string, knockout: bool, note: string)
    ensures note in FlagNotes(fs, hs, knockout) <==> exists i :: 0 <= i < |fs| && Gives(fs[i], hs, knockout, note)
  {
    if fs != [] {
      var init := fs[..|fs| - 1];
      FlagNotesMember(init, hs, knockout, note);
      GivesSnoc(fs, init, hs, knockout, note);
    }
  }

  lemma GivesSnoc(fs: seq<Flag>, init: seq<Flag>, hs: string, knockout: bool, note: string)
    requires fs != [] && init == fs[..|fs| - 1]
    ensures (exists i :: 0 <= i < |fs| && Gives(fs[i], hs, knockout, note)) <==>
      (exists i :: 0 <= i < |init| && Gives(init[i], hs, knockout, note)) || Gives(fs[|fs| - 1], hs, knockout, note)
  {
    if exists i :: 0 <= i < |init| && Gives(init[i], hs, knockout, note) {
      var i :| 0 <= i < |init| && Gives(init[i], hs, knockout, note);
      assert fs[i] == init[i];
    }
    if exists i :: 0 <= i < |fs| && Gives(fs[i], hs, knockout, note) {
      var i :| 0 <= i < |fs| && Gives(fs[i], hs, knockout, note);
      if i < |init| {
        assert init[i] == fs[i];
      }
    }
  }

  /** Every firing flag lands in exactly one of the two lists. */
  lemma {:induction false} FlagNotesSplit(fs: seq<Flag>, hs: string)
    ensures |FlagNotes(fs, hs, true)| + |FlagNotes(fs, hs, false)| == |FiringFlags(fs, hs)|
  {
    if fs != [] {
      FlagNotesSplit(fs[..|fs| - 1], hs);
    }
  }

  function FiringFlags(fs: seq<Flag>, hs: string): (r: seq<Flag>)
    ensures |r| <= |fs|
  {
    if fs == [] then []
    else
      FiringFlags(fs[..|fs| - 1], hs) + (if Mentions(hs, fs[|fs| - 1].keywords) then [fs[|fs| - 1]] else [])
  }

  /** The flag loop: each firing flag's note goes to the knockouts or to the caveats. */
  method ClassifyFlags(fs: seq<Flag>, hs: string) returns (knockouts: seq<string>, caveats: seq<string>)
    ensures knockouts == FlagNotes(fs, hs, true)
    ensures caveats == FlagNotes(fs, hs, false)
  {
    knockouts, caveats := [], [];
    for i := 0 to |fs|
      invariant knockouts == FlagNotes(fs[..i], hs, true)
      invariant caveats == FlagNotes(fs[..i], hs, false)
    {
      assert fs[..i + 1][..i] == fs[..i];
      var flag := fs[i];
      if Mentions(hs, flag.keywords) {
        if flag.isKnockout {
          knockouts := knockouts + [flag.note];
        } else {
          caveats := caveats + [flag.note];
        }
      }
    }
    assert fs[..|fs|] == fs;
  }

  /** At most one simplified-underwriting knockout, naming the first common rule. */
  function SimplifiedIssue(p: Product, rules: seq<string>, hs: string): (r: seq<string>)
    ensures |r| <= 1
    ensures r != [] <==> p.simplified && rules != [] && Mentions(hs, SimplifiedTriggers)
  {
    if p.simplified && rules != [] && Mentions(hs, SimplifiedTriggers) then ["간편심사 고지사항 해당: " + rules[0]] else []
  }

  /** The precheck's outcome for a known product and a known age. */
  function Assess(p: Product, flagTable: Dict<seq<Flag>>, ruleTable: Dict<seq<string>>,
                  code: string, age: int, gender: string, history: string): Outcome<Verdict>
  {
    match AgeIssues(p, age)
      case None => Crashed
      case Some(ageIssues) =>
        var hs := Lower(history);
        var fs := FlagGroups(flagTable, code);
        var knockouts := ageIssues +
          (if history != [] then FlagNotes(fs, hs, true) + SimplifiedIssue(p, GetOr(ruleTable, "_simplified_common", []), hs) else []);
        var caveats := if history != [] then FlagNotes(fs, hs, false) else [];
        Done(Assessed(code, p.name, age, gender, knockouts == [], knockouts, caveats,
          caveats != [] || (history != [] && knockouts == []), p.simplified))
  }

  /** The whole precheck: guard, product lookup, the missing age (a comparison with None raises), then the assessment. */
  function PrecheckSpec(products: Products, flagTable: Dict<seq<Flag>>, ruleTable: Dict<seq<string>>,
                        code: string, age: Option<int>, gender: string, history: string,
                        guard: Option<string>): (r: Outcome<Verdict>)
    ensures guard.Some? ==> r == Blocked(guard.value)
    ensures guard.None? && !HasKey(products, code) ==> r == Done(NoProduct(NoProductMessage(code)))
    ensures guard.None? && HasKey(products, code) && age.None? ==> r == Crashed
    ensures r.Done? && r.value.Assessed? ==> guard.None? && HasKey(products, code) && age.Some?
    ensures r.Done? && r.value.Assessed? ==>
      r.value.productCode == code && r.value.age == age.value && r.value.gender == gender
    ensures r.Done? && r.value.Assessed? ==> (r.value.eligible <==> r.value.knockouts == [])
    ensures r.Done? && r.value.Assessed? ==>
      (r.value.needsExpertReview <==> r.value.caveats != [] || (history != [] && r.value.knockouts == []))
    ensures r.Done? && r.value.Assessed? && history == [] ==> r.value.caveats == [] && !r.value.needsExpertReview
  {
    if guard.Some? then Blocked(guard.value)
    else match Get(products, code)
      case None => Done(NoProduct(NoProductMessage(code)))
      case Some(p) =>
        if age.None? then Crashed
        else Assess(p, flagTable, ruleTable, code, age.value, gender, history)
  }

  /** `underwriting_precheck`, with the flag loop. */
  method Precheck(products: Products, flagTable: Dict<seq<Flag>>, ruleTable: Dict<seq<string>>,
                  code: string, age: Option<int>, gender: string, history: string,
                  guard: Option<string>) returns (r: Outcome<Verdict>)
    ensures r == PrecheckSpec(products, flagTable, ruleTable, code, age, gender, history, guard)
  {
    if guard.Some? {
      return Blocked(guard.value);
    }
    var found := Get(products, code);
    if found.None? {
      return Done(NoProduct(NoProductMessage(code)));
    }
    var p := found.value;
    if age.None? {
      return Crashed;
    }
    var issues := AgeIssues(p, age.value);
    if issues.None? {
      return Crashed;
    }
    var knockouts := issues.value;
    var caveats := [];
    if history != [] {
      var hs := Lower(history);
      var flagKnockouts, flagCaveats := ClassifyFlags(FlagGroups(flagTable, code), hs);
      knockouts := knockouts + flagKnockouts;
      caveats := flagCaveats;
      knockouts := knockouts + SimplifiedIssue(p, GetOr(ruleTable, "_simplified_common", []), hs);
    }
    var eligible := knockouts == [];
    var needsReview := caveats != [] || (history != [] && knockouts == []);
    r := Done(Assessed(code, p.name, age.value, gender, eligible, knockouts, caveats, needsReview, p.simplified));
    assert knockouts == issues.value +
      (if history != [] then FlagNotes(FlagGroups(flagTable, code), Lower(history), true)
        + SimplifiedIssue(p, GetOr(ruleTable, "_simplified_common", []), Lower(history)) else []);
  }

  /** An age outside the product's limits is a knockout. */
  lemma PrecheckAgeOutOfRange(products: Products, flagTable: Dict<seq<Flag>>, ruleTable: Dict<seq<string>>,
                              code: string, p: Product, age: int, gender: string, history: string)
    requires Get(products, code) == Some(p)
    requires p.minAge.Some? && p.maxAge.Some?
    requires age < p.minAge.value || age > p.maxAge.value
    ensures PrecheckSpec(products, flagTable, ruleTable, code, Some(age), gender, history, None).Done?
    ensures PrecheckSpec(products, flagTable, ruleTable, code, Some(age), gender, history, None).value.Assessed?
    ensures !PrecheckSpec(products, flagTable, ruleTable, code, Some(age), gender, history, None).value.eligible
  {
  }

  /** A firing knockout flag makes the applicant ineligible; a firing caveat flag asks for expert review. */
  lemma PrecheckFlagFires(products: Products, flagTable: Dict<seq<Flag>>, ruleTable: Dict<seq<string>>,
                          code: string, p: Product, age: int, gender: string, history: string, i: nat)
    requires Get(products, code) == Some(p)
    requires AgeIssues(p, age).Some?
    requires history != []
    requires i < |FlagGroups(flagTable, code)|
    requires Mentions(Lower(history), FlagGroups(flagTable, code)[i].keywords)
    ensures var r := PrecheckSpec(products, flagTable, ruleTable, code, Some(age), gender, history, None);
      && r.Done? && r.value.Assessed?
      && (FlagGroups(flagTable, code)[i].isKnockout ==>
            !r.value.eligible && FlagGroups(flagTable, code)[i].note in r.value.knockouts)
      && (!FlagGroups(flagTable, code)[i].isKnockout ==>
            r.value.needsExpertReview && FlagGroups(flagTable, code)[i].note in r.value.caveats)
  {
    var fs := FlagGroups(flagTable, code);
    FlagNotesMember(fs, Lower(history), fs[i].isKnockout, fs[i].note);
  }

  /** With an age in range, no firing flag and no simplified trigger, the applicant is eligible. */
  lemma PrecheckClean(products: Products, flagTable: Dict<seq<Flag>>, ruleTable: Dict<seq<string>>,
                      code: string, p: Product, age: int, gender: string, history: string)
    requires Get(products, code) == Some(p)
    requires MinAgeOf(p) <= age <= MaxAgeOf(p)
    requires forall f :: f in FlagGroups(flagTable, code) ==> !Mentions(Lower(history), f.keywords)
    requires !Mentions(Lower(history), SimplifiedTriggers)
    ensures var r := PrecheckSpec(products, flagTable, ruleTable, code, Some(age), gender, history, None);
      r.Done? && r.value.Assessed? && r.value.eligible && r.value.caveats == []
      && (r.value.needsExpertReview <==> history != [])
  {
    var fs := FlagGroups(flagTable, code);
    var hs := Lower(history);
    if FlagNotes(fs, hs, true) != [] {
      FlagNotesMember(fs, hs, true, FlagNotes(fs, hs, true)[0]);
      assert false;
    }
    if FlagNotes(fs, hs, false) != [] {
      FlagNotesMember(fs, hs, false, FlagNotes(fs, hs, false)[0]);
      assert false;
    }
  }

  // ---------------------------------------------------------------
  // Question set, knockout rules, documents
  // ---------------------------------------------------------------

  datatype Questions = Questions(mode: string, questions: seq<string>)

  const SimplifiedQuestions: seq<string> := [
    "최근 3개월 이내에 의사로부터 입원·수술·추가검사를 권유받은 사실이 있습니까?",
    "최근 2년 이내에 입원하거나 수술을 받은 사실이 있습니까?",
    "최근 5년 이내에 암으로 진단받거나 치료를 받은 사실이 있습니까?"]

  const StandardQuestions: seq<string> := [
    "최근 3개월 이내에 의사로부터 진찰·검사를 통해 질병 의심 소견을 받은 사실이 있습니까?",
    "최근 1년 이내에 의사의 진찰·검사·치료·투약을 받은 사실이 있습니까?",
    "최근 5년 이내에 입원·수술을 받은 사실이 있습니까?",
    "과거에 암·심장질환·뇌질환·간질환·정신질환으로 진단·치료를 받은 사실이 있습니까?"]

  /** The disclosure questions: three for simplified underwriting, four otherwise. */
  function QuestionsFor(products: Products, code: string): (r: Result<Questions>)
    ensures r.Err? <==> !HasKey(products, code)
    ensures r.Ok? ==> (|r.value.questions| == 3 <==> Get(products, code).value.simplified)
    ensures r.Ok? ==> |r.value.questions| == (if Get(products, code).value.simplified then 3 else 4)
    ensures r.Ok? ==> (r.value.mode == "일반심사" <==> !Get(products, code).value.simplified)
  {
    match Get(products, code)
      case None => Err(NoProductMessage(code))
      case Some(p) =>
        if p.simplified then Ok(Questions("간편심사(3대 고지)", SimplifiedQuestions))
        else Ok(Questions("일반심사", StandardQuestions))
  }

  /** Knockout rules: the product's own, preceded by the common simplified ones for simplified products. */
  function KnockoutRules(products: Products, ruleTable: Dict<seq<string>>, code: string): (r: Result<seq<string>>)
    ensures r.Err? <==> !HasKey(products, code)
    ensures r.Ok? ==> EndsWithSeq(r.value, GetOr(ruleTable, code, []))
    ensures r.Ok? && !Get(products, code).value.simplified ==> r.value == GetOr(ruleTable, code, [])
    ensures r.Ok? && Get(products, code).value.simplified ==>
      |r.value| == |GetOr(ruleTable, "_simplified_common", [])| + |GetOr(ruleTable, code, [])|
    ensures r.Ok? && Get(products, code).value.simplified ==>
      r.value == GetOr(ruleTable, "_simplified_common", []) + GetOr(ruleTable, code, [])
  {
    match Get(products, code)
      case None => Err(NoProductMessage(code))
      case Some(p) =>
        var own := GetOr(ruleTable, code, []);
        var rules := if p.simplified then GetOr(ruleTable, "_simplified_common", []) + own else own;
        assert rules[|rules| - |own|..] == own;
        Ok(rules)
  }

  predicate EndsWithSeq<T(==)>(s: seq<T>, suffix: seq<T>) {
    |suffix| <= |s| && s[|s| - |suffix|..] == suffix
  }

  datatype Docs = Docs(baseDocs: seq<string>, additional: seq<string>)

  const BaseDocs: seq<string> := ["청약서", "신분증 사본"]
  const SimplifiedForm := "간편심사 고지서(3대 고지)"
  const StandardForm := "표준 건강고지서"
  const HealthExam := "건강진단서(회사 지정 병원)"

  /** Required documents: the two base documents, one health form, and an exam for additional review. */
  function DocsRequired(products: Products, code: string, caseType: string): (r: Result<Docs>)
    ensures r.Err? <==> !HasKey(products, code)
    ensures r.Ok? ==> r.value.baseDocs == BaseDocs
    ensures r.Ok? ==> (SimplifiedForm in r.value.additional <==> Get(products, code).value.simplified)
    ensures r.Ok? ==> (StandardForm in r.value.additional <==> !Get(products, code).value.simplified)
    ensures r.Ok? ==> (HealthExam in r.value.additional <==> Contains(caseType, "추가"))
    ensures r.Ok? ==> 1 <= |r.value.additional| <= 2
  {
    match Get(products, code)
      case None => Err(NoProductMessage(code))
      case Some(p) =>
        var form := if p.simplified then SimplifiedForm else StandardForm;
        var exam := if caseType != [] && Contains(caseType, "추가") then [HealthExam] else [];
        Ok(Docs(BaseDocs, [form] + exam))
  }

  // ---------------------------------------------------------------
  // Waiting periods, exclusions, limits, reinstatement
  // ---------------------------------------------------------------

  /** The product's waiting periods; missing or empty periods are an error. */
  function WaitingPeriods(periods: Dict<Dict<string>>, code: string): (r: Result<Dict<string>>)
    ensures r.Ok? <==> HasKey(periods, code) && Get(periods, code).value != []
    ensures r.Ok? ==> Entry(code, r.value) in periods
  {
    match Get(periods, code)
      case Some(v) => if v != [] then Ok(v) else Err("상품 '" + code + "'의 기간 정보 없음")
      case None => Err("상품 '" + code + "'의 기간 정보 없음")
  }

  datatype ExclusionList = ExclusionList(common: seq<string>, specific: seq<string>)

  /** The common exclusions and the product's own; an unknown code has none of its own. */
  function Exclusions(table: Dict<seq<string>>, code: string): (r: ExclusionList)
    ensures !HasKey(table, code) ==> r.specific == []
    ensures HasKey(table, code) ==> Entry(code, r.specific) in table
    ensures HasKey(table, "_common") ==> Entry("_common", r.common) in table
  {
    ExclusionList(GetOr(table, "_common", []), GetOr(table, code, []))
  }

  /** An amount limit; `max` is None when unknown. */
  datatype Limit = Limit(min: Option<int>, max: Option<int>, unit: string)

  /** The limit reported, and whether the over-60 reduction note was added. */
  datatype LimitReport = LimitReport(limit: Limit, reduced: bool)

  const UnknownLimit := Limit(None, None, "정보 없음")

  /** `int(x * 0.7)`: 70 percent truncated toward zero. */
  function Seventy(x: int): (r: int)
    ensures x >= 0 ==> 0 <= r <= x && 10 * r <= 7 * x < 10 * r + 10
    ensures x < 0 ==> x <= r <= 0
  {
    if x >= 0 then x * 7 / 10 else -((-x) * 7 / 10)
  }

  /** Amount limits; above age 60 a truthy maximum is cut to 70 percent. */
  function Limitations(products: Products, limits: Dict<Limit>, code: string, age: int): (r: Result<LimitReport>)
    ensures r.Err? <==> !HasKey(products, code)
    ensures r.Ok? && !HasKey(limits, code) ==> r.value.limit == UnknownLimit
    ensures r.Ok? ==> (r.value.reduced <==>
      (age > 60 && GetOr(limits, code, UnknownLimit).max.Some? && GetOr(limits, code, UnknownLimit).max.value != 0))
    ensures r.Ok? && !r.value.reduced ==> r.value.limit == GetOr(limits, code, UnknownLimit)
    ensures r.Ok? && r.value.reduced ==>
      && r.value.limit == GetOr(limits, code, UnknownLimit).(max := r.value.limit.max)
      && r.value.limit.max == Some(Seventy(GetOr(limits, code, UnknownLimit).max.value))
  {
    if !HasKey(products, code) then Err(NoProductMessage(code))
    else
      var l := GetOr(limits, code, UnknownLimit);
      if age > 60 && l.max.Some? && l.max.value != 0 then Ok(LimitReport(l.(max := Some(Seventy(l.max.value))), true))
      else Ok(LimitReport(l, false))
  }

  /** The reduced maximum never exceeds the original, and keeps its sign. */
  lemma LimitationsShrink(products: Products, limits: Dict<Limit>, code: string, age: int)
    requires Limitations(products, limits, code, age).Ok?
    requires GetOr(limits, code, UnknownLimit).max.Some?
    ensures var m := GetOr(limits, code, UnknownLimit).max.value;
      var m2 := Limitations(products, limits, code, age).value.limit.max.value;
      (m >= 0 ==> 0 <= m2 <= m) && (m < 0 ==> m <= m2 <= 0)
  {
  }

  /** The reinstatement rule is fixed text; only the product lookup can fail. */
  function ReinstatementRule(products: Products, code: string): (r: Result<Dict<string>>)
    ensures r.Ok? <==> HasKey(products, code)
    ensures r.Ok? ==> |r.value| == 4 && UniqueKeys(r.value)
  {
    if !HasKey(products, code) then Err(NoProductMessage(code))
    else Ok([
      Entry("부활가능기간", "실효일로부터 3년 이내"),
      Entry("필요사항", "연체보험료 + 이자 납입, 건강고지서 재작성"),
      Entry("면책재적용", "부활일부터 면책기간 재적용(암 90일 등)"),
      Entry("감액재적용", "부활일부터 감액기간 재적용")])
  }

  // ---------------------------------------------------------------
  // Renewal
  // ---------------------------------------------------------------

  datatype Renewal =
    | NotRenewable
    | RenewalCheck(maxRenewalAge: int, eligible: bool)

  /** A missing or zero maximum renewal age means the product does not renew. */
  function RenewalEligibility(products: Products, code: string, currentAge: int): (r: Result<Renewal>)
    ensures r.Err? <==> !HasKey(products, code)
    ensures r.Ok? ==> (r.value.NotRenewable? <==>
      Get(products, code).value.maxRenewalAge.None? || Get(products, code).value.maxRenewalAge.value == 0)
    ensures r.Ok? && r.value.RenewalCheck? ==>
      r.value.maxRenewalAge == Get(products, code).value.maxRenewalAge.value
      && (r.value.eligible <==> currentAge < r.value.maxRenewalAge)
  {
    match Get(products, code)
      case None => Err(NoProductMessage(code))
      case Some(p) =>
        if p.maxRenewalAge.None? || p.maxRenewalAge.value == 0 then Ok(NotRenewable)
        else Ok(RenewalCheck(p.maxRenewalAge.value, currentAge < p.maxRenewalAge.value))
  }

  /** Renewal eligibility is lost exactly once the age reaches the limit, and never regained. */
  lemma RenewalMonotone(products: Products, code: string, a: int, b: int)
    requires a <= b
    requires RenewalEligibility(products, code, b).Ok?
    requires RenewalEligibility(products, code, b).value.RenewalCheck?
    requires RenewalEligibility(products, code, b).value.eligible
    ensures RenewalEligibility(products, code, a).value.eligible
  {
  }

  /** The expected increase in tenths of a percent: 3.0 below 30, then 0.5 more per year. */
  function IncreaseTenths(age: int): (t: int)
    ensures age < 30 ==> t == 30
    ensures age >= 30 ==> t == 30 + 5 * (age - 30)
  {
    if age >= 30 then 30 + (age - 30) * 5 else 30
  }

  /** The increase percentage rendered as Python prints a float with one decimal. */
  function TenthsToString(t: nat): string {
    NatToString(t / 10) + "." + [DigitChar(t % 10)]
  }

  datatype RenewalNotice =
    | NoChange(message: string)
    | IncreaseRange(age: int, low: nat, high: nat, text: string)

  /** The notice for renewable products: a range from the increase to five points above it. */
  function RenewalPremiumNotice(products: Products, code: string, age: nat): (r: Result<RenewalNotice>)
    ensures r.Err? <==> !HasKey(products, code)
    ensures r.Ok? ==> (r.value.IncreaseRange? <==> Get(products, code).value.renewalType == Some("갱신형"))
    ensures r.Ok? && r.value.IncreaseRange? ==>
      && r.value.low == IncreaseTenths(age) >= 30
      && r.value.high == r.value.low + 50
      && r.value.text == TenthsToString(r.value.low) + "% ~ " + TenthsToString(r.value.high) + "%"
  {
    match Get(products, code)
      case None => Err(NoProductMessage(code))
      case Some(p) =>
        if p.renewalType != Some("갱신형") then Ok(NoChange("비갱신형 상품으로 갱신 보험료 변동이 없습니다."))
        else
          var t := IncreaseTenths(age);
          Ok(IncreaseRange(age, t, t + 50, TenthsToString(t) + "% ~ " + TenthsToString(t + 50) + "%"))
  }

  /** Older applicants never get a lower estimate. */
  lemma IncreaseMonotone(a: int, b: int)
    requires a <= b
    ensures IncreaseTenths(a) <= IncreaseTenths(b)
  {
  }

  lemma RenewalNoticeExample()
    ensures TenthsToString(IncreaseTenths(41)) == "8.5"
  {
    assert IncreaseTenths(41) == 85;
    assert NatToString(8) == "8";
  }

  // ---------------------------------------------------------------
  // Job risk and disclosure risk
  // ---------------------------------------------------------------

  datatype JobRisk = JobRisk(category: string, restriction: string)

  /** `jn in j.lower() or j.lower() in jn`. */
  predicate JobMatches(jn: string, job: string) {
    Contains(Lower(job), jn) || Contains(jn, Lower(job))
  }

  predicate CategoryMatches(jn: string, jobs: seq<string>) {
    exists j :: 0 <= j < |jobs| && JobMatches(jn, jobs[j])
  }

  /** The first category, in table order, that lists a matching job. */
  function FirstCategory(table: Dict<seq<string>>, jn: string): (r: Option<nat>)
    ensures r.None? <==> forall i :: 0 <= i < |table| ==> !CategoryMatches(jn, table[i].value)
    ensures r.Some? ==> r.value < |table| && CategoryMatches(jn, table[r.value].value)
    ensures r.Some? ==> forall i :: 0 <= i < r.value ==> !CategoryMatches(jn, table[i].value)
  {
    if table == [] then None
    else if CategoryMatches(jn, table[0].value) then Some(0)
    else match FirstCategory(table[1..], jn)
      case None => None
      case Some(i) => Some(i + 1)
  }

  /** The job's risk category, or 일반 with no restriction. */
  function HighRiskJobCheck(table: Dict<seq<string>>, jobName: string): (r: JobRisk)
    ensures (forall i :: 0 <= i < |table| ==> !CategoryMatches(Lower(jobName), table[i].value))
      ==> r == JobRisk("일반", "없음")
    ensures (exists i :: 0 <= i < |table| && CategoryMatches(Lower(jobName), table[i].value))
      ==> exists i :: 0 <= i < |table| && CategoryMatches(Lower(jobName), table[i].value)
           && r == JobRisk(table[i].key, table[i].key)
           && (forall j :: 0 <= j < i ==> !CategoryMatches(Lower(jobName), table[j].value))
  {
    match FirstCategory(table, Lower(jobName))
      case None => JobRisk("일반", "없음")
      case Some(i) => JobRisk(table[i].key, table[i].key)
  }

  /** The weighted disclosure terms, in the order they are checked. */
  const RiskTerms: seq<(string, nat)> := [
    ("암", 5), ("cancer", 5), ("뇌졸중", 4), ("심근경색", 4),
    ("당뇨", 3), ("고혈압", 2), ("수술", 3), ("입원", 2)]

  function RiskWarning(term: string): string {
    "'" + term + "' 관련 이력 → 반드시 고지 필요"
  }

  /** The sum of the weights of the terms present in `hs`. */
  function RiskScore(terms: seq<(string, nat)>, hs: string): nat {
    if terms == [] then 0
    else RiskScore(terms[..|terms| - 1], hs) + (if Contains(hs, terms[|terms| - 1].0) then terms[|terms| - 1].1 else 0)
  }

  /** One warning per present term, in term order. */
  function RiskWarnings(terms: seq<(string, nat)>, hs: string): (r: seq<string>)
    ensures |r| <= |terms|
  {
    if terms == [] then []
    else RiskWarnings(terms[..|terms| - 1], hs) + (if Contains(hs, terms[|terms| - 1].0) then [RiskWarning(terms[|terms| - 1].0)] else [])
  }

  function RiskLevel(score: int): (level: string)
    ensures level == "낮음" <==> score < 3
    ensures level == "중간" <==> 3 <= score < 6
    ensures level == "높음" <==> score >= 6
  {
    if score < 3 then "낮음" else if score < 6 then "중간" else "높음"
  }

  datatype RiskAssessment = RiskAssessment(score: nat, level: string, warnings: seq<string>)

  /** `underwriting_disclosure_risk_score`: one pass over the terms accumulating score and warnings. */
  method DisclosureRiskScore(history: string) returns (r: RiskAssessment)
    ensures r.score == RiskScore(RiskTerms, Lower(history))
    ensures r.warnings == RiskWarnings(RiskTerms, Lower(history))
    ensures r.level == RiskLevel(r.score)
  {
    var hs := Lower(history);
    var score: nat := 0;
    var warnings: seq<string> := [];
    for i := 0 to |RiskTerms|
      invariant score == RiskScore(RiskTerms[..i], hs)
      invariant warnings == RiskWarnings(RiskTerms[..i], hs)
    {
      assert RiskTerms[..i + 1][..i] == RiskTerms[..i];
      var (term, weight) := RiskTerms[i];
      if Contains(hs, term) {
        score := score + weight;
        warnings := warnings + [RiskWarning(term)];
      }
    }
    assert RiskTerms[..|RiskTerms|] == RiskTerms;
    r := RiskAssessment(score, RiskLevel(score), warnings);
  }

  /** A history that mentions every term the other mentions scores at least as high. */
  lemma {:induction false} RiskScoreMono(terms: seq<(string, nat)>, hs: string, hs2: string)
    requires forall i :: 0 <= i < |terms| && Contains(hs, terms[i].0) ==> Contains(hs2, terms[i].0)
    ensures RiskScore(terms, hs) <= RiskScore(terms, hs2)
    ensures |RiskWarnings(terms, hs)| <= |RiskWarnings(terms, hs2)|
  {
    if terms != [] {
      var init := terms[..|terms| - 1];
      assert forall i :: 0 <= i < |init| ==> init[i] == terms[i];
      RiskScoreMono(init, hs, hs2);
    }
  }

  /** The score is zero exactly when no warning is issued, and at most five per warning. */
  lemma {:induction false} RiskScoreWarnings(terms: seq<(string, nat)>, hs: string)
    requires forall i :: 0 <= i < |terms| ==> 1 <= terms[i].1 <= 5
    ensures RiskScore(terms, hs) == 0 <==> RiskWarnings(terms, hs) == []
    ensures |RiskWarnings(terms, hs)| <= RiskScore(terms, hs) <= 5 * |RiskWarnings(terms, hs)|
  {
    if terms != [] {
      var init := terms[..|terms| - 1];
      assert forall i :: 0 <= i < |init| ==> init[i] == terms[i];
      RiskScoreWarnings(init, hs);
    }
  }

  /** A history that mentions cancer is at least of medium risk. */
  lemma CancerIsMedium(history: string)
    requires Contains(Lower(history), "암")
    ensures RiskScore(RiskTerms, Lower(history)) >= 5
  {
    var hs := Lower(history);
    var first := RiskTerms[..1];
    assert first == [("암", 5)] && first[..0] == [];
    assert RiskScore(first, hs) == 5;
    ScoreAtLeastPrefix(RiskTerms, hs, 1);
  }

  /** Dropping terms from the end never raises the score. */
  lemma {:induction false} ScoreAtLeastPrefix(terms: seq<(string, nat)>, hs: string, n: nat)
    requires n <= |terms|
    ensures RiskScore(terms[..n], hs) <= RiskScore(terms, hs)
    decreases |terms|
  {
    if n < |terms| {
      var init := terms[..|terms| - 1];
      assert init[..n] == terms[..n];
      ScoreAtLeastPrefix(init, hs, n);
    } else {
      assert terms[..n] == terms;
    }
  }
}
