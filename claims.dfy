// Claims and after-sales tools: the claim guide and claim forms (dicts
// filled in a loop), the contract-management lookup and the follow-up task
// list.  The guide, form and action tables are parameters.

module Claims {
  import opened Util
  import opened Tables

  /** The entry is taken: its key is not the skipped one and contains the needle (lower-cased). */
  predicate Takes(e: Entry<Value>, needle: string, skip: Option<string>) {
    (skip.None? || e.key != skip.value) && Contains(Lower(e.key), needle)
  }

  /** `for k, v in es: if taken: d[k] = v`. */
  function Fill(d: Dict<Value>, es: seq<Entry<Value>>, needle: string, skip: Option<string>): (r: Dict<Value>)
    requires UniqueKeys(d)
    ensures UniqueKeys(r)
  {
    if es == [] then d
    else
      var prev := Fill(d, es[..|es| - 1], needle, skip);
      var e := es[|es| - 1];
      if Takes(e, needle, skip) then Put(prev, e.key, e.value) else prev
  }

  /** The filled keys are the starting keys plus the keys of the taken entries. */
  lemma {:induction false} FillKeys(d: Dict<Value>, es: seq<Entry<Value>>, needle: string, skip: Option<string>, k: string)
    requires UniqueKeys(d)
    ensures HasKey(Fill(d, es, needle, skip), k) <==>
      HasKey(d, k) || exists j :: 0 <= j < |es| && es[j].key == k && Takes(es[j], needle, skip)
  {
    if es != [] {
      var init := es[..|es| - 1];
      var e := es[|es| - 1];
      FillKeys(d, init, needle, skip, k);
      var prev := Fill(d, init, needle, skip);
      if Takes(e, needle, skip) {
        PutHasKey(prev, e.key, e.value, k);
      }
      TakesSnoc(es, init, needle, skip, k);
    }
  }

  lemma TakesSnoc(es: seq<Entry<Value>>, init: seq<Entry<Value>>, needle: string, skip: Option<string>, k: string)
    requires es != [] && init == es[..|es| - 1]
    ensures (exists j :: 0 <= j < |es| && es[j].key == k && Takes(es[j], needle, skip)) <==>
      (exists j :: 0 <= j < |init| && init[j].key == k && Takes(init[j], needle, skip))
      || (es[|es| - 1].key == k && Takes(es[|es| - 1], needle, skip))
  {
    if exists j :: 0 <= j < |init| && init[j].key == k && Takes(init[j], needle, skip) {
      var j :| 0 <= j < |init| && init[j].key == k && Takes(init[j], needle, skip);
      assert es[j] == init[j];
    }
    if exists j :: 0 <= j < |es| && es[j].key == k && Takes(es[j], needle, skip) {
      var j :| 0 <= j < |es| && es[j].key == k && Takes(es[j], needle, skip);
      if j < |init| {
        assert init[j] == es[j];
      }
    }
  }

  /** The loop shared by `claim_guide` and `claim_required_forms`. */
  method FillLoop(d: Dict<Value>, es: seq<Entry<Value>>, needle: string, skip: Option<string>) returns (r: Dict<Value>)
    requires UniqueKeys(d)
    ensures r == Fill(d, es, needle, skip)
  {
    r := d;
    for i := 0 to |es|
      invariant r == Fill(d, es[..i], needle, skip)
    {
      assert es[..i + 1][..i] == es[..i];
      if (skip.None? || es[i].key != skip.value) && Contains(Lower(es[i].key), needle) {
        r := Put(r, es[i].key, es[i].value);
      }
    }
    assert es[..|es| - 0] == es;
  }

  /** A dict with distinct keys that holds `k` has one entry exactly when `k` is its only key. */
  lemma SingleKey(d: Dict<Value>, k: string)
    requires UniqueKeys(d) && HasKey(d, k)
    ensures |d| == 1 <==> forall k' :: HasKey(d, k') ==> k' == k
  {
    if |d| >= 2 {
      assert d[0].key != d[1].key;
      assert HasKey(d, d[0].key) && HasKey(d, d[1].key);
    }
  }

  const Common := "공통"

  datatype Guide = Guide(guide: Dict<Value>, note: Option<string>)

  /**
   * `claim_guide`: the common guide first, then every other guide whose key
   * contains the claim type; a note when nothing but the common guide
   * applies.  A table without the common guide raises.
   */
  method ClaimGuide(guides: Dict<Value>, claimType: string) returns (r: Option<Guide>)
    ensures r.None? <==> !HasKey(guides, Common)
    ensures r.Some? ==> r.value.guide == Fill([Entry(Common, Get(guides, Common).value)], guides, Lower(claimType), Some(Common))
    ensures r.Some? ==> (r.value.note.Some? <==> |r.value.guide| == 1)
  {
    var common := Get(guides, Common);
    if common.None? {
      return None;
    }
    var result := FillLoop([Entry(Common, common.value)], guides, Lower(claimType), Some(Common));
    var note := if |result| == 1 then Some("'" + claimType + "' 유형에 해당하는 세부 가이드를 찾지 못했습니다. 아래 공통 안내를 참고해 주세요.") else None;
    r := Some(Guide(result, note));
  }

  /** The guide always holds the common entry, and holds another key exactly when that key matches the claim type. */
  lemma GuideKeys(common: Value, guides: Dict<Value>, ct: string, k: string)
    ensures var g := Fill([Entry(Common, common)], guides, ct, Some(Common));
      && HasKey(g, Common)
      && (k != Common ==> (HasKey(g, k) <==> HasKey(guides, k) && Contains(Lower(k), ct)))
  {
    var start := [Entry(Common, common)];
    assert HasKey(start, Common) by { assert start[0].key == Common; }
    FillKeys(start, guides, ct, Some(Common), Common);
    FillKeys(start, guides, ct, Some(Common), k);
    if k != Common && HasKey(guides, k) && Contains(Lower(k), ct) {
      var j :| 0 <= j < |guides| && guides[j].key == k;
    }
  }

  /** The note appears exactly when no guide other than the common one matches. */
  lemma NoteIffNothingElse(common: Value, guides: Dict<Value>, ct: string)
    ensures var g := Fill([Entry(Common, common)], guides, ct, Some(Common));
      |g| == 1 <==> forall k :: k != Common && HasKey(guides, k) ==> !Contains(Lower(k), ct)
  {
    var g := Fill([Entry(Common, common)], guides, ct, Some(Common));
    GuideKeys(common, guides, ct, Common);
    SingleKey(g, Common);
    forall k | k != Common
      ensures HasKey(g, k) <==> HasKey(guides, k) && Contains(Lower(k), ct)
    {
      GuideKeys(common, guides, ct, k);
    }
  }

  /** `claim_required_forms`: the forms whose name contains the claim type, or a single 안내 entry. */
  method ClaimRequiredForms(forms: Dict<Value>, claimType: string) returns (r: Dict<Value>)
    ensures var m := Fill([], forms, Lower(claimType), None);
      r == if m != [] then m else [Entry("안내", VList([VStr("'" + claimType + "' 유형의 양식 정보가 없습니다. 고객센터(1588-0058)에 문의해 주세요.")]))]
    ensures r != []
  {
    r := FillLoop([], forms, Lower(claimType), None);
    if r == [] {
      r := [Entry("안내", VList([VStr("'" + claimType + "' 유형의 양식 정보가 없습니다. 고객센터(1588-0058)에 문의해 주세요.")]))];
    }
  }

  /** Every listed form name is a form of the table that matches the claim type. */
  lemma FormsMatch(forms: Dict<Value>, ct: string, k: string)
    ensures HasKey(Fill([], forms, ct, None), k) <==> HasKey(forms, k) && Contains(Lower(k), ct)
  {
    FillKeys([], forms, ct, None, k);
    if HasKey(forms, k) && Contains(Lower(k), ct) {
      var j :| 0 <= j < |forms| && forms[j].key == k;
    }
  }

  /** `contract_manage`: the actions whose key contains the action asked, or all of them. */
  function ContractManage(actions: Dict<Value>, action: string): (r: Dict<Value>)
    ensures KeysContaining(actions, Lower(action)) == [] ==> r == actions
    ensures KeysContaining(actions, Lower(action)) != [] ==> r == KeysContaining(actions, Lower(action))
    ensures r != actions ==> forall e :: e in r <==> e in actions && Contains(Lower(e.key), Lower(action))
    ensures forall e :: e in r ==> e in actions
  {
    var m := KeysContaining(actions, Lower(action));
    if m != [] then m else actions
  }

  // ---------------------------------------------------------------
  // Follow-up tasks
  // ---------------------------------------------------------------

  datatype Task = Task(task: string, priority: string)

  /** A keyword group and the follow-up tasks it adds. */
  datatype Group = Group(keywords: seq<string>, tasks: seq<Task>)

  /** The five groups, in the order they are tried. */
  const Groups: seq<Group> := [
    Group(["가입", "신규", "청약"],
          [Task("고지사항 정확성 재확인", "높음"), Task("필수 설명사항 안내 완료 확인", "높음"), Task("청약서 서명/접수 처리", "높음")]),
    Group(["청구", "보험금", "사고"],
          [Task("필요 서류 안내 및 접수 확인", "높음"), Task("청구 진행 상태 안내", "중간")]),
    Group(["갱신", "만기"],
          [Task("갱신 보험료 안내", "높음"), Task("갱신/미갱신 의사 확인", "높음")]),
    Group(["해지", "해약"],
          [Task("해약환급금 안내", "높음"), Task("해지 철회 의사 재확인", "중간"), Task("유지 방안(감액완납/납입일시중지 등) 안내", "중간")]),
    Group(["불만", "민원", "컴플레인"],
          [Task("민원 내용 정리 및 상위 보고", "높음"), Task("고객 연락처/선호 연락 시간 확인", "중간"), Task("해결 방안 마련 후 콜백", "높음")])
  ]

  const DefaultTasks: seq<Task> := [Task("상담 내용 CRM 기록", "중간"), Task("추가 확인 필요 사항 정리", "중간")]

  /** `any(kw in cs for kw in keywords)`. */
  predicate Fires(g: Group, cs: string) {
    exists i :: 0 <= i < |g.keywords| && Contains(cs, g.keywords[i])
  }

  /** Follow-up tasks of the firing groups, in group order. */
  function GroupTasks(groups: seq<Group>, cs: string): (r: seq<Task>)
    ensures (forall i :: 0 <= i < |groups| ==> groups[i].tasks != []) ==>
      (r == [] <==> forall i :: 0 <= i < |groups| ==> !Fires(groups[i], cs))
  {
    if groups == [] then []
    else
      var rest := GroupTasks(groups[1..], cs);
      assert forall i :: 1 <= i < |groups| ==> groups[i] == groups[1..][i - 1];
      (if Fires(groups[0], cs) then groups[0].tasks else []) + rest
  }

  /** The count is the sum of the sizes of the firing groups. */
  function FiredCount(groups: seq<Group>, cs: string): nat {
    if groups == [] then 0 else (if Fires(groups[0], cs) then |groups[0].tasks| else 0) + FiredCount(groups[1..], cs)
  }

  lemma {:induction false} GroupTasksCount(groups: seq<Group>, cs: string)
    ensures |GroupTasks(groups, cs)| == FiredCount(groups, cs)
  {
    if groups != [] {
      GroupTasksCount(groups[1..], cs);
    }
  }

  datatype Followup = Followup(tasks: seq<Task>, total: nat)

  /** `customer_followup_tasks`: follow-up tasks of every firing group in order, or the two defaults. */
  function FollowupTasks(caseSummary: string): (r: Followup)
    ensures r.total == |r.tasks| > 0
    ensures (forall i :: 0 <= i < |Groups| ==> !Fires(Groups[i], Lower(caseSummary))) ==> r.tasks == DefaultTasks
    ensures (exists i :: 0 <= i < |Groups| && Fires(Groups[i], Lower(caseSummary))) ==>
      r.tasks == GroupTasks(Groups, Lower(caseSummary))
  {
    var tasks := GroupTasks(Groups, Lower(caseSummary));
    if tasks == [] then Followup(DefaultTasks, 2)
    else Followup(tasks, |tasks|)
  }

  /** A task that no group holds is never listed. */
  lemma {:induction false} TaskNotFromGroups(groups: seq<Group>, cs: string, x: Task)
    requires forall i :: 0 <= i < |groups| ==> x !in groups[i].tasks
    ensures x !in GroupTasks(groups, cs)
  {
    if groups != [] {
      assert forall i :: 0 <= i < |groups[1..]| ==> groups[1..][i] == groups[i + 1];
      TaskNotFromGroups(groups[1..], cs, x);
    }
  }
}
