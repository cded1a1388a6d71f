// Policyholder and contract lookups over the customer database.  The three
// tables (customers, contracts, enrollment rules) are sequences of rows;
// each SQL query becomes the filter it expresses.

module CustomerDb {
  import opened Util
  import opened Tables

  /** A `customers` row. */
  datatype Customer = Customer(id: string, name: string, age: int, gender: string, phone: string)

  /** A `contracts` row; a NULL or absent text column is "". */
  datatype Contract = Contract(
    contractId: string, customerId: string, productCode: string, productName: string,
    status: string, startDate: string, endDate: string, channel: string,
    insuredName: string, terminatedDate: string, renewalDate: string)

  /** An `enrollment_rules` row; `value` is None for NULL. */
  datatype Rule = Rule(productCode: string, ruleType: string, description: string, value: Option<string>)

  // ---------------------------------------------------------------
  // Views without personal data
  // ---------------------------------------------------------------

  datatype CustomerView = CustomerView(id: string, name: string, age: int, gender: string)

  /** M and F become their labels; any other code is shown as is. */
  function GenderLabel(g: string): string {
    if g == "M" then "남성" else if g == "F" then "여성" else g
  }

  /** `_safe_customer`: id, name, age and gender label only. */
  function SafeCustomer(c: Customer): (r: CustomerView)
    ensures r.id == c.id && r.name == c.name && r.age == c.age
    ensures c.gender == "M" ==> r.gender == "남성"
    ensures c.gender == "F" ==> r.gender == "여성"
  {
    CustomerView(c.id, c.name, c.age, GenderLabel(c.gender))
  }

  /** The phone number never reaches the view. */
  lemma SafeCustomerHidesPhone(c: Customer, phone: string)
    ensures SafeCustomer(c.(phone := phone)) == SafeCustomer(c)
  {
  }

  function StatusLabel(status: string): string {
    match status
      case "active" => "유지"
      case "terminated" => "해지"
      case "lapsed" => "실효"
      case "expired" => "만기"
      case _ => status
  }

  datatype ContractView = ContractView(
    productName: string, insured: string, status: string, startDate: string, channel: string, dates: Dict<string>)

  /** `_safe_contract`: fixed fields, plus each of the three dates only when it is set. */
  function SafeContract(c: Contract): (r: ContractView)
    ensures r.status == StatusLabel(c.status)
    ensures |r.dates| <= 3
    ensures HasKey(r.dates, "만료일") <==> c.endDate != []
    ensures HasKey(r.dates, "해지일") <==> c.terminatedDate != []
    ensures HasKey(r.dates, "갱신일") <==> c.renewalDate != []
    ensures forall e :: e in r.dates ==>
      (e.value != [] && e in [Entry("만료일", c.endDate), Entry("해지일", c.terminatedDate), Entry("갱신일", c.renewalDate)])
  {
    var dates := (if c.endDate != [] then [Entry("만료일", c.endDate)] else [])
                 + (if c.terminatedDate != [] then [Entry("해지일", c.terminatedDate)] else [])
                 + (if c.renewalDate != [] then [Entry("갱신일", c.renewalDate)] else []);
    ghost var keys := ["만료일", "해지일", "갱신일"];
    assert keys[0] != keys[1] && keys[0] != keys[2] && keys[1] != keys[2] by {
      assert keys[0][0] != keys[1][0] && keys[0][0] != keys[2][0] && keys[1][0] != keys[2][0];
    }
    assert c.endDate != [] ==> dates[0] == Entry("만료일", c.endDate);
    assert c.terminatedDate != [] ==> dates[if c.endDate != [] then 1 else 0] == Entry("해지일", c.terminatedDate);
    assert c.renewalDate != [] ==> dates[|dates| - 1] == Entry("갱신일", c.renewalDate);
    ContractView(c.productName, c.insuredName, StatusLabel(c.status), c.startDate, c.channel, dates)
  }

  // ---------------------------------------------------------------
  // Contract lookup
  // ---------------------------------------------------------------

  /** SQLite's `s LIKE p` with no ESCAPE clause: `%` matches any run of
      characters, `_` any one character, and letters compare ASCII
      case-insensitively. */
  predicate Like(s: string, p: string)
    decreases |p|, |s|
  {
    if p == [] then s == []
    else if p[0] == '%' then Like(s, p[1..]) || (s != [] && Like(s[1..], p))
    else s != [] && (p[0] == '_' || LowerChar(s[0]) == LowerChar(p[0])) && Like(s[1..], p[1..])
  }

  /** A pattern with neither wildcard. */
  predicate Literal(q: string) {
    forall i :: 0 <= i < |q| ==> q[i] != '%' && q[i] != '_'
  }

  /** A trailing `%` matches whatever is left. */
  lemma {:induction false} LikeRest(s: string)
    ensures Like(s, "%")
  {
    if s != [] {
      LikeRest(s[1..]);
    }
  }

  /** `s LIKE q%` for a literal `q`: `s` starts with `q`, ignoring ASCII case. */
  lemma {:induction false} LikePrefix(s: string, q: string)
    requires Literal(q)
    ensures Like(s, q + "%") <==> |q| <= |s| && Lower(s[..|q|]) == Lower(q)
  {
    if q == [] {
      assert q + "%" == "%";
      LikeRest(s);
      assert Lower(s[..0]) == Lower(q);
    } else {
      var p := q + "%";
      assert p[0] == q[0] && p[1..] == q[1..] + "%";
      LikePrefix(if s == [] then s else s[1..], q[1..]);
      if s != [] && |q| <= |s| {
        var a, b := Lower(s[..|q|]), Lower(q);
        assert s[1..][..|q| - 1] == s[..|q|][1..];
        if a == b {
          assert a[0] == b[0];
          assert a[1..] == Lower(s[1..][..|q| - 1]) && b[1..] == Lower(q[1..]);
        }
        if LowerChar(s[0]) == LowerChar(q[0]) && Lower(s[1..][..|q| - 1]) == Lower(q[1..]) {
          assert forall i :: 1 <= i < |q| ==> a[i] == Lower(s[1..][..|q| - 1])[i - 1] && b[i] == Lower(q[1..])[i - 1];
          assert a == b;
        }
      }
    }
  }

  /** `s LIKE %p` holds exactly when some suffix of `s` matches `p`. */
  lemma {:induction false} LikeSomeSuffix(s: string, p: string)
    ensures Like(s, "%" + p) <==> exists i :: 0 <= i <= |s| && Like(s[i..], p)
  {
    var pp := "%" + p;
    assert pp[0] == '%' && pp[1..] == p;
    if s == [] {
      assert s[0..] == s;
    } else {
      LikeSomeSuffix(s[1..], p);
      assert s[0..] == s;
      assert forall i :: 1 <= i <= |s| ==> s[i..] == s[1..][i - 1..];
      if Like(s[1..], pp) {
        var j :| 0 <= j <= |s[1..]| && Like(s[1..][j..], p);
        assert s[j + 1..] == s[1..][j..];
      }
    }
  }

  /** Lower-casing commutes with taking a slice. */
  lemma LowerSlice(s: string, i: nat, j: nat)
    requires i <= j <= |s|
    ensures Lower(s)[i..j] == Lower(s[i..j])
  {
    assert forall k :: 0 <= k < j - i ==> Lower(s)[i..j][k] == LowerChar(s[i + k]) == Lower(s[i..j])[k];
  }

  /** A literal matched at position `i`, ignoring case, is an occurrence in the lower-cased text. */
  lemma LikeAtMatch(s: string, q: string, i: nat)
    requires Literal(q) && i <= |s|
    ensures Like(s[i..], q + "%") <==> MatchAt(Lower(s), Lower(q), i)
  {
    LikePrefix(s[i..], q);
    if |q| <= |s| - i {
      assert s[i..][..|q|] == s[i..i + |q|];
      LowerSlice(s, i, i + |q|);
    }
  }

  /** For a name with no wildcard, `name LIKE %q%` is a case-insensitive substring test. */
  lemma LikeLiteralInfix(s: string, q: string)
    requires Literal(q)
    ensures Like(s, "%" + q + "%") <==> Contains(Lower(s), Lower(q))
  {
    assert "%" + q + "%" == "%" + (q + "%");
    LikeSomeSuffix(s, q + "%");
    if Like(s, "%" + q + "%") {
      var i :| 0 <= i <= |s| && Like(s[i..], q + "%");
      LikeAtMatch(s, q, i);
      ContainsAt(Lower(s), Lower(q), i);
    }
    if Contains(Lower(s), Lower(q)) {
      var i := Find(Lower(s), Lower(q), 0);
      LikeAtMatch(s, q, i);
    }
  }

  /** `customer_id = ?`, or `name LIKE '%' || name || '%'`. */
  predicate Selects(c: Customer, byId: bool, id: string, name: string) {
    if byId then c.id == id else Like(c.name, "%" + name + "%")
  }

  /** `fetchone()`: the first selected customer. */
  function FirstSelected(customers: seq<Customer>, byId: bool, id: string, name: string): (r: Option<Customer>)
    ensures r.None? <==> forall i :: 0 <= i < |customers| ==> !Selects(customers[i], byId, id, name)
    ensures r.Some? ==> exists i :: (0 <= i < |customers| && customers[i] == r.value
                                    && Selects(r.value, byId, id, name)
                                    && forall j :: 0 <= j < i ==> !Selects(customers[j], byId, id, name))
  {
    if customers == [] then None
    else if Selects(customers[0], byId, id, name) then Some(customers[0])
    else
      var r := FirstSelected(customers[1..], byId, id, name);
      FirstSelectedSkips(customers, byId, id, name, r);
      r
  }

  /** `r` is the first selected customer, or None when none is selected. */
  predicate IsFirstSelected(customers: seq<Customer>, byId: bool, id: string, name: string, r: Option<Customer>) {
    && (r.None? <==> forall i :: 0 <= i < |customers| ==> !Selects(customers[i], byId, id, name))
    && (r.Some? ==> exists i :: (0 <= i < |customers| && customers[i] == r.value
                                && Selects(r.value, byId, id, name)
                                && forall j :: 0 <= j < i ==> !Selects(customers[j], byId, id, name)))
  }

  /** When the head is not selected, the first selected customer of the tail is that of the whole list. */
  lemma FirstSelectedSkips(customers: seq<Customer>, byId: bool, id: string, name: string, r: Option<Customer>)
    requires customers != [] && !Selects(customers[0], byId, id, name)
    requires IsFirstSelected(customers[1..], byId, id, name, r)
    ensures IsFirstSelected(customers, byId, id, name, r)
  {
    var tail := customers[1..];
    assert forall i :: 1 <= i < |customers| ==> customers[i] == tail[i - 1];
    if r.Some? {
      var i :| 0 <= i < |tail| && tail[i] == r.value && Selects(r.value, byId, id, name)
               && forall j :: 0 <= j < i ==> !Selects(tail[j], byId, id, name);
      assert customers[i + 1] == r.value;
      forall j | 0 <= j < i + 1 ensures !Selects(customers[j], byId, id, name) {
        if j > 0 {
          assert customers[j] == tail[j - 1];
        }
      }
    }
  }

  function ContractsOf(contracts: seq<Contract>, customerId: string): (r: seq<Contract>)
    ensures |r| <= |contracts|
    ensures forall c :: c in r <==> c in contracts && c.customerId == customerId
    ensures r == Filter(contracts, (c: Contract) => c.customerId == customerId)
  {
    if contracts == [] then []
    else (if contracts[0].customerId == customerId then [contracts[0]] else []) + ContractsOf(contracts[1..], customerId)
  }

  function Active(contracts: seq<Contract>): (r: seq<Contract>)
    ensures |r| <= |contracts|
    ensures forall c :: c in r <==> c in contracts && c.status == "active"
    ensures r == Filter(contracts, (c: Contract) => c.status == "active")
  {
    if contracts == [] then []
    else (if contracts[0].status == "active" then [contracts[0]] else []) + Active(contracts[1..])
  }

  function SafeContracts(contracts: seq<Contract>): (r: seq<ContractView>)
    ensures |r| == |contracts| && forall i :: 0 <= i < |contracts| ==> r[i] == SafeContract(contracts[i])
  {
    if contracts == [] then [] else [SafeContract(contracts[0])] + SafeContracts(contracts[1..])
  }

  // ---- `ORDER BY start_date DESC` ----

  /** `a.start_date >= b.start_date`, comparing the text as SQLite does. */
  predicate StartsNoEarlier(a: Contract, b: Contract) {
    !LexLess(a.startDate, b.startDate)
  }

  predicate NewestFirst(s: seq<Contract>) {
    forall i, j :: 0 <= i < j < |s| ==> StartsNoEarlier(s[i], s[j])
  }

  lemma NoEarlierTransitive(a: Contract, b: Contract, c: Contract)
    requires StartsNoEarlier(a, b) && StartsNoEarlier(b, c)
    ensures StartsNoEarlier(a, c)
  {
    if LexLess(a.startDate, c.startDate) && a.startDate != b.startDate {
      LexTotal(a.startDate, b.startDate);
      LexTransitive(b.startDate, a.startDate, c.startDate);
    }
  }

  /** Insert before the first contract that does not start later, so equal dates keep their order. */
  function InsertByStart(c: Contract, s: seq<Contract>): (r: seq<Contract>)
    ensures multiset(r) == multiset(s) + multiset{c}
  {
    if s == [] || StartsNoEarlier(c, s[0]) then [c] + s
    else
      assert s == [s[0]] + s[1..];
      [s[0]] + InsertByStart(c, s[1..])
  }

  lemma {:induction false} InsertByStartSorted(c: Contract, s: seq<Contract>)
    requires NewestFirst(s)
    ensures NewestFirst(InsertByStart(c, s))
  {
    var r := InsertByStart(c, s);
    if s == [] {
    } else if StartsNoEarlier(c, s[0]) {
      forall k | 0 <= k < |s| ensures StartsNoEarlier(c, s[k]) {
        if k > 0 {
          NoEarlierTransitive(c, s[0], s[k]);
        }
      }
      assert r == [c] + s;
    } else {
      var t := s[1..];
      InsertByStartSorted(c, t);
      var rt := InsertByStart(c, t);
      assert r == [s[0]] + rt;
      LexAsymmetric(c.startDate, s[0].startDate);
      forall k | 0 <= k < |rt| ensures StartsNoEarlier(s[0], rt[k]) {
        assert rt[k] in multiset(rt);
        if rt[k] != c {
          assert rt[k] in multiset(t);
          var m :| 0 <= m < |t| && t[m] == rt[k];
          assert s[m + 1] == t[m];
        }
      }
    }
  }

  /** The contracts, newest start date first; equal dates keep their stored order. */
  function ByStartDesc(cs: seq<Contract>): (r: seq<Contract>)
    ensures NewestFirst(r)
    ensures multiset(r) == multiset(cs)
  {
    if cs == [] then []
    else
      var rest := ByStartDesc(cs[1..]);
      InsertByStartSorted(cs[0], rest);
      assert cs == [cs[0]] + cs[1..];
      InsertByStart(cs[0], rest)
  }

  lemma {:induction false} ActiveInsert(c: Contract, s: seq<Contract>)
    ensures |Active(InsertByStart(c, s))| == |Active(s)| + (if c.status == "active" then 1 else 0)
  {
    if s != [] && !StartsNoEarlier(c, s[0]) {
      ActiveInsert(c, s[1..]);
      assert InsertByStart(c, s)[1..] == InsertByStart(c, s[1..]);
    }
  }

  /** Sorting does not change how many contracts are in force. */
  lemma {:induction false} ActiveByStart(cs: seq<Contract>)
    ensures |Active(ByStartDesc(cs))| == |Active(cs)|
  {
    if cs != [] {
      ActiveByStart(cs[1..]);
      ActiveInsert(cs[0], ByStartDesc(cs[1..]));
    }
  }

  datatype Holdings = Holdings(customer: CustomerView, contracts: seq<ContractView>, total: nat, active: nat)

  /** `customer_contract_lookup`: the customer's contracts, newest first, with the number in force. */
  function ContractLookup(customers: seq<Customer>, contracts: seq<Contract>, id: string, name: string): (r: Result<Holdings>)
    ensures r.Err? <==> (id == [] && name == []) || FirstSelected(customers, id != [], id, name).None?
    ensures r.Ok? ==> var c := FirstSelected(customers, id != [], id, name).value;
      && r.value.customer == SafeCustomer(c)
      && r.value.contracts == SafeContracts(ByStartDesc(ContractsOf(contracts, c.id)))
      && r.value.total == |r.value.contracts| == |ContractsOf(contracts, c.id)|
      && r.value.active == |Active(ContractsOf(contracts, c.id))| <= r.value.total
  {
    if id == [] && name == [] then Err("customer_id 또는 customer_name 중 하나를 입력해 주세요.")
    else match FirstSelected(customers, id != [], id, name)
      case None => Err("계약자를 찾을 수 없습니다. (검색: " + (if id != [] then id else name) + ")")
      case Some(c) =>
        var own := ByStartDesc(ContractsOf(contracts, c.id));
        assert |own| == |multiset(own)| == |ContractsOf(contracts, c.id)|;
        ActiveByStart(ContractsOf(contracts, c.id));
        Ok(Holdings(SafeCustomer(c), SafeContracts(own), |own|, |Active(own)|))
  }

  /** Every contract in force is counted: the count reaches the total exactly when none has lapsed. */
  lemma {:induction false} ActiveAll(contracts: seq<Contract>)
    ensures |Active(contracts)| == |contracts| <==> forall i :: 0 <= i < |contracts| ==> contracts[i].status == "active"
  {
    if contracts != [] {
      ActiveAll(contracts[1..]);
      assert forall i :: 1 <= i < |contracts| ==> contracts[i] == contracts[1..][i - 1];
    }
  }

  // ---------------------------------------------------------------
  // Duplicate enrollment check
  // ---------------------------------------------------------------

  /** `int(rval) if rval else 1`; None where `int` raises. */
  function LimitOf(value: Option<string>): Option<int> {
    match value
      case Some(v) => if v != [] then ParseInt(v) else Some(1)
      case None => Some(1)
  }

  function SameProduct(active: seq<Contract>, code: string): (r: seq<Contract>)
    ensures |r| <= |active|
    ensures forall c :: c in r <==> c in active && c.productCode == code
  {
    if active == [] then []
    else (if active[0].productCode == code then [active[0]] else []) + SameProduct(active[1..], code)
  }

  /** `PRODUCTS.get(code, {}).get("category", "")`. */
  function CategoryOf(products: Products, code: string): string {
    match Get(products, code)
      case Some(p) => p.category
      case None => ""
  }

  function SameCategory(active: seq<Contract>, products: Products, catKey: string): (r: seq<Contract>)
    ensures |r| <= |active|
    ensures forall c :: c in r <==> c in active && Contains(CategoryOf(products, c.productCode), catKey)
  {
    if active == [] then []
    else (if Contains(CategoryOf(products, active[0].productCode), catKey) then [active[0]] else [])
         + SameCategory(active[1..], products, catKey)
  }

  /** `same` keeps the held contracts of the product, in holding order and with repeats. */
  lemma {:induction false} SameProductInOrder(active: seq<Contract>, code: string)
    ensures SameProduct(active, code) == Filter(active, (c: Contract) => c.productCode == code)
  {
    if active != [] {
      SameProductInOrder(active[1..], code);
    }
  }

  /** `same_cat` keeps the held contracts in the category, in holding order and with repeats. */
  lemma {:induction false} SameCategoryInOrder(active: seq<Contract>, products: Products, catKey: string)
    ensures SameCategory(active, products, catKey) ==
      Filter(active, (c: Contract) => Contains(CategoryOf(products, c.productCode), catKey))
  {
    if active != [] {
      SameCategoryInOrder(active[1..], products, catKey);
    }
  }

  const RequiresActive := "requires_active:"

  /** The code after `requires_active:`, `rval.split(":")[1]`. */
  function RequiredCode(v: string): string
    requires StartsWith(v, RequiresActive)
  {
    SplitAtLeastTwo(v, ':', 15);
    Split(v, ':')[1]
  }

  predicate HoldsActive(active: seq<Contract>, code: string) {
    exists i :: 0 <= i < |active| && active[i].productCode == code && active[i].status == "active"
  }

  datatype Notes = Notes(blockers: seq<string>, warnings: seq<string>)

  /** The category key: the product category up to its first `/`. */
  function CategoryKey(p: Product): string {
    Split(p.category, '/')[0]
  }

  /** What one rule adds; None when its limit is not a number. */
  function RuleNotes(rule: Rule, p: Product, code: string, active: seq<Contract>, products: Products): (r: Option<Notes>)
    ensures r.None? <==> (rule.ruleType == "max_concurrent" || rule.ruleType == "same_category_limit") && LimitOf(rule.value).None?
    ensures r.Some? ==> |r.value.blockers| <= 1 && |r.value.warnings| <= 1
    ensures r.Some? && r.value.warnings != [] ==> rule.ruleType == "same_category_limit" && r.value.blockers == []
  {
    if rule.ruleType == "max_concurrent" then
      match LimitOf(rule.value)
        case None => None
        case Some(limit) =>
          var same := |SameProduct(active, code)|;
          if same >= limit then
            Some(Notes(["동일 상품 중복 가입 불가: 현재 " + IntToString(same) + "건 (최대 " + IntToString(limit) + "건)"], []))
          else Some(Notes([], []))
    else if rule.ruleType == "same_category_limit" then
      match LimitOf(rule.value)
        case None => None
        case Some(limit) =>
          var key := CategoryKey(p);
          var same := |SameCategory(active, products, key)|;
          if same >= limit then
            Some(Notes(["동일 카테고리(" + key + ") 한도 초과: 현재 " + IntToString(same) + "건 (최대 " + IntToString(limit) + "건)"], []))
          else if same > 0 then
            Some(Notes([], ["동일 카테고리(" + key + ") " + IntToString(same) + "건 유지 중 (한도 " + IntToString(limit) + "건)"]))
          else Some(Notes([], []))
    else if rule.ruleType == "prerequisite" then
      match rule.value
        case Some(v) =>
          if v != [] && StartsWith(v, RequiresActive) && !HoldsActive(active, RequiredCode(v)) then
            Some(Notes(["전제조건 미충족: " + rule.description], []))
          else Some(Notes([], []))
        case None => Some(Notes([], []))
    else Some(Notes([], []))
  }

  /** A same-category rule warns exactly when the category already holds some, but fewer than the limit. */
  lemma RuleNotesWarns(rule: Rule, p: Product, code: string, active: seq<Contract>, products: Products)
    requires rule.ruleType == "same_category_limit" && LimitOf(rule.value).Some?
    ensures RuleNotes(rule, p, code, active, products).value.warnings != [] <==>
      0 < |SameCategory(active, products, CategoryKey(p))| < LimitOf(rule.value).value
  {
  }

  /** A rule blocks, stated on its own: a limit reached, or a required contract not held. */
  predicate Blocks(rule: Rule, p: Product, code: string, active: seq<Contract>, products: Products) {
    match rule.ruleType
      case "max_concurrent" =>
        LimitOf(rule.value).Some? && |SameProduct(active, code)| >= LimitOf(rule.value).value
      case "same_category_limit" =>
        LimitOf(rule.value).Some? && |SameCategory(active, products, CategoryKey(p))| >= LimitOf(rule.value).value
      case "prerequisite" =>
        rule.value.Some? && StartsWith(rule.value.value, RequiresActive)
        && !HoldsActive(active, RequiredCode(rule.value.value))
      case _ => false
  }

  /** Some rule of `rules` blocks. */
  predicate AnyBlocks(rules: seq<Rule>, p: Product, code: string, active: seq<Contract>, products: Products) {
    exists i :: 0 <= i < |rules| && Blocks(rules[i], p, code, active, products)
  }

  lemma RuleNotesBlocks(rule: Rule, p: Product, code: string, active: seq<Contract>, products: Products)
    requires RuleNotes(rule, p, code, active, products).Some?
    ensures RuleNotes(rule, p, code, active, products).value.blockers != [] <==> Blocks(rule, p, code, active, products)
  {
  }

  /** The notes of `rules`, in order; None once a limit fails to parse. */
  function AllNotes(rules: seq<Rule>, p: Product, code: string, active: seq<Contract>, products: Products): Option<Notes> {
    if rules == [] then Some(Notes([], []))
    else
      match AllNotes(rules[..|rules| - 1], p, code, active, products)
        case None => None
        case Some(acc) =>
          match RuleNotes(rules[|rules| - 1], p, code, active, products)
            case None => None
            case Some(n) => Some(Notes(acc.blockers + n.blockers, acc.warnings + n.warnings))
  }

  /** Blockers appear exactly when some rule blocks; None exactly when some rule's limit is malformed. */
  lemma AllNotesSpec(rules: seq<Rule>, p: Product, code: string, active: seq<Contract>, products: Products)
    ensures AllNotes(rules, p, code, active, products).None? <==>
      exists i :: 0 <= i < |rules| && RuleNotes(rules[i], p, code, active, products).None?
    ensures AllNotes(rules, p, code, active, products).Some? ==>
      (AllNotes(rules, p, code, active, products).value.blockers != [] <==> AnyBlocks(rules, p, code, active, products))
  {
    AllNotesNone(rules, p, code, active, products);
    forall i | 0 <= i < |rules|
      ensures RuleNotes(rules[i], p, code, active, products).None? <==> Malformed(rules[i])
    {
    }
    AllNotesBlockers(rules, p, code, active, products);
  }

  lemma {:induction false} AllNotesNone(rules: seq<Rule>, p: Product, code: string, active: seq<Contract>, products: Products)
    ensures AllNotes(rules, p, code, active, products).None? <==> SomeMalformed(rules)
  {
    if rules != [] {
      var init := rules[..|rules| - 1];
      AllNotesNone(init, p, code, active, products);
      SomeMalformedSnoc(rules);
    }
  }

  /** A count rule whose limit does not parse. */
  predicate Malformed(rule: Rule) {
    (rule.ruleType == "max_concurrent" || rule.ruleType == "same_category_limit") && LimitOf(rule.value).None?
  }

  predicate SomeMalformed(rules: seq<Rule>) {
    exists i :: 0 <= i < |rules| && Malformed(rules[i])
  }

  lemma SomeMalformedSnoc(rules: seq<Rule>)
    requires rules != []
    ensures SomeMalformed(rules) <==> SomeMalformed(rules[..|rules| - 1]) || Malformed(rules[|rules| - 1])
  {
    var init := rules[..|rules| - 1];
    if SomeMalformed(rules) {
      var i :| 0 <= i < |rules| && Malformed(rules[i]);
      if i < |init| {
        assert init[i] == rules[i];
      }
    }
    if SomeMalformed(init) {
      var i :| 0 <= i < |init| && Malformed(init[i]);
      assert rules[i] == init[i];
    }
  }

  lemma {:induction false} AllNotesBlockers(rules: seq<Rule>, p: Product, code: string, active: seq<Contract>, products: Products)
    ensures AllNotes(rules, p, code, active, products).Some? ==>
      (AllNotes(rules, p, code, active, products).value.blockers != [] <==> AnyBlocks(rules, p, code, active, products))
  {
    if rules != [] && AllNotes(rules, p, code, active, products).Some? {
      var init := rules[..|rules| - 1];
      var last := rules[|rules| - 1];
      AllNotesBlockers(init, p, code, active, products);
      var a := AllNotes(init, p, code, active, products);
      var n := RuleNotes(last, p, code, active, products);
      assert a.Some? && n.Some?;
      RuleNotesBlocks(last, p, code, active, products);
      AnyBlocksSnoc(rules, p, code, active, products);
      var b := AllNotes(rules, p, code, active, products).value.blockers;
      assert b == a.value.blockers + n.value.blockers;
    }
  }

  lemma AnyBlocksSnoc(rules: seq<Rule>, p: Product, code: string, active: seq<Contract>, products: Products)
    requires rules != []
    ensures AnyBlocks(rules, p, code, active, products) <==>
      AnyBlocks(rules[..|rules| - 1], p, code, active, products) || Blocks(rules[|rules| - 1], p, code, active, products)
  {
    var init := rules[..|rules| - 1];
    if AnyBlocks(rules, p, code, active, products) {
      var i :| 0 <= i < |rules| && Blocks(rules[i], p, code, active, products);
      if i < |init| {
        assert init[i] == rules[i];
      }
    }
    if AnyBlocks(init, p, code, active, products) {
      var i :| 0 <= i < |init| && Blocks(init[i], p, code, active, products);
      assert rules[i] == init[i];
    }
  }

  function RulesFor(rules: seq<Rule>, code: string): (r: seq<Rule>)
    ensures |r| <= |rules|
    ensures forall x :: x in r <==> x in rules && x.productCode == code
    ensures r == Filter(rules, (x: Rule) => x.productCode == code)
  {
    if rules == [] then []
    else (if rules[0].productCode == code then [rules[0]] else []) + RulesFor(rules[1..], code)
  }

  function ActiveOf(contracts: seq<Contract>, customerId: string): seq<Contract> {
    Active(ContractsOf(contracts, customerId))
  }

  function CustomerById(customers: seq<Customer>, id: string): Option<Customer> {
    FirstSelected(customers, true, id, "")
  }

  function AgeMessage(p: Product, age: int): string {
    "나이 제한: " + IntToString(MinAgeOf(p)) + "~" + IntToString(MaxAgeOf(p)) + "세 가입 가능, 계약자 나이 " + IntToString(age) + "세"
  }

  datatype Decision = Decision(customer: CustomerView, productName: string, eligible: bool,
                               blockers: seq<string>, warnings: seq<string>)

  /** The whole check as one value: the age blocker first, then the notes of every rule of the product. */
  function DuplicateCheckSpec(customers: seq<Customer>, contracts: seq<Contract>, rules: seq<Rule>,
                              products: Products, customerId: string, code: string): (r: Outcome<Decision>)
    ensures !r.Blocked?
    ensures r.Failed? <==> CustomerById(customers, customerId).None? || !HasKey(products, code)
    ensures r.Done? ==> (r.value.eligible <==> r.value.blockers == [])
  {
    match CustomerById(customers, customerId)
      case None => Failed("계약자 '" + customerId + "'을(를) 찾을 수 없습니다.")
      case Some(cust) =>
        match Get(products, code)
          case None => Failed("상품 '" + code + "'을(를) 찾을 수 없습니다.")
          case Some(p) =>
            var ageBlock := if MinAgeOf(p) <= cust.age <= MaxAgeOf(p) then [] else [AgeMessage(p, cust.age)];
            match AllNotes(RulesFor(rules, code), p, code, ActiveOf(contracts, customerId), products)
              case None => Crashed
              case Some(n) =>
                Done(Decision(SafeCustomer(cust), p.name, ageBlock + n.blockers == [], ageBlock + n.blockers, n.warnings))
  }

  /** `duplicate_enrollment_check`, with its loop over the product's rules. */
  method DuplicateEnrollmentCheck(customers: seq<Customer>, contracts: seq<Contract>, rules: seq<Rule>,
                                  products: Products, customerId: string, code: string) returns (r: Outcome<Decision>)
    ensures r == DuplicateCheckSpec(customers, contracts, rules, products, customerId, code)
  {
    var cust := CustomerById(customers, customerId);
    if cust.None? {
      return Failed("계약자 '" + customerId + "'을(를) 찾을 수 없습니다.");
    }
    var product := Get(products, code);
    if product.None? {
      return Failed("상품 '" + code + "'을(를) 찾을 수 없습니다.");
    }
    var p := product.value;
    var age := cust.value.age;
    var ageBlock: seq<string> := [];
    if !(MinAgeOf(p) <= age <= MaxAgeOf(p)) {
      ageBlock := [AgeMessage(p, age)];
    }
    var notes := EvaluateRules(RulesFor(rules, code), p, code, ActiveOf(contracts, customerId), products);
    if notes.None? {
      return Crashed;
    }
    var blockers := ageBlock + notes.value.blockers;
    r := Done(Decision(SafeCustomer(cust.value), p.name, blockers == [], blockers, notes.value.warnings));
  }

  /** The loop over the rules, accumulating blockers and warnings. */
  method EvaluateRules(own: seq<Rule>, p: Product, code: string, active: seq<Contract>, products: Products)
    returns (r: Option<Notes>)
    ensures r == AllNotes(own, p, code, active, products)
  {
    var blockers: seq<string> := [];
    var warnings: seq<string> := [];
    assert own[..0] == [];
    for i := 0 to |own|
      invariant AllNotes(own[..i], p, code, active, products) == Some(Notes(blockers, warnings))
    {
      assert own[..i + 1][..i] == own[..i];
      var step := RuleNotes(own[i], p, code, active, products);
      if step.None? {
        AllNotesNoneStays(own, i + 1, p, code, active, products);
        return None;
      }
      blockers := blockers + step.value.blockers;
      warnings := warnings + step.value.warnings;
    }
    assert own[..|own|] == own;
    r := Some(Notes(blockers, warnings));
  }

  lemma {:induction false} AllNotesNoneStays(rules: seq<Rule>, k: nat, p: Product, code: string, active: seq<Contract>, products: Products)
    requires k <= |rules|
    requires AllNotes(rules[..k], p, code, active, products).None?
    ensures AllNotes(rules, p, code, active, products).None?
    decreases |rules| - k
  {
    if k < |rules| {
      assert rules[..k + 1][..k] == rules[..k];
      AllNotesNoneStays(rules, k + 1, p, code, active, products);
    } else {
      assert rules[..k] == rules;
    }
  }

  /** An age outside the product's range always blocks enrolment. */
  lemma AgeOutOfRangeBlocks(customers: seq<Customer>, contracts: seq<Contract>, rules: seq<Rule>,
                            products: Products, customerId: string, code: string)
    requires CustomerById(customers, customerId).Some? && HasKey(products, code)
    requires var age := CustomerById(customers, customerId).value.age;
      var p := Get(products, code).value;
      age < MinAgeOf(p) || age > MaxAgeOf(p)
    ensures var r := DuplicateCheckSpec(customers, contracts, rules, products, customerId, code);
      r.Done? ==> !r.value.eligible
  {
  }

  /** With the age in range, enrolment is refused exactly when one of the product's rules blocks. */
  lemma EligibleIffNoRuleBlocks(customers: seq<Customer>, contracts: seq<Contract>, rules: seq<Rule>,
                                products: Products, customerId: string, code: string)
    requires CustomerById(customers, customerId).Some? && HasKey(products, code)
    requires var age := CustomerById(customers, customerId).value.age;
      var p := Get(products, code).value;
      MinAgeOf(p) <= age <= MaxAgeOf(p)
    ensures var r := DuplicateCheckSpec(customers, contracts, rules, products, customerId, code);
      var own := RulesFor(rules, code);
      var p := Get(products, code).value;
      var active := ActiveOf(contracts, customerId);
      r.Done? ==> (r.value.eligible <==> !AnyBlocks(own, p, code, active, products))
  {
    var p := Get(products, code).value;
    var own := RulesFor(rules, code);
    var active := ActiveOf(contracts, customerId);
    AllNotesSpec(own, p, code, active, products);
    var r := DuplicateCheckSpec(customers, contracts, rules, products, customerId, code);
    if r.Done? {
      var n := AllNotes(own, p, code, active, products).value;
      assert r.value.blockers == n.blockers;
    }
  }
}
