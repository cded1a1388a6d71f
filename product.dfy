// Product and rider exploration tools: search, lookup by code or name,
// comparison, the rider partition and lookups, the per-product rule sheet,
// the FAQ topic filter and the sales-channel check.  The product, rider and
// waiting-period tables are parameters.

module ProductTools {
  import opened Util
  import opened Tables

  // ---------------------------------------------------------------
  // Search
  // ---------------------------------------------------------------

  /** The lower-cased text a keyword is looked up in: name, category, highlights and insurer. */
  function Searchable(p: Product): string {
    Lower(p.name + p.category + Join(" ", p.highlights) + p.insurer)
  }

  /** A product is a hit on a keyword in its searchable text or on a category substring. */
  predicate Hit(p: Product, kw: string, category: string) {
    (kw != [] && Contains(Searchable(p), kw)) || (category != [] && Contains(p.category, category))
  }

  /** The hits among `ps`, in order. */
  function Hits(ps: seq<Product>, kw: string, category: string): (r: seq<Product>)
    ensures |r| <= |ps|
  {
    if ps == [] then []
    else Hits(ps[..|ps| - 1], kw, category) + (if Hit(ps[|ps| - 1], kw, category) then [ps[|ps| - 1]] else [])
  }

  /** The hits are exactly the matching products, each at most as often as it is listed. */
  lemma {:induction false} HitsSpec(ps: seq<Product>, kw: string, category: string)
    ensures multiset(Hits(ps, kw, category)) <= multiset(ps)
    ensures forall p :: p in Hits(ps, kw, category) <==> p in ps && Hit(p, kw, category)
  {
    if ps != [] {
      var init, last := ps[..|ps| - 1], ps[|ps| - 1];
      HitsSpec(init, kw, category);
      assert ps == init + [last];
      var h := Hits(init, kw, category);
      if Hit(last, kw, category) {
        assert Hits(ps, kw, category) == h + [last];
      } else {
        assert Hits(ps, kw, category) == h;
      }
    }
  }

  /** `product_search`: the hits, or every product when nothing matches. */
  method ProductSearch(products: Products, keyword: string, category: string) returns (results: seq<Product>)
    ensures var hits := Hits(Values(products), Lower(keyword), category);
      results == if hits == [] then Values(products) else hits
  {
    var ps := Values(products);
    var kw := Lower(keyword);
    results := [];
    for i := 0 to |ps|
      invariant results == Hits(ps[..i], kw, category)
    {
      assert ps[..i + 1][..i] == ps[..i];
      var p := ps[i];
      if kw != [] && Contains(Searchable(p), kw) {
        results := results + [p];
      } else if category != [] && Contains(p.category, category) {
        results := results + [p];
      }
    }
    assert ps[..|ps|] == ps;
    if results == [] {
      results := ps;
    }
  }

  /** With neither a keyword nor a category every product is returned. */
  lemma {:induction false} SearchWithoutQuery(ps: seq<Product>)
    ensures Hits(ps, "", "") == []
  {
    if ps != [] {
      SearchWithoutQuery(ps[..|ps| - 1]);
    }
  }

  // ---------------------------------------------------------------
  // Lookup by code or name
  // ---------------------------------------------------------------

  function NotFoundMessage(code: string): string {
    "상품 코드 '" + code + "'를 찾을 수 없습니다."
  }

  /** `product_get`: the exact code, else the first product whose name contains the code (case-insensitively). */
  method ProductGet(products: Products, code: string) returns (r: Result<Product>)
    ensures HasKey(products, code) ==> r == Ok(Get(products, code).value)
    ensures !HasKey(products, code) ==>
      (r.Err? <==> forall i :: 0 <= i < |products| ==> !Contains(Lower(products[i].value.name), Lower(code)))
    ensures !HasKey(products, code) && r.Ok? ==>
      exists i :: 0 <= i < |products| && r.value == products[i].value
        && Contains(Lower(products[i].value.name), Lower(code))
        && forall j :: 0 <= j < i ==> !Contains(Lower(products[j].value.name), Lower(code))
  {
    var exact := Get(products, code);
    if exact.Some? {
      return Ok(exact.value);
    }
    var i := 0;
    while i < |products|
      invariant 0 <= i <= |products|
      invariant forall j :: 0 <= j < i ==> !Contains(Lower(products[j].value.name), Lower(code))
    {
      if Contains(Lower(products[i].value.name), Lower(code)) {
        return Ok(products[i].value);
      }
      i := i + 1;
    }
    r := Err(NotFoundMessage(code));
  }

  // ---------------------------------------------------------------
  // Comparison
  // ---------------------------------------------------------------

  datatype ComparisonRow = ComparisonRow(
    code: string, name: string, category: string,
    renewalType: Option<string>, termYears: Option<int>, ageRange: string, planTypes: seq<string>)

  /** An age bound as text, `?` when absent. */
  function AgeText(bound: Option<int>): string {
    match bound
      case Some(n) => IntToString(n)
      case None => "?"
  }

  function RowOf(p: Product): ComparisonRow {
    ComparisonRow(p.code, p.name, p.category, p.renewalType, p.termYears,
                  AgeText(p.minAge) + "~" + AgeText(p.maxAge) + "세", p.planTypes)
  }

  function RowsOf(products: Products, known: seq<string>): (r: seq<ComparisonRow>)
    requires forall c :: c in known ==> HasKey(products, c)
    ensures |r| == |known|
    ensures forall i :: 0 <= i < |known| ==> r[i] == RowOf(Get(products, known[i]).value)
  {
    if known == [] then [] else [RowOf(Get(products, known[0]).value)] + RowsOf(products, known[1..])
  }

  /** `product_compare`: one row per listed known code (repeats included); fewer than two is an error. */
  function ProductCompare(products: Products, codes: string): (r: Result<seq<ComparisonRow>>)
    ensures r.Err? <==> |KnownCodes(products, CodeList(codes))| < 2
    ensures r.Ok? ==> |r.value| == |KnownCodes(products, CodeList(codes))| >= 2
    ensures r.Ok? ==> forall i :: 0 <= i < |r.value| ==>
      exists c :: c in CodeList(codes) && HasKey(products, c) && r.value[i] == RowOf(Get(products, c).value)
    ensures r.Ok? ==> r.value == RowsOf(products, KnownCodes(products, CodeList(codes)))
  {
    var known := KnownCodes(products, CodeList(codes));
    if |known| < 2 then Err("비교를 위해 2개 이상의 유효한 상품 코드가 필요합니다.")
    else
      var rows := RowsOf(products, known);
      assert forall i :: 0 <= i < |rows| ==> known[i] in known;
      Ok(rows)
  }

  /** `product_latest_version_check`: every listed product reports its summary as the latest. */
  function LatestVersionCheck(products: Products, code: string): (r: Result<bool>)
    ensures r.Err? <==> !HasKey(products, code)
    ensures r.Ok? ==> r.value
  {
    if HasKey(products, code) then Ok(true) else Err("상품 '" + code + "' 없음")
  }

  // ---------------------------------------------------------------
  // Riders
  // ---------------------------------------------------------------

  const Mandatory := "의무부가"
  const Optional := "선택"

  function OfKind(riders: seq<Rider>, kind: string): (r: seq<Rider>)
    ensures |r| <= |riders|
    ensures forall x :: x in r <==> x in riders && x.kind == kind
    ensures r == Filter(riders, (x: Rider) => x.kind == kind)
  {
    if riders == [] then []
    else (if riders[0].kind == kind then [riders[0]] else []) + OfKind(riders[1..], kind)
  }

  datatype RiderList = RiderList(mandatory: seq<Rider>, optional: seq<Rider>, total: nat)

  /** `rider_list`: the riders split by type; `total` counts every rider. */
  function RiderListing(riderTable: Dict<seq<Rider>>, code: string): (r: Result<RiderList>)
    ensures r.Err? <==> GetOr(riderTable, code, []) == []
    ensures r.Ok? ==> var riders := GetOr(riderTable, code, []);
      && r.value.total == |riders|
      && (forall x :: x in r.value.mandatory <==> x in riders && x.kind == Mandatory)
      && (forall x :: x in r.value.optional <==> x in riders && x.kind == Optional)
      && r.value.mandatory == OfKind(riders, Mandatory)
      && r.value.optional == OfKind(riders, Optional)
  {
    var riders := GetOr(riderTable, code, []);
    if riders == [] then Err("상품 '" + code + "'의 특약 정보가 없습니다.")
    else Ok(RiderList(OfKind(riders, Mandatory), OfKind(riders, Optional), |riders|))
  }

  /** The two groups never overlap and, when every rider has one of the two types, they cover all of them. */
  lemma {:induction false} PartitionCounts(riders: seq<Rider>)
    ensures |OfKind(riders, Mandatory)| + |OfKind(riders, Optional)| <= |riders|
    ensures (forall x :: x in riders ==> x.kind == Mandatory || x.kind == Optional) ==>
      |OfKind(riders, Mandatory)| + |OfKind(riders, Optional)| == |riders|
  {
    if riders != [] {
      PartitionCounts(riders[1..]);
      assert forall x :: x in riders[1..] ==> x in riders;
    }
  }

  /** `kw in (name + desc).lower()`. */
  predicate RiderHasKeyword(x: Rider, kw: string) {
    Contains(Lower(x.name + x.desc), kw)
  }

  function RidersWith(riders: seq<Rider>, kw: string): (r: seq<Rider>)
    ensures |r| <= |riders|
    ensures forall x :: x in r <==> x in riders && RiderHasKeyword(x, kw)
    ensures r == Filter(riders, (x: Rider) => RiderHasKeyword(x, kw))
  {
    if riders == [] then []
    else (if RiderHasKeyword(riders[0], kw) then [riders[0]] else []) + RidersWith(riders[1..], kw)
  }

  /** `rider_search`: the product's riders mentioning the keyword; an unknown product has none. */
  function RiderSearch(riderTable: Dict<seq<Rider>>, code: string, keyword: string): (r: seq<Rider>)
    ensures forall x :: x in r <==> x in GetOr(riderTable, code, []) && RiderHasKeyword(x, Lower(keyword))
    ensures !HasKey(riderTable, code) ==> r == []
    ensures r == Filter(GetOr(riderTable, code, []), (x: Rider) => RiderHasKeyword(x, Lower(keyword)))
  {
    RidersWith(GetOr(riderTable, code, []), Lower(keyword))
  }

  /** `rc in code.lower() or rc in name.lower()`. */
  predicate RiderMatches(x: Rider, rc: string) {
    Contains(Lower(x.code), rc) || Contains(Lower(x.name), rc)
  }

  /** The rider at (i, j) matches and no rider before it, in table order, does. */
  predicate FirstMatchAt(table: Dict<seq<Rider>>, rc: string, i: nat, j: nat) {
    && i < |table| && j < |table[i].value| && RiderMatches(table[i].value[j], rc)
    && (forall i', j' :: 0 <= i' < i && 0 <= j' < |table[i'].value| ==> !RiderMatches(table[i'].value[j'], rc))
    && (forall j' :: 0 <= j' < j ==> !RiderMatches(table[i].value[j'], rc))
  }

  datatype RiderHit = RiderHit(rider: Rider, productCode: string, productName: string)

  /**
   * `rider_get`: the first rider, over all products in order, whose code or
   * name contains the query; naming a product missing from the product table
   * raises.
   */
  method RiderGet(products: Products, table: Dict<seq<Rider>>, riderCode: string) returns (r: Outcome<RiderHit>)
    ensures !r.Blocked?
    ensures r.Failed? <==>
      forall i, j :: 0 <= i < |table| && 0 <= j < |table[i].value| ==> !RiderMatches(table[i].value[j], Lower(riderCode))
    ensures r.Done? ==> exists i: nat, j: nat :: (FirstMatchAt(table, Lower(riderCode), i, j)
                                                  && HasKey(products, table[i].key)
                                                  && r.value == RiderHit(table[i].value[j], table[i].key, Get(products, table[i].key).value.name))
    ensures r.Crashed? ==> exists i: nat, j: nat :: (FirstMatchAt(table, Lower(riderCode), i, j)
                                                     && !HasKey(products, table[i].key))
  {
    var rc := Lower(riderCode);
    for i := 0 to |table|
      invariant forall i', j' :: 0 <= i' < i && 0 <= j' < |table[i'].value| ==> !RiderMatches(table[i'].value[j'], rc)
    {
      var riders := table[i].value;
      for j := 0 to |riders|
        invariant forall j' :: 0 <= j' < j ==> !RiderMatches(riders[j'], rc)
      {
        if Contains(Lower(riders[j].code), rc) || Contains(Lower(riders[j].name), rc) {
          assert FirstMatchAt(table, rc, i, j);
          var p := Get(products, table[i].key);
          if p.None? {
            return Crashed;
          }
          return Done(RiderHit(riders[j], table[i].key, p.value.name));
        }
      }
    }
    r := Failed("특약 '" + riderCode + "'를 찾을 수 없습니다.");
  }

  // ---------------------------------------------------------------
  // Product rules, FAQ and channels
  // ---------------------------------------------------------------

  const ExistingCustomerRule := "기존 당사 암보험 정상 유지 고객만 가입 가능"
  const SimplifiedRule := "간편심사 대상(유병력자 등 일반심사 어려운 고객)"

  datatype Rules = Rules(name: string, ageRange: string, channels: seq<string>,
                         renewalType: Option<string>, simplified: bool, special: seq<string>)

  /** `eligibility_by_product_rule`: the listed conditions plus the two special requirements. */
  function EligibilityByProductRule(products: Products, code: string): (r: Result<Rules>)
    ensures r.Err? <==> !HasKey(products, code)
    ensures r.Ok? ==> r.value.simplified == Get(products, code).value.simplified
    ensures r.Ok? ==> (ExistingCustomerRule in r.value.special <==> code == "B00115023")
    ensures r.Ok? ==> (SimplifiedRule in r.value.special <==> r.value.simplified)
    ensures r.Ok? ==> |r.value.special| <= 2
  {
    match Get(products, code)
      case None => Err("상품 '" + code + "' 없음")
      case Some(p) =>
        assert ExistingCustomerRule != SimplifiedRule by {
          assert ExistingCustomerRule[0] != SimplifiedRule[0];
        }
        var special := (if code == "B00115023" then [ExistingCustomerRule] else [])
                       + (if p.simplified then [SimplifiedRule] else []);
        Ok(Rules(p.name, AgeText(p.minAge) + "세 ~ " + AgeText(p.maxAge) + "세", p.channels,
                 p.renewalType, p.simplified, special))
  }

  const FaqTopics: seq<string> := ["갱신", "면책", "감액", "보장개시"]

  /** The renewal answer: the renewal type, then the renewal age limit when one is set and non-zero. */
  function RenewalAnswer(p: Product): string {
    "이 상품은 " + (match p.renewalType case Some(t) => t case None => "정보 없음") + "입니다. "
    + (match p.maxRenewalAge
         case Some(n) => if n != 0 then "최대 " + IntToString(n) + "세까지 갱신 가능합니다." else "갱신 없는 상품입니다."
         case None => "갱신 없는 상품입니다.")
  }

  /** The four FAQ answers, keyed by topic, the period answers from the waiting-period table. */
  function Faqs(p: Product, periods: Dict<string>): (r: Dict<string>)
    ensures Keys(r) == FaqTopics
  {
    [Entry("갱신", RenewalAnswer(p)),
     Entry("면책", GetOr(periods, "면책기간", "면책기간 정보를 확인해 주세요.")),
     Entry("감액", GetOr(periods, "감액기간", "감액기간 정보를 확인해 주세요.")),
     Entry("보장개시", GetOr(periods, "보장개시일", "보장개시일 정보를 확인해 주세요."))]
  }

  /** `product_faq_lookup`: the answers whose topic contains the topic asked; all four for none or no match. */
  function ProductFaq(products: Products, periods: Dict<Dict<string>>, code: string, topic: string): (r: Result<Dict<string>>)
    ensures r.Err? <==> !HasKey(products, code)
    ensures r.Ok? ==> var all := Faqs(Get(products, code).value, GetOr(periods, code, []));
      && (topic == [] || KeysContaining(all, Lower(topic)) == [] ==> r.value == all)
      && (topic != [] && KeysContaining(all, Lower(topic)) != [] ==> r.value == KeysContaining(all, Lower(topic)))
      && (r.value != all ==> forall e :: e in r.value <==> e in all && Contains(Lower(e.key), Lower(topic)))
      && |r.value| <= |FaqTopics|
  {
    match Get(products, code)
      case None => Err("상품 '" + code + "' 없음")
      case Some(p) =>
        var faqs := Faqs(p, GetOr(periods, code, []));
        var tp := Lower(topic);
        var matched := if tp != [] then KeysContaining(faqs, tp) else faqs;
        Ok(if matched != [] then matched else faqs)
  }

  datatype ChannelReport = ChannelReport(name: string, channels: seq<string>, available: Option<bool>)

  function UpperAll(ss: seq<string>): (r: seq<string>)
    ensures |r| == |ss| && forall i :: 0 <= i < |ss| ==> r[i] == Upper(ss[i])
  {
    if ss == [] then [] else [Upper(ss[0])] + UpperAll(ss[1..])
  }

  /** `sales_channel_availability`: availability is reported only for a requested channel, case-insensitively. */
  function SalesChannelAvailability(products: Products, code: string, channel: string): (r: Result<ChannelReport>)
    ensures r.Err? <==> !HasKey(products, code)
    ensures r.Ok? ==> (r.value.available.None? <==> channel == [])
    ensures r.Ok? && r.value.available.Some? ==>
      (r.value.available.value <==> exists i :: 0 <= i < |r.value.channels| && Upper(r.value.channels[i]) == Upper(channel))
    ensures r.Ok? ==> r.value.channels == Get(products, code).value.channels
  {
    match Get(products, code)
      case None => Err("상품 '" + code + "' 없음")
      case Some(p) =>
        var ups := UpperAll(p.channels);
        assert (Upper(channel) in ups) <==> exists i :: 0 <= i < |p.channels| && Upper(p.channels[i]) == Upper(channel) by {
          if Upper(channel) in ups {
            var i :| 0 <= i < |ups| && ups[i] == Upper(channel);
          }
        }
        Ok(ChannelReport(p.name, p.channels, if channel != [] then Some(Upper(channel) in ups) else None))
  }
}
