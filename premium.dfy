// Premium, plan and amount tools.  The premium formula is evaluated on
// exact reals and truncated toward zero as `int()` does; the product,
// premium and surrender tables and the user-info guard's verdict are
// parameters.  Amounts are kept as integers; their "1,234원" display form
// is not modelled.

module Premium {
  import opened Util
  import opened Tables

  /** A premium table: base amount, per-year age factor, and gender factors keyed "gender_m" etc. */
  datatype PremiumTable = PremiumTable(base: real, ageFactor: real, factors: Dict<real>)

  const MinimumPremium: int := 5000

  function NoProductMessage(code: string): string {
    "상품 '" + code + "' 없음"
  }

  /** `int(x)`: truncation toward zero. */
  function Trunc(x: real): (r: int)
    ensures x >= 0.0 ==> r >= 0 && r as real <= x < r as real + 1.0
    ensures x < 0.0 ==> r <= 0 && r as real - 1.0 < x <= r as real
  {
    if x >= 0.0 then x.Floor else -((-x).Floor)
  }

  lemma TruncMono(x: real, y: real)
    requires x <= y
    ensures Trunc(x) <= Trunc(y)
  {
  }

  /** `table.get(f"gender_{gender.lower()}", 1.0)`. */
  function GenderFactor(t: PremiumTable, gender: string): real {
    GetOr(t.factors, "gender_" + Lower(gender), 1.0)
  }

  /** The premium before the amount factor: base × age factor × gender factor. */
  function Scale(t: PremiumTable, age: int, gender: string): real {
    t.base * (1.0 + (age - 30) as real * t.ageFactor) * GenderFactor(t, gender)
  }

  /** `_calc_premium` once a table exists: the formula truncated, but never below 5000. */
  function CalcPremium(t: PremiumTable, age: int, gender: string, amountFactor: real): (r: int)
    ensures r >= MinimumPremium
    ensures Scale(t, age, gender) * amountFactor >= MinimumPremium as real ==>
      r as real <= Scale(t, age, gender) * amountFactor < r as real + 1.0
    ensures Scale(t, age, gender) * amountFactor < MinimumPremium as real ==> r == MinimumPremium
  {
    Max(Trunc(Scale(t, age, gender) * amountFactor), MinimumPremium)
  }

  /** A larger amount factor never quotes less when the scaled premium is non-negative. */
  lemma CalcPremiumMono(t: PremiumTable, age: int, gender: string, a: real, b: real)
    requires 0.0 <= Scale(t, age, gender)
    requires a <= b
    ensures CalcPremium(t, age, gender, a) <= CalcPremium(t, age, gender, b)
  {
    var k := Scale(t, age, gender);
    FloorMono(k, a, b);
    assert CalcPremium(t, age, gender, a) == Max(Trunc(k * a), MinimumPremium);
    assert CalcPremium(t, age, gender, b) == Max(Trunc(k * b), MinimumPremium);
  }

  /** The floored premium grows with the amount factor for any non-negative scale. */
  lemma FloorMono(k: real, a: real, b: real)
    requires 0.0 <= k && a <= b
    ensures Max(Trunc(k * a), MinimumPremium) <= Max(Trunc(k * b), MinimumPremium)
  {
    assert k * a <= k * b by {
      ProductMono(k, a, b);
    }
    TruncMono(k * a, k * b);
  }

  lemma ProductMono(k: real, a: real, b: real)
    requires 0.0 <= k && a <= b
    ensures k * a <= k * b
  {
    assert 0.0 <= k * (b - a);
    assert k * b - k * a == k * (b - a);
  }

  /** What `_calc_premium` does for possibly missing inputs: no table, an exception, or a premium. */
  datatype Quote = NoTable | QuoteRaises | Quoted(amount: int)

  function QuoteFor(tables: Dict<PremiumTable>, code: string, age: Option<int>, gender: Option<string>,
                    amountFactor: real): (q: Quote)
    ensures q.NoTable? <==> !HasKey(tables, code)
    ensures q.QuoteRaises? <==> HasKey(tables, code) && (age.None? || gender.None?)
    ensures q.Quoted? ==> q.amount >= MinimumPremium
    ensures q.Quoted? ==> q.amount == CalcPremium(Get(tables, code).value, age.value, gender.value, amountFactor)
  {
    match Get(tables, code)
      case None => NoTable
      case Some(t) =>
        if age.None? || gender.None? then QuoteRaises
        else Quoted(CalcPremium(t, age.value, gender.value, amountFactor))
  }

  // ---------------------------------------------------------------
  // Estimate
  // ---------------------------------------------------------------

  datatype Estimate = Estimate(code: string, name: string, monthly: int)

  function PremiumEstimate(products: Products, tables: Dict<PremiumTable>, code: string,
                           age: Option<int>, gender: Option<string>, guard: Option<string>): (r: Outcome<Estimate>)
    ensures guard.Some? ==> r == Blocked(guard.value)
    ensures guard.None? && !HasKey(products, code) ==> r == Failed(NoProductMessage(code))
    ensures guard.None? && HasKey(products, code) && !HasKey(tables, code) ==> r == Failed("보험료 테이블 없음")
    ensures r.Done? ==> r.value.code == code && r.value.monthly >= MinimumPremium
    ensures r.Done? ==> QuoteFor(tables, code, age, gender, 1.0) == Quoted(r.value.monthly)
    ensures r.Crashed? <==> guard.None? && HasKey(products, code) && HasKey(tables, code) && (age.None? || gender.None?)
  {
    if guard.Some? then Blocked(guard.value)
    else match Get(products, code)
      case None => Failed(NoProductMessage(code))
      case Some(p) =>
        match QuoteFor(tables, code, age, gender, 1.0)
          case NoTable => Failed("보험료 테이블 없음")
          case QuoteRaises => Crashed
          case Quoted(m) => Done(Estimate(code, p.name, m))
  }

  // ---------------------------------------------------------------
  // Compare
  // ---------------------------------------------------------------

  /** One comparison row; `monthly` is None where the tool shows "산출불가". */
  datatype CompareRow = CompareRow(code: string, name: string, monthly: Option<int>)

  /** The rows for the listed codes, unknown codes skipped; None when a quote raises. */
  function CompareRows(products: Products, tables: Dict<PremiumTable>, codes: seq<string>,
                       age: Option<int>, gender: Option<string>): Option<seq<CompareRow>>
  {
    if codes == [] then Some([])
    else
      match CompareRows(products, tables, codes[..|codes| - 1], age, gender)
        case None => None
        case Some(rows) =>
          var c := codes[|codes| - 1];
          match Get(products, c)
            case None => Some(rows)
            case Some(p) =>
              match QuoteFor(tables, c, age, gender, 1.0)
                case QuoteRaises => None
                case NoTable => Some(rows + [CompareRow(c, p.name, None)])
                case Quoted(m) => Some(rows + [CompareRow(c, p.name, Some(m))])
  }

  function RowCodes(rows: seq<CompareRow>): (r: seq<string>)
    ensures |r| == |rows| && forall i :: 0 <= i < |rows| ==> r[i] == rows[i].code
  {
    if rows == [] then [] else RowCodes(rows[..|rows| - 1]) + [rows[|rows| - 1].code]
  }

  /**
   * The comparison lists exactly the known codes, in the order given, and
   * every quoted premium respects the floor; it raises exactly when a known
   * code has a table while age or gender is missing.
   */
  lemma CompareRowsSpec(products: Products, tables: Dict<PremiumTable>, codes: seq<string>,
                         age: Option<int>, gender: Option<string>)
    ensures CompareRows(products, tables, codes, age, gender).None? <==>
      (age.None? || gender.None?) && exists c :: c in KnownCodes(products, codes) && HasKey(tables, c)
    ensures CompareRows(products, tables, codes, age, gender).Some? ==>
      && RowCodes(CompareRows(products, tables, codes, age, gender).value) == KnownCodes(products, codes)
      && forall row :: row in CompareRows(products, tables, codes, age, gender).value && row.monthly.Some? ==>
           row.monthly.value >= MinimumPremium
  {
    CompareRowsNone(products, tables, codes, age, gender);
    CompareRowsCodes(products, tables, codes, age, gender);
    CompareRowsFloor(products, tables, codes, age, gender);
  }

  lemma {:induction false} CompareRowsNone(products: Products, tables: Dict<PremiumTable>, codes: seq<string>,
                                           age: Option<int>, gender: Option<string>)
    ensures CompareRows(products, tables, codes, age, gender).None? <==>
      (age.None? || gender.None?) && exists c :: c in KnownCodes(products, codes) && HasKey(tables, c)
  {
    if codes != [] {
      var init := codes[..|codes| - 1];
      var c := codes[|codes| - 1];
      CompareRowsNone(products, tables, init, age, gender);
      var known := KnownCodes(products, codes);
      assert known == KnownCodes(products, init) + (if HasKey(products, c) then [c] else []);
      if CompareRows(products, tables, init, age, gender).None? {
        var c' :| c' in KnownCodes(products, init) && HasKey(tables, c');
        assert c' in known;
      } else if HasKey(products, c) && !QuoteFor(tables, c, age, gender, 1.0).QuoteRaises? {
        assert (age.None? || gender.None?) ==> !HasKey(tables, c);
      }
    }
  }

  lemma {:induction false} CompareRowsCodes(products: Products, tables: Dict<PremiumTable>, codes: seq<string>,
                                            age: Option<int>, gender: Option<string>)
    ensures CompareRows(products, tables, codes, age, gender).Some? ==>
      RowCodes(CompareRows(products, tables, codes, age, gender).value) == KnownCodes(products, codes)
  {
    if codes != [] && CompareRows(products, tables, codes, age, gender).Some? {
      var init := codes[..|codes| - 1];
      var c := codes[|codes| - 1];
      CompareRowsCodes(products, tables, init, age, gender);
      var rows, row := CompareRowsLast(products, tables, codes, age, gender);
      assert KnownCodes(products, codes) == KnownCodes(products, init) + (if HasKey(products, c) then [c] else []);
      if HasKey(products, c) {
        RowCodesSnoc(rows, row);
      }
    }
  }

  /** A successful comparison extends that of all codes but the last by at most one row, for the last code. */
  lemma CompareRowsLast(products: Products, tables: Dict<PremiumTable>, codes: seq<string>,
                        age: Option<int>, gender: Option<string>) returns (rows: seq<CompareRow>, row: CompareRow)
    requires codes != [] && CompareRows(products, tables, codes, age, gender).Some?
    ensures CompareRows(products, tables, codes[..|codes| - 1], age, gender) == Some(rows)
    ensures HasKey(products, codes[|codes| - 1]) ==>
      CompareRows(products, tables, codes, age, gender).value == rows + [row] && row.code == codes[|codes| - 1]
    ensures !HasKey(products, codes[|codes| - 1]) ==> CompareRows(products, tables, codes, age, gender).value == rows
  {
    rows := CompareRows(products, tables, codes[..|codes| - 1], age, gender).value;
    var last := CompareRows(products, tables, codes, age, gender).value;
    row := if HasKey(products, codes[|codes| - 1]) then last[|last| - 1] else CompareRow([], [], None);
  }

  lemma RowCodesSnoc(rows: seq<CompareRow>, row: CompareRow)
    ensures RowCodes(rows + [row]) == RowCodes(rows) + [row.code]
  {
    assert (rows + [row])[..|rows|] == rows;
  }

  lemma {:induction false} CompareRowsFloor(products: Products, tables: Dict<PremiumTable>, codes: seq<string>,
                                            age: Option<int>, gender: Option<string>)
    ensures CompareRows(products, tables, codes, age, gender).Some? ==>
      forall row :: row in CompareRows(products, tables, codes, age, gender).value && row.monthly.Some? ==>
        row.monthly.value >= MinimumPremium
  {
    if codes != [] && CompareRows(products, tables, codes, age, gender).Some? {
      CompareRowsFloor(products, tables, codes[..|codes| - 1], age, gender);
    }
  }

  /** `premium_compare`: parse the code list, then one quote per known code. */
  method PremiumCompare(products: Products, tables: Dict<PremiumTable>, codes: string,
                        age: Option<int>, gender: Option<string>, guard: Option<string>)
    returns (r: Outcome<seq<CompareRow>>)
    ensures guard.Some? ==> r == Blocked(guard.value)
    ensures guard.None? && CompareRows(products, tables, CodeList(codes), age, gender).None? ==> r == Crashed
    ensures guard.None? && CompareRows(products, tables, CodeList(codes), age, gender).Some? ==>
      r == Done(CompareRows(products, tables, CodeList(codes), age, gender).value)
  {
    if guard.Some? {
      return Blocked(guard.value);
    }
    var rows := CompareCodes(products, tables, CodeList(codes), age, gender);
    r := if rows.Some? then Done(rows.value) else Crashed;
  }

  /** The comparison loop over the parsed codes. */
  method CompareCodes(products: Products, tables: Dict<PremiumTable>, codeList: seq<string>,
                      age: Option<int>, gender: Option<string>) returns (r: Option<seq<CompareRow>>)
    ensures r == CompareRows(products, tables, codeList, age, gender)
  {
    var rows: seq<CompareRow> := [];
    for i := 0 to |codeList|
      invariant CompareRows(products, tables, codeList[..i], age, gender) == Some(rows)
    {
      assert codeList[..i + 1][..i] == codeList[..i];
      var c := codeList[i];
      var p := Get(products, c);
      if p.Some? {
        var q := QuoteFor(tables, c, age, gender, 1.0);
        if q.QuoteRaises? {
          assert CompareRows(products, tables, codeList[..i + 1], age, gender) == None;
          NoneStaysNone(products, tables, codeList, age, gender, i + 1);
          return None;
        }
        rows := rows + [CompareRow(c, p.value.name, if q.Quoted? then Some(q.amount) else None)];
      }
    }
    assert codeList[..|codeList|] == codeList;
    r := Some(rows);
  }

  /** Once a prefix of the codes raises, the whole list raises. */
  lemma {:induction false} NoneStaysNone(products: Products, tables: Dict<PremiumTable>, codes: seq<string>,
                                         age: Option<int>, gender: Option<string>, n: nat)
    requires n <= |codes|
    requires CompareRows(products, tables, codes[..n], age, gender).None?
    ensures CompareRows(products, tables, codes, age, gender).None?
    decreases |codes| - n
  {
    if n < |codes| {
      assert codes[..n + 1][..n] == codes[..n];
      NoneStaysNone(products, tables, codes, age, gender, n + 1);
    } else {
      assert codes[..n] == codes;
    }
  }

  // ---------------------------------------------------------------
  // Plan options
  // ---------------------------------------------------------------

  datatype PlanOption =
    | FullTerm(years: int)                      // "{term}년납(전기납)"
    | PaymentTerm(years: int, monthly: Option<int>)  // "{t}년납", None shown as "산출불가"

  const LifetimeRenewal := "비갱신형(종신)"
  const PaymentTerms: seq<int> := [10, 15, 20]

  /** The payment terms offered at this age: those that end by age 80. */
  function TermsFor(age: int): (r: seq<int>)
    ensures forall t :: t in r <==> t in PaymentTerms && age + t <= 80
    ensures r == Filter(PaymentTerms, (t: int) => age + t <= 80)
  {
    (if age + 10 <= 80 then [10] else []) + (if age + 15 <= 80 then [15] else []) + (if age + 20 <= 80 then [20] else [])
  }

  /** The lifetime-plan options for the given terms; None when a quote raises. */
  function TermOptions(tables: Dict<PremiumTable>, code: string, age: int, gender: Option<string>,
                       terms: seq<int>): Option<seq<PlanOption>>
  {
    if terms == [] then Some([])
    else
      match TermOptions(tables, code, age, gender, terms[..|terms| - 1])
        case None => None
        case Some(opts) =>
          var t := terms[|terms| - 1];
          match QuoteFor(tables, code, Some(age), gender, t as real / 20.0)
            case QuoteRaises => None
            case NoTable => Some(opts + [PaymentTerm(t, None)])
            case Quoted(m) => Some(opts + [PaymentTerm(t, Some(m))])
  }

  /** The "{term}년납(전기납)" option, present when the product has a (non-zero) term. */
  function FullTermOptions(p: Product): seq<PlanOption> {
    if p.termYears.Some? && p.termYears.value != 0 then [FullTerm(p.termYears.value)] else []
  }

  function WithPrefix<T>(prefix: seq<T>, rest: Option<seq<T>>): Option<seq<T>> {
    if rest.Some? then Some(prefix + rest.value) else None
  }

  datatype Plans = Plans(code: string, name: string, options: seq<PlanOption>, planTypes: seq<string>)

  /** `plan_options`: the full-term option when the product has a term, then the lifetime terms. */
  method PlanOptionsFor(products: Products, tables: Dict<PremiumTable>, code: string,
                        age: Option<int>, gender: Option<string>, guard: Option<string>)
    returns (r: Outcome<Plans>)
    ensures guard.Some? ==> r == Blocked(guard.value)
    ensures guard.None? && !HasKey(products, code) ==> r == Failed(NoProductMessage(code))
    ensures r.Done? ==> guard.None? && HasKey(products, code)
    ensures r.Done? ==> r.value.planTypes == Get(products, code).value.planTypes
    ensures r.Done? ==>
      if Get(products, code).value.renewalType == Some(LifetimeRenewal) then
        age.Some? && Some(r.value.options) ==
          WithPrefix(FullTermOptions(Get(products, code).value), TermOptions(tables, code, age.value, gender, TermsFor(age.value)))
      else r.value.options == FullTermOptions(Get(products, code).value)
    ensures r.Crashed? <==>
      (&& guard.None? && HasKey(products, code) && Get(products, code).value.renewalType == Some(LifetimeRenewal)
       && (age.None? || TermOptions(tables, code, age.value, gender, TermsFor(age.value)).None?))
  {
    if guard.Some? {
      return Blocked(guard.value);
    }
    var found := Get(products, code);
    if found.None? {
      return Failed(NoProductMessage(code));
    }
    var p := found.value;
    var options: seq<PlanOption> := [];
    if p.termYears.Some? && p.termYears.value != 0 {
      options := [FullTerm(p.termYears.value)];
    }
    assert options == FullTermOptions(p);
    if p.renewalType == Some(LifetimeRenewal) {
      if age.None? {
        return Crashed;
      }
      var terms := TermsFor(age.value);
      var extra: seq<PlanOption> := [];
      for i := 0 to |terms|
        invariant TermOptions(tables, code, age.value, gender, terms[..i]) == Some(extra)
      {
        assert terms[..i + 1][..i] == terms[..i];
        var t := terms[i];
        var q := QuoteFor(tables, code, age, gender, t as real / 20.0);
        if q.QuoteRaises? {
          TermOptionsNoneStays(tables, code, age.value, gender, terms, i + 1);
          assert terms[..|terms|] == terms;
          return Crashed;
        }
        extra := extra + [PaymentTerm(t, if q.Quoted? then Some(q.amount) else None)];
      }
      assert terms[..|terms|] == terms;
      options := options + extra;
    }
    r := Done(Plans(code, p.name, options, p.planTypes));
  }

  lemma {:induction false} TermOptionsNoneStays(tables: Dict<PremiumTable>, code: string, age: int, gender: Option<string>,
                                                terms: seq<int>, n: nat)
    requires n <= |terms|
    requires TermOptions(tables, code, age, gender, terms[..n]).None?
    ensures TermOptions(tables, code, age, gender, terms).None?
    decreases |terms| - n
  {
    if n < |terms| {
      assert terms[..n + 1][..n] == terms[..n];
      TermOptionsNoneStays(tables, code, age, gender, terms, n + 1);
    } else {
      assert terms[..n] == terms;
    }
  }

  /** One option per offered term, in term order, each term ending by age 80. */
  lemma {:induction false} TermOptionsShape(tables: Dict<PremiumTable>, code: string, age: int, gender: Option<string>,
                                            terms: seq<int>)
    requires TermOptions(tables, code, age, gender, terms).Some?
    ensures var opts := TermOptions(tables, code, age, gender, terms).value;
      && |opts| == |terms|
      && forall i :: 0 <= i < |terms| ==>
           (opts[i].PaymentTerm? && opts[i].years == terms[i] && (opts[i].monthly.Some? ==> opts[i].monthly.value >= MinimumPremium))
  {
    if terms != [] {
      TermOptionsShape(tables, code, age, gender, terms[..|terms| - 1]);
    }
  }

  /** Everyone up to 60 is offered all three terms; nobody over 70 is offered any. */
  lemma TermsByAge(age: int)
    ensures age <= 60 ==> TermsFor(age) == PaymentTerms
    ensures age > 70 ==> TermsFor(age) == []
  {
  }

  // ---------------------------------------------------------------
  // Amount suggestion
  // ---------------------------------------------------------------

  /** The suggested coverage amount (in units of 10,000 won); None for the fixed-benefit dental products. */
  datatype AmountAdvice = AmountAdvice(suggested: Option<int>, unit: string)

  function AmountSuggest(products: Products, code: string, income: int): (r: Result<AmountAdvice>)
    ensures r.Err? <==> !HasKey(products, code)
    ensures r.Ok? ==> var cat := Get(products, code).value.category;
      && (Contains(cat, "사망") ==> r.value.suggested == Some(if income != 0 then Max(income * 36, 3000) else 3000))
      && (!Contains(cat, "사망") && (Contains(cat, "암") || Contains(cat, "건강")) ==> r.value.suggested == Some(2000))
      && ((!Contains(cat, "사망") && !Contains(cat, "암") && !Contains(cat, "건강") && Contains(cat, "치아")) ==>
            r.value == AmountAdvice(None, "정액"))
      && ((!Contains(cat, "사망") && !Contains(cat, "암") && !Contains(cat, "건강") && !Contains(cat, "치아")) ==>
            r.value.suggested == Some(1000))
    ensures r.Ok? && r.value.suggested.Some? ==> r.value.suggested.value >= 1000 && r.value.unit == "만원"
  {
    match Get(products, code)
      case None => Err(NoProductMessage(code))
      case Some(p) =>
        var cat := p.category;
        if Contains(cat, "사망") then Ok(AmountAdvice(Some(if income != 0 then Max(income * 36, 3000) else 3000), "만원"))
        else if Contains(cat, "암") || Contains(cat, "건강") then Ok(AmountAdvice(Some(2000), "만원"))
        else if Contains(cat, "치아") then Ok(AmountAdvice(None, "정액"))
        else Ok(AmountAdvice(Some(1000), "만원"))
  }

  /** For death cover a higher income never lowers the suggestion, which is at least 3000. */
  lemma AmountSuggestMono(products: Products, code: string, a: int, b: int)
    requires 0 <= a <= b
    requires HasKey(products, code) && Contains(Get(products, code).value.category, "사망")
    ensures 3000 <= AmountSuggest(products, code, a).value.suggested.value <= AmountSuggest(products, code, b).value.suggested.value
  {
  }

  // ---------------------------------------------------------------
  // Renewal projection
  // ---------------------------------------------------------------

  /** `range(from, horizon, step)` for a positive step. */
  function Steps(step: int, horizon: int, from: int): (r: seq<int>)
    requires step > 0
    ensures forall j :: 0 <= j < |r| ==> from <= r[j] < horizon
    ensures forall j, k :: 0 <= j < k < |r| ==> r[j] < r[k]
    ensures from < horizon ==> r != [] && r[0] == from
    ensures horizon <= from ==> r == []
    decreases horizon - from
  {
    if from >= horizon then [] else [from] + Steps(step, horizon, from + step)
  }

  /** The j-th step is `from + j * step`. */
  lemma {:induction false} StepsAreMultiples(step: int, horizon: int, from: int)
    requires step > 0
    ensures forall j :: 0 <= j < |Steps(step, horizon, from)| ==> Steps(step, horizon, from)[j] == from + j * step
    decreases horizon - from
  {
    if from < horizon {
      var rest := Steps(step, horizon, from + step);
      StepsAreMultiples(step, horizon, from + step);
      forall j | 0 <= j < |Steps(step, horizon, from)|
        ensures Steps(step, horizon, from)[j] == from + j * step
      {
        if j > 0 {
          assert Steps(step, horizon, from)[j] == rest[j - 1] == from + step + (j - 1) * step;
        }
      }
    }
  }

  datatype ProjectionRow = ProjectionRow(age: int, monthly: int)

  /** The projected rows for the offsets given; None when a quote raises. */
  function ProjectRows(tables: Dict<PremiumTable>, code: string, age: int, gender: Option<string>,
                       offsets: seq<int>): Option<seq<ProjectionRow>>
  {
    if offsets == [] then Some([])
    else
      match ProjectRows(tables, code, age, gender, offsets[..|offsets| - 1])
        case None => None
        case Some(rows) =>
          var a := age + offsets[|offsets| - 1];
          match QuoteFor(tables, code, Some(a), gender, 1.0)
            case QuoteRaises => None
            case NoTable => Some(rows)
            case Quoted(m) => Some(rows + [ProjectionRow(a, m)])
  }

  datatype Projection =
    | NotRenewing(message: string)
    | Projected(termYears: int, rows: seq<ProjectionRow>)

  /** `p.get("term_years", 10)`. */
  function TermOf(p: Product): int {
    if p.termYears.Some? then p.termYears.value else 10
  }

  /** `renewal_premium_projection`: one quote every `term` years within the horizon. */
  method RenewalProjection(products: Products, tables: Dict<PremiumTable>, code: string,
                           age: Option<int>, gender: Option<string>, horizon: int, guard: Option<string>)
    returns (r: Outcome<Projection>)
    ensures guard.Some? ==> r == Blocked(guard.value)
    ensures guard.None? && !HasKey(products, code) ==> r == Failed(NoProductMessage(code))
    ensures guard.None? && HasKey(products, code) && Get(products, code).value.renewalType != Some("갱신형") ==>
      r.Done? && r.value.NotRenewing?
    ensures r.Done? && r.value.Projected? ==>
      && guard.None? && HasKey(products, code)
      && Get(products, code).value.renewalType == Some("갱신형")
      && r.value.termYears == TermOf(Get(products, code).value)
      && (r.value.termYears < 0 || horizon <= 0 ==> r.value.rows == [])
      && (r.value.termYears > 0 && age.Some? ==>
            Some(r.value.rows) == ProjectRows(tables, code, age.value, gender, Steps(r.value.termYears, horizon, 0)))
    ensures (guard.None? && HasKey(products, code) && Get(products, code).value.renewalType == Some("갱신형")
             && TermOf(Get(products, code).value) == 0) ==> r.Crashed?
  {
    if guard.Some? {
      return Blocked(guard.value);
    }
    var found := Get(products, code);
    if found.None? {
      return Failed(NoProductMessage(code));
    }
    var p := found.value;
    if p.renewalType != Some("갱신형") {
      return Done(NotRenewing("비갱신형 상품으로 보험료 변동이 없습니다."));
    }
    var term := TermOf(p);
    if term == 0 {
      return Crashed;
    }
    if term < 0 || horizon <= 0 {
      return Done(Projected(term, []));
    }
    if age.None? {
      return Crashed;
    }
    var rows := ProjectLoop(tables, code, age.value, gender, term, horizon);
    r := if rows.Some? then Done(Projected(term, rows.value)) else Crashed;
  }

  /** The projection loop: `for i in range(0, horizon, term)`. */
  method ProjectLoop(tables: Dict<PremiumTable>, code: string, age: int, gender: Option<string>,
                     term: int, horizon: int) returns (r: Option<seq<ProjectionRow>>)
    requires term > 0
    ensures r == ProjectRows(tables, code, age, gender, Steps(term, horizon, 0))
  {
    var rows: seq<ProjectionRow> := [];
    var i := 0;
    ghost var done: seq<int> := [];
    while i < horizon
      invariant done + Steps(term, horizon, i) == Steps(term, horizon, 0)
      invariant ProjectRows(tables, code, age, gender, done) == Some(rows)
      decreases horizon - i
    {
      var futureAge := age + i;
      var q := QuoteFor(tables, code, Some(futureAge), gender, 1.0);
      ProjectRowsSnoc(tables, code, age, gender, done, rows, i);
      StepsNext(term, horizon, i, done);
      if q.QuoteRaises? {
        ProjectRowsNoneStays(tables, code, age, gender, done + [i], Steps(term, horizon, i + term));
        return None;
      }
      if q.Quoted? {
        rows := rows + [ProjectionRow(futureAge, q.amount)];
      }
      done := done + [i];
      i := i + term;
    }
    assert done == Steps(term, horizon, 0);
    r := Some(rows);
  }

  /** One more offset: the quote at that age decides the next row. */
  lemma ProjectRowsSnoc(tables: Dict<PremiumTable>, code: string, age: int, gender: Option<string>,
                        done: seq<int>, rows: seq<ProjectionRow>, i: int)
    requires ProjectRows(tables, code, age, gender, done) == Some(rows)
    ensures var q := QuoteFor(tables, code, Some(age + i), gender, 1.0);
      ProjectRows(tables, code, age, gender, done + [i]) ==
        if q.QuoteRaises? then None
        else if q.Quoted? then Some(rows + [ProjectionRow(age + i, q.amount)])
        else Some(rows)
  {
    assert (done + [i])[..|done + [i]| - 1] == done;
  }

  /** Taking the first remaining step moves it to the steps done. */
  lemma StepsNext(term: int, horizon: int, i: int, done: seq<int>)
    requires term > 0 && i < horizon
    requires done + Steps(term, horizon, i) == Steps(term, horizon, 0)
    ensures (done + [i]) + Steps(term, horizon, i + term) == Steps(term, horizon, 0)
  {
    var rest := Steps(term, horizon, i + term);
    assert Steps(term, horizon, i) == [i] + rest;
    assert (done + [i]) + rest == done + ([i] + rest);
  }

  lemma {:induction false} ProjectRowsNoneStays(tables: Dict<PremiumTable>, code: string, age: int, gender: Option<string>,
                                                a: seq<int>, b: seq<int>)
    requires ProjectRows(tables, code, age, gender, a).None?
    ensures ProjectRows(tables, code, age, gender, a + b).None?
    decreases |b|
  {
    if b != [] {
      var ab := a + b;
      assert ab[..|ab| - 1] == a + b[..|b| - 1];
      ProjectRowsNoneStays(tables, code, age, gender, a, b[..|b| - 1]);
    } else {
      assert a + b == a;
    }
  }

  /** With a table and a gender every step is projected, at strictly increasing ages, each at or above the floor. */
  lemma {:induction false} ProjectRowsComplete(tables: Dict<PremiumTable>, code: string, age: int, gender: string,
                                               offsets: seq<int>)
    requires HasKey(tables, code)
    ensures ProjectRows(tables, code, age, Some(gender), offsets).Some?
    ensures var rows := ProjectRows(tables, code, age, Some(gender), offsets).value;
      |rows| == |offsets| && forall j :: 0 <= j < |rows| ==> rows[j].age == age + offsets[j] && rows[j].monthly >= MinimumPremium
  {
    if offsets != [] {
      ProjectRowsComplete(tables, code, age, gender, offsets[..|offsets| - 1]);
    }
  }

  /** Without a table nothing is projected. */
  lemma {:induction false} ProjectRowsNoTable(tables: Dict<PremiumTable>, code: string, age: int, gender: Option<string>,
                                              offsets: seq<int>)
    requires !HasKey(tables, code)
    ensures ProjectRows(tables, code, age, gender, offsets) == Some([])
  {
    if offsets != [] {
      ProjectRowsNoTable(tables, code, age, gender, offsets[..|offsets| - 1]);
    }
  }

  // ---------------------------------------------------------------
  // Affordability, payment cycles, surrender value
  // ---------------------------------------------------------------

  datatype Affordability = Affordability(name: string, budget: int, monthly: int, fits: bool)

  /** Whether the premium fits the monthly budget; an unknown product is named by its code. */
  function AffordabilityCheck(products: Products, tables: Dict<PremiumTable>, budget: int, code: string,
                              age: Option<int>, gender: Option<string>, guard: Option<string>): (r: Outcome<Affordability>)
    ensures guard.Some? ==> r == Blocked(guard.value)
    ensures guard.None? && !HasKey(tables, code) ==> r == Failed("보험료 산출 불가")
    ensures r.Done? ==> QuoteFor(tables, code, age, gender, 1.0) == Quoted(r.value.monthly)
    ensures r.Done? ==> (r.value.fits <==> r.value.monthly <= budget)
    ensures r.Done? ==> r.value.name == (if HasKey(products, code) then Get(products, code).value.name else code)
    ensures r.Done? && budget < MinimumPremium ==> !r.value.fits
  {
    if guard.Some? then Blocked(guard.value)
    else
      var name := match Get(products, code) case Some(p) => p.name case None => code;
      match QuoteFor(tables, code, age, gender, 1.0)
        case NoTable => Failed("보험료 산출 불가")
        case QuoteRaises => Crashed
        case Quoted(m) => Done(Affordability(name, budget, m, m <= budget))
  }

  /** A larger budget never turns a fit into a misfit. */
  lemma AffordabilityMono(products: Products, tables: Dict<PremiumTable>, b1: int, b2: int, code: string,
                          age: Option<int>, gender: Option<string>)
    requires b1 <= b2
    requires AffordabilityCheck(products, tables, b1, code, age, gender, None).Done?
    requires AffordabilityCheck(products, tables, b1, code, age, gender, None).value.fits
    ensures AffordabilityCheck(products, tables, b2, code, age, gender, None).Done?
    ensures AffordabilityCheck(products, tables, b2, code, age, gender, None).value.fits
  {
  }

  /** The payment cycles, monthly only when the product lists none. */
  function PaymentCycles(products: Products, code: string): (r: Result<seq<string>>)
    ensures r.Err? <==> !HasKey(products, code)
    ensures r.Ok? && Get(products, code).value.paymentCycles.None? ==> r.value == ["월납"]
    ensures r.Ok? && Get(products, code).value.paymentCycles.Some? ==> r.value == Get(products, code).value.paymentCycles.value
  {
    match Get(products, code)
      case None => Err(NoProductMessage(code))
      case Some(p) => Ok(if p.paymentCycles.Some? then p.paymentCycles.value else ["월납"])
  }

  /** Surrender rules per product, plus the "_default" text (None when the table lacks it). */
  datatype SurrenderTable = SurrenderTable(byCode: Dict<Dict<Value>>, default: Option<Value>)

  /**
   * The product's surrender rules, or `{"info": default}` when it has none;
   * a plan type narrows them to the keys that contain it, unless none does.
   */
  function SurrenderValue(table: SurrenderTable, code: string, planType: string): (r: Option<Dict<Value>>)
    ensures r.None? <==> GetOr(table.byCode, code, []) == [] && table.default.None?
    ensures r.Some? ==> r.value != []
    ensures r.Some? && planType != [] && KeysIncluding(BaseRules(table, code), planType) != [] ==>
      forall e :: e in r.value <==> e in BaseRules(table, code) && Contains(e.key, planType)
    ensures r.Some? && (planType == [] || KeysIncluding(BaseRules(table, code), planType) == []) ==>
      r.value == BaseRules(table, code)
  {
    var own := GetOr(table.byCode, code, []);
    if own == [] && table.default.None? then None
    else
      var rules := BaseRules(table, code);
      if planType != [] && KeysIncluding(rules, planType) != [] then Some(KeysIncluding(rules, planType))
      else Some(rules)
  }

  /** The rules before the plan-type filter. */
  function BaseRules(table: SurrenderTable, code: string): Dict<Value> {
    var own := GetOr(table.byCode, code, []);
    if own != [] then own
    else if table.default.Some? then [Entry("info", table.default.value)]
    else []
  }
}
