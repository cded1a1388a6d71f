/** The two RAG tools (app/tools/rag_tools.py): a terms search that keeps
    only terms documents, and a product-information search that keeps the
    other documents, with a two-pass search for catalogue questions that
    puts the company-information document first.

    The retriever's `retrieve` is an oracle here: query text, top-k and an
    optional filter to hits. */
module RagTools {
  import opened Util
  import opened Retriever

  type Search = (string, nat, Option<Filter>) -> seq<Hit>

  const TermsSources: set<string> := {"별표", "표준약관"}
  const CatalogKeywords: set<string> := {"목록", "뭐", "어떤", "전체", "종류", "리스트", "팔아", "상품"}
  const CatalogBoost: string := "판매 중인 보험상품 목록"
  const CompanyInfoSource: string := "lina_info.txt"

  /** `d.get("metadata", {}).get("source", "")`. */
  function SourceOf(h: Hit): string {
    if "source" in h.meta && h.meta["source"].Str? then h.meta["source"].s else ""
  }

  /** `_is_terms_source`. */
  predicate IsTermsSource(source: string) {
    exists kw :: kw in TermsSources && Contains(Lower(source), kw)
  }

  /** A terms source is one whose (lower-cased) name mentions 별표 or 표준약관. */
  lemma IsTermsSourceIff(source: string)
    ensures IsTermsSource(source) <==> Contains(Lower(source), "별표") || Contains(Lower(source), "표준약관")
  {
    if Contains(Lower(source), "별표") {
      assert "별표" in TermsSources;
    }
    if Contains(Lower(source), "표준약관") {
      assert "표준약관" in TermsSources;
    }
  }

  /** The catalogue keywords the query mentions. */
  function KeywordsIn(query: string): set<string> {
    set kw | kw in CatalogKeywords && Contains(query, kw)
  }

  /** `_is_catalog_query`. */
  predicate IsCatalogQuery(query: string) {
    |KeywordsIn(query)| >= 2
  }

  /** A catalogue question mentions two different catalogue keywords. */
  lemma IsCatalogQueryIff(query: string)
    ensures IsCatalogQuery(query) <==>
      exists a, b :: a in CatalogKeywords && b in CatalogKeywords && a != b && Contains(query, a) && Contains(query, b)
  {
    var ks := KeywordsIn(query);
    if |ks| >= 2 {
      var a :| a in ks;
      var rest := ks - {a};
      assert |rest| >= 1;
      var b :| b in rest;
      assert a != b && Contains(query, a) && Contains(query, b);
    }
    if exists a, b :: a in CatalogKeywords && b in CatalogKeywords && a != b && Contains(query, a) && Contains(query, b) {
      var a, b :| a in CatalogKeywords && b in CatalogKeywords && a != b && Contains(query, a) && Contains(query, b);
      assert {a, b} <= ks;
      assert |{a, b}| == 2;
      SubsetCard({a, b}, ks);
    }
  }

  lemma SubsetCard<T>(a: set<T>, b: set<T>)
    requires a <= b
    ensures |a| <= |b|
  {
    assert b == a + (b - a);
  }

  /** The hits of one kind, in order: terms documents when `terms`, the
      others otherwise. */
  function Keep(hits: seq<Hit>, terms: bool): (r: seq<Hit>)
    ensures forall h :: h in r <==> h in hits && IsTermsSource(SourceOf(h)) == terms
    ensures |r| <= |hits|
  {
    if hits == [] then []
    else if IsTermsSource(SourceOf(hits[0])) == terms then [hits[0]] + Keep(hits[1..], terms)
    else Keep(hits[1..], terms)
  }

  /** The kept hits are those of the list comprehension: every hit of the kind, in order. */
  lemma {:induction false} KeepInOrder(hits: seq<Hit>, terms: bool)
    ensures Keep(hits, terms) == Util.Filter(hits, (h: Hit) => IsTermsSource(SourceOf(h)) == terms)
  {
    if hits != [] {
      KeepInOrder(hits[1..], terms);
    }
  }

  /** `xs[:n]`. */
  function Take<T>(xs: seq<T>, n: nat): (r: seq<T>)
    ensures |r| == Min(n, |xs|) && r == xs[..|r|]
  {
    if |xs| <= n then xs else xs[..n]
  }

  /** The JSON document of one hit, without its id. */
  datatype AnswerDoc = AnswerDoc(text: string, score: real, meta: Meta)

  /** The tool's JSON answer. */
  datatype RagAnswer = RagAnswer(documents: seq<AnswerDoc>, total: nat, queryUsed: string)

  function Answer(docs: seq<Hit>, queryUsed: string): (a: RagAnswer)
    ensures |a.documents| == |docs| && a.total == |docs| && a.queryUsed == queryUsed
    ensures forall i :: 0 <= i < |docs| ==> a.documents[i] == AnswerDoc(docs[i].text, docs[i].score, docs[i].meta)
  {
    RagAnswer(seq(|docs|, i requires 0 <= i < |docs| => AnswerDoc(docs[i].text, docs[i].score, docs[i].meta)), |docs|, queryUsed)
  }

  /** `f"{product_code} {query}".strip()` when a product code is given. */
  function ScopedQuery(query: string, productCode: string): string {
    if productCode != [] then Strip(productCode + " " + query) else query
  }

  /** `rag_terms_query_engine`: the first five terms documents among fifteen
      hits for the (product-scoped) query. */
  function TermsQueryEngine(query: string, productCode: string, search: Search): (a: RagAnswer)
    ensures a.queryUsed == ScopedQuery(query, productCode)
    ensures a.total == |a.documents| <= 5
  {
    var q := ScopedQuery(query, productCode);
    Answer(Take(Keep(search(q, 15, None), true), 5), q)
  }

  /** Every answered terms document is a terms-source hit of the search, and
      the answer is the first of them in search order. */
  lemma TermsOnly(query: string, productCode: string, search: Search)
    ensures var q := ScopedQuery(query, productCode);
      var kept := Keep(search(q, 15, None), true);
      TermsQueryEngine(query, productCode, search) == Answer(kept[..Min(5, |kept|)], q)
      && forall h :: h in kept[..Min(5, |kept|)] ==> h in search(q, 15, None) && IsTermsSource(SourceOf(h))
  {
    var q := ScopedQuery(query, productCode);
    var kept := Keep(search(q, 15, None), true);
    forall h | h in kept[..Min(5, |kept|)]
      ensures h in search(q, 15, None) && IsTermsSource(SourceOf(h))
    {
      assert h in kept;
    }
  }

  /** The query `rag_product_info_query_engine` searches with. */
  function ProductQuery(query: string, productCode: string): string {
    if productCode != [] then Strip(productCode + " " + query)
    else if IsCatalogQuery(query) then CatalogBoost + " " + query
    else query
  }

  /** `_catalog_two_pass_search` as a specification: the company-information
      hits, then the unseen non-terms general hits, at most eight. */
  function TwoPass(priority: seq<Hit>, general: seq<Hit>): seq<Hit> {
    Take(priority + Unseen(Keep(general, false), Ids(priority)), 8)
  }

  function Ids(hs: seq<Hit>): (r: set<string>)
    ensures forall h :: h in hs ==> h.id in r
    ensures forall id :: id in r ==> exists h :: h in hs && h.id == id
  {
    set h | h in hs :: h.id
  }

  /** The hits whose id was not seen before, each id kept once. */
  function Unseen(hs: seq<Hit>, seen: set<string>): (r: seq<Hit>)
    ensures forall h :: h in r ==> h in hs && h.id !in seen
    decreases |hs|
  {
    if hs == [] then []
    else if hs[0].id in seen then Unseen(hs[1..], seen)
    else [hs[0]] + Unseen(hs[1..], seen + {hs[0].id})
  }

  ghost predicate IdsDistinct(hs: seq<Hit>) {
    forall i, j :: 0 <= i < j < |hs| ==> hs[i].id != hs[j].id
  }

  /** No appended id repeats. */
  lemma {:induction false} UnseenDistinct(hs: seq<Hit>, seen: set<string>)
    ensures IdsDistinct(Unseen(hs, seen))
    decreases |hs|
  {
    if hs != [] {
      if hs[0].id in seen {
        UnseenDistinct(hs[1..], seen);
      } else {
        UnseenDistinct(hs[1..], seen + {hs[0].id});
        var r := Unseen(hs, seen);
        assert r[1..] == Unseen(hs[1..], seen + {hs[0].id});
        forall j | 0 < j < |r|
          ensures r[0].id != r[j].id
        {
          assert r[j] in Unseen(hs[1..], seen + {hs[0].id});
        }
      }
    }
  }

  /** Every general hit with a new id is kept. */
  lemma {:induction false} UnseenComplete(hs: seq<Hit>, seen: set<string>, h: Hit)
    requires h in hs && h.id !in seen
    ensures exists g :: g in Unseen(hs, seen) && g.id == h.id
    decreases |hs|
  {
    if hs[0] != h {
      if hs[0].id in seen {
        UnseenComplete(hs[1..], seen, h);
      } else if hs[0].id != h.id {
        UnseenComplete(hs[1..], seen + {hs[0].id}, h);
      }
    }
  }

  /** The two-pass answer lists the company-information hits first, then only
      non-terms general hits, never repeating an id of either list. */
  lemma TwoPassShape(priority: seq<Hit>, general: seq<Hit>)
    ensures |TwoPass(priority, general)| <= 8
    ensures TwoPass(priority, general) == Take(priority, 8) + TwoPass(priority, general)[Min(8, |priority|)..]
    ensures forall h :: h in TwoPass(priority, general)[Min(8, |priority|)..] ==>
      h in general && !IsTermsSource(SourceOf(h)) && h.id !in Ids(priority)
    ensures IdsDistinct(TwoPass(priority, general)[Min(8, |priority|)..])
  {
    var u := Unseen(Keep(general, false), Ids(priority));
    UnseenDistinct(Keep(general, false), Ids(priority));
    var r := TwoPass(priority, general);
    var k := Min(8, |priority|);
    var tail := r[k..];
    assert tail == u[..|r| - k];
    forall h | h in tail
      ensures h in general && !IsTermsSource(SourceOf(h)) && h.id !in Ids(priority)
    {
      assert h in u;
    }
    forall i, j | 0 <= i < j < |tail|
      ensures tail[i].id != tail[j].id
    {
      assert tail[i] == u[i] && tail[j] == u[j];
    }
  }

  /** One hit of that loop: a new id moves the hit to the answer and marks the id seen. */
  lemma UnseenStep(done: seq<Hit>, hs: seq<Hit>, i: nat, seen: set<string>)
    requires i < |hs|
    ensures hs[i].id in seen ==> done + Unseen(hs[i..], seen) == done + Unseen(hs[i + 1..], seen)
    ensures hs[i].id !in seen ==> done + Unseen(hs[i..], seen) == (done + [hs[i]]) + Unseen(hs[i + 1..], seen + {hs[i].id})
  {
    assert hs[i..][0] == hs[i] && hs[i..][1..] == hs[i + 1..];
  }

  /** `_catalog_two_pass_search`: the loop that appends unseen general hits
      and records their ids. */
  method CatalogTwoPassSearch(search: Search, q: string) returns (r: seq<Hit>)
    ensures r == TwoPass(search(q, 5, Some(Where("source", CompanyInfoSource))), search(q, 10, None))
  {
    var priority := search(q, 5, Some(Where("source", CompanyInfoSource)));
    ghost var first := priority;
    var general := Keep(search(q, 10, None), false);
    var seen := Ids(priority);
    for i := 0 to |general|
      invariant priority + Unseen(general[i..], seen) == first + Unseen(general, Ids(first))
    {
      var d := general[i];
      UnseenStep(priority, general, i, seen);
      if d.id !in seen {
        priority := priority + [d];
        seen := seen + {d.id};
      }
    }
    r := Take(priority, 8);
  }

  /** `rag_product_info_query_engine`. */
  method ProductInfoQueryEngine(query: string, productCode: string, search: Search) returns (a: RagAnswer)
    ensures a.queryUsed == ProductQuery(query, productCode)
    ensures a.total == |a.documents|
    ensures productCode == [] && IsCatalogQuery(query) ==>
      a == Answer(TwoPass(search(a.queryUsed, 5, Some(Where("source", CompanyInfoSource))),
                          search(a.queryUsed, 10, None)), a.queryUsed)
    ensures !(productCode == [] && IsCatalogQuery(query)) ==>
      a == Answer(Take(Keep(search(a.queryUsed, 15, if productCode != [] then Some(Where("product_code", productCode)) else None), false), 5),
                  a.queryUsed)
  {
    var isCatalog := IsCatalogQuery(query) && productCode == [];
    var q := ProductQuery(query, productCode);
    var where: Option<Filter> := None;
    if productCode != [] {
      where := Some(Where("product_code", productCode));
    }
    var docs: seq<Hit>;
    if isCatalog {
      docs := CatalogTwoPassSearch(search, q);
    } else {
      docs := Take(Keep(search(q, 15, where), false), 5);
    }
    a := Answer(docs, q);
  }

  /** A product-information answer never holds a terms document outside the
      company-information pass, and holds at most eight documents (five off
      the catalogue path). */
  lemma ProductInfoBounds(query: string, productCode: string, search: Search)
    ensures var q := ProductQuery(query, productCode);
      var w := if productCode != [] then Some(Where("product_code", productCode)) else None;
      var docs := Take(Keep(search(q, 15, w), false), 5);
      |docs| <= 5 && forall h :: h in docs ==> !IsTermsSource(SourceOf(h))
  {
    var q := ProductQuery(query, productCode);
    var w := if productCode != [] then Some(Where("product_code", productCode)) else None;
    var kept := Keep(search(q, 15, w), false);
    forall h | h in Take(kept, 5)
      ensures !IsTermsSource(SourceOf(h))
    {
      assert h in kept;
    }
  }
}
