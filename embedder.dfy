/** The tool retrieval index (app/tool_search/embedder.py): the documents
    derived from each tool, the version hash that makes re-indexing
    idempotent, the upsert-then-delete re-index, removal of one tool, and the
    top-k search that aggregates document scores per tool.

    The vector store is a map from document id to text and metadata. The
    store's similarity query is an oracle: given how many results to fetch,
    it returns the hits with their scores (1 - cosine distance). */
module ToolIndex {
  import opened Util
  import opened ToolCards
  import opened Registry

  const IdPrefix: string := "tool_"
  const SpecVersionId: string := "__spec_version__"
  const SchemaVersion: string := "mv1"

  function ToolId(name: string): string { IdPrefix + name }
  function UseId(name: string, i: nat): string { IdPrefix + name + "__use_" + NatToString(i) }
  function TagsId(name: string): string { IdPrefix + name + "__tags" }

  /** A (doc_id, text) pair. */
  datatype Doc = Doc(id: string, text: string)

  /** `_tool_documents`: without a card, the description under `tool_<name>`;
      with one, the purpose, one document per positive example and one for
      the tags when there are tags. */
  function ToolDocuments(reg: CardRegistry, t: Tool): (r: seq<Doc>)
    requires ToolCards.Valid(reg)
    ensures t.name !in reg.values ==> r == [Doc(ToolId(t.name), t.description)]
    ensures t.name in reg.values ==>
      var c := reg.values[t.name];
      && |r| == 1 + |c.whenToUse| + (if c.tags == [] then 0 else 1)
      && r[0] == Doc(ToolId(t.name), c.purpose)
      && (forall i :: 0 <= i < |c.whenToUse| ==> r[1 + i] == Doc(UseId(t.name, i), c.whenToUse[i]))
      && (c.tags != [] ==> r[|r| - 1] == Doc(TagsId(t.name), Join(" ", c.tags)))
  {
    match GetCard(reg, t.name)
    case None => [Doc(ToolId(t.name), t.description)]
    case Some(c) =>
      var head := [Doc(ToolId(t.name), c.purpose)];
      var uses := UseDocs(t.name, c.whenToUse);
      var tags := if c.tags == [] then [] else [Doc(TagsId(t.name), Join(" ", c.tags))];
      var r := head + uses + tags;
      DocsLayout(head[0], uses, tags, r);
      r
  }

  /** One document per positive example, numbered from 0. */
  function UseDocs(n: string, examples: seq<string>): (u: seq<Doc>)
    ensures |u| == |examples|
    ensures forall i :: 0 <= i < |examples| ==> u[i] == Doc(UseId(n, i), examples[i])
  {
    seq(|examples|, i requires 0 <= i < |examples| => Doc(UseId(n, i), examples[i]))
  }

  lemma DocsLayout(head: Doc, uses: seq<Doc>, tags: seq<Doc>, r: seq<Doc>)
    requires r == [head] + uses + tags
    ensures |r| == 1 + |uses| + |tags| && r[0] == head
    ensures forall i :: 0 <= i < |uses| ==> r[1 + i] == uses[i]
    ensures tags != [] ==> r[|r| - 1] == tags[|tags| - 1]
  {
    forall i | 0 <= i < |uses| ensures r[1 + i] == uses[i] {
    }
  }

  /** `id` belongs to tool `name`: the exact purpose id or the `tool_<name>__`
      prefix (what `remove_tool` deletes). */
  predicate OwnedBy(id: string, name: string) {
    id == ToolId(name) || StartsWith(id, ToolId(name) + "__")
  }

  lemma PrefixCancel(p: string, a: string, b: string)
    requires p + a == p + b
    ensures a == b
  {
    assert a == (p + a)[|p|..];
    assert b == (p + b)[|p|..];
  }

  lemma UseIdsDistinct(n: string, i: nat, j: nat)
    requires i != j
    ensures UseId(n, i) != UseId(n, j)
  {
    var p := IdPrefix + n + "__use_";
    if UseId(n, i) == UseId(n, j) {
      assert UseId(n, i) == p + NatToString(i) && UseId(n, j) == p + NatToString(j);
      PrefixCancel(p, NatToString(i), NatToString(j));
      NatToStringInjective(i, j);
    }
  }

  lemma UseIdNotTagsId(n: string, i: nat)
    ensures UseId(n, i) != TagsId(n)
  {
    var base := ToolId(n) + "__";
    var k := |base|;
    assert UseId(n, i) == base + ("use_" + NatToString(i));
    assert TagsId(n) == base + "tags";
    assert UseId(n, i)[k] == 'u' && TagsId(n)[k] == 't';
  }

  lemma IdsOwned(n: string, i: nat)
    ensures OwnedBy(ToolId(n), n) && StartsWith(ToolId(n), IdPrefix)
    ensures OwnedBy(UseId(n, i), n) && StartsWith(UseId(n, i), IdPrefix)
    ensures OwnedBy(TagsId(n), n) && StartsWith(TagsId(n), IdPrefix)
    ensures |ToolId(n)| < |UseId(n, i)| && |ToolId(n)| < |TagsId(n)|
  {
    var base := ToolId(n) + "__";
    assert UseId(n, i) == base + ("use_" + NatToString(i));
    assert TagsId(n) == base + "tags";
  }

  /** The document ids of one tool are pairwise distinct, and all of them are
      owned by that tool. */
  lemma ToolDocumentIds(reg: CardRegistry, t: Tool)
    requires ToolCards.Valid(reg)
    ensures var r := ToolDocuments(reg, t);
      && (forall i, j :: 0 <= i < j < |r| ==> r[i].id != r[j].id)
      && (forall i :: 0 <= i < |r| ==> OwnedBy(r[i].id, t.name) && StartsWith(r[i].id, IdPrefix))
  {
    DocIdsOwned(reg, t);
    DocIdsDistinct(reg, t);
  }

  lemma DocIdsOwned(reg: CardRegistry, t: Tool)
    requires ToolCards.Valid(reg)
    ensures var r := ToolDocuments(reg, t);
      forall i :: 0 <= i < |r| ==> OwnedBy(r[i].id, t.name) && StartsWith(r[i].id, IdPrefix)
  {
    var r := ToolDocuments(reg, t);
    var n := t.name;
    if n in reg.values {
      var w := |reg.values[n].whenToUse|;
      DocIdsAt(reg, t);
      forall i | 0 <= i < |r| ensures OwnedBy(r[i].id, n) && StartsWith(r[i].id, IdPrefix) {
        DocIdAtOwned(n, w, i, r[i].id);
      }
    } else {
      IdsOwned(n, 0);
    }
  }

  lemma DocIdAtOwned(n: string, w: nat, i: nat, id: string)
    requires id == DocIdAt(n, w, i)
    ensures OwnedBy(id, n) && StartsWith(id, IdPrefix)
  {
    IdsOwned(n, if i == 0 then 0 else i - 1);
  }

  /** The id of the `i`-th document of a carded tool with `w` examples. */
  function DocIdAt(n: string, w: nat, i: nat): string {
    if i == 0 then ToolId(n) else if i <= w then UseId(n, i - 1) else TagsId(n)
  }

  lemma DocIdAtDistinct(n: string, w: nat, i: nat, j: nat)
    requires i < j <= w + 1
    ensures DocIdAt(n, w, i) != DocIdAt(n, w, j)
  {
    if i == 0 {
      IdsOwned(n, j - 1);
    } else if j <= w {
      UseIdsDistinct(n, i - 1, j - 1);
    } else {
      UseIdNotTagsId(n, i - 1);
    }
  }

  lemma DocIdsAt(reg: CardRegistry, t: Tool)
    requires ToolCards.Valid(reg) && t.name in reg.values
    ensures var r := ToolDocuments(reg, t);
      var w := |reg.values[t.name].whenToUse|;
      |r| <= w + 2 && forall i :: 0 <= i < |r| ==> r[i].id == DocIdAt(t.name, w, i)
  {
    var r := ToolDocuments(reg, t);
    var w := |reg.values[t.name].whenToUse|;
    forall i | 0 <= i < |r| ensures r[i].id == DocIdAt(t.name, w, i) {
      if 1 <= i <= w {
        assert r[1 + (i - 1)].id == UseId(t.name, i - 1);
      }
    }
  }

  lemma DocIdsDistinct(reg: CardRegistry, t: Tool)
    requires ToolCards.Valid(reg)
    ensures var r := ToolDocuments(reg, t);
      forall i, j :: 0 <= i < j < |r| ==> r[i].id != r[j].id
  {
    var r := ToolDocuments(reg, t);
    if t.name in reg.values {
      var w := |reg.values[t.name].whenToUse|;
      DocIdsAt(reg, t);
      forall i, j | 0 <= i < j < |r| ensures r[i].id != r[j].id {
        DocIdAtDistinct(t.name, w, i, j);
      }
    }
  }

  /** What gets embedded for a tool: its card's text, else its description. */
  function EmbedSource(reg: CardRegistry, t: Tool): string
    requires ToolCards.Valid(reg)
  {
    if t.name in reg.values then EmbedText(reg.values[t.name]) else t.description
  }

  // ---- ordering tools by name (Python string comparison) ----

  /** `a.name <= b.name`. */
  predicate NameLeq(a: Tool, b: Tool) {
    !LexLess(b.name, a.name)
  }

  ghost predicate SortedByName(s: seq<Tool>) {
    forall i, j :: 0 <= i < j < |s| ==> NameLeq(s[i], s[j])
  }

  ghost predicate NamesDistinct(s: seq<Tool>) {
    forall i, j :: 0 <= i < j < |s| ==> s[i].name != s[j].name
  }

  /** Inserts `x` before the first element whose name is not smaller, so an
      earlier element stays before an equal one (a stable sort). */
  function InsertByName(x: Tool, s: seq<Tool>): (r: seq<Tool>)
    ensures multiset(r) == multiset(s) + multiset{x}
  {
    if s == [] || NameLeq(x, s[0]) then [x] + s
    else
      var r := [s[0]] + InsertByName(x, s[1..]);
      assert s == [s[0]] + s[1..];
      r
  }

  /** `sorted(tools, key=lambda x: x.name)`. */
  function SortByName(s: seq<Tool>): (r: seq<Tool>)
    ensures multiset(r) == multiset(s)
  {
    if s == [] then []
    else
      var r := InsertByName(s[0], SortByName(s[1..]));
      assert s == [s[0]] + s[1..];
      r
  }

  lemma {:induction false} InsertByNameDistinct(x: Tool, s: seq<Tool>)
    requires NamesDistinct(s) && forall y :: y in s ==> y.name != x.name
    ensures NamesDistinct(InsertByName(x, s))
  {
    if s != [] && !NameLeq(x, s[0]) {
      InsertByNameDistinct(x, s[1..]);
      var t := InsertByName(x, s[1..]);
      forall j | 0 <= j < |t| ensures s[0].name != t[j].name {
        assert t[j] in multiset(t);
        if t[j] != x {
          var k :| 0 <= k < |s[1..]| && s[1..][k] == t[j];
          assert s[1 + k] == t[j];
        }
      }
    }
  }

  lemma {:induction false} SortByNameDistinct(s: seq<Tool>)
    requires NamesDistinct(s)
    ensures NamesDistinct(SortByName(s))
  {
    if s != [] {
      SortByNameDistinct(s[1..]);
      var t := SortByName(s[1..]);
      forall y | y in t ensures y.name != s[0].name {
        assert y in multiset(s[1..]);
        var k :| 0 <= k < |s[1..]| && s[1..][k] == y;
        assert s[1 + k] == y;
      }
      InsertByNameDistinct(s[0], t);
    }
  }

  lemma {:induction false} NameLeqTransitive(a: Tool, b: Tool, c: Tool)
    requires NameLeq(a, b) && NameLeq(b, c)
    ensures NameLeq(a, c)
  {
    if LexLess(c.name, a.name) {
      if a.name == b.name {
      } else if b.name == c.name {
      } else {
        LexTotal(a.name, b.name);
        LexTotal(b.name, c.name);
        LexTransitive(a.name, b.name, c.name);
        LexAsymmetric(a.name, c.name);
      }
    }
  }

  lemma {:induction false} InsertByNameSorted(x: Tool, s: seq<Tool>)
    requires SortedByName(s)
    ensures SortedByName(InsertByName(x, s))
  {
    var r := InsertByName(x, s);
    if s == [] || NameLeq(x, s[0]) {
      forall j | 1 <= j < |r| ensures NameLeq(r[0], r[j]) {
        if j > 1 {
          NameLeqTransitive(x, s[0], s[j - 1]);
        }
      }
    } else {
      InsertByNameSorted(x, s[1..]);
      var t := InsertByName(x, s[1..]);
      LexAsymmetric(s[0].name, x.name);
      forall j | 0 <= j < |t| ensures NameLeq(s[0], t[j]) {
        assert t[j] in multiset(t);
        if t[j] != x {
          var k :| 0 <= k < |s[1..]| && s[1..][k] == t[j];
          assert s[1 + k] == t[j];
        }
      }
    }
  }

  lemma {:induction false} SortByNameSorted(s: seq<Tool>)
    ensures SortedByName(SortByName(s))
  {
    if s != [] {
      SortByNameSorted(s[1..]);
      InsertByNameSorted(s[0], SortByName(s[1..]));
    }
  }

  lemma MultisetTail<T>(x: seq<T>)
    requires x != []
    ensures multiset(x[1..]) == multiset(x) - multiset{x[0]}
  {
    assert x == [x[0]] + x[1..];
  }

  lemma SortedTail(x: seq<Tool>)
    requires x != [] && SortedByName(x) && NamesDistinct(x)
    ensures SortedByName(x[1..]) && NamesDistinct(x[1..])
  {
    forall i, j | 0 <= i < j < |x| - 1 ensures NameLeq(x[1..][i], x[1..][j]) && x[1..][i].name != x[1..][j].name {
      assert x[1..][i] == x[i + 1] && x[1..][j] == x[j + 1];
    }
  }

  /** The heads of two such lists agree: each is the least name of both. */
  lemma SortedHead(x: seq<Tool>, y: seq<Tool>)
    requires x != [] && SortedByName(x) && NamesDistinct(x)
    requires SortedByName(y) && multiset(x) == multiset(y)
    ensures y != [] && x[0] == y[0]
  {
    assert x[0] in multiset(y);
    assert y[0] in multiset(x);
    var k :| 0 <= k < |y| && y[k] == x[0];
    var j :| 0 <= j < |x| && x[j] == y[0];
    if x[0] != y[0] {
      // y[0] <= y[k] = x[0] <= x[j] = y[0], yet the names differ
      assert NameLeq(y[0], x[0]) && NameLeq(x[0], y[0]);
      assert x[0].name != x[j].name;
      LexTotal(x[0].name, y[0].name);
      assert false;
    }
  }

  /** Two name-sorted lists without repeated names that hold the same tools
      are the same list. */
  lemma {:induction false} SortedUnique(x: seq<Tool>, y: seq<Tool>)
    requires SortedByName(x) && NamesDistinct(x)
    requires SortedByName(y) && NamesDistinct(y)
    requires multiset(x) == multiset(y)
    ensures x == y
  {
    if x == [] {
      assert |multiset(y)| == 0;
    } else {
      SortedHead(x, y);
      MultisetTail(x);
      MultisetTail(y);
      SortedTail(x);
      SortedTail(y);
      SortedUnique(x[1..], y[1..]);
      assert x == [x[0]] + x[1..] && y == [y[0]] + y[1..];
    }
  }

  /** The text hashed by `_compute_tools_hash`, before hashing. */
  function HashContent(reg: CardRegistry, tools: seq<Tool>): string
    requires ToolCards.Valid(reg)
  {
    var sorted := SortByName(tools);
    "schema:" + SchemaVersion + "|"
      + Join("|", seq(|sorted|, i requires 0 <= i < |sorted| => sorted[i].name + ":" + EmbedSource(reg, sorted[i])))
  }

  /** `_compute_tools_hash`; `digest` stands for the first 16 hex digits of
      SHA-256. */
  function ToolsHash(reg: CardRegistry, tools: seq<Tool>, digest: string -> string): string
    requires ToolCards.Valid(reg)
  {
    digest(HashContent(reg, tools))
  }

  /** The hash does not depend on the order the tools are listed in. */
  lemma HashIgnoresOrder(reg: CardRegistry, a: seq<Tool>, b: seq<Tool>)
    requires ToolCards.Valid(reg)
    requires NamesDistinct(a) && NamesDistinct(b) && multiset(a) == multiset(b)
    ensures HashContent(reg, a) == HashContent(reg, b)
  {
    SortByNameSorted(a);
    SortByNameSorted(b);
    SortByNameDistinct(a);
    SortByNameDistinct(b);
    SortedUnique(SortByName(a), SortByName(b));
  }

  // ---- the collection ----

  datatype Meta = ToolMeta(toolName: string, hasCard: bool) | VersionMeta(specVersion: string)
  datatype Stored = Stored(text: string, meta: Meta)
  datatype Entry = Entry(id: string, doc: Stored)

  /** One write to the store, recorded in the order it is made. */
  datatype StoreWrite = Upserted(ids: seq<string>) | Deleted(deleted: set<string>)

  /** The entries one tool contributes, with their metadata. */
  function ToolEntries(reg: CardRegistry, t: Tool): (r: seq<Entry>)
    requires ToolCards.Valid(reg)
    ensures |r| == |ToolDocuments(reg, t)|
  {
    var docs := ToolDocuments(reg, t);
    seq(|docs|, i requires 0 <= i < |docs| => Entry(docs[i].id, Stored(docs[i].text, ToolMeta(t.name, t.name in reg.values))))
  }

  /** All entries of a re-index, tool by tool in list order. */
  function IndexEntries(reg: CardRegistry, tools: seq<Tool>): seq<Entry>
    requires ToolCards.Valid(reg)
    decreases |tools|
  {
    if tools == [] then []
    else IndexEntries(reg, tools[..|tools| - 1]) + ToolEntries(reg, tools[|tools| - 1])
  }

  function EntryIds(es: seq<Entry>): (r: seq<string>)
    ensures |r| == |es| && forall i :: 0 <= i < |es| ==> r[i] == es[i].id
  {
    seq(|es|, i requires 0 <= i < |es| => es[i].id)
  }

  function IdSet(es: seq<Entry>): set<string> {
    set i | 0 <= i < |es| :: es[i].id
  }

  lemma IndexEntriesStep(reg: CardRegistry, tools: seq<Tool>, i: nat)
    requires ToolCards.Valid(reg) && i < |tools|
    ensures IndexEntries(reg, tools[..i + 1]) == IndexEntries(reg, tools[..i]) + ToolEntries(reg, tools[i])
  {
    assert tools[..i + 1][..i] == tools[..i];
  }

  /** The loop of `_index_tools_impl` that gathers every tool's entries. */
  method CollectEntries(reg: CardRegistry, tools: seq<Tool>) returns (es: seq<Entry>)
    requires ToolCards.Valid(reg)
    ensures es == IndexEntries(reg, tools)
  {
    es := [];
    var i := 0;
    while i < |tools|
      invariant 0 <= i <= |tools|
      invariant es == IndexEntries(reg, tools[..i])
    {
      IndexEntriesStep(reg, tools, i);
      es := es + ToolEntries(reg, tools[i]);
      i := i + 1;
    }
    assert tools[..i] == tools;
  }

  /** Every re-index entry is a `tool_` id. */
  lemma {:induction false} IndexEntriesAreToolIds(reg: CardRegistry, tools: seq<Tool>)
    requires ToolCards.Valid(reg)
    ensures forall id :: id in IdSet(IndexEntries(reg, tools)) ==> StartsWith(id, IdPrefix)
    decreases |tools|
  {
    if tools != [] {
      var t := tools[|tools| - 1];
      IndexEntriesAreToolIds(reg, tools[..|tools| - 1]);
      ToolEntriesAreToolIds(reg, t);
      IdSetAppend(IndexEntries(reg, tools[..|tools| - 1]), ToolEntries(reg, t));
    }
  }

  lemma ToolEntriesAreToolIds(reg: CardRegistry, t: Tool)
    requires ToolCards.Valid(reg)
    ensures forall id :: id in IdSet(ToolEntries(reg, t)) ==> StartsWith(id, IdPrefix)
  {
    DocIdsOwned(reg, t);
    var es := ToolEntries(reg, t);
    forall id | id in IdSet(es) ensures StartsWith(id, IdPrefix) {
      var i :| 0 <= i < |es| && es[i].id == id;
      assert es[i].id == ToolDocuments(reg, t)[i].id;
    }
  }

  lemma IdSetAppend(a: seq<Entry>, b: seq<Entry>)
    ensures IdSet(a + b) == IdSet(a) + IdSet(b)
  {
    forall id | id in IdSet(a + b) ensures id in IdSet(a) + IdSet(b) {
      var i :| 0 <= i < |a + b| && (a + b)[i].id == id;
      if i >= |a| {
        assert b[i - |a|].id == id;
      } else {
        assert a[i].id == id;
      }
    }
    forall id | id in IdSet(a) + IdSet(b) ensures id in IdSet(a + b) {
      if id in IdSet(a) {
        var i :| 0 <= i < |a| && a[i].id == id;
        assert (a + b)[i].id == id;
      } else {
        var i :| 0 <= i < |b| && b[i].id == id;
        assert (a + b)[|a| + i].id == id;
      }
    }
  }

  /** The collection after upserting `es` in order. */
  function UpsertAll(c: map<string, Stored>, es: seq<Entry>): (r: map<string, Stored>)
    ensures r.Keys == c.Keys + IdSet(es)
    ensures forall id :: id in c && id !in IdSet(es) ==> r[id] == c[id]
    decreases |es|
  {
    if es == [] then c
    else
      var last := es[|es| - 1];
      var pre := es[..|es| - 1];
      assert IdSet(es) == IdSet(pre) + {last.id} by {
        assert forall i :: 0 <= i < |pre| ==> pre[i] == es[i];
      }
      UpsertAll(c, pre)[last.id := last.doc]
  }

  /** An entry whose id no later entry reuses is what the store holds. */
  lemma {:induction false} UpsertAllStores(c: map<string, Stored>, es: seq<Entry>, i: nat)
    requires i < |es| && forall j :: i < j < |es| ==> es[j].id != es[i].id
    ensures UpsertAll(c, es)[es[i].id] == es[i].doc
    decreases |es|
  {
    if i < |es| - 1 {
      var pre := es[..|es| - 1];
      assert pre[i] == es[i];
      UpsertAllStores(c, pre, i);
    }
  }

  /** The `tool_` ids in a collection. */
  function ToolIds(c: map<string, Stored>): set<string> {
    set id | id in c && StartsWith(id, IdPrefix)
  }

  function VersionDoc(h: string): Stored {
    Stored("version:" + h, VersionMeta(h))
  }

  /** The collection already carries this version hash. */
  predicate UpToDate(c: map<string, Stored>, h: string) {
    SpecVersionId in c && c[SpecVersionId].meta == VersionMeta(h)
  }

  /** The ids deleted by a re-index: `tool_` ids present after the upsert
      that the new entries do not use. */
  function StaleIds(c: map<string, Stored>, es: seq<Entry>): set<string> {
    ToolIds(UpsertAll(c, es)) - IdSet(es)
  }

  /** The collection after a re-index with entries `es` and hash `h`. */
  function Reindexed(c: map<string, Stored>, es: seq<Entry>, h: string): map<string, Stored> {
    (UpsertAll(c, es) - StaleIds(c, es))[SpecVersionId := VersionDoc(h)]
  }

  /** After a re-index the stored `tool_` ids are exactly the new ids, the
      version marker holds the new hash, no new id is ever deleted, and every
      document that is neither a tool document nor the marker is untouched. */
  lemma ReindexOutcome(c: map<string, Stored>, es: seq<Entry>, h: string)
    requires forall id :: id in IdSet(es) ==> StartsWith(id, IdPrefix)
    ensures ToolIds(Reindexed(c, es, h)) == IdSet(es)
    ensures Reindexed(c, es, h)[SpecVersionId] == VersionDoc(h)
    ensures StaleIds(c, es) * IdSet(es) == {}
    ensures forall id :: id in c && !StartsWith(id, IdPrefix) && id != SpecVersionId ==>
      id in Reindexed(c, es, h) && Reindexed(c, es, h)[id] == c[id]
  {
    var r := Reindexed(c, es, h);
    assert !StartsWith(SpecVersionId, IdPrefix) by {
      assert SpecVersionId[0] != IdPrefix[0];
    }
    forall id | id in IdSet(es) ensures id in ToolIds(r) {
      assert id in UpsertAll(c, es);
    }
  }

  // ---- queries ----


  /** One result of the store's similarity query (filtered to tool
      documents); `score` is the rounded `1 - distance`. */
  datatype Hit = Hit(id: string, toolName: string, score: real, text: string)

  datatype ToolCandidate = ToolCandidate(name: string, score: real, description: string)

  /** Tool names in the order they first appear among the hits (the key
      order of the `best` dict). */
  function HitNames(hits: seq<Hit>): (r: seq<string>)
    ensures Distinct(r)
    decreases |hits|
  {
    if hits == [] then []
    else
      var pre := HitNames(hits[..|hits| - 1]);
      var last := hits[|hits| - 1];
      if last.toolName in pre then pre else pre + [last.toolName]
  }

  /** A name is listed exactly when some hit carries it. */
  lemma {:induction false} HitNamesMembers(hits: seq<Hit>, n: string)
    ensures n in HitNames(hits) <==> exists k :: 0 <= k < |hits| && hits[k].toolName == n
    decreases |hits|
  {
    if hits != [] {
      var pre := hits[..|hits| - 1];
      HitNamesMembers(pre, n);
      assert forall k :: 0 <= k < |pre| ==> pre[k] == hits[k];
    }
  }

  /** `best[name]` after the loop: starts at 0.0 and rises to each strictly
      higher score of that tool. */
  function Best(hits: seq<Hit>, name: string): (r: real)
    ensures r >= 0.0
    decreases |hits|
  {
    if hits == [] then 0.0
    else
      var b := Best(hits[..|hits| - 1], name);
      var h := hits[|hits| - 1];
      if h.toolName == name && h.score > b then h.score else b
  }

  /** `best[name]` is the largest score among the tool's hits, floored at
      0.0 by the defaultdict. */
  lemma {:induction false} BestIsMax(hits: seq<Hit>, name: string)
    ensures forall k :: 0 <= k < |hits| && hits[k].toolName == name ==> hits[k].score <= Best(hits, name)
    ensures Best(hits, name) == 0.0 || exists k :: 0 <= k < |hits| && hits[k].toolName == name && hits[k].score == Best(hits, name)
    decreases |hits|
  {
    if hits != [] {
      var pre := hits[..|hits| - 1];
      BestIsMax(pre, name);
      assert forall k :: 0 <= k < |pre| ==> pre[k] == hits[k];
    }
  }

  /** A tool without hits has the default score. */
  lemma {:induction false} BestAbsent(hits: seq<Hit>, name: string)
    requires name !in HitNames(hits)
    ensures Best(hits, name) == 0.0
    decreases |hits|
  {
    if hits != [] {
      BestAbsent(hits[..|hits| - 1], name);
    }
  }

  /** `best_desc.get(name, "")`: the text of the hit that last raised the
      best score. */
  function BestDesc(hits: seq<Hit>, name: string): string
    decreases |hits|
  {
    if hits == [] then ""
    else
      var pre := hits[..|hits| - 1];
      var h := hits[|hits| - 1];
      if h.toolName == name && h.score > Best(pre, name) then h.text else BestDesc(pre, name)
  }

  /** How one more hit changes the list of names. */
  lemma FoldNames(hits: seq<Hit>, i: nat)
    requires i < |hits|
    ensures HitNames(hits[..i + 1]) ==
      (if hits[i].toolName in HitNames(hits[..i]) then HitNames(hits[..i]) else HitNames(hits[..i]) + [hits[i].toolName])
  {
    assert hits[..i + 1][..i] == hits[..i];
  }

  /** How one more hit changes the best score and its text for a name. */
  lemma FoldBest(hits: seq<Hit>, i: nat, n: string)
    requires i < |hits|
    ensures var p, h := hits[..i], hits[i];
      && Best(hits[..i + 1], n) == (if h.toolName == n && h.score > Best(p, n) then h.score else Best(p, n))
      && BestDesc(hits[..i + 1], n) == (if h.toolName == n && h.score > Best(p, n) then h.text else BestDesc(p, n))
  {
    assert hits[..i + 1][..i] == hits[..i];
  }

  // ---- the invariants of the `best` / `best_desc` loop of `search` ----

  /** The keys of `best` are the names listed so far. */
  ghost predicate KeysListed(names: seq<string>, best: map<string, real>) {
    forall n :: n in best <==> n in names
  }

  /** `best` holds each listed tool's best score over the hits `p`. */
  ghost predicate BestSoFar(p: seq<Hit>, best: map<string, real>) {
    forall n :: n in best ==> best[n] == Best(p, n)
  }

  /** `best_desc.get(name, "")` is each tool's best text over the hits `p`. */
  ghost predicate DescSoFar(p: seq<Hit>, desc: map<string, string>) {
    forall n :: (n in desc ==> desc[n] == BestDesc(p, n)) && (n !in desc ==> BestDesc(p, n) == "")
  }

  /** Reading the defaultdict for a new tool lists it with score 0.0. */
  lemma TallyInsert(hits: seq<Hit>, i: nat, names: seq<string>, best: map<string, real>)
    requires i < |hits| && hits[i].toolName !in best
    requires names == HitNames(hits[..i]) && KeysListed(names, best) && BestSoFar(hits[..i], best)
    ensures names + [hits[i].toolName] == HitNames(hits[..i + 1])
    ensures KeysListed(names + [hits[i].toolName], best[hits[i].toolName := 0.0])
    ensures BestSoFar(hits[..i], best[hits[i].toolName := 0.0])
  {
    FoldNames(hits, i);
    BestAbsent(hits[..i], hits[i].toolName);
  }

  /** A tool already listed keeps the list as it is. */
  lemma TallyKnown(hits: seq<Hit>, i: nat, names: seq<string>, best: map<string, real>)
    requires i < |hits| && hits[i].toolName in best
    requires names == HitNames(hits[..i]) && KeysListed(names, best)
    ensures names == HitNames(hits[..i + 1])
  {
    FoldNames(hits, i);
  }

  /** How one turn updates the scores and texts, once the tool is listed. */
  lemma TallyScores(hits: seq<Hit>, i: nat, b0: map<string, real>, desc: map<string, string>,
                    best': map<string, real>, desc': map<string, string>)
    requires i < |hits| && hits[i].toolName in b0
    requires BestSoFar(hits[..i], b0) && DescSoFar(hits[..i], desc)
    requires var n := hits[i].toolName;
      && best' == (if hits[i].score > b0[n] then b0[n := hits[i].score] else b0)
      && desc' == (if hits[i].score > b0[n] then desc[n := hits[i].text] else desc)
    ensures best'.Keys == b0.Keys
    ensures BestSoFar(hits[..i + 1], best') && DescSoFar(hits[..i + 1], desc')
  {
    forall n | n in best' ensures best'[n] == Best(hits[..i + 1], n) {
      FoldBest(hits, i, n);
    }
    forall n ensures (n in desc' ==> desc'[n] == BestDesc(hits[..i + 1], n)) && (n !in desc' ==> BestDesc(hits[..i + 1], n) == "") {
      FoldBest(hits, i, n);
    }
  }

  /** After the loop, the candidates built from the maps are the aggregate. */
  lemma TallyDone(hits: seq<Hit>, names: seq<string>, best: map<string, real>, desc: map<string, string>, r: seq<ToolCandidate>)
    requires names == HitNames(hits) && KeysListed(names, best) && BestSoFar(hits, best) && DescSoFar(hits, desc)
    requires |r| == |names|
    requires forall j :: 0 <= j < |names| ==>
      r[j] == ToolCandidate(names[j], best[names[j]], if names[j] in desc then desc[names[j]] else "")
    ensures r == Aggregate(hits)
  {
    var a := Aggregate(hits);
    forall j | 0 <= j < |r| ensures r[j] == a[j] {
      assert names[j] in best;
    }
  }

  /** One candidate per tool among the hits, in first-hit order. */
  function Aggregate(hits: seq<Hit>): (r: seq<ToolCandidate>)
    ensures |r| == |HitNames(hits)|
    ensures forall i :: 0 <= i < |r| ==> r[i].name == HitNames(hits)[i] && r[i].score == Best(hits, r[i].name)
  {
    var names := HitNames(hits);
    seq(|names|, i requires 0 <= i < |names| => ToolCandidate(names[i], Best(hits, names[i]), BestDesc(hits, names[i])))
  }

  predicate SortedDesc(s: seq<ToolCandidate>) {
    forall i, j :: 0 <= i < j < |s| ==> s[i].score >= s[j].score
  }

  predicate NamesUnique(s: seq<ToolCandidate>) {
    forall i, j :: 0 <= i < j < |s| ==> s[i].name != s[j].name
  }

  /** Stable insertion by descending score. */
  function InsertDesc(c: ToolCandidate, s: seq<ToolCandidate>): (r: seq<ToolCandidate>)
    ensures multiset(r) == multiset(s) + multiset{c}
  {
    if s == [] || c.score >= s[0].score then [c] + s
    else
      assert s == [s[0]] + s[1..];
      [s[0]] + InsertDesc(c, s[1..])
  }

  /** `candidates.sort(key=score, reverse=True)`. */
  function SortDesc(s: seq<ToolCandidate>): (r: seq<ToolCandidate>)
    ensures multiset(r) == multiset(s)
  {
    if s == [] then []
    else
      assert s == [s[0]] + s[1..];
      InsertDesc(s[0], SortDesc(s[1..]))
  }

  lemma {:induction false} InsertDescSorted(c: ToolCandidate, s: seq<ToolCandidate>)
    requires SortedDesc(s)
    ensures SortedDesc(InsertDesc(c, s))
  {
    if s != [] && c.score < s[0].score {
      InsertDescSorted(c, s[1..]);
      var t := InsertDesc(c, s[1..]);
      forall j | 0 <= j < |t| ensures s[0].score >= t[j].score {
        assert t[j] in multiset(t);
        if t[j] != c {
          var k :| 0 <= k < |s[1..]| && s[1..][k] == t[j];
          assert s[1 + k] == t[j];
        }
      }
    }
  }

  lemma {:induction false} SortDescSorted(s: seq<ToolCandidate>)
    ensures SortedDesc(SortDesc(s))
  {
    if s != [] {
      SortDescSorted(s[1..]);
      InsertDescSorted(s[0], SortDesc(s[1..]));
    }
  }

  lemma {:induction false} InsertDescUnique(c: ToolCandidate, s: seq<ToolCandidate>)
    requires NamesUnique(s) && forall y :: y in s ==> y.name != c.name
    ensures NamesUnique(InsertDesc(c, s))
  {
    if s != [] && c.score < s[0].score {
      InsertDescUnique(c, s[1..]);
      var t := InsertDesc(c, s[1..]);
      forall j | 0 <= j < |t| ensures s[0].name != t[j].name {
        assert t[j] in multiset(t);
        if t[j] != c {
          var k :| 0 <= k < |s[1..]| && s[1..][k] == t[j];
          assert s[1 + k] == t[j];
        }
      }
    }
  }

  lemma {:induction false} SortDescUnique(s: seq<ToolCandidate>)
    requires NamesUnique(s)
    ensures NamesUnique(SortDesc(s))
  {
    if s != [] {
      SortDescUnique(s[1..]);
      var t := SortDesc(s[1..]);
      forall y | y in t ensures y.name != s[0].name {
        assert y in multiset(s[1..]);
        var k :| 0 <= k < |s[1..]| && s[1..][k] == y;
        assert s[1 + k] == y;
      }
      InsertDescUnique(s[0], t);
    }
  }

  /** The answer to a query whose store hits are `hits`. */
  function RankTools(hits: seq<Hit>, k: nat): seq<ToolCandidate> {
    var sorted := SortDesc(Aggregate(hits));
    sorted[..Min(k, |sorted|)]
  }

  /** Every returned tool was hit and carries its best score. */
  lemma RankToolsScores(hits: seq<Hit>, k: nat)
    ensures var r := RankTools(hits, k);
      && |r| == Min(k, |HitNames(hits)|)
      && forall i :: 0 <= i < |r| ==> r[i].score == Best(hits, r[i].name) && r[i].name in HitNames(hits)
  {
    var agg := Aggregate(hits);
    var sorted := SortDesc(agg);
    var r := RankTools(hits, k);
    assert |sorted| == |multiset(sorted)| == |agg|;
    forall i | 0 <= i < |r| ensures r[i].score == Best(hits, r[i].name) && r[i].name in HitNames(hits) {
      assert r[i] == sorted[i];
      assert sorted[i] in multiset(agg);
      var a :| 0 <= a < |agg| && agg[a] == r[i];
    }
  }

  /** The returned tools are distinct and best first. */
  lemma RankToolsOrdered(hits: seq<Hit>, k: nat)
    ensures var r := RankTools(hits, k);
      && SortedDesc(r)
      && NamesUnique(r)
  {
    var agg := Aggregate(hits);
    SortDescSorted(agg);
    SortDescUnique(agg);
  }

  /** A tool that was hit but not returned scores no higher than any tool
      that was returned. */
  lemma RankToolsTopK(hits: seq<Hit>, k: nat, n: string)
    requires n in HitNames(hits)
    requires forall i :: 0 <= i < |RankTools(hits, k)| ==> RankTools(hits, k)[i].name != n
    ensures forall i :: 0 <= i < |RankTools(hits, k)| ==> RankTools(hits, k)[i].score >= Best(hits, n)
  {
    var names := HitNames(hits);
    var agg := Aggregate(hits);
    var sorted := SortDesc(agg);
    var m := Min(k, |sorted|);
    SortDescSorted(agg);
    var a :| 0 <= a < |names| && names[a] == n;
    var c := agg[a];
    assert c in multiset(sorted);
    var p :| 0 <= p < |sorted| && sorted[p] == c;
    var r := RankTools(hits, k);
    assert r == sorted[..m];
    forall i | 0 <= i < m ensures sorted[i].name != n {
      assert r[i] == sorted[i];
    }
    assert sorted[p].name == n;
    SortedPrefixDominates(sorted, m, p);
  }

  /** In a list sorted by descending score, the first `m` entries score at
      least as high as any entry from position `m` on. */
  lemma SortedPrefixDominates(sorted: seq<ToolCandidate>, m: nat, p: nat)
    requires SortedDesc(sorted) && m <= p < |sorted|
    ensures forall i :: 0 <= i < |sorted[..m]| ==> sorted[..m][i].score >= sorted[p].score
  {
  }

  /** How many results the search asks the store for. */
  function FetchCount(k: nat, count: nat): nat {
    Min(k * 5, count)
  }

  class ToolEmbeddingSearch {
    var collection: map<string, Stored>
    /** Every write made to the store, in order. */
    var writes: seq<StoreWrite>
    const defaultTopK: nat

    constructor (topK: nat)
      ensures collection == map[] && writes == [] && defaultTopK == topK
    {
      collection := map[];
      writes := [];
      defaultTopK := topK;
    }

    /** `index_tools` (with `_index_tools_impl`): nothing happens for an empty
        list or when the stored version already equals the new hash;
        otherwise all new documents are upserted first, then exactly the
        stale `tool_` ids are deleted, then the version marker is written. */
    method IndexTools(reg: CardRegistry, tools: seq<Tool>, digest: string -> string)
      requires ToolCards.Valid(reg)
      modifies this
      ensures tools == [] || UpToDate(old(collection), ToolsHash(reg, tools, digest)) ==>
        collection == old(collection) && writes == old(writes)
      ensures tools != [] && !UpToDate(old(collection), ToolsHash(reg, tools, digest)) ==>
        var es := IndexEntries(reg, tools);
        var stale := StaleIds(old(collection), es);
        && collection == Reindexed(old(collection), es, ToolsHash(reg, tools, digest))
        && writes == old(writes) + [Upserted(EntryIds(es))]
                     + (if stale == {} then [] else [Deleted(stale)])
                     + [Upserted([SpecVersionId])]
    {
      if tools == [] {
        return;
      }
      var h := ToolsHash(reg, tools, digest);
      if SpecVersionId in collection && collection[SpecVersionId].meta == VersionMeta(h) {
        return;
      }
      var es := CollectEntries(reg, tools);
      var upserted := UpsertAll(collection, es);
      var stale := ToolIds(upserted) - IdSet(es);
      collection := (upserted - stale)[SpecVersionId := VersionDoc(h)];
      writes := writes + [Upserted(EntryIds(es))] + (if stale == {} then [] else [Deleted(stale)]) + [Upserted([SpecVersionId])];
    }

    /** `remove_tool(name)`: deletes exactly the documents owned by the tool. */
    method RemoveTool(name: string)
      modifies this
      ensures collection == old(collection) - OwnedIds(old(collection), name)
      ensures writes == old(writes) + (if OwnedIds(old(collection), name) == {} then []
                                       else [Deleted(OwnedIds(old(collection), name))])
    {
      var doomed := OwnedIds(collection, name);
      if doomed != {} {
        collection := collection - doomed;
        writes := writes + [Deleted(doomed)];
      }
    }

    /** `search(query, top_k)`: `query` is the store's answer for a given
        number of results. An empty collection answers nothing. */
    method Search(topK: nat, query: nat -> seq<Hit>) returns (r: seq<ToolCandidate>)
      ensures var k := if topK == 0 then defaultTopK else topK;
        r == if |collection| == 0 then [] else RankTools(query(FetchCount(k, |collection|)), k)
    {
      var k := if topK == 0 then defaultTopK else topK;
      var count := |collection|;
      if count == 0 {
        return [];
      }
      var hits := query(FetchCount(k, count));
      var candidates := AggregateHits(hits);
      var sorted := SortDesc(candidates);
      r := sorted[..Min(k, |sorted|)];
    }

    /** The `best` / `best_desc` loop of `search`, turned into candidates. */
    static method AggregateHits(hits: seq<Hit>) returns (candidates: seq<ToolCandidate>)
      ensures candidates == Aggregate(hits)
    {
      var names: seq<string> := [];
      var best: map<string, real> := map[];
      var desc: map<string, string> := map[];
      var i := 0;
      while i < |hits|
        invariant 0 <= i <= |hits|
        invariant names == HitNames(hits[..i]) && KeysListed(names, best)
        invariant BestSoFar(hits[..i], best) && DescSoFar(hits[..i], desc)
      {
        var h := hits[i];
        if h.toolName !in best {
          // reading the defaultdict inserts the key with 0.0
          TallyInsert(hits, i, names, best);
          best := best[h.toolName := 0.0];
          names := names + [h.toolName];
        } else {
          TallyKnown(hits, i, names, best);
        }
        ghost var b0, desc0 := best, desc;
        if h.score > best[h.toolName] {
          best := best[h.toolName := h.score];
          desc := desc[h.toolName := h.text];
        }
        TallyScores(hits, i, b0, desc0, best, desc);
        assert KeysListed(names, best);
        ghost var next := hits[..i + 1];
        assert BestSoFar(next, best) && DescSoFar(next, desc) && names == HitNames(next);
        i := i + 1;
      }
      assert hits[..i] == hits;
      candidates := seq(|names|, j requires 0 <= j < |names| =>
        ToolCandidate(names[j], best[names[j]], if names[j] in desc then desc[names[j]] else ""));
      TallyDone(hits, names, best, desc, candidates);
    }
  }

  /** The ids `remove_tool(name)` deletes. */
  function OwnedIds(c: map<string, Stored>, name: string): set<string> {
    set id | id in c && OwnedBy(id, name)
  }

  /** Removing a tool removes every document indexing wrote for it. */
  lemma RemoveCoversIndexedDocs(reg: CardRegistry, t: Tool, c: map<string, Stored>)
    requires ToolCards.Valid(reg)
    ensures forall d :: d in ToolDocuments(reg, t) && d.id in c ==> d.id in OwnedIds(c, t.name)
  {
    ToolDocumentIds(reg, t);
  }

  /** Removing `product` leaves `tool_product_search` in place. */
  lemma RemoveIsExactOrPrefix()
    ensures OwnedBy("tool_product", "product")
    ensures OwnedBy("tool_product__use_0", "product")
    ensures !OwnedBy("tool_product_search", "product")
  {
    assert "tool_product_search"[12] == '_' && "tool_product_search"[13] == 's';
    assert ("tool_product" + "__")[13] == '_';
  }
}
