/** The RAG retriever (app/rag/retriever.py): terms and product-summary
    chunks are stored in a document collection under ids derived from the
    document's prefix, re-ingesting a document replaces all its old chunks,
    and queries return the collection's nearest chunks with a rounded
    similarity score. Chunks split from a PDF are attributed to the page
    their text starts on.

    The collection is a map from id to document; its similarity query is an
    oracle. */
module Retriever {
  import opened Util

  /** A metadata value: the model keeps strings and integers (page numbers). */
  datatype Val = Str(s: string) | Num(n: int)

  type Meta = map<string, Val>

  datatype Doc = Doc(text: string, meta: Meta)

  /** A `where` filter on one metadata field. */
  datatype Filter = Where(key: string, value: string)

  /** One retrieved chunk. */
  datatype Hit = Hit(id: string, text: string, score: real, meta: Meta)

  /** What the collection's query answers for one query text: the ids, and
      parallel lists of distances, texts and metadata, each of which may be
      missing. */
  datatype QueryResult = QueryResult(
    ids: seq<string>,
    distances: Option<seq<real>>,
    documents: Option<seq<string>>,
    metadatas: Option<seq<Meta>>)

  /** The collection's nearest-neighbour query: text, number of results,
      optional filter. */
  type Query = (string, nat, Option<Filter>) -> QueryResult

  /** The store answers with lists as long as its id list. */
  predicate Parallel(res: QueryResult) {
    (res.distances.Some? ==> |res.distances.value| == |res.ids|)
    && (res.documents.Some? ==> |res.documents.value| == |res.ids|)
    && (res.metadatas.Some? ==> |res.metadatas.value| == |res.ids|)
  }

  /** `round(x, 4)` on exact reals: the nearest multiple of 1/10000, a tie
      going to the even multiple. */
  function Round4(x: real): (r: real)
    ensures -0.00005 <= r - x <= 0.00005
  {
    var y := x * 10000.0;
    var f := y.Floor;
    var d := y - f as real;
    var n := if d < 0.5 then f else if d > 0.5 then f + 1 else if f % 2 == 0 then f else f + 1;
    n as real / 10000.0
  }

  /** A value already on the 1/10000 grid is kept. */
  lemma Round4OnGrid(n: int)
    ensures Round4(n as real / 10000.0) == n as real / 10000.0
  {
    var y := (n as real / 10000.0) * 10000.0;
    assert y == n as real;
    assert y.Floor == n;
  }

  /** Rounding never reverses an order: a larger value never rounds below a smaller one. */
  lemma Round4Mono(x: real, y: real)
    requires x <= y
    ensures Round4(x) <= Round4(y)
  {
    var xs, ys := x * 10000.0, y * 10000.0;
    var fx, fy := xs.Floor, ys.Floor;
    assert fx <= fy;
    var dx, dy := xs - fx as real, ys - fy as real;
    var nx := if dx < 0.5 then fx else if dx > 0.5 then fx + 1 else if fx % 2 == 0 then fx else fx + 1;
    var ny := if dy < 0.5 then fy else if dy > 0.5 then fy + 1 else if fy % 2 == 0 then fy else fy + 1;
    assert nx <= ny;
    assert Round4(x) == nx as real / 10000.0;
    assert Round4(y) == ny as real / 10000.0;
  }

  /** A fraction of the unit interval stays in it once rounded. */
  lemma Round4Unit(x: real)
    requires 0.0 <= x <= 1.0
    ensures 0.0 <= Round4(x) <= 1.0
  {
    Round4OnGrid(0);
    Round4OnGrid(10000);
    Round4Mono(0.0, x);
    Round4Mono(x, 1.0);
  }

  /** The hit built from the `i`-th answer row: a missing distance counts as
      1.0 (score 0), a missing text as "" and missing metadata as {}. */
  function Row(res: QueryResult, i: nat): (h: Hit)
    requires Parallel(res) && i < |res.ids|
  {
    var distance := if res.distances.Some? then res.distances.value[i] else 1.0;
    Hit(res.ids[i],
        if res.documents.Some? then res.documents.value[i] else "",
        Round4(1.0 - distance),
        if res.metadatas.Some? then res.metadatas.value[i] else map[])
  }

  /** Every hit is its answer row, id for id and in order, scored by
      rounded similarity (one minus the distance). */
  lemma RowScore(res: QueryResult, i: nat)
    requires Parallel(res) && i < |res.ids|
    ensures Row(res, i).id == res.ids[i]
    ensures res.distances.Some? ==> -0.00005 <= Row(res, i).score - (1.0 - res.distances.value[i]) <= 0.00005
    ensures res.distances.None? ==> Row(res, i).score == 0.0
  {
    if res.distances.None? {
      Round4OnGrid(0);
    }
  }

  // ---- ingestion ----

  /** The id of chunk `i` of a document. */
  function ChunkId(prefix: string, i: nat): string {
    prefix + "_chunk_" + NatToString(i)
  }

  lemma ChunkIdInjective(prefix: string, i: nat, j: nat)
    requires ChunkId(prefix, i) == ChunkId(prefix, j)
    ensures i == j
  {
    var k := |prefix + "_chunk_"|;
    assert NatToString(i) == ChunkId(prefix, i)[k..];
    assert NatToString(j) == ChunkId(prefix, j)[k..];
    NatToStringInjective(i, j);
  }

  /** `metadatas or [{"source": prefix}] * n`, then `doc_id` set on each. */
  /** The metadata list is either empty or missing, or has one entry per chunk;
      any other length makes the store's `add` raise. */
  predicate MetasFit(metadatas: Option<seq<Meta>>, n: nat) {
    metadatas.Some? && metadatas.value != [] ==> |metadatas.value| == n
  }

  function ChunkMetas(prefix: string, n: nat, metadatas: Option<seq<Meta>>): (r: seq<Meta>)
    requires MetasFit(metadatas, n)
    ensures |r| == n
    ensures forall i :: 0 <= i < n ==> "doc_id" in r[i] && r[i]["doc_id"] == Str(prefix)
    ensures forall i :: 0 <= i < n ==> if metadatas.Some? && metadatas.value != []
      then r[i] == metadatas.value[i]["doc_id" := Str(prefix)]
      else r[i] == map["source" := Str(prefix), "doc_id" := Str(prefix)]
  {
    var base := if metadatas.Some? && metadatas.value != [] then metadatas.value
                else seq(n, _ => map["source" := Str(prefix)]);
    seq(n, i requires 0 <= i < n => base[i]["doc_id" := Str(prefix)])
  }

  predicate HasDocId(d: Doc, prefix: string) {
    "doc_id" in d.meta && d.meta["doc_id"] == Str(prefix)
  }

  /** The collection after deleting the chunks whose `doc_id` is `prefix`. */
  function Cleaned(docs: map<string, Doc>, prefix: string): (r: map<string, Doc>)
    ensures forall id :: id in r <==> id in docs && !HasDocId(docs[id], prefix)
    ensures forall id :: id in r ==> r[id] == docs[id]
  {
    map id | id in docs && !HasDocId(docs[id], prefix) :: docs[id]
  }

  /** The collection after adding the chunks under their ids; the store's
      `add` ignores an id it already holds. */
  function AddChunks(docs: map<string, Doc>, prefix: string, chunks: seq<string>, metas: seq<Meta>): map<string, Doc>
    requires |metas| == |chunks|
    decreases |chunks|
  {
    if chunks == [] then docs
    else
      var n := |chunks| - 1;
      var prev := AddChunks(docs, prefix, chunks[..n], metas[..n]);
      if ChunkId(prefix, n) in prev then prev else prev[ChunkId(prefix, n) := Doc(chunks[n], metas[n])]
  }

  /** `r` holds each chunk under its id unless `docs` already held that id,
      holds no other new id, and keeps every document of `docs` as it was. */
  ghost predicate Stores(docs: map<string, Doc>, prefix: string, chunks: seq<string>, metas: seq<Meta>, r: map<string, Doc>)
    requires |metas| == |chunks|
  {
    && (forall i :: 0 <= i < |chunks| && ChunkId(prefix, i) !in docs ==>
          ChunkId(prefix, i) in r && r[ChunkId(prefix, i)] == Doc(chunks[i], metas[i]))
    && (forall id :: id in r <==> id in docs || exists i :: 0 <= i < |chunks| && id == ChunkId(prefix, i))
    && (forall id :: id in docs ==> r[id] == docs[id])
  }

  /** The added collection holds each new chunk under its id, and every
      document it held before as it was. */
  lemma {:induction false} AddChunksStores(docs: map<string, Doc>, prefix: string, chunks: seq<string>, metas: seq<Meta>)
    requires |metas| == |chunks|
    ensures Stores(docs, prefix, chunks, metas, AddChunks(docs, prefix, chunks, metas))
    decreases |chunks|
  {
    if chunks != [] {
      var n := |chunks| - 1;
      AddChunksStores(docs, prefix, chunks[..n], metas[..n]);
      StoresStep(docs, prefix, chunks, metas, AddChunks(docs, prefix, chunks[..n], metas[..n]));
    }
  }

  /** Adding the last chunk to a collection that stores the others. */
  lemma StoresStep(docs: map<string, Doc>, prefix: string, chunks: seq<string>, metas: seq<Meta>, prev: map<string, Doc>)
    requires |metas| == |chunks| > 0
    requires Stores(docs, prefix, chunks[..|chunks| - 1], metas[..|chunks| - 1], prev)
    ensures var n := |chunks| - 1;
      Stores(docs, prefix, chunks, metas,
             if ChunkId(prefix, n) in prev then prev else prev[ChunkId(prefix, n) := Doc(chunks[n], metas[n])])
  {
    var n := |chunks| - 1;
    forall i | 0 <= i < n
      ensures ChunkId(prefix, i) != ChunkId(prefix, n)
    {
      if ChunkId(prefix, i) == ChunkId(prefix, n) {
        ChunkIdInjective(prefix, i, n);
      }
    }
  }

  /** After a re-ingest whose clean-up succeeded, the documents tagged with
      the prefix are exactly the new chunks the store accepted: no chunk of
      an older version survives, and documents of other prefixes are
      untouched. */
  lemma IngestReplaces(docs: map<string, Doc>, prefix: string, chunks: seq<string>, metadatas: Option<seq<Meta>>)
    requires MetasFit(metadatas, |chunks|)
    ensures var r := AddChunks(Cleaned(docs, prefix), prefix, chunks, ChunkMetas(prefix, |chunks|, metadatas));
      (forall id :: id in r ==> (HasDocId(r[id], prefix) <==>
          id !in Cleaned(docs, prefix) && exists i :: 0 <= i < |chunks| && id == ChunkId(prefix, i)))
      && (forall id :: id in docs && !HasDocId(docs[id], prefix) ==> id in r && r[id] == docs[id])
  {
    var metas := ChunkMetas(prefix, |chunks|, metadatas);
    var c := Cleaned(docs, prefix);
    AddChunksStores(c, prefix, chunks, metas);
    var r := AddChunks(c, prefix, chunks, metas);
    forall id | id in r
      ensures HasDocId(r[id], prefix) <==> id !in c && exists i :: 0 <= i < |chunks| && id == ChunkId(prefix, i)
    {
      if id in c {
        assert r[id] == c[id] && !HasDocId(c[id], prefix);
      } else {
        var i :| 0 <= i < |chunks| && id == ChunkId(prefix, i);
        assert r[id] == Doc(chunks[i], metas[i]);
      }
    }
    forall id | id in docs && !HasDocId(docs[id], prefix)
      ensures id in r && r[id] == docs[id]
    {
      assert id in c && c[id] == docs[id];
    }
  }

  // ---- page attribution ----

  /** One extracted page: its 1-based number and stripped text. */
  datatype PageText = PageText(num: nat, text: string)

  /** `(offset, page)` pairs of `page_offsets`. */
  datatype PageOffset = PageOffset(offset: nat, page: nat)

  /** Where page `i` starts in the pages joined by blank lines. */
  function StartOf(pages: seq<PageText>, i: nat): nat
    requires i <= |pages|
    decreases i
  {
    if i == 0 then 0 else StartOf(pages, i - 1) + |pages[i - 1].text| + 2
  }

  /** `page_offsets`. */
  function Offsets(pages: seq<PageText>): (r: seq<PageOffset>)
    ensures |r| == |pages|
    ensures forall i {:trigger r[i]} :: 0 <= i < |pages| ==> r[i] == PageOffset(StartOf(pages, i), pages[i].num)
  {
    seq(|pages|, i requires 0 <= i < |pages| => PageOffset(StartOf(pages, i), pages[i].num))
  }

  function Texts(pages: seq<PageText>): (r: seq<string>)
    ensures |r| == |pages| && forall i :: 0 <= i < |pages| ==> r[i] == pages[i].text
  {
    seq(|pages|, i requires 0 <= i < |pages| => pages[i].text)
  }

  lemma {:induction false} StartOfTail(pages: seq<PageText>, i: nat)
    requires 1 <= i <= |pages|
    ensures StartOf(pages, i) == |pages[0].text| + 2 + StartOf(pages[1..], i - 1)
    decreases i
  {
    if i > 1 {
      StartOfTail(pages, i - 1);
    }
  }

  /** Each offset is where its page's text sits in the joined text: the
      offsets do locate the pages. */
  lemma {:induction false} OffsetsLocatePages(pages: seq<PageText>, i: nat)
    requires i < |pages|
    ensures var full := Join("\n\n", Texts(pages));
      StartOf(pages, i) + |pages[i].text| <= |full|
      && full[StartOf(pages, i)..StartOf(pages, i) + |pages[i].text|] == pages[i].text
    decreases |pages|
  {
    var ts := Texts(pages);
    if |pages| > 1 {
      assert ts[1..] == Texts(pages[1..]);
      var rest := Join("\n\n", ts[1..]);
      assert Join("\n\n", ts) == ts[0] + "\n\n" + rest;
      if i > 0 {
        OffsetsLocatePages(pages[1..], i - 1);
        StartOfTail(pages, i);
        SliceAfterPrefix(ts[0] + "\n\n", rest, StartOf(pages[1..], i - 1), |pages[i].text|);
      }
    }
  }

  /** A slice of `rest` reappears shifted by `|a|` in `a + rest`. */
  lemma SliceAfterPrefix(a: string, rest: string, s: nat, len: nat)
    requires s + len <= |rest|
    ensures |a| + s + len <= |a + rest|
    ensures (a + rest)[|a| + s..|a| + s + len] == rest[s..s + len]
  {
  }

  /** `_page_at(pos)` as a specification: the page of the last offset at or
      before `pos`, else 1. */
  function PageOf(po: seq<PageOffset>, pos: int): (r: nat)
    ensures r == 1 || exists i :: 0 <= i < |po| && po[i].offset <= pos && r == po[i].page
    decreases |po|
  {
    if po == [] then 1
    else if pos >= po[|po| - 1].offset then po[|po| - 1].page
    else PageOf(po[..|po| - 1], pos)
  }

  /** Offsets and page numbers both ascending. */
  ghost predicate Ascending(po: seq<PageOffset>) {
    forall i, j :: 0 <= i <= j < |po| ==> po[i].offset <= po[j].offset && 1 <= po[i].page <= po[j].page
  }

  /** The page is the page of the last offset not after `pos`. */
  lemma {:induction false} PageOfLast(po: seq<PageOffset>, pos: int, i: nat)
    requires i < |po| && po[i].offset <= pos
    requires forall j :: i < j < |po| ==> po[j].offset > pos
    ensures PageOf(po, pos) == po[i].page
    decreases |po|
  {
    if i < |po| - 1 {
      PageOfLast(po[..|po| - 1], pos, i);
    }
  }

  /** With ascending offsets and pages, a later position is never on an
      earlier page. */
  lemma {:induction false} PageOfMonotone(po: seq<PageOffset>, p: int, q: int)
    requires Ascending(po) && p <= q
    ensures PageOf(po, p) <= PageOf(po, q)
    decreases |po|
  {
    if po != [] {
      var n := |po| - 1;
      assert Ascending(po[..n]);
      if q >= po[n].offset {
        if p < po[n].offset {
          PageOfBounded(po[..n], p, po[n].page);
        }
      } else {
        PageOfMonotone(po[..n], p, q);
      }
    }
  }

  lemma {:induction false} PageOfBounded(po: seq<PageOffset>, p: int, top: nat)
    requires top >= 1 && forall i :: 0 <= i < |po| ==> po[i].page <= top
    ensures PageOf(po, p) <= top
    decreases |po|
  {
    if po != [] && p < po[|po| - 1].offset {
      PageOfBounded(po[..|po| - 1], p, top);
    }
  }

  /** Offsets start at 0 and rise by each page's length plus two. */
  lemma {:induction false} StartOfRises(pages: seq<PageText>, i: nat, j: nat)
    requires i <= j <= |pages|
    ensures StartOf(pages, i) + 2 * (j - i) <= StartOf(pages, j)
    decreases j
  {
    if i < j {
      StartOfRises(pages, i, j - 1);
    }
  }

  /** With ascending page numbers, the offsets of the pages are ascending. */
  lemma OffsetsAscending(pages: seq<PageText>)
    requires forall i, j :: 0 <= i <= j < |pages| ==> 1 <= pages[i].num <= pages[j].num
    ensures Ascending(Offsets(pages))
  {
    forall i, j | 0 <= i <= j < |pages|
      ensures StartOf(pages, i) <= StartOf(pages, j)
    {
      StartOfRises(pages, i, j);
    }
  }

  /** `_page_at`: the search from the last offset backwards. */
  method PageAt(po: seq<PageOffset>, pos: int) returns (page: nat)
    ensures page == PageOf(po, pos)
  {
    var i := |po|;
    assert po[..i] == po;
    while i > 0
      invariant 0 <= i <= |po|
      invariant PageOf(po, pos) == PageOf(po[..i], pos)
    {
      assert po[..i][..i - 1] == po[..i - 1];
      if pos >= po[i - 1].offset {
        return po[i - 1].page;
      }
      i := i - 1;
    }
    return 1;
  }

  /** Where the chunk scan places each chunk: the first occurrence at or after
      the search position of the chunk's first 60 characters (the search
      position itself when there is none); the next search starts a third of
      the chunk later, and at least one character later. */
  function Scan(chunks: seq<string>, full: string, from: nat): (r: seq<nat>)
    ensures |r| == |chunks|
    decreases |chunks|
  {
    if chunks == [] then []
    else
      var idx := ScanHead(chunks[0], full, from);
      [idx] + Scan(chunks[1..], full, idx + Max(1, |chunks[0]| / 3))
  }

  /** Where one chunk is placed: the first occurrence of its first 60
      characters at or after `from`, or `from` itself. */
  function ScanHead(c: string, full: string, from: nat): (idx: nat)
    ensures idx >= from
    ensures idx == from || MatchAt(full, c[..Min(60, |c|)], idx)
  {
    var found := Find(full, c[..Min(60, |c|)], from);
    if found < 0 then from else found
  }

  /** One step of the scan from chunk `i` on. */
  lemma ScanStep(chunks: seq<string>, full: string, i: nat, from: nat, idx: nat, next: nat)
    requires i < |chunks|
    requires idx == ScanHead(chunks[i], full, from) && next == idx + Max(1, |chunks[i]| / 3)
    ensures Scan(chunks[i..], full, from) == [idx] + Scan(chunks[i + 1..], full, next)
  {
    assert chunks[i..][1..] == chunks[i + 1..];
  }

  /** The positions are strictly increasing and never before the start. */
  lemma {:induction false} ScanIncreasing(chunks: seq<string>, full: string, from: nat)
    ensures forall i :: 0 <= i < |chunks| ==> from <= Scan(chunks, full, from)[i]
    ensures forall i, j :: 0 <= i < j < |chunks| ==> Scan(chunks, full, from)[i] < Scan(chunks, full, from)[j]
    decreases |chunks|
  {
    if chunks != [] {
      var r := Scan(chunks, full, from);
      var c := chunks[0];
      ScanIncreasing(chunks[1..], full, r[0] + Max(1, |c| / 3));
      assert r[1..] == Scan(chunks[1..], full, r[0] + Max(1, |c| / 3));
    }
  }

  /** `{"source": ...}` plus the optional version, date and extra fields; an
      empty string stands for a missing value. */
  function BaseMeta(source: string, docVersion: string, effectiveDate: string, extra: Meta): (m: Meta)
    ensures forall k :: k in extra ==> k in m && m[k] == extra[k]
    ensures "source" in m && ("source" !in extra ==> m["source"] == Str(source))
    ensures ("doc_version" in m && "doc_version" !in extra) ==> docVersion != [] && m["doc_version"] == Str(docVersion)
    ensures docVersion != [] ==> "doc_version" in m
    ensures ("effective_date" in m && "effective_date" !in extra) ==> effectiveDate != [] && m["effective_date"] == Str(effectiveDate)
    ensures effectiveDate != [] ==> "effective_date" in m
    ensures forall k :: k in m ==> k in extra || k in {"source", "doc_version", "effective_date"}
  {
    var m := map["source" := Str(source)];
    var m := if docVersion != [] then m["doc_version" := Str(docVersion)] else m;
    var m := if effectiveDate != [] then m["effective_date" := Str(effectiveDate)] else m;
    m + extra
  }

  /** The first loop of `_assign_page_metadata`: the offset of each page,
      accumulating the page length plus the two-character separator. */
  method PageOffsets(pages: seq<PageText>) returns (po: seq<PageOffset>)
    ensures po == Offsets(pages)
  {
    po := [];
    var offset := 0;
    for i := 0 to |pages|
      invariant offset == StartOf(pages, i)
      invariant po == Offsets(pages)[..i]
    {
      assert Offsets(pages)[..i + 1] == Offsets(pages)[..i] + [PageOffset(offset, pages[i].num)];
      po := po + [PageOffset(offset, pages[i].num)];
      offset := offset + |pages[i].text| + 2;
    }
    assert Offsets(pages)[..|pages|] == Offsets(pages);
  }

  /** `_assign_page_metadata`: one metadata per chunk, holding the base
      fields and the page the chunk's position falls on. */
  method AssignPageMetadata(chunks: seq<string>, full: string, pages: seq<PageText>,
                            source: string, docVersion: string, effectiveDate: string, extra: Meta)
    returns (metas: seq<Meta>)
    ensures |metas| == |chunks|
    ensures forall i :: 0 <= i < |chunks| ==>
      metas[i] == BaseMeta(source, docVersion, effectiveDate, extra)["page" := Num(PageOf(Offsets(pages), Scan(chunks, full, 0)[i]))]
  {
    var po := PageOffsets(pages);
    var base := BaseMeta(source, docVersion, effectiveDate, extra);
    metas := AttributePages(chunks, full, po, base);
  }

  /** The chunk loop of `_assign_page_metadata`, with its search position. */
  method AttributePages(chunks: seq<string>, full: string, po: seq<PageOffset>, base: Meta)
    returns (metas: seq<Meta>)
    ensures |metas| == |chunks|
    ensures forall i :: 0 <= i < |chunks| ==> metas[i] == base["page" := Num(PageOf(po, Scan(chunks, full, 0)[i]))]
  {
    metas := [];
    var from: nat := 0;
    ghost var positions: seq<nat> := [];
    assert chunks[0..] == chunks;
    for i := 0 to |chunks|
      invariant |positions| == i
      invariant ScanSoFar(chunks, full, i, from, positions)
      invariant metas == PageMetas(po, base, positions)
    {
      var c := chunks[i];
      var idx := Find(full, c[..Min(60, |c|)], from);
      if idx < 0 {
        idx := from;
      }
      var page := PageAt(po, idx);
      var next := idx + Max(1, |c| / 3);
      assert idx == ScanHead(c, full, from);
      ScanAdvance(chunks, full, i, from, positions, idx, next);
      PageMetasSnoc(po, base, positions, idx);
      metas := metas + [base["page" := Num(page)]];
      positions := positions + [idx];
      from := next;
    }
    ScanDone(chunks, full, from, positions);
  }

  /** The metadata for chunks placed at `positions`. */
  function PageMetas(po: seq<PageOffset>, base: Meta, positions: seq<nat>): (r: seq<Meta>)
    ensures |r| == |positions|
    ensures forall i :: 0 <= i < |positions| ==> r[i] == base["page" := Num(PageOf(po, positions[i]))]
  {
    seq(|positions|, i requires 0 <= i < |positions| => base["page" := Num(PageOf(po, positions[i]))])
  }

  lemma PageMetasSnoc(po: seq<PageOffset>, base: Meta, positions: seq<nat>, idx: nat)
    ensures PageMetas(po, base, positions + [idx]) == PageMetas(po, base, positions) + [base["page" := Num(PageOf(po, idx))]]
  {
  }

  /** The first `i` chunks are placed at `positions`, and the scan goes on from `from`. */
  ghost predicate ScanSoFar(chunks: seq<string>, full: string, i: nat, from: nat, positions: seq<nat>) {
    i <= |chunks| && positions + Scan(chunks[i..], full, from) == Scan(chunks, full, 0)
  }

  /** The scan placed so far, extended by chunk `i`. */
  lemma ScanAdvance(chunks: seq<string>, full: string, i: nat, from: nat, positions: seq<nat>, idx: nat, next: nat)
    requires i < |chunks|
    requires ScanSoFar(chunks, full, i, from, positions)
    requires idx == ScanHead(chunks[i], full, from) && next == idx + Max(1, |chunks[i]| / 3)
    ensures ScanSoFar(chunks, full, i + 1, next, positions + [idx])
  {
    var rest := Scan(chunks[i + 1..], full, next);
    ScanStep(chunks, full, i, from, idx, next);
    assert positions + Scan(chunks[i..], full, from) == Scan(chunks, full, 0);
    SeqAssoc(positions, [idx], rest);
  }

  lemma SeqAssoc(a: seq<nat>, b: seq<nat>, c: seq<nat>)
    ensures a + (b + c) == (a + b) + c
  {
  }

  /** After the last chunk the placed positions are the whole scan. */
  lemma ScanDone(chunks: seq<string>, full: string, from: nat, positions: seq<nat>)
    requires ScanSoFar(chunks, full, |chunks|, from, positions)
    ensures positions == Scan(chunks, full, 0)
  {
    assert chunks[|chunks|..] == [];
    assert positions + [] == positions;
  }

  /** Chunks later in the text are never attributed to an earlier page, when
      the pages are numbered in ascending order. */
  lemma ChunkPagesNonDecreasing(chunks: seq<string>, full: string, pages: seq<PageText>, i: nat, j: nat)
    requires forall a, b :: 0 <= a <= b < |pages| ==> 1 <= pages[a].num <= pages[b].num
    requires i <= j < |chunks|
    ensures var pos := Scan(chunks, full, 0);
      PageOf(Offsets(pages), pos[i]) <= PageOf(Offsets(pages), pos[j])
  {
    var pos := Scan(chunks, full, 0);
    ScanIncreasing(chunks, full, 0);
    OffsetsAscending(pages);
    if i < j {
      assert pos[i] < pos[j];
      assert Ascending(Offsets(pages));
      PageOfMonotone(Offsets(pages), pos[i], pos[j]);
    }
  }

  // ---- the retriever ----

  class RAGRetriever {
    /** The document collection, by id. */
    var docs: map<string, Doc>
    /** `settings.rag_top_k`. */
    const defaultTopK: nat

    constructor (topK: nat)
      ensures docs == map[] && defaultTopK == topK
    {
      docs := map[];
      defaultTopK := topK;
    }

    /** `doc_count`. */
    function DocCount(): (n: nat)
      reads this
      ensures n == 0 <==> docs == map[]
    {
      |docs|
    }

    /** `ingest_texts`: nothing happens for no chunks; otherwise the chunks
        tagged with the prefix are deleted (unless the lookup fails, which is
        logged and skipped), the new chunks are added under
        `<prefix>_chunk_<i>` with `doc_id` set, and their number returned.
        A metadata list of the wrong length makes the add raise, after the
        clean-up. */
    method IngestTexts(prefix: string, chunks: seq<string>, metadatas: Option<seq<Meta>>, lookupFails: bool)
      returns (r: Result<nat>)
      modifies this
      ensures chunks == [] ==> r == Ok(0) && docs == old(docs)
      ensures chunks != [] ==>
        var base := if lookupFails then old(docs) else Cleaned(old(docs), prefix);
        if MetasFit(metadatas, |chunks|)
        then r == Ok(|chunks|) && docs == AddChunks(base, prefix, chunks, ChunkMetas(prefix, |chunks|, metadatas))
        else r.Err? && docs == base
    {
      if chunks == [] {
        return Ok(0);
      }
      if !lookupFails {
        docs := Cleaned(docs, prefix);
      }
      if !MetasFit(metadatas, |chunks|) {
        return Err("metadatas must have one entry per document");
      }
      var metas := ChunkMetas(prefix, |chunks|, metadatas);
      docs := AddChunks(docs, prefix, chunks, metas);
      r := Ok(|chunks|);
    }

    /** `retrieve`: nothing from an empty collection; otherwise the store is
        asked for min(k, count) neighbours (k falling back to the default
        when zero) and each answer row becomes a hit, in order. */
    method Retrieve(query: string, topK: nat, where: Option<Filter>, q: Query) returns (r: seq<Hit>)
      requires Parallel(q(query, Min(if topK == 0 then defaultTopK else topK, |docs|), where))
      ensures docs == map[] ==> r == []
      ensures docs != map[] ==>
        var res := q(query, Min(if topK == 0 then defaultTopK else topK, |docs|), where);
        |r| == |res.ids| && forall i :: 0 <= i < |r| ==> r[i] == Row(res, i)
    {
      var k := if topK == 0 then defaultTopK else topK;
      var count := DocCount();
      if count == 0 {
        return [];
      }
      var res := q(query, Min(k, count), where);
      r := [];
      for i := 0 to |res.ids|
        invariant |r| == i && forall j :: 0 <= j < i ==> r[j] == Row(res, j)
      {
        r := r + [Row(res, i)];
      }
    }
  }
}
