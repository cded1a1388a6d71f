/** The sentence-aware text splitter used for terms documents
    (app/rag/splitter.py): recursive splitting by a priority list of
    separators, a forced split at spaces when all separators fail, and the
    merge of small segments into chunks with a sentence-level overlap.

    Each compiled separator pattern is an oracle: its `split` maps a text to
    its parts. */
module Splitter {
  import opened Util

  datatype SplitterConfig = SplitterConfig(chunkSize: nat, chunkOverlap: nat, minChunkSize: nat)

  const DefaultConfig: SplitterConfig := SplitterConfig(500, 100, 50)

  /** `pattern.split` of one separator. */
  type Separator = string -> seq<string>

  // ---- text bookkeeping ----

  /** The characters of `s` that are not whitespace. */
  function Squeeze(s: string): (r: string)
    ensures |r| <= |s|
  {
    if s == [] then []
    else (if IsSpace(s[0]) then [] else [s[0]]) + Squeeze(s[1..])
  }

  lemma {:induction false} SqueezeAppend(a: string, b: string)
    ensures Squeeze(a + b) == Squeeze(a) + Squeeze(b)
  {
    if a != [] {
      assert (a + b)[1..] == a[1..] + b;
      SqueezeAppend(a[1..], b);
    } else {
      assert a + b == b;
    }
  }

  lemma {:induction false} SqueezeAllSpace(s: string)
    requires forall i :: 0 <= i < |s| ==> IsSpace(s[i])
    ensures Squeeze(s) == []
  {
    if s != [] {
      SqueezeAllSpace(s[1..]);
    }
  }

  lemma {:induction false} SqueezeLStrip(s: string)
    ensures Squeeze(LStrip(s)) == Squeeze(s)
  {
    if s != [] && IsSpace(s[0]) {
      SqueezeLStrip(s[1..]);
    }
  }

  lemma {:induction false} SqueezeRStrip(s: string)
    ensures Squeeze(RStrip(s)) == Squeeze(s)
  {
    if s != [] && IsSpace(s[|s| - 1]) {
      var t := s[..|s| - 1];
      SqueezeRStrip(t);
      assert s == t + [s[|s| - 1]];
      SqueezeAppend(t, [s[|s| - 1]]);
    }
  }

  /** Stripping only ever removes whitespace. */
  lemma SqueezeStrip(s: string)
    ensures Squeeze(Strip(s)) == Squeeze(s)
  {
    SqueezeLStrip(s);
    SqueezeRStrip(LStrip(s));
  }

  /** The parts written one after another. */
  function Glue(parts: seq<string>): string
    decreases |parts|
  {
    if parts == [] then [] else Glue(parts[..|parts| - 1]) + parts[|parts| - 1]
  }

  lemma GlueSingle(p: string)
    ensures Glue([p]) == p
  {
    assert [p][..0] == [];
  }

  /** One more part, whose non-whitespace text is that of `parts[i]`, keeps
      the glued text in step with the parts read so far. */
  lemma GlueStep(r: seq<string>, piece: seq<string>, parts: seq<string>, i: nat)
    requires i < |parts|
    requires Squeeze(Glue(r)) == Squeeze(Glue(parts[..i]))
    requires Squeeze(Glue(piece)) == Squeeze(parts[i])
    ensures Squeeze(Glue(r + piece)) == Squeeze(Glue(parts[..i + 1]))
  {
    assert parts[..i + 1][..i] == parts[..i];
    calc {
      Squeeze(Glue(r + piece));
      == { GlueAppend(r, piece); }
      Squeeze(Glue(r) + Glue(piece));
      == { SqueezeAppend(Glue(r), Glue(piece)); }
      Squeeze(Glue(r)) + Squeeze(Glue(piece));
      == // the two preconditions
      Squeeze(Glue(parts[..i])) + Squeeze(parts[i]);
      == { SqueezeAppend(Glue(parts[..i]), parts[i]); }
      Squeeze(Glue(parts[..i]) + parts[i]);
      == // one unfolding of Glue
      Squeeze(Glue(parts[..i + 1]));
    }
  }

  lemma {:induction false} GlueAppend(a: seq<string>, b: seq<string>)
    ensures Glue(a + b) == Glue(a) + Glue(b)
    decreases |b|
  {
    if b != [] {
      assert (a + b)[..|a + b| - 1] == a + b[..|b| - 1];
      GlueAppend(a, b[..|b| - 1]);
    } else {
      assert a + b == a;
    }
  }

  // ---- forced split ----

  /** `s.rfind(c)`: the last index of `c`, or -1. */
  function RFind(s: string, c: char): (r: int)
    ensures -1 <= r < |s|
    ensures r >= 0 ==> s[r] == c && forall i :: r < i < |s| ==> s[i] != c
    ensures r == -1 ==> forall i :: 0 <= i < |s| ==> s[i] != c
  {
    if s == [] then -1
    else if s[|s| - 1] == c then |s| - 1
    else RFind(s[..|s| - 1], c)
  }

  /** Where `_force_split` cuts a text longer than the chunk size: the last
      space within the first chunk-size characters, unless that is at or
      before the minimum chunk size (or missing), in which case the chunk
      size itself. */
  function CutPoint(text: string, cfg: SplitterConfig): (cut: nat)
    requires cfg.chunkSize >= 1 && |text| > cfg.chunkSize
    ensures 1 <= cut <= cfg.chunkSize
    ensures cut < cfg.chunkSize ==> text[cut] == ' ' && cut > cfg.minChunkSize
  {
    var r := RFind(text[..cfg.chunkSize], ' ');
    if r <= cfg.minChunkSize then cfg.chunkSize else r
  }

  /** The chunks `_force_split` produces. */
  function ForceChunks(text: string, cfg: SplitterConfig): seq<string>
    requires cfg.chunkSize >= 1
    decreases |text|
  {
    if |text| <= cfg.chunkSize then (if text == [] then [] else [text])
    else
      var cut := CutPoint(text, cfg);
      [Strip(text[..cut])] + ForceChunks(Strip(text[cut..]), cfg)
  }

  /** Every forced chunk fits the chunk size. */
  lemma {:induction false} ForceChunksFit(text: string, cfg: SplitterConfig)
    requires cfg.chunkSize >= 1
    ensures forall c :: c in ForceChunks(text, cfg) ==> |c| <= cfg.chunkSize
    decreases |text|
  {
    if |text| > cfg.chunkSize {
      var cut := CutPoint(text, cfg);
      ForceChunksFit(Strip(text[cut..]), cfg);
    }
  }

  /** Gluing a head part in front. */
  lemma GlueCons(head: string, rest: seq<string>)
    ensures Squeeze(Glue([head] + rest)) == Squeeze(head) + Squeeze(Glue(rest))
  {
    GlueAppend([head], rest);
    GlueSingle(head);
    SqueezeAppend(head, Glue(rest));
  }

  /** Cutting a text in two and stripping both halves keeps its
      non-whitespace text. */
  lemma CutKeepsText(text: string, cut: nat)
    requires cut <= |text|
    ensures Squeeze(Strip(text[..cut])) + Squeeze(Strip(text[cut..])) == Squeeze(text)
  {
    var a, b := text[..cut], text[cut..];
    assert text == a + b;
    SqueezeStrip(a);
    SqueezeStrip(b);
    SqueezeAppend(a, b);
  }

  /** Forced splitting loses no non-whitespace character and keeps their
      order. */
  lemma {:induction false} ForceChunksKeepText(text: string, cfg: SplitterConfig)
    requires cfg.chunkSize >= 1
    ensures Squeeze(Glue(ForceChunks(text, cfg))) == Squeeze(text)
    decreases |text|
  {
    if |text| <= cfg.chunkSize {
      if text != [] {
        GlueSingle(text);
      }
    } else {
      var cut := CutPoint(text, cfg);
      var tail := Strip(text[cut..]);
      assert ForceChunks(text, cfg) == [Strip(text[..cut])] + ForceChunks(tail, cfg);
      GlueCons(Strip(text[..cut]), ForceChunks(tail, cfg));
      ForceChunksKeepText(tail, cfg);
      CutKeepsText(text, cut);
    }
  }

  /** `_force_split`. */
  method ForceSplit(text: string, cfg: SplitterConfig) returns (chunks: seq<string>)
    requires cfg.chunkSize >= 1
    ensures chunks == ForceChunks(text, cfg)
  {
    chunks := [];
    var t := text;
    while |t| > cfg.chunkSize
      invariant chunks + ForceChunks(t, cfg) == ForceChunks(text, cfg)
      decreases |t|
    {
      var cut := CutPoint(t, cfg);
      var head, t' := Strip(t[..cut]), Strip(t[cut..]);
      ForceStep(t, cfg, chunks);
      chunks := chunks + [head];
      t := t';
    }
    ForceLast(t, cfg, chunks);
    if t != [] {
      chunks := chunks + [t];
    }
  }

  /** What is left after the `_force_split` loop is the last chunk, if any. */
  lemma ForceLast(t: string, cfg: SplitterConfig, done: seq<string>)
    requires cfg.chunkSize >= 1 && |t| <= cfg.chunkSize
    ensures done + ForceChunks(t, cfg) == if t == [] then done else done + [t]
  {
  }

  /** One turn of the `_force_split` loop keeps the chunks still to come. */
  lemma ForceStep(t: string, cfg: SplitterConfig, done: seq<string>)
    requires cfg.chunkSize >= 1 && |t| > cfg.chunkSize
    ensures var cut := CutPoint(t, cfg);
      (done + [Strip(t[..cut])]) + ForceChunks(Strip(t[cut..]), cfg) == done + ForceChunks(t, cfg)
  {
    var cut := CutPoint(t, cfg);
    ForceUnfold(t, cfg, cut);
    ChunkAssoc(done, [Strip(t[..cut])], ForceChunks(Strip(t[cut..]), cfg));
  }

  lemma ForceUnfold(t: string, cfg: SplitterConfig, cut: nat)
    requires cfg.chunkSize >= 1 && |t| > cfg.chunkSize && cut == CutPoint(t, cfg)
    ensures ForceChunks(t, cfg) == [Strip(t[..cut])] + ForceChunks(Strip(t[cut..]), cfg)
  {
  }

  lemma ChunkAssoc(a: seq<string>, b: seq<string>, c: seq<string>)
    ensures (a + b) + c == a + (b + c)
  {
  }

  // ---- recursive split ----

  /** `[p for p in parts if p.strip()]`. */
  function NonBlank(parts: seq<string>): (r: seq<string>)
    ensures forall p :: p in r ==> p in parts && !IsBlank(p)
    decreases |parts|
  {
    if parts == [] then []
    else
      var pre := NonBlank(parts[..|parts| - 1]);
      var p := parts[|parts| - 1];
      if IsBlank(p) then pre else pre + [p]
  }

  /** Dropping blank parts drops only whitespace. */
  lemma {:induction false} NonBlankKeepsText(parts: seq<string>)
    ensures Squeeze(Glue(NonBlank(parts))) == Squeeze(Glue(parts))
    decreases |parts|
  {
    if parts != [] {
      var pre := parts[..|parts| - 1];
      var p := parts[|parts| - 1];
      NonBlankKeepsText(pre);
      SqueezeAppend(Glue(pre), p);
      if IsBlank(p) {
        StripEmptyIffAllSpace(p);
        SqueezeAllSpace(p);
      } else {
        GlueAppend(NonBlank(pre), [p]);
        GlueSingle(p);
        SqueezeAppend(Glue(NonBlank(pre)), p);
      }
    }
  }

  /** A separator that drops only whitespace, as every default pattern does
      (blank runs, line breaks, whitespace after a sentence end, or an empty
      look-ahead match). */
  ghost predicate KeepsText(seps: seq<Separator>) {
    forall i, t :: 0 <= i < |seps| ==> Squeeze(Glue(seps[i](t))) == Squeeze(t)
  }

  /** The segments `_split_recursive` yields: a text that fits is one
      segment; past the last separator the text is force-split; a separator
      that leaves at most one non-blank part hands the whole text to the next
      one; otherwise every non-blank part is handled in turn. */
  function Segments(text: string, level: nat, cfg: SplitterConfig, seps: seq<Separator>): seq<string>
    requires cfg.chunkSize >= 1
    decreases |seps| - level, 2
  {
    if |text| <= cfg.chunkSize then [text]
    else if level >= |seps| then ForceChunks(text, cfg)
    else
      var parts := NonBlank(seps[level](text));
      if |parts| <= 1 then Segments(text, level + 1, cfg, seps)
      else PartsSegments(parts, level, cfg, seps)
  }

  /** The segments of the parts of one separator, in order. */
  function PartsSegments(parts: seq<string>, level: nat, cfg: SplitterConfig, seps: seq<Separator>): seq<string>
    requires cfg.chunkSize >= 1 && level < |seps|
    decreases |seps| - level, 1, |parts|
  {
    if parts == [] then []
    else PartsSegments(parts[..|parts| - 1], level, cfg, seps) + PartSegments(parts[|parts| - 1], level, cfg, seps)
  }

  /** One part: skipped when blank, kept stripped when it fits, split one
      level down otherwise. */
  function PartSegments(part: string, level: nat, cfg: SplitterConfig, seps: seq<Separator>): seq<string>
    requires cfg.chunkSize >= 1 && level < |seps|
    decreases |seps| - level, 0
  {
    var stripped := Strip(part);
    if stripped == [] then []
    else if |stripped| <= cfg.chunkSize then [stripped]
    else Segments(stripped, level + 1, cfg, seps)
  }

  /** The reference segments fit the chunk size, a non-empty text gives at
      least one, and with whitespace-only separators no text is lost. */
  lemma {:induction false} SegmentsFit(text: string, level: nat, cfg: SplitterConfig, seps: seq<Separator>)
    requires cfg.chunkSize >= 1
    ensures forall p :: p in Segments(text, level, cfg, seps) ==> |p| <= cfg.chunkSize
    ensures KeepsText(seps) ==> Squeeze(Glue(Segments(text, level, cfg, seps))) == Squeeze(text)
    ensures text != [] ==> Segments(text, level, cfg, seps) != []
    decreases |seps| - level, 2
  {
    if |text| <= cfg.chunkSize {
      GlueSingle(text);
    } else if level >= |seps| {
      ForceChunksFit(text, cfg);
      ForceChunksKeepText(text, cfg);
    } else {
      var parts := NonBlank(seps[level](text));
      if |parts| <= 1 {
        SegmentsFit(text, level + 1, cfg, seps);
      } else {
        PartsSegmentsFit(parts, level, cfg, seps);
        assert parts[0] in parts;
        if KeepsText(seps) {
          NonBlankKeepsText(seps[level](text));
        }
      }
    }
  }

  /** The same for the parts of one separator, handled in order. */
  lemma {:induction false} PartsSegmentsFit(parts: seq<string>, level: nat, cfg: SplitterConfig, seps: seq<Separator>)
    requires cfg.chunkSize >= 1 && level < |seps|
    ensures forall p :: p in PartsSegments(parts, level, cfg, seps) ==> |p| <= cfg.chunkSize
    ensures KeepsText(seps) ==> Squeeze(Glue(PartsSegments(parts, level, cfg, seps))) == Squeeze(Glue(parts))
    ensures parts != [] && !IsBlank(parts[0]) ==> PartsSegments(parts, level, cfg, seps) != []
    decreases |seps| - level, 1, |parts|
  {
    if parts != [] {
      var i := |parts| - 1;
      var init := parts[..i];
      PartsSegmentsFit(init, level, cfg, seps);
      PartSegmentsFit(parts[i], level, cfg, seps);
      var r, piece := PartsSegments(init, level, cfg, seps), PartSegments(parts[i], level, cfg, seps);
      FitAppend(r, piece, cfg.chunkSize);
      if KeepsText(seps) {
        PartStep(r, piece, parts, i);
      }
      assert parts[..i + 1] == parts;
      assert i > 0 ==> init[0] == parts[0];
    }
  }

  /** The same for one part: it gives nothing exactly when it is blank. */
  lemma {:induction false} PartSegmentsFit(part: string, level: nat, cfg: SplitterConfig, seps: seq<Separator>)
    requires cfg.chunkSize >= 1 && level < |seps|
    ensures forall p :: p in PartSegments(part, level, cfg, seps) ==> |p| <= cfg.chunkSize
    ensures KeepsText(seps) ==> Squeeze(Glue(PartSegments(part, level, cfg, seps))) == Squeeze(Strip(part))
    ensures PartSegments(part, level, cfg, seps) == [] <==> IsBlank(part)
    decreases |seps| - level, 0
  {
    var stripped := Strip(part);
    if stripped != [] {
      if |stripped| <= cfg.chunkSize {
        GlueSingle(stripped);
      } else {
        SegmentsFit(stripped, level + 1, cfg, seps);
      }
    }
  }

  /** `_split_recursive`: tries the separators in priority order; a part that
      still does not fit goes one level down, and past the last separator
      the text is force-split. */
  method SplitRecursive(text: string, level: nat, cfg: SplitterConfig, seps: seq<Separator>)
    returns (r: seq<string>)
    requires cfg.chunkSize >= 1
    ensures r == Segments(text, level, cfg, seps)
    ensures |text| <= cfg.chunkSize ==> r == [text]
    ensures |text| > cfg.chunkSize && level >= |seps| ==> r == ForceChunks(text, cfg)
    ensures forall p :: p in r ==> |p| <= cfg.chunkSize
    ensures KeepsText(seps) ==> Squeeze(Glue(r)) == Squeeze(text)
    ensures text != [] ==> r != []
    decreases |seps| - level, 2
  {
    SegmentsFit(text, level, cfg, seps);
    if |text| <= cfg.chunkSize {
      return [text];
    }
    if level >= |seps| {
      r := ForceSplit(text, cfg);
      return;
    }
    var parts := NonBlank(seps[level](text));
    if |parts| <= 1 {
      r := SplitRecursive(text, level + 1, cfg, seps);
      return;
    }
    r := SplitParts(parts, level, cfg, seps);
  }

  lemma PartStep(r: seq<string>, piece: seq<string>, parts: seq<string>, i: nat)
    requires i < |parts|
    requires Squeeze(Glue(r)) == Squeeze(Glue(parts[..i]))
    requires Squeeze(Glue(piece)) == Squeeze(Strip(parts[i]))
    ensures Squeeze(Glue(r + piece)) == Squeeze(Glue(parts[..i + 1]))
  {
    SqueezeStrip(parts[i]);
    GlueStep(r, piece, parts, i);
  }

  /** Two lists of pieces that fit, appended, still fit. */
  lemma FitAppend(a: seq<string>, b: seq<string>, size: nat)
    requires forall p :: p in a ==> |p| <= size
    requires forall p :: p in b ==> |p| <= size
    ensures forall p :: p in a + b ==> |p| <= size
    ensures a != [] ==> a + b != []
  {
  }

  lemma PartsSegmentsStep(parts: seq<string>, i: nat, level: nat, cfg: SplitterConfig, seps: seq<Separator>)
    requires cfg.chunkSize >= 1 && level < |seps| && i < |parts|
    ensures PartsSegments(parts[..i + 1], level, cfg, seps)
      == PartsSegments(parts[..i], level, cfg, seps) + PartSegments(parts[i], level, cfg, seps)
  {
    assert parts[..i + 1][..i] == parts[..i];
  }

  /** The loop of `_split_recursive` over the parts of one separator. */
  method SplitParts(parts: seq<string>, level: nat, cfg: SplitterConfig, seps: seq<Separator>)
    returns (r: seq<string>)
    requires cfg.chunkSize >= 1 && level < |seps|
    ensures r == PartsSegments(parts, level, cfg, seps)
    decreases |seps| - level, 1
  {
    r := [];
    var i := 0;
    while i < |parts|
      invariant 0 <= i <= |parts|
      invariant r == PartsSegments(parts[..i], level, cfg, seps)
    {
      var piece := SplitPart(parts[i], level, cfg, seps);
      PartsSegmentsStep(parts, i, level, cfg, seps);
      r := r + piece;
      i := i + 1;
    }
    assert parts[..i] == parts;
  }

  /** One part inside that loop: a blank part is skipped, a part that fits is
      kept stripped, a longer one is split one level down. */
  method SplitPart(part: string, level: nat, cfg: SplitterConfig, seps: seq<Separator>)
    returns (piece: seq<string>)
    requires cfg.chunkSize >= 1 && level < |seps|
    ensures piece == PartSegments(part, level, cfg, seps)
    decreases |seps| - level, 0
  {
    var stripped := Strip(part);
    if stripped == [] {
      piece := [];
    } else if |stripped| <= cfg.chunkSize {
      piece := [stripped];
    } else {
      piece := SplitRecursive(stripped, level + 1, cfg, seps);
    }
  }

  // ---- merge ----

  /** The loop state of `_merge_segments`: the finished chunks, the segments
      of the chunk being built and the running length estimate. */
  datatype Acc = Acc(chunks: seq<string>, current: seq<string>, currentLen: int)

  /** Characters a list of segments costs against the overlap budget: each
      segment plus one separator. */
  function SumPlusOne(xs: seq<string>): nat {
    SumLengths(xs) + |xs|
  }

  /** The overlap kept after a flush: walking `xs` from the end, segments are
      taken while the budget, counting one separator each, stays within
      `lim`; the first one that does not fit stops the walk. */
  function Overlap(xs: seq<string>, lim: nat, budget: nat): seq<string>
    decreases |xs|
  {
    if xs == [] then []
    else
      var s := xs[|xs| - 1];
      if budget + |s| + 1 > lim then []
      else Overlap(xs[..|xs| - 1], lim, budget + |s| + 1) + [s]
  }

  lemma SumPlusOneSnoc(xs: seq<string>, s: string)
    ensures SumPlusOne(xs + [s]) == SumPlusOne(xs) + |s| + 1
  {
    SumLengthsAppend(xs, [s]);
    assert SumLengths([s]) == |s| + SumLengths([]);
  }

  /** The overlap is a suffix of the chunk's segments and fits the budget. */
  lemma {:induction false} OverlapSuffix(xs: seq<string>, lim: nat, budget: nat)
    requires budget <= lim
    ensures var r := Overlap(xs, lim, budget);
      |r| <= |xs| && r == xs[|xs| - |r|..] && budget + SumPlusOne(r) <= lim
    decreases |xs|
  {
    if xs != [] {
      var s := xs[|xs| - 1];
      if budget + |s| + 1 <= lim {
        var pre := xs[..|xs| - 1];
        OverlapSuffix(pre, lim, budget + |s| + 1);
        var q := Overlap(pre, lim, budget + |s| + 1);
        assert Overlap(xs, lim, budget) == q + [s];
        SumPlusOneSnoc(q, s);
        SuffixSnoc(xs, q);
      }
    }
  }

  /** A suffix of all but the last element, followed by the last, is a suffix. */
  lemma SuffixSnoc<T>(xs: seq<T>, q: seq<T>)
    requires xs != [] && |q| < |xs| && q == xs[..|xs| - 1][|xs| - 1 - |q|..]
    ensures q + [xs[|xs| - 1]] == xs[|xs| - |q| - 1..]
  {
    assert forall i :: 0 <= i < |q| ==> q[i] == xs[|xs| - 1 - |q| + i];
  }

  /** The overlap is as long as the budget allows: it is all of `xs`, or the
      next segment to its left would overflow the budget. */
  lemma {:induction false} OverlapMaximal(xs: seq<string>, lim: nat, budget: nat)
    requires budget <= lim
    ensures var r := Overlap(xs, lim, budget);
      |r| < |xs| ==> budget + SumPlusOne(r) + |xs[|xs| - |r| - 1]| + 1 > lim
    decreases |xs|
  {
    if xs != [] {
      var s := xs[|xs| - 1];
      if budget + |s| + 1 <= lim {
        var pre := xs[..|xs| - 1];
        OverlapMaximal(pre, lim, budget + |s| + 1);
        OverlapSuffix(pre, lim, budget + |s| + 1);
        var q := Overlap(pre, lim, budget + |s| + 1);
        SumPlusOneSnoc(q, s);
        if |q| < |pre| {
          assert xs[|xs| - |q| - 2] == pre[|pre| - |q| - 1];
        }
      } else {
        assert SumPlusOne([]) == 0;
      }
    }
  }

  /** With no overlap budget nothing is carried over. */
  lemma NoOverlap(xs: seq<string>)
    ensures Overlap(xs, 0, 0) == []
  {
  }

  /** `sum(len(s) for s in xs) + max(len(xs) - 1, 0)`: the length of the
      segments joined by single spaces. */
  function JoinedLen(xs: seq<string>): nat {
    SumLengths(xs) + Max(|xs| - 1, 0)
  }

  lemma JoinedLenExact(xs: seq<string>)
    ensures |Join(" ", xs)| == JoinedLen(xs)
  {
    JoinLength(" ", xs);
  }

  /** One iteration of the loop over segments. `stale` selects the code as
      written, where the joiner computed before a flush is still added after
      it; without it the joiner is recomputed for the overlap that is kept. */
  function Advance(cfg: SplitterConfig, acc: Acc, seg: string, stale: bool): Acc {
    var joiner := if acc.current != [] then 1 else 0;
    if acc.currentLen + joiner + |seg| > cfg.chunkSize && acc.current != [] then
      var ov := Overlap(acc.current, cfg.chunkOverlap, 0);
      var j := if stale || ov != [] then joiner else 0;
      Acc(acc.chunks + [Join(" ", acc.current)], ov + [seg], JoinedLen(ov) + j + |seg|)
    else
      Acc(acc.chunks, acc.current + [seg], acc.currentLen + joiner + |seg|)
  }

  /** The loop state after the given segments. */
  function FoldWith(cfg: SplitterConfig, segs: seq<string>, stale: bool): Acc
    decreases |segs|
  {
    if segs == [] then Acc([], [], 0)
    else Advance(cfg, FoldWith(cfg, segs[..|segs| - 1], stale), segs[|segs| - 1], stale)
  }

  /** After the loop: the last chunk is joined, and appended to the previous
      chunk when it is shorter than the minimum chunk size. */
  function Finish(cfg: SplitterConfig, acc: Acc): seq<string> {
    if acc.current == [] then acc.chunks
    else
      var final := Join(" ", acc.current);
      if acc.chunks != [] && |final| < cfg.minChunkSize then
        acc.chunks[..|acc.chunks| - 1] + [acc.chunks[|acc.chunks| - 1] + " " + final]
      else acc.chunks + [final]
  }

  /** `_merge_segments` as written. */
  function MergeAsWritten(cfg: SplitterConfig, segs: seq<string>): seq<string> {
    if segs == [] then [] else Finish(cfg, FoldWith(cfg, segs, true))
  }

  /** `_merge_segments` with the joiner recomputed after a flush. */
  function Merge(cfg: SplitterConfig, segs: seq<string>): seq<string> {
    if segs == [] then [] else Finish(cfg, FoldWith(cfg, segs, false))
  }

  /** The loop states of the example below, for the code as written. */
  lemma ExampleStaleFold()
    ensures var cfg, segs := SplitterConfig(10, 0, 0), ["aaaaaaaa", "bbbbb", "cccc"];
      && FoldWith(cfg, segs[..2], true) == Acc(["aaaaaaaa"], ["bbbbb"], 6)
      && FoldWith(cfg, segs, true) == Acc(["aaaaaaaa", "bbbbb"], ["cccc"], 5)
  {
    var cfg := SplitterConfig(10, 0, 0);
    var segs := ["aaaaaaaa", "bbbbb", "cccc"];
    assert segs[..2][..1] == segs[..1];
    assert segs[..1][..0] == [];
    NoOverlap(["aaaaaaaa"]);
    NoOverlap(["bbbbb"]);
    assert FoldWith(cfg, segs[..1], true) == Acc([], ["aaaaaaaa"], 8);
    assert FoldWith(cfg, segs[..2], true) == Acc(["aaaaaaaa"], ["bbbbb"], 6);
  }

  /** The loop states of the example below, with the joiner recomputed. */
  lemma ExampleFreshFold()
    ensures var cfg, segs := SplitterConfig(10, 0, 0), ["aaaaaaaa", "bbbbb", "cccc"];
      FoldWith(cfg, segs, false) == Acc(["aaaaaaaa"], ["bbbbb", "cccc"], 10)
  {
    var cfg := SplitterConfig(10, 0, 0);
    var segs := ["aaaaaaaa", "bbbbb", "cccc"];
    assert segs[..2][..1] == segs[..1];
    assert segs[..1][..0] == [];
    NoOverlap(["aaaaaaaa"]);
    assert FoldWith(cfg, segs[..1], false) == Acc([], ["aaaaaaaa"], 8);
    assert FoldWith(cfg, segs[..2], false) == Acc(["aaaaaaaa"], ["bbbbb"], 5);
  }

  /** With chunk size 10 and no overlap, "bbbbb" and "cccc" joined by a space
      fill exactly 10 characters, yet the code as written keeps them apart:
      after the flush its length estimate for "bbbbb" is 6. */
  lemma MergeAsWrittenExample()
    ensures FoldWith(SplitterConfig(10, 0, 0), ["aaaaaaaa", "bbbbb"], true).currentLen
            == |Join(" ", FoldWith(SplitterConfig(10, 0, 0), ["aaaaaaaa", "bbbbb"], true).current)| + 1
    ensures MergeAsWritten(SplitterConfig(10, 0, 0), ["aaaaaaaa", "bbbbb", "cccc"]) == ["aaaaaaaa", "bbbbb", "cccc"]
    ensures Merge(SplitterConfig(10, 0, 0), ["aaaaaaaa", "bbbbb", "cccc"]) == ["aaaaaaaa", "bbbbb" + " " + "cccc"]
    ensures |"bbbbb" + " " + "cccc"| == 10
  {
    ExampleStaleFold();
    assert Join(" ", ["bbbbb"]) == "bbbbb";
    ExampleStaleResult();
    ExampleFreshResult();
  }

  lemma ExampleStaleResult()
    ensures MergeAsWritten(SplitterConfig(10, 0, 0), ["aaaaaaaa", "bbbbb", "cccc"]) == ["aaaaaaaa", "bbbbb", "cccc"]
  {
    ExampleStaleFold();
    assert Join(" ", ["cccc"]) == "cccc";
  }

  lemma ExampleFreshResult()
    ensures Merge(SplitterConfig(10, 0, 0), ["aaaaaaaa", "bbbbb", "cccc"]) == ["aaaaaaaa", "bbbbb" + " " + "cccc"]
  {
    ExampleFreshFold();
    assert Join(" ", ["cccc"]) == "cccc";
    assert Join(" ", ["bbbbb", "cccc"]) == "bbbbb" + " " + Join(" ", ["cccc"]);
  }

  lemma {:induction false} JoinSnoc(sep: string, xs: seq<string>, x: string)
    requires xs != []
    ensures Join(sep, xs + [x]) == Join(sep, xs) + sep + x
    decreases |xs|
  {
    if |xs| == 1 {
      assert (xs + [x])[1..] == [x];
    } else {
      assert (xs + [x])[1..] == xs[1..] + [x];
      JoinSnoc(sep, xs[1..], x);
    }
  }

  /** Joining with spaces adds only whitespace. */
  lemma {:induction false} SqueezeJoin(xs: seq<string>)
    ensures Squeeze(Join(" ", xs)) == Squeeze(Glue(xs))
    decreases |xs|
  {
    if |xs| == 1 {
      GlueSingle(xs[0]);
    } else if |xs| > 1 {
      SqueezeJoin(xs[1..]);
      SqueezeAppend(xs[0] + " ", Join(" ", xs[1..]));
      SqueezeAppend(xs[0], " ");
      assert xs == [xs[0]] + xs[1..];
      GlueCons(xs[0], xs[1..]);
    }
  }

  /** The running length of the corrected loop is exactly the length of the
      chunk being built. */
  ghost predicate LenExact(acc: Acc) {
    acc.currentLen == JoinedLen(acc.current)
  }

  lemma AdvanceLenExact(cfg: SplitterConfig, acc: Acc, seg: string)
    requires LenExact(acc)
    ensures LenExact(Advance(cfg, acc, seg, false))
  {
    SumLengthsAppend(acc.current, [seg]);
    assert SumLengths([seg]) == |seg| + SumLengths([]);
    var ov := Overlap(acc.current, cfg.chunkOverlap, 0);
    SumLengthsAppend(ov, [seg]);
  }

  lemma {:induction false} FoldLenExact(cfg: SplitterConfig, segs: seq<string>)
    ensures LenExact(FoldWith(cfg, segs, false))
    decreases |segs|
  {
    if segs != [] {
      FoldLenExact(cfg, segs[..|segs| - 1]);
      AdvanceLenExact(cfg, FoldWith(cfg, segs[..|segs| - 1], false), segs[|segs| - 1]);
    }
  }

  /** The corrected loop closes a chunk exactly when one more segment, with
      its space, would push the chunk being built past the chunk size; the
      closed chunk is the built one, joined by spaces. */
  lemma AdvanceFlushIff(cfg: SplitterConfig, acc: Acc, seg: string)
    requires LenExact(acc)
    ensures var r := Advance(cfg, acc, seg, false);
      (r.chunks != acc.chunks <==> acc.current != [] && |Join(" ", acc.current + [seg])| > cfg.chunkSize)
      && (r.chunks == acc.chunks || r.chunks == acc.chunks + [Join(" ", acc.current)])
      && (r.chunks == acc.chunks ==> r.current == acc.current + [seg])
  {
    var r := Advance(cfg, acc, seg, false);
    JoinedLenExact(acc.current);
    if acc.current != [] {
      JoinSnoc(" ", acc.current, seg);
      assert |r.chunks| != |acc.chunks| <==> |Join(" ", acc.current + [seg])| > cfg.chunkSize;
    }
  }

  /** Size bounds the corrected loop keeps when no segment exceeds the chunk
      size: the chunk being built and every closed chunk are at most the
      chunk size plus the overlap budget. */
  ghost predicate Bounded(cfg: SplitterConfig, acc: Acc) {
    LenExact(acc)
    && acc.currentLen <= cfg.chunkSize + cfg.chunkOverlap
    && forall c :: c in acc.chunks ==> |c| <= cfg.chunkSize + cfg.chunkOverlap
  }

  lemma AdvanceBounded(cfg: SplitterConfig, acc: Acc, seg: string)
    requires Bounded(cfg, acc) && |seg| <= cfg.chunkSize
    ensures Bounded(cfg, Advance(cfg, acc, seg, false))
  {
    AdvanceLenExact(cfg, acc, seg);
    var r := Advance(cfg, acc, seg, false);
    if r.chunks != acc.chunks {
      JoinedLenExact(acc.current);
      OverlapBudget(acc.current, cfg.chunkOverlap);
      assert r.chunks == acc.chunks + [Join(" ", acc.current)];
    }
  }

  /** A non-empty overlap joined by spaces is shorter than its budget. */
  lemma OverlapBudget(xs: seq<string>, lim: nat)
    ensures var ov := Overlap(xs, lim, 0);
      ov != [] ==> JoinedLen(ov) + 1 <= lim
  {
    OverlapSuffix(xs, lim, 0);
  }

  lemma {:induction false} FoldBounded(cfg: SplitterConfig, segs: seq<string>)
    requires forall s :: s in segs ==> |s| <= cfg.chunkSize
    ensures Bounded(cfg, FoldWith(cfg, segs, false))
    decreases |segs|
  {
    if segs != [] {
      var pre := segs[..|segs| - 1];
      assert forall s :: s in pre ==> s in segs;
      FoldBounded(cfg, pre);
      AdvanceBounded(cfg, FoldWith(cfg, pre, false), segs[|segs| - 1]);
    }
  }

  /** Every merged chunk is at most the chunk size plus the overlap budget;
      only the last one may grow further, by a remainder shorter than the
      minimum chunk size. */
  lemma MergeBounded(cfg: SplitterConfig, segs: seq<string>)
    requires forall s :: s in segs ==> |s| <= cfg.chunkSize
    ensures var r := Merge(cfg, segs);
      (forall i :: 0 <= i < |r| - 1 ==> |r[i]| <= cfg.chunkSize + cfg.chunkOverlap)
      && (r != [] ==> |r[|r| - 1]| <= cfg.chunkSize + cfg.chunkOverlap + cfg.minChunkSize)
  {
    if segs != [] {
      var acc := FoldWith(cfg, segs, false);
      FoldBounded(cfg, segs);
      JoinedLenExact(acc.current);
      var r := Merge(cfg, segs);
      forall i | 0 <= i < |r| - 1
        ensures |r[i]| <= cfg.chunkSize + cfg.chunkOverlap
      {
        assert r[i] == acc.chunks[i];
      }
      if r != [] && acc.current != [] && acc.chunks != [] {
        assert acc.chunks[|acc.chunks| - 1] in acc.chunks;
      }
    }
  }

  /** Without an overlap budget, the corrected loop keeps every
      non-whitespace character of the segments, in order, across the closed
      chunks and the chunk being built. */
  lemma {:induction false} FoldKeepsText(cfg: SplitterConfig, segs: seq<string>)
    requires cfg.chunkOverlap == 0
    ensures var acc := FoldWith(cfg, segs, false);
      Squeeze(Glue(acc.chunks)) + Squeeze(Glue(acc.current)) == Squeeze(Glue(segs))
    decreases |segs|
  {
    if segs != [] {
      var pre := segs[..|segs| - 1];
      var seg := segs[|segs| - 1];
      var acc := FoldWith(cfg, pre, false);
      FoldKeepsText(cfg, pre);
      SqueezeAppend(Glue(pre), seg);
      SqueezeAppend(Glue(acc.current), seg);
      var r := Advance(cfg, acc, seg, false);
      if r.chunks != acc.chunks {
        NoOverlap(acc.current);
        assert r.current == [seg];
        GlueSingle(seg);
        GlueAppend(acc.chunks, [Join(" ", acc.current)]);
        GlueSingle(Join(" ", acc.current));
        SqueezeAppend(Glue(acc.chunks), Join(" ", acc.current));
        SqueezeJoin(acc.current);
      } else {
        assert Glue(acc.current + [seg]) == Glue(acc.current) + seg;
      }
    }
  }

  /** Closing the loop keeps the text of the chunks and the chunk being built. */
  lemma FinishKeepsText(cfg: SplitterConfig, acc: Acc)
    ensures Squeeze(Glue(Finish(cfg, acc))) == Squeeze(Glue(acc.chunks)) + Squeeze(Glue(acc.current))
  {
    if acc.current == [] {
      assert Glue([]) == [];
    } else {
      var final := Join(" ", acc.current);
      SqueezeJoin(acc.current);
      var cs := acc.chunks;
      if cs != [] && |final| < cfg.minChunkSize {
        AppendToLastKeepsText(cs, final);
      } else {
        assert Glue(cs + [final]) == Glue(cs) + final;
        SqueezeAppend(Glue(cs), final);
      }
    }
  }

  lemma AppendToLastKeepsText(cs: seq<string>, final: string)
    requires cs != []
    ensures Squeeze(Glue(cs[..|cs| - 1] + [cs[|cs| - 1] + " " + final])) == Squeeze(Glue(cs)) + Squeeze(final)
  {
    var pre := cs[..|cs| - 1];
    var last := cs[|cs| - 1];
    assert Glue(pre + [last + " " + final]) == Glue(pre) + (last + " " + final);
    assert Glue(cs) == Glue(pre) + last;
    SqueezeAppend(Glue(pre), last + " " + final);
    SqueezeAppend(last + " ", final);
    SqueezeAppend(last, " ");
    SqueezeAppend(Glue(pre), last);
  }

  /** Without an overlap budget, merging loses no non-whitespace character
      and keeps their order. */
  lemma MergeKeepsText(cfg: SplitterConfig, segs: seq<string>)
    requires cfg.chunkOverlap == 0
    ensures Squeeze(Glue(Merge(cfg, segs))) == Squeeze(Glue(segs))
  {
    if segs != [] {
      FoldKeepsText(cfg, segs);
      FinishKeepsText(cfg, FoldWith(cfg, segs, false));
    }
  }

  /** Merging a non-empty list of segments yields at least one chunk. */
  lemma MergeNonEmpty(cfg: SplitterConfig, segs: seq<string>)
    ensures Merge(cfg, segs) == [] <==> segs == []
  {
    if segs != [] {
      assert FoldWith(cfg, segs, false).current != [];
    }
  }

  /** `_merge_segments`, with the joiner recomputed after a flush: segments
      are packed into chunks of at most the chunk size, each new chunk
      starting with the longest tail of the previous one that fits the
      overlap budget, and a last chunk shorter than the minimum chunk size
      is appended to the one before it. */
  method MergeSegments(segs: seq<string>, cfg: SplitterConfig) returns (chunks: seq<string>)
    ensures chunks == Merge(cfg, segs)
  {
    if segs == [] {
      return [];
    }
    chunks := [];
    var current: seq<string> := [];
    var currentLen := 0;
    for i := 0 to |segs|
      invariant Acc(chunks, current, currentLen) == FoldWith(cfg, segs[..i], false)
    {
      var seg := segs[i];
      FoldStep(cfg, segs, i);
      ghost var before := Acc(chunks, current, currentLen);
      var joiner := if current != [] then 1 else 0;
      if currentLen + joiner + |seg| > cfg.chunkSize && current != [] {
        chunks := chunks + [Join(" ", current)];
        var ov := KeptOverlap(current, cfg.chunkOverlap);
        current := ov;
        currentLen := JoinedLen(current);
        joiner := if ov != [] then 1 else 0;
      }
      current := current + [seg];
      currentLen := currentLen + joiner + |seg|;
      assert Acc(chunks, current, currentLen) == Advance(cfg, before, seg, false);
    }
    assert segs[..|segs|] == segs;
    if current != [] {
      var final := Join(" ", current);
      if chunks != [] && |final| < cfg.minChunkSize {
        chunks := chunks[..|chunks| - 1] + [chunks[|chunks| - 1] + " " + final];
      } else {
        chunks := chunks + [final];
      }
    }
  }

  /** The inner loop of `_merge_segments` after a flush: walks the current
      segments from the end and keeps those that fit the overlap budget. */
  method KeptOverlap(current: seq<string>, lim: nat) returns (ov: seq<string>)
    ensures ov == Overlap(current, lim, 0)
  {
    ov := [];
    var budget: nat := 0;
    var k := |current|;
    assert current[..k] == current;
    while k > 0 && budget + |current[k - 1]| + 1 <= lim
      invariant 0 <= k <= |current|
      invariant Overlap(current, lim, 0) == Overlap(current[..k], lim, budget) + ov
    {
      OverlapStep(current, k, lim, budget, ov);
      ov := [current[k - 1]] + ov;
      budget := budget + |current[k - 1]| + 1;
      k := k - 1;
    }
    OverlapStop(current, k, lim, budget);
  }

  /** One turn of the overlap walk takes the segment before position `k`. */
  lemma OverlapStep(xs: seq<string>, k: nat, lim: nat, budget: nat, ov: seq<string>)
    requires 0 < k <= |xs| && budget + |xs[k - 1]| + 1 <= lim
    ensures Overlap(xs[..k], lim, budget) + ov == Overlap(xs[..k - 1], lim, budget + |xs[k - 1]| + 1) + ([xs[k - 1]] + ov)
  {
    assert xs[..k][..k - 1] == xs[..k - 1];
    assert xs[..k][k - 1] == xs[k - 1];
    var rest := Overlap(xs[..k - 1], lim, budget + |xs[k - 1]| + 1);
    assert Overlap(xs[..k], lim, budget) == rest + [xs[k - 1]];
    ChunkAssoc(rest, [xs[k - 1]], ov);
  }

  /** Where the overlap walk stops nothing more is taken. */
  lemma OverlapStop(xs: seq<string>, k: nat, lim: nat, budget: nat)
    requires k <= |xs| && !(k > 0 && budget + |xs[k - 1]| + 1 <= lim)
    ensures Overlap(xs[..k], lim, budget) == []
  {
    if k > 0 {
      assert xs[..k][k - 1] == xs[k - 1];
    }
  }

  /** The fold over one more segment is one more `Advance`. */
  lemma FoldStep(cfg: SplitterConfig, segs: seq<string>, i: nat)
    requires i < |segs|
    ensures FoldWith(cfg, segs[..i + 1], false) == Advance(cfg, FoldWith(cfg, segs[..i], false), segs[i], false)
  {
    assert segs[..i + 1][..i] == segs[..i];
  }

  /** `split`: the stripped text, whole when it fits, otherwise split
      recursively and merged. The result is empty exactly for a blank text;
      every chunk is bounded by the chunk size, the overlap budget and the
      minimum chunk size; and with whitespace-only separators and no
      overlap no text is lost. */
  method Split(text: string, cfg: SplitterConfig, seps: seq<Separator>) returns (r: seq<string>)
    requires cfg.chunkSize >= 1
    ensures r == [] <==> IsBlank(text)
    ensures !IsBlank(text) && |Strip(text)| <= cfg.chunkSize ==> r == [Strip(text)]
    ensures |Strip(text)| > cfg.chunkSize ==> r == Merge(cfg, Segments(Strip(text), 0, cfg, seps))
    ensures forall c :: c in r ==> |c| <= cfg.chunkSize + cfg.chunkOverlap + cfg.minChunkSize
    ensures KeepsText(seps) && cfg.chunkOverlap == 0 ==> Squeeze(Glue(r)) == Squeeze(text)
  {
    var t := Strip(text);
    if t == [] {
      SqueezeStrip(text);
      return [];
    }
    if |t| <= cfg.chunkSize {
      SqueezeStrip(text);
      GlueSingle(t);
      return [t];
    }
    var segs := SplitRecursive(t, 0, cfg, seps);
    r := MergeSegments(segs, cfg);
    MergeOfSegments(cfg, segs, t, KeepsText(seps));
    SqueezeStrip(text);
  }

  /** What `split` needs of the merge of the recursive segments of `t`. */
  lemma MergeOfSegments(cfg: SplitterConfig, segs: seq<string>, t: string, keeps: bool)
    requires t != [] ==> segs != []
    requires forall p :: p in segs ==> |p| <= cfg.chunkSize
    requires keeps ==> Squeeze(Glue(segs)) == Squeeze(t)
    ensures var r := Merge(cfg, segs);
      (t != [] ==> r != [])
      && (forall c :: c in r ==> |c| <= cfg.chunkSize + cfg.chunkOverlap + cfg.minChunkSize)
      && (keeps && cfg.chunkOverlap == 0 ==> Squeeze(Glue(r)) == Squeeze(t))
  {
    var r := Merge(cfg, segs);
    MergeBounded(cfg, segs);
    MergeNonEmpty(cfg, segs);
    forall c | c in r
      ensures |c| <= cfg.chunkSize + cfg.chunkOverlap + cfg.minChunkSize
    {
      var i :| 0 <= i < |r| && r[i] == c;
    }
    if cfg.chunkOverlap == 0 {
      MergeKeepsText(cfg, segs);
    }
  }
}
