// The pieces of the web front end that carry logic of their own: the
// pipeline-stage names shown while a turn streams, the filter that hides
// `<think>...</think>` blocks from streamed tokens even when a tag is split
// across chunks, and the rank arithmetic of the two tool-search evaluation
// endpoints (batch recall and the before/after comparison).

module Api {
  import opened Util
  import ToolCards
  import ToolIndex
  import EvalRecall
  import Retriever

  // ---------------------------------------------------------------
  // Pipeline stages
  // ---------------------------------------------------------------

  /** Graph nodes that have a stage name of their own. */
  const StageMap: map<string, string> := map[
    "input_guardrail" := "guard_input",
    "tools" := "execute",
    "output_guardrail" := "guard_output"]

  /** The nodes whose start and end are reported to the front end. */
  const GraphNodes: set<string> := StageMap.Keys + {"agent"}

  /** `_node_to_stage`: the first agent call analyzes, later ones generate; mapped nodes are renamed, others keep their name. */
  function NodeToStage(name: string, agentCalls: int): (r: string)
    ensures name == "agent" ==> (r == "analyze" <==> agentCalls <= 1) && (r == "analyze" || r == "generate")
    ensures name != "agent" && name in StageMap ==> r == StageMap[name]
    ensures name != "agent" && name !in StageMap ==> r == name
  {
    if name == "agent" then (if agentCalls <= 1 then "analyze" else "generate")
    else if name in StageMap then StageMap[name]
    else name
  }

  /** Within one agent call count, the reported nodes get pairwise different stage names. */
  lemma StagesDistinct(a: string, b: string, agentCalls: int)
    requires a in GraphNodes && b in GraphNodes && a != b
    ensures NodeToStage(a, agentCalls) != NodeToStage(b, agentCalls)
  {
  }

  /** Once the agent is reported as generating, later calls stay in that stage. */
  lemma GenerateIsFinal(agentCalls: int, later: int)
    requires agentCalls <= later
    requires NodeToStage("agent", agentCalls) == "generate"
    ensures NodeToStage("agent", later) == "generate"
  {
  }

  // ---------------------------------------------------------------
  // Streaming think filter
  // ---------------------------------------------------------------

  const OpenTag := "<think>"
  const CloseTag := "</think>"

  /** The tag the filter is looking for: the closing one inside a block, the opening one outside. */
  function Tag(inside: bool): (t: string)
    ensures |t| == (if inside then 8 else 7)
    ensures t[0] == '<' && forall k :: 0 < k < |t| ==> t[k] != '<'
  {
    if inside then CloseTag else OpenTag
  }

  /**
   * The reference meaning of a stream: the characters that lie outside every
   * `<think>`...`</think>` block, starting inside a block when `inside`.
   * An unclosed block hides the rest of the text.
   */
  function Visible(s: string, inside: bool): string
    decreases |s|
  {
    if s == [] then []
    else if !inside && StartsWith(s, OpenTag) then Visible(s[7..], true)
    else if inside && StartsWith(s, CloseTag) then Visible(s[8..], false)
    else if inside then Visible(s[1..], true)
    else [s[0]] + Visible(s[1..], false)
  }

  /** A string with every newline removed: the filter drops newlines after a closing tag only within one buffer. */
  function DropNewlines(s: string): (r: string)
    ensures '\n' !in r
    ensures |r| <= |s|
  {
    if s == [] then [] else (if s[0] == '\n' then [] else [s[0]]) + DropNewlines(s[1..])
  }

  lemma {:induction false} DropNewlinesAppend(a: string, b: string)
    ensures DropNewlines(a + b) == DropNewlines(a) + DropNewlines(b)
  {
    if a != [] {
      assert (a + b)[1..] == a[1..] + b;
      DropNewlinesAppend(a[1..], b);
    } else {
      assert a + b == b;
    }
  }

  /** Text free of the wanted tag up to position `k` is passed through (outside) or dropped (inside). */
  lemma {:induction false} SkipTo(s: string, inside: bool, k: nat)
    requires k <= |s|
    requires forall p :: 0 <= p < k ==> !StartsWith(s[p..], Tag(inside))
    ensures Visible(s, inside) == (if inside then [] else s[..k]) + Visible(s[k..], inside)
  {
    if k > 0 {
      SkipTail(s, inside, k);
      SkipTo(s[1..], inside, k - 1);
      SkipJoin(s, inside, k);
    } else {
      assert s[0..] == s;
    }
  }

  /** The tag-free prefix, shifted by one character. */
  lemma SkipTail(s: string, inside: bool, k: nat)
    requires 0 < k <= |s|
    requires forall p :: 0 <= p < k ==> !StartsWith(s[p..], Tag(inside))
    ensures forall p :: 0 <= p < k - 1 ==> !StartsWith(s[1..][p..], Tag(inside))
  {
    forall p | 0 <= p < k - 1
      ensures !StartsWith(s[1..][p..], Tag(inside))
    {
      assert s[1..][p..] == s[p + 1..];
    }
  }

  /** One step of `SkipTo`: the first character, then the rest of the prefix. */
  lemma SkipJoin(s: string, inside: bool, k: nat)
    requires 0 < k <= |s| && !StartsWith(s[0..], Tag(inside))
    requires Visible(s[1..], inside) == (if inside then [] else s[1..][..k - 1]) + Visible(s[1..][k - 1..], inside)
    ensures Visible(s, inside) == (if inside then [] else s[..k]) + Visible(s[k..], inside)
  {
    assert s[0..] == s;
    VisibleStep(s, inside);
    ConsSlices(s, k);
    var v := Visible(s[k..], inside);
    if !inside {
      StringAssoc([s[0]], s[1..][..k - 1], v);
    }
  }

  lemma ConsSlices(s: string, k: nat)
    requires 0 < k <= |s|
    ensures s[1..][k - 1..] == s[k..]
    ensures [s[0]] + s[1..][..k - 1] == s[..k]
  {
  }

  /** A character that does not start the wanted tag is shown (outside) or dropped (inside). */
  lemma VisibleStep(s: string, inside: bool)
    requires s != [] && !StartsWith(s, Tag(inside))
    ensures Visible(s, inside) == (if inside then [] else [s[0]]) + Visible(s[1..], inside)
  {
  }

  /** The first occurrence of the wanted tag in the buffer ends the current mode there. */
  lemma FoundTag(buf: string, rest: string, inside: bool, k: int)
    requires k == Find(buf, Tag(inside), 0) && k >= 0
    ensures Visible(buf + rest, inside) == (if inside then [] else buf[..k]) + Visible(buf[k + |Tag(inside)|..] + rest, !inside)
  {
    var t := Tag(inside);
    NoTagBeforeFound(buf, rest, t, k);
    SkipTo(buf + rest, inside, k);
    AppendSlices(buf, rest, k);
    TagAt(buf, rest, t, k);
    VisibleAtTag(buf[k..] + rest, inside);
  }

  /** Before the first occurrence in the buffer, no tag starts, whatever follows. */
  lemma NoTagBeforeFound(buf: string, rest: string, t: string, k: nat)
    requires k + |t| <= |buf| && forall p :: 0 <= p < k ==> !MatchAt(buf, t, p)
    ensures forall p :: 0 <= p < k ==> !StartsWith((buf + rest)[p..], t)
  {
    forall p | 0 <= p < k
      ensures !StartsWith((buf + rest)[p..], t)
    {
      WholeTagInBuffer(buf, rest, t, p);
    }
  }

  /** A tag found in the buffer starts the text from there on. */
  lemma TagAt(buf: string, rest: string, t: string, k: nat)
    requires MatchAt(buf, t, k)
    ensures StartsWith(buf[k..] + rest, t)
    ensures (buf[k..] + rest)[|t|..] == buf[k + |t|..] + rest
  {
    assert (buf[k..] + rest)[..|t|] == buf[k..k + |t|];
  }

  /** At the wanted tag the mode flips and the tag itself is not shown. */
  lemma VisibleAtTag(x: string, inside: bool)
    requires StartsWith(x, Tag(inside))
    ensures Visible(x, inside) == Visible(x[|Tag(inside)|..], !inside)
  {
  }

  /**
   * When the buffer holds no complete tag, everything before the held
   * suffix (a prefix of the tag, or nothing) is free of the tag even when
   * more text follows: the tag's `<` occurs only at its start.
   */
  lemma HoldSplit(buf: string, rest: string, inside: bool, i: nat)
    requires Find(buf, Tag(inside), 0) == -1
    requires HeldOk(buf, Tag(inside), i)
    ensures i < |Tag(inside)|
    ensures Visible(buf + rest, inside) == (if inside then [] else buf[..|buf| - i]) + Visible(buf[|buf| - i..] + rest, inside)
  {
    HeldShorterThanTag(buf, Tag(inside), i);
    NoTagBeforeHeldAll(buf, rest, inside, i);
    SkipTo(buf + rest, inside, |buf| - i);
    AppendSlices(buf, rest, |buf| - i);
  }

  lemma NoTagBeforeHeldAll(buf: string, rest: string, inside: bool, i: nat)
    requires Find(buf, Tag(inside), 0) == -1
    requires HeldOk(buf, Tag(inside), i)
    ensures forall p :: 0 <= p < |buf| - i ==> !StartsWith((buf + rest)[p..], Tag(inside))
  {
    forall p | 0 <= p < |buf| - i
      ensures !StartsWith((buf + rest)[p..], Tag(inside))
    {
      NoTagBeforeHeld(buf, rest, inside, i, p);
    }
  }

  /** Cutting `buf + rest` inside `buf`. */
  lemma AppendSlices(buf: string, rest: string, k: nat)
    requires k <= |buf|
    ensures (buf + rest)[..k] == buf[..k]
    ensures (buf + rest)[k..] == buf[k..] + rest
  {
  }

  /** A held suffix as long as the tag would be a complete tag, which the buffer does not contain. */
  lemma HeldShorterThanTag(buf: string, t: string, i: nat)
    requires Find(buf, t, 0) == -1
    requires HeldOk(buf, t, i)
    ensures i < |t| || i == 0
  {
    assert !MatchAt(buf, t, |buf| - i);
    assert buf[|buf| - i..|buf|] == buf[|buf| - i..];
    assert t[..|t|] == t;
  }

  /** One position of `HoldSplit`: no tag starts at `p`. */
  lemma NoTagBeforeHeld(buf: string, rest: string, inside: bool, i: nat, p: nat)
    requires Find(buf, Tag(inside), 0) == -1
    requires HeldOk(buf, Tag(inside), i)
    requires p < |buf| - i
    ensures !StartsWith((buf + rest)[p..], Tag(inside))
  {
    var t := Tag(inside);
    if p + |t| <= |buf| {
      assert !MatchAt(buf, t, p);
      WholeTagInBuffer(buf, rest, t, p);
    } else {
      TagCutAtEnd(buf, rest, t, i, p);
    }
  }

  /** A tag that would run past the end of the buffer cannot start before the held suffix. */
  lemma TagCutAtEnd(buf: string, rest: string, t: string, i: nat, p: nat)
    requires |t| > 0 && t[0] == '<' && forall k :: 0 < k < |t| ==> t[k] != '<'
    requires HeldOk(buf, t, i)
    requires p < |buf| - i && |buf| < p + |t|
    ensures !StartsWith((buf + rest)[p..], t)
  {
    var n := |buf| - p;
    if i == 0 {
      assert 1 <= n <= Min(|t|, |buf|);
    }
    PartialTagMismatch(buf, t, i, n);
    AppendSuffixPrefix(buf, rest, p);
    NotStartsWith((buf + rest)[p..], t, n);
  }

  /** The part of `buf + rest` from `p` begins with the rest of `buf`. */
  lemma AppendSuffixPrefix(buf: string, rest: string, p: nat)
    requires p <= |buf|
    ensures (buf + rest)[p..][..|buf| - p] == buf[|buf| - (|buf| - p)..]
  {
    var x, y := (buf + rest)[p..][..|buf| - p], buf[|buf| - (|buf| - p)..];
    assert |x| == |y|;
    forall k | 0 <= k < |x| ensures x[k] == y[k] {
      assert x[k] == buf[p + k];
    }
  }

  /** Where the tag would fit in the buffer, starting with it means matching the buffer there. */
  lemma WholeTagInBuffer(buf: string, rest: string, t: string, p: nat)
    requires p + |t| <= |buf| && !MatchAt(buf, t, p)
    ensures !StartsWith((buf + rest)[p..], t)
  {
    assert (buf + rest)[p..][..|t|] == buf[p..p + |t|];
  }

  /** A string whose first `n` characters differ from the tag's does not start with it. */
  lemma NotStartsWith(x: string, t: string, n: nat)
    requires n <= |t| && n <= |x| && x[..n] != t[..n]
    ensures !StartsWith(x, t)
  {
    if |t| <= |x| {
      assert x[..n] == x[..|t|][..n];
    }
  }

  /** A buffer suffix of length `n`, longer than the held one, is not a prefix of the tag. */
  lemma PartialTagMismatch(buf: string, t: string, i: nat, n: nat)
    requires |t| > 0 && t[0] == '<' && forall k :: 0 < k < |t| ==> t[k] != '<'
    requires i < n < |t| && n <= |buf|
    requires i > 0 ==> buf[|buf| - i..] == t[..i]
    requires i == 0 ==> buf[|buf| - n..] != t[..n]
    ensures buf[|buf| - n..] != t[..n]
  {
    if i > 0 {
      assert buf[|buf| - n..][n - i] == buf[|buf| - i..][0];
      assert t[..n][n - i] == t[n - i];
    }
  }

  /** Newlines right after a closing tag are not visible content, up to newline removal. */
  lemma {:induction false} NewlinesAfterClose(x: string, rest: string)
    ensures DropNewlines(Visible(LStripChars(x, {'\n'}) + rest, false)) == DropNewlines(Visible(x + rest, false))
  {
    if x != [] && x[0] == '\n' {
      NewlinesAfterClose(x[1..], rest);
      NewlineStep(x, rest);
    }
  }

  /** One leading newline: stripped by the filter, and invisible once newlines are dropped. */
  lemma NewlineStep(x: string, rest: string)
    requires x != [] && x[0] == '\n'
    ensures LStripChars(x, {'\n'}) == LStripChars(x[1..], {'\n'})
    ensures DropNewlines(Visible(x + rest, false)) == DropNewlines(Visible(x[1..] + rest, false))
  {
    assert x + rest == ['\n'] + (x[1..] + rest);
    VisibleNewline(x[1..] + rest);
    DropLeadingNewline(Visible(x[1..] + rest, false));
  }

  lemma DropLeadingNewline(y: string)
    ensures DropNewlines(['\n'] + y) == DropNewlines(y)
  {
    assert (['\n'] + y)[1..] == y;
  }

  /** A newline outside a block is shown as it is. */
  lemma VisibleNewline(y: string)
    ensures Visible(['\n'] + y, false) == ['\n'] + Visible(y, false)
  {
    var s := ['\n'] + y;
    assert s[0] != OpenTag[0];
    assert !StartsWith(s, OpenTag);
    assert s[1..] == y;
  }

  /**
   * `i` is a length the filter may hold back: 0 when no buffer suffix is a
   * prefix of `tag`, otherwise the length of one that is.
   */
  predicate HeldOk(buf: string, tag: string, i: nat) {
    && i <= Min(|tag|, |buf|)
    && (i > 0 ==> buf[|buf| - i..] == tag[..i])
    && (i == 0 ==> forall n :: 1 <= n <= Min(|tag|, |buf|) ==> buf[|buf| - n..] != tag[..n])
  }

  /** The shortest buffer suffix that is a prefix of `tag` (its length), or 0 when there is none. */
  method HeldLength(buf: string, tag: string) returns (i: nat)
    ensures HeldOk(buf, tag, i)
    ensures i > 0 ==> forall n :: 1 <= n < i ==> buf[|buf| - n..] != tag[..n]
  {
    var n := 1;
    while n <= Min(|tag|, |buf|)
      invariant 1 <= n <= Min(|tag|, |buf|) + 1
      invariant forall m :: 1 <= m < n ==> buf[|buf| - m..] != tag[..m]
    {
      if tag[..n] == buf[|buf| - n..] {
        return n;
      }
      n := n + 1;
    }
    return 0;
  }

  /**
   * `_ThinkFilter`: `buf` holds text not yet decided (a possible partial
   * tag), `inside` says whether a think block is open.
   */
  class ThinkFilter {
    var buf: string
    var inside: bool

    constructor()
      ensures buf == [] && !inside
    {
      buf := [];
      inside := false;
    }

    /**
     * `feed`, with the text already gathered in this call returned when it
     * ends inside an unclosed block.  Whatever `rest` the stream continues
     * with, the returned text followed by the visible part of the held state
     * is the visible part of the whole stream, up to newlines; and the held
     * buffer is shorter than the tag being waited for.
     */
    method Feed(text: string, ghost rest: string) returns (out: string)
      modifies this
      ensures DropNewlines(out + Visible(buf + rest, inside)) == DropNewlines(Visible(old(buf) + text + rest, old(inside)))
      ensures |buf| < |Tag(inside)|
    {
      ghost var goal := DropNewlines(Visible(buf + text + rest, inside));
      var b, ins := buf + text, inside;
      out := [];
      assert b + rest == buf + text + rest;
      assert out + Visible(b + rest, ins) == Visible(b + rest, ins);
      while b != []
        invariant DropNewlines(out + Visible(b + rest, ins)) == goal
        decreases |b|
      {
        ghost var before := Visible(b + rest, ins);
        if ins {
          var end := Find(b, CloseTag, 0);
          if end >= 0 {
            FoundClose(b, rest, end);
            b := LStripChars(b[end + 8..], {'\n'});
            ins := false;
            Shift(out, before, [], Visible(b + rest, ins));
            assert out + [] == out;
            continue;
          }
          var i := HeldLength(b, CloseTag);
          HoldSplit(b, rest, true, i);
          Shift(out, before, [], Visible(b[|b| - i..] + rest, true));
          assert out + [] == out;
          buf, inside := b[|b| - i..], ins;
          return;
        }
        var start := Find(b, OpenTag, 0);
        if start >= 0 {
          FoundTag(b, rest, false, start);
          Shift(out, before, b[..start], Visible(b[start + 7..] + rest, true));
          out := out + b[..start];
          b := b[start + 7..];
          ins := true;
          continue;
        }
        var i := HeldLength(b, OpenTag);
        HoldSplit(b, rest, false, i);
        Shift(out, before, b[..|b| - i], Visible(b[|b| - i..] + rest, false));
        if i > 0 {
          out := out + b[..|b| - i];
          buf, inside := b[|b| - i..], ins;
          return;
        }
        assert b[..|b| - i] == b && b[|b| - i..] == [];
        out := out + b;
        b := [];
      }
      buf, inside := b, ins;
    }
  }

  /** Moving emitted text from the pending part to the output keeps the shown-plus-pending text. */
  lemma Shift(out: string, pending: string, emitted: string, later: string)
    requires DropNewlines(pending) == DropNewlines(emitted + later)
    ensures DropNewlines(out + pending) == DropNewlines((out + emitted) + later)
  {
    var a, b, c := DropNewlines(out), DropNewlines(emitted), DropNewlines(later);
    DropNewlinesAppend(out, pending);
    DropNewlinesAppend(emitted, later);
    DropNewlinesAppend(out, emitted);
    DropNewlinesAppend(out + emitted, later);
    StringAssoc(a, b, c);
  }

  lemma StringAssoc(a: string, b: string, c: string)
    ensures a + (b + c) == (a + b) + c
  {
  }

  /** Inside a block, a closing tag in the buffer hides everything up to it, and the newlines after it. */
  lemma FoundClose(buf: string, rest: string, end: int)
    requires end == Find(buf, CloseTag, 0) && end >= 0
    ensures DropNewlines(Visible(buf + rest, true)) == DropNewlines([] + Visible(LStripChars(buf[end + 8..], {'\n'}) + rest, false))
  {
    FoundTag(buf, rest, true, end);
    NewlinesAfterClose(buf[end + 8..], rest);
    assert [] + Visible(LStripChars(buf[end + 8..], {'\n'}) + rest, false) == Visible(LStripChars(buf[end + 8..], {'\n'}) + rest, false);
    assert Visible(buf + rest, true) == Visible(buf[end + 8..] + rest, false);
  }

  /** The chunks of a stream, concatenated. */
  function Concat(chunks: seq<string>): string {
    if chunks == [] then [] else chunks[0] + Concat(chunks[1..])
  }

  /**
   * The streaming endpoint's use of the filter: one fresh filter per turn,
   * fed every token chunk.  What it has shown, followed by the visible part
   * of what it still holds, is the visible part of the whole answer (up to
   * newlines), however the tags fall across chunks.
   */
  method FilterStream(chunks: seq<string>) returns (shown: string, held: string, heldInside: bool)
    ensures DropNewlines(shown + Visible(held, heldInside)) == DropNewlines(Visible(Concat(chunks), false))
    ensures |held| < 8
  {
    ghost var goal := DropNewlines(Visible(Concat(chunks), false));
    var f := new ThinkFilter();
    shown := [];
    assert chunks[0..] == chunks;
    assert f.buf + Concat(chunks) == Concat(chunks);
    assert shown + Visible(Concat(chunks), false) == Visible(Concat(chunks), false);
    for i := 0 to |chunks|
      invariant DropNewlines(shown + Visible(f.buf + Concat(chunks[i..]), f.inside)) == goal
      invariant |f.buf| < 8
    {
      ghost var rest := Concat(chunks[i + 1..]);
      ghost var pending := Visible(f.buf + chunks[i] + rest, f.inside);
      ConcatFrom(chunks, i);
      assert f.buf + Concat(chunks[i..]) == f.buf + chunks[i] + rest;
      var out := f.Feed(chunks[i], rest);
      Shift(shown, pending, out, Visible(f.buf + rest, f.inside));
      shown := shown + out;
    }
    held, heldInside := f.buf, f.inside;
    assert f.buf + Concat(chunks[|chunks|..]) == f.buf;
  }

  lemma ConcatFrom(chunks: seq<string>, i: nat)
    requires i < |chunks|
    ensures Concat(chunks[i..]) == chunks[i] + Concat(chunks[i + 1..])
  {
    assert chunks[i..][1..] == chunks[i + 1..];
  }

  // The filter as written: an unclosed block ends the call with "" and loses
  // the text gathered before the opening tag in the same call.

  /** One `feed` call as written: (returned text, new buffer, new flag). */
  function FeedAsWritten(buf: string, inside: bool, text: string): (string, string, bool) {
    FeedLoopAsWritten(buf + text, inside, [])
  }

  function FeedLoopAsWritten(buf: string, inside: bool, out: string): (r: (string, string, bool))
    decreases |buf|
  {
    if buf == [] then (out, buf, inside)
    else if inside then
      var end := Find(buf, CloseTag, 0);
      if end >= 0 then FeedLoopAsWritten(LStripChars(buf[end + 8..], {'\n'}), false, out)
      else ([], buf[|buf| - HeldSuffix(buf, CloseTag, 1)..], true)
    else
      var start := Find(buf, OpenTag, 0);
      if start >= 0 then FeedLoopAsWritten(buf[start + 7..], true, out + buf[..start])
      else
        var i := HeldSuffix(buf, OpenTag, 1);
        if i > 0 then (out + buf[..|buf| - i], buf[|buf| - i..], false)
        else (out + buf, [], false)
  }

  /** The shortest suffix length from `n` on that is a prefix of `tag`, or 0. */
  function HeldSuffix(buf: string, tag: string, n: nat): (i: nat)
    requires n >= 1
    ensures i <= Min(|tag|, |buf|)
    decreases Min(|tag|, |buf|) + 1 - n
  {
    if n > Min(|tag|, |buf|) then 0
    else if tag[..n] == buf[|buf| - n..] then n
    else HeldSuffix(buf, tag, n + 1)
  }

  /** Text before an opening tag is lost when the block stays open to the end of the chunk. */
  lemma LostBeforeOpenTag()
    ensures FeedAsWritten([], false, "hello" + OpenTag + "abc").0 == ""
    ensures Visible("hello" + OpenTag + "abc", false) == "hello"
  {
    FindAfterFree("hello", "abc");
    FeedDropsHello();
    VisibleHello();
  }

  lemma FeedDropsHello()
    requires Find("hello" + OpenTag + "abc", OpenTag, 0) == 5
    ensures FeedAsWritten([], false, "hello" + OpenTag + "abc").0 == ""
  {
    var s := "hello" + OpenTag + "abc";
    AroundTag("hello", "abc");
    assert [] + s == s;
    assert FeedLoopAsWritten(s, false, []) == FeedLoopAsWritten("abc", true, [] + "hello");
  }

  /** The text before and after a tag placed between two strings. */
  lemma AroundTag(pre: string, post: string)
    ensures (pre + OpenTag + post)[..|pre|] == pre
    ensures (pre + OpenTag + post)[|pre| + 7..] == post
  {
  }

  lemma VisibleHello()
    requires Find("hello" + OpenTag + "abc", OpenTag, 0) == 5
    ensures Visible("hello" + OpenTag + "abc", false) == "hello"
  {
    var s := "hello" + OpenTag + "abc";
    FoundTag(s, [], false, 5);
    AroundTag("hello", "abc");
    assert s + [] == s && "abc" + [] == "abc";
    assert Visible("abc", true) == [] by {
      assert !StartsWith("abc", CloseTag);
      assert !StartsWith("bc", CloseTag);
      assert !StartsWith("c", CloseTag);
      assert "abc"[1..] == "bc" && "bc"[1..] == "c" && "c"[1..] == [];
    }
  }

  /** After a prefix without any `<`, the first open tag is the one that follows it. */
  lemma FindAfterFree(pre: string, post: string)
    requires forall k :: 0 <= k < |pre| ==> pre[k] != '<'
    ensures Find(pre + OpenTag + post, OpenTag, 0) == |pre|
  {
    var s := pre + OpenTag + post;
    assert s[|pre|..|pre| + 7] == OpenTag;
    assert MatchAt(s, OpenTag, |pre|);
    forall r | 0 <= r < |pre|
      ensures !MatchAt(s, OpenTag, r)
    {
      NoTagInFree(pre, post, r);
    }
  }

  /** No open tag starts inside a prefix without `<`. */
  lemma NoTagInFree(pre: string, post: string, r: nat)
    requires forall k :: 0 <= k < |pre| ==> pre[k] != '<'
    requires r < |pre|
    ensures !MatchAt(pre + OpenTag + post, OpenTag, r)
  {
    var s := pre + OpenTag + post;
    assert s[r] == pre[r] != '<';
    assert r + 7 <= |s| ==> s[r..r + 7][0] == s[r];
  }

  // ---------------------------------------------------------------
  // Batch recall of one tool card
  // ---------------------------------------------------------------

  /** What `eval_batch` records for one positive example of the card. */
  datatype BatchDetail = BatchDetail(query: string, rank: Option<nat>, passAt3: bool, topHits: seq<ToolIndex.ToolCandidate>)

  datatype BatchReport = BatchReport(
    toolName: string,
    total: nat,
    recall1: real,
    recall3: real,
    recall5: real,
    details: seq<BatchDetail>)

  /** The detail for one query: the tool's first 1-based position among the hits, if any. */
  function Detail(toolName: string, query: string, hits: seq<ToolIndex.ToolCandidate>): (d: BatchDetail)
    ensures d.rank.None? <==> forall j :: 0 <= j < |hits| ==> hits[j].name != toolName
    ensures d.rank.Some? ==> 1 <= d.rank.value <= |hits| && hits[d.rank.value - 1].name == toolName
    ensures d.rank.Some? ==> forall j :: 0 <= j < d.rank.value - 1 ==> hits[j].name != toolName
    ensures d.passAt3 <==> d.rank.Some? && d.rank.value <= 3
    ensures d.query == query && |d.topHits| <= 5
  {
    var top := hits[..Min(5, |hits|)];
    match HitRank(hits, toolName)
      case None => BatchDetail(query, None, false, top)
      case Some(k) => BatchDetail(query, Some(k), k <= 3, top)
  }

  function HitRank(hits: seq<ToolIndex.ToolCandidate>, name: string): (r: Option<nat>)
    ensures r.None? <==> forall j :: 0 <= j < |hits| ==> hits[j].name != name
    ensures r.Some? ==> 1 <= r.value <= |hits| && hits[r.value - 1].name == name
    ensures r.Some? ==> forall j :: 0 <= j < r.value - 1 ==> hits[j].name != name
  {
    RankOfHits(hits, name);
    EvalRecall.FirstRank(EvalRecall.Names(hits), name)
  }

  /** The first rank among the hit names, read back on the hits. */
  lemma RankOfHits(hits: seq<ToolIndex.ToolCandidate>, name: string)
    ensures var r := EvalRecall.FirstRank(EvalRecall.Names(hits), name);
      && (r.None? <==> forall j :: 0 <= j < |hits| ==> hits[j].name != name)
      && (r.Some? ==> 1 <= r.value <= |hits| && hits[r.value - 1].name == name)
      && (r.Some? ==> forall j :: 0 <= j < r.value - 1 ==> hits[j].name != name)
  {
    var names := EvalRecall.Names(hits);
    var r := EvalRecall.FirstRank(names, name);
    if name in names {
      var j :| 0 <= j < |names| && names[j] == name;
      assert hits[j].name == name;
    }
    if exists j :: 0 <= j < |hits| && hits[j].name == name {
      var j :| 0 <= j < |hits| && hits[j].name == name;
      assert names[j] == name;
    }
    if r.Some? {
      assert names[r.value - 1] == hits[r.value - 1].name;
    }
  }

  function Details(toolName: string, uses: seq<string>, search: EvalRecall.Searcher): (ds: seq<BatchDetail>)
    ensures |ds| == |uses|
    ensures forall i :: 0 <= i < |uses| ==> ds[i] == Detail(toolName, uses[i], search(uses[i], 5))
  {
    seq(|uses|, i requires 0 <= i < |uses| => Detail(toolName, uses[i], search(uses[i], 5)))
  }

  /** Every detail of a batch is well formed. */
  lemma DetailsWellFormed(toolName: string, uses: seq<string>, search: EvalRecall.Searcher)
    ensures forall i :: 0 <= i < |uses| ==> WellFormed(Details(toolName, uses, search)[i])
  {
    var ds := Details(toolName, uses, search);
    forall i | 0 <= i < |uses| ensures WellFormed(ds[i]) {
      var d := Detail(toolName, uses[i], search(uses[i], 5));
      assert ds[i] == d;
    }
  }

  /** A detail as `Detail` builds it: a rank is at least 1 and `pass_at_3` agrees with it. */
  predicate WellFormed(d: BatchDetail) {
    (d.rank.Some? ==> d.rank.value >= 1) && (d.passAt3 <==> d.rank.Some? && d.rank.value <= 3)
  }

  /** Details whose rank is exactly 1. */
  function AtRank1(ds: seq<BatchDetail>): nat {
    if ds == [] then 0 else AtRank1(ds[..|ds| - 1]) + (if ds[|ds| - 1].rank == Some(1) then 1 else 0)
  }

  /** Details marked `pass_at_3`. */
  function PassAt3(ds: seq<BatchDetail>): nat {
    if ds == [] then 0 else PassAt3(ds[..|ds| - 1]) + (if ds[|ds| - 1].passAt3 then 1 else 0)
  }

  /** Details with a (non-zero) rank of at most 5. */
  function Within5(ds: seq<BatchDetail>): nat {
    if ds == [] then 0
    else Within5(ds[..|ds| - 1]) + (if ds[|ds| - 1].rank.Some? && ds[|ds| - 1].rank.value != 0 && ds[|ds| - 1].rank.value <= 5 then 1 else 0)
  }

  /** Recall@1 counts no more than Recall@3, which counts no more than Recall@5, which counts no more than all. */
  lemma {:induction false} RecallCountsOrdered(ds: seq<BatchDetail>)
    requires forall i :: 0 <= i < |ds| ==> WellFormed(ds[i])
    ensures AtRank1(ds) <= PassAt3(ds) <= Within5(ds) <= |ds|
  {
    if ds != [] {
      RecallCountsOrdered(ds[..|ds| - 1]);
    }
  }

  /** The loop of `eval_batch`: one search with k = 5 per example, in example order. */
  method SearchExamples(toolName: string, uses: seq<string>, search: EvalRecall.Searcher) returns (details: seq<BatchDetail>)
    ensures details == Details(toolName, uses, search)
  {
    details := [];
    for i := 0 to |uses|
      invariant |details| == i
      invariant forall k :: 0 <= k < i ==> details[k] == Detail(toolName, uses[k], search(uses[k], 5))
    {
      var hits := search(uses[i], 5);
      details := details + [Detail(toolName, uses[i], hits)];
    }
  }

  /** The three recall figures of a batch are ordered and lie between 0 and 1. */
  lemma ReportOrdered(toolName: string, uses: seq<string>, search: EvalRecall.Searcher)
    ensures var ds, n := Details(toolName, uses, search), |uses|;
      0.0 <= EvalRecall.Ratio(AtRank1(ds) as real, n) <= EvalRecall.Ratio(PassAt3(ds) as real, n)
      <= EvalRecall.Ratio(Within5(ds) as real, n) <= 1.0
  {
    var ds, n := Details(toolName, uses, search), |uses|;
    DetailsWellFormed(toolName, uses, search);
    RecallCountsOrdered(ds);
    var r1, r3, r5 := AtRank1(ds) as real, PassAt3(ds) as real, Within5(ds) as real;
    EvalRecall.RatioMono(r1, r3, n);
    EvalRecall.RatioMono(r3, r5, n);
    EvalRecall.RatioUnit(r1, n);
    EvalRecall.RatioUnit(r5, n);
  }

  /**
   * `eval_batch`: searches every positive example of the card with k = 5
   * and reports Recall@1/3/5 as fractions of the examples rounded to four
   * decimals; no card, or a card without examples, is an error.
   */
  method EvalBatch(reg: ToolCards.CardRegistry, toolName: string, search: EvalRecall.Searcher) returns (r: Result<BatchReport>)
    requires ToolCards.Valid(reg)
    ensures r.Err? <==> toolName !in reg.values || reg.values[toolName].whenToUse == []
    ensures r.Err? ==> r.msg == "No ToolCard or when_to_use for '" + toolName + "'"
    ensures r.Ok? ==>
      var uses := reg.values[toolName].whenToUse;
      && r.value.toolName == toolName && r.value.total == |uses|
      && r.value.details == Details(toolName, uses, search)
      && r.value.recall1 == Retriever.Round4(EvalRecall.Ratio(AtRank1(r.value.details) as real, |uses|))
      && r.value.recall3 == Retriever.Round4(EvalRecall.Ratio(PassAt3(r.value.details) as real, |uses|))
      && r.value.recall5 == Retriever.Round4(EvalRecall.Ratio(Within5(r.value.details) as real, |uses|))
    ensures r.Ok? ==> 0.0 <= r.value.recall1 <= r.value.recall3 <= r.value.recall5 <= 1.0
  {
    var card := ToolCards.GetCard(reg, toolName);
    if card.None? || card.value.whenToUse == [] {
      return Err("No ToolCard or when_to_use for '" + toolName + "'");
    }
    var uses := card.value.whenToUse;
    var details := SearchExamples(toolName, uses, search);
    var n := |details|;
    ReportOrdered(toolName, uses, search);
    var r1, r3, r5 := EvalRecall.Ratio(AtRank1(details) as real, n), EvalRecall.Ratio(PassAt3(details) as real, n),
      EvalRecall.Ratio(Within5(details) as real, n);
    Retriever.Round4Unit(r1);
    Retriever.Round4Unit(r5);
    Retriever.Round4Mono(r1, r3);
    Retriever.Round4Mono(r3, r5);
    return Ok(BatchReport(toolName, n, Retriever.Round4(r1), Retriever.Round4(r3), Retriever.Round4(r5), details));
  }

  // ---------------------------------------------------------------
  // Before/after comparison of one tool card
  // ---------------------------------------------------------------

  /** One row of a batch result as posted back: the query and its rank, if any. */
  datatype RankedQuery = RankedQuery(query: string, rank: Option<int>)

  /** `rank or 99`: a missing or zero rank counts as worse than every real rank below 99. */
  function EffectiveRank(r: Option<int>): (e: int)
    ensures r.None? ==> e == 99
    ensures r.Some? ==> e == (if r.value == 0 then 99 else r.value)
  {
    if r.None? || r.value == 0 then 99 else r.value
  }

  predicate IsImproved(a: RankedQuery, t: RankedQuery) {
    EffectiveRank(t.rank) < EffectiveRank(a.rank)
  }

  predicate IsRegressed(a: RankedQuery, t: RankedQuery) {
    EffectiveRank(t.rank) > EffectiveRank(a.rank)
  }

  /** The queries of the first `n` pairs whose rank got better, in order. */
  function Improved(asIs: seq<RankedQuery>, toBe: seq<RankedQuery>, n: nat): (r: seq<string>)
    requires n <= |asIs| && n <= |toBe|
    ensures |r| <= n
    ensures forall q :: q in r <==> exists i :: 0 <= i < n && IsImproved(asIs[i], toBe[i]) && asIs[i].query == q
  {
    if n == 0 then []
    else Improved(asIs, toBe, n - 1) + (if IsImproved(asIs[n - 1], toBe[n - 1]) then [asIs[n - 1].query] else [])
  }

  /** The queries of the first `n` pairs whose rank got worse, in order. */
  function Regressed(asIs: seq<RankedQuery>, toBe: seq<RankedQuery>, n: nat): (r: seq<string>)
    requires n <= |asIs| && n <= |toBe|
    ensures |r| <= n
    ensures forall q :: q in r <==> exists i :: 0 <= i < n && IsRegressed(asIs[i], toBe[i]) && asIs[i].query == q
  {
    if n == 0 then []
    else Regressed(asIs, toBe, n - 1) + (if IsRegressed(asIs[n - 1], toBe[n - 1]) then [asIs[n - 1].query] else [])
  }

  /** `zip(as_is, to_be)` cut to its first `n` pairs. */
  function Pairs(asIs: seq<RankedQuery>, toBe: seq<RankedQuery>, n: nat): (r: seq<(RankedQuery, RankedQuery)>)
    requires n <= |asIs| && n <= |toBe|
    ensures |r| == n
  {
    if n == 0 then [] else Pairs(asIs, toBe, n - 1) + [(asIs[n - 1], toBe[n - 1])]
  }

  /** The as-is query of each pair. */
  function QueriesOf(ps: seq<(RankedQuery, RankedQuery)>): (r: seq<string>)
    ensures |r| == |ps|
  {
    if ps == [] then [] else [ps[0].0.query] + QueriesOf(ps[1..])
  }

  lemma {:induction false} QueriesOfAppend(a: seq<(RankedQuery, RankedQuery)>, b: seq<(RankedQuery, RankedQuery)>)
    ensures QueriesOf(a + b) == QueriesOf(a) + QueriesOf(b)
  {
    if a != [] {
      assert (a + b)[1..] == a[1..] + b;
      QueriesOfAppend(a[1..], b);
    } else {
      assert a + b == b;
    }
  }

  /** `improved` is the list comprehension over the zipped rows: order and repeats as in the input. */
  lemma {:induction false} ImprovedInOrder(asIs: seq<RankedQuery>, toBe: seq<RankedQuery>, n: nat)
    requires n <= |asIs| && n <= |toBe|
    ensures Improved(asIs, toBe, n) ==
      QueriesOf(Filter(Pairs(asIs, toBe, n), (p: (RankedQuery, RankedQuery)) => IsImproved(p.0, p.1)))
  {
    if n > 0 {
      var f := (p: (RankedQuery, RankedQuery)) => IsImproved(p.0, p.1);
      ImprovedInOrder(asIs, toBe, n - 1);
      var init := Pairs(asIs, toBe, n - 1);
      var last := (asIs[n - 1], toBe[n - 1]);
      assert Pairs(asIs, toBe, n) == init + [last];
      FilterAppend(init, [last], f);
      var a := Filter(init, f);
      var b := Filter([last], f);
      assert b == if IsImproved(last.0, last.1) then [last] else [];
      QueriesOfAppend(a, b);
    }
  }

  /** `regressed` is the list comprehension over the zipped rows: order and repeats as in the input. */
  lemma {:induction false} RegressedInOrder(asIs: seq<RankedQuery>, toBe: seq<RankedQuery>, n: nat)
    requires n <= |asIs| && n <= |toBe|
    ensures Regressed(asIs, toBe, n) ==
      QueriesOf(Filter(Pairs(asIs, toBe, n), (p: (RankedQuery, RankedQuery)) => IsRegressed(p.0, p.1)))
  {
    if n > 0 {
      var f := (p: (RankedQuery, RankedQuery)) => IsRegressed(p.0, p.1);
      RegressedInOrder(asIs, toBe, n - 1);
      var init := Pairs(asIs, toBe, n - 1);
      var last := (asIs[n - 1], toBe[n - 1]);
      assert Pairs(asIs, toBe, n) == init + [last];
      FilterAppend(init, [last], f);
      var a := Filter(init, f);
      var b := Filter([last], f);
      assert b == if IsRegressed(last.0, last.1) then [last] else [];
      QueriesOfAppend(a, b);
    }
  }

  /** How many of the first `n` pairs kept their effective rank. */
  function Unchanged(asIs: seq<RankedQuery>, toBe: seq<RankedQuery>, n: nat): nat
    requires n <= |asIs| && n <= |toBe|
  {
    if n == 0 then 0
    else Unchanged(asIs, toBe, n - 1) + (if EffectiveRank(toBe[n - 1].rank) == EffectiveRank(asIs[n - 1].rank) then 1 else 0)
  }

  /** Every compared pair is exactly one of improved, regressed or unchanged. */
  lemma {:induction false} ComparePartition(asIs: seq<RankedQuery>, toBe: seq<RankedQuery>, n: nat)
    requires n <= |asIs| && n <= |toBe|
    ensures |Improved(asIs, toBe, n)| + |Regressed(asIs, toBe, n)| + Unchanged(asIs, toBe, n) == n
  {
    if n > 0 {
      ComparePartition(asIs, toBe, n - 1);
    }
  }

  /** A query the new card finds (below rank 99) and the old one missed counts as improved. */
  lemma FoundBeatsMissing(a: RankedQuery, t: RankedQuery)
    requires a.rank.None? && t.rank.Some? && 1 <= t.rank.value < 99
    ensures IsImproved(a, t) && !IsRegressed(a, t)
  {
  }

  /** The loop over the zipped rows: queries whose rank improved and those whose rank regressed. */
  method CompareRanks(asIs: seq<RankedQuery>, toBe: seq<RankedQuery>) returns (improved: seq<string>, regressed: seq<string>)
    ensures improved == Improved(asIs, toBe, Min(|asIs|, |toBe|))
    ensures regressed == Regressed(asIs, toBe, Min(|asIs|, |toBe|))
  {
    improved, regressed := [], [];
    for i := 0 to Min(|asIs|, |toBe|)
      invariant improved == Improved(asIs, toBe, i)
      invariant regressed == Regressed(asIs, toBe, i)
    {
      var ar := EffectiveRank(asIs[i].rank);
      var tr := EffectiveRank(toBe[i].rank);
      if tr < ar {
        improved := improved + [asIs[i].query];
      } else if tr > ar {
        regressed := regressed + [asIs[i].query];
      }
    }
  }

  /** Rows whose rank is exactly 1. */
  function CountRank1(rs: seq<RankedQuery>): nat {
    if rs == [] then 0 else CountRank1(rs[..|rs| - 1]) + (if rs[|rs| - 1].rank == Some(1) then 1 else 0)
  }

  /** Rows with a truthy rank of at most 3 (a negative rank is counted too). */
  function CountIn3(rs: seq<RankedQuery>): nat {
    if rs == [] then 0
    else CountIn3(rs[..|rs| - 1]) + (if rs[|rs| - 1].rank.Some? && rs[|rs| - 1].rank.value != 0 && rs[|rs| - 1].rank.value <= 3 then 1 else 0)
  }

  lemma {:induction false} Rank1WithinTop3(rs: seq<RankedQuery>)
    ensures CountRank1(rs) <= CountIn3(rs) <= |rs|
  {
    if rs != [] {
      Rank1WithinTop3(rs[..|rs| - 1]);
    }
  }

  /**
   * Python's `round(c / n * 100) if n else 0`: the share `100 * c / n`
   * rounded to the nearest whole number, a tie going to the even neighbour.
   */
  function Percent(c: nat, n: nat): nat {
    if n == 0 then 0
    else
      var q := (100 * c) / n;
      var rem := (100 * c) % n;
      if 2 * rem < n || (2 * rem == n && q % 2 == 0) then q else q + 1
  }

  /**
   * The percentage is within one half of `100 * c / n`, and on an exact
   * half it is the even neighbour; with no rows it is 0.
   */
  lemma PercentNearest(c: nat, n: nat)
    ensures n == 0 ==> Percent(c, n) == 0
    ensures n > 0 ==> (2 * Percent(c, n) - 1) * n <= 200 * c <= (2 * Percent(c, n) + 1) * n
    ensures n > 0 && (2 * Percent(c, n) - 1) * n == 200 * c ==> Percent(c, n) % 2 == 0
    ensures n > 0 && 200 * c == (2 * Percent(c, n) + 1) * n ==> Percent(c, n) % 2 == 0
  {
    if n > 0 {
      var p := Percent(c, n);
      var q := (100 * c) / n;
      var rem := (100 * c) % n;
      assert 200 * c == 2 * (q * n) + 2 * rem;
      assert (2 * p - 1) * n == 2 * (p * n) - n;
      assert (2 * p + 1) * n == 2 * (p * n) + n;
      if p == q + 1 {
        assert p * n == q * n + n;
      }
    }
  }

  /** A larger count never gives a smaller percentage over the same total. */
  lemma PercentMono(c1: nat, c2: nat, n: nat)
    requires c1 <= c2
    ensures Percent(c1, n) <= Percent(c2, n)
  {
    if n > 0 && c1 < c2 {
      var p1, p2 := Percent(c1, n), Percent(c2, n);
      if p2 < p1 {
        PercentNearest(c1, n);
        PercentNearest(c2, n);
        assert (2 * p1 - 1) * n >= (2 * p2 + 1) * n by {
          assert 2 * p1 - 1 >= 2 * p2 + 1;
          MulMono(2 * p2 + 1, 2 * p1 - 1, n);
        }
        assert false;
      }
    }
  }

  lemma MulMono(a: int, b: int, n: nat)
    requires a <= b
    ensures a * n <= b * n
  {
    assert b * n - a * n == (b - a) * n;
  }

  /** A count within the total is at most 100 per cent. */
  lemma PercentAtMost100(c: nat, n: nat)
    requires c <= n
    ensures Percent(c, n) <= 100
  {
    PercentMono(c, n, n);
    if n > 0 {
      var p := Percent(n, n);
      if 100 < p {
        PercentNearest(n, n);
        MulMono(201, 2 * p - 1, n);
        assert false;
      }
    }
  }

  /** The quantitative part of the comparison: four percentages and three counts. */
  datatype Quantitative = Quantitative(
    asIsR1: nat, toBeR1: nat,
    asIsIn3: nat, toBeIn3: nat,
    improved: nat, regressed: nat,
    total: nat)

  /**
   * `eval_compare_analysis`, quantitative part: the tool name and both
   * result lists are required; the rank-1 and top-3 shares of each side as
   * percentages of the as-is list's length, and the improved and regressed
   * pairs over as many rows as both lists hold.
   */
  method CompareAnalysis(toolName: string, asIs: seq<RankedQuery>, toBe: seq<RankedQuery>) returns (r: Result<Quantitative>)
    ensures r.Err? <==> Strip(toolName) == [] || asIs == [] || toBe == []
    ensures r.Err? ==> r.msg == "tool_name, as_is, to_be are required"
    ensures r.Ok? ==>
      var n := |asIs|;
      var m := Min(|asIs|, |toBe|);
      r.value == Quantitative(
        Percent(CountRank1(asIs), n), Percent(CountRank1(toBe), n),
        Percent(CountIn3(asIs), n), Percent(CountIn3(toBe), n),
        |Improved(asIs, toBe, m)|, |Regressed(asIs, toBe, m)|, n)
    ensures r.Ok? ==> r.value.improved + r.value.regressed <= r.value.total
    ensures r.Ok? ==> r.value.asIsR1 <= r.value.asIsIn3 <= 100 && r.value.toBeR1 <= r.value.toBeIn3
    ensures r.Ok? && |toBe| <= |asIs| ==> r.value.toBeIn3 <= 100
  {
    if Strip(toolName) == [] || asIs == [] || toBe == [] {
      return Err("tool_name, as_is, to_be are required");
    }
    var n := |asIs|;
    var improved, regressed := CompareRanks(asIs, toBe);
    ComparePartition(asIs, toBe, Min(|asIs|, |toBe|));
    Rank1WithinTop3(asIs);
    Rank1WithinTop3(toBe);
    PercentMono(CountRank1(asIs), CountIn3(asIs), n);
    PercentMono(CountRank1(toBe), CountIn3(toBe), n);
    PercentAtMost100(CountIn3(asIs), n);
    if |toBe| <= n {
      PercentAtMost100(CountIn3(toBe), n);
    }
    var q := Quantitative(
      Percent(CountRank1(asIs), n), Percent(CountRank1(toBe), n),
      Percent(CountIn3(asIs), n), Percent(CountIn3(toBe), n),
      |improved|, |regressed|, n);
    return Ok(q);
  }
}
