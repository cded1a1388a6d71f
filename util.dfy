/** Helpers shared by every module: an Option type and the handful of Python
    `str` operations the agent relies on (find, strip, lower, join, split),
    written over `seq<char>`. */
module Util {

  datatype Option<+T> = None | Some(value: T)

  /** An operation that either yields a value or raises with a message. */
  datatype Result<+T> = Ok(value: T) | Err(msg: string)

  /** Whitespace as far as this model's `strip()` is concerned. */
  predicate IsSpace(c: char) {
    c == ' ' || c == '\t' || c == '\n' || c == '\r'
  }

  predicate IsDigit(c: char) {
    '0' <= c <= '9'
  }

  predicate StartsWith(s: string, prefix: string) {
    |prefix| <= |s| && s[..|prefix|] == prefix
  }

  predicate EndsWith(s: string, suffix: string) {
    |suffix| <= |s| && s[|s| - |suffix|..] == suffix
  }

  /** `sub` occurs in `s` starting at index `i`. */
  predicate MatchAt(s: string, sub: string, i: nat) {
    i + |sub| <= |s| && s[i..i + |sub|] == sub
  }

  /** Python's `s.find(sub, start)`: the first index at or after `start`
      where `sub` occurs, or -1. */
  function Find(s: string, sub: string, start: nat): (r: int)
    ensures r == -1 || (start <= r && MatchAt(s, sub, r))
    ensures r >= 0 ==> forall i :: start <= i < r ==> !MatchAt(s, sub, i)
    ensures r == -1 ==> forall i :: start <= i ==> !MatchAt(s, sub, i)
    decreases |s| - start
  {
    if start + |sub| > |s| then -1
    else if MatchAt(s, sub, start) then start
    else Find(s, sub, start + 1)
  }

  /** Python's `sub in s`. */
  predicate Contains(s: string, sub: string) {
    Find(s, sub, 0) >= 0
  }

  lemma ContainsAt(s: string, sub: string, i: nat)
    requires MatchAt(s, sub, i)
    ensures Contains(s, sub)
  {
  }

  lemma ContainsSelf(s: string)
    ensures Contains(s, s)
  {
    ContainsAt(s, s, 0);
  }

  lemma ContainsInfix(a: string, sub: string, b: string)
    ensures Contains(a + sub + b, sub)
  {
    var s := a + sub + b;
    assert s[|a|..|a| + |sub|] == sub;
    ContainsAt(s, sub, |a|);
  }

  function LowerChar(c: char): char {
    if 'A' <= c <= 'Z' then (c as int + 32) as char else c
  }

  function UpperChar(c: char): char {
    if 'a' <= c <= 'z' then (c as int - 32) as char else c
  }

  /** `str.lower()` on the ASCII range; other characters are unchanged. */
  function Lower(s: string): (r: string)
    ensures |r| == |s|
    ensures forall i :: 0 <= i < |s| ==> r[i] == LowerChar(s[i])
  {
    seq(|s|, i requires 0 <= i < |s| => LowerChar(s[i]))
  }

  /** `str.upper()` on the ASCII range; other characters are unchanged. */
  function Upper(s: string): (r: string)
    ensures |r| == |s|
    ensures forall i :: 0 <= i < |s| ==> r[i] == UpperChar(s[i])
  {
    seq(|s|, i requires 0 <= i < |s| => UpperChar(s[i]))
  }

  /** `str.lstrip()`: drops leading whitespace. */
  function LStrip(s: string): (r: string)
    ensures |r| <= |s| && r == s[|s| - |r|..]
    ensures r == [] || !IsSpace(r[0])
    ensures forall i :: 0 <= i < |s| - |r| ==> IsSpace(s[i])
  {
    if s != [] && IsSpace(s[0]) then LStrip(s[1..]) else s
  }

  /** `str.rstrip()`: drops trailing whitespace. */
  function RStrip(s: string): (r: string)
    ensures |r| <= |s| && r == s[..|r|]
    ensures r == [] || !IsSpace(r[|r| - 1])
    ensures forall i :: |r| <= i < |s| ==> IsSpace(s[i])
  {
    if s != [] && IsSpace(s[|s| - 1]) then RStrip(s[..|s| - 1]) else s
  }

  /** `str.strip()`. */
  function Strip(s: string): (r: string)
    ensures |r| <= |s|
    ensures r == [] || (!IsSpace(r[0]) && !IsSpace(r[|r| - 1]))
  {
    RStrip(LStrip(s))
  }

  predicate IsBlank(s: string) {
    Strip(s) == []
  }

  lemma {:induction false} StripEmptyIffAllSpace(s: string)
    ensures Strip(s) == [] <==> forall i :: 0 <= i < |s| ==> IsSpace(s[i])
  {
    var l := LStrip(s);
    if Strip(s) == [] {
      assert RStrip(l) == [];
      forall i | 0 <= i < |s| ensures IsSpace(s[i]) {
        if i >= |s| - |l| {
          assert s[i] == l[i - (|s| - |l|)];
        }
      }
    } else {
      var r := Strip(s);
      assert r == l[..|r|] && l == s[|s| - |l|..];
      assert !IsSpace(s[|s| - |l|]);
    }
  }

  lemma {:induction false} LStripKeepsFirst(s: string)
    requires s != [] && !IsSpace(s[0])
    ensures LStrip(s) == s
  {
  }

  lemma {:induction false} RStripKeepsLast(s: string)
    requires s != [] && !IsSpace(s[|s| - 1])
    ensures RStrip(s) == s
  {
  }

  /** Strips from both ends every character of `chars` (Python's
      `s.strip(chars)`). */
  function StripChars(s: string, chars: set<char>): (r: string)
    ensures |r| <= |s|
    ensures r == [] || (r[0] !in chars && r[|r| - 1] !in chars)
  {
    RStripChars(LStripChars(s, chars), chars)
  }

  function LStripChars(s: string, chars: set<char>): (r: string)
    ensures |r| <= |s| && r == s[|s| - |r|..]
    ensures r == [] || r[0] !in chars
  {
    if s != [] && s[0] in chars then LStripChars(s[1..], chars) else s
  }

  function RStripChars(s: string, chars: set<char>): (r: string)
    ensures |r| <= |s| && r == s[..|r|]
    ensures r == [] || r[|r| - 1] !in chars
    ensures r != [] && s != [] ==> r[0] == s[0]
  {
    if s != [] && s[|s| - 1] in chars then RStripChars(s[..|s| - 1], chars) else s
  }

  /** `sep.join(parts)`. */
  function Join(sep: string, parts: seq<string>): string {
    if parts == [] then []
    else if |parts| == 1 then parts[0]
    else parts[0] + sep + Join(sep, parts[1..])
  }

  lemma {:induction false} JoinLength(sep: string, parts: seq<string>)
    ensures |Join(sep, parts)| == SumLengths(parts) + (if parts == [] then 0 else (|parts| - 1) * |sep|)
  {
    if |parts| > 1 {
      JoinLength(sep, parts[1..]);
    }
  }

  /** Total number of characters in `parts`. */
  function SumLengths(parts: seq<string>): nat {
    if parts == [] then 0 else |parts[0]| + SumLengths(parts[1..])
  }

  lemma {:induction false} SumLengthsAppend(a: seq<string>, b: seq<string>)
    ensures SumLengths(a + b) == SumLengths(a) + SumLengths(b)
  {
    if a != [] {
      assert (a + b)[1..] == a[1..] + b;
      SumLengthsAppend(a[1..], b);
    } else {
      assert a + b == b;
    }
  }

  /** No character of `s` is `c`. */
  predicate Free(s: string, c: char) {
    forall i :: 0 <= i < |s| ==> s[i] != c
  }

  /** Index of the first `c` in `s`, or |s|. */
  function IndexOfChar(s: string, c: char): (r: nat)
    ensures r <= |s|
    ensures r < |s| ==> s[r] == c
    ensures forall i :: 0 <= i < r ==> s[i] != c
  {
    if s == [] then 0 else if s[0] == c then 0 else 1 + IndexOfChar(s[1..], c)
  }

  /** `s.split(c)` for a one-character separator. */
  function Split(s: string, c: char): (r: seq<string>)
    ensures |r| >= 1
    decreases |s|
  {
    var i := IndexOfChar(s, c);
    if i == |s| then [s] else [s[..i]] + Split(s[i + 1..], c)
  }

  /** Splitting a separator-joined list gives the list back when no piece
      contains the separator. */
  lemma {:induction false} SplitJoin(parts: seq<string>, c: char)
    requires |parts| >= 1
    requires forall k :: 0 <= k < |parts| ==> Free(parts[k], c)
    ensures Split(Join([c], parts), c) == parts
  {
    var s := Join([c], parts);
    if |parts| == 1 {
      assert IndexOfChar(s, c) == |s|;
    } else {
      var p := parts[0];
      var rest := Join([c], parts[1..]);
      assert s == p + [c] + rest;
      IndexAfterFree(p, c, rest);
      assert s[..|p|] == p;
      assert s[|p| + 1..] == rest;
      SplitJoin(parts[1..], c);
    }
  }

  lemma {:induction false} IndexAfterFree(p: string, c: char, rest: string)
    requires Free(p, c)
    ensures IndexOfChar(p + [c] + rest, c) == |p|
  {
    if p != [] {
      assert (p + [c] + rest)[1..] == p[1..] + [c] + rest;
      IndexAfterFree(p[1..], c, rest);
    }
  }

  /** `s.split()` with no argument: maximal runs of non-whitespace. */
  function Words(s: string): seq<string>
    decreases |s|
  {
    var t := LStrip(s);
    if t == [] then []
    else
      var n := WordEnd(t);
      [t[..n]] + Words(t[n..])
  }

  /** A word: non-empty and free of whitespace. */
  predicate IsWord(w: string) {
    w != [] && forall j :: 0 <= j < |w| ==> !IsSpace(w[j])
  }

  /** Every word is non-empty and holds no whitespace. */
  lemma {:induction false} WordsAreWords(s: string)
    ensures forall k :: 0 <= k < |Words(s)| ==> IsWord(Words(s)[k])
    decreases |s|
  {
    var t := LStrip(s);
    if t != [] {
      var n := WordEnd(t);
      var w, rest := t[..n], Words(t[n..]);
      WordsAreWords(t[n..]);
      assert IsWord(w);
      WordsCons(w, rest);
    }
  }

  lemma WordsCons(w: string, rest: seq<string>)
    requires IsWord(w) && forall k :: 0 <= k < |rest| ==> IsWord(rest[k])
    ensures forall k :: 0 <= k < |[w] + rest| ==> IsWord(([w] + rest)[k])
  {
    forall k | 0 <= k < |[w] + rest| ensures IsWord(([w] + rest)[k]) {
      if k > 0 {
        assert ([w] + rest)[k] == rest[k - 1];
      }
    }
  }


  /** `Words` on a text that starts with a word: that word, then the words of the rest. */
  lemma WordsStep(s: string)
    requires s != [] && !IsSpace(s[0])
    ensures Words(s) == [s[..WordEnd(s)]] + Words(s[WordEnd(s)..])
  {
    assert LStrip(s) == s;
  }

  /** `lstrip` drops exactly the leading whitespace, whatever its length. */
  lemma LStripAt(s: string, k: nat)
    requires k <= |s| && (forall i :: 0 <= i < k ==> IsSpace(s[i])) && (k == |s| || !IsSpace(s[k]))
    ensures LStrip(s) == s[k..]
  {
    assert LStrip(s) == [] || LStrip(s)[0] == s[|s| - |LStrip(s)|];
  }

  /** A word ends at the first whitespace character, or at the end. */
  lemma WordEndAt(s: string, n: nat)
    requires s != [] && !IsSpace(s[0]) && 1 <= n <= |s|
    requires (forall j :: 0 <= j < n ==> !IsSpace(s[j])) && (n == |s| || IsSpace(s[n]))
    ensures WordEnd(s) == n
  {
  }

  /** A text that is all whitespace has no words. */
  lemma WordsOfBlank(s: string)
    requires forall i :: 0 <= i < |s| ==> IsSpace(s[i])
    ensures Words(s) == []
  {
    LStripAt(s, |s|);
  }

  /** A non-empty text without whitespace is one word. */
  lemma WordsOfWord(w: string)
    requires w != [] && forall i :: 0 <= i < |w| ==> !IsSpace(w[i])
    ensures Words(w) == [w]
  {
    WordEndAt(w, |w|);
    WordsStep(w);
    assert w[..|w|] == w && w[|w|..] == [];
    WordsOfBlank([]);
  }

  /** Leading whitespace does not change the words. */
  lemma WordsLStrip(s: string)
    ensures Words(s) == Words(LStrip(s))
  {
    var t := LStrip(s);
    LStripAt(t, 0);
  }

  /**
   * Splitting distributes over a concatenation whose seam is at whitespace:
   * the words of `x + y` are the words of `x` followed by those of `y`.
   */
  lemma {:induction false} WordsAppend(x: string, y: string)
    requires Seam(x, y)
    ensures Words(x + y) == Words(x) + Words(y)
    decreases |x|
  {
    if LStrip(x) == [] {
      WordsAppendBlank(x, y);
    } else {
      var w, rx := WordsHead(x, y);
      WordsAppend(rx, y);
      ConsAppend(Words(x), Words(x + y), Words(rx), Words(rx + y), Words(y), w);
    }
  }

  /** The end of `x` or the start of `y` is whitespace (or one of them is empty). */
  predicate Seam(x: string, y: string) {
    x == [] || y == [] || IsSpace(x[|x| - 1]) || IsSpace(y[0])
  }

  lemma ConsAppend<T>(ax: seq<T>, axy: seq<T>, ar: seq<T>, ary: seq<T>, ay: seq<T>, a: T)
    requires ax == [a] + ar && axy == [a] + ary && ary == ar + ay
    ensures axy == ax + ay
  {
  }

  lemma WordsAppendBlank(x: string, y: string)
    requires LStrip(x) == []
    ensures Words(x) == [] && Words(x + y) == Words(y)
  {
    LStripAppend(x, y);
    WordsLStrip(x + y);
    WordsLStrip(y);
    WordsLStrip(x);
  }

  /** The first word of a text that has one, and the rest after it, also with a text appended at whitespace. */
  lemma WordsHead(x: string, y: string) returns (w: string, rx: string)
    requires LStrip(x) != [] && Seam(x, y)
    ensures Words(x) == [w] + Words(rx)
    ensures Words(x + y) == [w] + Words(rx + y)
    ensures |rx| < |x| && Seam(rx, y)
  {
    var tx := LStrip(x);
    var nx := WordEnd(tx);
    w, rx := tx[..nx], tx[nx..];
    WordsStripped(x, tx, nx);
    WordSeam(x, y, tx, nx);
    WordsStrippedAppend(x, y, tx, nx);
  }

  /** A seam at whitespace after `x` stays one after its first word. */
  lemma WordSeam(x: string, y: string, tx: string, nx: nat)
    requires tx == LStrip(x) != [] && nx == WordEnd(tx)
    requires Seam(x, y)
    ensures y == [] || nx < |tx| || IsSpace(y[0])
    ensures |tx[nx..]| < |x| && Seam(tx[nx..], y)
  {
    SuffixLast(x, tx, nx);
  }

  lemma SuffixLast(x: string, tx: string, nx: nat)
    requires |tx| <= |x| && tx == x[|x| - |tx|..] && nx <= |tx| && tx != []
    ensures tx[|tx| - 1] == x[|x| - 1]
    ensures nx < |tx| ==> tx[nx..][|tx| - nx - 1] == x[|x| - 1]
  {
  }

  lemma WordsStripped(x: string, tx: string, nx: nat)
    requires tx == LStrip(x) != [] && nx == WordEnd(tx)
    ensures Words(x) == [tx[..nx]] + Words(tx[nx..])
  {
    WordsLStrip(x);
    WordsStep(tx);
  }

  lemma WordsStrippedAppend(x: string, y: string, tx: string, nx: nat)
    requires tx == LStrip(x) != [] && nx == WordEnd(tx)
    requires y == [] || nx < |tx| || IsSpace(y[0])
    ensures Words(x + y) == [tx[..nx]] + Words(tx[nx..] + y)
  {
    LStripAppend(x, y);
    WordsLStrip(x + y);
    WordsPrepend(tx, y);
  }

  lemma SliceAppend<T>(x: seq<T>, y: seq<T>, k: nat)
    requires k <= |x|
    ensures (x + y)[k..] == x[k..] + y
    ensures (x + y)[..k] == x[..k]
  {
  }

  /** `lstrip` of a concatenation: the first part's stripped text, or the second's when the first is blank. */
  lemma LStripAppend(x: string, y: string)
    ensures LStrip(x) != [] ==> LStrip(x + y) == LStrip(x) + y
    ensures LStrip(x) == [] ==> LStrip(x + y) == LStrip(y)
  {
    if LStrip(x) != [] {
      LStripAppendWord(x, y);
    } else {
      LStripAppendBlank(x, y);
    }
  }

  lemma LStripAppendWord(x: string, y: string)
    requires LStrip(x) != []
    ensures LStrip(x + y) == LStrip(x) + y
  {
    var t := LStrip(x);
    var k := |x| - |t|;
    var xy := x + y;
    forall i | 0 <= i < k ensures IsSpace(xy[i]) {
      assert xy[i] == x[i];
    }
    assert xy[k] == x[k] == t[0];
    LStripAt(xy, k);
    SliceAppend(x, y, k);
  }

  lemma {:induction false} LStripAppendBlank(x: string, y: string)
    requires LStrip(x) == []
    ensures LStrip(x + y) == LStrip(y)
    decreases |x|
  {
    if x == [] {
      assert x + y == y;
    } else {
      assert IsSpace(x[0]);
      assert (x + y)[0] == x[0] && (x + y)[1..] == x[1..] + y;
      LStripAppendBlank(x[1..], y);
    }
  }

  /** The first word of `t + y` is that of `t` when the seam is at whitespace or inside `t`'s rest. */
  lemma WordsPrepend(t: string, y: string)
    requires t != [] && !IsSpace(t[0])
    requires y == [] || WordEnd(t) < |t| || IsSpace(y[0])
    ensures Words(t + y) == [t[..WordEnd(t)]] + Words(t[WordEnd(t)..] + y)
  {
    var n := WordEnd(t);
    if y != [] {
      WordEndAt(t + y, n);
    } else {
      assert t + y == t;
    }
    WordsStep(t + y);
    SliceAppend(t, y, n);
  }

  /** Length of the run of non-whitespace at the start of `s`. */
  function WordEnd(s: string): (n: nat)
    requires s != [] && !IsSpace(s[0])
    ensures 1 <= n <= |s|
    ensures forall j :: 0 <= j < n ==> !IsSpace(s[j])
    ensures n < |s| ==> IsSpace(s[n])
  {
    if |s| == 1 || IsSpace(s[1]) then 1 else 1 + WordEnd(s[1..])
  }

  function DigitChar(d: nat): char
    requires d < 10
  {
    ('0' as int + d) as char
  }

  /** Decimal rendering of a natural number, as `str(n)` prints it. */
  function NatToString(n: nat): (r: string)
    ensures |r| >= 1
    ensures forall i :: 0 <= i < |r| ==> IsDigit(r[i])
    ensures r[0] != '0' || n == 0
  {
    if n < 10 then [DigitChar(n)] else NatToString(n / 10) + [DigitChar(n % 10)]
  }

  /** Distinct numbers print differently. */
  lemma {:induction false} NatToStringInjective(m: nat, n: nat)
    requires NatToString(m) == NatToString(n)
    ensures m == n
  {
    var sm, sn := NatToString(m), NatToString(n);
    if m < 10 && n < 10 {
      assert sm[0] == sn[0];
    } else if m >= 10 && n >= 10 {
      assert sm[|sm| - 1] == sn[|sn| - 1];
      assert sm[..|sm| - 1] == NatToString(m / 10);
      assert sn[..|sn| - 1] == NatToString(n / 10);
      NatToStringInjective(m / 10, n / 10);
    }
  }

  /** Decimal rendering of an integer, with a leading '-' when negative. */
  function IntToString(n: int): (r: string)
    ensures |r| >= 1
  {
    if n < 0 then "-" + NatToString(-n) else NatToString(n)
  }

  predicate AllDigits(s: string) {
    forall i :: 0 <= i < |s| ==> IsDigit(s[i])
  }

  /** The value of a decimal digit string. */
  function DigitsValue(s: string): nat
    requires AllDigits(s)
  {
    if s == [] then 0 else DigitsValue(s[..|s| - 1]) * 10 + (s[|s| - 1] as int - '0' as int)
  }

  /** `int(s)`: optional surrounding whitespace, an optional sign, then decimal digits; None where Python raises. */
  function ParseInt(s: string): (r: Option<int>)
    ensures r.Some? <==> var t := Strip(s);
      t != [] && (AllDigits(t) || ((t[0] == '-' || t[0] == '+') && |t| > 1 && AllDigits(t[1..])))
  {
    var t := Strip(s);
    if t == [] then None
    else if AllDigits(t) then Some(DigitsValue(t))
    else if (t[0] == '-' || t[0] == '+') && |t| > 1 && AllDigits(t[1..]) then
      var v: int := DigitsValue(t[1..]);
      Some(if t[0] == '-' then -v else v)
    else None
  }

  lemma {:induction false} DigitsOfNatToString(n: nat)
    ensures AllDigits(NatToString(n)) && DigitsValue(NatToString(n)) == n
  {
    if n >= 10 {
      DigitsOfNatToString(n / 10);
      var s := NatToString(n);
      assert s[..|s| - 1] == NatToString(n / 10);
    }
  }

  /** `int(str(n)) == n`. */
  lemma ParseIntToString(n: int)
    ensures ParseInt(IntToString(n)) == Some(n)
  {
    if n >= 0 {
      ParseIntNat(n);
    } else {
      ParseIntNegative(n);
    }
  }

  lemma ParseIntNat(n: int)
    requires n >= 0
    ensures ParseInt(IntToString(n)) == Some(n)
  {
    var s := NatToString(n);
    assert IntToString(n) == s;
    DigitsOfNatToString(n);
    StripsToItself(s);
  }

  lemma ParseIntNegative(n: int)
    requires n < 0
    ensures ParseInt(IntToString(n)) == Some(n)
  {
    var m: nat := -n;
    assert IntToString(n) == "-" + NatToString(m);
    DigitsOfNatToString(m);
    ParseMinusPrefixed(NatToString(m), m);
  }

  lemma ParseMinusPrefixed(d: string, v: nat)
    requires d != [] && AllDigits(d) && v == DigitsValue(d)
    ensures ParseInt("-" + d) == Some(-(v as int))
  {
    var s := "-" + d;
    assert s[1..] == d && s[0] == '-' && s[|s| - 1] == d[|d| - 1];
    StripsToItself(s);
    ParseMinusDigits(s, v);
  }

  /** A minus sign followed by digits, with nothing to strip, parses to the negated value. */
  lemma ParseMinusDigits(s: string, v: nat)
    requires |s| > 1 && s[0] == '-' && AllDigits(s[1..]) && Strip(s) == s
    requires v == DigitsValue(s[1..])
    ensures ParseInt(s) == Some(-(v as int))
  {
  }

  lemma StripsToItself(s: string)
    requires s != [] && !IsSpace(s[0]) && !IsSpace(s[|s| - 1])
    ensures Strip(s) == s
  {
    LStripKeepsFirst(s);
    RStripKeepsLast(s);
  }

  /** A text containing the separator splits into at least two pieces. */
  lemma SplitAtLeastTwo(s: string, c: char, i: nat)
    requires i < |s| && s[i] == c
    ensures |Split(s, c)| >= 2
  {
    var k := IndexOfChar(s, c);
    assert k < |s|;
  }

  /** `[x for x in s if x in keep]`. */
  function FilterIn(s: seq<string>, keep: set<string>): (r: seq<string>)
    ensures |r| <= |s|
    ensures forall x :: x in r <==> x in s && x in keep
  {
    if s == [] then []
    else if s[0] in keep then [s[0]] + FilterIn(s[1..], keep)
    else FilterIn(s[1..], keep)
  }

  /** Elements pairwise distinct. */
  predicate Distinct<T(==)>(s: seq<T>) {
    forall i, j :: 0 <= i < j < |s| ==> s[i] != s[j]
  }

  function Min(a: int, b: int): int { if a <= b then a else b }
  function Max(a: int, b: int): int { if a >= b then a else b }

  /** A Python dict: its keys in insertion order plus the key-to-value map. */
  datatype OMap<V> = OMap(keys: seq<string>, values: map<string, V>)

  ghost predicate OMapValid<V>(o: OMap<V>) {
    Distinct(o.keys) && forall k :: k in o.values <==> k in o.keys
  }

  function OEmpty<V>(): (o: OMap<V>)
    ensures OMapValid(o) && o.values == map[]
  {
    OMap([], map[])
  }

  /** `d[k] = v`: a new key goes last, an existing key keeps its place. */
  function OPut<V>(o: OMap<V>, k: string, v: V): (r: OMap<V>)
    requires OMapValid(o)
    ensures OMapValid(r)
    ensures r.values == o.values[k := v]
    ensures r.keys == if k in o.values then o.keys else o.keys + [k]
  {
    OMap(if k in o.values then o.keys else o.keys + [k], o.values[k := v])
  }

  /** `d.pop(k, None)`: the key leaves the order and the map. */
  function ORemove<V>(o: OMap<V>, k: string): (r: OMap<V>)
    requires OMapValid(o)
    ensures OMapValid(r)
    ensures r.values == o.values - {k}
    ensures r.keys == Without(o.keys, k)
  {
    OMap(Without(o.keys, k), o.values - {k})
  }

  /** `s` with every occurrence of `k` removed, order kept. */
  function Without(s: seq<string>, k: string): (r: seq<string>)
    ensures forall x :: x in r <==> x in s && x != k
    ensures Distinct(s) ==> Distinct(r)
    ensures k !in s ==> r == s
  {
    if s == [] then []
    else if s[0] == k then Without(s[1..], k)
    else
      var t := Without(s[1..], k);
      assert Distinct(s) ==> forall j :: 1 <= j < |s| ==> s[0] != s[j];
      assert Distinct(s) ==> s[0] !in s[1..];
      assert Distinct(s) ==> Distinct(s[1..]) by {
        if Distinct(s) {
          forall i, j | 0 <= i < j < |s[1..]| ensures s[1..][i] != s[1..][j] {
            assert s[1..][i] == s[1 + i] && s[1..][j] == s[1 + j];
          }
        }
      }
      [s[0]] + t
  }

  /** `list(d.values())`. */
  function OValues<V>(o: OMap<V>): (r: seq<V>)
    requires OMapValid(o)
    ensures |r| == |o.keys|
    ensures forall i :: 0 <= i < |r| ==> r[i] == o.values[o.keys[i]]
  {
    seq(|o.keys|, i requires 0 <= i < |o.keys| => o.values[o.keys[i]])
  }
  /** `[x for x in s if p(x)]`: the elements that pass, in their order. */
  function Filter<T>(s: seq<T>, p: T -> bool): (r: seq<T>)
    ensures |r| <= |s|
  {
    if s == [] then [] else (if p(s[0]) then [s[0]] else []) + Filter(s[1..], p)
  }

  /** An element is kept exactly when it is in the sequence and passes. */
  lemma {:induction false} FilterMembers<T>(s: seq<T>, p: T -> bool, x: T)
    ensures x in Filter(s, p) <==> x in s && p(x)
  {
    if s != [] {
      FilterMembers(s[1..], p, x);
      assert s == [s[0]] + s[1..];
    }
  }

  /** The head of a filtered sequence. */
  lemma FilterCons<T>(a: seq<T>, b: seq<T>, p: T -> bool)
    requires a != []
    ensures Filter(a + b, p) == (if p(a[0]) then [a[0]] else []) + Filter(a[1..] + b, p)
    ensures Filter(a, p) == (if p(a[0]) then [a[0]] else []) + Filter(a[1..], p)
  {
    assert (a + b)[0] == a[0] && (a + b)[1..] == a[1..] + b;
  }

  /** Filtering a concatenation filters each part and keeps the parts in order. */
  lemma {:induction false} FilterAppend<T>(a: seq<T>, b: seq<T>, p: T -> bool)
    ensures Filter(a + b, p) == Filter(a, p) + Filter(b, p)
  {
    if a != [] {
      FilterCons(a, b, p);
      FilterAppend(a[1..], b, p);
      AssocAppend(if p(a[0]) then [a[0]] else [], Filter(a[1..], p), Filter(b, p));
    } else {
      assert a + b == b;
    }
  }

  lemma AssocAppend<T>(a: seq<T>, b: seq<T>, c: seq<T>)
    ensures a + (b + c) == (a + b) + c
  {
  }

  /** Nothing is dropped exactly when every element passes. */
  lemma {:induction false} FilterAll<T>(s: seq<T>, p: T -> bool)
    ensures Filter(s, p) == s <==> forall i :: 0 <= i < |s| ==> p(s[i])
  {
    if s != [] {
      FilterAll(s[1..], p);
      assert forall i :: 1 <= i < |s| ==> s[i] == s[1..][i - 1];
      if !p(s[0]) {
        assert |Filter(s, p)| < |s|;
      }
    }
  }

  // ---- Python string comparison ----

  /** Strict lexicographic order on code points. */
  predicate LexLess(a: string, b: string)
    decreases |a|
  {
    b != [] && (a == [] || a[0] < b[0] || (a[0] == b[0] && LexLess(a[1..], b[1..])))
  }

  lemma {:induction false} LexIrreflexive(a: string)
    ensures !LexLess(a, a)
  {
    if a != [] {
      LexIrreflexive(a[1..]);
    }
  }

  lemma {:induction false} LexAsymmetric(a: string, b: string)
    ensures !(LexLess(a, b) && LexLess(b, a))
  {
    if a != [] && b != [] && a[0] == b[0] {
      LexAsymmetric(a[1..], b[1..]);
    }
  }

  lemma {:induction false} LexTransitive(a: string, b: string, c: string)
    requires LexLess(a, b) && LexLess(b, c)
    ensures LexLess(a, c)
  {
    if a != [] && a[0] == b[0] && b[0] == c[0] {
      LexTransitive(a[1..], b[1..], c[1..]);
    }
  }

  lemma {:induction false} LexTotal(a: string, b: string)
    requires a != b
    ensures LexLess(a, b) || LexLess(b, a)
  {
    if a != [] && b != [] && a[0] == b[0] {
      assert a == [a[0]] + a[1..] && b == [b[0]] + b[1..];
      LexTotal(a[1..], b[1..]);
    }
  }
}
