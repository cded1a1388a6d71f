// The product and rule tables the domain tools read.  Their contents are
// not part of this model: every tool takes the tables it uses as
// parameters.  A Python dict is an insertion-ordered sequence of entries
// with distinct keys.

module Tables {
  import opened Util

  datatype Entry<V> = Entry(key: string, value: V)

  type Dict<V> = seq<Entry<V>>

  /** No key occurs twice. */
  predicate UniqueKeys<V>(d: Dict<V>) {
    forall i, j :: 0 <= i < j < |d| ==> d[i].key != d[j].key
  }

  predicate HasKey<V>(d: Dict<V>, k: string) {
    exists i :: 0 <= i < |d| && d[i].key == k
  }

  /** `d.get(k)`: the value of the first entry with key `k`. */
  function Get<V>(d: Dict<V>, k: string): (r: Option<V>)
    ensures r.None? <==> !HasKey(d, k)
    ensures r.Some? ==> Entry(k, r.value) in d
  {
    if d == [] then None
    else if d[0].key == k then Some(d[0].value)
    else
      var r := Get(d[1..], k);
      assert HasKey(d[1..], k) ==> HasKey(d, k) by {
        if HasKey(d[1..], k) {
          var i :| 0 <= i < |d[1..]| && d[1..][i].key == k;
          assert d[i + 1].key == k;
        }
      }
      assert HasKey(d, k) ==> HasKey(d[1..], k) by {
        if HasKey(d, k) {
          var i :| 0 <= i < |d| && d[i].key == k;
          assert d[1..][i - 1].key == k;
        }
      }
      r
  }

  /** `d.get(k, default)`. */
  function GetOr<V>(d: Dict<V>, k: string, default: V): (r: V)
    ensures !HasKey(d, k) ==> r == default
    ensures HasKey(d, k) ==> Entry(k, r) in d
  {
    match Get(d, k)
      case Some(v) => v
      case None => default
  }

  function Keys<V>(d: Dict<V>): (r: seq<string>)
    ensures |r| == |d| && forall i :: 0 <= i < |d| ==> r[i] == d[i].key
  {
    if d == [] then [] else [d[0].key] + Keys(d[1..])
  }

  function Values<V>(d: Dict<V>): (r: seq<V>)
    ensures |r| == |d| && forall i :: 0 <= i < |d| ==> r[i] == d[i].value
  {
    if d == [] then [] else [d[0].value] + Values(d[1..])
  }

  /** `{k: v for k, v in d.items() if Contains(Lower(k), needle)}`. */
  function KeysContaining<V(!new)>(d: Dict<V>, needle: string): (r: Dict<V>)
    ensures |r| <= |d|
    ensures forall e :: e in r <==> e in d && Contains(Lower(e.key), needle)
  {
    if d == [] then []
    else (if Contains(Lower(d[0].key), needle) then [d[0]] else []) + KeysContaining(d[1..], needle)
  }

  /** `{k: v for k, v in d.items() if needle in k}` (case-sensitive). */
  function KeysIncluding<V(!new)>(d: Dict<V>, needle: string): (r: Dict<V>)
    ensures |r| <= |d|
    ensures forall e :: e in r <==> e in d && Contains(e.key, needle)
  {
    if d == [] then []
    else (if Contains(d[0].key, needle) then [d[0]] else []) + KeysIncluding(d[1..], needle)
  }

  /** The outcome of a tool call: the guard's message, an error result, an exception, or a result. */
  datatype Outcome<T> = Blocked(message: string) | Failed(error: string) | Crashed | Done(value: T)

  /** `d[k] = v`: an existing key keeps its place, a new one goes last. */
  function Put<V(!new)>(d: Dict<V>, k: string, v: V): (r: Dict<V>)
    requires UniqueKeys(d)
    ensures UniqueKeys(r)
    ensures Entry(k, v) in r
    ensures forall e :: e in r ==> e == Entry(k, v) || (e in d && e.key != k)
    ensures forall e :: e in d && e.key != k ==> e in r
  {
    if d == [] then [Entry(k, v)]
    else if d[0].key == k then [Entry(k, v)] + d[1..]
    else
      UniqueTail(d);
      var t := Put(d[1..], k, v);
      PutCons(d, k, v, t);
      [d[0]] + t
  }

  lemma UniqueTail<V>(d: Dict<V>)
    requires UniqueKeys(d) && d != []
    ensures UniqueKeys(d[1..])
    ensures forall e :: e in d[1..] ==> e.key != d[0].key
  {
    forall i, j | 0 <= i < j < |d[1..]| ensures d[1..][i].key != d[1..][j].key {
      assert d[1..][i] == d[i + 1] && d[1..][j] == d[j + 1];
    }
    forall e | e in d[1..] ensures e.key != d[0].key {
      var i :| 0 <= i < |d[1..]| && d[1..][i] == e;
      assert d[i + 1] == e;
    }
  }

  /** `Put` past a head entry with another key keeps that entry in front. */
  lemma PutCons<V>(d: Dict<V>, k: string, v: V, t: Dict<V>)
    requires UniqueKeys(d) && d != [] && d[0].key != k
    requires forall e :: e in d[1..] ==> e.key != d[0].key
    requires UniqueKeys(t) && Entry(k, v) in t
    requires forall e :: e in t ==> e == Entry(k, v) || (e in d[1..] && e.key != k)
    requires forall e :: e in d[1..] && e.key != k ==> e in t
    ensures UniqueKeys([d[0]] + t)
    ensures Entry(k, v) in [d[0]] + t
    ensures forall e :: e in [d[0]] + t ==> e == Entry(k, v) || (e in d && e.key != k)
    ensures forall e :: e in d && e.key != k ==> e in [d[0]] + t
  {
    var r := [d[0]] + t;
    forall i, j | 0 <= i < j < |r| ensures r[i].key != r[j].key {
      assert r[j] == t[j - 1] && r[j] in t;
      if i > 0 {
        assert r[i] == t[i - 1];
      }
    }
    forall e | e in d && e.key != k ensures e in r {
      if e != d[0] {
        var i :| 0 <= i < |d| && d[i] == e;
        assert d[1..][i - 1] == e;
      }
    }
  }

  /** After `d[k] = v` the keys are those of `d` plus `k`. */
  lemma PutHasKey<V(!new)>(d: Dict<V>, k: string, v: V, k': string)
    requires UniqueKeys(d)
    ensures HasKey(Put(d, k, v), k') <==> HasKey(d, k') || k' == k
  {
    var r := Put(d, k, v);
    if HasKey(r, k') {
      var i :| 0 <= i < |r| && r[i].key == k';
      assert r[i] in r;
      if k' != k {
        assert r[i] in d;
        var j :| 0 <= j < |d| && d[j] == r[i];
      }
    }
    if HasKey(d, k') && k' != k {
      var j :| 0 <= j < |d| && d[j].key == k';
      assert d[j] in d;
      assert d[j] in r;
      var i :| 0 <= i < |r| && r[i] == d[j];
    }
    if k' == k {
      assert Entry(k, v) in r;
      var i :| 0 <= i < |r| && r[i] == Entry(k, v);
    }
  }

  /** A cell of a data table. */
  datatype Value =
    | VStr(s: string)
    | VInt(i: int)
    | VBool(b: bool)
    | VList(items: seq<Value>)
    | VDict(entries: seq<Entry<Value>>)
    | VNone

  /** Python truthiness of a cell. */
  predicate Truthy(v: Value) {
    match v
      case VStr(s) => s != []
      case VInt(i) => i != 0
      case VBool(b) => b
      case VList(items) => items != []
      case VDict(entries) => entries != []
      case VNone => false
  }

  /** A product record; absent optional keys are None. */
  datatype Product = Product(
    code: string,
    name: string,
    category: string,
    highlights: seq<string>,
    insurer: string,
    minAge: Option<int>,
    maxAge: Option<int>,
    simplified: bool,
    renewalType: Option<string>,
    termYears: Option<int>,
    maxRenewalAge: Option<int>,
    planTypes: seq<string>,
    channels: seq<string>,
    paymentCycles: Option<seq<string>>)

  type Products = Dict<Product>

  /** `p.get("min_age", 0)` and `p.get("max_age", 999)`. */
  function MinAgeOf(p: Product): int {
    if p.minAge.Some? then p.minAge.value else 0
  }

  function MaxAgeOf(p: Product): int {
    if p.maxAge.Some? then p.maxAge.value else 999
  }

  /** `[c for c in codes if c in PRODUCTS]`. */
  function KnownCodes(products: Products, codes: seq<string>): (r: seq<string>)
    ensures |r| <= |codes|
    ensures forall c :: c in r <==> c in codes && HasKey(products, c)
    ensures r == Filter(codes, (c: string) => HasKey(products, c))
  {
    if codes == [] then []
    else
      var init, last := codes[..|codes| - 1], codes[|codes| - 1];
      FilterAppend(init, [last], (c: string) => HasKey(products, c));
      assert init + [last] == codes;
      KnownCodes(products, init) + (if HasKey(products, last) then [last] else [])
  }

  /** A rider (special contract) of a product; `kind` is 의무부가 or 선택. */
  datatype Rider = Rider(code: string, name: string, desc: string, kind: string)

  // ---------------------------------------------------------------
  // Code lists: "B1, B2 B3" -> ["B1", "B2", "B3"]
  // ---------------------------------------------------------------

  /** `s.replace(",", " ")`. */
  function CommasToSpaces(s: string): (r: string)
    ensures |r| == |s|
    ensures forall i :: 0 <= i < |s| ==> r[i] == (if s[i] == ',' then ' ' else s[i])
  {
    seq(|s|, i requires 0 <= i < |s| => if s[i] == ',' then ' ' else s[i])
  }

  /** `[c.strip() for c in codes.replace(",", " ").split() if c.strip()]`. */
  function CodeList(codes: string): (r: seq<string>)
    ensures forall k :: 0 <= k < |r| ==> r[k] != [] && Free(r[k], ',')
    ensures forall k :: 0 <= k < |r| ==> forall j :: 0 <= j < |r[k]| ==> !IsSpace(r[k][j])
  {
    WordsFree(CommasToSpaces(codes), ',');
    WordsAreWords(CommasToSpaces(codes));
    Words(CommasToSpaces(codes))
  }

  /** A code-list separator: whitespace or a comma. */
  predicate IsCodeSep(c: char) {
    IsSpace(c) || c == ','
  }

  /** The codes of `x + y` are those of `x` followed by those of `y` when the seam is at a separator. */
  lemma CodeListAppend(x: string, y: string)
    requires x == [] || y == [] || IsCodeSep(x[|x| - 1]) || IsCodeSep(y[0])
    ensures CodeList(x + y) == CodeList(x) + CodeList(y)
  {
    var cx, cy := CommasToSpaces(x), CommasToSpaces(y);
    assert CommasToSpaces(x + y) == cx + cy;
    WordsAppend(cx, cy);
  }

  /** A run of separators holds no code. */
  lemma CodeListOfSeps(s: string)
    requires forall i :: 0 <= i < |s| ==> IsCodeSep(s[i])
    ensures CodeList(s) == []
  {
    WordsOfBlank(CommasToSpaces(s));
  }

  /** A non-empty run without separators is exactly one code. */
  lemma CodeListOfCode(w: string)
    requires w != [] && forall i :: 0 <= i < |w| ==> !IsCodeSep(w[i])
    ensures CodeList(w) == [w]
  {
    assert CommasToSpaces(w) == w;
    WordsOfWord(w);
  }

  /** The words of a text free of `c` are free of `c`. */
  lemma {:induction false} WordsFree(s: string, c: char)
    requires Free(s, c)
    ensures forall k :: 0 <= k < |Words(s)| ==> Free(Words(s)[k], c)
    decreases |s|
  {
    var t := LStrip(s);
    FreeSuffix(s, |s| - |t|, c);
    assert Words(s) == Words(t);
    if t != [] {
      var n := WordEnd(t);
      WordsStep(t);
      FreeSuffix(t, n, c);
      WordsFree(t[n..], c);
      FreeCons(t[..n], Words(t[n..]), c);
    }
  }

  lemma FreeSuffix(s: string, k: nat, c: char)
    requires Free(s, c) && k <= |s|
    ensures Free(s[k..], c) && Free(s[..k], c)
  {
    assert forall i :: 0 <= i < |s| - k ==> s[k..][i] == s[k + i];
  }

  lemma FreeCons(x: string, ws: seq<string>, c: char)
    requires Free(x, c)
    requires forall k :: 0 <= k < |ws| ==> Free(ws[k], c)
    ensures forall k :: 0 <= k < |[x] + ws| ==> Free(([x] + ws)[k], c)
  {
    forall k | 0 <= k < |[x] + ws| ensures Free(([x] + ws)[k], c) {
      if k > 0 {
        assert ([x] + ws)[k] == ws[k - 1];
      }
    }
  }

  /** Two codes around a run of separators come back one by one. */
  lemma CodeListPair(a: string, sep: string, b: string)
    requires a != [] && forall i :: 0 <= i < |a| ==> !IsCodeSep(a[i])
    requires sep != [] && forall i :: 0 <= i < |sep| ==> IsCodeSep(sep[i])
    requires b != [] && forall i :: 0 <= i < |b| ==> !IsCodeSep(b[i])
    ensures CodeList(a + sep + b) == [a, b]
  {
    var t := sep + b;
    assert t[0] == sep[0];
    assert a + sep + b == a + t;
    CodeListOfSeps(sep);
    CodeListOfCode(b);
    assert CodeList(t) == [b] by {
      CodeListAppend(sep, b);
    }
    CodeListOfCode(a);
    CodeListAppend(a, t);
  }

  /** Codes separated by a comma and a space come back one by one. */
  lemma CodeListExample()
    ensures CodeList("B1, B2") == ["B1", "B2"]
  {
    CodeListPair("B1", ", ", "B2");
    assert "B1" + ", " + "B2" == "B1, B2";
  }
}
