// Compliance tools: required disclosures, the topic-driven compliance script
// (with `str.format` over named fields), the forbidden-phrase check, the
// comparison disclaimer, the recording notice and PII masking.  The regex
// substitution used for masking is a function parameter.

module Compliance {
  import opened Util
  import opened Tables

  datatype Disclosures = Disclosures(name: string, common: seq<string>, specific: seq<string>, total: nat)

  /** `compliance_required_disclosure`: the common list plus the product's own. */
  function RequiredDisclosure(products: Products, disclosures: Dict<seq<string>>, code: string): (r: Result<Disclosures>)
    ensures r.Err? <==> !HasKey(products, code)
    ensures r.Ok? ==> r.value.common == GetOr(disclosures, "_common", [])
    ensures r.Ok? ==> r.value.specific == GetOr(disclosures, code, [])
    ensures r.Ok? ==> r.value.total == |r.value.common| + |r.value.specific|
  {
    match Get(products, code)
      case None => Err("상품 '" + code + "' 없음")
      case Some(p) =>
        var common := GetOr(disclosures, "_common", []);
        var specific := GetOr(disclosures, code, []);
        Ok(Disclosures(p.name, common, specific, |common| + |specific|))
  }

  // ---------------------------------------------------------------
  // `str.format(**params)` over named fields
  // ---------------------------------------------------------------

  /** The outcome of formatting: the text, a KeyError, or any other error Python raises. */
  datatype Formatted = Text(s: string) | MissingKey | BadFormat

  function PrefixWith(s: string, f: Formatted): Formatted {
    match f
      case Text(t) => Text(s + t)
      case _ => f
  }

  /**
   * Left to right: `{{` and `}}` are literal braces, `{name}` is replaced by
   * the named parameter; an unknown name is a KeyError, while a lone brace,
   * an empty or numeric field (a positional lookup with no positional
   * arguments) is another error.
   */
  function Format(t: string, params: Dict<string>): (r: Formatted)
    decreases |t|
  {
    if t == [] then Text([])
    else if t[0] == '{' then
      if |t| > 1 && t[1] == '{' then PrefixWith("{", Format(t[2..], params))
      else
        var j := IndexOfChar(t[1..], '}');
        if j == |t| - 1 then BadFormat
        else
          var key := t[1..1 + j];
          if key == [] || AllDigits(key) then BadFormat
          else if !HasKey(params, key) then MissingKey
          else PrefixWith(Get(params, key).value, Format(t[j + 2..], params))
    else if t[0] == '}' then
      if |t| > 1 && t[1] == '}' then PrefixWith("}", Format(t[2..], params)) else BadFormat
    else PrefixWith([t[0]], Format(t[1..], params))
  }

  predicate NoBraces(t: string) {
    Free(t, '{') && Free(t, '}')
  }

  /** A template without braces formats to itself. */
  lemma {:induction false} FormatPlain(t: string, params: Dict<string>)
    requires NoBraces(t)
    ensures Format(t, params) == Text(t)
    decreases |t|
  {
    if t != [] {
      FormatPlain(t[1..], params);
      assert [t[0]] + t[1..] == t;
    }
  }

  /** A single named field is replaced by its value, whatever plain text surrounds it. */
  lemma FormatField(before: string, key: string, after: string, params: Dict<string>)
    requires NoBraces(before) && NoBraces(key) && NoBraces(after)
    requires key != [] && !AllDigits(key) && HasKey(params, key)
    ensures Format(before + "{" + key + "}" + after, params) == Text(before + Get(params, key).value + after)
  {
    var v := Get(params, key).value;
    var rest := "{" + key + "}" + after;
    assert before + "{" + key + "}" + after == before + rest;
    FormatPlainPrefix(before, rest, params);
    FieldFirst(key, after, params);
    assert before + (v + after) == before + v + after;
  }

  /** Plain text before the rest of a template is copied. */
  lemma {:induction false} FormatPlainPrefix(pre: string, s: string, params: Dict<string>)
    requires NoBraces(pre)
    ensures Format(pre + s, params) == PrefixWith(pre, Format(s, params))
    decreases |pre|
  {
    if pre == [] {
      assert pre + s == s;
      match Format(s, params)
        case Text(t) => assert pre + t == t;
        case _ =>
    } else {
      assert pre + s == [pre[0]] + (pre[1..] + s);
      assert pre[0] != '{' && pre[0] != '}';
      FormatPlainChar(pre[0], pre[1..] + s, params);
      FormatPlainPrefix(pre[1..], s, params);
      match Format(s, params)
        case Text(t) => assert [pre[0]] + (pre[1..] + t) == pre + t;
        case _ =>
    }
  }

  /** A first character that is not a brace is copied. */
  lemma FormatPlainChar(c: char, rest: string, params: Dict<string>)
    requires c != '{' && c != '}'
    ensures Format([c] + rest, params) == PrefixWith([c], Format(rest, params))
  {
    assert ([c] + rest)[1..] == rest;
  }

  /** A template that starts with a named field. */
  lemma FieldFirst(key: string, after: string, params: Dict<string>)
    requires NoBraces(key) && NoBraces(after)
    requires key != [] && !AllDigits(key) && HasKey(params, key)
    ensures Format("{" + key + "}" + after, params) == Text(Get(params, key).value + after)
  {
    var t := "{" + key + "}" + after;
    assert t[1..] == key + ['}'] + after;
    IndexAfterFree(key, '}', after);
    assert t[1..1 + |key|] == key;
    assert t[|key| + 2..] == after;
    FormatPlain(after, params);
  }

  /** An unknown field name is a KeyError. */
  lemma FormatUnknownField(key: string, params: Dict<string>)
    requires NoBraces(key) && key != [] && !AllDigits(key) && !HasKey(params, key)
    ensures Format("{" + key + "}", params) == MissingKey
  {
    var t := "{" + key + "}";
    assert t[1..] == key + ['}'] + [];
    IndexAfterFree(key, '}', []);
    assert t[1..1 + |key|] == key;
  }

  // ---------------------------------------------------------------
  // Compliance script
  // ---------------------------------------------------------------

  /** The template for a lower-cased topic: the first match in the order 면책, 감액, 갱신, 해약/환급, 간편. */
  function TemplateKey(tl: string): (r: Option<string>)
    ensures r == Some("면책_안내") <==> Contains(tl, "면책")
    ensures r == Some("감액_안내") <==> !Contains(tl, "면책") && Contains(tl, "감액")
    ensures r == Some("갱신_안내") <==> !Contains(tl, "면책") && !Contains(tl, "감액") && Contains(tl, "갱신")
    ensures r == Some("해약환급금_안내") <==>
      !Contains(tl, "면책") && !Contains(tl, "감액") && !Contains(tl, "갱신") && (Contains(tl, "해약") || Contains(tl, "환급"))
    ensures r.None? <==>
      !Contains(tl, "면책") && !Contains(tl, "감액") && !Contains(tl, "갱신") && !Contains(tl, "해약")
      && !Contains(tl, "환급") && !Contains(tl, "간편")
    ensures r == Some("간편심사_안내") <==>
      !Contains(tl, "면책") && !Contains(tl, "감액") && !Contains(tl, "갱신") && !Contains(tl, "해약")
      && !Contains(tl, "환급") && Contains(tl, "간편")
  {
    if Contains(tl, "면책") then Some("면책_안내")
    else if Contains(tl, "감액") then Some("감액_안내")
    else if Contains(tl, "갱신") then Some("갱신_안내")
    else if Contains(tl, "해약") || Contains(tl, "환급") then Some("해약환급금_안내")
    else if Contains(tl, "간편") then Some("간편심사_안내")
    else None
  }

  /** The named fields each template may use. */
  function TemplateParams(p: Product, periods: Dict<string>, tl: string): (r: Dict<string>)
    ensures HasKey(r, "product_name")
  {
    var extra :=
      if Contains(tl, "면책") then [Entry("exemption_period", GetOr(periods, "면책기간", "약관에 정한"))]
      else if Contains(tl, "감액") then
        [Entry("reduction_period", Split(GetOr(periods, "감액기간", "약관에 정한 기간"), ',')[0]),
         Entry("reduction_pct", "50%")]
      else if Contains(tl, "갱신") then
        [Entry("renewal_type", match p.renewalType case Some(t) => t case None => "갱신형"),
         Entry("max_renewal_age", match p.maxRenewalAge case Some(n) => IntToString(n) case None => "약관 참조")]
      else [];
    var r := [Entry("product_name", p.name)] + extra;
    assert r[0].key == "product_name";
    r
  }

  function FallbackScript(p: Product, topic: string): string {
    p.name + "의 '" + topic + "'에 대한 안내 멘트를 준비 중입니다."
  }

  /**
   * `compliance_phrase_generator`: the topic's template filled in; the raw
   * template on a KeyError; a fallback sentence when no template applies.
   */
  function PhraseGenerator(products: Products, periodTable: Dict<Dict<string>>, templates: Dict<string>,
                           code: string, topic: string): (r: Outcome<string>)
    ensures !r.Blocked?
    ensures r.Failed? <==> !HasKey(products, code)
    ensures HasKey(products, code) ==> var key := TemplateKey(Lower(topic));
      (key.None? || !HasKey(templates, key.value)) ==> r == Done(FallbackScript(Get(products, code).value, topic))
    ensures HasKey(products, code) ==> var key := TemplateKey(Lower(topic));
      key.Some? && HasKey(templates, key.value) ==>
        var p := Get(products, code).value;
        var f := Format(Get(templates, key.value).value, TemplateParams(p, GetOr(periodTable, code, []), Lower(topic)));
        && (f.Text? ==> r == Done(f.s))
        && (f.MissingKey? ==> r == Done(Get(templates, key.value).value))
        && (f.BadFormat? <==> r.Crashed?)
  {
    match Get(products, code)
      case None => Failed("상품 '" + code + "' 없음")
      case Some(p) =>
        var tl := Lower(topic);
        var key := TemplateKey(tl);
        if key.Some? && HasKey(templates, key.value) then
          var template := Get(templates, key.value).value;
          match Format(template, TemplateParams(p, GetOr(periodTable, code, []), tl))
            case Text(s) => Done(s)
            case MissingKey => Done(template)
            case BadFormat => Crashed
        else Done(FallbackScript(p, topic))
  }

  // ---------------------------------------------------------------
  // Forbidden phrases
  // ---------------------------------------------------------------

  datatype Phrase = Phrase(pattern: string, reason: string, fix: string)

  predicate Found(fp: Phrase, tl: string) {
    Contains(tl, Lower(fp.pattern))
  }

  /** The forbidden phrases found in `tl`, in list order. */
  function Issues(phrases: seq<Phrase>, tl: string): (r: seq<Phrase>)
    ensures |r| <= |phrases|
  {
    if phrases == [] then []
    else Issues(phrases[..|phrases| - 1], tl) + (if Found(phrases[|phrases| - 1], tl) then [phrases[|phrases| - 1]] else [])
  }

  lemma {:induction false} IssuesSpec(phrases: seq<Phrase>, tl: string)
    ensures forall fp :: fp in Issues(phrases, tl) <==> fp in phrases && Found(fp, tl)
    ensures Issues(phrases, tl) == [] <==> forall i :: 0 <= i < |phrases| ==> !Found(phrases[i], tl)
  {
    if phrases != [] {
      var init := phrases[..|phrases| - 1];
      IssuesSpec(init, tl);
      assert phrases == init + [phrases[|phrases| - 1]];
      assert forall i :: 0 <= i < |init| ==> init[i] == phrases[i];
    }
  }

  datatype Check = Check(isOk: bool, issues: seq<Phrase>, total: nat)

  /** `compliance_misleading_check`, with its loop over the phrase list. */
  method MisleadingCheck(phrases: seq<Phrase>, text: string) returns (r: Check)
    ensures r.issues == Issues(phrases, Lower(text))
    ensures r.total == |r.issues|
    ensures r.isOk <==> forall i :: 0 <= i < |phrases| ==> !Found(phrases[i], Lower(text))
  {
    var issues: seq<Phrase> := [];
    var tl := Lower(text);
    for i := 0 to |phrases|
      invariant issues == Issues(phrases[..i], tl)
    {
      assert phrases[..i + 1][..i] == phrases[..i];
      if Contains(tl, Lower(phrases[i].pattern)) {
        issues := issues + [phrases[i]];
      }
    }
    assert phrases[..|phrases|] == phrases;
    IssuesSpec(phrases, tl);
    r := Check(|issues| == 0, issues, |issues|);
  }

  // ---------------------------------------------------------------
  // Disclaimers and notices
  // ---------------------------------------------------------------

  /** `comparison_disclaimer_generator`: two sentences for a simplified product, one otherwise. */
  function ComparisonDisclaimer(products: Products, code: string): (r: Result<seq<string>>)
    ensures r.Err? <==> !HasKey(products, code)
    ensures r.Ok? ==> |r.value| == if Get(products, code).value.simplified then 2 else 1
  {
    match Get(products, code)
      case None => Err("상품 '" + code + "' 없음")
      case Some(p) =>
        if p.simplified then
          Ok(["본 상품(" + p.name + ")은 간편(유병력자) 심사 상품으로, 일반심사 상품 대비 보험료가 높을 수 있습니다.",
              "일반심사 상품에 가입 가능하신 경우, 일반심사 상품도 함께 비교해 보시기 바랍니다."])
        else Ok(["본 상품은 일반심사 상품입니다."])
  }

  const TmNotice := "고객님, 안녕하세요. 라이나생명입니다. 본 통화는 보험업법 제95조의3에 따라 녹취되며, 통화 내용은 청약 내용의 정확성 확인 및 분쟁 해결을 위해 활용됩니다. 녹취에 동의하시면 상담을 진행하겠습니다."
  const CmNotice := "고객님, 안녕하세요. 본 상담은 보험업법에 따라 녹취되고 있음을 안내드립니다. 상담 내용은 계약 체결의 정확성 확인 목적으로만 사용됩니다."
  const DefaultNotice := "본 통화는 보험업법에 따라 녹취되며, 청약 내용의 정확성 확인을 위해 활용됩니다."

  /** `recording_notice_script`: by upper-cased channel, TM, CM, else the configured or built-in default. */
  function RecordingNotice(templates: Dict<string>, channel: string): (r: string)
    ensures Upper(channel) == "TM" ==> r == TmNotice
    ensures Upper(channel) == "CM" ==> r == CmNotice
    ensures Upper(channel) != "TM" && Upper(channel) != "CM" ==> r == GetOr(templates, "녹취_고지", DefaultNotice)
  {
    var ch := Upper(channel);
    if ch == "TM" then TmNotice
    else if ch == "CM" then CmNotice
    else GetOr(templates, "녹취_고지", DefaultNotice)
  }

  /** Either spelling of a channel gets the same notice. */
  lemma RecordingNoticeIgnoresCase(templates: Dict<string>)
    ensures RecordingNotice(templates, "tm") == RecordingNotice(templates, "TM") == TmNotice
  {
    assert Upper("tm") == "TM";
    assert Upper("TM") == "TM";
  }

  // ---------------------------------------------------------------
  // PII masking
  // ---------------------------------------------------------------

  datatype Pii = Pii(pattern: string, name: string)

  datatype Masking = Masking(masked: string, applied: seq<string>)

  function MaskLabel(name: string): string {
    "[" + name + "]"
  }

  /** Substitute each pattern in turn; a label is recorded when its substitution changed the text. */
  function Mask(patterns: seq<Pii>, text: string, sub: (string, string, string) -> string): (r: Masking)
    ensures |r.applied| <= |patterns|
  {
    if patterns == [] then Masking(text, [])
    else
      var prev := Mask(patterns[..|patterns| - 1], text, sub);
      var pii := patterns[|patterns| - 1];
      var next := sub(pii.pattern, MaskLabel(pii.name), prev.masked);
      if next != prev.masked then Masking(next, prev.applied + [MaskLabel(pii.name)]) else prev
  }

  /** Nothing is recorded exactly when no substitution changed anything, and then the text is unchanged. */
  lemma {:induction false} MaskUnchanged(patterns: seq<Pii>, text: string, sub: (string, string, string) -> string)
    ensures Mask(patterns, text, sub).applied == [] ==> Mask(patterns, text, sub).masked == text
    ensures forall x :: x in Mask(patterns, text, sub).applied ==> exists i :: 0 <= i < |patterns| && x == MaskLabel(patterns[i].name)
  {
    if patterns != [] {
      var init := patterns[..|patterns| - 1];
      MaskUnchanged(init, text, sub);
      forall x | x in Mask(init, text, sub).applied
        ensures exists i :: 0 <= i < |patterns| && x == MaskLabel(patterns[i].name)
      {
        var i :| 0 <= i < |init| && x == MaskLabel(init[i].name);
        assert patterns[i] == init[i];
      }
    }
  }

  /** The text after every substitution has run, whether or not it changed anything. */
  function Substituted(patterns: seq<Pii>, text: string, sub: (string, string, string) -> string): string {
    if patterns == [] then text
    else
      var pii := patterns[|patterns| - 1];
      sub(pii.pattern, MaskLabel(pii.name), Substituted(patterns[..|patterns| - 1], text, sub))
  }

  /** For each pattern, whether its substitution changed the text it was given. */
  function Changed(patterns: seq<Pii>, text: string, sub: (string, string, string) -> string): (r: seq<bool>)
    ensures |r| == |patterns|
  {
    seq(|patterns|, k requires 0 <= k < |patterns| =>
      Substituted(patterns[..k + 1], text, sub) != Substituted(patterns[..k], text, sub))
  }

  /** The labels of the patterns, in pattern order. */
  function Labels(patterns: seq<Pii>): (r: seq<string>)
    ensures |r| == |patterns|
  {
    seq(|patterns|, k requires 0 <= k < |patterns| => MaskLabel(patterns[k].name))
  }

  /** The elements of `s` whose flag is set, in order. */
  function Compress<T>(s: seq<T>, keep: seq<bool>): (r: seq<T>)
    requires |s| == |keep|
    ensures |r| <= |s|
  {
    if s == [] then []
    else Compress(s[..|s| - 1], keep[..|s| - 1]) + (if keep[|s| - 1] then [s[|s| - 1]] else [])
  }

  /**
   * Masking is the plain chain of substitutions, and it records the label
   * of exactly those patterns whose substitution changed the text, in
   * pattern order.
   */
  lemma {:induction false} MaskLabels(patterns: seq<Pii>, text: string, sub: (string, string, string) -> string)
    ensures Mask(patterns, text, sub).masked == Substituted(patterns, text, sub)
    ensures Mask(patterns, text, sub).applied == Compress(Labels(patterns), Changed(patterns, text, sub))
  {
    if patterns != [] {
      var n := |patterns| - 1;
      var init := patterns[..n];
      MaskLabels(init, text, sub);
      var labels, changed := Labels(patterns), Changed(patterns, text, sub);
      LabelsInit(patterns);
      ChangedInit(patterns, text, sub);
      assert patterns[..n + 1] == patterns;
      assert changed[n] == (Substituted(patterns, text, sub) != Substituted(init, text, sub));
      assert Compress(labels, changed) == Compress(Labels(init), Changed(init, text, sub)) + (if changed[n] then [labels[n]] else []);
    }
  }

  lemma LabelsInit(patterns: seq<Pii>)
    requires patterns != []
    ensures Labels(patterns)[..|patterns| - 1] == Labels(patterns[..|patterns| - 1])
  {
  }

  lemma ChangedInit(patterns: seq<Pii>, text: string, sub: (string, string, string) -> string)
    requires patterns != []
    ensures Changed(patterns, text, sub)[..|patterns| - 1] == Changed(patterns[..|patterns| - 1], text, sub)
  {
    var n := |patterns| - 1;
    var init := patterns[..n];
    forall k | 0 <= k < n
      ensures Changed(patterns, text, sub)[k] == Changed(init, text, sub)[k]
    {
      assert patterns[..k + 1] == init[..k + 1];
      assert patterns[..k] == init[..k];
    }
  }

  /** `privacy_masking`, with its loop over the patterns. */
  method PrivacyMasking(patterns: seq<Pii>, text: string, sub: (string, string, string) -> string)
    returns (originalLength: nat, r: Masking)
    ensures originalLength == |text|
    ensures r == Mask(patterns, text, sub)
  {
    var masked := text;
    var applied: seq<string> := [];
    for i := 0 to |patterns|
      invariant Masking(masked, applied) == Mask(patterns[..i], text, sub)
    {
      assert patterns[..i + 1][..i] == patterns[..i];
      var repl := MaskLabel(patterns[i].name);
      var newText := sub(patterns[i].pattern, repl, masked);
      if newText != masked {
        applied := applied + [repl];
        masked := newText;
      }
    }
    assert patterns[..|patterns|] == patterns;
    originalLength := |text|;
    r := Masking(masked, applied);
  }
}
