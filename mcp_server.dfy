// Exposing the registered tools over MCP: each tool's JSON-schema
// properties become a Python signature (required parameters first,
// then optional ones with defaults), each call goes through a handler
// that never raises, and initialisation registers everything once.

module McpServer {
  import opened Util

  datatype Json =
    | JStr(s: string)
    | JInt(i: int)
    | JNum(r: real)
    | JBool(b: bool)
    | JNull
    | JArr(items: seq<Json>)
    | JObj(fields: map<string, Json>)

  /** Python annotation types a JSON type maps to. */
  datatype PyType = PyStr | PyInt | PyFloat | PyBool | PyList | PyDict | PyNone

  const TypeMap: map<string, PyType> := map[
    "string" := PyStr, "integer" := PyInt, "number" := PyFloat, "boolean" := PyBool,
    "array" := PyList, "object" := PyDict, "null" := PyNone]

  /**
   * One schema property: its explicit `type` if any, the `type` of each
   * `anyOf` alternative (None where an alternative has none), and its
   * explicit default if any.
   */
  datatype PropInfo = PropInfo(ty: Option<string>, anyOf: seq<Option<string>>, default: Option<Json>)

  /** An alternative whose type is present, non-empty and not "null". */
  predicate Concrete(t: Option<string>) {
    t.Some? && t.value != "" && t.value != "null"
  }

  /** The first concrete alternative's type, if any. */
  function FirstConcrete(alts: seq<Option<string>>): (r: Option<string>)
    ensures r.None? <==> forall i :: 0 <= i < |alts| ==> !Concrete(alts[i])
    ensures r.Some? ==> exists i :: (0 <= i < |alts| && alts[i] == r && Concrete(alts[i])
        && forall j :: 0 <= j < i ==> !Concrete(alts[j]))
  {
    if alts == [] then None
    else if Concrete(alts[0]) then alts[0]
    else
      var r := FirstConcrete(alts[1..]);
      assert r.Some? ==> exists i :: (0 <= i < |alts[1..]| && alts[1..][i] == r && Concrete(alts[1..][i])
        && forall j :: 0 <= j < i ==> !Concrete(alts[1..][j]));
      assert r.Some? ==> exists i :: (1 <= i < |alts| && alts[i] == r && Concrete(alts[i])
        && forall j :: 1 <= j < i ==> !Concrete(alts[j]));
      r
  }

  /** The explicit type, else the first non-null anyOf type, else "string". */
  function ResolveJsonType(p: PropInfo): (r: string)
    ensures p.ty.Some? ==> r == p.ty.value
    ensures p.ty.None? && FirstConcrete(p.anyOf).Some? ==> r == FirstConcrete(p.anyOf).value && r != "null"
    ensures p.ty.None? && (forall i :: 0 <= i < |p.anyOf| ==> !Concrete(p.anyOf[i])) ==> r == "string"
  {
    if p.ty.Some? then p.ty.value
    else match FirstConcrete(p.anyOf)
      case Some(t) => t
      case None => "string"
  }

  /** Unknown JSON types become str. */
  function PyTypeOf(jsonType: string): (t: PyType)
    ensures jsonType !in TypeMap ==> t == PyStr
    ensures jsonType in TypeMap ==> t == TypeMap[jsonType]
  {
    if jsonType in TypeMap then TypeMap[jsonType] else PyStr
  }

  /** The default of an optional parameter that declares none. */
  function FallbackDefault(t: PyType): (d: Json)
    ensures t == PyStr ==> d == JStr("")
    ensures t == PyBool ==> d == JBool(false)
    ensures t == PyInt || t == PyFloat ==> d == JInt(0)
    ensures t in {PyList, PyDict, PyNone} ==> d == JArr([])
  {
    match t
      case PyStr => JStr("")
      case PyBool => JBool(false)
      case PyInt => JInt(0)
      case PyFloat => JInt(0)
      case _ => JArr([])
  }

  /** A parameter; `default` is None for a required one. */
  datatype Param = Param(name: string, annotation: PyType, default: Option<Json>)

  datatype Prop = Prop(name: string, info: PropInfo)

  function ParamOf(p: Prop, required: set<string>): Param {
    var t := PyTypeOf(ResolveJsonType(p.info));
    if p.name in required then Param(p.name, t, None)
    else Param(p.name, t, Some(if p.info.default.Some? then p.info.default.value else FallbackDefault(t)))
  }

  /** The parameters of the required properties, in schema order. */
  function RequiredParams(props: seq<Prop>, required: set<string>): seq<Param>
  {
    if props == [] then []
    else
      (if props[0].name in required then [ParamOf(props[0], required)] else [])
      + RequiredParams(props[1..], required)
  }

  /** The parameters of the optional properties, in schema order. */
  function OptionalParams(props: seq<Prop>, required: set<string>): seq<Param>
  {
    if props == [] then []
    else
      (if props[0].name in required then [] else [ParamOf(props[0], required)])
      + OptionalParams(props[1..], required)
  }

  function Signature(props: seq<Prop>, required: set<string>): seq<Param> {
    RequiredParams(props, required) + OptionalParams(props, required)
  }

  /** The annotation map: the return type, then one entry per property (later ones win). */
  function Annotations(props: seq<Prop>): map<string, PyType> {
    if props == [] then map["return" := PyStr]
    else Annotations(props[..|props| - 1])[props[|props| - 1].name := PyTypeOf(ResolveJsonType(props[|props| - 1].info))]
  }

  /** Required parameters carry no default and optional ones always do. */
  lemma {:induction false} ParamKinds(props: seq<Prop>, required: set<string>)
    ensures forall x :: x in RequiredParams(props, required) ==> x.default.None?
    ensures forall x :: x in OptionalParams(props, required) ==> x.default.Some?
  {
    if props != [] {
      ParamKinds(props[1..], required);
    }
  }

  /** Every required parameter precedes every optional one. */
  lemma RequiredFirst(props: seq<Prop>, required: set<string>, i: nat, j: nat)
    requires i < j < |Signature(props, required)|
    requires Signature(props, required)[i].default.Some?
    ensures Signature(props, required)[j].default.Some?
  {
    var rp := RequiredParams(props, required);
    ParamKinds(props, required);
    assert i >= |rp|;
    assert OptionalParams(props, required)[j - |rp|] in OptionalParams(props, required);
    assert Signature(props, required)[j] == OptionalParams(props, required)[j - |rp|];
  }

  /** Each property yields exactly one parameter of the right kind, named after it. */
  lemma {:induction false} SignatureCovers(props: seq<Prop>, required: set<string>)
    ensures |RequiredParams(props, required)| + |OptionalParams(props, required)| == |props|
    ensures forall x :: x in RequiredParams(props, required) ==> x.name in required
    ensures forall x :: x in OptionalParams(props, required) ==> x.name !in required
    ensures forall p :: p in props && p.name in required ==> ParamOf(p, required) in RequiredParams(props, required)
    ensures forall p :: p in props && p.name !in required ==> ParamOf(p, required) in OptionalParams(props, required)
  {
    if props != [] {
      SignatureCovers(props[1..], required);
      assert forall p :: p in props ==> p == props[0] || p in props[1..];
    }
  }

  /** Every property named in the schema gets the annotation of its last occurrence. */
  lemma {:induction false} AnnotationsCover(props: seq<Prop>)
    ensures Annotations(props).Keys == {"return"} + set p | p in props :: p.name
    ensures props != [] ==> Annotations(props)[props[|props| - 1].name] == PyTypeOf(ResolveJsonType(props[|props| - 1].info))
  {
    if props != [] {
      var init := props[..|props| - 1];
      AnnotationsCover(init);
      assert forall p :: p in props <==> p in init || p == props[|props| - 1];
    }
  }

  lemma RequiredStep(props: seq<Prop>, required: set<string>, i: nat)
    requires i < |props| && props[i].name in required
    ensures RequiredParams(props[i..], required) == [ParamOf(props[i], required)] + RequiredParams(props[i + 1..], required)
    ensures OptionalParams(props[i..], required) == OptionalParams(props[i + 1..], required)
  {
    assert props[i..][1..] == props[i + 1..];
  }

  lemma OptionalStep(props: seq<Prop>, required: set<string>, i: nat)
    requires i < |props| && props[i].name !in required
    ensures RequiredParams(props[i..], required) == RequiredParams(props[i + 1..], required)
    ensures OptionalParams(props[i..], required) == [ParamOf(props[i], required)] + OptionalParams(props[i + 1..], required)
  {
    assert props[i..][1..] == props[i + 1..];
  }

  lemma AnnotationsStep(props: seq<Prop>, i: nat)
    requires i < |props|
    ensures Annotations(props[..i + 1]) == Annotations(props[..i])[props[i].name := PyTypeOf(ResolveJsonType(props[i].info))]
  {
    assert props[..i + 1][..i] == props[..i];
  }

  /** One loop step keeps both groups on track: what is built so far, followed by what the rest yields, is the whole group. */
  lemma GroupsStep(props: seq<Prop>, required: set<string>, i: nat,
                   rp: seq<Param>, op: seq<Param>, rp': seq<Param>, op': seq<Param>)
    requires i < |props|
    requires rp + RequiredParams(props[i..], required) == RequiredParams(props, required)
    requires op + OptionalParams(props[i..], required) == OptionalParams(props, required)
    requires props[i].name in required ==> rp' == rp + [ParamOf(props[i], required)] && op' == op
    requires props[i].name !in required ==> op' == op + [ParamOf(props[i], required)] && rp' == rp
    ensures rp' + RequiredParams(props[i + 1..], required) == RequiredParams(props, required)
    ensures op' + OptionalParams(props[i + 1..], required) == OptionalParams(props, required)
  {
    if props[i].name in required {
      RequiredStep(props, required, i);
      AppendAssoc(rp, [ParamOf(props[i], required)], RequiredParams(props[i + 1..], required));
    } else {
      OptionalStep(props, required, i);
      AppendAssoc(op, [ParamOf(props[i], required)], OptionalParams(props[i + 1..], required));
    }
  }

  lemma AppendAssoc(a: seq<Param>, b: seq<Param>, c: seq<Param>)
    ensures (a + b) + c == a + (b + c)
  {
  }

  /** Handles one property: annotate it and append it to its group. */
  method AddProperty(p: Prop, required: set<string>,
                     requiredParams: seq<Param>, optionalParams: seq<Param>, annotations: map<string, PyType>)
    returns (requiredParams': seq<Param>, optionalParams': seq<Param>, annotations': map<string, PyType>)
    ensures p.name in required ==> requiredParams' == requiredParams + [ParamOf(p, required)] && optionalParams' == optionalParams
    ensures p.name !in required ==> optionalParams' == optionalParams + [ParamOf(p, required)] && requiredParams' == requiredParams
    ensures annotations' == annotations[p.name := PyTypeOf(ResolveJsonType(p.info))]
  {
    var pyType := PyTypeOf(ResolveJsonType(p.info));
    annotations' := annotations[p.name := pyType];
    requiredParams', optionalParams' := requiredParams, optionalParams;
    if p.name in required {
      requiredParams' := requiredParams + [Param(p.name, pyType, None)];
    } else {
      var d := if p.info.default.Some? then p.info.default.value else FallbackDefault(pyType);
      optionalParams' := optionalParams + [Param(p.name, pyType, Some(d))];
    }
  }

  /** Builds the signature and the annotation map of one tool's schema. */
  method BuildSignature(props: seq<Prop>, required: set<string>)
    returns (params: seq<Param>, annotations: map<string, PyType>)
    ensures params == Signature(props, required)
    ensures annotations == Annotations(props)
  {
    annotations := map["return" := PyStr];
    var requiredParams: seq<Param> := [];
    var optionalParams: seq<Param> := [];
    assert props[0..] == props;
    for i := 0 to |props|
      invariant requiredParams + RequiredParams(props[i..], required) == RequiredParams(props, required)
      invariant optionalParams + OptionalParams(props[i..], required) == OptionalParams(props, required)
      invariant annotations == Annotations(props[..i])
    {
      AnnotationsStep(props, i);
      var rp, op := requiredParams, optionalParams;
      requiredParams, optionalParams, annotations := AddProperty(props[i], required, requiredParams, optionalParams, annotations);
      GroupsStep(props, required, i, rp, op, requiredParams, optionalParams);
    }
    assert props[..|props|] == props;
    assert props[|props|..] == [];
    assert requiredParams == RequiredParams(props, required);
    assert optionalParams == OptionalParams(props, required);
    params := requiredParams + optionalParams;
  }

  // ---------------------------------------------------------------
  // Handler
  // ---------------------------------------------------------------

  /** What invoking the tool did: returned a value or raised with a message. */
  datatype Outcome = Returned(value: Json) | Raised(message: string)

  /** The handler's reply: strings pass through, other results and errors are JSON-encoded. */
  function Handle(outcome: Outcome, encode: Json -> string): (reply: string)
    ensures outcome.Raised? ==> reply == encode(JObj(map["error" := JStr(outcome.message)]))
    ensures outcome.Returned? && outcome.value.JStr? ==> reply == outcome.value.s
    ensures outcome.Returned? && !outcome.value.JStr? ==> reply == encode(outcome.value)
  {
    match outcome
      case Raised(msg) => encode(JObj(map["error" := JStr(msg)]))
      case Returned(JStr(s)) => s
      case Returned(v) => encode(v)
  }

  // ---------------------------------------------------------------
  // Initialisation
  // ---------------------------------------------------------------

  /** The FastMCP server: the names of the tools added to it, in order. */
  class Server {
    var tools: seq<string>

    constructor()
      ensures tools == []
    {
      tools := [];
    }

    method AddTool(name: string)
      modifies this
      ensures tools == old(tools) + [name]
    {
      tools := tools + [name];
    }
  }

  const PipelineTool: string := "insurance_chat"

  /** The module-level singleton and the once-only flag. */
  class Runtime {
    var mcp: Server?
    var initialized: bool

    /** The once-only flag is only ever set after the server exists. */
    predicate Valid()
      reads this
    {
      initialized ==> mcp != null
    }

    constructor()
      ensures mcp == null && !initialized && Valid()
    {
      mcp := null;
      initialized := false;
    }

    /** The singleton server, created on first use. */
    method GetMcp() returns (m: Server)
      modifies this
      requires Valid()
      ensures Valid()
      ensures old(mcp) != null ==> m == old(mcp)
      ensures old(mcp) == null ==> fresh(m) && m.tools == []
      ensures mcp == m && initialized == old(initialized)
    {
      if mcp == null {
        mcp := new Server();
      }
      m := mcp;
    }

    /**
     * Registers every tool and then the pipeline tool, only on the first
     * call; every call returns the same server.
     */
    method InitMcp(toolNames: seq<string>) returns (m: Server)
      modifies this, mcp
      requires Valid()
      ensures Valid()
      ensures old(mcp) != null ==> m == old(mcp)
      ensures mcp == m && initialized
      ensures old(initialized) ==> m.tools == old(mcp.tools)
      ensures !old(initialized) && old(mcp) != null ==> m.tools == old(mcp.tools) + toolNames + [PipelineTool]
      ensures !old(initialized) && old(mcp) == null ==> m.tools == toolNames + [PipelineTool]
    {
      m := GetMcp();
      if initialized {
        return;
      }
      initialized := true;
      for i := 0 to |toolNames|
        invariant mcp == m && initialized
        invariant m.tools == old(if mcp != null then mcp.tools else []) + toolNames[..i]
      {
        m.AddTool(toolNames[i]);
      }
      assert toolNames[..|toolNames|] == toolNames;
      m.AddTool(PipelineTool);
    }
  }
}
