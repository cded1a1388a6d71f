/** The dynamic tool registry (app/tools/__init__.py): a name-to-tool dict
    with a version counter that changes with every successful mutation, and
    change callbacks that run after each one. */
module Registry {
  import opened Util
  import opened ToolCards

  /** A LangChain tool as far as routing is concerned. */
  datatype Tool = Tool(name: string, description: string)

  const NegativeHeader: string := "\n[사용 금지 상황]\n"

  /** The "· "-prefixed negative examples. */
  function Bullets(ws: seq<string>): (r: seq<string>)
    ensures |r| == |ws|
    ensures forall i :: 0 <= i < |ws| ==> r[i] == "· " + ws[i]
  {
    seq(|ws|, i requires 0 <= i < |ws| => "· " + ws[i])
  }

  /** `_inject_when_not_to_use`: appends the card's negative examples to the
      description the model sees. */
  function InjectWhenNotToUse(cards: CardRegistry, t: Tool): (r: Tool)
    requires ToolCards.Valid(cards)
    ensures r.name == t.name
    ensures r == t <==> t.name !in cards.values || cards.values[t.name].whenNotToUse == []
    ensures r != t ==> r.description == RStrip(t.description) + NegativeHeader
                                         + Join("\n", Bullets(cards.values[t.name].whenNotToUse))
  {
    match GetCard(cards, t.name)
    case None => t
    case Some(card) =>
      if card.whenNotToUse == [] then t
      else
        var d := RStrip(t.description);
        var r := t.(description := d + NegativeHeader + Join("\n", Bullets(card.whenNotToUse)));
        assert r.description[|d| + 1] == '[';
        assert |d| + 1 < |r.description| && !IsSpace(r.description[|d| + 1]);
        r
  }

  /** A change callback; `raises` says whether calling it throws. */
  datatype Callback = Callback(id: nat, raises: bool)

  /** One call of a callback, with the registry version it saw. */
  datatype CallbackRun = CallbackRun(id: nat, version: nat, raised: bool)

  /** The calls `_fire_on_change` makes: every callback in order, whether or
      not an earlier one raised. */
  function Runs(cbs: seq<Callback>, version: nat): (r: seq<CallbackRun>)
    ensures |r| == |cbs|
    ensures forall i :: 0 <= i < |cbs| ==> r[i] == CallbackRun(cbs[i].id, version, cbs[i].raises)
  {
    seq(|cbs|, i requires 0 <= i < |cbs| => CallbackRun(cbs[i].id, version, cbs[i].raises))
  }

  /** The tools after `register_many(ts)`: each enriched tool stored under its
      name, a later one with the same name replacing an earlier one. */
  function PutAll(o: OMap<Tool>, cards: CardRegistry, ts: seq<Tool>): (r: OMap<Tool>)
    requires OMapValid(o) && ToolCards.Valid(cards)
    ensures OMapValid(r)
    ensures forall n :: n in r.values <==> n in o.values || exists t :: t in ts && t.name == n
    decreases |ts|
  {
    if ts == [] then o
    else
      var last := ts[|ts| - 1];
      var r := OPut(PutAll(o, cards, ts[..|ts| - 1]), last.name, InjectWhenNotToUse(cards, last));
      assert forall t :: t in ts <==> t in ts[..|ts| - 1] || t == last;
      r
  }

  /** Names of tools stay attached to the tool stored under them. */
  ghost predicate NamesMatch(o: OMap<Tool>) {
    forall n :: n in o.values ==> o.values[n].name == n
  }

  lemma {:induction false} PutAllNamesMatch(o: OMap<Tool>, cards: CardRegistry, ts: seq<Tool>)
    requires OMapValid(o) && ToolCards.Valid(cards) && NamesMatch(o)
    ensures NamesMatch(PutAll(o, cards, ts))
    decreases |ts|
  {
    if ts != [] {
      PutAllNamesMatch(o, cards, ts[..|ts| - 1]);
    }
  }

  /** A name the batch does not mention keeps its old tool. */
  lemma {:induction false} PutAllKeepsOthers(o: OMap<Tool>, cards: CardRegistry, ts: seq<Tool>, n: string)
    requires OMapValid(o) && ToolCards.Valid(cards)
    requires n in o.values && forall t :: t in ts ==> t.name != n
    ensures PutAll(o, cards, ts).values[n] == o.values[n]
    decreases |ts|
  {
    if ts != [] {
      assert forall t :: t in ts[..|ts| - 1] ==> t in ts;
      PutAllKeepsOthers(o, cards, ts[..|ts| - 1], n);
    }
  }

  /** A name in the batch ends up holding the enriched last tool with that name. */
  lemma {:induction false} PutAllLastWins(o: OMap<Tool>, cards: CardRegistry, ts: seq<Tool>, i: nat)
    requires OMapValid(o) && ToolCards.Valid(cards)
    requires i < |ts| && forall j :: i < j < |ts| ==> ts[j].name != ts[i].name
    ensures PutAll(o, cards, ts).values[ts[i].name] == InjectWhenNotToUse(cards, ts[i])
    decreases |ts|
  {
    if i < |ts| - 1 {
      PutAllLastWins(o, cards, ts[..|ts| - 1], i);
    }
  }

  class ToolRegistry {
    var tools: OMap<Tool>
    var version: nat
    var callbacks: seq<Callback>
    /** Every callback call made so far, in order. */
    var runs: seq<CallbackRun>

    ghost predicate Valid()
      reads this
    {
      OMapValid(tools) && NamesMatch(tools)
    }

    constructor ()
      ensures Valid()
      ensures tools.values == map[] && version == 0 && callbacks == [] && runs == []
    {
      tools := OEmpty();
      version := 0;
      callbacks := [];
      runs := [];
    }

    /** `get_all()`: a snapshot of the tools in registration order. */
    method GetAll() returns (r: seq<Tool>)
      requires Valid()
      ensures |r| == |tools.keys|
      ensures forall i :: 0 <= i < |r| ==> r[i].name == tools.keys[i] && r[i] == tools.values[tools.keys[i]]
      ensures forall i, j :: 0 <= i < j < |r| ==> r[i].name != r[j].name
      ensures forall n :: n in tools.values ==> tools.values[n] in r
    {
      r := OValues(tools);
      forall n | n in tools.values ensures tools.values[n] in r {
        var i :| 0 <= i < |tools.keys| && tools.keys[i] == n;
        assert r[i] == tools.values[n];
      }
    }

    /** `get_by_name(name)`: the tool, or None when absent. */
    method GetByName(name: string) returns (r: Option<Tool>)
      requires Valid()
      ensures r.None? <==> name !in tools.values
      ensures r.Some? ==> r.value == tools.values[name] && r.value.name == name
    {
      if name in tools.values {
        r := Some(tools.values[name]);
      } else {
        r := None;
      }
    }

    /** `on_change(cb)`. */
    method OnChange(cb: Callback)
      modifies this
      ensures callbacks == old(callbacks) + [cb]
      ensures tools == old(tools) && version == old(version) && runs == old(runs)
    {
      callbacks := callbacks + [cb];
    }

    /** `_fire_on_change`: calls every callback; an exception is swallowed and
        the remaining callbacks still run. */
    method FireOnChange()
      modifies this`runs
      ensures runs == old(runs) + Runs(callbacks, version)
    {
      var i := 0;
      while i < |callbacks|
        invariant 0 <= i <= |callbacks|
        invariant runs == old(runs) + Runs(callbacks[..i], version)
      {
        var cb := callbacks[i];
        // The callback's own effect is outside this model; a raising
        // callback is logged and the loop carries on.
        runs := runs + [CallbackRun(cb.id, version, cb.raises)];
        assert callbacks[..i + 1] == callbacks[..i] + [cb];
        i := i + 1;
      }
      assert callbacks[..i] == callbacks;
    }

    /** `register(tool)`: stores the enriched tool, bumps the version by one,
        then fires the callbacks. */
    method Register(cards: CardRegistry, t: Tool)
      requires Valid() && ToolCards.Valid(cards)
      modifies this
      ensures Valid()
      ensures tools == OPut(old(tools), t.name, InjectWhenNotToUse(cards, t))
      ensures version == old(version) + 1
      ensures callbacks == old(callbacks)
      ensures runs == old(runs) + Runs(callbacks, version)
    {
      var enriched := InjectWhenNotToUse(cards, t);
      tools := OPut(tools, enriched.name, enriched);
      version := version + 1;
      FireOnChange();
    }

    /** `register_many(ts)`: one version bump and one round of callbacks per
        batch, even for an empty batch. */
    method RegisterMany(cards: CardRegistry, ts: seq<Tool>)
      requires Valid() && ToolCards.Valid(cards)
      modifies this
      ensures Valid()
      ensures tools == PutAll(old(tools), cards, ts)
      ensures version == old(version) + 1
      ensures callbacks == old(callbacks)
      ensures runs == old(runs) + Runs(callbacks, version)
    {
      var i := 0;
      while i < |ts|
        invariant 0 <= i <= |ts|
        invariant tools == PutAll(old(tools), cards, ts[..i])
        invariant version == old(version) && callbacks == old(callbacks) && runs == old(runs)
      {
        assert ts[..i + 1][..i] == ts[..i];
        tools := OPut(tools, ts[i].name, InjectWhenNotToUse(cards, ts[i]));
        i := i + 1;
      }
      assert ts[..i] == ts;
      PutAllNamesMatch(old(tools), cards, ts);
      version := version + 1;
      FireOnChange();
    }

    /** `unregister(name)`: True iff the name was present; the version and
        the callbacks move only when something was removed. */
    method Unregister(name: string) returns (removed: bool)
      requires Valid()
      modifies this
      ensures Valid()
      ensures removed == (name in old(tools).values)
      ensures tools == ORemove(old(tools), name)
      ensures version == old(version) + (if removed then 1 else 0)
      ensures callbacks == old(callbacks)
      ensures runs == old(runs) + (if removed then Runs(callbacks, version) else [])
    {
      removed := name in tools.values;
      tools := ORemove(tools, name);
      if removed {
        version := version + 1;
        FireOnChange();
      }
    }

    /** `load_from_modules`: the modules' TOOLS lists concatenated in module
        order and registered as one batch. */
    method LoadFromModules(cards: CardRegistry, modules: seq<seq<Tool>>)
      requires Valid() && ToolCards.Valid(cards)
      modifies this
      ensures Valid()
      ensures tools == PutAll(old(tools), cards, Concat(modules))
      ensures version == old(version) + 1
      ensures callbacks == old(callbacks)
      ensures runs == old(runs) + Runs(callbacks, version)
    {
      var all: seq<Tool> := [];
      var i := 0;
      while i < |modules|
        invariant 0 <= i <= |modules|
        invariant all == Concat(modules[..i])
      {
        assert modules[..i + 1][..i] == modules[..i];
        all := all + modules[i];
        i := i + 1;
      }
      assert modules[..i] == modules;
      RegisterMany(cards, all);
    }
  }

  /** The lists concatenated in order. */
  function Concat(xss: seq<seq<Tool>>): (r: seq<Tool>)
    ensures forall t :: t in r <==> exists i :: 0 <= i < |xss| && t in xss[i]
    decreases |xss|
  {
    if xss == [] then []
    else
      var r := Concat(xss[..|xss| - 1]) + xss[|xss| - 1];
      assert forall i :: 0 <= i < |xss| - 1 ==> xss[..|xss| - 1][i] == xss[i];
      r
  }
}
