/** The tool card override store (app/tool_search/toolcard_store.py): per
    tool a published override, a draft and a version history of at most 30
    entries, with draft / publish / rollback / reset operations that keep the
    live card registry in step with what is published.

    Card data arrives as JSON from the admin interface; a field the data
    does not carry is `None`. The JSON file, timestamps and the lock are
    outside this model. */
module CardStore {
  import opened Util
  import opened ToolCards

  const MaxHistory: nat := 30

  /** A card as a dict: `name` is always set by the store, the other four
      keys may be missing. */
  datatype CardData = CardData(
    name: string,
    purpose: Option<string>,
    whenToUse: Option<seq<string>>,
    whenNotToUse: Option<seq<string>>,
    tags: Option<seq<string>>)

  function Or<T>(o: Option<T>, d: T): T {
    match o
    case Some(v) => v
    case None => d
  }

  /** `_card_to_dict`. */
  function CardToDict(c: ToolCard): (d: CardData)
    ensures d.name == c.name
    ensures d.purpose.Some? && d.whenToUse.Some? && d.whenNotToUse.Some? && d.tags.Some?
  {
    CardData(c.name, Some(c.purpose), Some(c.whenToUse), Some(c.whenNotToUse), Some(c.tags))
  }

  /** `_dict_to_card`: a missing field defaults to empty. */
  function DictToCard(d: CardData): (c: ToolCard)
    ensures c.name == d.name
    ensures d.purpose.None? ==> c.purpose == ""
    ensures d.whenToUse.None? ==> c.whenToUse == []
    ensures d.whenNotToUse.None? ==> c.whenNotToUse == []
    ensures d.tags.None? ==> c.tags == []
  {
    ToolCard(d.name, Or(d.purpose, ""), Or(d.whenToUse, []), Or(d.whenNotToUse, []), Or(d.tags, []))
  }

  /** A card survives the trip through its dict unchanged. */
  lemma CardDictRoundTrip(c: ToolCard)
    ensures DictToCard(CardToDict(c)) == c
  {
  }

  /** A dict with every field present survives the trip through a card. */
  lemma DictCardRoundTrip(d: CardData)
    requires d.purpose.Some? && d.whenToUse.Some? && d.whenNotToUse.Some? && d.tags.Some?
    ensures CardToDict(DictToCard(d)) == d
  {
  }

  /** One history record; the timestamp is left out. */
  datatype HistoryItem = HistoryItem(version: nat, data: CardData, note: string, previous: Option<CardData>)

  datatype Entry = Entry(published: Option<CardData>, draft: Option<CardData>, history: seq<HistoryItem>)

  /** `(history[-1]["version"] + 1) if history else 1`. */
  function NextVersion(h: seq<HistoryItem>): (v: nat)
    ensures v >= 1
    ensures h != [] ==> v > h[|h| - 1].version
  {
    if h == [] then 1 else h[|h| - 1].version + 1
  }

  /** `history[:] = history[-30:]` when too long. */
  function KeepRecent(h: seq<HistoryItem>): (r: seq<HistoryItem>)
    ensures |r| == Min(|h|, MaxHistory)
    ensures r == h[|h| - |r|..]
  {
    if |h| > MaxHistory then h[|h| - MaxHistory..] else h
  }

  /** Consecutive version numbers, starting at 1 or later. */
  predicate Consecutive(h: seq<HistoryItem>) {
    h != [] ==> h[0].version >= 1 && forall i :: 0 <= i < |h| ==> h[i].version == h[0].version + i
  }

  /** Appending the next version and keeping the newest 30 keeps the
      versions consecutive and the bound, and the new record is the last. */
  lemma AppendKeepsConsecutive(h: seq<HistoryItem>, item: HistoryItem)
    requires Consecutive(h) && |h| <= MaxHistory
    requires item.version == NextVersion(h)
    ensures var r := KeepRecent(h + [item]);
      Consecutive(r) && |r| <= MaxHistory && r != [] && r[|r| - 1] == item
  {
    var g := h + [item];
    SnocConsecutive(h, item);
    SuffixConsecutive(g, |g| - |KeepRecent(g)|);
  }

  /** Appending the next version keeps the versions consecutive. */
  lemma SnocConsecutive(h: seq<HistoryItem>, item: HistoryItem)
    requires Consecutive(h) && item.version == NextVersion(h)
    ensures Consecutive(h + [item])
  {
    var g := h + [item];
    if h != [] {
      forall i | 0 <= i < |g| ensures g[i].version == g[0].version + i {
        if i < |h| { assert g[i] == h[i]; } else { assert g[i] == item; }
      }
    }
  }

  /** A suffix of consecutive versions is consecutive. */
  lemma SuffixConsecutive(g: seq<HistoryItem>, off: nat)
    requires Consecutive(g) && off <= |g|
    ensures Consecutive(g[off..])
  {
    var r := g[off..];
    forall i | 0 <= i < |r| ensures r[i].version == r[0].version + i {
      assert r[i] == g[off + i] && r[0] == g[off];
    }
  }


  /** In consecutive history the versions rise by one per record, so each
      version appears at most once. */
  lemma VersionsRise(h: seq<HistoryItem>, i: nat, j: nat)
    requires Consecutive(h) && i <= j < |h|
    ensures h[j].version == h[i].version + (j - i)
  {
  }

  /** `next((h for h in history if h["version"] == v), None)`. */
  function FindVersion(h: seq<HistoryItem>, v: nat): (r: Option<HistoryItem>)
    ensures r.None? <==> forall i :: 0 <= i < |h| ==> h[i].version != v
    ensures r.Some? ==> exists i :: (0 <= i < |h| && h[i] == r.value && r.value.version == v
                                     && forall j :: 0 <= j < i ==> h[j].version != v)
  {
    if h == [] then None
    else if h[0].version == v then Some(h[0])
    else
      var r := FindVersion(h[1..], v);
      assert forall i :: 1 <= i < |h| ==> h[i] == h[1..][i - 1];
      if r.Some? then
        var k :| 0 <= k < |h[1..]| && h[1..][k] == r.value && r.value.version == v
                 && forall j :: 0 <= j < k ==> h[1..][j].version != v;
        assert h[k + 1] == r.value;
        r
      else r
  }

  /** With consecutive history, the version looked for is found exactly when
      it lies between the oldest and newest kept versions. */
  lemma FindVersionInRange(h: seq<HistoryItem>, v: nat)
    requires Consecutive(h) && h != []
    ensures FindVersion(h, v).Some? <==> h[0].version <= v <= h[|h| - 1].version
  {
    VersionsRise(h, 0, |h| - 1);
    if h[0].version <= v <= h[|h| - 1].version {
      var i := v - h[0].version;
      VersionsRise(h, 0, i);
    } else {
      forall i | 0 <= i < |h| ensures h[i].version != v {
        VersionsRise(h, 0, i);
        VersionsRise(h, i, |h| - 1);
      }
    }
  }

  /** What one tool's entry promises: the history is consecutive and holds
      at most 30 records, all of this tool; a published card exists exactly
      when there is history, and it is the newest record's data. */
  predicate EntryValid(name: string, e: Entry) {
    && Consecutive(e.history)
    && |e.history| <= MaxHistory
    && (e.history == [] <==> e.published.None?)
    && (e.history != [] ==> e.published == Some(e.history[|e.history| - 1].data))
    && (forall i :: 0 <= i < |e.history| ==> e.history[i].data.name == name)
    && (e.draft.Some? ==> e.draft.value.name == name)
  }

  /** Where `get_status` says the effective card comes from. */
  datatype Source = Override | Code | NoCard

  datatype Status = Status(name: string, source: Source, hasDraft: bool, version: nat, historyCount: nat)

  /** One field of `diff`. */
  datatype Field = Purpose | WhenToUse | WhenNotToUse | Tags

  /** A value read with `dict.get`: missing, a string, or a list. */
  datatype FieldValue = Missing | Text(s: string) | Lines(xs: seq<string>)

  datatype Change = Change(before: FieldValue, after: FieldValue)

  function FieldOf(d: CardData, f: Field): FieldValue {
    match f
    case Purpose => if d.purpose.Some? then Text(d.purpose.value) else Missing
    case WhenToUse => if d.whenToUse.Some? then Lines(d.whenToUse.value) else Missing
    case WhenNotToUse => if d.whenNotToUse.Some? then Lines(d.whenNotToUse.value) else Missing
    case Tags => if d.tags.Some? then Lines(d.tags.value) else Missing
  }

  /** `ToolCardStore.diff`: each of the four content fields that differs,
      with its old and new value; the name is never compared. */
  function Diff(a: CardData, b: CardData): (r: map<Field, Change>)
    ensures forall f :: f in r <==> FieldOf(a, f) != FieldOf(b, f)
    ensures forall f :: f in r ==> r[f] == Change(FieldOf(a, f), FieldOf(b, f))
  {
    map f: Field | f in {Purpose, WhenToUse, WhenNotToUse, Tags} && FieldOf(a, f) != FieldOf(b, f)
      :: Change(FieldOf(a, f), FieldOf(b, f))
  }

  /** No difference exactly when the four content fields agree. */
  lemma DiffEmptyIff(a: CardData, b: CardData)
    ensures Diff(a, b) == map[] <==> a.(name := b.name) == b
  {
    if Diff(a, b) == map[] {
      assert FieldOf(a, Purpose) == FieldOf(b, Purpose);
      assert FieldOf(a, WhenToUse) == FieldOf(b, WhenToUse);
      assert FieldOf(a, WhenNotToUse) == FieldOf(b, WhenNotToUse);
      assert FieldOf(a, Tags) == FieldOf(b, Tags);
    } else {
      var f :| f in Diff(a, b);
    }
  }

  /** Swapping the arguments reports the same fields with old and new swapped. */
  lemma DiffSymmetric(a: CardData, b: CardData)
    ensures Diff(b, a).Keys == Diff(a, b).Keys
    ensures forall f :: f in Diff(a, b) ==> Diff(b, a)[f] == Change(Diff(a, b)[f].after, Diff(a, b)[f].before)
  {
  }

  /** `reset_to_code` AS WRITTEN: the name it reads the "code" card from is
      an alias of the live registry, so it returns, and writes back, the card
      currently live for that tool. */
  function ResetAsWritten(live: CardRegistry, name: string): (r: (CardRegistry, Option<ToolCard>))
    requires ToolCards.Valid(live)
    ensures r.0 == live
    ensures r.1 == GetCard(live, name)
  {
    match GetCard(live, name)
    case None => (live, None)
    case Some(c) => (Put(live, c), Some(c))
  }

  /** After a publish, the as-written reset leaves the published override in
      place: whenever the override differs from the card defined in code,
      the code card is not restored. */
  lemma ResetAfterPublishKeepsOverride(live: CardRegistry, code: CardRegistry, d: CardData)
    requires ToolCards.Valid(live) && ToolCards.Valid(code)
    requires d.name in code.values && code.values[d.name] != DictToCard(d)
    ensures var after := ResetAsWritten(Put(live, DictToCard(d)), d.name);
      after.1 == Some(DictToCard(d)) && after.1 != Some(code.values[d.name])
      && after.0.values[d.name] != code.values[d.name]
  {
  }

  /** A concrete case: the code card has purpose "A", an override with
      purpose "B" is published, and the reset hands back "B". */
  lemma ResetAsWrittenExample()
    ensures var code := BuildRegistry([NewCard("product_search", "A")]);
      var d := CardData("product_search", Some("B"), None, None, None);
      ResetAsWritten(Put(code, DictToCard(d)), "product_search").1 == Some(NewCard("product_search", "B"))
  {
    var code := BuildRegistry([NewCard("product_search", "A")]);
    var d := CardData("product_search", Some("B"), None, None, None);
    assert DictToCard(d) == NewCard("product_search", "B");
  }

  /** `reset_to_code` as intended: the card defined in code, taken from a
      snapshot made before any publish, is put back live when it exists. */
  function Restored(live: CardRegistry, code: CardRegistry, name: string): (r: (CardRegistry, Option<ToolCard>))
    requires ToolCards.Valid(live) && ToolCards.Valid(code)
    ensures ToolCards.Valid(r.0)
    ensures r.1 == GetCard(code, name)
    ensures name in code.values ==> r.0.values == live.values[name := code.values[name]]
    ensures name !in code.values ==> r.0 == live
  {
    match GetCard(code, name)
    case None => (live, None)
    case Some(c) => (Put(live, c), Some(c))
  }

  /** Publish-then-reset gives back the code card, whatever was published. */
  lemma ResetAfterPublishRestoresCode(live: CardRegistry, code: CardRegistry, d: CardData)
    requires ToolCards.Valid(live) && ToolCards.Valid(code) && d.name in code.values
    ensures var after := Restored(Put(live, DictToCard(d)), code, d.name);
      after.1 == Some(code.values[d.name]) && after.0.values[d.name] == code.values[d.name]
  {
  }

  /** The store's entry for `name` with the draft promoted to the next
      version (shared by publish and rollback). */
  function Promote(e: Entry, data: CardData, note: string): Entry {
    var item := HistoryItem(NextVersion(e.history), data, note, e.published);
    Entry(Some(data), None, KeepRecent(e.history + [item]))
  }

  /** Promoting keeps an entry valid, and the promoted data is what is now
      published, at the next version number. */
  lemma PromoteValid(name: string, e: Entry, data: CardData, note: string)
    requires EntryValid(name, e) && data.name == name
    ensures EntryValid(name, Promote(e, data, note))
    ensures Promote(e, data, note).published == Some(data)
    ensures Promote(e, data, note).draft.None?
    ensures var h := Promote(e, data, note).history; h[|h| - 1].version == NextVersion(e.history)
  {
    var item := HistoryItem(NextVersion(e.history), data, note, e.published);
    AppendKeepsConsecutive(e.history, item);
    var g := e.history + [item];
    var r := KeepRecent(g);
    forall i | 0 <= i < |r| ensures r[i].data.name == name {
      assert r[i] == g[|g| - |r| + i];
    }
  }

  lemma MapUpdateTwice<K, V>(m: map<K, V>, k: K, a: V, b: V)
    ensures m[k := a][k := b] == m[k := b]
  {
  }

  /** The default history note of a publish. */
  function PublishNote(note: string, v: nat): string {
    if note == "" then "v" + NatToString(v) + " published" else note
  }

  /** One entry of the store: valid, and its published card is the live one. */
  ghost predicate EntryOk(n: string, e: Entry, live: CardRegistry) {
    EntryValid(n, e) && (e.published.Some? ==> n in live.values && live.values[n] == DictToCard(e.published.value))
  }

  /** The store's invariant: every entry is valid, and every published card is live. */
  ghost predicate StoreValid(store: OMap<Entry>, live: CardRegistry, code: CardRegistry) {
    && OMapValid(store)
    && ToolCards.Valid(live)
    && ToolCards.Valid(code)
    && forall n :: n in store.values ==> EntryOk(n, store.values[n], live)
  }

  /** Putting an entry that is in step with the new registry keeps the invariant,
      when the registry changed at most under that entry's name. */
  lemma StoreValidPut(store: OMap<Entry>, live: CardRegistry, code: CardRegistry, name: string, e: Entry, l': CardRegistry)
    requires StoreValid(store, live, code)
    requires EntryOk(name, e, l') && ToolCards.Valid(l')
    requires forall n :: n in live.values && n != name ==> n in l'.values && l'.values[n] == live.values[n]
    ensures StoreValid(OPut(store, name, e), l', code)
  {
    var s' := OPut(store, name, e);
    forall n | n in s'.values ensures EntryOk(n, s'.values[n], l') {
      if n != name {
        OtherEntryOk(n, store.values[n], live, l');
      }
    }
  }

  /** An entry stays in step with a registry that agrees with the old one on its name. */
  lemma OtherEntryOk(n: string, e: Entry, live: CardRegistry, l': CardRegistry)
    requires EntryOk(n, e, live)
    requires n in live.values ==> n in l'.values && l'.values[n] == live.values[n]
    ensures EntryOk(n, e, l')
  {
  }

  /** Promoting a tool's card and putting it live keeps the invariant. */
  lemma PromoteStoreValid(store: OMap<Entry>, live: CardRegistry, code: CardRegistry, name: string, d: CardData, note: string)
    requires StoreValid(store, live, code) && name in store.values && d.name == name
    ensures StoreValid(OPut(store, name, Promote(store.values[name], d, note)), Put(live, DictToCard(d)), code)
  {
    var l' := Put(live, DictToCard(d));
    assert EntryOk(name, store.values[name], live);
    PromotedEntryOk(name, store.values[name], d, note, l');
    StoreValidPut(store, live, code, name, Promote(store.values[name], d, note), l');
  }

  lemma PromotedEntryOk(name: string, e: Entry, d: CardData, note: string, l': CardRegistry)
    requires EntryValid(name, e) && d.name == name
    requires name in l'.values && l'.values[name] == DictToCard(d)
    ensures EntryOk(name, Promote(e, d, note), l')
  {
    PromoteValid(name, e, d, note);
  }

  /** Replacing a tool's draft keeps the invariant; an unknown tool gets an empty entry. */
  lemma DraftStoreValid(store: OMap<Entry>, live: CardRegistry, code: CardRegistry, name: string, e: Entry, draft: Option<CardData>)
    requires StoreValid(store, live, code)
    requires e == if name in store.values then store.values[name] else Entry(None, None, [])
    requires draft.Some? ==> draft.value.name == name
    ensures StoreValid(OPut(store, name, e.(draft := draft)), live, code)
  {
    if name in store.values {
      assert EntryOk(name, store.values[name], live);
    }
    StoreValidPut(store, live, code, name, e.(draft := draft), live);
  }

  class ToolCardStore {
    var store: OMap<Entry>
    /** The live card registry the agent reads. */
    var live: CardRegistry
    /** The cards as defined in code, before any override. */
    const code: CardRegistry
    /** Every card handed to the publish callback, in order. */
    var notified: seq<ToolCard>

    ghost predicate Valid()
      reads this`store, this`live
    {
      StoreValid(store, live, code)
    }

    /** A store without an override file: nothing overridden, the live
        registry as defined in code. */
    constructor (cards: CardRegistry)
      requires ToolCards.Valid(cards)
      ensures Valid()
      ensures store.values == map[] && live == cards && code == cards && notified == []
    {
      store := OEmpty();
      live := cards;
      code := cards;
      notified := [];
    }

    /** `get_published`. */
    method GetPublished(name: string) returns (r: Option<ToolCard>)
      requires Valid()
      ensures r.Some? <==> name in store.values && store.values[name].published.Some?
      ensures r.Some? ==> r.value == DictToCard(store.values[name].published.value)
                          && r == GetCard(live, name)
    {
      if name in store.values && store.values[name].published.Some? {
        r := Some(DictToCard(store.values[name].published.value));
      } else {
        r := None;
      }
    }

    /** `get_draft`. */
    method GetDraft(name: string) returns (r: Option<CardData>)
      requires Valid()
      ensures r == if name in store.values then store.values[name].draft else None
      ensures r.Some? ==> r.value.name == name
    {
      r := if name in store.values then store.values[name].draft else None;
    }

    /** `get_history`. */
    method GetHistory(name: string) returns (r: seq<HistoryItem>)
      requires Valid()
      ensures r == if name in store.values then store.values[name].history else []
      ensures |r| <= MaxHistory && Consecutive(r)
    {
      r := if name in store.values then store.values[name].history else [];
    }

    /** `get_effective_card`: the published override, else the code card. */
    method GetEffectiveCard(name: string) returns (r: Option<ToolCard>)
      requires Valid()
      ensures name in store.values && store.values[name].published.Some? ==> r == GetCard(live, name)
      ensures !(name in store.values && store.values[name].published.Some?) ==> r == GetCard(code, name)
    {
      var pub := GetPublished(name);
      if pub.Some? {
        r := pub;
      } else {
        r := GetCard(code, name);
      }
    }

    /** `list_overrides`. */
    method ListOverrides() returns (r: seq<string>)
      requires Valid()
      ensures Distinct(r)
      ensures forall n :: n in r <==> n in store.values
    {
      r := store.keys;
    }

    /** `get_status`. */
    method GetStatus(name: string) returns (s: Status)
      requires Valid()
      ensures s.name == name
      ensures s.source == Override <==> name in store.values && store.values[name].published.Some?
      ensures s.source == Code <==> name in code.values && !(name in store.values && store.values[name].published.Some?)
      ensures s.hasDraft <==> name in store.values && store.values[name].draft.Some?
      ensures s.historyCount == (if name in store.values then |store.values[name].history| else 0)
      ensures s.historyCount <= MaxHistory
      ensures s.historyCount == 0 <==> s.version == 0
      ensures name in store.values && store.values[name].history != [] ==>
        s.version + 1 == NextVersion(store.values[name].history)
    {
      var e := if name in store.values then store.values[name] else Entry(None, None, []);
      var src := if e.published.Some? then Override else if name in code.values then Code else NoCard;
      var v := if e.history == [] then 0 else e.history[|e.history| - 1].version;
      if e.history != [] {
        VersionsRise(e.history, 0, |e.history| - 1);
      }
      s := Status(name, src, e.draft.Some?, v, |e.history|);
    }

    /** `save_draft`: the data, renamed to the tool, becomes the draft; an
        unknown tool gets an empty entry first. Nothing live changes. */
    method SaveDraft(name: string, data: CardData) returns (r: CardData)
      requires Valid()
      modifies this
      ensures Valid()
      ensures r == data.(name := name)
      ensures name in store.values && store.values[name].draft == Some(r)
      ensures old(name in store.values) ==>
        store.values == old(store.values)[name := old(store.values[name]).(draft := Some(r))]
      ensures old(name !in store.values) ==> store.values == old(store.values)[name := Entry(None, Some(r), [])]
      ensures store.keys == if old(name in store.values) then old(store.keys) else old(store.keys) + [name]
      ensures live == old(live) && notified == old(notified)
    {
      r := data.(name := name);
      var e := if name in store.values then store.values[name] else Entry(None, None, []);
      DraftStoreValid(store, live, code, name, e, Some(r));
      store := OPut(store, name, e.(draft := Some(r)));
    }

    /** The tail shared by `publish` and `rollback`: the data becomes the
        published card at the next version, the draft is cleared, the live
        registry gets the card and the callback is told. */
    method PromoteLive(name: string, d: CardData, note: string) returns (card: ToolCard)
      requires Valid() && name in store.values && d.name == name
      modifies this
      ensures Valid()
      ensures card == DictToCard(d)
      ensures store.values == old(store.values)[name := Promote(old(store.values[name]), d, note)]
      ensures store.keys == old(store.keys)
      ensures live.values == old(live.values)[name := card]
      ensures notified == old(notified) + [card]
    {
      card := DictToCard(d);
      var store' := OPut(store, name, Promote(store.values[name], d, note));
      var live' := Put(live, card);
      PromoteStoreValid(store, live, code, name, d, note);
      notified := notified + [card];
      store, live := store', live';
    }

    /** `publish`: fails when there is no draft; otherwise the draft is
        published as the next version, the history is trimmed to 30, the
        draft is cleared, the live registry gets the card and the callback
        is told. */
    method Publish(name: string, note: string) returns (r: Result<ToolCard>)
      requires Valid()
      modifies this
      ensures Valid()
      ensures r.Err? <==> !(old(name in store.values) && old(store.values[name].draft.Some?))
      ensures r.Err? ==> store == old(store) && live == old(live) && notified == old(notified)
      ensures r.Ok? ==>
        var e := old(store.values[name]);
        var d := e.draft.value;
        && r.value == DictToCard(d)
        && store.values == old(store.values)[name := Promote(e, d, PublishNote(note, NextVersion(e.history)))]
        && store.keys == old(store.keys)
        && live.values == old(live.values)[name := r.value]
        && notified == old(notified) + [r.value]
    {
      if name !in store.values {
        return Err("No draft to publish for '" + name + "'");
      }
      var e := store.values[name];
      if e.draft.None? {
        return Err("No draft to publish for '" + name + "'");
      }
      var card := PromoteLive(name, e.draft.value, PublishNote(note, NextVersion(e.history)));
      r := Ok(card);
    }

    /** `publish_direct`: save the draft, then publish it. */
    method PublishDirect(name: string, data: CardData, note: string) returns (r: Result<ToolCard>)
      requires Valid()
      modifies this
      ensures Valid()
      ensures r == Ok(DictToCard(data.(name := name)))
      ensures
        var d := data.(name := name);
        var e := if old(name in store.values) then old(store.values[name]) else Entry(None, None, []);
        store.values == old(store.values)[name := Promote(e, d, PublishNote(note, NextVersion(e.history)))]
      ensures store.keys == if old(name in store.values) then old(store.keys) else old(store.keys) + [name]
      ensures live.values == old(live.values)[name := DictToCard(data.(name := name))]
      ensures notified == old(notified) + [DictToCard(data.(name := name))]
      ensures name in store.values && store.values[name].published == Some(data.(name := name))
      ensures store.values[name].draft.None?
    {
      ghost var before := store.values;
      ghost var e := if name in store.values then store.values[name] else Entry(None, None, []);
      var saved := SaveDraft(name, data);
      ghost var middle := store.values;
      assert middle == before[name := e.(draft := Some(saved))];
      assert name in middle && middle[name].draft == Some(saved);
      r := Publish(name, note);
      assert r.Ok? && r.value == DictToCard(saved);
      assert store.values == middle[name := Promote(e.(draft := Some(saved)), saved, PublishNote(note, NextVersion(e.history)))];
      MapUpdateTwice(before, name, e.(draft := Some(saved)), Promote(e, saved, PublishNote(note, NextVersion(e.history))));
    }

    /** `rollback`: fails when the tool has no entry or the version is not in
        its history; otherwise the target's data is published again as a new
        version noted "rollback to v<target>". */
    method Rollback(name: string, target: nat) returns (r: Result<ToolCard>)
      requires Valid()
      modifies this
      ensures Valid()
      ensures r.Err? <==> old(name !in store.values) || old(FindVersion(store.values[name].history, target)).None?
      ensures r.Err? ==> store == old(store) && live == old(live) && notified == old(notified)
      ensures r.Ok? ==>
        var e := old(store.values[name]);
        var d := FindVersion(e.history, target).value.data;
        && r.value == DictToCard(d)
        && store.values == old(store.values)[name := Promote(e, d, "rollback to v" + NatToString(target))]
        && store.keys == old(store.keys)
        && live.values == old(live.values)[name := r.value]
        && notified == old(notified) + [r.value]
    {
      if name !in store.values {
        return Err("No override history for '" + name + "'");
      }
      var e := store.values[name];
      var found := FindVersion(e.history, target);
      if found.None? {
        return Err("Version " + NatToString(target) + " not found for '" + name + "'");
      }
      var card := PromoteLive(name, found.value.data, "rollback to v" + NatToString(target));
      r := Ok(card);
    }

    /** `discard_draft`: clears the draft when the tool has an entry. */
    method DiscardDraft(name: string)
      requires Valid()
      modifies this
      ensures Valid()
      ensures old(name in store.values) ==>
        store.values == old(store.values)[name := old(store.values[name]).(draft := None)]
      ensures old(name !in store.values) ==> store == old(store)
      ensures store.keys == old(store.keys)
      ensures live == old(live) && notified == old(notified)
    {
      if name in store.values {
        DraftStoreValid(store, live, code, name, store.values[name], None);
        store := OPut(store, name, store.values[name].(draft := None));
      }
    }

    /** `reset_to_code`, corrected: the override entry is dropped and the
        card defined in code, when there is one, goes back live and to the
        callback. */
    method ResetToCode(name: string) returns (r: Option<ToolCard>)
      requires Valid()
      modifies this
      ensures Valid()
      ensures store == ORemove(old(store), name)
      ensures (live, r) == Restored(old(live), code, name)
      ensures notified == old(notified) + (if r.Some? then [r.value] else [])
    {
      store := ORemove(store, name);
      var restored := Restored(live, code, name);
      live := restored.0;
      r := restored.1;
      if r.Some? {
        notified := notified + [r.value];
      }
    }
  }
}
