/** Tool cards: the structured routing description of each tool, the text
    that is embedded for it, and the in-memory card registry keyed by tool
    name (app/tool_search/tool_cards.py). */
module ToolCards {
  import opened Util

  /** An immutable card. The tuple fields of the source default to empty. */
  datatype ToolCard = ToolCard(
    name: string,
    purpose: string,
    whenToUse: seq<string>,
    whenNotToUse: seq<string>,
    tags: seq<string>)

  /** A card built from a name and a purpose only, every tuple field left at
      its default. */
  function NewCard(name: string, purpose: string): (c: ToolCard)
    ensures c.name == name && c.purpose == purpose
    ensures c.whenToUse == [] && c.whenNotToUse == [] && c.tags == []
    ensures EmbedText(c) == purpose
  {
    ToolCard(name, purpose, [], [], [])
  }

  /** The lines of the embedding text: the purpose, each positive example,
      then the tags on one line when there are any. */
  function EmbedParts(c: ToolCard): (r: seq<string>)
    ensures |r| == 1 + |c.whenToUse| + (if c.tags == [] then 0 else 1)
    ensures r[0] == c.purpose
    ensures forall i :: 0 <= i < |c.whenToUse| ==> r[1 + i] == c.whenToUse[i]
    ensures c.tags != [] ==> r[|r| - 1] == Join(" ", c.tags)
  {
    [c.purpose] + c.whenToUse + (if c.tags == [] then [] else [Join(" ", c.tags)])
  }

  /** `ToolCard.to_embed_text`. */
  function EmbedText(c: ToolCard): string {
    Join("\n", EmbedParts(c))
  }

  /** The negative examples never reach the embedding text. */
  lemma EmbedTextIgnoresNegatives(c: ToolCard, negatives: seq<string>)
    ensures EmbedText(c.(whenNotToUse := negatives)) == EmbedText(c)
  {
  }

  lemma {:induction false} JoinFree(sep: string, parts: seq<string>, c: char)
    requires Free(sep, c)
    requires forall k :: 0 <= k < |parts| ==> Free(parts[k], c)
    ensures Free(Join(sep, parts), c)
  {
    if |parts| > 1 {
      JoinFree(sep, parts[1..], c);
    }
  }

  /** When no field holds a newline, the embedding text splits back into
      exactly its lines: purpose, examples, tag line. */
  lemma EmbedTextLines(c: ToolCard)
    requires Free(c.purpose, '\n')
    requires forall k :: 0 <= k < |c.whenToUse| ==> Free(c.whenToUse[k], '\n')
    requires forall k :: 0 <= k < |c.tags| ==> Free(c.tags[k], '\n')
    ensures Split(EmbedText(c), '\n') == EmbedParts(c)
  {
    var parts := EmbedParts(c);
    if c.tags != [] {
      JoinFree(" ", c.tags, '\n');
    }
    forall k | 0 <= k < |parts| ensures Free(parts[k], '\n') {
      if 1 <= k < 1 + |c.whenToUse| {
        assert parts[k] == c.whenToUse[k - 1];
      }
    }
    SplitJoin(parts, '\n');
  }

  /** The card registry: a dict from tool name to card. */
  type CardRegistry = OMap<ToolCard>

  ghost predicate Valid(reg: CardRegistry) {
    OMapValid(reg) && forall n :: n in reg.values ==> reg.values[n].name == n
  }

  /** `REGISTRY[card.name] = card`. */
  function Put(reg: CardRegistry, c: ToolCard): (r: CardRegistry)
    requires Valid(reg)
    ensures Valid(r)
    ensures r.values == reg.values[c.name := c]
  {
    OPut(reg, c.name, c)
  }

  /** `{card.name: card for card in cards}`: every name maps to the last card
      carrying it. */
  function BuildRegistry(cards: seq<ToolCard>): (r: CardRegistry)
    ensures Valid(r)
    ensures forall n :: n in r.values <==> exists c :: c in cards && c.name == n
    ensures forall i :: 0 <= i < |cards| && LastWithName(cards, i) ==> r.values[cards[i].name] == cards[i]
  {
    if cards == [] then OEmpty()
    else
      var prev := BuildRegistry(cards[..|cards| - 1]);
      var r := Put(prev, cards[|cards| - 1]);
      PutKeys(cards, prev, r);
      PutLast(cards, prev, r);
      r
  }

  /** Registering the last card adds its name to the names of the others. */
  lemma PutKeys(cards: seq<ToolCard>, prev: CardRegistry, r: CardRegistry)
    requires cards != [] && Valid(prev) && r == Put(prev, cards[|cards| - 1])
    requires forall n :: n in prev.values <==> exists c :: c in cards[..|cards| - 1] && c.name == n
    ensures forall n :: n in r.values <==> exists c :: c in cards && c.name == n
  {
    var init, last := cards[..|cards| - 1], cards[|cards| - 1];
    forall n | n in r.values ensures exists c :: c in cards && c.name == n {
      if n != last.name {
        var c :| c in init && c.name == n;
        assert c in cards;
      }
    }
    forall c | c in cards ensures c.name in r.values {
      assert c in init || c == last;
    }
  }

  /** Registering the last card keeps every other last-of-its-name card in place. */
  lemma PutLast(cards: seq<ToolCard>, prev: CardRegistry, r: CardRegistry)
    requires cards != [] && Valid(prev) && r == Put(prev, cards[|cards| - 1])
    requires forall i :: 0 <= i < |cards| - 1 && LastWithName(cards[..|cards| - 1], i) ==>
      cards[i].name in prev.values && prev.values[cards[i].name] == cards[i]
    ensures forall i :: 0 <= i < |cards| && LastWithName(cards, i) ==>
      cards[i].name in r.values && r.values[cards[i].name] == cards[i]
  {
    var init := cards[..|cards| - 1];
    forall i | 0 <= i < |cards| - 1 && LastWithName(cards, i)
      ensures LastWithName(init, i)
    {
    }
  }

  /** No later card in `cards` shares the name of `cards[i]`. */
  predicate LastWithName(cards: seq<ToolCard>, i: nat)
    requires i < |cards|
  {
    forall j :: i < j < |cards| ==> cards[j].name != cards[i].name
  }

  /** With distinct names, the registry maps each card's name to that card. */
  lemma RegistryOfDistinctCards(cards: seq<ToolCard>, i: nat)
    requires i < |cards|
    requires forall a, b :: 0 <= a < b < |cards| ==> cards[a].name != cards[b].name
    ensures BuildRegistry(cards).values[cards[i].name] == cards[i]
  {
    assert LastWithName(cards, i);
  }

  /** `get_card(name)`: the registered card, or None. */
  function GetCard(reg: CardRegistry, name: string): (r: Option<ToolCard>)
    requires Valid(reg)
    ensures r.None? <==> name !in reg.values
    ensures r.Some? ==> r.value.name == name && r.value == reg.values[name]
  {
    if name in reg.values then Some(reg.values[name]) else None
  }

  /** `all_cards()`: one card per registry key, in key order. */
  function AllCards(reg: CardRegistry): (r: seq<ToolCard>)
    requires Valid(reg)
    ensures forall i, j :: 0 <= i < j < |r| ==> r[i].name != r[j].name
    ensures forall n :: n in reg.values ==> exists i :: 0 <= i < |r| && r[i] == reg.values[n]
    ensures forall i :: 0 <= i < |r| ==> r[i].name in reg.values && r[i] == reg.values[r[i].name]
  {
    var r := OValues(reg);
    forall n | n in reg.values ensures exists i :: 0 <= i < |r| && r[i] == reg.values[n] {
      var i :| 0 <= i < |reg.keys| && reg.keys[i] == n;
      assert r[i] == reg.values[n];
    }
    r
  }

  /** `missing_cards(names)`: in input order, the names without a card. */
  function MissingCards(reg: CardRegistry, names: seq<string>): (r: seq<string>)
    ensures |r| <= |names|
    ensures forall n :: n in r <==> n in names && n !in reg.values
    ensures r == Filter(names, n => n !in reg.values)
  {
    if names == [] then []
    else if names[0] in reg.values then MissingCards(reg, names[1..])
    else [names[0]] + MissingCards(reg, names[1..])
  }
}
