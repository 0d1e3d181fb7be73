/**
 Alias tables of a database block: what an id in the stored document means
 once its items carry canonical ids, and which property owns a stored cell.
 */
module DatabaseAliases {
  import opened DatabaseIds
  import opened Options

  datatype Aliases = Aliases(exact: map<string, Id>, generated: map<string, Id>, normalized: map<string, Id>)

  const NO_ALIASES := Aliases(map[], map[], map[])

  function RegisterExact(a: Aliases, source: Option<string>, canonical: Id): Aliases {
    if source.Some? && source.value != "" && source.value !in a.exact && source.value !in a.generated
    then a.(exact := a.exact[source.value := canonical])
    else a
  }

  function RegisterGeneratedAlias(a: Aliases, alias: string, canonical: Id): Aliases {
    if alias == "" || alias in a.exact || alias in a.generated then a
    else a.(generated := a.generated[alias := canonical])
  }

  /** A generated id owns the request that produced it, unless it is simply the stored id. */
  function RegisterGenerated(a: Aliases, requestedWasGenerated: bool, requested: Id, canonical: Id): Aliases {
    if !requestedWasGenerated && canonical == requested then a
    else
      var b := RegisterGeneratedAlias(a, if requestedWasGenerated then requested else "", canonical);
      RegisterGeneratedAlias(b, canonical, canonical)
  }

  function RegisterNormalizedAlias(a: Aliases, alias: string, canonical: Id): Aliases {
    if alias == "" || alias in a.exact || alias in a.generated || alias in a.normalized then a
    else a.(normalized := a.normalized[alias := canonical])
  }

  function RegisterNormalized(a: Aliases, requested: Id, canonical: Id): Aliases {
    RegisterNormalizedAlias(RegisterNormalizedAlias(a, requested, canonical), canonical, canonical)
  }

  /** An item as the tables see it; `fallback` says that its request was made up. */
  datatype Item = Item(source: Option<string>, fallback: bool, requested: Id, canonical: Id)

  function Zipped(sources: seq<Option<string>>, made: seq<bool>, requests: seq<Id>, ids: seq<Id>): (items: seq<Item>)
    requires |sources| == |made| == |requests| == |ids|
    ensures |items| == |sources|
    ensures forall i :: 0 <= i < |items| ==> items[i] == Item(sources[i], made[i], requests[i], ids[i])
  {
    if sources == [] then []
    else [Item(sources[0], made[0], requests[0], ids[0])] + Zipped(sources[1..], made[1..], requests[1..], ids[1..])
  }

  function Items(sources: seq<Option<string>>, fallback: Fallback): (items: seq<Item>)
    ensures |items| == |sources|
  {
    var made := Mapped(sources, (v: Option<string>) => UsesFallbackId(v));
    Zipped(sources, made, Requests(sources, fallback), Canonical(sources, fallback))
  }

  lemma ItemAt(sources: seq<Option<string>>, fallback: Fallback, i: nat)
    requires i < |sources|
    ensures Items(sources, fallback)[i]
         == Item(sources[i], UsesFallbackId(sources[i]), SafeId(sources[i], fallback(i)), Canonical(sources, fallback)[i])
  {
    RequestAt(sources, fallback, i);
  }

  /** What one item adds to the tables. */
  function Claim(a: Aliases, item: Item): Aliases {
    RegisterExact(RegisterGenerated(a, item.fallback, item.requested, item.canonical), item.source, item.canonical)
  }

  /** Generated and exact aliases, item by item. */
  function Owned(items: seq<Item>): Aliases
    decreases |items|
  {
    if items == [] then NO_ALIASES
    else
      Claim(Owned(items[..|items| - 1]), items[|items| - 1])
  }

  /** Normalized aliases for what is left. */
  function WithNormalized(a: Aliases, items: seq<Item>): Aliases
    decreases |items|
  {
    if items == [] then a
    else
      var item := items[|items| - 1];
      RegisterNormalized(WithNormalized(a, items[..|items| - 1]), item.requested, item.canonical)
  }

  method RegisterAliases(items: seq<Item>) returns (a: Aliases)
    ensures a == WithNormalized(Owned(items), items)
  {
    a := NO_ALIASES;
    for i := 0 to |items|
      invariant a == Owned(items[..i])
    {
      assert items[..i + 1][..i] == items[..i];
      a := RegisterGenerated(a, items[i].fallback, items[i].requested, items[i].canonical);
      a := RegisterExact(a, items[i].source, items[i].canonical);
    }
    assert items[..|items|] == items;
    for i := 0 to |items|
      invariant a == WithNormalized(Owned(items), items[..i])
    {
      assert items[..i + 1][..i] == items[..i];
      a := RegisterNormalized(a, items[i].requested, items[i].canonical);
    }
  }

  /** What a stored reference means; the empty id means nothing. */
  function Resolve(value: Option<string>, a: Aliases): Id {
    if value.None? then ""
    else if value.value in a.exact then a.exact[value.value]
    else if value.value in a.generated then a.generated[value.value]
    else
      var id := SafeId(value, "");
      if id == "" then ""
      else if id in a.exact then a.exact[id]
      else if id in a.generated then a.generated[id]
      else if id in a.normalized then a.normalized[id]
      else id
  }

  // ----- what the tables hold -----

  /** Every alias leads to the canonical id of some item. */
  ghost predicate LeadsInto(a: Aliases, ids: set<Id>) {
    && (forall x :: x in a.exact ==> a.exact[x] in ids)
    && (forall x :: x in a.generated ==> a.generated[x] in ids)
    && (forall x :: x in a.normalized ==> a.normalized[x] in ids)
  }

  ghost predicate CanonicalIn(items: seq<Item>, ids: set<Id>) {
    forall i :: 0 <= i < |items| ==> items[i].canonical in ids
  }

  lemma {:induction false} OwnedLeadsInto(items: seq<Item>, ids: set<Id>)
    requires CanonicalIn(items, ids)
    ensures LeadsInto(Owned(items), ids)
    decreases |items|
  {
    if items != [] { OwnedLeadsInto(items[..|items| - 1], ids); }
  }

  lemma {:induction false} AliasesLeadInto(a: Aliases, items: seq<Item>, ids: set<Id>)
    requires LeadsInto(a, ids) && CanonicalIn(items, ids)
    ensures LeadsInto(WithNormalized(a, items), ids)
    decreases |items|
  {
    if items != [] { AliasesLeadInto(a, items[..|items| - 1], ids); }
  }

  // ----- the first claim wins -----

  /** Later registrations never change or override an exact or generated alias. */
  ghost predicate Keeps(a: Aliases, b: Aliases) {
    && (forall x :: x in a.exact ==> x in b.exact && b.exact[x] == a.exact[x])
    && (forall x :: x in a.generated ==> x in b.generated && b.generated[x] == a.generated[x])
    && (forall x :: x in a.generated && x in b.exact ==> x in a.exact)
  }

  lemma ClaimKeeps(a: Aliases, item: Item)
    ensures Keeps(a, Claim(a, item))
  {
  }

  lemma {:induction false} OwnedKeeps(items: seq<Item>, n: nat)
    requires n <= |items|
    ensures Keeps(Owned(items[..n]), Owned(items))
    decreases |items| - n
  {
    if n < |items| {
      assert items[..n + 1][..n] == items[..n];
      assert Owned(items[..n + 1]) == Claim(Owned(items[..n]), items[n]);
      ClaimKeeps(Owned(items[..n]), items[n]);
      OwnedKeeps(items, n + 1);
    } else {
      assert items[..n] == items;
    }
  }

  /** The id is an alias of the canonical id, and nothing overrides it. */
  ghost predicate Claimed(a: Aliases, s: string, canonical: Id) {
    if s in a.exact then a.exact[s] == canonical else s in a.generated && a.generated[s] == canonical
  }

  lemma {:induction false} NormalizedKeepsOthers(a: Aliases, items: seq<Item>)
    ensures WithNormalized(a, items).exact == a.exact && WithNormalized(a, items).generated == a.generated
    decreases |items|
  {
    if items != [] { NormalizedKeepsOthers(a, items[..|items| - 1]); }
  }

  /**
   A stored id refers to the first item that carries it, unless an earlier item
   was given that id in place of a missing or taken one.
   */
  lemma FirstClaimWins(items: seq<Item>, i: nat)
    requires i < |items| && items[i].source.Some? && items[i].source.value != ""
    requires items[i].source.value !in Owned(items[..i]).exact
    requires items[i].source.value !in Owned(items[..i]).generated
    ensures Resolve(items[i].source, WithNormalized(Owned(items), items)) == items[i].canonical
  {
    ClaimLasts(items, i);
  }

  lemma ClaimLasts(items: seq<Item>, i: nat)
    requires i < |items| && items[i].source.Some? && items[i].source.value != ""
    requires items[i].source.value !in Owned(items[..i]).exact
    requires items[i].source.value !in Owned(items[..i]).generated
    ensures Claimed(WithNormalized(Owned(items), items), items[i].source.value, items[i].canonical)
  {
    OwnedClaims(items, i);
    OwnedKeeps(items, i + 1);
    NormalizedKeepsOthers(Owned(items), items);
  }

  lemma OwnedClaims(items: seq<Item>, i: nat)
    requires i < |items| && items[i].source.Some? && items[i].source.value != ""
    requires items[i].source.value !in Owned(items[..i]).exact
    requires items[i].source.value !in Owned(items[..i]).generated
    ensures Claimed(Owned(items[..i + 1]), items[i].source.value, items[i].canonical)
  {
    assert items[..i + 1][..i] == items[..i];
  }

  // ----- canonical ids mean themselves -----

  ghost predicate IsFixed(item: Item) {
    item.source == Some(item.canonical) && !item.fallback && item.requested == item.canonical && item.canonical != ""
  }

  ghost predicate Fixed(items: seq<Item>) {
    forall i :: 0 <= i < |items| ==> IsFixed(items[i])
  }

  lemma {:induction false} OwnedOfFixed(items: seq<Item>)
    requires Fixed(items)
    ensures Owned(items).generated == map[]
    ensures forall x :: x in Owned(items).exact ==> Owned(items).exact[x] == x
    ensures forall i :: 0 <= i < |items| ==> items[i].canonical in Owned(items).exact
    decreases |items|
  {
    if items != [] {
      var front := items[..|items| - 1];
      OwnedOfFixed(front);
      assert Owned(items) == Claim(Owned(front), items[|items| - 1]);
    }
  }

  /** In a normalized document every id of an item resolves to itself. */
  lemma CanonicalMeansItself(items: seq<Item>, i: nat)
    requires Fixed(items) && i < |items|
    ensures Resolve(Some(items[i].canonical), WithNormalized(Owned(items), items)) == items[i].canonical
  {
    OwnedOfFixed(items);
    NormalizedKeepsOthers(Owned(items), items);
  }

  // ----- cells -----

  /** The keys under which a row may hold a property's value, in the order they are tried. */
  function ValueKeys(item: Item, a: Aliases): seq<string> {
    KeysAmong(if item.source.Some? then [item.source.value, item.requested, item.canonical]
              else [item.requested, item.canonical], item.canonical, a, {})
  }

  function KeysAmong(candidates: seq<string>, canonical: Id, a: Aliases, seen: set<string>): (keys: seq<string>)
    ensures forall k :: k in keys <==> k in candidates && k != "" && k !in seen && Resolve(Some(k), a) == canonical
  {
    if candidates == [] then []
    else
      var c := candidates[0];
      assert candidates == [c] + candidates[1..];
      if c == "" || c in seen then KeysAmong(candidates[1..], canonical, a, seen)
      else if Resolve(Some(c), a) == canonical then [c] + KeysAmong(candidates[1..], canonical, a, seen + {c})
      else KeysAmong(candidates[1..], canonical, a, seen + {c})
  }
}
