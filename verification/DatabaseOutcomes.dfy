/**
 What normalization keeps of a database block, told by the stored document: which ids its items get, which properties,
 options, cells, filters, sorts, groups, hidden properties and views come out, and in which order.
 */
module DatabaseOutcomes {
  import opened DatabaseAliases
  import opened DatabaseCells
  import opened DatabaseDocument
  import opened DatabaseIds
  import opened DatabaseNormal
  import opened Options

  // ----- texts and numbers -----

  /** White space and line ends, as ECMAScript has them. */
  const SPACES := "\t\n\U{000B}\U{000C}\r \U{00A0}\U{1680}\U{2000}\U{2001}\U{2002}\U{2003}\U{2004}\U{2005}\U{2006}\U{2007}\U{2008}\U{2009}\U{200A}\U{2028}\U{2029}\U{202F}\U{205F}\U{3000}\U{FEFF}"

  lemma SpacesAre(c: char)
    ensures IsSpace(c) <==> c in SPACES
  {
  }

  predicate AllSpaces(s: string) {
    forall i :: 0 <= i < |s| ==> IsSpace(s[i])
  }

  /** The text is the white space around it and the trimmed text, which has none at its ends. */
  ghost predicate IsTrimmed(s: string, trimmed: string, before: string, after: string) {
    && s == before + trimmed + after && AllSpaces(before) && AllSpaces(after)
    && (trimmed != "" ==> !IsSpace(trimmed[0]) && !IsSpace(trimmed[|trimmed| - 1]))
  }

  /** Trimming takes the white space at both ends, and no more. */
  lemma TrimTakesTheEnds(s: string) returns (before: string, after: string)
    ensures IsTrimmed(s, Trim(s), before, after)
  {
    before, after := TrimmedAround(s, TrimStart(s), Trim(s));
  }

  lemma TrimmedAround(s: string, rest: string, trimmed: string) returns (before: string, after: string)
    requires rest == TrimStart(s) && trimmed == TrimEnd(rest)
    ensures IsTrimmed(s, trimmed, before, after)
  {
    StartIsSpace(s);
    EndIsSpace(rest);
    before, after := EndsTaken(s, rest, trimmed);
  }

  lemma EndsTaken(s: string, rest: string, trimmed: string) returns (before: string, after: string)
    requires |trimmed| <= |rest| <= |s| && rest == s[|s| - |rest|..] && trimmed == rest[..|trimmed|]
    requires forall i :: 0 <= i < |s| - |rest| ==> IsSpace(s[i])
    requires forall i :: |trimmed| <= i < |rest| ==> IsSpace(rest[i])
    requires rest != "" ==> !IsSpace(rest[0])
    requires trimmed != "" ==> !IsSpace(trimmed[|trimmed| - 1])
    ensures IsTrimmed(s, trimmed, before, after)
  {
    before, after := s[..|s| - |rest|], rest[|trimmed|..];
    assert s == before + rest && rest == trimmed + after;
  }

  lemma {:induction false} StartIsSpace(s: string)
    ensures forall i :: 0 <= i < |s| - |TrimStart(s)| ==> IsSpace(s[i])
  {
    if s != "" && IsSpace(s[0]) {
      StartIsSpace(s[1..]);
      assert forall i :: 0 < i < |s| ==> s[i] == s[1..][i - 1];
    }
  }

  lemma {:induction false} EndIsSpace(s: string)
    ensures forall i :: |TrimEnd(s)| <= i < |s| ==> IsSpace(s[i])
  {
    if s != "" && IsSpace(s[|s| - 1]) {
      EndIsSpace(s[..|s| - 1]);
    }
  }

  /** The number that digits write. */
  function NumberOf(digits: string): nat
    requires forall i :: 0 <= i < |digits| ==> '0' <= digits[i] <= '9'
  {
    if digits == "" then 0
    else 10 * NumberOf(digits[..|digits| - 1]) + (digits[|digits| - 1] as nat - '0' as nat)
  }

  lemma {:induction false} DecimalWrites(n: nat)
    ensures (forall i :: 0 <= i < |Decimal(n)| ==> '0' <= Decimal(n)[i] <= '9') && NumberOf(Decimal(n)) == n
    ensures n > 0 ==> Decimal(n)[0] != '0'
    decreases n
  {
    if n >= 10 {
      DecimalWrites(n / 10);
      assert Decimal(n)[..|Decimal(n)| - 1] == Decimal(n / 10);
    } else {
      assert Decimal(n)[..0] == "";
    }
  }

  // ----- ids -----

  /** The first 64 characters. */
  predicate IsCut(s: string, id: Id) {
    if |s| <= 64 then id == s else id == s[..64]
  }

  predicate IsUnsafe(id: Id) {
    id == "__proto__" || id == "constructor" || id == "prototype"
  }

  lemma UnsafeAre(id: Id)
    ensures id in UNSAFE_IDS <==> IsUnsafe(id)
  {
  }

  /** The id of an item: what is asked for if it is a safe id, otherwise the fallback. */
  predicate IsSafeId(asked: Id, fallback: Id, id: Id) {
    if asked != "" && asked !in UNSAFE_IDS then id == asked
    else if fallback !in UNSAFE_IDS then id == fallback
    else id == ""
  }

  /** A stored id is trimmed and cut; one that is then empty or unsafe gives way to the fallback. */
  lemma SafeIdDoes(value: Option<string>, fallback: string)
    ensures IsSafeId(if value.Some? then Cut(Trim(value.value)) else "", Cut(fallback), SafeId(value, fallback))
  {
  }

  lemma CutDoes(s: string)
    ensures IsCut(s, Cut(s))
  {
  }

  /** A fallback with a number behind it, cut so that the number stays. */
  predicate IsNumbered(prefix: string, k: nat, id: Id) {
    exists digits: string :: digits == Decimal(k) && IsNumberedBy(prefix, digits, id)
  }

  predicate IsNumberedBy(prefix: string, digits: string, id: Id) {
    if |prefix| + 1 + |digits| <= 64 then id == prefix + "-" + digits
    else if |digits| <= 63 then id == prefix[..63 - |digits|] + "-" + digits
    else id == "-" + digits
  }

  lemma CandidateIsNumbered(prefix: string, k: nat)
    ensures IsNumbered(prefix, k, Candidate(prefix, k))
  {
    assert IsNumberedBy(prefix, Decimal(k), Candidate(prefix, k));
    if |Decimal(k)| > 63 { assert prefix[..0] == ""; }
  }

  lemma {:induction false} FirstFreeIsFirst(prefix: string, seen: set<Id>, left: set<Id>, k: nat) returns (n: nat)
    requires left <= seen && forall id :: id in seen && id !in left ==> Tried(prefix, id, k)
    ensures n >= k && FirstFree(prefix, left, k) == Candidate(prefix, n) && Candidate(prefix, n) !in seen
    ensures forall j :: k <= j < n ==> Candidate(prefix, j) in seen
    decreases |left|
  {
    var c := Candidate(prefix, k);
    NotTriedYet(prefix, k);
    if c in left {
      n := FirstFreeIsFirst(prefix, seen, left - {c}, k + 1);
    } else {
      n := k;
    }
  }

  /** An id that is free is kept, and otherwise the first numbered fallback that is free. */
  lemma UniqueIdDoes(value: string, seen: set<Id>, prefix: string, cut: Id)
    requires IsCut(value, cut)
    ensures var id := UniqueId(value, seen, prefix);
      && id !in seen
      && (cut !in seen ==> id == cut)
      && (cut in seen ==> exists n: nat :: n >= 1 && IsFirstFree(prefix, seen, n, id))
  {
    if cut in seen {
      var n := FirstFreeIsFirst(prefix, seen, seen, 1);
      CandidateIsNumbered(prefix, n);
      forall j: nat | 1 <= j < n ensures NumberTaken(prefix, seen, j) {
        CandidateIsNumbered(prefix, j);
      }
      assert IsFirstFree(prefix, seen, n, UniqueId(value, seen, prefix));
    }
  }

  ghost predicate NumberTaken(prefix: string, seen: set<Id>, j: nat) {
    exists taken :: taken in seen && IsNumbered(prefix, j, taken)
  }

  ghost predicate IsFirstFree(prefix: string, seen: set<Id>, n: nat, id: Id) {
    && id !in seen && IsNumbered(prefix, n, id)
    && forall j: nat :: 1 <= j < n ==> NumberTaken(prefix, seen, j)
  }

  /** Item by item: the id asked for, made unique among those before it with the item's own fallback. */
  lemma {:induction false} CanonicalDoes(sources: seq<Option<string>>, fallback: Fallback, i: nat, ids: seq<Id>)
    requires i < |sources| && ids == Canonical(sources, fallback)
    ensures ids[i] == UniqueId(SafeId(sources[i], fallback(i)), SetOf(ids[..i]), fallback(i))
    decreases |sources|
  {
    var n := |sources| - 1;
    var front := Canonical(sources[..n], fallback);
    assert ids[..n] == front;
    if i < n {
      CanonicalDoes(sources[..n], fallback, i, front);
      assert ids[..i] == front[..i];
    }
  }

  /** What stands in for a missing id names its kind, its owner and its place, counted from one. */
  lemma FallbacksName(id: Id)
    ensures PropertyFallback()(0) == "property-1" && ViewFallback()(0) == "view-1" && RowFallback()(0) == "row-1"
    ensures OptionFallback(id)(0) == id + "-option-1"
    ensures FilterFallback(id)(0) == id + "-filter-1" && SortFallback(id)(0) == id + "-sort-1"
    ensures PropertyFallback()(9) == "property-10"
  {
    assert Decimal(1) == "1" && Decimal(10) == "10";
  }

  // ----- references -----

  /** Nothing before item i claims the id. */
  ghost predicate Unclaimed(items: seq<Item>, i: nat, id: string)
    requires i <= |items|
  {
    id != "" && id !in Owned(items[..i]).exact && id !in Owned(items[..i]).generated
  }

  /** An item whose id was made up, or made unique, is meant by that id, unless an earlier item claims it. */
  lemma MadeUpIdMeansItsItem(items: seq<Item>, i: nat)
    requires i < |items| && (items[i].fallback || items[i].canonical != items[i].requested)
    requires Unclaimed(items, i, items[i].canonical)
    ensures Resolve(Some(items[i].canonical), WithNormalized(Owned(items), items)) == items[i].canonical
  {
    GeneratedStays(items, i, items[i].canonical);
  }

  /** And by the id that was to stand in for a missing one. */
  lemma MadeUpRequestMeansItsItem(items: seq<Item>, i: nat)
    requires i < |items| && items[i].fallback && Unclaimed(items, i, items[i].requested)
    ensures Resolve(Some(items[i].requested), WithNormalized(Owned(items), items)) == items[i].canonical
  {
    GeneratedStays(items, i, items[i].requested);
  }

  lemma GeneratedStays(items: seq<Item>, i: nat, id: string)
    requires i < |items| && Unclaimed(items, i, id)
    requires items[i].fallback || items[i].canonical != items[i].requested
    requires id == items[i].canonical || (id == items[i].requested && items[i].fallback)
    ensures Claimed(WithNormalized(Owned(items), items), id, items[i].canonical)
  {
    assert items[..i + 1][..i] == items[..i];
    ClaimGenerates(Owned(items[..i]), items[i], id);
    OwnedKeeps(items, i + 1);
    NormalizedKeepsOthers(Owned(items), items);
    GeneratedClaims(Owned(items[..i + 1]), Owned(items), WithNormalized(Owned(items), items), id, items[i].canonical);
  }

  lemma ClaimGenerates(a: Aliases, item: Item, id: string)
    requires id != "" && id !in a.exact && id !in a.generated && (item.fallback || item.canonical != item.requested)
    requires id == item.canonical || (id == item.requested && item.fallback)
    ensures var b := Claim(a, item); id in b.generated && b.generated[id] == item.canonical && id !in b.exact
  {
  }

  lemma GeneratedClaims(a: Aliases, b: Aliases, c: Aliases, id: string, canonical: Id)
    requires id in a.generated && a.generated[id] == canonical && id !in a.exact && Keeps(a, b)
    requires c.exact == b.exact && c.generated == b.generated
    ensures Claimed(c, id, canonical)
  {
  }

  /** What neither stored nor made-up ids claim means the first item that asked for it once it is trimmed and cut. */
  lemma TrimmedReferenceMeans(items: seq<Item>, i: nat, text: string)
    requires i < |items| && items[i].requested != "" && SafeId(Some(text), "") == items[i].requested
    requires text !in Owned(items).exact && text !in Owned(items).generated
    requires items[i].requested !in Owned(items).exact && items[i].requested !in Owned(items).generated
    requires forall j :: 0 <= j < i ==> items[j].requested != items[i].requested && items[j].canonical != items[i].requested
    ensures Resolve(Some(text), WithNormalized(Owned(items), items)) == items[i].canonical
  {
    NormalizedKeepsOthers(Owned(items), items);
    OwnedNormalizesNothing(items);
    NormalizedClaims(Owned(items), items, i);
  }

  lemma {:induction false} OwnedNormalizesNothing(items: seq<Item>)
    ensures Owned(items).normalized == map[]
    decreases |items|
  {
    if items != [] { OwnedNormalizesNothing(items[..|items| - 1]); }
  }

  lemma {:induction false} NormalizedClaims(a: Aliases, items: seq<Item>, i: nat)
    requires i < |items| && items[i].requested != "" && items[i].requested !in a.exact
    requires items[i].requested !in a.generated && items[i].requested !in a.normalized
    requires forall j :: 0 <= j < i ==> items[j].requested != items[i].requested && items[j].canonical != items[i].requested
    ensures items[i].requested in WithNormalized(a, items).normalized
    ensures WithNormalized(a, items).normalized[items[i].requested] == items[i].canonical
    decreases |items|
  {
    var front := items[..|items| - 1];
    NormalizedKeepsOthers(a, front);
    if i < |front| {
      assert front[i] == items[i];
      NormalizedClaims(a, front, i);
    } else {
      NormalizedSpares(a, front, items[i].requested);
    }
  }

  lemma {:induction false} NormalizedSpares(a: Aliases, items: seq<Item>, id: string)
    requires id !in a.normalized
    requires forall j :: 0 <= j < |items| ==> items[j].requested != id && items[j].canonical != id
    ensures id !in WithNormalized(a, items).normalized
    decreases |items|
  {
    if items != [] { NormalizedSpares(a, items[..|items| - 1], id); }
  }

  /** A safe id that nothing knows is left as it is, and what is no safe id means nothing. */
  lemma UnknownReferenceMeans(text: string, a: Aliases, id: Id)
    requires text !in a.exact && text !in a.generated && id == SafeId(Some(text), "")
    ensures id == "" ==> Resolve(Some(text), a) == ""
    ensures id !in a.exact && id !in a.generated && id !in a.normalized ==> Resolve(Some(text), a) == id
    ensures Resolve(None, a) == ""
  {
  }

  // ----- properties -----

  ghost predicate TitleBefore(sources: seq<SourceProperty>, i: nat) {
    exists j :: 0 <= j < i && j < |sources| && sources[j].kind == Title
  }

  lemma {:induction false} KindsDo(sources: seq<SourceProperty>, seen: bool, i: nat)
    requires i < |sources|
    ensures Kinds(sources, seen)[i]
         == if sources[i].kind == Title && (seen || TitleBefore(sources, i)) then Text else sources[i].kind
  {
    if i > 0 {
      KindsDo(sources[1..], seen || sources[0].kind == Title, i - 1);
      assert sources[i] == sources[1..][i - 1];
      TitleBeforeShifts(sources, i);
    }
  }

  lemma TitleBeforeShifts(sources: seq<SourceProperty>, i: nat)
    requires 0 < i < |sources|
    ensures TitleBefore(sources, i) <==> sources[0].kind == Title || TitleBefore(sources[1..], i - 1)
  {
    if TitleBefore(sources[1..], i - 1) {
      var j :| 0 <= j < i - 1 && sources[1..][j].kind == Title;
      assert sources[j + 1].kind == Title;
    }
    if TitleBefore(sources, i) && sources[0].kind != Title {
      var j :| 0 <= j < i && sources[j].kind == Title;
      assert sources[1..][j - 1].kind == Title;
    }
  }

  /** Every stored property keeps its place, kind and options, but that a second title becomes text. */
  lemma PropertyIsKept(sources: seq<SourceProperty>, i: nat, p: Property)
    requires i < |sources| && p == ListedProperties(sources)[i]
    ensures p.id == Canonical(SourceIds(sources), PropertyFallback())[i]
    ensures p.kind == if sources[i].kind == Title && TitleBefore(sources, i) then Text else sources[i].kind
    ensures OptionsAreKept(sources[i].options, p)
  {
    KindsDo(sources, false, i);
    OptionsDo(p.id, p.kind, sources[i].options);
  }

  /** A select keeps its first 30 options. */
  ghost predicate OptionsAreKept(options: seq<Option<string>>, p: Property) {
    if p.kind == Select || p.kind == MultiSelect
    then p.options == Canonical(if |options| <= 30 then options else options[..30], OptionFallback(p.id))
    else p.options == []
  }

  lemma OptionsDo(id: Id, kind: Kind, options: seq<Option<string>>)
    ensures OptionsAreKept(options, Property(id, kind, OptionIds(id, kind, options)))
  {
  }

  /** A title is put in front exactly if there is none and there is room for it; the others follow as they are. */
  lemma TitleIsAdded(sources: seq<SourceProperty>)
    ensures var listed := ListedProperties(sources);
            var properties := NormalProperties(sources);
            var untitled := forall i :: 0 <= i < |listed| ==> listed[i].kind != Title;
      && (!untitled || |sources| >= 20 ==> properties == listed)
      && (untitled && |sources| < 20 ==>
            && properties != [] && properties[1..] == listed
            && properties[0].kind == Title && properties[0].options == []
            && properties[0].id == UniqueId("title", SetOf(PropertyIds(listed)), "title"))
  {
  }

  // ----- cells -----

  predicate IsText(cell: Cell, limit: nat, r: Cell) {
    r.Str? && (if !cell.Str? then r.text == "" else if |cell.text| <= limit then r.text == cell.text
               else r.text == cell.text[..limit])
  }

  /** An item of a multiple choice is kept the first time it means an option. */
  ghost predicate ChoosesAt(items: seq<Option<string>>, means: Resolver, options: seq<Id>, i: nat) {
    && i < |items| && items[i].Some? && means(items[i]) in options
    && forall j :: 0 <= j < i && items[j].Some? ==> means(items[j]) != means(items[i])
  }

  /** The options chosen among these items: each the first time, in their order. */
  lemma {:induction false} ChosenDo(items: seq<Option<string>>, means: Resolver, options: seq<Id>, seen: set<Id>, id: Id)
    ensures id in Chosen(items, means, options, seen) <==>
      id in options && id !in seen && exists i :: 0 <= i < |items| && items[i].Some? && means(items[i]) == id
    decreases |items|
  {
    if items != [] {
      var first := items[0];
      assert items == [first] + items[1..];
      ChosenDo(items[1..], means, options, if first.None? then seen else seen + {means(first)}, id);
      if first.Some? && means(first) in seen { ChosenDo(items[1..], means, options, seen, id); }
      MeantShifts(items, means, id);
    }
  }

  lemma MeantShifts(items: seq<Option<string>>, means: Resolver, id: Id)
    requires items != []
    ensures (exists i :: 0 <= i < |items| && items[i].Some? && means(items[i]) == id) <==>
      (items[0].Some? && means(items[0]) == id)
      || exists i :: 0 <= i < |items[1..]| && items[1..][i].Some? && means(items[1..][i]) == id
  {
    if i :| 0 <= i < |items| && items[i].Some? && means(items[i]) == id {
      if i > 0 { assert items[1..][i - 1] == items[i]; }
    }
    if i :| 0 <= i < |items[1..]| && items[1..][i].Some? && means(items[1..][i]) == id {
      assert items[i + 1] == items[1..][i];
    }
  }

  /** What follows a list of items adds what it chooses anew. */
  lemma {:induction false} ChosenFollow(
      a: seq<Option<string>>, b: seq<Option<string>>, means: Resolver, options: seq<Id>, seen: set<Id>)
    returns (later: set<Id>)
    ensures Chosen(a + b, means, options, seen)
         == Chosen(a, means, options, seen) + Chosen(b, means, options, later)
    ensures seen <= later
    decreases |a|
  {
    if a == [] {
      assert a + b == b;
      later := seen;
    } else {
      assert (a + b)[1..] == a[1..] + b;
      var id := means(a[0]);
      later := ChosenFollow(a[1..], b, means, options, if a[0].None? || id in seen then seen else seen + {id});
    }
  }

  /** What becomes of a cell, by the kind of its property. */
  lemma CellDoes(p: Property, means: Resolver, number: Numbering, cell: Cell)
    ensures var r := NormalCell(p, means, number, cell);
      && (p.kind == Number ==> r == number(cell))
      && (p.kind == Checkbox ==> r == Flag(cell == Flag(true)))
      && (p.kind == Date ==> IsText(cell, 32, r))
      && (p.kind == Text || p.kind == Title || p.kind == Url ==> IsText(cell, 2000, r))
      && (p.kind == Select && cell.Str? && means(Some(cell.text)) in p.options ==> r == Str(means(Some(cell.text))))
      && (p.kind == Select && (!cell.Str? || means(Some(cell.text)) !in p.options) ==> r == Str(""))
      && (p.kind == MultiSelect && !cell.Array? ==> r == Array([]))
      && (p.kind == MultiSelect && cell.Array? ==>
            var ids := Chosen(cell.items, means, p.options, {});
            r == Array(AsSources(if |ids| <= 30 then ids else ids[..30])))
  {
  }

  lemma {:induction false} KeysAreDistinct(
      candidates: seq<string>, canonical: Id, a: Aliases, seen: set<string>, keys: seq<string>)
    requires keys == KeysAmong(candidates, canonical, a, seen)
    ensures Distinct(keys)
    decreases |candidates|
  {
    if candidates != [] {
      var c := candidates[0];
      var rest := KeysAmong(candidates[1..], canonical, a, seen + {c});
      KeysAreDistinct(candidates[1..], canonical, a, seen, KeysAmong(candidates[1..], canonical, a, seen));
      KeysAreDistinct(candidates[1..], canonical, a, seen + {c}, rest);
      assert c !in rest;
    }
  }

  /** A candidate that is a key comes first. */
  lemma FirstKey(candidates: seq<string>, canonical: Id, a: Aliases, keys: seq<string>, meant: Id)
    requires candidates != [] && candidates[0] != "" && keys == KeysAmong(candidates, canonical, a, {})
    requires meant == Resolve(Some(candidates[0]), a) && meant == canonical
    ensures keys != [] && keys[0] == candidates[0]
  {
    assert candidates[0] !in {};
  }

  /** The keys under which a row may hold a property: as stored, as asked for, as made canonical, if they mean it. */
  lemma KeysAre(item: Item, a: Aliases, k: string)
    ensures k in ValueKeys(item, a) <==>
      && (item.source == Some(k) || item.requested == k || item.canonical == k)
      && k != "" && Resolve(Some(k), a) == item.canonical
  {
  }

  lemma KeysAreTriedOnce(item: Item, a: Aliases)
    ensures Distinct(ValueKeys(item, a))
  {
    KeysAreDistinct(if item.source.Some? then [item.source.value, item.requested, item.canonical]
                    else [item.requested, item.canonical], item.canonical, a, {}, ValueKeys(item, a));
  }

  /** The key as it is stored is tried first, and without one the key asked for. */
  lemma StoredKeyIsFirst(item: Item, a: Aliases, key: string)
    requires key in ValueKeys(item, a) && key == (if item.source.Some? then item.source.value else item.requested)
    ensures ValueKeys(item, a)[0] == key
  {
    KeysAre(item, a, key);
    FirstKey(if item.source.Some? then [item.source.value, item.requested, item.canonical]
             else [item.requested, item.canonical], item.canonical, a, ValueKeys(item, a), item.canonical);
  }

  // ----- views -----

  lemma {:induction false} KindOfFinds(properties: seq<Property>, id: Id)
    ensures KindOf(properties, id).Some? <==> exists i :: 0 <= i < |properties| && properties[i].id == id
    ensures forall i :: 0 <= i < |properties| && properties[i].id == id
                        && (forall j :: 0 <= j < i ==> properties[j].id != id) ==>
      KindOf(properties, id) == Some(properties[i].kind)
  {
    if properties != [] && properties[0].id != id {
      KindOfFinds(properties[1..], id);
      assert forall i :: 0 < i < |properties| ==> properties[i] == properties[1..][i - 1];
      if KindOf(properties, id).Some? {
        var i :| 0 <= i < |properties[1..]| && properties[1..][i].id == id;
        assert properties[i + 1].id == id;
      }
    } else if properties != [] {
      assert properties[0].id == id;
    }
  }

  ghost predicate Names(l: SourceLink, means: Resolver, properties: seq<Property>) {
    exists i :: 0 <= i < |properties| && properties[i].id == means(l.propertyId)
  }

  /** A filter or sort stays exactly if it names a property. */
  lemma LinkStays(l: SourceLink, means: Resolver, properties: seq<Property>)
    ensures KnownLinks([l], means, properties) == if Names(l, means, properties) then [l] else []
  {
    KindOfFinds(properties, means(l.propertyId));
    assert [l][1..] == [];
  }

  /** And those that stay keep their order. */
  lemma {:induction false} LinksKeepOrder(a: seq<SourceLink>, b: seq<SourceLink>, means: Resolver, properties: seq<Property>)
    ensures KnownLinks(a + b, means, properties) == KnownLinks(a, means, properties) + KnownLinks(b, means, properties)
    decreases |a|
  {
    if a == [] {
      assert a + b == b;
    } else {
      assert (a + b)[1..] == a[1..] + b;
      LinksKeepOrder(a[1..], b, means, properties);
    }
  }

  /** The first eight of them are listed in order, each with the property it names. */
  lemma LinksAreListed(links: seq<SourceLink>, means: Resolver, properties: seq<Property>, fallback: Fallback)
    ensures var known := KnownLinks(links, means, properties);
            var r := NormalLinks(links, means, properties, fallback);
      && |r| == (if |known| <= 8 then |known| else 8)
      && (forall i :: 0 <= i < |r| ==> r[i].propertyId == means(known[i].propertyId))
      && (forall i :: 0 <= i < |r| ==> r[i].id == Canonical(LinkIds(known[..|r|]), fallback)[i])
  {
    assert Take(KnownLinks(links, means, properties), MAX_LINKS)
        == KnownLinks(links, means, properties)[..|NormalLinks(links, means, properties, fallback)|];
  }

  /** A property is hidden exactly if some reference means it and it is no title. */
  lemma {:induction false} HiddenDo(hidden: seq<Option<string>>, means: Resolver, properties: seq<Property>, seen: set<Id>,
                                    id: Id)
    ensures id in NormalHidden(hidden, means, properties, seen) <==>
      && id !in seen && KindOf(properties, id).Some? && KindOf(properties, id) != Some(Title)
      && exists i :: 0 <= i < |hidden| && hidden[i].Some? && means(hidden[i]) == id
    decreases |hidden|
  {
    if hidden != [] {
      var first := means(hidden[0]);
      HiddenDo(hidden[1..], means, properties, seen, id);
      HiddenDo(hidden[1..], means, properties, seen + {first}, id);
      MeantShifts(hidden, means, id);
    }
  }

  /** A board is grouped by the select or checkbox it names; its filters, sorts and hidden properties are those named. */
  lemma ViewDoes(v: SourceView, id: Id, means: Resolver, properties: seq<Property>)
    ensures var r := NormalView(v, id, means, properties);
            var kind := KindOf(properties, means(v.group));
      && r.id == id && r.board == v.board
      && r.filters == NormalLinks(v.filters, means, properties, FilterFallback(id))
      && r.sorts == NormalLinks(v.sorts, means, properties, SortFallback(id))
      && r.group == (if v.board && (kind == Some(Select) || kind == Some(Checkbox)) then Some(means(v.group)) else None)
      && r.hidden == NormalHidden(v.hidden, means, properties, {})
  {
  }

  /** The first twenty properties and twelve views stay. */
  lemma ViewsAreKept(s: Source, d: Database, kept: seq<SourceView>, means: Resolver, i: nat)
    requires d == Normalize(s) && kept == (if |s.views| <= 12 then s.views else s.views[..12]) && kept != []
    requires means == Meaning(PropertyAliases(if |s.properties| <= 20 then s.properties else s.properties[..20]))
    ensures d.properties == NormalProperties(if |s.properties| <= 20 then s.properties else s.properties[..20])
    ensures |d.views| == |kept|
    ensures i < |kept| ==>
      d.views[i] == NormalView(kept[i], Canonical(ViewSourceIds(kept), ViewFallback())[i], means, d.properties)
  {
    assert d.views == ListedViews(kept, means, d.properties);
  }

  /** The two views of a block that has none. */
  ghost predicate StandInViews(properties: seq<Property>, views: seq<View>) {
    var kind := KindOf(properties, "status");
    && |views| == 2
    && views[0].id == "table-view" && !views[0].board && views[0].group == None && views[0].hidden == []
    && views[1].id == "board-view" && views[1].board
    && views[1].group == (if kind == Some(Select) || kind == Some(Checkbox) then Some("status") else None)
    && views[1].hidden == (if kind.Some? && kind != Some(Title) then ["status"] else [])
    && views[0].filters == views[1].filters == [] && views[0].sorts == views[1].sorts == []
  }

  lemma FallbackViewsStandIn(properties: seq<Property>)
    ensures StandInViews(properties, FallbackViews(properties))
  {
  }

  /** Without any view a table and a board of the status stand in. */
  lemma ViewsStandIn(s: Source)
    requires s.views == []
    ensures StandInViews(Normalize(s).properties, Normalize(s).views)
  {
    FallbackViewsStandIn(Normalize(s).properties);
    EmptyBlockFallsBack(s, Normalize(s));
  }

  lemma EmptyBlockFallsBack(s: Source, d: Database)
    requires s.views == [] && d == Normalize(s)
    ensures d.views == FallbackViews(d.properties)
  {
  }

  /** The active view is the one the document names, or the first. */
  lemma ActiveDoes(s: Source, d: Database, named: Id)
    requires d == Normalize(s) && named == Resolve(s.active, ViewAliases(Take(s.views, 12))) && d.views != []
    ensures (exists i :: 0 <= i < |d.views| && d.views[i].id == named) ==> d.active == named
    ensures (forall i :: 0 <= i < |d.views| ==> d.views[i].id != named) ==> d.active == d.views[0].id
  {
    var ids := ViewIds(d.views);
    if i :| 0 <= i < |d.views| && d.views[i].id == named { assert ids[i] == named; }
  }

  // ----- rows and filter values -----

  /** The first 200 rows stay in order, each with the cell of every property. */
  lemma RowsDo(rows: seq<SourceRow>, columns: seq<Column>, number: Numbering, kept: seq<SourceRow>, i: nat)
    requires DistinctColumns(columns) && kept == (if |rows| <= 200 then rows else rows[..200])
    ensures |NormalRows(rows, columns, number)| == |kept|
    ensures i < |kept| ==>
      var r := NormalRows(rows, columns, number)[i];
      r.id == Canonical(RowIds(kept), RowFallback())[i] && RowKept(columns, number, kept[i].values, r.values)
  {
    if i < |kept| {
      RowHolds(columns, number, kept[i].values);
      RowIsKept(columns, number, kept[i].values, RowOf(columns, number, kept[i].values));
    }
  }

  lemma {:induction false} FirstHeld(values: Row, keys: seq<string>, n: nat)
    requires HoldsFirst(values, keys, n)
    ensures FirstPresent(values, keys) == Some(keys[n])
    decreases |keys|
  {
    if n > 0 {
      assert keys[0] !in values;
      FirstHeld(values, keys[1..], n - 1);
    }
  }

  lemma RowIsKept(columns: seq<Column>, number: Numbering, before: Row, now: Row)
    requires forall k :: k in now ==> HasColumn(columns, k)
    requires forall i :: 0 <= i < |columns| ==>
      columns[i].property.id in now && now[columns[i].property.id] == CellIn(columns[i], number, before)
    ensures RowKept(columns, number, before, now)
  {
    forall i, n: nat | 0 <= i < |columns| && HoldsFirst(before, columns[i].keys, n)
      ensures ReadCell(before, columns[i].keys) == before[columns[i].keys[n]]
    {
      FirstHeld(before, columns[i].keys, n);
    }
  }

  /** Each property's cell is made from the first of its keys that the row holds, or from nothing. */
  ghost predicate RowKept(columns: seq<Column>, number: Numbering, before: Row, now: Row) {
    && (forall k :: k in now ==> HasColumn(columns, k))
    && forall i :: 0 <= i < |columns| ==>
         var c := columns[i];
         && c.property.id in now
         && (forall n: nat :: HoldsFirst(before, c.keys, n) ==>
               now[c.property.id] == NormalCell(c.property, c.means, number, before[c.keys[n]]))
         && ((forall k :: k in c.keys ==> k !in before) ==>
               now[c.property.id] == NormalCell(c.property, c.means, number, Undefined))
  }

  predicate HoldsFirst(values: Row, keys: seq<string>, n: nat) {
    n < |keys| && keys[n] in values && forall j :: 0 <= j < n ==> keys[j] !in values
  }

  /** A filter's text becomes the option it means if its property has options; other texts are cut, flags stay. */
  lemma ValueDoes(p: Property, means: Resolver, finite: Numbering, cell: Cell)
    ensures var r := NormalValue(p, means, finite, cell);
            var names := (p.kind == Select || p.kind == MultiSelect) && cell.Str? && means(Some(cell.text)) in p.options;
      && (names ==> r == Str(means(Some(cell.text))))
      && (!names && cell.Str? ==> IsText(cell, 2000, r))
      && (cell.Flag? ==> r == cell)
      && (!cell.Str? && !cell.Flag? ==> r == finite(cell))
  {
  }
}
