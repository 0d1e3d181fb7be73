/**
 Normalizing a normalized block changes nothing: always for clean ids, which
 is what every block stored without whitespace in its ids has.
 */
module DatabaseIdempotence {
  import opened DatabaseAliases
  import opened DatabaseIds
  import opened DatabaseNormal
  import opened Options

  // ----- a normalized block as it is stored -----

  function PropertySource(p: Property): SourceProperty {
    SourceProperty(Some(p.id), p.kind, AsSources(p.options))
  }

  function LinkSource(l: Link): SourceLink {
    SourceLink(Some(l.id), Some(l.propertyId))
  }

  function LinkSources(links: seq<Link>): (r: seq<SourceLink>)
    ensures |r| == |links| && forall i :: 0 <= i < |r| ==> r[i] == LinkSource(links[i])
  {
    Mapped(links, (l: Link) => LinkSource(l))
  }

  function ViewSource(v: View): SourceView {
    SourceView(Some(v.id), v.board, LinkSources(v.filters), LinkSources(v.sorts),
               if v.group.Some? then Some(v.group.value) else None, AsSources(v.hidden))
  }

  function PropertySources(properties: seq<Property>): (r: seq<SourceProperty>)
    ensures |r| == |properties| && forall i :: 0 <= i < |r| ==> r[i] == PropertySource(properties[i])
  {
    Mapped(properties, (p: Property) => PropertySource(p))
  }

  function ViewSources(views: seq<View>): (r: seq<SourceView>)
    ensures |r| == |views| && forall i :: 0 <= i < |r| ==> r[i] == ViewSource(views[i])
  {
    Mapped(views, (v: View) => ViewSource(v))
  }

  function Stored(d: Database): Source {
    Source(PropertySources(d.properties), ViewSources(d.views), Some(d.active))
  }

  ghost predicate CleanView(v: View) {
    IsClean(v.id) && AllClean(LinkIdsOf(v.filters)) && AllClean(LinkIdsOf(v.sorts))
  }

  ghost predicate Clean(d: Database) {
    && CleanProperties(d.properties)
    && (forall i :: 0 <= i < |d.views| ==> CleanView(d.views[i]))
  }

  // ----- properties -----

  ghost predicate CleanProperties(properties: seq<Property>) {
    AllClean(PropertyIds(properties)) && forall i :: 0 <= i < |properties| ==> AllClean(properties[i].options)
  }

  lemma CleanIsStable(ids: seq<Id>)
    requires AllClean(ids)
    ensures AllStable(ids)
  {
  }

  lemma StoredIds(properties: seq<Property>)
    ensures SourceIds(PropertySources(properties)) == AsSources(PropertyIds(properties))
  {
  }

  lemma {:induction false} StoredKinds(sources: seq<SourceProperty>, titleSeen: bool)
    requires forall i :: 0 <= i < |sources| && titleSeen ==> sources[i].kind != Title
    requires forall i, j :: 0 <= i < j < |sources| && sources[i].kind == Title ==> sources[j].kind != Title
    ensures forall i :: 0 <= i < |sources| ==> Kinds(sources, titleSeen)[i] == sources[i].kind
    decreases |sources|
  {
    if sources != [] {
      var rest := sources[1..];
      assert forall i :: 0 <= i < |rest| ==> rest[i] == sources[i + 1];
      StoredKinds(rest, titleSeen || sources[0].kind == Title);
    }
  }

  lemma StoredKindsOf(properties: seq<Property>)
    requires OneTitle(properties)
    ensures forall i :: 0 <= i < |properties| ==> Kinds(PropertySources(properties), false)[i] == properties[i].kind
  {
    StoredKinds(PropertySources(properties), false);
  }

  lemma StoredOptions(p: Property)
    requires ClosedOptions(p) && AllClean(p.options)
    ensures OptionIds(p.id, p.kind, AsSources(p.options)) == p.options
  {
    if HasOptions(p.kind) {
      CleanIsStable(p.options);
      CanonicalIsIdempotent(p.options, OptionFallback(p.id));
    }
  }

  lemma StoredListed(properties: seq<Property>)
    requires ClosedProperties(properties) && CleanProperties(properties)
    ensures ListedProperties(PropertySources(properties)) == properties
  {
    var sources := PropertySources(properties);
    StoredIds(properties);
    CleanIsStable(PropertyIds(properties));
    CanonicalIsIdempotent(PropertyIds(properties), PropertyFallback());
    StoredKindsOf(properties);
    StoredAllOptions(properties);
  }

  lemma StoredAllOptions(properties: seq<Property>)
    requires forall i :: 0 <= i < |properties| ==> ClosedOptions(properties[i]) && AllClean(properties[i].options)
    ensures forall i :: 0 <= i < |properties| ==>
      OptionIds(properties[i].id, properties[i].kind, PropertySources(properties)[i].options) == properties[i].options
  {
    forall i | 0 <= i < |properties|
      ensures OptionIds(properties[i].id, properties[i].kind, PropertySources(properties)[i].options)
           == properties[i].options
    {
      StoredOptions(properties[i]);
    }
  }

  lemma StoredProperties(properties: seq<Property>)
    requires ClosedProperties(properties) && CleanProperties(properties)
    ensures NormalProperties(PropertySources(properties)) == properties
  {
    StoredListed(properties);
  }

  // ----- references -----

  lemma StoredItemsAreFixed(ids: seq<Id>, fallback: Fallback)
    requires Distinct(ids) && AllStable(ids)
    ensures var items := Items(AsSources(ids), fallback);
      Fixed(items) && forall i :: 0 <= i < |ids| ==> items[i].canonical == ids[i]
  {
    CanonicalIsIdempotent(ids, fallback);
    forall i | 0 <= i < |ids|
      ensures IsFixed(Items(AsSources(ids), fallback)[i]) && Items(AsSources(ids), fallback)[i].canonical == ids[i]
    {
      StoredItemIsFixed(ids, fallback, i);
    }
  }

  lemma StoredItemIsFixed(ids: seq<Id>, fallback: Fallback, i: nat)
    requires i < |ids| && IsStable(ids[i]) && Canonical(AsSources(ids), fallback) == ids
    ensures IsFixed(Items(AsSources(ids), fallback)[i]) && Items(AsSources(ids), fallback)[i].canonical == ids[i]
  {
    ItemAt(AsSources(ids), fallback, i);
    StableAsksForItself(ids[i], fallback(i));
  }

  lemma StableAsksForItself(id: Id, fallback: string)
    requires IsStable(id)
    ensures SafeId(Some(id), fallback) == id && !UsesFallbackId(Some(id))
  {
    TrimKeepsStable(id);
  }

  lemma IdsMeanThemselves(ids: seq<Id>, fallback: Fallback, id: Id)
    requires Distinct(ids) && AllStable(ids) && id in ids
    ensures var items := Items(AsSources(ids), fallback);
      Resolve(Some(id), WithNormalized(Owned(items), items)) == id
  {
    StoredItemsAreFixed(ids, fallback);
    var i :| 0 <= i < |ids| && ids[i] == id;
    CanonicalMeansItself(Items(AsSources(ids), fallback), i);
  }

  /** The references of a block mean themselves. */
  ghost predicate MeansItself(means: Resolver, properties: seq<Property>) {
    means(None) == "" && forall id :: KindOf(properties, id).Some? ==> means(Some(id)) == id
  }

  lemma {:induction false} KindOfKnown(properties: seq<Property>, id: Id)
    ensures KindOf(properties, id).Some? <==> id in PropertyIds(properties)
  {
    if properties != [] {
      KindOfKnown(properties[1..], id);
      assert PropertyIds(properties) == [properties[0].id] + PropertyIds(properties[1..]);
    }
  }

  lemma PropertiesMeanThemselves(properties: seq<Property>)
    requires ClosedProperties(properties) && CleanProperties(properties)
    ensures MeansItself(Meaning(PropertyAliases(PropertySources(properties))), properties)
  {
    forall id | KindOf(properties, id).Some?
      ensures Resolve(Some(id), PropertyAliases(PropertySources(properties))) == id
    {
      PropertyMeansItself(properties, id);
    }
    ResolvingMeans(PropertyAliases(PropertySources(properties)), properties);
  }

  lemma ResolvingMeans(a: Aliases, properties: seq<Property>)
    requires forall id :: KindOf(properties, id).Some? ==> Resolve(Some(id), a) == id
    ensures MeansItself(Meaning(a), properties)
  {
  }

  lemma PropertyMeansItself(properties: seq<Property>, id: Id)
    requires ClosedProperties(properties) && CleanProperties(properties) && KindOf(properties, id).Some?
    ensures Resolve(Some(id), PropertyAliases(PropertySources(properties))) == id
  {
    AliasesWithoutTitle(properties);
    CleanIsStable(PropertyIds(properties));
    KindOfKnown(properties, id);
    IdsMeanThemselves(PropertyIds(properties), PropertyFallback(), id);
  }

  lemma AliasesWithoutTitle(properties: seq<Property>)
    requires ClosedProperties(properties) && CleanProperties(properties)
    ensures var items := Items(AsSources(PropertyIds(properties)), PropertyFallback());
      PropertyAliases(PropertySources(properties)) == WithNormalized(Owned(items), items)
  {
    StoredProperties(properties);
    StoredIds(properties);
    NoTitleNoAlias(PropertySources(properties));
  }

  /** Where no title was added, the items alone make the aliases. */
  lemma NoTitleNoAlias(sources: seq<SourceProperty>)
    requires |NormalProperties(sources)| == |sources|
    ensures PropertyAliases(sources) == WithNormalized(Owned(PropertyItems(sources)), PropertyItems(sources))
  {
    var items := PropertyItems(sources);
    assert [] + items == items;
  }

  // ----- views -----

  lemma {:induction false} StoredKnownLinks(links: seq<SourceLink>, means: Resolver, properties: seq<Property>)
    requires forall i :: 0 <= i < |links| ==> KindOf(properties, means(links[i].propertyId)).Some?
    ensures KnownLinks(links, means, properties) == links
  {
    if links != [] {
      StoredKnownLinks(links[1..], means, properties);
      assert links == [links[0]] + links[1..];
    }
  }

  lemma StoredLinks(links: seq<Link>, means: Resolver, properties: seq<Property>, fallback: Fallback)
    requires ClosedLinks(links, properties) && AllClean(LinkIdsOf(links)) && MeansItself(means, properties)
    ensures NormalLinks(LinkSources(links), means, properties, fallback) == links
  {
    var sources := LinkSources(links);
    StoredKnownLinks(sources, means, properties);
    assert LinkIds(sources) == AsSources(LinkIdsOf(links));
    CleanIsStable(LinkIdsOf(links));
    CanonicalIsIdempotent(LinkIdsOf(links), fallback);
  }

  lemma {:induction false} StoredHidden(
    hidden: seq<Option<string>>, ids: seq<Id>, means: Resolver, properties: seq<Property>, seen: set<Id>)
    requires |hidden| == |ids| && forall i :: 0 <= i < |ids| ==> hidden[i] == Some(ids[i])
    requires Distinct(ids) && MeansItself(means, properties)
    requires forall i :: 0 <= i < |ids| ==>
      ids[i] !in seen && KindOf(properties, ids[i]).Some? && KindOf(properties, ids[i]) != Some(Title)
    ensures NormalHidden(hidden, means, properties, seen) == ids
    decreases |ids|
  {
    if ids != [] {
      assert hidden[0] == Some(ids[0]) && means(hidden[0]) == ids[0];
      assert forall i :: 0 <= i < |ids| - 1 ==> ids[1..][i] == ids[i + 1] && ids[i + 1] != ids[0];
      StoredHidden(hidden[1..], ids[1..], means, properties, seen + {ids[0]});
      assert ids == [ids[0]] + ids[1..];
    }
  }

  lemma StoredView(v: View, means: Resolver, properties: seq<Property>)
    requires ClosedView(v, properties) && CleanView(v) && MeansItself(means, properties)
    requires KindOf(properties, "").None?
    ensures NormalView(ViewSource(v), v.id, means, properties) == v
  {
    StoredLinks(v.filters, means, properties, FilterFallback(v.id));
    StoredLinks(v.sorts, means, properties, SortFallback(v.id));
    StoredHidden(AsSources(v.hidden), v.hidden, means, properties, {});
  }

  lemma StoredViews(views: seq<View>, means: Resolver, properties: seq<Property>)
    requires Distinct(ViewIds(views)) && MeansItself(means, properties) && KindOf(properties, "").None?
    requires forall i :: 0 <= i < |views| ==> ClosedView(views[i], properties) && CleanView(views[i])
    ensures ListedViews(ViewSources(views), means, properties) == views
    ensures ViewSourceIds(ViewSources(views)) == AsSources(ViewIds(views)) && AllStable(ViewIds(views))
  {
    StoredViewIds(views);
    CanonicalIsIdempotent(ViewIds(views), ViewFallback());
    forall i | 0 <= i < |views|
      ensures NormalView(ViewSources(views)[i], views[i].id, means, properties) == views[i]
    {
      StoredView(views[i], means, properties);
    }
    WithIdsIs(ViewSources(views), views, means, properties);
  }

  lemma StoredViewIds(views: seq<View>)
    requires forall i :: 0 <= i < |views| ==> CleanView(views[i])
    ensures ViewSourceIds(ViewSources(views)) == AsSources(ViewIds(views)) && AllStable(ViewIds(views))
  {
  }

  lemma WithIdsIs(sources: seq<SourceView>, views: seq<View>, means: Resolver, properties: seq<Property>)
    requires |sources| == |views|
    requires forall i :: 0 <= i < |views| ==> NormalView(sources[i], views[i].id, means, properties) == views[i]
    ensures WithIds(sources, ViewIds(views), means, properties) == views
  {
  }

  lemma EmptyIdIsUnknown(properties: seq<Property>)
    requires AllClean(PropertyIds(properties))
    ensures KindOf(properties, "").None?
  {
  }

  /** A closed block with clean ids is its own normalization. */
  lemma ClosedIsNormal(d: Database)
    requires Closed(d) && Clean(d)
    ensures Normalize(Stored(d)) == d
  {
    StoredProperties(d.properties);
    PropertiesMeanThemselves(d.properties);
    EmptyIdIsUnknown(d.properties);
    StoredViews(d.views, Meaning(PropertyAliases(PropertySources(d.properties))), d.properties);
    IdsMeanThemselves(ViewIds(d.views), ViewFallback(), d.active);
    NormalizeIs(Stored(d), d.properties, d.views, d.active);
  }

  lemma NormalizeIs(s: Source, properties: seq<Property>, views: seq<View>, active: Id)
    requires |s.properties| <= MAX_PROPERTIES && |s.views| <= MAX_VIEWS && views != []
    requires NormalProperties(s.properties) == properties
    requires ListedViews(s.views, Meaning(PropertyAliases(s.properties)), properties) == views
    requires Resolve(s.active, ViewAliases(s.views)) == active && active in ViewIds(views)
    ensures Normalize(s) == Database(properties, views, active)
  {
  }

  // ----- stored ids without whitespace -----

  ghost predicate SpaceFreeLinks(links: seq<SourceLink>) {
    forall i :: 0 <= i < |links| && links[i].id.Some? ==> NoSpaces(links[i].id.value)
  }

  ghost predicate SpaceFreeView(v: SourceView) {
    (v.id.Some? ==> NoSpaces(v.id.value)) && SpaceFreeLinks(v.filters) && SpaceFreeLinks(v.sorts)
  }

  /** No id of the stored block contains whitespace. */
  ghost predicate SpaceFreeSource(s: Source) {
    && (forall i :: 0 <= i < |s.properties| ==>
          (s.properties[i].id.Some? ==> NoSpaces(s.properties[i].id.value)) && SpaceFree(s.properties[i].options))
    && (forall i :: 0 <= i < |s.views| ==> SpaceFreeView(s.views[i]))
  }

  lemma NumberedIsPlain(head: string, n: nat)
    requires NoSpaces(head) && head != "" && Cut(head + Decimal(n)) !in UNSAFE_IDS
    ensures PlainText(head + Decimal(n))
  {
    DecimalHasNoSpaces(n);
  }

  /** A dash among the characters kept, or too many characters, rules out the unsafe names. */
  lemma DashIsSafe(text: string, i: nat)
    requires i < |text| && ((text[i] == '-' && i < ID_LENGTH) || |text| >= ID_LENGTH)
    ensures Cut(text) !in UNSAFE_IDS
  {
    if text[i] == '-' && i < ID_LENGTH { assert Cut(text)[i] == '-' && '-' in Cut(text); }
    if Cut(text) in UNSAFE_IDS { UnsafeHasNoDash(Cut(text)); }
  }

  lemma FallbackIsPlain(stem: string, part: string, n: nat)
    requires NoSpaces(stem) && NoSpaces(part) && part != "" && part[0] == '-'
    ensures PlainText(stem + part + Decimal(n))
  {
    var head := stem + part;
    var text := head + Decimal(n);
    assert text[|stem|] == '-';
    DashIsSafe(text, |stem|);
    NumberedIsPlain(head, n);
  }

  lemma FallbacksArePlain(id: Id)
    requires NoSpaces(id)
    ensures PlainFallback(PropertyFallback()) && PlainFallback(ViewFallback())
    ensures PlainFallback(OptionFallback(id)) && PlainFallback(FilterFallback(id)) && PlainFallback(SortFallback(id))
  {
    forall i: nat
      ensures PlainText(PropertyFallback()(i)) && PlainText(ViewFallback()(i))
    {
      FallbackIsPlain("property", "-", i + 1);
      assert "property" + "-" == "property-";
      FallbackIsPlain("view", "-", i + 1);
      assert "view" + "-" == "view-";
    }
    forall i: nat
      ensures PlainText(OptionFallback(id)(i)) && PlainText(FilterFallback(id)(i)) && PlainText(SortFallback(id)(i))
    {
      FallbackIsPlain(id, "-option-", i + 1);
      FallbackIsPlain(id, "-filter-", i + 1);
      FallbackIsPlain(id, "-sort-", i + 1);
    }
  }

  lemma TitleIsClean(seen: set<Id>)
    requires |seen| < 1000
    ensures IsClean(UniqueId("title", seen, "title"))
  {
    assert IsClean("title");
    UniqueIdIsClean("title", seen, "title");
  }

  lemma ListedPropertiesAreClean(sources: seq<SourceProperty>)
    requires |sources| <= MAX_PROPERTIES
    requires forall i :: 0 <= i < |sources| ==>
      (sources[i].id.Some? ==> NoSpaces(sources[i].id.value)) && SpaceFree(sources[i].options)
    ensures AllClean(PropertyIds(ListedProperties(sources)))
    ensures forall i :: 0 <= i < |sources| ==> AllClean(ListedProperties(sources)[i].options)
  {
    var ids := Canonical(SourceIds(sources), PropertyFallback());
    FallbacksArePlain("");
    CanonicalIsClean(SourceIds(sources), PropertyFallback());
    ListedIds(sources);
    forall i | 0 <= i < |sources|
      ensures AllClean(ListedProperties(sources)[i].options)
    {
      assert IsClean(ids[i]);
      FallbacksArePlain(ids[i]);
      CanonicalIsClean(Take(sources[i].options, MAX_OPTIONS), OptionFallback(ids[i]));
    }
  }

  lemma PropertiesAreClean(sources: seq<SourceProperty>)
    requires |sources| <= MAX_PROPERTIES
    requires forall i :: 0 <= i < |sources| ==>
      (sources[i].id.Some? ==> NoSpaces(sources[i].id.value)) && SpaceFree(sources[i].options)
    ensures AllClean(PropertyIds(NormalProperties(sources)))
    ensures forall i :: 0 <= i < |NormalProperties(sources)| ==> AllClean(NormalProperties(sources)[i].options)
  {
    var listed := ListedProperties(sources);
    ListedPropertiesAreClean(sources);
    if !HasTitle(listed) && |listed| < MAX_PROPERTIES {
      SetOfIsSmall(PropertyIds(listed));
      TitleIsClean(SetOf(PropertyIds(listed)));
      TitledIsClean(listed, Property(UniqueId("title", SetOf(PropertyIds(listed)), "title"), Title, []));
    }
  }

  lemma TitledIsClean(listed: seq<Property>, title: Property)
    requires AllClean(PropertyIds(listed)) && IsClean(title.id) && title.options == []
    requires forall i :: 0 <= i < |listed| ==> AllClean(listed[i].options)
    ensures AllClean(PropertyIds([title] + listed))
    ensures forall i :: 0 <= i < |[title] + listed| ==> AllClean(([title] + listed)[i].options)
  {
  }

  lemma {:induction false} KnownLinksAreSpaceFree(links: seq<SourceLink>, means: Resolver, properties: seq<Property>)
    requires SpaceFreeLinks(links)
    ensures SpaceFreeLinks(KnownLinks(links, means, properties))
  {
    if links != [] { KnownLinksAreSpaceFree(links[1..], means, properties); }
  }

  lemma LinksAreClean(links: seq<SourceLink>, means: Resolver, properties: seq<Property>, fallback: Fallback)
    requires SpaceFreeLinks(links) && PlainFallback(fallback)
    ensures AllClean(LinkIdsOf(NormalLinks(links, means, properties, fallback)))
  {
    var known := Take(KnownLinks(links, means, properties), MAX_LINKS);
    KnownLinksAreSpaceFree(links, means, properties);
    CanonicalIsClean(LinkIds(known), fallback);
    assert LinkIdsOf(NormalLinks(links, means, properties, fallback)) == Canonical(LinkIds(known), fallback);
  }

  lemma ViewsAreClean(views: seq<SourceView>, means: Resolver, properties: seq<Property>)
    requires |views| <= MAX_VIEWS && forall i :: 0 <= i < |views| ==> SpaceFreeView(views[i])
    ensures forall i :: 0 <= i < |views| ==> CleanView(ListedViews(views, means, properties)[i])
  {
    var ids := Canonical(ViewSourceIds(views), ViewFallback());
    FallbacksArePlain("");
    CanonicalIsClean(ViewSourceIds(views), ViewFallback());
    forall i | 0 <= i < |views|
      ensures CleanView(ListedViews(views, means, properties)[i])
    {
      assert IsClean(ids[i]);
      FallbacksArePlain(ids[i]);
      LinksAreClean(views[i].filters, means, properties, FilterFallback(ids[i]));
      LinksAreClean(views[i].sorts, means, properties, SortFallback(ids[i]));
    }
  }

  lemma FallbackViewsAreClean(properties: seq<Property>)
    ensures forall i :: 0 <= i < |FallbackViews(properties)| ==> CleanView(FallbackViews(properties)[i])
  {
  }

  lemma SpaceFreeIsClean(s: Source)
    requires SpaceFreeSource(s)
    ensures Clean(Normalize(s))
  {
    var sources, viewSources := Take(s.properties, MAX_PROPERTIES), Take(s.views, MAX_VIEWS);
    var properties := NormalProperties(sources);
    PropertiesAreClean(sources);
    ViewsAreClean(viewSources, Meaning(PropertyAliases(sources)), properties);
    FallbackViewsAreClean(properties);
  }

  /** Without whitespace in the stored ids, normalizing twice is normalizing once. */
  lemma NormalizationIsIdempotent(s: Source)
    requires SpaceFreeSource(s)
    ensures Normalize(Stored(Normalize(s))) == Normalize(s)
  {
    NormalizedIsClosed(s);
    SpaceFreeIsClean(s);
    ClosedIsNormal(Normalize(s));
  }
}
