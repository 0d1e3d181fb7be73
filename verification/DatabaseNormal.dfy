/**
 Normalizing a database block: properties with their options, views with
 their filters, sorts, grouping and hidden properties, and the active view.
 Names, colours, cell scalars and titles are not part of the model.
 */
module DatabaseNormal {
  import opened DatabaseAliases
  import opened DatabaseIds
  import opened Options

  const MAX_PROPERTIES: nat := 20
  const MAX_VIEWS: nat := 12
  const MAX_OPTIONS: nat := 30
  const MAX_LINKS: nat := 8

  datatype Kind = Title | Select | MultiSelect | Checkbox | Text | Number | Date | Url

  // ----- the stored document -----

  datatype SourceProperty = SourceProperty(id: Option<string>, kind: Kind, options: seq<Option<string>>)

  /** A filter or a sort. */
  datatype SourceLink = SourceLink(id: Option<string>, propertyId: Option<string>)

  datatype SourceView = SourceView(
    id: Option<string>, board: bool, filters: seq<SourceLink>, sorts: seq<SourceLink>,
    group: Option<string>, hidden: seq<Option<string>>)

  datatype Source = Source(properties: seq<SourceProperty>, views: seq<SourceView>, active: Option<string>)

  // ----- the normalized document -----

  datatype Property = Property(id: Id, kind: Kind, options: seq<Id>)

  datatype Link = Link(id: Id, propertyId: Id)

  datatype View = View(
    id: Id, board: bool, filters: seq<Link>, sorts: seq<Link>, group: Option<Id>, hidden: seq<Id>)

  datatype Database = Database(properties: seq<Property>, views: seq<View>, active: Id)

  function Take<T>(s: seq<T>, limit: nat): (r: seq<T>)
    ensures |r| <= limit && r <= s
    ensures |s| <= limit ==> r == s
  {
    if |s| <= limit then s else s[..limit]
  }

  // ----- fallback ids -----

  function PropertyFallback(): Fallback {
    (i: nat) => "property-" + Decimal(i + 1)
  }

  function OptionFallback(property: Id): Fallback {
    (i: nat) => property + "-option-" + Decimal(i + 1)
  }

  function ViewFallback(): Fallback {
    (i: nat) => "view-" + Decimal(i + 1)
  }

  function FilterFallback(view: Id): Fallback {
    (i: nat) => view + "-filter-" + Decimal(i + 1)
  }

  function SortFallback(view: Id): Fallback {
    (i: nat) => view + "-sort-" + Decimal(i + 1)
  }

  // ----- properties -----

  function SourceIds(sources: seq<SourceProperty>): (r: seq<Option<string>>)
    ensures |r| == |sources| && forall i :: 0 <= i < |r| ==> r[i] == sources[i].id
  {
    Mapped(sources, (p: SourceProperty) => p.id)
  }

  /** The first title stays; any further one becomes text. */
  function Kinds(sources: seq<SourceProperty>, titleSeen: bool): (r: seq<Kind>)
    ensures |r| == |sources|
  {
    if sources == [] then []
    else
      var kind := sources[0].kind;
      [if kind == Title && titleSeen then Text else kind] + Kinds(sources[1..], titleSeen || kind == Title)
  }

  predicate HasOptions(kind: Kind) {
    kind == Select || kind == MultiSelect
  }

  function OptionIds(id: Id, kind: Kind, options: seq<Option<string>>): seq<Id> {
    if HasOptions(kind) then Canonical(Take(options, MAX_OPTIONS), OptionFallback(id)) else []
  }

  function WithKinds(sources: seq<SourceProperty>, ids: seq<Id>, kinds: seq<Kind>): (r: seq<Property>)
    requires |ids| == |sources| && |kinds| == |sources|
    ensures |r| == |sources|
    ensures forall i :: 0 <= i < |r| ==>
      r[i] == Property(ids[i], kinds[i], OptionIds(ids[i], kinds[i], sources[i].options))
  {
    if sources == [] then []
    else
      var first := Property(ids[0], kinds[0], OptionIds(ids[0], kinds[0], sources[0].options));
      [first] + WithKinds(sources[1..], ids[1..], kinds[1..])
  }

  function ListedProperties(sources: seq<SourceProperty>): (r: seq<Property>)
    ensures |r| == |sources|
  {
    WithKinds(sources, Canonical(SourceIds(sources), PropertyFallback()), Kinds(sources, false))
  }

  function PropertyIds(properties: seq<Property>): (ids: seq<Id>)
    ensures |ids| == |properties| && forall i :: 0 <= i < |ids| ==> ids[i] == properties[i].id
  {
    Mapped(properties, (p: Property) => p.id)
  }

  predicate HasTitle(properties: seq<Property>) {
    exists i :: 0 <= i < |properties| && properties[i].kind == Title
  }

  /** A title is added in front if there is none, unless the block is full. */
  function NormalProperties(sources: seq<SourceProperty>): seq<Property> {
    var listed := ListedProperties(sources);
    if HasTitle(listed) || |listed| >= MAX_PROPERTIES then listed
    else [Property(UniqueId("title", SetOf(PropertyIds(listed)), "title"), Title, [])] + listed
  }

  function PropertyItems(sources: seq<SourceProperty>): seq<Item> {
    Items(SourceIds(sources), PropertyFallback())
  }

  /** The properties as the tables see them; an added title asks for the id it was given. */
  function WithAdded(properties: seq<Property>, items: seq<Item>): seq<Item> {
    (if |properties| > |items| then [Item(None, false, properties[0].id, properties[0].id)] else []) + items
  }

  /** An added title takes part in the normalized aliases only. */
  function PropertyAliases(sources: seq<SourceProperty>): Aliases {
    var items := PropertyItems(sources);
    WithNormalized(Owned(items), WithAdded(NormalProperties(sources), items))
  }

  // ----- views -----

  /** What a stored reference means. */
  type Resolver = Option<string> -> Id

  function Meaning(a: Aliases): Resolver {
    (value: Option<string>) => Resolve(value, a)
  }

  function KindOf(properties: seq<Property>, id: Id): Option<Kind> {
    if properties == [] then None
    else if properties[0].id == id then Some(properties[0].kind)
    else KindOf(properties[1..], id)
  }

  /** The links whose reference means an existing property. */
  function KnownLinks(links: seq<SourceLink>, means: Resolver, properties: seq<Property>): (r: seq<SourceLink>)
    ensures forall i :: 0 <= i < |r| ==> KindOf(properties, means(r[i].propertyId)).Some?
  {
    if links == [] then []
    else
      var first := if KindOf(properties, means(links[0].propertyId)).Some? then [links[0]] else [];
      first + KnownLinks(links[1..], means, properties)
  }

  function LinkIds(links: seq<SourceLink>): (r: seq<Option<string>>)
    ensures |r| == |links| && forall i :: 0 <= i < |r| ==> r[i] == links[i].id
  {
    Mapped(links, (l: SourceLink) => l.id)
  }

  function Linked(links: seq<SourceLink>, ids: seq<Id>, means: Resolver): (r: seq<Link>)
    requires |ids| == |links|
    ensures |r| == |links| && forall i :: 0 <= i < |r| ==> r[i] == Link(ids[i], means(links[i].propertyId))
  {
    if links == [] then [] else [Link(ids[0], means(links[0].propertyId))] + Linked(links[1..], ids[1..], means)
  }

  function NormalLinks(links: seq<SourceLink>, means: Resolver, properties: seq<Property>, fallback: Fallback)
    : (r: seq<Link>)
    ensures |r| <= MAX_LINKS
  {
    var known := Take(KnownLinks(links, means, properties), MAX_LINKS);
    Linked(known, Canonical(LinkIds(known), fallback), means)
  }

  /** Hidden properties: existing ones, no title, each once. */
  function NormalHidden(hidden: seq<Option<string>>, means: Resolver, properties: seq<Property>, seen: set<Id>): seq<Id> {
    if hidden == [] then []
    else
      var id := means(hidden[0]);
      var rest := NormalHidden(hidden[1..], means, properties, seen + {id});
      if hidden[0].None? || id in seen then NormalHidden(hidden[1..], means, properties, seen)
      else if KindOf(properties, id).Some? && KindOf(properties, id) != Some(Title) then [id] + rest
      else rest
  }

  predicate Groups(properties: seq<Property>, id: Id) {
    KindOf(properties, id) == Some(Select) || KindOf(properties, id) == Some(Checkbox)
  }

  function NormalView(v: SourceView, id: Id, means: Resolver, properties: seq<Property>): View {
    var group := means(v.group);
    View(id, v.board,
         NormalLinks(v.filters, means, properties, FilterFallback(id)),
         NormalLinks(v.sorts, means, properties, SortFallback(id)),
         if v.board && Groups(properties, group) then Some(group) else None,
         NormalHidden(v.hidden, means, properties, {}))
  }

  function ViewSourceIds(views: seq<SourceView>): (r: seq<Option<string>>)
    ensures |r| == |views| && forall i :: 0 <= i < |r| ==> r[i] == views[i].id
  {
    Mapped(views, (v: SourceView) => v.id)
  }

  function WithIds(views: seq<SourceView>, ids: seq<Id>, means: Resolver, properties: seq<Property>): (r: seq<View>)
    requires |ids| == |views|
    ensures |r| == |views| && forall i :: 0 <= i < |r| ==> r[i] == NormalView(views[i], ids[i], means, properties)
  {
    if views == [] then []
    else [NormalView(views[0], ids[0], means, properties)] + WithIds(views[1..], ids[1..], means, properties)
  }

  function ListedViews(views: seq<SourceView>, means: Resolver, properties: seq<Property>): (r: seq<View>)
    ensures |r| == |views|
  {
    WithIds(views, Canonical(ViewSourceIds(views), ViewFallback()), means, properties)
  }

  function FallbackViews(properties: seq<Property>): seq<View> {
    [View("table-view", false, [], [], None, []),
     View("board-view", true, [], [],
          if Groups(properties, "status") then Some("status") else None,
          if KindOf(properties, "status").Some? && KindOf(properties, "status") != Some(Title) then ["status"] else [])]
  }

  function ViewIds(views: seq<View>): (ids: seq<Id>)
    ensures |ids| == |views| && forall i :: 0 <= i < |ids| ==> ids[i] == views[i].id
  {
    Mapped(views, (v: View) => v.id)
  }

  function ViewAliases(views: seq<SourceView>): Aliases {
    var items := Items(ViewSourceIds(views), ViewFallback());
    WithNormalized(Owned(items), items)
  }

  function Normalize(s: Source): Database {
    var sources := Take(s.properties, MAX_PROPERTIES);
    var properties := NormalProperties(sources);
    var viewSources := Take(s.views, MAX_VIEWS);
    var listed := ListedViews(viewSources, Meaning(PropertyAliases(sources)), properties);
    var views := if listed != [] then listed else FallbackViews(properties);
    var active := Resolve(s.active, ViewAliases(viewSources));
    Database(properties, views, if active in ViewIds(views) then active else views[0].id)
  }

  // ----- what a normalized block promises -----

  function LinkIdsOf(links: seq<Link>): (ids: seq<Id>)
    ensures |ids| == |links| && forall i :: 0 <= i < |ids| ==> ids[i] == links[i].id
  {
    Mapped(links, (l: Link) => l.id)
  }

  ghost predicate ClosedLinks(links: seq<Link>, properties: seq<Property>) {
    && |links| <= MAX_LINKS && Distinct(LinkIdsOf(links))
    && forall i :: 0 <= i < |links| ==> KindOf(properties, links[i].propertyId).Some?
  }

  /** Every reference of the view names an existing property of a fitting kind. */
  ghost predicate ClosedView(v: View, properties: seq<Property>) {
    && ClosedLinks(v.filters, properties) && ClosedLinks(v.sorts, properties)
    && (v.group.Some? ==> v.board && Groups(properties, v.group.value))
    && Distinct(v.hidden)
    && (forall i :: 0 <= i < |v.hidden| ==>
          KindOf(properties, v.hidden[i]).Some? && KindOf(properties, v.hidden[i]) != Some(Title))
  }

  ghost predicate ClosedProperties(properties: seq<Property>) {
    && |properties| <= MAX_PROPERTIES && Distinct(PropertyIds(properties))
    && (HasTitle(properties) || |properties| == MAX_PROPERTIES)
    && OneTitle(properties) && forall i :: 0 <= i < |properties| ==> ClosedOptions(properties[i])
  }

  ghost predicate Closed(d: Database) {
    && ClosedProperties(d.properties)
    && 0 < |d.views| <= MAX_VIEWS && Distinct(ViewIds(d.views)) && d.active in ViewIds(d.views)
    && forall i :: 0 <= i < |d.views| ==> ClosedView(d.views[i], d.properties)
  }

  // ----- normalization is closed -----

  ghost predicate AtMostOneTitle(kinds: seq<Kind>) {
    forall i, j :: 0 <= i < j < |kinds| && kinds[i] == Title ==> kinds[j] != Title
  }

  lemma {:induction false} NoFurtherTitle(sources: seq<SourceProperty>)
    ensures Title !in Kinds(sources, true)
  {
    if sources != [] { NoFurtherTitle(sources[1..]); }
  }

  lemma {:induction false} KindsFacts(sources: seq<SourceProperty>)
    ensures AtMostOneTitle(Kinds(sources, false))
  {
    if sources != [] {
      var first := sources[0].kind;
      var rest := Kinds(sources[1..], first == Title);
      assert Kinds(sources, false) == [first] + rest;
      if first == Title { NoFurtherTitle(sources[1..]); } else { KindsFacts(sources[1..]); }
      assert forall j :: 0 <= j < |rest| ==> rest[j] in rest;
    }
  }

  ghost predicate OneTitle(properties: seq<Property>) {
    forall i, j :: 0 <= i < j < |properties| && properties[i].kind == Title ==> properties[j].kind != Title
  }

  ghost predicate ClosedOptions(p: Property) {
    && |p.options| <= MAX_OPTIONS && Distinct(p.options) && (!HasOptions(p.kind) ==> p.options == [])
  }

  lemma ListedIds(sources: seq<SourceProperty>)
    ensures PropertyIds(ListedProperties(sources)) == Canonical(SourceIds(sources), PropertyFallback())
    ensures Distinct(PropertyIds(ListedProperties(sources)))
  {
    CanonicalIsDistinct(SourceIds(sources), PropertyFallback());
  }

  lemma ListedKinds(sources: seq<SourceProperty>)
    ensures OneTitle(ListedProperties(sources))
  {
    KindsFacts(sources);
    var kinds := Kinds(sources, false);
    assert forall i :: 0 <= i < |sources| ==> ListedProperties(sources)[i].kind == kinds[i];
  }

  lemma ListedOptions(sources: seq<SourceProperty>, i: nat)
    requires i < |sources|
    ensures ClosedOptions(ListedProperties(sources)[i])
  {
    var id := Canonical(SourceIds(sources), PropertyFallback())[i];
    CanonicalIsDistinct(Take(sources[i].options, MAX_OPTIONS), OptionFallback(id));
  }

  lemma ListedAllOptions(sources: seq<SourceProperty>)
    ensures forall i :: 0 <= i < |sources| ==> ClosedOptions(ListedProperties(sources)[i])
  {
    forall i | 0 <= i < |sources| ensures ClosedOptions(ListedProperties(sources)[i]) {
      ListedOptions(sources, i);
    }
  }

  lemma PropertiesAreClosed(sources: seq<SourceProperty>)
    requires |sources| <= MAX_PROPERTIES
    ensures ClosedProperties(NormalProperties(sources))
  {
    var listed := ListedProperties(sources);
    ListedIds(sources);
    ListedKinds(sources);
    ListedAllOptions(sources);
    if !HasTitle(listed) && |listed| < MAX_PROPERTIES {
      UniqueIdIsFresh("title", SetOf(PropertyIds(listed)), "title");
      TitledIsClosed(listed, UniqueId("title", SetOf(PropertyIds(listed)), "title"));
    }
  }

  lemma TitledIsClosed(listed: seq<Property>, id: Id)
    requires |listed| < MAX_PROPERTIES && Distinct(PropertyIds(listed)) && id !in SetOf(PropertyIds(listed))
    requires !HasTitle(listed) && forall i :: 0 <= i < |listed| ==> ClosedOptions(listed[i])
    ensures ClosedProperties([Property(id, Title, [])] + listed)
  {
    var properties := [Property(id, Title, [])] + listed;
    assert PropertyIds(properties) == [id] + PropertyIds(listed);
    assert properties[0].kind == Title;
  }

  lemma LinksAreClosed(links: seq<SourceLink>, means: Resolver, properties: seq<Property>, fallback: Fallback)
    ensures ClosedLinks(NormalLinks(links, means, properties, fallback), properties)
  {
    var known := Take(KnownLinks(links, means, properties), MAX_LINKS);
    CanonicalIsDistinct(LinkIds(known), fallback);
    assert LinkIdsOf(NormalLinks(links, means, properties, fallback)) == Canonical(LinkIds(known), fallback);
  }

  lemma {:induction false} HiddenIsClosed(
      hidden: seq<Option<string>>, means: Resolver, properties: seq<Property>, seen: set<Id>)
    ensures var r := NormalHidden(hidden, means, properties, seen);
      && Distinct(r)
      && (forall i :: 0 <= i < |r| ==>
            r[i] !in seen && KindOf(properties, r[i]).Some? && KindOf(properties, r[i]) != Some(Title))
    decreases |hidden|
  {
    if hidden != [] {
      HiddenIsClosed(hidden[1..], means, properties, seen);
      HiddenIsClosed(hidden[1..], means, properties, seen + {means(hidden[0])});
    }
  }

  lemma ViewIsClosed(v: SourceView, id: Id, means: Resolver, properties: seq<Property>)
    ensures ClosedView(NormalView(v, id, means, properties), properties)
  {
    LinksAreClosed(v.filters, means, properties, FilterFallback(id));
    LinksAreClosed(v.sorts, means, properties, SortFallback(id));
    HiddenIsClosed(v.hidden, means, properties, {});
  }

  lemma ListedViewsAreClosed(views: seq<SourceView>, means: Resolver, properties: seq<Property>)
    ensures var listed := ListedViews(views, means, properties);
      && ViewIds(listed) == Canonical(ViewSourceIds(views), ViewFallback()) && Distinct(ViewIds(listed))
      && forall i :: 0 <= i < |listed| ==> ClosedView(listed[i], properties)
  {
    CanonicalIsDistinct(ViewSourceIds(views), ViewFallback());
    var ids := Canonical(ViewSourceIds(views), ViewFallback());
    forall i | 0 <= i < |views|
      ensures ClosedView(ListedViews(views, means, properties)[i], properties)
    {
      ViewIsClosed(views[i], ids[i], means, properties);
    }
  }

  lemma FallbackViewsAreClosed(properties: seq<Property>)
    ensures var views := FallbackViews(properties);
      && Distinct(ViewIds(views)) && forall i :: 0 <= i < |views| ==> ClosedView(views[i], properties)
  {
  }

  /** Ids are unique and every filter, sort, group, hidden and active reference names an existing object. */
  lemma NormalizedIsClosed(s: Source)
    ensures Closed(Normalize(s))
  {
    var sources, viewSources := Take(s.properties, MAX_PROPERTIES), Take(s.views, MAX_VIEWS);
    var properties := NormalProperties(sources);
    PropertiesAreClosed(sources);
    ListedViewsAreClosed(viewSources, Meaning(PropertyAliases(sources)), properties);
    FallbackViewsAreClosed(properties);
    var d := Normalize(s);
    assert ViewIds(d.views)[0] == d.views[0].id;
  }
}
