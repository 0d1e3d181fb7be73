/**
 The whole document of a database block: besides its properties and views, its rows with their ids and cells, and the
 values of its filters. Normalizing it twice is normalizing it once, but for filter values that the limit has cut down to
 the name of an option.
 */
module DatabaseDocument {
  import opened DatabaseAliases
  import opened DatabaseCells
  import opened DatabaseIds
  import opened DatabaseIdempotence
  import opened DatabaseNormal
  import opened Options

  const MAX_ROWS: nat := 200

  datatype SourceRow = SourceRow(id: Option<string>, values: Row)

  datatype DataRow = DataRow(id: Id, values: Row)

  /** `filterValues` holds, beside the filters of each view, their values. */
  datatype SourceDocument = SourceDocument(block: Source, filterValues: seq<seq<Cell>>, rows: seq<SourceRow>)

  datatype Document = Document(block: Database, filterValues: seq<seq<Cell>>, rows: seq<DataRow>)

  predicate Fits(d: SourceDocument) {
    && |d.filterValues| == |d.block.views|
    && forall i :: 0 <= i < |d.filterValues| ==> |d.filterValues[i]| == |d.block.views[i].filters|
  }

  // ----- filter values -----

  /** `normalizeFilterValue`; `finite` says what becomes of a value that is neither a text nor a boolean. */
  function PlainValue(finite: Numbering, cell: Cell): Cell {
    if cell.Flag? then cell else if cell.Str? then Shortened(cell, TEXT_LENGTH) else finite(cell)
  }

  /** A finite number stays, anything else becomes nothing. */
  ghost predicate IsFinite(finite: Numbering) {
    forall c :: !finite(c).Str? && !finite(c).Flag? && finite(finite(c)) == finite(c)
  }

  /** `normalizeFilterValueForProperty`: a text may name an option. */
  function NormalValue(p: Property, means: Resolver, finite: Numbering, cell: Cell): Cell {
    if HasOptions(p.kind) && cell.Str? && means(Some(cell.text)) in p.options then Str(means(Some(cell.text)))
    else PlainValue(finite, cell)
  }

  function ColumnFor(columns: seq<Column>, id: Id): (r: Option<nat>)
    ensures r.Some? ==> r.value < |columns| && columns[r.value].property.id == id
    ensures r.None? ==> forall i :: 0 <= i < |columns| ==> columns[i].property.id != id
    decreases |columns|
  {
    if columns == [] then None
    else if columns[|columns| - 1].property.id == id then Some(|columns| - 1)
    else ColumnFor(columns[..|columns| - 1], id)
  }

  function ValueFor(columns: seq<Column>, id: Id, finite: Numbering, cell: Cell): Cell {
    match ColumnFor(columns, id)
    case None => PlainValue(finite, cell)
    case Some(i) => NormalValue(columns[i].property, columns[i].means, finite, cell)
  }

  /** The values of the filters whose reference means an existing property. */
  function KnownValues(
      links: seq<SourceLink>, values: seq<Cell>, columns: seq<Column>, means: Resolver, properties: seq<Property>,
      finite: Numbering)
    : (r: seq<Cell>)
    requires |values| == |links|
    ensures |r| == |KnownLinks(links, means, properties)|
  {
    if links == [] then []
    else
      var id := means(links[0].propertyId);
      (if KindOf(properties, id).Some? then [ValueFor(columns, id, finite, values[0])] else [])
      + KnownValues(links[1..], values[1..], columns, means, properties, finite)
  }

  function ListedValues(
      views: seq<SourceView>, values: seq<seq<Cell>>, columns: seq<Column>, means: Resolver, properties: seq<Property>,
      finite: Numbering)
    : (r: seq<seq<Cell>>)
    requires |values| == |views| && forall i :: 0 <= i < |views| ==> |values[i]| == |views[i].filters|
    ensures |r| == |views|
    ensures forall i :: 0 <= i < |r| ==>
      r[i] == Take(KnownValues(views[i].filters, values[i], columns, means, properties, finite), MAX_LINKS)
  {
    if views == [] then []
    else
      [Take(KnownValues(views[0].filters, values[0], columns, means, properties, finite), MAX_LINKS)]
      + ListedValues(views[1..], values[1..], columns, means, properties, finite)
  }

  // ----- rows -----

  function RowFallback(): Fallback {
    (i: nat) => "row-" + Decimal(i + 1)
  }

  function RowIds(rows: seq<SourceRow>): (r: seq<Option<string>>)
    ensures |r| == |rows| && forall i :: 0 <= i < |r| ==> r[i] == rows[i].id
  {
    Mapped(rows, (row: SourceRow) => row.id)
  }

  function WithValues(rows: seq<SourceRow>, ids: seq<Id>, columns: seq<Column>, number: Numbering): (r: seq<DataRow>)
    requires |ids| == |rows|
    ensures |r| == |rows|
    ensures forall i :: 0 <= i < |r| ==> r[i] == DataRow(ids[i], RowOf(columns, number, rows[i].values))
  {
    if rows == [] then []
    else [DataRow(ids[0], RowOf(columns, number, rows[0].values))] + WithValues(rows[1..], ids[1..], columns, number)
  }

  function NormalRows(rows: seq<SourceRow>, columns: seq<Column>, number: Numbering): seq<DataRow> {
    var kept := Take(rows, MAX_ROWS);
    WithValues(kept, Canonical(RowIds(kept), RowFallback()), columns, number)
  }

  // ----- documents -----

  function KeptProperties(d: SourceDocument): seq<SourceProperty> {
    Take(d.block.properties, MAX_PROPERTIES)
  }

  /** The two views of an empty block have no filters. */
  function KeptValues(
      views: seq<SourceView>, values: seq<seq<Cell>>, columns: seq<Column>, means: Resolver, properties: seq<Property>,
      finite: Numbering)
    : seq<seq<Cell>>
    requires |values| == |views| && forall i :: 0 <= i < |views| ==> |values[i]| == |views[i].filters|
  {
    if views != [] then ListedValues(views, values, columns, means, properties, finite) else [[], []]
  }

  function KeptViews(d: SourceDocument): seq<SourceView> {
    Take(d.block.views, MAX_VIEWS)
  }

  function DocumentValues(d: SourceDocument, finite: Numbering): seq<seq<Cell>>
    requires Fits(d)
  {
    KeptValues(KeptViews(d), Take(d.filterValues, MAX_VIEWS), Columns(KeptProperties(d)),
               Meaning(PropertyAliases(KeptProperties(d))), NormalProperties(KeptProperties(d)), finite)
  }

  function NormalizeDocument(d: SourceDocument, number: Numbering, finite: Numbering): Document
    requires Fits(d)
  {
    Document(Normalize(d.block), DocumentValues(d, finite), NormalRows(d.rows, Columns(KeptProperties(d)), number))
  }

  function StoredRows(rows: seq<DataRow>): (r: seq<SourceRow>)
    ensures |r| == |rows| && forall i :: 0 <= i < |r| ==> r[i] == SourceRow(Some(rows[i].id), rows[i].values)
  {
    Mapped(rows, (row: DataRow) => SourceRow(Some(row.id), row.values))
  }

  /** A normalized document as it is stored. */
  function StoredDocument(d: Document): SourceDocument {
    SourceDocument(Stored(d.block), d.filterValues, StoredRows(d.rows))
  }

  lemma TakenAlike<A, B>(a: seq<A>, b: seq<B>, limit: nat)
    requires |a| == |b|
    ensures |Take(a, limit)| == |Take(b, limit)|
  {
  }

  /** Each view keeps one value for each filter it keeps. */
  lemma ListedValuesFit(
      views: seq<SourceView>, values: seq<seq<Cell>>, columns: seq<Column>, means: Resolver, properties: seq<Property>,
      finite: Numbering, i: nat)
    requires |values| == |views| && forall i :: 0 <= i < |views| ==> |values[i]| == |views[i].filters|
    requires i < |views|
    ensures |ListedValues(views, values, columns, means, properties, finite)[i]|
         == |ListedViews(views, means, properties)[i].filters|
  {
    TakenAlike(KnownValues(views[i].filters, values[i], columns, means, properties, finite),
               KnownLinks(views[i].filters, means, properties), MAX_LINKS);
  }

  /** The views of a normalized block are the listed ones, or two without filters. */
  ghost predicate ViewsAre(views: seq<SourceView>, means: Resolver, properties: seq<Property>, normal: seq<View>) {
    if views != [] then normal == ListedViews(views, means, properties)
    else |normal| == 2 && normal[0].filters == normal[1].filters == []
  }

  lemma NormalizedViews(s: Source, views: seq<SourceView>, means: Resolver, block: Database)
    requires block == Normalize(s) && views == Take(s.views, MAX_VIEWS)
    requires means == Meaning(PropertyAliases(Take(s.properties, MAX_PROPERTIES)))
    ensures block.properties == NormalProperties(Take(s.properties, MAX_PROPERTIES))
    ensures ViewsAre(views, means, block.properties, block.views)
  {
  }

  lemma AllListedValuesFit(
      views: seq<SourceView>, values: seq<seq<Cell>>, columns: seq<Column>, means: Resolver, properties: seq<Property>,
      finite: Numbering, listed: seq<seq<Cell>>, normal: seq<View>)
    requires |values| == |views| && forall i :: 0 <= i < |views| ==> |values[i]| == |views[i].filters|
    requires listed == ListedValues(views, values, columns, means, properties, finite)
    requires normal == ListedViews(views, means, properties)
    ensures |listed| == |normal| && forall i :: 0 <= i < |normal| ==> |listed[i]| == |normal[i].filters|
  {
    forall i | 0 <= i < |normal| ensures |listed[i]| == |normal[i].filters| {
      ListedValuesFit(views, values, columns, means, properties, finite, i);
    }
  }

  lemma KeptValuesFit(
      views: seq<SourceView>, values: seq<seq<Cell>>, columns: seq<Column>, means: Resolver, properties: seq<Property>,
      finite: Numbering, normal: seq<View>)
    requires |values| == |views| && forall i :: 0 <= i < |views| ==> |values[i]| == |views[i].filters|
    requires ViewsAre(views, means, properties, normal)
    ensures var kept := KeptValues(views, values, columns, means, properties, finite);
      |kept| == |normal| && forall i :: 0 <= i < |normal| ==> |kept[i]| == |normal[i].filters|
  {
    if views != [] {
      AllListedValuesFit(views, values, columns, means, properties, finite,
                         ListedValues(views, values, columns, means, properties, finite), normal);
    }
  }

  /** Views and values are cut off alike. */
  lemma KeptFit(d: SourceDocument, views: seq<SourceView>, values: seq<seq<Cell>>)
    requires Fits(d) && views == KeptViews(d) && values == Take(d.filterValues, MAX_VIEWS)
    ensures |values| == |views| && forall i :: 0 <= i < |views| ==> |values[i]| == |views[i].filters|
    ensures |values| <= |d.filterValues| && forall i :: 0 <= i < |values| ==> values[i] == d.filterValues[i]
  {
  }

  /** What the filter values of a document are made from. */
  lemma DocumentParts(d: SourceDocument, finite: Numbering, block: Database)
      returns (views: seq<SourceView>, values: seq<seq<Cell>>, columns: seq<Column>, means: Resolver)
    requires Fits(d) && block == Normalize(d.block)
    ensures columns == Columns(KeptProperties(d)) && ViewsAre(views, means, block.properties, block.views)
    ensures |values| == |views| && forall i :: 0 <= i < |views| ==> |values[i]| == |views[i].filters|
    ensures |values| <= |d.filterValues| && forall i :: 0 <= i < |values| ==> values[i] == d.filterValues[i]
    ensures DocumentValues(d, finite) == KeptValues(views, values, columns, means, block.properties, finite)
  {
    views, values := KeptViews(d), Take(d.filterValues, MAX_VIEWS);
    columns, means := Columns(KeptProperties(d)), Meaning(PropertyAliases(KeptProperties(d)));
    KeptFit(d, views, values);
    NormalizedViews(d.block, views, means, block);
  }

  lemma ValuesFit(d: SourceDocument, finite: Numbering, block: Database, kept: seq<seq<Cell>>)
    requires Fits(d) && block == Normalize(d.block) && kept == DocumentValues(d, finite)
    ensures |kept| == |block.views| && forall i :: 0 <= i < |block.views| ==> |kept[i]| == |block.views[i].filters|
  {
    var views, values, columns, means := DocumentParts(d, finite, block);
    KeptValuesFit(views, values, columns, means, block.properties, finite, block.views);
  }

  lemma StoredFits(block: Database, values: seq<seq<Cell>>, rows: seq<DataRow>)
    requires |values| == |block.views| && forall i :: 0 <= i < |values| ==> |values[i]| == |block.views[i].filters|
    ensures Fits(StoredDocument(Document(block, values, rows)))
  {
  }

  lemma NormalizedFits(d: SourceDocument, number: Numbering, finite: Numbering, once: Document)
    requires Fits(d) && once == NormalizeDocument(d, number, finite)
    ensures Fits(StoredDocument(once))
  {
    ValuesFit(d, finite, once.block, once.filterValues);
    StoredFits(once.block, once.filterValues, once.rows);
  }

  // ----- what a filter's text means -----

  /** The text is no option, but trimmed and cut like an id it is the name of one. */
  predicate Slips(p: Property, cell: Cell) {
    HasOptions(p.kind) && cell.Str? && cell.text !in p.options && SafeId(Some(cell.text), "") in p.options
  }

  lemma NamesLead(a: Aliases, ids: set<Id>, text: string)
    requires LeadsInto(a, ids) && SafeId(Some(text), "") in ids && "" !in ids
    ensures Resolve(Some(text), a) in ids
  {
  }

  /** With the aliases of some options, whatever trims and cuts to an option means one. */
  lemma NamesMeanOptions(sources: seq<Option<string>>, fallback: Fallback, text: string)
    requires "" !in Canonical(sources, fallback) && SafeId(Some(text), "") in Canonical(sources, fallback)
    ensures var items := Items(sources, fallback);
      Resolve(Some(text), WithNormalized(Owned(items), items)) in Canonical(sources, fallback)
  {
    var items := Items(sources, fallback);
    var ids := SetOf(Canonical(sources, fallback));
    forall i | 0 <= i < |items| ensures items[i].canonical in ids { ItemAt(sources, fallback, i); }
    OwnedLeadsInto(items, ids);
    AliasesLeadInto(Owned(items), items, ids);
    NamesLead(WithNormalized(Owned(items), items), ids, text);
  }

  lemma {:induction false} NothingLeftToRegister(a: Aliases, items: seq<Item>)
    requires Fixed(items) && forall i :: 0 <= i < |items| ==> items[i].canonical in a.exact
    ensures WithNormalized(a, items) == a
    decreases |items|
  {
    if items != [] { NothingLeftToRegister(a, items[..|items| - 1]); }
  }

  /** Aliases that know the options, and each only as itself. */
  lemma ExactAliasesMean(a: Aliases, ids: set<Id>, text: string)
    requires a.generated == map[] && a.normalized == map[] && a.exact.Keys == ids
    requires forall id :: id in ids ==> a.exact[id] == id && IsClean(id)
    ensures var meant := Resolve(Some(text), a);
      if SafeId(Some(text), "") in ids then meant == SafeId(Some(text), "") else meant !in ids
  {
    if text in ids {
      assert IsClean(text);
      TrimKeepsStable(text);
    }
  }

  /** Stored options mean what they are trimmed and cut to, and nothing else means an option. */
  lemma StoredOptionsMean(ids: seq<Id>, fallback: Fallback, text: string)
    requires Distinct(ids) && AllClean(ids)
    ensures var items := Items(AsSources(ids), fallback);
            var meant := Resolve(Some(text), WithNormalized(Owned(items), items));
      if SafeId(Some(text), "") in ids then meant == SafeId(Some(text), "") else meant !in ids
  {
    var items := Items(AsSources(ids), fallback);
    CleanIsStable(ids);
    StoredItemsAreFixed(ids, fallback);
    OwnedOfFixed(items);
    NothingLeftToRegister(Owned(items), items);
    StoredAliasesAreExact(ids, items);
    ExactAliasesMean(Owned(items), SetOf(ids), text);
  }

  lemma {:induction false} FixedOwnNothingElse(items: seq<Item>)
    requires Fixed(items)
    ensures Owned(items).normalized == map[]
    decreases |items|
  {
    if items != [] { FixedOwnNothingElse(items[..|items| - 1]); }
  }

  lemma StoredAliasesAreExact(ids: seq<Id>, items: seq<Item>)
    requires Fixed(items) && |items| == |ids| && forall i :: 0 <= i < |ids| ==> items[i].canonical == ids[i]
    ensures Owned(items).exact.Keys == SetOf(ids) && Owned(items).generated == map[] && Owned(items).normalized == map[]
    ensures forall id :: id in ids ==> id in Owned(items).exact && Owned(items).exact[id] == id
  {
    OwnedOfFixed(items);
    FixedOwnNothingElse(items);
    OwnedLeadsInto(items, SetOf(ids));
    assert forall id :: id in ids ==> exists i :: 0 <= i < |ids| && ids[i] == id;
  }

  // ----- one filter value, twice -----

  /** Names of options mean options. */
  ghost predicate NamesMean(p: Property, means: Resolver) {
    HasOptions(p.kind) ==> forall x: string :: SafeId(Some(x), "") in p.options ==> means(Some(x)) in p.options
  }

  /** Names of options mean what they name, and nothing else means an option. */
  ghost predicate NamesMeanExactly(p: Property, means: Resolver) {
    HasOptions(p.kind) ==>
      forall x: string ::
        if SafeId(Some(x), "") in p.options then means(Some(x)) == SafeId(Some(x), "") else means(Some(x)) !in p.options
  }

  lemma CleanNamesThemselves(id: Id)
    requires IsClean(id)
    ensures SafeId(Some(id), "") == id
  {
    TrimKeepsStable(id);
  }

  /** A normalized filter value is normalized to itself exactly when it does not slip, and only a cut text can slip. */
  lemma ValueSlipsExactly(p: Property, first: Resolver, second: Resolver, finite: Numbering, cell: Cell)
    requires IsFinite(finite) && AllClean(p.options) && NamesMean(p, first) && NamesMeanExactly(p, second)
    ensures var once := NormalValue(p, first, finite, cell);
      && (NormalValue(p, second, finite, once) == once <==> !Slips(p, once))
      && (Slips(p, once) ==> cell.Str? && |cell.text| > TEXT_LENGTH)
  {
    var once := NormalValue(p, first, finite, cell);
    if once.Str? && once.text in p.options { CleanNamesThemselves(once.text); }
  }

  // ----- the two columns of a property -----

  lemma FirstMeans(sources: seq<SourceProperty>, properties: seq<Property>, columns: seq<Column>, i: nat)
    requires properties == NormalProperties(sources) && columns == Columns(sources)
    requires i < |properties| && AllClean(properties[i].options)
    ensures |columns| == |properties| && columns[i].property == properties[i]
    ensures NamesMean(properties[i], columns[i].means)
  {
    var p := properties[i];
    var n := |properties| - |sources|;
    ListedOrAdded(sources);
    ColumnIs(sources, properties, columns, i);
    if i < n { AddedHasNoOptions(sources, properties); } else if HasOptions(p.kind) { ListedMeans(sources, i - n, p); }
  }

  lemma ColumnIs(sources: seq<SourceProperty>, properties: seq<Property>, columns: seq<Column>, i: nat)
    requires properties == NormalProperties(sources) && columns == Columns(sources) && i < |properties|
    ensures |columns| == |properties| && columns[i].property == properties[i]
    ensures columns[i].means == OptionMeaning(properties[i], sources, i - (|properties| - |sources|))
  {
    ColumnsHold(properties, Descriptors(sources), PropertyAliases(sources), sources, columns, i);
  }

  lemma ColumnsHold(
      properties: seq<Property>, items: seq<Item>, a: Aliases, sources: seq<SourceProperty>, columns: seq<Column>, i: nat)
    requires i < |properties| == |items| && columns == ColumnsUpTo(properties, items, a, sources, |properties|)
    ensures |columns| == |properties| && columns[i].property == properties[i]
    ensures columns[i].means == OptionMeaning(properties[i], sources, i - (|properties| - |sources|))
  {
    assert columns[i] == ColumnAt(properties, items, a, sources, i);
  }

  lemma AddedHasNoOptions(sources: seq<SourceProperty>, properties: seq<Property>)
    requires properties == NormalProperties(sources) && |properties| > |sources|
    ensures |properties| == |sources| + 1 && properties[0].kind == Title
  {
  }

  lemma ListedMeans(sources: seq<SourceProperty>, i: nat, p: Property)
    requires i < |sources| && p == ListedProperties(sources)[i] && HasOptions(p.kind) && AllClean(p.options)
    ensures NamesMean(p, OptionMeaning(p, sources, i))
  {
    var options := Take(sources[i].options, MAX_OPTIONS);
    assert p.options == Canonical(options, OptionFallback(p.id));
    forall x: string | SafeId(Some(x), "") in p.options
      ensures Resolve(Some(x), OptionAliases(p.id, p.kind, sources[i].options)) in p.options
    {
      EmptyIsNoOption(p);
      NamesMeanOptions(options, OptionFallback(p.id), x);
    }
  }

  lemma StoredMeans(properties: seq<Property>, columns: seq<Column>, i: nat)
    requires ClosedProperties(properties) && CleanProperties(properties) && i < |properties|
    requires NormalProperties(PropertySources(properties)) == properties && columns == Columns(PropertySources(properties))
    ensures |columns| == |properties| && columns[i].property == properties[i]
    ensures NamesMeanExactly(properties[i], columns[i].means)
  {
    var p := properties[i];
    ColumnIs(PropertySources(properties), properties, columns, i);
    assert columns[i].means == Meaning(OptionAliases(p.id, p.kind, AsSources(p.options)));
    OptionsMeanExactly(p);
  }

  lemma OptionsMeanExactly(p: Property)
    requires ClosedOptions(p) && AllClean(p.options)
    ensures NamesMeanExactly(p, Meaning(OptionAliases(p.id, p.kind, AsSources(p.options))))
  {
    if HasOptions(p.kind) {
      forall x: string
        ensures var meant := Resolve(Some(x), OptionAliases(p.id, p.kind, AsSources(p.options)));
          if SafeId(Some(x), "") in p.options then meant == SafeId(Some(x), "") else meant !in p.options
      {
        StoredOptionsMean(p.options, OptionFallback(p.id), x);
      }
    }
  }

  // ----- the values of a list of filters -----

  lemma {:induction false} KnownValueComes(
      links: seq<SourceLink>, values: seq<Cell>, columns: seq<Column>, means: Resolver, properties: seq<Property>,
      finite: Numbering, m: nat)
      returns (cell: Cell)
    requires |values| == |links| && m < |KnownLinks(links, means, properties)|
    ensures cell in values
    ensures KnownValues(links, values, columns, means, properties, finite)[m]
         == ValueFor(columns, means(KnownLinks(links, means, properties)[m].propertyId), finite, cell)
  {
    var known := KindOf(properties, means(links[0].propertyId)).Some?;
    if known && m == 0 {
      cell := values[0];
    } else {
      cell := KnownValueComes(links[1..], values[1..], columns, means, properties, finite, if known then m - 1 else m);
    }
  }

  lemma {:induction false} StoredKnownValues(
      links: seq<SourceLink>, values: seq<Cell>, columns: seq<Column>, means: Resolver, properties: seq<Property>,
      finite: Numbering)
    requires |values| == |links|
    requires forall i :: 0 <= i < |links| ==> KindOf(properties, means(links[i].propertyId)).Some?
    ensures |KnownValues(links, values, columns, means, properties, finite)| == |values|
    ensures forall i :: 0 <= i < |links| ==>
      KnownValues(links, values, columns, means, properties, finite)[i]
      == ValueFor(columns, means(links[i].propertyId), finite, values[i])
  {
    if links != [] { StoredKnownValues(links[1..], values[1..], columns, means, properties, finite); }
  }

  // ----- the rows of a document -----

  lemma RowsAreClean(rows: seq<SourceRow>)
    requires SpaceFree(RowIds(rows)) && |rows| <= MAX_ROWS
    ensures AllClean(Canonical(RowIds(rows), RowFallback())) && Distinct(Canonical(RowIds(rows), RowFallback()))
  {
    forall i: nat ensures PlainText(RowFallback()(i)) {
      FallbackIsPlain("row", "-", i + 1);
      assert "row" + "-" == "row-";
    }
    CanonicalIsClean(RowIds(rows), RowFallback());
    CanonicalIsDistinct(RowIds(rows), RowFallback());
  }

  /** Rows whose ids are clean and whose cells are normal are their own normalization. */
  lemma RowsAreFixed(rows: seq<DataRow>, ids: seq<Id>, columns: seq<Column>, number: Numbering)
    requires |rows| == |ids| <= MAX_ROWS && AllClean(ids) && Distinct(ids)
    requires forall i :: 0 <= i < |rows| ==> rows[i].id == ids[i] && RowOf(columns, number, rows[i].values) == rows[i].values
    ensures NormalRows(StoredRows(rows), columns, number) == rows
  {
    assert RowIds(StoredRows(rows)) == AsSources(ids);
    CleanIsStable(ids);
    CanonicalIsIdempotent(ids, RowFallback());
  }

  /** Two lists of columns of which the second reads back every row the first has made. */
  ghost predicate RowsReadBack(first: seq<Column>, second: seq<Column>, number: Numbering) {
    forall values: Row :: RowOf(second, number, RowOf(first, number, values)) == RowOf(first, number, values)
  }

  lemma NormalRowsAreFixed(sources: seq<SourceRow>, first: seq<Column>, second: seq<Column>, number: Numbering)
    requires SpaceFree(RowIds(sources)) && RowsReadBack(first, second, number)
    ensures NormalRows(StoredRows(NormalRows(sources, first, number)), second, number) == NormalRows(sources, first, number)
  {
    var kept := Take(sources, MAX_ROWS);
    assert forall i :: 0 <= i < |kept| ==> RowIds(kept)[i] == RowIds(sources)[i];
    RowsAreClean(kept);
    RowsAreFixed(NormalRows(sources, first, number), Canonical(RowIds(kept), RowFallback()), second, number);
  }

  // ----- the filter values of a document -----

  /** The filter's value slips, for the property the filter names. */
  ghost predicate FilterSlips(properties: seq<Property>, id: Id, cell: Cell) {
    exists p :: p in properties && p.id == id && Slips(p, cell)
  }

  lemma SameColumn(columns: seq<Column>, properties: seq<Property>, id: Id)
    requires |columns| == |properties| && forall i :: 0 <= i < |properties| ==> columns[i].property == properties[i]
    requires Distinct(PropertyIds(properties)) && KindOf(properties, id).Some?
    ensures var i := ColumnFor(columns, id);
      i.Some? && properties[i.value].id == id && forall p :: p in properties && p.id == id ==> p == properties[i.value]
  {
    KindOfKnown(properties, id);
    var j :| 0 <= j < |properties| && PropertyIds(properties)[j] == id;
    assert columns[j].property.id == id;
    var i := ColumnFor(columns, id).value;
    assert PropertyIds(properties)[i] == id;
    forall p | p in properties && p.id == id ensures p == properties[i] {
      var m :| 0 <= m < |properties| && properties[m] == p;
      assert PropertyIds(properties)[m] == id;
    }
  }

  /** The columns of a block and of its normalized properties: what names an option in one means it in the other. */
  ghost predicate NamesStay(first: seq<Column>, second: seq<Column>, properties: seq<Property>) {
    && |first| == |second| == |properties| && Distinct(PropertyIds(properties))
    && forall i :: 0 <= i < |properties| ==> ColumnStays(first, second, properties, i)
  }

  ghost predicate ColumnStays(first: seq<Column>, second: seq<Column>, properties: seq<Property>, i: nat)
    requires |first| == |second| == |properties| && i < |properties|
  {
    && first[i].property == second[i].property == properties[i] && AllClean(properties[i].options)
    && NamesMean(properties[i], first[i].means) && NamesMeanExactly(properties[i], second[i].means)
  }

  /** A filter value normalized twice is fixed unless it slips, and only a cut text slips. */
  lemma FilterValueTwice(
      first: seq<Column>, second: seq<Column>, properties: seq<Property>, finite: Numbering, id: Id, cell: Cell)
    requires NamesStay(first, second, properties) && IsFinite(finite) && KindOf(properties, id).Some?
    ensures var once := ValueFor(first, id, finite, cell);
      && (ValueFor(second, id, finite, once) == once <==> !FilterSlips(properties, id, once))
      && (FilterSlips(properties, id, once) ==> cell.Str? && |cell.text| > TEXT_LENGTH)
  {
    forall i | 0 <= i < |properties| ensures first[i].property == second[i].property == properties[i] {
      assert ColumnStays(first, second, properties, i);
    }
    SameColumn(first, properties, id);
    SameColumn(second, properties, id);
    var i := ColumnFor(first, id).value;
    var j := ColumnFor(second, id).value;
    assert properties[j] == properties[i] && ColumnStays(first, second, properties, i);
    assert ColumnStays(first, second, properties, j);
    ValueSlipsExactly(properties[i], first[i].means, second[j].means, finite, cell);
  }

  lemma BlockIsClosed(block: Source, sources: seq<SourceProperty>, properties: seq<Property>)
    requires SpaceFreeSource(block) && sources == Take(block.properties, MAX_PROPERTIES)
    requires properties == NormalProperties(sources)
    ensures ClosedProperties(properties) && CleanProperties(properties)
    ensures NormalProperties(PropertySources(properties)) == properties
  {
    PropertiesAreClosed(sources);
    SpaceFreeIsClean(block);
    assert Normalize(block).properties == properties;
    StoredProperties(properties);
  }

  lemma ColumnNamesStay(
      sources: seq<SourceProperty>, properties: seq<Property>, first: seq<Column>, second: seq<Column>)
    requires properties == NormalProperties(sources) && ClosedProperties(properties) && CleanProperties(properties)
    requires NormalProperties(PropertySources(properties)) == properties
    requires first == Columns(sources) && second == Columns(PropertySources(properties))
    ensures NamesStay(first, second, properties)
  {
    forall i | 0 <= i < |properties| ensures ColumnStays(first, second, properties, i) {
      assert AllClean(properties[i].options);
      FirstMeans(sources, properties, first, i);
      StoredMeans(properties, second, i);
    }
  }

  lemma BlockRowsReadBack(
      block: Source, sources: seq<SourceProperty>, first: seq<Column>, second: seq<Column>, number: Numbering)
    requires SpaceFreeSource(block) && sources == Take(block.properties, MAX_PROPERTIES)
    requires forall c :: number(number(c)) == number(c)
    requires first == Columns(sources) && second == Columns(PropertySources(NormalProperties(sources)))
    ensures RowsReadBack(first, second, number)
  {
    forall values: Row ensures RowOf(second, number, RowOf(first, number, values)) == RowOf(first, number, values) {
      RowsAreIdempotent(block, number, values);
    }
  }

  // ----- documents, twice -----

  ghost predicate SpaceFreeDocument(d: SourceDocument) {
    SpaceFreeSource(d.block) && SpaceFree(RowIds(d.rows))
  }

  /** Some filter value of the normalized document slips. */
  ghost predicate SomeFilterSlips(d: Document) {
    exists i, j :: SlipsAt(d.block, d.filterValues, i, j)
  }

  ghost predicate SlipsAt(block: Database, values: seq<seq<Cell>>, i: int, j: int) {
    && 0 <= i < |values| && i < |block.views| && 0 <= j < |values[i]| && j < |block.views[i].filters|
    && FilterSlips(block.properties, block.views[i].filters[j].propertyId, values[i][j])
  }

  /** The filters of a normalized view name what the kept links mean. */
  lemma FilterMeans(v: SourceView, id: Id, means: Resolver, properties: seq<Property>, j: nat)
    requires j < |NormalView(v, id, means, properties).filters|
    ensures j < |KnownLinks(v.filters, means, properties)|
    ensures NormalView(v, id, means, properties).filters[j].propertyId
         == means(KnownLinks(v.filters, means, properties)[j].propertyId)
  {
  }

  /** A kept filter value comes from a stored one, for the existing property that its filter names. */
  lemma ListedValueComes(
      views: seq<SourceView>, values: seq<seq<Cell>>, columns: seq<Column>, means: Resolver, properties: seq<Property>,
      finite: Numbering, i: nat, j: nat)
      returns (cell: Cell)
    requires |values| == |views| && forall i :: 0 <= i < |views| ==> |values[i]| == |views[i].filters|
    requires i < |views| && j < |ListedViews(views, means, properties)[i].filters|
    ensures var id := ListedViews(views, means, properties)[i].filters[j].propertyId;
      && KindOf(properties, id).Some? && cell in values[i]
      && j < |ListedValues(views, values, columns, means, properties, finite)[i]|
      && ListedValues(views, values, columns, means, properties, finite)[i][j] == ValueFor(columns, id, finite, cell)
  {
    FilterMeans(views[i], Canonical(ViewSourceIds(views), ViewFallback())[i], means, properties, j);
    ListedValuesFit(views, values, columns, means, properties, finite, i);
    cell := KnownValueComes(views[i].filters, values[i], columns, means, properties, finite, j);
  }

  /** The views of a stored document, and what their values become again. */
  lemma StoredValues(
      views: seq<View>, values: seq<seq<Cell>>, columns: seq<Column>, means: Resolver, properties: seq<Property>,
      finite: Numbering, again: seq<seq<Cell>>)
    requires |values| == |views| && forall i :: 0 <= i < |views| ==> |values[i]| == |views[i].filters|
    requires MeansItself(means, properties) && forall i :: 0 <= i < |views| ==> ClosedView(views[i], properties)
    requires again == ListedValues(ViewSources(views), values, columns, means, properties, finite)
    ensures forall i, j :: 0 <= i < |views| && 0 <= j < |values[i]| ==>
      |again[i]| == |values[i]| && again[i][j] == ValueFor(columns, views[i].filters[j].propertyId, finite, values[i][j])
    ensures forall i :: 0 <= i < |views| ==> |again[i]| == |values[i]|
  {
    forall i | 0 <= i < |views|
      ensures |again[i]| == |values[i]|
      ensures forall j :: 0 <= j < |values[i]| ==>
        again[i][j] == ValueFor(columns, views[i].filters[j].propertyId, finite, values[i][j])
    {
      StoredViewValues(views[i], values[i], columns, means, properties, finite);
    }
  }

  lemma StoredViewValues(
      v: View, values: seq<Cell>, columns: seq<Column>, means: Resolver, properties: seq<Property>, finite: Numbering)
    requires |values| == |v.filters| && MeansItself(means, properties) && ClosedView(v, properties)
    ensures var again := Take(KnownValues(ViewSource(v).filters, values, columns, means, properties, finite), MAX_LINKS);
      |again| == |values| && forall j :: 0 <= j < |values| ==>
        again[j] == ValueFor(columns, v.filters[j].propertyId, finite, values[j])
  {
    var links := ViewSource(v).filters;
    forall j | 0 <= j < |links|
      ensures means(links[j].propertyId) == v.filters[j].propertyId && KindOf(properties, means(links[j].propertyId)).Some?
    {
      assert links[j] == LinkSource(v.filters[j]);
      assert KindOf(properties, v.filters[j].propertyId).Some?;
    }
    StoredKnownValues(links, values, columns, means, properties, finite);
  }

  /** What a document keeps of its filter values, in one list of columns. */
  lemma KeptValueComes(
      views: seq<SourceView>, values: seq<seq<Cell>>, columns: seq<Column>, means: Resolver, properties: seq<Property>,
      finite: Numbering, normal: seq<View>, i: nat, j: nat)
      returns (cell: Cell)
    requires |values| == |views| && forall i :: 0 <= i < |views| ==> |values[i]| == |views[i].filters|
    requires ViewsAre(views, means, properties, normal) && i < |normal| && j < |normal[i].filters|
    ensures var id := normal[i].filters[j].propertyId;
            var kept := KeptValues(views, values, columns, means, properties, finite);
      && KindOf(properties, id).Some? && i < |values| && cell in values[i]
      && i < |kept| && j < |kept[i]| && kept[i][j] == ValueFor(columns, id, finite, cell)
  {
    cell := ListedValueComes(views, values, columns, means, properties, finite, i, j);
  }

  lemma DocumentValuesCome(
      d: SourceDocument, finite: Numbering, first: seq<Column>, block: Database, kept: seq<seq<Cell>>, i: nat, j: nat)
      returns (cell: Cell)
    requires Fits(d) && block == Normalize(d.block) && first == Columns(KeptProperties(d))
    requires kept == DocumentValues(d, finite) && i < |block.views| && j < |block.views[i].filters|
    ensures var id := block.views[i].filters[j].propertyId;
      && KindOf(block.properties, id).Some? && i < |d.filterValues| && cell in d.filterValues[i]
      && i < |kept| && j < |kept[i]| && kept[i][j] == ValueFor(first, id, finite, cell)
  {
    var views, values, columns, means := DocumentParts(d, finite, block);
    cell := KeptValueComes(views, values, columns, means, block.properties, finite, block.views, i, j);
  }

  /** The values of a document as they are for some columns. */
  ghost predicate ValuesAre(once: Document, finite: Numbering, columns: seq<Column>, again: seq<seq<Cell>>) {
    && |again| == |once.filterValues| == |once.block.views|
    && (forall i :: 0 <= i < |again| ==> |again[i]| == |once.filterValues[i]| == |once.block.views[i].filters|)
    && forall i, j :: 0 <= i < |again| && 0 <= j < |again[i]| ==>
         again[i][j] == ValueFor(columns, once.block.views[i].filters[j].propertyId, finite, once.filterValues[i][j])
  }

  /** The values of a normalized document, normalized again. */
  lemma DocumentValuesAgain(once: Document, finite: Numbering, second: seq<Column>)
    requires Closed(once.block) && Clean(once.block) && second == Columns(PropertySources(once.block.properties))
    requires |once.filterValues| == |once.block.views|
    requires forall i :: 0 <= i < |once.filterValues| ==> |once.filterValues[i]| == |once.block.views[i].filters|
    ensures Fits(StoredDocument(once))
    ensures ValuesAre(once, finite, second, DocumentValues(StoredDocument(once), finite))
  {
    var sources := PropertySources(once.block.properties);
    StoredFits(once.block, once.filterValues, once.rows);
    StoredProperties(once.block.properties);
    PropertiesMeanThemselves(once.block.properties);
    var again := ListedValues(ViewSources(once.block.views), once.filterValues, second, Meaning(PropertyAliases(sources)),
                              once.block.properties, finite);
    StoredDocumentValues(once, finite, again);
    StoredValues(once.block.views, once.filterValues, second, Meaning(PropertyAliases(sources)), once.block.properties,
                 finite, again);
  }

  lemma StoredDocumentValues(once: Document, finite: Numbering, again: seq<seq<Cell>>)
    requires |once.block.properties| <= MAX_PROPERTIES && 0 < |once.block.views| <= MAX_VIEWS && Fits(StoredDocument(once))
    requires NormalProperties(PropertySources(once.block.properties)) == once.block.properties
    requires var sources := PropertySources(once.block.properties);
      again == ListedValues(ViewSources(once.block.views), once.filterValues, Columns(sources),
                            Meaning(PropertyAliases(sources)), once.block.properties, finite)
    ensures DocumentValues(StoredDocument(once), finite) == again
  {
  }

  /** Two lists of lists of the same shape are equal exactly when their entries are. */
  lemma SameEntries(a: seq<seq<Cell>>, b: seq<seq<Cell>>)
    requires |a| == |b| && forall i :: 0 <= i < |a| ==> |a[i]| == |b[i]|
    ensures a == b <==> forall i, j :: 0 <= i < |a| && 0 <= j < |a[i]| ==> a[i][j] == b[i][j]
  {
    if forall i, j :: 0 <= i < |a| && 0 <= j < |a[i]| ==> a[i][j] == b[i][j] {
      forall i | 0 <= i < |a| ensures a[i] == b[i] {}
    }
  }

  /** A value of a normalized document is fixed by a second normalization unless it slips, which a short text never does. */
  lemma DocumentValueTwice(
      d: SourceDocument, finite: Numbering, block: Database, first: seq<Column>, second: seq<Column>, i: nat, j: nat)
    requires Fits(d) && block == Normalize(d.block) && first == Columns(KeptProperties(d)) && IsFinite(finite)
    requires NamesStay(first, second, block.properties)
    requires i < |block.views| && j < |block.views[i].filters|
    ensures i < |DocumentValues(d, finite)| && j < |DocumentValues(d, finite)[i]|
    ensures var id := block.views[i].filters[j].propertyId;
            var value := DocumentValues(d, finite)[i][j];
      && (ValueFor(second, id, finite, value) == value <==> !FilterSlips(block.properties, id, value))
      && (FilterSlips(block.properties, id, value) ==> SomeLongText(d))
  {
    var cell := DocumentValuesCome(d, finite, first, block, DocumentValues(d, finite), i, j);
    FilterValueTwice(first, second, block.properties, finite, block.views[i].filters[j].propertyId, cell);
    if cell.Str? && |cell.text| > TEXT_LENGTH {
      var m :| 0 <= m < |d.filterValues[i]| && d.filterValues[i][m] == cell;
      assert IsLongText(d.filterValues[i][m]);
    }
  }

  predicate IsLongText(cell: Cell) {
    cell.Str? && |cell.text| > TEXT_LENGTH
  }

  /** Some stored filter value is a text beyond the limit. */
  predicate SomeLongText(d: SourceDocument) {
    exists i, j :: 0 <= i < |d.filterValues| && 0 <= j < |d.filterValues[i]| && IsLongText(d.filterValues[i][j])
  }

  /** The filter values of a normalized document are fixed exactly when none slips. */
  lemma DocumentValuesTwice(d: SourceDocument, finite: Numbering, once: Document, first: seq<Column>, second: seq<Column>)
    requires Fits(d) && IsFinite(finite)
    requires once.block == Normalize(d.block) && once.filterValues == DocumentValues(d, finite)
    requires Closed(once.block) && Clean(once.block)
    requires first == Columns(KeptProperties(d)) && second == Columns(PropertySources(once.block.properties))
    requires NamesStay(first, second, once.block.properties)
    ensures Fits(StoredDocument(once))
    ensures DocumentValues(StoredDocument(once), finite) == once.filterValues <==> !SomeFilterSlips(once)
    ensures SomeFilterSlips(once) ==> SomeLongText(d)
  {
    ValuesFit(d, finite, once.block, once.filterValues);
    DocumentValuesAgain(once, finite, second);
    var again := DocumentValues(StoredDocument(once), finite);
    ValuesSlip(d, finite, once, first, second, again);
    FixedExactly(once.block, once.filterValues, again);
    LongIfSlips(once.block, once.filterValues, SomeLongText(d));
  }

  lemma ValuesSlip(
      d: SourceDocument, finite: Numbering, once: Document, first: seq<Column>, second: seq<Column>, again: seq<seq<Cell>>)
    requires Fits(d) && IsFinite(finite)
    requires once.block == Normalize(d.block) && once.filterValues == DocumentValues(d, finite)
    requires first == Columns(KeptProperties(d)) && NamesStay(first, second, once.block.properties)
    requires ValuesAre(once, finite, second, again)
    ensures forall i, j :: 0 <= i < |once.filterValues| && 0 <= j < |once.filterValues[i]| ==>
      && (again[i][j] == once.filterValues[i][j] <==> !SlipsAt(once.block, once.filterValues, i, j))
      && (SlipsAt(once.block, once.filterValues, i, j) ==> SomeLongText(d))
  {
    forall i, j | 0 <= i < |once.filterValues| && 0 <= j < |once.filterValues[i]|
      ensures again[i][j] == once.filterValues[i][j] <==> !SlipsAt(once.block, once.filterValues, i, j)
      ensures SlipsAt(once.block, once.filterValues, i, j) ==> SomeLongText(d)
    {
      DocumentValueTwice(d, finite, once.block, first, second, i, j);
    }
  }

  lemma FixedExactly(block: Database, values: seq<seq<Cell>>, again: seq<seq<Cell>>)
    requires |again| == |values| && forall i :: 0 <= i < |values| ==> |again[i]| == |values[i]|
    requires forall i, j :: 0 <= i < |values| && 0 <= j < |values[i]| ==>
      (again[i][j] == values[i][j] <==> !SlipsAt(block, values, i, j))
    ensures again == values <==> !exists i, j :: SlipsAt(block, values, i, j)
  {
    SameEntries(again, values);
    if i, j :| SlipsAt(block, values, i, j) {
      assert again[i][j] != values[i][j];
    }
  }

  lemma LongIfSlips(block: Database, values: seq<seq<Cell>>, long: bool)
    requires forall i, j :: 0 <= i < |values| && 0 <= j < |values[i]| ==> SlipsAt(block, values, i, j) ==> long
    ensures (exists i, j :: SlipsAt(block, values, i, j)) ==> long
  {
    if i, j :| SlipsAt(block, values, i, j) {
      assert values[i][j] == values[i][j];
    }
  }

  lemma DocumentRowsTwice(d: SourceDocument, number: Numbering, finite: Numbering, once: Document)
    requires Fits(d) && SpaceFreeDocument(d) && forall c :: number(number(c)) == number(c)
    requires once == NormalizeDocument(d, number, finite)
    ensures NormalRows(StoredRows(once.rows), Columns(PropertySources(once.block.properties)), number) == once.rows
  {
    var sources := KeptProperties(d);
    var first, second := Columns(sources), Columns(PropertySources(NormalProperties(sources)));
    BlockRowsReadBack(d.block, sources, first, second, number);
    NormalRowsAreFixed(d.rows, first, second, number);
  }

  /**
   Without whitespace in stored ids, normalizing a normalized document changes nothing, neither its properties and views nor
   its rows, their ids and their cells, if and only if none of its filter values is no option and yet trims and cuts to one.
   */
  lemma DocumentIsIdempotentExactly(d: SourceDocument, number: Numbering, finite: Numbering, once: Document)
    requires Fits(d) && SpaceFreeDocument(d) && IsFinite(finite) && forall c :: number(number(c)) == number(c)
    requires once == NormalizeDocument(d, number, finite)
    ensures Fits(StoredDocument(once))
    ensures NormalizeDocument(StoredDocument(once), number, finite) == once <==> !SomeFilterSlips(once)
    ensures SomeFilterSlips(once) ==> SomeLongText(d)
  {
    var sources := KeptProperties(d);
    var properties := once.block.properties;
    NormalizedIsClosed(d.block);
    SpaceFreeIsClean(d.block);
    NormalizationIsIdempotent(d.block);
    BlockIsClosed(d.block, sources, properties);
    ColumnNamesStay(sources, properties, Columns(sources), Columns(PropertySources(properties)));
    DocumentValuesTwice(d, finite, once, Columns(sources), Columns(PropertySources(properties)));
    DocumentRowsTwice(d, number, finite, once);
    StoredNormalizes(once, number, finite);
  }

  lemma StoredNormalizes(once: Document, number: Numbering, finite: Numbering)
    requires Fits(StoredDocument(once)) && |once.block.properties| <= MAX_PROPERTIES
    ensures NormalizeDocument(StoredDocument(once), number, finite)
         == Document(Normalize(Stored(once.block)), DocumentValues(StoredDocument(once), finite),
                     NormalRows(StoredRows(once.rows), Columns(PropertySources(once.block.properties)), number))
  {
  }

  /** In particular, normalizing twice is normalizing once where no filter's text is longer than the limit. */
  lemma ShortFiltersAreIdempotent(d: SourceDocument, number: Numbering, finite: Numbering, once: Document)
    requires Fits(d) && SpaceFreeDocument(d) && IsFinite(finite) && forall c :: number(number(c)) == number(c)
    requires once == NormalizeDocument(d, number, finite) && !SomeLongText(d)
    ensures Fits(StoredDocument(once)) && NormalizeDocument(StoredDocument(once), number, finite) == once
  {
    DocumentIsIdempotentExactly(d, number, finite, once);
  }

  // ----- what a normalized document promises -----

  /** Besides the block: row ids are unique, each row has one cell for each property, and each filter one value. */
  ghost predicate ClosedDocument(d: Document) {
    && Closed(d.block)
    && |d.rows| <= MAX_ROWS && (forall i, j :: 0 <= i < j < |d.rows| ==> d.rows[i].id != d.rows[j].id)
    && (forall i :: 0 <= i < |d.rows| ==> HasCells(d.rows[i], d.block.properties))
    && Fits(StoredDocument(d))
  }

  ghost predicate HasCells(row: DataRow, properties: seq<Property>) {
    forall k :: k in row.values <==> k in PropertyIds(properties)
  }

  lemma RowHasCells(columns: seq<Column>, properties: seq<Property>, number: Numbering, id: Id, values: Row)
    requires |columns| == |properties| && forall i :: 0 <= i < |properties| ==> columns[i].property == properties[i]
    requires DistinctColumns(columns)
    ensures HasCells(DataRow(id, RowOf(columns, number, values)), properties)
  {
    RowHolds(columns, number, values);
    forall k ensures k in RowOf(columns, number, values) <==> k in PropertyIds(properties) {
      if k in RowOf(columns, number, values) {
        var i :| 0 <= i < |columns| && columns[i].property.id == k;
        assert PropertyIds(properties)[i] == k;
      }
      if k in PropertyIds(properties) {
        var i :| 0 <= i < |properties| && PropertyIds(properties)[i] == k;
        assert columns[i].property.id == k;
      }
    }
  }

  lemma RowsHaveCells(
      rows: seq<SourceRow>, columns: seq<Column>, properties: seq<Property>, number: Numbering, normal: seq<DataRow>)
    requires |columns| == |properties| && forall i :: 0 <= i < |properties| ==> columns[i].property == properties[i]
    requires DistinctColumns(columns) && normal == NormalRows(rows, columns, number)
    ensures |normal| <= MAX_ROWS && forall i, j :: 0 <= i < j < |normal| ==> normal[i].id != normal[j].id
    ensures forall i :: 0 <= i < |normal| ==> HasCells(normal[i], properties)
  {
    var kept := Take(rows, MAX_ROWS);
    CanonicalIsDistinct(RowIds(kept), RowFallback());
    forall i | 0 <= i < |normal| ensures HasCells(normal[i], properties) {
      RowHasCells(columns, properties, number, normal[i].id, kept[i].values);
    }
  }

  lemma KeptColumns(sources: seq<SourceProperty>, properties: seq<Property>, columns: seq<Column>)
    requires |sources| <= MAX_PROPERTIES && properties == NormalProperties(sources) && columns == Columns(sources)
    ensures |columns| == |properties| && DistinctColumns(columns)
    ensures forall i :: 0 <= i < |properties| ==> columns[i].property == properties[i]
  {
    CellsReachOneProperty(sources);
    forall i | 0 <= i < |properties| ensures columns[i].property == properties[i] {
      ColumnIs(sources, properties, columns, i);
    }
  }

  /** A normalized document is closed, whatever was stored. */
  lemma DocumentIsClosed(d: SourceDocument, number: Numbering, finite: Numbering, once: Document)
    requires Fits(d) && once == NormalizeDocument(d, number, finite)
    ensures ClosedDocument(once)
  {
    NormalizedIsClosed(d.block);
    NormalizedFits(d, number, finite, once);
    KeptColumns(KeptProperties(d), once.block.properties, Columns(KeptProperties(d)));
    RowsHaveCells(d.rows, Columns(KeptProperties(d)), once.block.properties, number, once.rows);
  }

  // ----- a value that slips -----

  lemma {:induction false} PaddedTrims(pad: string, id: Id)
    requires IsStable(id) && forall i :: 0 <= i < |pad| ==> pad[i] == ' '
    ensures Trim(pad + id) == id
  {
    PaddedStarts(pad, id);
    assert TrimEnd(id) == id;
  }

  lemma {:induction false} PaddedStarts(pad: string, id: Id)
    requires id != "" && !IsSpace(id[0]) && forall i :: 0 <= i < |pad| ==> pad[i] == ' '
    ensures TrimStart(pad + id) == id
  {
    if pad == "" {
      assert pad + id == id;
    } else {
      assert (pad + id)[1..] == pad[1..] + id;
      PaddedStarts(pad[1..], id);
    }
  }

  /** Every text beyond the limit that names no option slips if what the limit leaves of it names one. */
  lemma CutTextSlips(p: Property, means: Resolver, finite: Numbering, text: string, short: string)
    requires HasOptions(p.kind) && NamesMeanExactly(p, means) && AllClean(p.options)
    requires |text| > TEXT_LENGTH && short == text[..TEXT_LENGTH]
    requires SafeId(Some(text), "") !in p.options && SafeId(Some(short), "") in p.options
    ensures var once := NormalValue(p, means, finite, Str(text));
      once == Str(short) && Slips(p, once) && NormalValue(p, means, finite, once) == Str(SafeId(Some(short), "")) != once
  {
    if short in p.options { CleanNamesThemselves(short); }
  }

  /** For one, the limit cuts an indented "todox" down to an indented "todo". */
  lemma IndentedTextSlips(
      p: Property, means: Resolver, finite: Numbering, pad: string, text: string, short: string)
    requires p.kind == Select && p.options == ["todo"] && NamesMeanExactly(p, means)
    requires |pad| == TEXT_LENGTH - 4 && forall i :: 0 <= i < |pad| ==> pad[i] == ' '
    requires text == pad + "todox" && short == pad + "todo"
    ensures NormalValue(p, means, finite, Str(text)) == Str(short)
    ensures NormalValue(p, means, finite, Str(short)) == Str("todo")
  {
    IndentedNames(pad, text, short);
    TodoIsClean();
    CutTextSlips(p, means, finite, text, short);
  }

  lemma IndentedNames(pad: string, text: string, short: string)
    requires |pad| == TEXT_LENGTH - 4 && forall i :: 0 <= i < |pad| ==> pad[i] == ' '
    requires text == pad + "todox" && short == pad + "todo"
    ensures SafeId(Some(text), "") == "todox" && SafeId(Some(short), "") == "todo" && short == text[..TEXT_LENGTH]
  {
    var id, longer := TodoIsStable();
    NameOf(pad, id, short);
    NameOf(pad, longer, text);
    assert text == short + "x";
  }

  lemma TodoIsStable() returns (id: Id, longer: Id)
    ensures id == "todo" && IsStable(id) && longer == "todox" && IsStable(longer)
  {
    id, longer := "todo", "todox";
  }

  lemma TodoIsClean()
    ensures AllClean(["todo"])
  {
  }

  lemma NameOf(pad: string, id: Id, text: string)
    requires IsStable(id) && text == pad + id && forall i :: 0 <= i < |pad| ==> pad[i] == ' '
    ensures SafeId(Some(text), "") == id
  {
    PaddedTrims(pad, id);
  }
}
