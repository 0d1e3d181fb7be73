/**
 The cells of a database block: which stored cell reaches which property, what its value becomes, and that a second
 normalization reads every cell back as it is.
 */
module DatabaseCells {
  import opened DatabaseAliases
  import opened DatabaseIds
  import opened DatabaseIdempotence
  import opened DatabaseNormal
  import opened Options

  const TEXT_LENGTH: nat := 2000
  const DATE_LENGTH: nat := 32

  /** A stored value; what is no string inside an array is nothing. `Other` numbers everything else. */
  datatype Cell = Undefined | Str(text: string) | Array(items: seq<Option<string>>) | Flag(value: bool) | Other(code: int)

  type Row = map<string, Cell>

  /** How a value becomes a finite number or nothing. */
  type Numbering = Cell -> Cell

  // ----- reading a cell -----

  /** The first of these keys under which the row holds something. */
  function FirstPresent(values: Row, keys: seq<string>): (r: Option<string>)
    ensures r.Some? ==> r.value in keys && r.value in values
    ensures r.None? <==> forall k :: k in keys ==> k !in values
  {
    if keys == [] then None
    else if keys[0] in values then Some(keys[0])
    else FirstPresent(values, keys[1..])
  }

  function ReadCell(values: Row, keys: seq<string>): Cell {
    match FirstPresent(values, keys)
    case None => Undefined
    case Some(key) => values[key]
  }

  /** The second loop of `readSourcePropertyValue`. */
  method ReadSourcePropertyValue(values: Row, keys: seq<string>) returns (cell: Cell)
    ensures cell == ReadCell(values, keys)
  {
    for i := 0 to |keys|
      invariant FirstPresent(values, keys) == FirstPresent(values, keys[i..])
    {
      if keys[i] in values {
        return values[keys[i]];
      }
    }
    cell := Undefined;
  }

  // ----- what a value becomes -----

  function Shortened(cell: Cell, limit: nat): Cell {
    Str(if !cell.Str? then "" else if |cell.text| <= limit then cell.text else cell.text[..limit])
  }

  /** Known options, each once, in order. */
  function Chosen(items: seq<Option<string>>, means: Resolver, options: seq<Id>, seen: set<Id>): (r: seq<Id>)
    ensures forall i :: 0 <= i < |r| ==> r[i] in options && r[i] !in seen
  {
    if items == [] then []
    else if items[0].None? then Chosen(items[1..], means, options, seen)
    else
      var id := means(items[0]);
      if id in seen then Chosen(items[1..], means, options, seen)
      else (if id in options then [id] else []) + Chosen(items[1..], means, options, seen + {id})
  }

  /** `normalizeReferencedPropertyValue`: options are found through the option aliases. */
  function NormalCell(p: Property, means: Resolver, number: Numbering, cell: Cell): Cell {
    match p.kind
    case Number => number(cell)
    case Checkbox => Flag(cell == Flag(true))
    case Select => Str(if cell.Str? && means(Some(cell.text)) in p.options then means(Some(cell.text)) else "")
    case MultiSelect =>
      Array(if cell.Array? then AsSources(Take(Chosen(cell.items, means, p.options, {}), MAX_OPTIONS)) else [])
    case Date => Shortened(cell, DATE_LENGTH)
    case _ => Shortened(cell, TEXT_LENGTH)
  }

  // ----- rows over columns -----

  /** A property, the keys under which a row may hold its value, and what its option references mean. */
  datatype Column = Column(property: Property, keys: seq<string>, means: Resolver)

  function CellIn(c: Column, number: Numbering, values: Row): Cell {
    NormalCell(c.property, c.means, number, ReadCell(values, c.keys))
  }

  /** A normalized row: one cell for each property, in their order. */
  function RowOf(columns: seq<Column>, number: Numbering, values: Row): Row
    decreases |columns|
  {
    if columns == [] then map[]
    else
      var last := columns[|columns| - 1];
      RowOf(columns[..|columns| - 1], number, values)[last.property.id := CellIn(last, number, values)]
  }

  ghost predicate DistinctColumns(columns: seq<Column>) {
    forall i, j :: 0 <= i < j < |columns| ==> columns[i].property.id != columns[j].property.id
  }

  ghost predicate HasColumn(columns: seq<Column>, k: string) {
    exists i :: 0 <= i < |columns| && columns[i].property.id == k
  }

  lemma HasColumnFront(columns: seq<Column>, k: string)
    requires columns != []
    ensures HasColumn(columns, k) <==> HasColumn(columns[..|columns| - 1], k) || columns[|columns| - 1].property.id == k
  {
    var front := columns[..|columns| - 1];
    if HasColumn(front, k) {
      var i :| 0 <= i < |front| && front[i].property.id == k;
      assert columns[i] == front[i];
    }
    if HasColumn(columns, k) {
      var i :| 0 <= i < |columns| && columns[i].property.id == k;
      assert i < |front| ==> front[i] == columns[i];
    }
  }

  lemma {:induction false} RowHasColumns(columns: seq<Column>, number: Numbering, values: Row, k: string)
    requires k in RowOf(columns, number, values)
    ensures HasColumn(columns, k)
    decreases |columns|
  {
    HasColumnFront(columns, k);
    if k != columns[|columns| - 1].property.id { RowHasColumns(columns[..|columns| - 1], number, values, k); }
  }

  lemma {:induction false} RowHoldsCell(columns: seq<Column>, number: Numbering, values: Row, i: nat)
    requires DistinctColumns(columns) && i < |columns|
    ensures columns[i].property.id in RowOf(columns, number, values)
    ensures RowOf(columns, number, values)[columns[i].property.id] == CellIn(columns[i], number, values)
    decreases |columns|
  {
    if i < |columns| - 1 { RowHoldsCell(columns[..|columns| - 1], number, values, i); }
  }

  lemma RowHolds(columns: seq<Column>, number: Numbering, values: Row)
    requires DistinctColumns(columns)
    ensures forall k :: k in RowOf(columns, number, values) ==> HasColumn(columns, k)
    ensures forall i :: 0 <= i < |columns| ==>
      && columns[i].property.id in RowOf(columns, number, values)
      && RowOf(columns, number, values)[columns[i].property.id] == CellIn(columns[i], number, values)
  {
    forall k | k in RowOf(columns, number, values) ensures HasColumn(columns, k) {
      RowHasColumns(columns, number, values, k);
    }
    forall i | 0 <= i < |columns|
      ensures columns[i].property.id in RowOf(columns, number, values)
      ensures RowOf(columns, number, values)[columns[i].property.id] == CellIn(columns[i], number, values)
    {
      RowHoldsCell(columns, number, values, i);
    }
  }

  /** No key belongs to two columns. */
  ghost predicate KeysApart(columns: seq<Column>) {
    forall i, j, k :: 0 <= i < j < |columns| && k in columns[i].keys ==> k !in columns[j].keys
  }

  /**
   A stored cell that a property claims survives in the normalized row under that property's id, unless an earlier key of
   the same property holds something too; and no other property claims it.
   */
  lemma ClaimedCellSurvives(columns: seq<Column>, number: Numbering, values: Row, i: nat, key: string)
    requires DistinctColumns(columns) && KeysApart(columns) && i < |columns|
    requires FirstPresent(values, columns[i].keys) == Some(key)
    ensures var p := columns[i].property;
      && p.id in RowOf(columns, number, values)
      && RowOf(columns, number, values)[p.id] == NormalCell(p, columns[i].means, number, values[key])
    ensures forall j :: 0 <= j < |columns| && j != i ==> key !in columns[j].keys
  {
    RowHolds(columns, number, values);
  }

  // ----- a second normalization -----

  /** Ids that mean themselves are chosen as they are. */
  lemma {:induction false} ChosenStays(ids: seq<Id>, means: Resolver, options: seq<Id>, seen: set<Id>)
    requires Distinct(ids)
    requires forall i :: 0 <= i < |ids| ==> ids[i] in options && ids[i] !in seen && means(Some(ids[i])) == ids[i]
    ensures Chosen(AsSources(ids), means, options, seen) == ids
    decreases |ids|
  {
    if ids != [] {
      assert AsSources(ids)[1..] == AsSources(ids[1..]);
      ChosenStays(ids[1..], means, options, seen + {ids[0]});
    }
  }

  lemma {:induction false} ChosenIsDistinct(items: seq<Option<string>>, means: Resolver, options: seq<Id>, seen: set<Id>)
    ensures Distinct(Chosen(items, means, options, seen))
    decreases |items|
  {
    if items != [] {
      ChosenIsDistinct(items[1..], means, options, seen);
      if items[0].Some? { ChosenIsDistinct(items[1..], means, options, seen + {means(items[0])}); }
    }
  }

  /** A normalized cell is normalized to itself, whatever its references meant at first. */
  lemma CellIsFixed(p: Property, first: Resolver, second: Resolver, number: Numbering, cell: Cell)
    requires "" !in p.options && forall id :: id in p.options ==> second(Some(id)) == id
    requires second(Some("")) == "" && number(number(cell)) == number(cell)
    ensures var once := NormalCell(p, first, number, cell); NormalCell(p, second, number, once) == once
  {
    if p.kind == MultiSelect && cell.Array? {
      var ids := Take(Chosen(cell.items, first, p.options, {}), MAX_OPTIONS);
      ChosenIsDistinct(cell.items, first, p.options, {});
      ChosenStays(ids, second, p.options, {});
    }
  }

  /** The column of a stored, normalized property: its key is its id, and its options mean themselves. */
  ghost predicate ReadsBack(c: Column) {
    && (forall k :: k in c.keys <==> k == c.property.id)
    && "" !in c.property.options && c.means(Some("")) == ""
    && forall id :: id in c.property.options ==> c.means(Some(id)) == id
  }

  lemma ReadsOwnCell(values: Row, keys: seq<string>, id: string)
    requires id in values && forall k :: k in keys <==> k == id
    ensures ReadCell(values, keys) == values[id]
  {
  }

  lemma {:induction false} RowIsFixed(once: seq<Column>, again: seq<Column>, number: Numbering, values: Row)
    requires DistinctColumns(once) && |again| == |once| && forall c :: number(number(c)) == number(c)
    requires forall i :: 0 <= i < |once| ==> again[i].property == once[i].property && ReadsBack(again[i])
    ensures RowOf(again, number, RowOf(once, number, values)) == RowOf(once, number, values)
  {
    var row := RowOf(once, number, values);
    RowHolds(once, number, values);
    RowHolds(again, number, row);
    forall i | 0 <= i < |once| ensures CellIn(again[i], number, row) == row[once[i].property.id] {
      ReadsOwnCell(row, again[i].keys, once[i].property.id);
      CellIsFixed(once[i].property, once[i].means, again[i].means, number, ReadCell(values, once[i].keys));
    }
    SameRows(once, again, number, row, RowOf(again, number, row));
  }

  /** Two rows with the same cells for the same columns are one row. */
  lemma SameRows(once: seq<Column>, again: seq<Column>, number: Numbering, a: Row, b: Row)
    requires |again| == |once| && forall i :: 0 <= i < |once| ==> again[i].property == once[i].property
    requires forall k :: k in a ==> HasColumn(once, k)
    requires forall k :: k in b ==> HasColumn(again, k)
    requires forall i :: 0 <= i < |once| ==>
      once[i].property.id in a && once[i].property.id in b && a[once[i].property.id] == b[once[i].property.id]
    ensures b == a
  {
    assert a.Keys == b.Keys;
  }

  // ----- the columns of a block -----

  function Descriptors(sources: seq<SourceProperty>): (items: seq<Item>)
    ensures |items| == |NormalProperties(sources)|
  {
    WithAdded(NormalProperties(sources), PropertyItems(sources))
  }

  function OptionAliases(id: Id, kind: Kind, options: seq<Option<string>>): Aliases {
    if !HasOptions(kind) then NO_ALIASES
    else
      var items := Items(Take(options, MAX_OPTIONS), OptionFallback(id));
      WithNormalized(Owned(items), items)
  }

  /** What a property's option references mean; an added title has none. */
  function OptionMeaning(p: Property, sources: seq<SourceProperty>, i: int): Resolver
    requires i < |sources|
  {
    Meaning(if i < 0 then NO_ALIASES else OptionAliases(p.id, p.kind, sources[i].options))
  }

  /** The i-th property as a column; properties without a source, an added title, stand before the others. */
  function ColumnAt(
      properties: seq<Property>, items: seq<Item>, a: Aliases, sources: seq<SourceProperty>, i: nat): Column
    requires i < |properties| == |items|
  {
    Column(properties[i], ValueKeys(items[i], a), OptionMeaning(properties[i], sources, i - (|properties| - |sources|)))
  }

  function ColumnsUpTo(
      properties: seq<Property>, items: seq<Item>, a: Aliases, sources: seq<SourceProperty>, n: nat)
    : (columns: seq<Column>)
    requires n <= |properties| == |items|
    ensures |columns| == n && forall i :: 0 <= i < n ==> columns[i] == ColumnAt(properties, items, a, sources, i)
  {
    if n == 0 then []
    else ColumnsUpTo(properties, items, a, sources, n - 1) + [ColumnAt(properties, items, a, sources, n - 1)]
  }

  function Columns(sources: seq<SourceProperty>): (columns: seq<Column>)
    ensures |columns| == |NormalProperties(sources)|
  {
    ColumnsUpTo(NormalProperties(sources), Descriptors(sources), PropertyAliases(sources), sources,
                |NormalProperties(sources)|)
  }

  lemma ListedDescriptorAt(sources: seq<SourceProperty>, i: nat)
    requires i < |sources|
    ensures PropertyItems(sources)[i].canonical == ListedProperties(sources)[i].id
  {
    ItemAt(SourceIds(sources), PropertyFallback(), i);
    ListedIds(sources);
    assert PropertyIds(ListedProperties(sources))[i] == ListedProperties(sources)[i].id;
  }

  /** At most one property, an added title, stands in front of the listed ones. */
  lemma ListedOrAdded(sources: seq<SourceProperty>)
    ensures var properties := NormalProperties(sources);
      properties == ListedProperties(sources)
      || (properties != [] && properties == [properties[0]] + ListedProperties(sources))
  {
  }

  lemma AddedAt(properties: seq<Property>, listed: seq<Property>, items: seq<Item>, i: nat)
    requires |items| == |listed| && forall j :: 0 <= j < |listed| ==> items[j].canonical == listed[j].id
    requires properties == listed || (properties != [] && properties == [properties[0]] + listed)
    requires i < |properties|
    ensures |WithAdded(properties, items)| == |properties|
    ensures WithAdded(properties, items)[i].canonical == properties[i].id
  {
  }

  lemma DescriptorAt(sources: seq<SourceProperty>, i: nat)
    requires i < |NormalProperties(sources)|
    ensures Descriptors(sources)[i].canonical == NormalProperties(sources)[i].id
  {
    ListedOrAdded(sources);
    forall j | 0 <= j < |sources| ensures PropertyItems(sources)[j].canonical == ListedProperties(sources)[j].id {
      ListedDescriptorAt(sources, j);
    }
    AddedAt(NormalProperties(sources), ListedProperties(sources), PropertyItems(sources), i);
  }

  /** A key of a property means that property. */
  lemma KeysMean(item: Item, a: Aliases, key: string)
    ensures key in ValueKeys(item, a) ==> Resolve(Some(key), a) == item.canonical
  {
  }

  /** The one key of an item that is its own request and means itself. */
  lemma FixedKeys(item: Item, a: Aliases)
    requires IsFixed(item) && Resolve(Some(item.canonical), a) == item.canonical
    ensures forall k :: k in ValueKeys(item, a) <==> k == item.canonical
  {
  }

  /** No stored cell reaches two properties, an added title included. */
  lemma CellsReachOneProperty(sources: seq<SourceProperty>)
    requires |sources| <= MAX_PROPERTIES
    ensures DistinctColumns(Columns(sources)) && KeysApart(Columns(sources))
  {
    PropertiesAreClosed(sources);
    var properties := NormalProperties(sources);
    var ids := PropertyIds(properties);
    forall i, j | 0 <= i < j < |properties| ensures properties[i].id != properties[j].id {
      assert ids[i] != ids[j];
    }
    forall i, j, k | 0 <= i < j < |properties| && k in Columns(sources)[i].keys ensures k !in Columns(sources)[j].keys {
      DescriptorAt(sources, i);
      DescriptorAt(sources, j);
      KeysMean(Descriptors(sources)[i], PropertyAliases(sources), k);
      KeysMean(Descriptors(sources)[j], PropertyAliases(sources), k);
    }
  }

  /** The options of a normalized property mean themselves. */
  lemma OptionsMeanThemselves(p: Property, id: Id)
    requires ClosedOptions(p) && AllClean(p.options) && (id in p.options || id == "")
    ensures Resolve(Some(id), OptionAliases(p.id, p.kind, AsSources(p.options))) == id
  {
    if HasOptions(p.kind) {
      assert Take(AsSources(p.options), MAX_OPTIONS) == AsSources(p.options);
      CleanMeanThemselves(p.options, OptionFallback(p.id), id);
    }
  }

  lemma CleanMeanThemselves(ids: seq<Id>, fallback: Fallback, id: Id)
    requires Distinct(ids) && AllClean(ids) && (id in ids || id == "")
    ensures var items := Items(AsSources(ids), fallback); Resolve(Some(id), WithNormalized(Owned(items), items)) == id
  {
    CleanIsStable(ids);
    if id in ids {
      IdsMeanThemselves(ids, fallback, id);
    } else {
      EmptyMeansNothing(ids, fallback);
    }
  }

  lemma EmptyIsNoOption(p: Property)
    requires AllClean(p.options)
    ensures "" !in p.options
  {
  }

  lemma EmptyMeansNothing(ids: seq<Id>, fallback: Fallback)
    requires Distinct(ids) && AllStable(ids) && AllClean(ids)
    ensures var items := Items(AsSources(ids), fallback); Resolve(Some(""), WithNormalized(Owned(items), items)) == ""
  {
    StoredItemsAreFixed(ids, fallback);
    var items := Items(AsSources(ids), fallback);
    OwnedOfFixed(items);
    NormalizedKeepsOthers(Owned(items), items);
    EmptyResolves(WithNormalized(Owned(items), items));
  }

  lemma EmptyResolves(a: Aliases)
    requires a.generated == map[] && forall x :: x in a.exact ==> a.exact[x] == x
    ensures Resolve(Some(""), a) == ""
  {
  }

  /** In a normalized block a property's only key is its id. */
  lemma StoredKeys(properties: seq<Property>, i: nat)
    requires ClosedProperties(properties) && CleanProperties(properties) && i < |properties|
    requires NormalProperties(PropertySources(properties)) == properties
    ensures forall k ::
      k in ValueKeys(Descriptors(PropertySources(properties))[i], PropertyAliases(PropertySources(properties))) <==>
      k == properties[i].id
  {
    var sources := PropertySources(properties);
    StoredDescriptors(properties);
    KindOfKnown(properties, properties[i].id);
    PropertyMeansItself(properties, properties[i].id);
    FixedKeys(Descriptors(sources)[i], PropertyAliases(sources));
  }

  lemma StoredDescriptors(properties: seq<Property>)
    requires ClosedProperties(properties) && CleanProperties(properties)
    requires NormalProperties(PropertySources(properties)) == properties
    ensures Fixed(Descriptors(PropertySources(properties)))
    ensures forall i :: 0 <= i < |properties| ==> Descriptors(PropertySources(properties))[i].canonical == properties[i].id
  {
    StoredIds(properties);
    DescriptorsOf(PropertySources(properties), properties, Items(AsSources(PropertyIds(properties)), PropertyFallback()));
    StoredItemsFit(properties, Descriptors(PropertySources(properties)));
  }

  lemma StoredItemsFit(properties: seq<Property>, items: seq<Item>)
    requires ClosedProperties(properties) && CleanProperties(properties)
    requires items == WithAdded(properties, Items(AsSources(PropertyIds(properties)), PropertyFallback()))
    ensures Fixed(items) && |items| == |properties|
    ensures forall i :: 0 <= i < |properties| ==> items[i].canonical == properties[i].id
  {
    NothingAdded(properties, Items(AsSources(PropertyIds(properties)), PropertyFallback()));
    CleanIsStable(PropertyIds(properties));
    StoredItemsAreFixed(PropertyIds(properties), PropertyFallback());
  }

  lemma NothingAdded(properties: seq<Property>, items: seq<Item>)
    requires |items| == |properties|
    ensures WithAdded(properties, items) == items
  {
  }

  lemma DescriptorsOf(sources: seq<SourceProperty>, properties: seq<Property>, items: seq<Item>)
    requires NormalProperties(sources) == properties && PropertyItems(sources) == items
    ensures Descriptors(sources) == WithAdded(properties, items)
  {
  }

  lemma StoredColumnReadsBack(properties: seq<Property>, i: nat)
    requires ClosedProperties(properties) && CleanProperties(properties) && i < |properties|
    requires NormalProperties(PropertySources(properties)) == properties
    ensures Columns(PropertySources(properties))[i].property == properties[i]
    ensures ReadsBack(Columns(PropertySources(properties))[i])
  {
    var p := properties[i];
    StoredKeys(properties, i);
    var means := OptionMeaning(p, PropertySources(properties), i);
    assert means == Meaning(OptionAliases(p.id, p.kind, AsSources(p.options)));
    EmptyIsNoOption(p);
    forall id | id in p.options || id == ""
      ensures Resolve(Some(id), OptionAliases(p.id, p.kind, AsSources(p.options))) == id
    {
      OptionsMeanThemselves(p, id);
    }
  }

  /**
   Without whitespace in the stored ids, normalizing a normalized row again changes nothing: every property reads its own
   cell back, and every cell is its own normal form. A number must be its own reading.
   */
  lemma RowsAreIdempotent(s: Source, number: Numbering, values: Row)
    requires SpaceFreeSource(s) && forall c :: number(number(c)) == number(c)
    ensures var sources := Take(s.properties, MAX_PROPERTIES);
            var row := RowOf(Columns(sources), number, values);
      RowOf(Columns(PropertySources(NormalProperties(sources))), number, row) == row
  {
    var sources := Take(s.properties, MAX_PROPERTIES);
    var properties := NormalProperties(sources);
    PropertiesAreClosed(sources);
    SpaceFreeIsClean(s);
    assert CleanProperties(properties);
    StoredProperties(properties);
    CellsReachOneProperty(sources);
    var again := Columns(PropertySources(properties));
    forall i | 0 <= i < |properties| ensures again[i].property == Columns(sources)[i].property && ReadsBack(again[i]) {
      StoredColumnReadsBack(properties, i);
    }
    RowIsFixed(Columns(sources), again, number, values);
  }
}
