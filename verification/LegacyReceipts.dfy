/**
 The durable recovery database shared by all tabs, and the two receipts kept
 beside each record. The migration receipt names the last legacy value that was
 imported for the key; the lineage receipt says that the record still is that
 import. Fingerprints are assumed collision free, so a receipt holds the value
 it names.

 Each event is one transaction of some tab. What a tab may have cached, read
 from localStorage or been told by a late storage event is an argument, so a
 run covers every restart, every stale cache and every repeated event.
 */
module LegacyReceipts {
  import opened Options

  type Key = string
  type Value = string

  /** Where a stored generation came from; the database itself cannot see this. */
  datatype Origin = Native | Imported

  datatype Record = Record(value: Value, origin: Origin)

  datatype Cell = Cell(record: Option<Record>, migration: Option<Value>, lineage: Option<Value>)
  {
    function Value(): Option<Value> {
      if record.Some? then Some(record.value.value) else None
    }
  }

  type Database = map<Key, Cell>

  const EMPTY_CELL := Cell(None, None, None)

  function At(db: Database, k: Key): Cell {
    if k in db then db[k] else EMPTY_CELL
  }

  /** What an initializing tab knows of a key: its caches and the legacy bytes it read. */
  datatype Observation = Observation(
    value: Option<Value>, migration: Option<Value>, lineage: Option<Value>, legacy: Value)

  datatype Event =
    | Put(key: Key, value: Value)
    | Delete(key: Key)
    | CompareAndSet(key: Key, next: Value, matched: bool)
    | CompareAndRemove(key: Key, matched: bool)
    | LegacyPut(key: Key, value: Value, previous: Option<Value>)
    | LegacyRemove(key: Key, removed: Value)
    | Migrate(observed: map<Key, Observation>)
    | Clear
    | Aborts

  // ----- single transactions -----

  /** A normal write starts a new generation: the lineage receipt goes. */
  function NativeCell(c: Cell, value: Option<Value>): Cell {
    c.(record := if value.Some? then Some(Record(value.value, Native)) else None, lineage := None)
  }

  function ImportedCell(value: Value): Cell {
    Cell(Some(Record(value, Imported)), Some(value), Some(value))
  }

  /** The predecessor named by a legacy event is what the store still holds for it. */
  predicate PredecessorMatches(c: Cell, previous: Option<Value>) {
    match previous
    case None => c.record.None?
    case Some(before) =>
      if c.record.Some? then c.record.value.value == before && c.lineage == Some(before)
      else c.migration == Some(before)
  }

  function LegacyPutCell(c: Cell, value: Value, previous: Option<Value>): Cell {
    if c.migration == Some(value) || !PredecessorMatches(c, previous) then c
    else ImportedCell(value)
  }

  function LegacyRemoveCell(c: Cell, removed: Value): Cell {
    if c.Value() == Some(removed) && c.lineage == Some(removed) then c.(record := None, lineage := None)
    else c
  }

  // ----- a migration pass -----

  datatype Plan = Skip | Bootstrap | Import

  /** What a pass decides from the tab's own caches, before any transaction. */
  function Decide(o: Observation): Plan {
    if o.value.Some? then
      if o.migration.Some? && o.lineage == o.migration && o.value == o.migration && Some(o.legacy) != o.migration
      then Import
      else if o.value == Some(o.legacy) && o.migration != Some(o.legacy) then Bootstrap
      else Skip
    else if o.migration == Some(o.legacy) then Skip
    else Import
  }

  /** The write transaction re-reads the record and both receipts. */
  predicate StillAsObserved(c: Cell, o: Observation) {
    c.Value() == o.value && c.migration == o.migration && c.lineage == o.lineage
  }

  /** All planned keys are validated in the one transaction that writes them. */
  ghost predicate MigrationValid(db: Database, observed: map<Key, Observation>) {
    forall k :: k in observed && Decide(observed[k]) != Skip ==> StillAsObserved(At(db, k), observed[k])
  }

  function MigratedCell(c: Cell, o: Observation): Cell {
    match Decide(o)
    case Skip => c
    case Bootstrap => c.(migration := Some(o.legacy))
    case Import => ImportedCell(o.legacy)
  }

  ghost function Migrated(db: Database, observed: map<Key, Observation>): Database {
    if !MigrationValid(db, observed) then db
    else (map k | k in db.Keys + observed.Keys ::
            if k in observed then MigratedCell(At(db, k), observed[k]) else At(db, k))
  }

  /** clear() keeps the migration receipts it finds in its own transaction, and nothing else. */
  function Cleared(db: Database): Database {
    map k | k in db :: db[k].(record := None, lineage := None)
  }

  ghost function Next(db: Database, e: Event): Database {
    match e
    case Put(k, v) => db[k := NativeCell(At(db, k), Some(v))]
    case Delete(k) => db[k := NativeCell(At(db, k), None)]
    case CompareAndSet(k, v, matched) =>
      if matched && At(db, k).record.Some? then db[k := NativeCell(At(db, k), Some(v))] else db
    case CompareAndRemove(k, matched) =>
      if matched && At(db, k).record.Some? then db[k := NativeCell(At(db, k), None)] else db
    case LegacyPut(k, v, previous) => db[k := LegacyPutCell(At(db, k), v, previous)]
    case LegacyRemove(k, removed) => db[k := LegacyRemoveCell(At(db, k), removed)]
    case Migrate(observed) => Migrated(db, observed)
    case Clear => Cleared(db)
    case Aborts => db
  }

  ghost function After(db: Database, run: seq<Event>): Database
    decreases |run|
  {
    if run == [] then db else After(Next(db, run[0]), run[1..])
  }

  // ----- the receipts are sound -----

  /** A lineage receipt implies that the record is the import it names, which the migration receipt names too. */
  predicate LineageSound(c: Cell) {
    c.lineage.Some? ==> c.record == Some(Record(c.lineage.value, Imported)) && c.migration == c.lineage
  }

  ghost predicate Sound(db: Database) {
    forall k :: LineageSound(At(db, k))
  }

  /** A database written by an older build has records and migration receipts, but no lineage. */
  ghost predicate WithoutLineage(db: Database) {
    forall k :: At(db, k).lineage == None
  }

  /** Every transaction changes a key by one of the cell functions. */
  lemma NextAt(db: Database, e: Event, k: Key)
    ensures At(Next(db, e), k) ==
      match e
      case Put(key, v) => if k == key then NativeCell(At(db, k), Some(v)) else At(db, k)
      case Delete(key) => if k == key then NativeCell(At(db, k), None) else At(db, k)
      case CompareAndSet(key, v, matched) =>
        if k == key && matched && At(db, k).record.Some? then NativeCell(At(db, k), Some(v)) else At(db, k)
      case CompareAndRemove(key, matched) =>
        if k == key && matched && At(db, k).record.Some? then NativeCell(At(db, k), None) else At(db, k)
      case LegacyPut(key, v, previous) => if k == key then LegacyPutCell(At(db, k), v, previous) else At(db, k)
      case LegacyRemove(key, removed) => if k == key then LegacyRemoveCell(At(db, k), removed) else At(db, k)
      case Migrate(observed) =>
        if k in observed && MigrationValid(db, observed) then MigratedCell(At(db, k), observed[k]) else At(db, k)
      case Clear => At(db, k).(record := None, lineage := None)
      case Aborts => At(db, k)
  {
  }

  lemma StepKeepsSound(db: Database, e: Event)
    requires Sound(db)
    ensures Sound(Next(db, e))
  {
    forall k
      ensures LineageSound(At(Next(db, e), k))
    {
      assert LineageSound(At(db, k));
      NextAt(db, e, k);
    }
  }

  lemma {:induction false} RunKeepsSound(db: Database, run: seq<Event>)
    requires Sound(db)
    ensures Sound(After(db, run))
    decreases |run|
  {
    if run != [] {
      StepKeepsSound(db, run[0]);
      RunKeepsSound(Next(db, run[0]), run[1..]);
    }
  }

  predicate IsLegacyStep(e: Event) {
    e.LegacyPut? || e.LegacyRemove? || e.Migrate?
  }

  /**
   ABA safety: in every run of any number of tabs, no legacy put, legacy delete
   or migration pass overwrites or removes a natively written generation, even
   when its bytes equal those the legacy event names.
   */
  lemma NativeGenerationSurvivesLegacy(db: Database, run: seq<Event>, e: Event, k: Key)
    requires WithoutLineage(db) && IsLegacyStep(e)
    ensures var before := At(After(db, run), k);
      var after := At(Next(After(db, run), e), k);
      before.record.Some? && before.record.value.origin == Native ==> after.record == before.record
  {
    RunKeepsSound(db, run);
    assert LineageSound(At(After(db, run), k));
    NextAt(After(db, run), e, k);
  }

  /** What a lineage receipt tells any tab, in every run: the current record is the import it names. */
  lemma LineageNamesTheRecord(db: Database, run: seq<Event>, k: Key)
    requires WithoutLineage(db)
    ensures var c := At(After(db, run), k);
      c.lineage.Some? ==> c.record == Some(Record(c.lineage.value, Imported)) && c.migration == c.lineage
  {
    RunKeepsSound(db, run);
    assert LineageSound(At(After(db, run), k));
  }

  /** Bytes alone would not do: the store may hold the value a delayed legacy delete names, natively written. */
  lemma EqualBytesAreNotEnough(db: Database, k: Key, a: Value, b: Value)
    requires WithoutLineage(db) && At(db, k).record == None && At(db, k).migration != Some(a)
    ensures var late := After(db, [LegacyPut(k, a, None), Put(k, b), Put(k, a)]);
      && At(late, k).Value() == Some(a) && At(late, k).migration == Some(a)
      && At(Next(late, LegacyRemove(k, a)), k).Value() == Some(a)
  {
    var d1 := Next(db, LegacyPut(k, a, None));
    var d2 := Next(d1, Put(k, b));
    var d3 := Next(d2, Put(k, a));
    assert After(d2, [Put(k, a)]) == d3;
    assert [Put(k, b), Put(k, a)][1..] == [Put(k, a)];
    assert After(d1, [Put(k, b), Put(k, a)]) == d3;
    assert [LegacyPut(k, a, None), Put(k, b), Put(k, a)][1..] == [Put(k, b), Put(k, a)];
  }

  // ----- no resurrection -----

  /** The step imports the legacy value for the key. */
  ghost predicate Imports(db: Database, e: Event, k: Key, v: Value) {
    IsLegacyStep(e) && At(Next(db, e), k) != At(db, k) && At(Next(db, e), k).record == Some(Record(v, Imported))
  }

  /** An import never repeats the value the migration receipt names, and renames the receipt. */
  lemma ImportAdvancesReceipt(db: Database, e: Event, k: Key, v: Value)
    requires Sound(db) && Imports(db, e, k, v)
    ensures At(db, k).migration != Some(v) && At(Next(db, e), k).migration == Some(v)
  {
    assert LineageSound(At(db, k));
    NextAt(db, e, k);
  }

  /** Nothing erases a migration receipt; only a legacy step renames it. */
  lemma ReceiptIsKept(db: Database, e: Event, k: Key)
    requires Sound(db)
    ensures At(db, k).migration.Some? ==> At(Next(db, e), k).migration.Some?
    ensures At(Next(db, e), k).migration != At(db, k).migration ==> IsLegacyStep(e)
  {
    assert LineageSound(At(db, k));
    NextAt(db, e, k);
  }

  /** Throughout the run the receipt of the key names the value. */
  ghost predicate ReceiptStays(db: Database, run: seq<Event>, k: Key, v: Value)
    decreases |run|
  {
    At(db, k).migration == Some(v) && (run != [] ==> ReceiptStays(Next(db, run[0]), run[1..], k, v))
  }

  /**
   No resurrection: between two imports of the same value the migration receipt
   has named another one, so some different legacy value was seen in between.
   */
  lemma {:induction false} NoSecondImport(db: Database, run: seq<Event>, e: Event, k: Key, v: Value)
    requires Sound(db) && ReceiptStays(db, run, k, v)
    ensures !Imports(After(db, run), e, k, v)
    decreases |run|
  {
    if run == [] {
      if Imports(db, e, k, v) { ImportAdvancesReceipt(db, e, k, v); }
    } else {
      StepKeepsSound(db, run[0]);
      NoSecondImport(Next(db, run[0]), run[1..], e, k, v);
    }
  }

  /** The step writes nothing for the key unless it is legacy work that only knows the one legacy value. */
  ghost predicate OnlyOldLegacy(e: Event, k: Key, v: Value) {
    match e
    case Put(key, _) => key != k
    case LegacyPut(key, value, _) => key == k ==> value == v
    case Migrate(observed) => k in observed ==> observed[k].legacy == v
    case _ => true
  }

  /**
   A value that was imported and then removed or cleared stays away: while
   localStorage keeps only that old value and no tab writes the key, no restart,
   migration pass, clear or repeated storage event brings the record back.
   */
  lemma {:induction false} RemovedImportStaysAway(db: Database, run: seq<Event>, k: Key, v: Value)
    requires Sound(db) && At(db, k).record == None && At(db, k).migration == Some(v)
    requires forall i :: 0 <= i < |run| ==> OnlyOldLegacy(run[i], k, v)
    ensures At(After(db, run), k).record == None && At(After(db, run), k).migration == Some(v)
    decreases |run|
  {
    if run != [] {
      var e := run[0];
      assert LineageSound(At(db, k));
      assert OnlyOldLegacy(e, k, v);
      NextAt(db, e, k);
      StepKeepsSound(db, e);
      RemovedImportStaysAway(Next(db, e), run[1..], k, v);
    }
  }

  // ----- the store, updated in place -----

  /** The object store as the tabs' transactions update it. */
  class ObjectStore {
    var cells: Database

    constructor (stored: Database)
      ensures cells == stored
    {
      cells := stored;
    }

    /** putLegacyRecord: one transaction reads the record and both receipts, then decides. */
    method PutLegacyRecord(key: Key, value: Value, previous: Option<Value>) returns (matched: bool)
      modifies this
      ensures cells == Next(old(cells), LegacyPut(key, value, previous))
      ensures matched <==> At(old(cells), key).migration != Some(value)
                           && PredecessorMatches(At(old(cells), key), previous)
      ensures matched ==> At(cells, key) == Cell(Some(Record(value, Imported)), Some(value), Some(value))
      ensures !matched ==> At(cells, key) == At(old(cells), key)
    {
      var current := At(cells, key);
      matched := false;
      if current.migration != Some(value) {
        if previous.None? {
          matched := current.record.None?;
        } else if current.record.Some? {
          matched := current.record.value.value == previous.value && current.lineage == previous;
        } else {
          matched := current.migration == previous;
        }
      }
      if matched {
        cells := cells[key := Cell(Some(Record(value, Imported)), Some(value), Some(value))];
      } else {
        cells := cells[key := current];
      }
    }

    /** removeLegacyRecord: exact bytes and the lineage receipt, in one transaction. */
    method RemoveLegacyRecord(key: Key, removed: Value) returns (matched: bool)
      modifies this
      ensures cells == Next(old(cells), LegacyRemove(key, removed))
      ensures matched <==> At(old(cells), key).Value() == Some(removed) && At(old(cells), key).lineage == Some(removed)
      ensures matched ==> At(cells, key) == Cell(None, At(old(cells), key).migration, None)
      ensures !matched ==> At(cells, key) == At(old(cells), key)
    {
      var current := At(cells, key);
      matched := current.record.Some? && current.record.value.value == removed && current.lineage == Some(removed);
      cells := cells[key := if matched then current.(record := None, lineage := None) else current];
    }
  }
}
