/**
 What each transaction of the recovery database leaves behind, told by its arguments and by what it found, and what
 that means for a legacy value over whole runs: it arrives, it follows its source, and it goes.
 */
module LegacyOutcomes {
  import opened Options
  import opened LegacyReceipts

  /** The step leaves every other key alone. */
  ghost predicate OnlyKeyChanges(before: Database, now: Database, k: Key) {
    forall other :: other != k ==> At(now, other) == At(before, other)
  }

  // ----- native work -----

  /** A native write stands in the store alone: its value, no lineage, and whatever was last imported. */
  predicate NativelyHolds(now: Cell, before: Cell, value: Option<Value>) {
    && now.Value() == value && (now.record.Some? ==> now.record.value.origin == Native)
    && now.lineage == None && now.migration == before.migration
  }

  /** Writes and removals always happen, comparisons when they match something that is stored. */
  lemma NativeWorkDoes(db: Database, e: Event)
    requires e.Put? || e.Delete? || e.CompareAndSet? || e.CompareAndRemove?
    ensures OnlyKeyChanges(db, Next(db, e), e.key)
    ensures var before := At(db, e.key);
            var now := At(Next(db, e), e.key);
            var happens := e.Put? || e.Delete? || (e.matched && before.record.Some?);
      && (happens && e.Put? ==> NativelyHolds(now, before, Some(e.value)))
      && (happens && e.CompareAndSet? ==> NativelyHolds(now, before, Some(e.next)))
      && (happens && (e.Delete? || e.CompareAndRemove?) ==> NativelyHolds(now, before, None))
      && (!happens ==> now == before)
  {
    NextAt(db, e, e.key);
    forall other | other != e.key ensures At(Next(db, e), other) == At(db, other) { NextAt(db, e, other); }
  }

  /** A clear empties the store and keeps what was last imported under each key; an aborted transaction keeps all. */
  lemma ClearDoes(db: Database, k: Key)
    ensures var now := At(Next(db, Clear), k);
      now.record == None && now.lineage == None && now.migration == At(db, k).migration
    ensures At(Next(db, Aborts), k) == At(db, k)
  {
    NextAt(db, Clear, k);
  }

  // ----- legacy puts and removals -----

  /** The record is the import of the value, and both receipts say so. */
  predicate HoldsImport(c: Cell, v: Value) {
    c.record == Some(Record(v, Imported)) && c.migration == Some(v) && c.lineage == Some(v)
  }

  /** The record is gone, and the import it was is remembered. */
  predicate RemembersImport(c: Cell, v: Value) {
    c.record == None && c.migration == Some(v)
  }

  /**
   A legacy put is taken over exactly when its value is not the one last imported and its predecessor is what the store
   has: no record for none; the same bytes under the same lineage; or no record, but the receipt of its import.
   */
  lemma LegacyPutDoes(db: Database, k: Key, v: Value, previous: Option<Value>)
    ensures OnlyKeyChanges(db, Next(db, LegacyPut(k, v, previous)), k)
    ensures var before := At(db, k);
            var now := At(Next(db, LegacyPut(k, v, previous)), k);
            var taken := before.migration != Some(v)
              && (previous == None ==> before.record == None)
              && (previous.Some? && before.record.Some? ==> before.Value() == previous == before.lineage)
              && (previous.Some? && before.record == None ==> before.migration == previous);
      && (taken ==> HoldsImport(now, v))
      && (!taken ==> now == before)
  {
    var e := LegacyPut(k, v, previous);
    NextAt(db, e, k);
    forall other | other != k ensures At(Next(db, e), other) == At(db, other) { NextAt(db, e, other); }
  }

  /** A legacy removal matches exactly the bytes it names under their own lineage; it takes both and keeps the receipt. */
  lemma LegacyRemovalDoes(db: Database, k: Key, removed: Value)
    ensures OnlyKeyChanges(db, Next(db, LegacyRemove(k, removed)), k)
    ensures var before := At(db, k);
            var now := At(Next(db, LegacyRemove(k, removed)), k);
            var matched := before.Value() == Some(removed) && before.lineage == Some(removed);
      && (matched ==> now.record == None && now.lineage == None && now.migration == before.migration)
      && (!matched ==> now == before)
  {
    var e := LegacyRemove(k, removed);
    NextAt(db, e, k);
    forall other | other != k ensures At(Next(db, e), other) == At(db, other) { NextAt(db, e, other); }
  }

  // ----- migration passes -----

  /** The tab's own view asks for work: a value never imported, an import whose source has moved on, or a missing receipt. */
  predicate NeedsWork(o: Observation) {
    if o.value == None then o.migration != Some(o.legacy)
    else
      || (o.value == o.migration == o.lineage && o.value != Some(o.legacy))
      || (o.value == Some(o.legacy) && o.migration != o.value)
  }

  /** Every key that needs work still is what the tab saw of it. */
  ghost predicate NothingMoved(db: Database, observed: map<Key, Observation>) {
    forall k :: k in observed && NeedsWork(observed[k]) ==>
      && At(db, k).Value() == observed[k].value
      && At(db, k).migration == observed[k].migration && At(db, k).lineage == observed[k].lineage
  }

  /** The pass goes through exactly then, and otherwise changes no key at all. */
  lemma PassGoesThroughExactly(db: Database, observed: map<Key, Observation>)
    ensures MigrationValid(db, observed) <==> NothingMoved(db, observed)
    ensures !NothingMoved(db, observed) ==> Next(db, Migrate(observed)) == db
  {
    if NothingMoved(db, observed) {
      forall k | k in observed && Decide(observed[k]) != Skip
        ensures StillAsObserved(At(db, k), observed[k])
      {
        assert NeedsWork(observed[k]);
      }
    }
    if MigrationValid(db, observed) {
      forall k | k in observed && NeedsWork(observed[k])
        ensures StillAsObserved(At(db, k), observed[k])
      {
        assert Decide(observed[k]) != Skip;
      }
    }
  }

  /**
   What a pass that goes through does to a key, told by the store: the legacy value is imported exactly when it needs
   to be and no record stands in its way, where only an import of an older legacy value does not. Otherwise the record
   and its lineage stay, and the receipt names the legacy value if that is what is stored.
   */
  lemma PassDoes(db: Database, observed: map<Key, Observation>, k: Key)
    requires Sound(db) && NothingMoved(db, observed)
    ensures k !in observed || !NeedsWork(observed[k]) ==> At(Next(db, Migrate(observed)), k) == At(db, k)
    ensures k in observed && NeedsWork(observed[k]) ==>
      var before := At(db, k);
      var now := At(Next(db, Migrate(observed)), k);
      var legacy := observed[k].legacy;
      if before.record == None || before.lineage.Some? then HoldsImport(now, legacy)
      else
        && now.record == before.record && now.lineage == before.lineage
        && now.migration == (if before.Value() == Some(legacy) then Some(legacy) else before.migration)
  {
    PassGoesThroughExactly(db, observed);
    NextAt(db, Migrate(observed), k);
    assert LineageSound(At(db, k));
  }

  /** A pass that has seen a key as it is. */
  ghost predicate SeesKey(db: Database, observed: map<Key, Observation>, k: Key) {
    && k in observed && At(db, k).Value() == observed[k].value
    && At(db, k).migration == observed[k].migration && At(db, k).lineage == observed[k].lineage
  }

  /**
   Completeness over every run: after a pass that goes through and has seen a key as it is, a key that had no record, or
   only an import, holds the legacy value, unless that very value was imported before and has been removed since.
   */
  lemma PassBringsLegacyIn(db: Database, run: seq<Event>, observed: map<Key, Observation>, k: Key)
    requires WithoutLineage(db)
    requires NothingMoved(After(db, run), observed) && SeesKey(After(db, run), observed, k)
    ensures var before := At(After(db, run), k);
            var now := At(Next(After(db, run), Migrate(observed)), k);
            var legacy := observed[k].legacy;
      && (before.record == None && before.migration != Some(legacy) ==> HoldsImport(now, legacy))
      && (before.record == None && before.migration == Some(legacy) ==> RemembersImport(now, legacy))
      && (before.lineage.Some? ==> HoldsImport(now, legacy))
      && (before.record.Some? && before.lineage == None ==> now.record == before.record)
  {
    RunKeepsSound(db, run);
    PassDoes(After(db, run), observed, k);
    assert LineageSound(At(After(db, run), k));
  }

  // ----- from its import to its removal -----

  /** Nothing else writes the key: legacy work on it knows only the one value. */
  ghost predicate SparesImport(e: Event, k: Key, v: Value) {
    OnlyOldLegacy(e, k, v) && !(e.CompareAndSet? && e.key == k)
  }

  /** And nothing removes it either. */
  ghost predicate LeavesImport(e: Event, k: Key, v: Value) {
    && SparesImport(e, k, v) && !e.Clear?
    && (e.Delete? || e.CompareAndRemove? || e.LegacyRemove? ==> e.key != k)
  }

  lemma ImportStepStays(db: Database, e: Event, k: Key, v: Value)
    requires HoldsImport(At(db, k), v) && SparesImport(e, k, v)
    ensures HoldsImport(At(Next(db, e), k), v) || RemembersImport(At(Next(db, e), k), v)
    ensures LeavesImport(e, k, v) ==> HoldsImport(At(Next(db, e), k), v)
  {
    NextAt(db, e, k);
  }

  lemma {:induction false} ImportStays(db: Database, run: seq<Event>, k: Key, v: Value)
    requires HoldsImport(At(db, k), v) && forall i :: 0 <= i < |run| ==> LeavesImport(run[i], k, v)
    ensures HoldsImport(At(After(db, run), k), v)
    decreases |run|
  {
    if run != [] {
      assert LeavesImport(run[0], k, v);
      ImportStepStays(db, run[0], k, v);
      ImportStays(Next(db, run[0]), run[1..], k, v);
    }
  }

  lemma {:induction false} ImportIsHeldOrRemembered(db: Database, run: seq<Event>, k: Key, v: Value)
    requires Sound(db) && (HoldsImport(At(db, k), v) || RemembersImport(At(db, k), v))
    requires forall i :: 0 <= i < |run| ==> SparesImport(run[i], k, v)
    ensures HoldsImport(At(After(db, run), k), v) || RemembersImport(At(After(db, run), k), v)
    decreases |run|
  {
    if run != [] {
      var e := run[0];
      assert SparesImport(e, k, v);
      if HoldsImport(At(db, k), v) {
        ImportStepStays(db, e, k, v);
      } else {
        RemovedImportStaysAway(db, [e], k, v);
        assert After(Next(db, e), []) == Next(db, e);
      }
      StepKeepsSound(db, e);
      ImportIsHeldOrRemembered(Next(db, e), run[1..], k, v);
    }
  }

  /**
   An import and its own removal cancel: when a legacy value has come in, and nothing else writes the key, the legacy
   removal of that value leaves no record, however many passes, repeats and clears lie between. It finds the record
   itself unless something else has removed it.
   */
  lemma ImportIsRemoved(db: Database, run: seq<Event>, k: Key, v: Value)
    requires Sound(db) && HoldsImport(At(db, k), v)
    requires forall i :: 0 <= i < |run| ==> SparesImport(run[i], k, v)
    ensures RemembersImport(At(Next(After(db, run), LegacyRemove(k, v)), k), v)
    ensures (forall i :: 0 <= i < |run| ==> LeavesImport(run[i], k, v)) ==> At(After(db, run), k).Value() == Some(v)
  {
    ImportIsHeldOrRemembered(db, run, k, v);
    LegacyRemovalDoes(After(db, run), k, v);
    if forall i :: 0 <= i < |run| ==> LeavesImport(run[i], k, v) {
      ImportStays(db, run, k, v);
    }
  }

  /** The same from the storage event that brought the value in, on a key that had neither record nor that receipt. */
  lemma LegacyRoundTrip(db: Database, run: seq<Event>, k: Key, v: Value)
    requires Sound(db) && At(db, k).record == None && At(db, k).migration != Some(v)
    requires forall i :: 0 <= i < |run| ==> SparesImport(run[i], k, v)
    ensures HoldsImport(At(Next(db, LegacyPut(k, v, None)), k), v)
    ensures RemembersImport(At(Next(After(Next(db, LegacyPut(k, v, None)), run), LegacyRemove(k, v)), k), v)
  {
    LegacyPutDoes(db, k, v, None);
    StepKeepsSound(db, LegacyPut(k, v, None));
    ImportIsRemoved(Next(db, LegacyPut(k, v, None)), run, k, v);
  }

  /** A legacy value that has come in is followed to the next one its source names, whether it is still stored or not. */
  lemma ImportIsFollowed(db: Database, run: seq<Event>, k: Key, v: Value, newer: Value)
    requires Sound(db) && HoldsImport(At(db, k), v) && newer != v
    requires forall i :: 0 <= i < |run| ==> SparesImport(run[i], k, v)
    ensures HoldsImport(At(Next(After(db, run), LegacyPut(k, newer, Some(v))), k), newer)
  {
    ImportIsHeldOrRemembered(db, run, k, v);
    LegacyPutDoes(After(db, run), k, newer, Some(v));
  }
}
