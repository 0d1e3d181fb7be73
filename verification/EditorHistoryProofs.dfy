/**
 What the undo history keeps: exact byte accounting within both limits in every
 reachable state, and undo as the inverse of redo as long as the chain of
 changes per key is unbroken.
 */
module EditorHistoryProofs {
  import opened EditorHistory
  import opened Options

  // ----- accounting -----

  /** The recorded size of an entry is that of its own contents. */
  ghost predicate Sized(c: Config, e: Entry) {
    EstimateBytes(c, e.before, e.after, e.meta, e.captureGroup) == Some(e.bytes)
  }

  ghost predicate AllSized(c: Config, entries: seq<Entry>) {
    forall i :: 0 <= i < |entries| ==> Sized(c, entries[i])
  }

  ghost predicate Accounted(c: Config, s: State) {
    && s.retained == Bytes(s.undo) + Bytes(s.redo)
    && |s.undo| + |s.redo| <= c.entryLimit
    && s.retained <= c.byteLimit
    && AllSized(c, s.undo) && AllSized(c, s.redo)
  }

  lemma {:induction false} TrimmedFits(c: Config, undo: seq<Entry>, retained: int)
    requires retained == Bytes(undo) && AllSized(c, undo)
    ensures var (kept, bytes) := Trimmed(c, undo, retained);
      && bytes == Bytes(kept) <= c.byteLimit && |kept| <= c.entryLimit && AllSized(c, kept)
      && |kept| <= |undo| && kept == undo[|undo| - |kept|..]
    decreases |undo|
  {
    if undo != [] && (|undo| > c.entryLimit || retained > c.byteLimit) {
      TrimmedFits(c, undo[1..], retained - undo[0].bytes);
    }
  }

  /** Trimming is minimal: keeping one entry more would break a limit. */
  lemma {:induction false} TrimmedIsMinimal(c: Config, undo: seq<Entry>, retained: int)
    requires retained == Bytes(undo)
    ensures var (kept, bytes) := Trimmed(c, undo, retained);
      |kept| < |undo| ==> |kept| + 1 > c.entryLimit || Bytes(undo[|undo| - |kept| - 1..]) > c.byteLimit
    ensures |Trimmed(c, undo, retained).0| <= |undo|
    decreases |undo|
  {
    if undo != [] && (|undo| > c.entryLimit || retained > c.byteLimit) {
      var (kept, bytes) := Trimmed(c, undo[1..], retained - undo[0].bytes);
      TrimmedIsMinimal(c, undo[1..], retained - undo[0].bytes);
      if |kept| < |undo[1..]| {
        assert undo[1..][|undo[1..]| - |kept| - 1..] == undo[|undo| - |kept| - 1..];
      } else {
        assert undo[|undo| - |kept| - 1..] == undo;
      }
    }
  }

  lemma WrittenIsSized(c: Config, s: State, change: Change)
    requires change.key in s.baselines && !Oversized(c, s, change) && AllSized(c, s.undo)
    ensures AllSized(c, Written(c, s, change))
  {
  }

  lemma RecordedKeepsAccounts(c: Config, s: State, change: Change)
    requires Accounted(c, s)
    ensures Accounted(c, Recorded(c, s, change))
  {
    if Changes(s, change) && !Oversized(c, s, change) {
      WrittenIsSized(c, s, change);
      TrimmedFits(c, Written(c, s, change), Bytes(Written(c, s, change)));
    }
  }

  lemma BytesOfFront(entries: seq<Entry>)
    requires entries != []
    ensures Bytes(entries) == Bytes(Front(entries)) + Last(entries).bytes
  {
    BytesOfPush(Front(entries), Last(entries));
    assert entries == Front(entries) + [Last(entries)];
  }

  lemma CommittedKeepsAccounts(c: Config, s: State, direction: Direction)
    requires Accounted(c, s)
    ensures Accounted(c, Committed(s, direction))
  {
    if s.undo != [] && direction == Undo {
      BytesOfFront(s.undo);
      BytesOfPush(s.redo, Last(s.undo));
    }
    if s.redo != [] && direction == Redo {
      BytesOfFront(s.redo);
      BytesOfPush(s.undo, Last(s.redo));
    }
  }

  lemma DiscardedKeepsAccounts(c: Config, s: State, direction: Direction)
    requires Accounted(c, s)
    ensures Accounted(c, Discarded(s, direction))
  {
    if s.undo != [] { BytesOfFront(s.undo); }
    if s.redo != [] { BytesOfFront(s.redo); }
  }

  lemma NextKeepsAccounts(c: Config, s: State, e: Event)
    requires Accounted(c, s)
    ensures Accounted(c, Next(c, s, e))
  {
    match e
    case SetPage(page) =>
    case Clear(page) =>
    case StopCapturing =>
    case Seed(page, key, value) =>
    case Record(page, change) => RecordedKeepsAccounts(c, EnsurePage(s, page), change);
    case Commit(page, direction) => CommittedKeepsAccounts(c, EnsurePage(s, page), direction);
    case Discard(page, direction) => DiscardedKeepsAccounts(c, EnsurePage(s, page), direction);
  }

  function Run(c: Config, events: seq<Event>): State
    decreases |events|
  {
    if events == [] then EmptyState(None, 0) else Next(c, Run(c, events[..|events| - 1]), events[|events| - 1])
  }

  /** For every sequence of operations, discards and oversized changes included. */
  lemma {:induction false} HistoryIsAccounted(c: Config, events: seq<Event>)
    ensures Accounted(c, Run(c, events))
    decreases |events|
  {
    if events != [] {
      HistoryIsAccounted(c, events[..|events| - 1]);
      NextKeepsAccounts(c, Run(c, events[..|events| - 1]), events[|events| - 1]);
    }
  }

  // ----- the chain of changes -----

  /** Undoing entry after entry, each finds its own result as its key's baseline. */
  ghost predicate Undoable(b: map<Key, Value>, undo: seq<Entry>)
    decreases |undo|
  {
    undo != [] ==>
      var e := Last(undo);
      e.key in b && b[e.key] == e.after && Undoable(b[e.key := e.before], Front(undo))
  }

  /** Redoing entry after entry, each finds its starting point as its key's baseline. */
  ghost predicate Redoable(b: map<Key, Value>, redo: seq<Entry>)
    decreases |redo|
  {
    redo != [] ==>
      var e := Last(redo);
      e.key in b && b[e.key] == e.before && Redoable(b[e.key := e.after], Front(redo))
  }

  ghost predicate Chained(s: State) {
    Undoable(s.baselines, s.undo) && Redoable(s.baselines, s.redo)
  }

  lemma {:induction false} DroppingOldestKeepsChain(b: map<Key, Value>, undo: seq<Entry>, n: nat)
    requires n <= |undo| && Undoable(b, undo)
    ensures Undoable(b, undo[n..])
    decreases |undo|
  {
    if n < |undo| {
      var e := Last(undo);
      assert Last(undo[n..]) == e && Front(undo[n..]) == Front(undo)[n..];
      DroppingOldestKeepsChain(b[e.key := e.before], Front(undo), n);
    }
  }

  /** A key that is new to the baselines touches no entry. */
  lemma {:induction false} SeedingKeepsUndoable(b: map<Key, Value>, undo: seq<Entry>, key: Key, value: Value)
    requires key !in b && Undoable(b, undo)
    ensures Undoable(b[key := value], undo)
    decreases |undo|
  {
    if undo != [] {
      var e := Last(undo);
      SeedingKeepsUndoable(b[e.key := e.before], Front(undo), key, value);
      assert b[key := value][e.key := e.before] == b[e.key := e.before][key := value];
    }
  }

  lemma {:induction false} SeedingKeepsRedoable(b: map<Key, Value>, redo: seq<Entry>, key: Key, value: Value)
    requires key !in b && Redoable(b, redo)
    ensures Redoable(b[key := value], redo)
    decreases |redo|
  {
    if redo != [] {
      var e := Last(redo);
      SeedingKeepsRedoable(b[e.key := e.after], Front(redo), key, value);
      assert b[key := value][e.key := e.after] == b[e.key := e.after][key := value];
    }
  }

  lemma WrittenIsUndoable(c: Config, s: State, change: Change)
    requires change.key in s.baselines && !Oversized(c, s, change) && Undoable(s.baselines, s.undo)
    ensures Undoable(s.baselines[change.key := change.value], Written(c, s, change))
  {
    var b, undo := s.baselines, Written(c, s, change);
    var e := Last(undo);
    if Coalesces(c, s, change, NormalGroup(change.captureGroup)) {
      assert b[change.key := change.value][e.key := e.before] == b[e.key := e.before];
      assert Front(undo) == Front(s.undo);
    } else {
      assert b[change.key := change.value][e.key := e.before] == b;
      assert Front(undo) == s.undo;
    }
  }

  /** `Recorded` breaks no chain unless the change is oversized. */
  lemma RecordedKeepsChain(c: Config, s: State, change: Change)
    requires Accounted(c, s) && Chained(s) && (Changes(s, change) ==> !Oversized(c, s, change))
    ensures Chained(Recorded(c, s, change))
  {
    if change.key != "" && change.key !in s.baselines {
      SeedingKeepsUndoable(s.baselines, s.undo, change.key, change.value);
      SeedingKeepsRedoable(s.baselines, s.redo, change.key, change.value);
    } else if Changes(s, change) {
      var undo := Written(c, s, change);
      WrittenIsUndoable(c, s, change);
      WrittenIsSized(c, s, change);
      TrimmedFits(c, undo, Bytes(undo));
      var (kept, bytes) := Trimmed(c, undo, Bytes(undo));
      DroppingOldestKeepsChain(s.baselines[change.key := change.value], undo, |undo| - |kept|);
    }
  }

  lemma CommittedKeepsChain(s: State, direction: Direction)
    requires Chained(s)
    ensures Chained(Committed(s, direction))
  {
    var t := Committed(s, direction);
    if direction == Undo && s.undo != [] {
      var e := Last(s.undo);
      assert t.baselines[e.key := e.after] == s.baselines;
      assert Front(t.redo) == s.redo;
    }
    if direction == Redo && s.redo != [] {
      var e := Last(s.redo);
      assert t.baselines[e.key := e.before] == s.baselines;
      assert Front(t.undo) == s.undo;
    }
  }

  /** The two operations that break a chain: a discard, and a change that is not kept. */
  ghost predicate Gentle(c: Config, s: State, e: Event) {
    && !e.Discard?
    && (e.Record? && Changes(EnsurePage(s, e.page), e.change) ==> !Oversized(c, EnsurePage(s, e.page), e.change))
  }

  lemma NextKeepsChain(c: Config, s: State, e: Event)
    requires Accounted(c, s) && Chained(s) && Gentle(c, s, e)
    ensures Chained(Next(c, s, e))
  {
    match e
    case SetPage(page) =>
    case Clear(page) =>
    case StopCapturing =>
    case Seed(page, key, value) =>
      var t := EnsurePage(s, page);
      if key != "" && key !in t.baselines {
        SeedingKeepsUndoable(t.baselines, t.undo, key, value);
        SeedingKeepsRedoable(t.baselines, t.redo, key, value);
      }
    case Record(page, change) =>
      assert Accounted(c, EnsurePage(s, page));
      RecordedKeepsChain(c, EnsurePage(s, page), change);
    case Commit(page, direction) => CommittedKeepsChain(EnsurePage(s, page), direction);
    case Discard(page, direction) => assert false;
  }

  ghost predicate GentleRun(c: Config, events: seq<Event>) {
    forall n :: 0 <= n < |events| ==> Gentle(c, Run(c, events[..n]), events[n])
  }

  lemma {:induction false} HistoryIsChained(c: Config, events: seq<Event>)
    requires GentleRun(c, events)
    ensures Chained(Run(c, events))
    decreases |events|
  {
    if events != [] {
      var before := events[..|events| - 1];
      forall n | 0 <= n < |before|
        ensures Gentle(c, Run(c, before[..n]), before[n])
      {
        assert before[..n] == events[..n];
      }
      HistoryIsChained(c, before);
      HistoryIsAccounted(c, before);
      NextKeepsChain(c, Run(c, before), events[|events| - 1]);
    }
  }

  // ----- undo and redo are inverse -----

  function Repeat(s: State, direction: Direction, k: nat): State
    decreases k
  {
    if k == 0 then s else Repeat(Committed(s, direction), direction, k - 1)
  }

  function Opposite(direction: Direction): Direction {
    if direction == Undo then Redo else Undo
  }

  function Stack(s: State, direction: Direction): seq<Entry> {
    if direction == Undo then s.undo else s.redo
  }

  lemma UndoIsReversible(s: State)
    requires s.undo != [] && Last(s.undo).key in s.baselines && s.baselines[Last(s.undo).key] == Last(s.undo).after
    ensures Committed(Committed(s, Undo), Redo).(epoch := s.epoch) == s
  {
    var e, t := Last(s.undo), Committed(s, Undo);
    assert Last(t.redo) == e && Front(t.redo) == s.redo;
    assert Front(s.undo) + [e] == s.undo;
    assert s.baselines[e.key := e.before][e.key := e.after] == s.baselines;
  }

  lemma RedoIsReversible(s: State)
    requires s.redo != [] && Last(s.redo).key in s.baselines && s.baselines[Last(s.redo).key] == Last(s.redo).before
    ensures Committed(Committed(s, Redo), Undo).(epoch := s.epoch) == s
  {
    var e, t := Last(s.redo), Committed(s, Redo);
    assert Last(t.undo) == e && Front(t.undo) == s.undo;
    assert Front(s.redo) + [e] == s.redo;
    assert s.baselines[e.key := e.after][e.key := e.before] == s.baselines;
  }

  lemma CommitIsReversible(s: State, direction: Direction)
    requires Chained(s) && Stack(s, direction) != []
    ensures Committed(Committed(s, direction), Opposite(direction)).(epoch := s.epoch) == s
  {
    if direction == Undo {
      UndoIsReversible(s);
    } else {
      RedoIsReversible(s);
    }
  }

  /** The capture epoch only decides about coalescing: commits do not read it. */
  lemma {:induction false} RepeatIgnoresEpoch(s: State, direction: Direction, k: nat, epoch: nat)
    ensures Repeat(s.(epoch := epoch), direction, k).(epoch := 0) == Repeat(s, direction, k).(epoch := 0)
    decreases k
  {
    if k > 0 {
      var t, u := Committed(s, direction), Committed(s.(epoch := epoch), direction);
      assert u == t.(epoch := u.epoch);
      RepeatIgnoresEpoch(t, direction, k - 1, u.epoch);
    }
  }

  lemma {:induction false} RepeatEndsWithCommit(s: State, direction: Direction, k: nat)
    requires k > 0
    decreases k
    ensures Repeat(s, direction, k) == Committed(Repeat(s, direction, k - 1), direction)
  {
    if k > 1 {
      RepeatEndsWithCommit(Committed(s, direction), direction, k - 1);
    }
  }

  /** k undos and then k redos, or the other way round, restore both stacks and every baseline. */
  lemma {:induction false} RoundTrip(s: State, direction: Direction, k: nat)
    requires Chained(s) && k <= |Stack(s, direction)|
    ensures Repeat(Repeat(s, direction, k), Opposite(direction), k).(epoch := 0) == s.(epoch := 0)
    decreases k
  {
    if k > 0 {
      var t := Committed(s, direction);
      CommittedKeepsChain(s, direction);
      RoundTrip(t, direction, k - 1);
      var back := Repeat(Repeat(s, direction, k), Opposite(direction), k - 1);
      RepeatEndsWithCommit(Repeat(s, direction, k), Opposite(direction), k);
      assert back == t.(epoch := back.epoch);
      CommitIsReversible(s, direction);
    }
  }

  /** The property for every run without discards and oversized changes. */
  lemma UndoRedoRestores(c: Config, events: seq<Event>, direction: Direction, k: nat)
    requires GentleRun(c, events) && k <= |Stack(Run(c, events), direction)|
    ensures Repeat(Repeat(Run(c, events), direction, k), Opposite(direction), k).(epoch := 0)
         == Run(c, events).(epoch := 0)
  {
    HistoryIsChained(c, events);
    RoundTrip(Run(c, events), direction, k);
  }

  // ----- what the chain says per key -----

  /** The newest undo entry of a key ends at its baseline, and each older one where the next begins. */
  lemma {:induction false} ChainPerKey(b: map<Key, Value>, undo: seq<Entry>, i: nat)
    requires Undoable(b, undo) && i < |undo|
    ensures (forall j :: i < j < |undo| ==> undo[j].key != undo[i].key) ==>
      undo[i].key in b && undo[i].after == b[undo[i].key]
    ensures forall j ::
      (i < j < |undo| && undo[j].key == undo[i].key && forall l :: i < l < j ==> undo[l].key != undo[i].key) ==>
        undo[i].after == undo[j].before
    decreases |undo|
  {
    var e, rest := Last(undo), Front(undo);
    if i < |rest| {
      ChainPerKey(b[e.key := e.before], rest, i);
      assert forall j :: 0 <= j < |rest| ==> rest[j] == undo[j];
      if e.key == undo[i].key && forall l :: i < l < |rest| ==> undo[l].key != undo[i].key {
        assert undo[i].after == e.before;
      }
    }
  }

  ghost predicate Mentions(entries: seq<Entry>, key: Key) {
    exists i :: 0 <= i < |entries| && entries[i].key == key
  }

  lemma MentionsStep(entries: seq<Entry>, key: Key)
    requires entries != []
    ensures Mentions(entries, key) <==> Last(entries).key == key || Mentions(Front(entries), key)
  {
    assert forall i :: 0 <= i < |entries| - 1 ==> Front(entries)[i] == entries[i];
    assert entries[|entries| - 1] == Last(entries);
  }

  /** Changing one baseline without an entry keeps the chain exactly when no entry is about that key. */
  lemma {:induction false} ForeignBaseline(b: map<Key, Value>, undo: seq<Entry>, key: Key, value: Value)
    requires Undoable(b, undo) && key in b && b[key] != value
    ensures Undoable(b[key := value], undo) <==> !Mentions(undo, key)
    decreases |undo|
  {
    if undo != [] {
      var e := Last(undo);
      MentionsStep(undo, key);
      if e.key != key {
        ForeignBaseline(b[e.key := e.before], Front(undo), key, value);
        assert b[key := value][e.key := e.before] == b[e.key := e.before][key := value];
      }
    }
  }

  /**
   An oversized change breaks the chain if and only if its key has something left to undo. (A value that cannot be
   serialized never matches the baseline, so it may be recorded although it is the baseline.)
   */
  lemma OversizedBreaksChain(c: Config, s: State, change: Change)
    requires Chained(s) && Changes(s, change) && Oversized(c, s, change)
    ensures Chained(Recorded(c, s, change)) <==>
      s.baselines[change.key] == change.value || !Mentions(s.undo, change.key)
  {
    if s.baselines[change.key] != change.value {
      ForeignBaseline(s.baselines, s.undo, change.key, change.value);
    } else {
      assert s.baselines[change.key := change.value] == s.baselines;
    }
  }

  /** The entries of a stack that stay when its top is discarded. */
  function Remaining(s: State, direction: Direction, discarded: Direction): seq<Entry>
    requires Stack(s, discarded) != []
  {
    if direction == discarded then Front(Stack(s, direction)) else Stack(s, direction)
  }

  /** A discard from either stack breaks the chain if and only if its key occurs in an entry that stays. */
  lemma DiscardBreaksChain(s: State, direction: Direction)
    requires Chained(s) && Stack(s, direction) != []
    ensures Chained(Discarded(s, direction)) <==>
      var key := Last(Stack(s, direction)).key;
      !Mentions(Remaining(s, Undo, direction), key) && !Mentions(Remaining(s, Redo, direction), key)
  {
    var e := Last(Stack(s, direction));
    match direction
    case Undo =>
      assert s.baselines - {e.key} == s.baselines[e.key := e.before] - {e.key};
      WithoutBaseline(s.baselines[e.key := e.before], Front(s.undo), e.key);
      WithoutBaselineRedo(s.baselines, s.redo, e.key);
    case Redo =>
      assert s.baselines - {e.key} == s.baselines[e.key := e.after] - {e.key};
      WithoutBaseline(s.baselines, s.undo, e.key);
      WithoutBaselineRedo(s.baselines[e.key := e.after], Front(s.redo), e.key);
  }

  lemma {:induction false} WithoutBaseline(b: map<Key, Value>, undo: seq<Entry>, key: Key)
    requires Undoable(b, undo)
    ensures Undoable(b - {key}, undo) <==> !Mentions(undo, key)
    decreases |undo|
  {
    if undo != [] {
      var e := Last(undo);
      MentionsStep(undo, key);
      if e.key != key {
        WithoutBaseline(b[e.key := e.before], Front(undo), key);
        assert (b - {key})[e.key := e.before] == b[e.key := e.before] - {key};
      }
    }
  }

  lemma {:induction false} WithoutBaselineRedo(b: map<Key, Value>, redo: seq<Entry>, key: Key)
    requires Redoable(b, redo)
    ensures Redoable(b - {key}, redo) <==> !Mentions(redo, key)
    decreases |redo|
  {
    if redo != [] {
      var e := Last(redo);
      MentionsStep(redo, key);
      if e.key != key {
        WithoutBaselineRedo(b[e.key := e.after], Front(redo), key);
        assert (b - {key})[e.key := e.after] == b[e.key := e.after] - {key};
      }
    }
  }

  // ----- two runs after which undo and redo do not restore the baselines -----

  const SMALL := Config(10, 1024, 1000, (group: Option<string>) => 0)

  function Edit(text: string): Event {
    Record(None, Change("k", Json(text), Json(""), None, false, 0))
  }

  lemma {:induction false} RunOfThree(c: Config, a: Event, b: Event, d: Event)
    ensures Run(c, [a, b, d]) == Next(c, Next(c, Next(c, EmptyState(None, 0), a), b), d)
  {
    assert [a, b, d][..2] == [a, b] && [a, b][..1] == [a] && [a][..0] == [];
    assert Run(c, [a]) == Next(c, Run(c, []), a);
    assert Run(c, [a, b]) == Next(c, Run(c, [a]), b);
  }

  function Step(before: string, after: string): Entry {
    Entry("k", Json(before), Json(after), Json(""), None, 0, 0, ENTRY_OVERHEAD + |before| + |after|)
  }

  /** A seeded key, edited and still small enough, has one entry more. */
  lemma EditIsKept(s: State, before: string, after: string)
    requires s.page == None && s.epoch == 0 && s.redo == [] && |s.undo| < 2 && s.retained == Bytes(s.undo) <= 46
    requires "k" in s.baselines && s.baselines["k"] == Json(before) && before != after && |before| == |after| == 1
    ensures Next(SMALL, s, Edit(after))
         == s.(undo := s.undo + [Step(before, after)],
                baselines := s.baselines["k" := Json(after)],
                retained := s.retained + 46)
  {
    BytesOfPush(s.undo, Step(before, after));
  }

  /** An edit, then one too large to keep: undoing and redoing brings the edit back, not what was typed last. */
  lemma OversizedLosesBaseline(large: string)
    requires |large| > 979
    ensures var s := Run(SMALL, [Seed(None, "k", Json("a")), Edit("b"), Edit(large)]);
      && s.baselines == map["k" := Json(large)]
      && Repeat(Repeat(s, Undo, 1), Redo, 1).baselines == map["k" := Json("b")]
  {
    RunOfThree(SMALL, Seed(None, "k", Json("a")), Edit("b"), Edit(large));
    var s1 := EmptyState(None, 0).(baselines := map["k" := Json("a")]);
    EditIsKept(s1, "a", "b");
    var s2 := Next(SMALL, s1, Edit("b"));
    var s := Next(SMALL, s2, Edit(large));
    assert s == s2.(baselines := map["k" := Json(large)], epoch := 1);
    UndoneAndRedone(s, "a", "b");
  }

  lemma RepeatOnce(s: State, direction: Direction)
    ensures Repeat(s, direction, 1) == Committed(s, direction)
  {
    assert Repeat(Committed(s, direction), direction, 0) == Committed(s, direction);
  }

  lemma UndoneAndRedone(s: State, before: string, after: string)
    requires s.undo != [] && Last(s.undo) == Step(before, after)
    ensures Repeat(Repeat(s, Undo, 1), Redo, 1).baselines == s.baselines["k" := Json(after)]
  {
    RepeatOnce(s, Undo);
    RepeatOnce(Committed(s, Undo), Redo);
    UndoRedoSets(s, Last(s.undo));
  }

  lemma UndoRedoSets(s: State, e: Entry)
    requires s.undo != [] && Last(s.undo) == e
    ensures Committed(Committed(s, Undo), Redo).baselines == s.baselines[e.key := e.after]
  {
    assert Last(Committed(s, Undo).redo) == e;
  }

  /** Two edits, and the newer one discarded: undoing and redoing brings a baseline back that was forgotten. */
  lemma DiscardForgetsBaseline()
    ensures var s := Next(SMALL, Run(SMALL, [Seed(None, "k", Json("a")), Edit("b"), Edit("c")]), Discard(None, Undo));
      && "k" !in s.baselines
      && Repeat(Repeat(s, Undo, 1), Redo, 1).baselines == map["k" := Json("b")]
  {
    RunOfThree(SMALL, Seed(None, "k", Json("a")), Edit("b"), Edit("c"));
    var s1 := EmptyState(None, 0).(baselines := map["k" := Json("a")]);
    EditIsKept(s1, "a", "b");
    var s2 := Next(SMALL, s1, Edit("b"));
    EditIsKept(s2, "b", "c");
    var s := Discarded(Next(SMALL, s2, Edit("c")), Undo);
    assert s.undo == [Step("a", "b")] && s.baselines == map[];
    UndoneAndRedone(s, "a", "b");
  }
}
