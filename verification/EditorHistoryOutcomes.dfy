/**
 What each operation of the undo history does, told by its arguments and the stacks it finds: which entry is pushed,
 extended, moved or dropped, and where the baseline goes. A burst of changes is taken back by one undo.
 */
module EditorHistoryOutcomes {
  import opened EditorHistory
  import opened EditorHistoryProofs
  import opened Options

  // ----- sizes -----

  /** An entry is as large as the JSON object of its four members, and unbounded if some member is no JSON. */
  lemma SizeIsThatOfTheJson(c: Config, before: Value, after: Value, meta: Value, group: Option<string>)
    ensures var bytes := EstimateBytes(c, before, after, meta, group);
      && (bytes.Some? <==> before.Json? && after.Json? && meta.Json?)
      && (bytes.Some? ==>
            bytes.value == c.groupBytes(group)
              + |"{\"before\":" + before.text + ",\"after\":" + after.text + ",\"meta\":" + meta.text + ",\"captureGroup\":}"|)
  {
  }

  /** What a change would add by itself fits the byte limit. */
  predicate FitsAlone(c: Config, before: Value, change: Change, group: Option<string>) {
    && before.Json? && change.value.Json? && change.meta.Json?
    && 44 + |before.text| + |change.value.text| + |change.meta.text| + c.groupBytes(group) <= c.byteLimit
  }

  // ----- recording -----

  /** The group a change is captured under; an empty name is none. */
  predicate IsGroup(asked: Option<string>, group: Option<string>) {
    if asked.Some? && asked.value != "" then group == asked else group == None
  }

  /** The change continues the newest entry: asked to, same key and group, nothing in between, and soon enough. */
  predicate Continues(c: Config, s: State, change: Change) {
    && change.coalesce && s.undo != []
    && var top := s.undo[|s.undo| - 1];
       && top.key == change.key && IsGroup(change.captureGroup, top.captureGroup) && top.captureEpoch == s.epoch
       && top.timestamp <= change.timestamp <= top.timestamp + c.timeout
  }

  /** The newest entry as it stands after the change: from where it began to where the change ends. */
  predicate Extends(top: Entry, now: Entry, change: Change) {
    && now.key == top.key && now.before == top.before && now.after == change.value && now.meta == change.meta
    && now.captureGroup == top.captureGroup && now.timestamp == change.timestamp && now.captureEpoch == top.captureEpoch
  }

  /** A new entry: from the baseline to the value. */
  predicate Begins(s: State, now: Entry, before: Value, change: Change) {
    && now.key == change.key && now.before == before && now.after == change.value && now.meta == change.meta
    && IsGroup(change.captureGroup, now.captureGroup)
    && now.timestamp == change.timestamp && now.captureEpoch == s.epoch
  }

  /** The newest entries that fit both limits, and not one fewer. */
  ghost predicate NewestThatFit(c: Config, entries: seq<Entry>, kept: seq<Entry>) {
    && |kept| <= |entries| && kept == entries[|entries| - |kept|..]
    && |kept| <= c.entryLimit && Bytes(kept) <= c.byteLimit
    && (|kept| < |entries| ==> |kept| + 1 > c.entryLimit || Bytes(entries[|entries| - |kept| - 1..]) > c.byteLimit)
  }

  /** Before anything is dropped: the newest entry extended, or one entry more. */
  ghost predicate Kept(c: Config, s: State, change: Change, before: Value, entries: seq<Entry>) {
    if Continues(c, s, change) then
      && |entries| == |s.undo| && entries[..|s.undo| - 1] == s.undo[..|s.undo| - 1]
      && Extends(s.undo[|s.undo| - 1], entries[|s.undo| - 1], change)
    else
      && |entries| == |s.undo| + 1 && entries[..|s.undo|] == s.undo && Begins(s, entries[|s.undo|], before, change)
  }

  /** A key without a baseline only gets one, and a value that is the baseline changes nothing. */
  lemma UnchangedIsNotRecorded(c: Config, s: State, change: Change)
    ensures var t := Recorded(c, s, change);
      && (change.key == "" ==> t == s)
      && (change.key != "" && change.key !in s.baselines ==> t == s.(baselines := s.baselines[change.key := change.value]))
      && (change.key in s.baselines && change.value.Json? && s.baselines[change.key] == change.value ==> t == s)
  {
  }

  /** Any other value becomes the baseline and ends what could be redone. One too large is not kept and ends the burst. */
  lemma ChangeIsRecorded(c: Config, s: State, change: Change, group: Option<string>)
    requires Accounted(c, s) && change.key != "" && change.key in s.baselines && IsGroup(change.captureGroup, group)
    requires change.value.Unserializable? || s.baselines[change.key] != change.value
    ensures var t := Recorded(c, s, change);
            var before := s.baselines[change.key];
      && t.page == s.page && t.baselines == s.baselines[change.key := change.value] && t.redo == []
      && (!FitsAlone(c, before, change, group) ==> t.undo == s.undo && t.epoch == s.epoch + 1)
      && (FitsAlone(c, before, change, group) ==> t.epoch == s.epoch && RecordsKept(c, s, change, before, t.undo))
  {
    if FitsAlone(c, s.baselines[change.key], change, group) {
      KeptIsWritten(c, s, change);
    }
  }

  ghost predicate RecordsKept(c: Config, s: State, change: Change, before: Value, kept: seq<Entry>) {
    exists entries :: Kept(c, s, change, before, entries) && NewestThatFit(c, entries, kept)
  }

  lemma TrimmedIsNewest(c: Config, undo: seq<Entry>, kept: seq<Entry>)
    requires AllSized(c, undo) && kept == Trimmed(c, undo, Bytes(undo)).0
    ensures NewestThatFit(c, undo, kept)
  {
    TrimmedFits(c, undo, Bytes(undo));
    TrimmedIsMinimal(c, undo, Bytes(undo));
  }

  lemma KeptIsWritten(c: Config, s: State, change: Change)
    requires Accounted(c, s) && Changes(s, change) && !Oversized(c, s, change)
    ensures RecordsKept(c, s, change, s.baselines[change.key], Recorded(c, s, change).undo)
  {
    WrittenIsSized(c, s, change);
    WrittenIsKept(c, s, change);
    TrimmedIsNewest(c, Written(c, s, change), Recorded(c, s, change).undo);
  }

  lemma WrittenIsKept(c: Config, s: State, change: Change)
    requires Changes(s, change) && !Oversized(c, s, change)
    ensures Kept(c, s, change, s.baselines[change.key], Written(c, s, change))
  {
  }

  // ----- moving between the stacks -----

  /** Undo moves the newest entry to the other stack and its key back to where the entry began; redo is its mirror. */
  lemma CommitDoes(s: State, direction: Direction)
    ensures var t := Committed(s, direction);
            var stack := if direction == Undo then s.undo else s.redo;
            var left := if direction == Undo then t.undo else t.redo;
            var other := if direction == Undo then s.redo else s.undo;
            var grown := if direction == Undo then t.redo else t.undo;
      && (stack == [] ==> t == s)
      && (stack != [] ==>
            && left == stack[..|stack| - 1] && grown == other + [stack[|stack| - 1]]
            && t.baselines == s.baselines[stack[|stack| - 1].key :=
                                            if direction == Undo then stack[|stack| - 1].before else stack[|stack| - 1].after]
            && t.retained == s.retained && t.page == s.page && t.epoch == s.epoch + 1)
  {
  }

  /** A discard drops the newest entry with its bytes, and forgets its key's baseline. */
  lemma DiscardDoes(s: State, direction: Direction)
    ensures var t := Discarded(s, direction);
            var stack := if direction == Undo then s.undo else s.redo;
      && (stack == [] ==> t == s)
      && (stack != [] ==>
            && (direction == Undo ==> t.undo == stack[..|stack| - 1] && t.redo == s.redo)
            && (direction == Redo ==> t.redo == stack[..|stack| - 1] && t.undo == s.undo)
            && t.retained == s.retained - stack[|stack| - 1].bytes && t.page == s.page && t.epoch == s.epoch + 1
            && (forall k :: k in t.baselines <==> k in s.baselines && k != stack[|stack| - 1].key)
            && (forall k :: k in t.baselines ==> t.baselines[k] == s.baselines[k]))
  {
  }

  /** Another page, and a clear, start empty; the same page goes on. A stop ends the burst and a seed sets a first value. */
  lemma OtherEventsDo(c: Config, s: State, e: Event)
    ensures var t := Next(c, s, e);
      && (e.SetPage? && e.page == s.page ==> t == s)
      && (e.Clear? || (e.SetPage? && e.page != s.page) ==>
            t.page == e.page && t.undo == [] && t.redo == [] && t.baselines == map[] && t.retained == 0
            && t.epoch == s.epoch + 1)
      && (e.StopCapturing? ==> t == s.(epoch := s.epoch + 1))
      && (e.Seed? && e.page == s.page && (e.key == "" || e.key in s.baselines) ==> t == s)
      && (e.Seed? && e.page == s.page && e.key != "" && e.key !in s.baselines ==>
            t == s.(baselines := s.baselines[e.key := e.value]))
    ensures var t := Next(c, s, e);
      (e.Seed? || e.Record? || e.Commit? || e.Discard?) && e.page != s.page ==>
        && t.page == e.page && t.undo == [] && t.redo == [] && t.epoch == s.epoch + 1
        && (forall k :: k in t.baselines ==> !e.Commit? && !e.Discard?)
  {
  }

  // ----- a burst -----

  /** The change continues the newest entry, is another value, and fits, by itself and as what the entry becomes. */
  ghost predicate InBurst(c: Config, s: State, change: Change) {
    && change.key != "" && change.key in s.baselines && s.baselines[change.key] != change.value
    && Continues(c, s, change)
    && FitsAlone(c, s.baselines[change.key], change, s.undo[|s.undo| - 1].captureGroup)
    && FitsAlone(c, s.undo[|s.undo| - 1].before, change, s.undo[|s.undo| - 1].captureGroup)
  }

  function RecordedAll(c: Config, s: State, changes: seq<Change>): State
    decreases |changes|
  {
    if changes == [] then s else RecordedAll(c, Recorded(c, s, changes[0]), changes[1..])
  }

  ghost predicate Burst(c: Config, s: State, changes: seq<Change>)
    decreases |changes|
  {
    changes != [] ==> InBurst(c, s, changes[0]) && Burst(c, Recorded(c, s, changes[0]), changes[1..])
  }

  /** Dropping the oldest never reaches an entry that fits by itself. */
  lemma {:induction false} NewestStays(c: Config, undo: seq<Entry>, retained: int)
    requires undo != [] && retained == Bytes(undo) && Last(undo).bytes <= c.byteLimit && c.entryLimit >= 1
    ensures var kept := Trimmed(c, undo, retained).0; kept != [] && Last(kept) == Last(undo)
    decreases |undo|
  {
    if |undo| > 1 {
      assert Last(undo[1..]) == Last(undo);
      if |undo| > c.entryLimit || retained > c.byteLimit {
        NewestStays(c, undo[1..], retained - undo[0].bytes);
      }
    } else {
      assert Bytes(undo) == undo[0].bytes + Bytes(undo[1..]);
    }
  }

  lemma BurstExtends(c: Config, s: State, change: Change)
    requires Accounted(c, s) && InBurst(c, s, change) && c.entryLimit >= 1
    ensures var t := Recorded(c, s, change);
      && Accounted(c, t) && t.undo != [] && Extends(Last(s.undo), Last(t.undo), change)
      && t.baselines == s.baselines[change.key := change.value] && t.epoch == s.epoch
  {
    RecordedKeepsAccounts(c, s, change);
    assert Coalesces(c, s, change, NormalGroup(change.captureGroup));
    var undo := Written(c, s, change);
    assert Last(undo) == Extended(c, Last(s.undo), change);
    NewestStays(c, undo, Bytes(undo));
  }

  /**
   However many changes a burst has, the newest entry leads from where its first change began to where the last one
   ended, so that one undo takes the whole burst back, and one redo brings it again.
   */
  lemma {:induction false} BurstIsOneUndo(c: Config, s: State, changes: seq<Change>)
    requires Accounted(c, s) && c.entryLimit >= 1 && s.undo != [] && changes != [] && Burst(c, s, changes)
    ensures var t := RecordedAll(c, s, changes);
            var key := Last(s.undo).key;
      && t.undo != [] && Last(t.undo).key == key && Last(t.undo).before == Last(s.undo).before
      && Last(t.undo).after == changes[|changes| - 1].value
      && key in Committed(t, Undo).baselines && Committed(t, Undo).baselines[key] == Last(s.undo).before
    decreases |changes|
  {
    BurstExtends(c, s, changes[0]);
    if |changes| > 1 {
      BurstIsOneUndo(c, Recorded(c, s, changes[0]), changes[1..]);
    } else {
      assert RecordedAll(c, Recorded(c, s, changes[0]), changes[1..]) == Recorded(c, s, changes[0]);
    }
  }
}
