/**
 The bounded undo history of the editor: two stacks of per-key changes, the
 baseline every next change starts from, and a count of the retained bytes.
 */
module EditorHistory {
  import opened Options

  type Key = string

  type PageId = string

  /** A plain JSON value, known by its serialization, or one that cannot be serialized. */
  datatype Value = Json(text: string) | Unserializable(id: nat)

  datatype Entry = Entry(
    key: Key,
    before: Value,
    after: Value,
    meta: Value,
    captureGroup: Option<string>,
    timestamp: int,
    captureEpoch: nat,
    bytes: nat)

  /** The limits, already normalized, and the encoded length of a serialized capture group. */
  datatype Config = Config(entryLimit: nat, byteLimit: nat, timeout: nat, groupBytes: Option<string> -> nat)

  datatype State = State(
    page: Option<PageId>,
    undo: seq<Entry>,
    redo: seq<Entry>,
    baselines: map<Key, Value>,
    retained: int,
    epoch: nat)

  datatype Direction = Undo | Redo

  datatype Change = Change(
    key: Key, value: Value, meta: Value, captureGroup: Option<string>, coalesce: bool, timestamp: int)

  /** The braces, names, colons and commas around the four members of an entry. */
  const ENTRY_OVERHEAD := 44

  function EmptyState(page: Option<PageId>, epoch: nat): State {
    State(page, [], [], map[], 0, epoch)
  }

  function EnsurePage(s: State, page: Option<PageId>): State {
    if s.page != page then EmptyState(page, s.epoch + 1) else s
  }

  predicate ValuesMatch(left: Value, right: Value) {
    left.Json? && left == right
  }

  /** The encoded length of an entry, or nothing when some member cannot be serialized. */
  function EstimateBytes(c: Config, before: Value, after: Value, meta: Value, group: Option<string>): Option<nat> {
    if before.Json? && after.Json? && meta.Json?
    then Some(ENTRY_OVERHEAD + |before.text| + |after.text| + |meta.text| + c.groupBytes(group))
    else None
  }

  function Bytes(entries: seq<Entry>): nat {
    if entries == [] then 0 else entries[0].bytes + Bytes(entries[1..])
  }

  /** The oldest entries go until both limits hold. */
  function Trimmed(c: Config, undo: seq<Entry>, retained: int): (seq<Entry>, int)
    decreases |undo|
  {
    if undo != [] && (|undo| > c.entryLimit || retained > c.byteLimit)
    then Trimmed(c, undo[1..], retained - undo[0].bytes)
    else (undo, retained)
  }

  function Last(entries: seq<Entry>): Entry
    requires entries != []
  {
    entries[|entries| - 1]
  }

  function Front(entries: seq<Entry>): seq<Entry>
    requires entries != []
  {
    entries[..|entries| - 1]
  }

  predicate Coalesces(c: Config, s: State, change: Change, group: Option<string>) {
    && change.coalesce && s.undo != []
    && Last(s.undo).key == change.key
    && Last(s.undo).captureGroup == group
    && Last(s.undo).captureEpoch == s.epoch
    && 0 <= change.timestamp - Last(s.undo).timestamp <= c.timeout
  }

  function NormalGroup(group: Option<string>): Option<string> {
    if group == Some("") then None else group
  }

  predicate Changes(s: State, change: Change) {
    change.key != "" && change.key in s.baselines && !ValuesMatch(s.baselines[change.key], change.value)
  }

  /** A change too large for the byte limit, or one that cannot be serialized, is not kept. */
  predicate Oversized(c: Config, s: State, change: Change)
    requires change.key in s.baselines
  {
    var bytes := EstimateBytes(c, s.baselines[change.key], change.value, change.meta, NormalGroup(change.captureGroup));
    bytes.None? || bytes.value > c.byteLimit
  }

  /** The top entry after a further change is folded into it. */
  function Extended(c: Config, previous: Entry, change: Change): Entry {
    var bytes := EstimateBytes(c, previous.before, change.value, change.meta, previous.captureGroup);
    previous.(after := change.value, meta := change.meta, timestamp := change.timestamp,
              bytes := if bytes.Some? then bytes.value else 0)
  }

  function NewEntry(c: Config, s: State, change: Change): Entry
    requires change.key in s.baselines && !Oversized(c, s, change)
  {
    var group := NormalGroup(change.captureGroup);
    var before := s.baselines[change.key];
    Entry(change.key, before, change.value, change.meta, group, change.timestamp, s.epoch,
          EstimateBytes(c, before, change.value, change.meta, group).value)
  }

  /** The stack a kept change is written to, before trimming. */
  function Written(c: Config, s: State, change: Change): seq<Entry>
    requires change.key in s.baselines && !Oversized(c, s, change)
  {
    if Coalesces(c, s, change, NormalGroup(change.captureGroup))
    then Front(s.undo) + [Extended(c, Last(s.undo), change)]
    else s.undo + [NewEntry(c, s, change)]
  }

  /** `record` once the page is right. */
  function Recorded(c: Config, s: State, change: Change): State {
    if change.key == "" then s
    else if change.key !in s.baselines then s.(baselines := s.baselines[change.key := change.value])
    else if ValuesMatch(s.baselines[change.key], change.value) then s
    else
      var t := s.(baselines := s.baselines[change.key := change.value], redo := [], retained := s.retained - Bytes(s.redo));
      if Oversized(c, s, change) then t.(epoch := t.epoch + 1)
      else
        var undo := Written(c, s, change);
        var (kept, retained) := Trimmed(c, undo, t.retained - Bytes(s.undo) + Bytes(undo));
        t.(undo := kept, retained := retained)
  }

  /** `commit` once the page is right: one entry changes stacks, and its key's baseline follows. */
  function Committed(s: State, direction: Direction): State {
    match direction
    case Redo =>
      if s.redo == [] then s
      else
        var e := Last(s.redo);
        s.(redo := Front(s.redo), undo := s.undo + [e], baselines := s.baselines[e.key := e.after], epoch := s.epoch + 1)
    case Undo =>
      if s.undo == [] then s
      else
        var e := Last(s.undo);
        s.(undo := Front(s.undo), redo := s.redo + [e], baselines := s.baselines[e.key := e.before], epoch := s.epoch + 1)
  }

  /** `discard` once the page is right. */
  function Discarded(s: State, direction: Direction): State {
    match direction
    case Redo =>
      if s.redo == [] then s
      else
        var e := Last(s.redo);
        s.(redo := Front(s.redo), retained := s.retained - e.bytes, baselines := s.baselines - {e.key}, epoch := s.epoch + 1)
    case Undo =>
      if s.undo == [] then s
      else
        var e := Last(s.undo);
        s.(undo := Front(s.undo), retained := s.retained - e.bytes, baselines := s.baselines - {e.key}, epoch := s.epoch + 1)
  }

  datatype Event =
    | SetPage(page: Option<PageId>)
    | Clear(page: Option<PageId>)
    | StopCapturing
    | Seed(page: Option<PageId>, key: Key, value: Value)
    | Record(page: Option<PageId>, change: Change)
    | Commit(page: Option<PageId>, direction: Direction)
    | Discard(page: Option<PageId>, direction: Direction)

  function Next(c: Config, s: State, e: Event): State {
    match e
    case SetPage(page) => EnsurePage(s, page)
    case Clear(page) => EmptyState(page, s.epoch + 1)
    case StopCapturing => s.(epoch := s.epoch + 1)
    case Seed(page, key, value) =>
      var t := EnsurePage(s, page);
      if key == "" || key in t.baselines then t else t.(baselines := t.baselines[key := value])
    case Record(page, change) => Recorded(c, EnsurePage(s, page), change)
    case Commit(page, direction) => Committed(EnsurePage(s, page), direction)
    case Discard(page, direction) => Discarded(EnsurePage(s, page), direction)
  }

  // ----- the closure -----

  lemma {:induction false} BytesOfPush(entries: seq<Entry>, e: Entry)
    ensures Bytes(entries + [e]) == Bytes(entries) + e.bytes
  {
    if entries == [] {
      assert [] + [e] == [e];
    } else {
      assert (entries + [e])[1..] == entries[1..] + [e];
      BytesOfPush(entries[1..], e);
    }
  }

  class History {
    const config: Config
    var activePageId: Option<PageId>
    var undoStack: seq<Entry>
    var redoStack: seq<Entry>
    var baselines: map<Key, Value>
    var retainedBytes: int
    var captureEpoch: nat

    function View(): State
      reads this
    {
      State(activePageId, undoStack, redoStack, baselines, retainedBytes, captureEpoch)
    }

    /** The limits are at least one entry and 1024 bytes, whatever is asked for. */
    constructor (maxEntries: int, maxBytes: int, captureTimeout: int, groupBytes: Option<string> -> nat)
      ensures View() == EmptyState(None, 0)
      ensures config.groupBytes == groupBytes
      ensures config.entryLimit == (if maxEntries >= 1 then maxEntries else 1)
      ensures config.byteLimit == (if maxBytes >= 1024 then maxBytes else 1024)
      ensures config.timeout == (if captureTimeout >= 0 then captureTimeout else 0)
    {
      config := Config(
        if maxEntries >= 1 then maxEntries else 1,
        if maxBytes >= 1024 then maxBytes else 1024,
        if captureTimeout >= 0 then captureTimeout else 0,
        groupBytes);
      activePageId, undoStack, redoStack, baselines, retainedBytes, captureEpoch := None, [], [], map[], 0, 0;
    }

    method ResetState(page: Option<PageId>)
      modifies this
      ensures View() == EmptyState(page, old(captureEpoch) + 1)
    {
      activePageId, undoStack, redoStack, baselines, retainedBytes := page, [], [], map[], 0;
      captureEpoch := captureEpoch + 1;
    }

    method SetPage(page: Option<PageId>)
      modifies this
      ensures View() == Next(config, old(View()), Event.SetPage(page))
    {
      if activePageId != page {
        ResetState(page);
      }
    }

    method StopCapturing()
      modifies this
      ensures View() == Next(config, old(View()), Event.StopCapturing)
    {
      captureEpoch := captureEpoch + 1;
    }

    method Clear(page: Option<PageId>)
      modifies this
      ensures View() == Next(config, old(View()), Event.Clear(page))
    {
      ResetState(page);
    }

    method Seed(page: Option<PageId>, key: Key, value: Value) returns (seeded: bool)
      modifies this
      ensures View() == Next(config, old(View()), Event.Seed(page, key, value))
      ensures seeded <==> key != "" && key !in EnsurePage(old(View()), page).baselines
    {
      SetPage(page);
      if key == "" || key in baselines {
        return false;
      }
      baselines := baselines[key := value];
      seeded := true;
    }

    method ClearRedo()
      modifies this`redoStack, this`retainedBytes
      ensures redoStack == [] && retainedBytes == old(retainedBytes) - Bytes(old(redoStack))
    {
      var i := 0;
      while i < |redoStack|
        invariant 0 <= i <= |redoStack| && redoStack == old(redoStack)
        invariant retainedBytes - Bytes(redoStack[i..]) == old(retainedBytes) - Bytes(redoStack)
      {
        assert redoStack[i..][1..] == redoStack[i + 1..];
        retainedBytes := retainedBytes - redoStack[i].bytes;
        i := i + 1;
      }
      redoStack := [];
    }

    method TrimUndo()
      modifies this`undoStack, this`retainedBytes
      ensures (undoStack, retainedBytes) == Trimmed(config, old(undoStack), old(retainedBytes))
    {
      while |undoStack| > config.entryLimit || retainedBytes > config.byteLimit
        invariant Trimmed(config, undoStack, retainedBytes) == Trimmed(config, old(undoStack), old(retainedBytes))
        decreases |undoStack|
      {
        if undoStack == [] {
          break;
        }
        var removed := undoStack[0];
        undoStack := undoStack[1..];
        retainedBytes := retainedBytes - removed.bytes;
      }
    }

    /** The top entry absorbs a kept change, or a new entry is pushed. */
    method PushOrExtend(change: Change, before: Value)
      requires change.key in baselines && !Oversized(config, View().(baselines := baselines[change.key := before]), change)
      modifies this`undoStack, this`retainedBytes
      ensures undoStack == Written(config, old(View()).(baselines := baselines[change.key := before]), change)
      ensures retainedBytes == old(retainedBytes) - Bytes(old(undoStack)) + Bytes(undoStack)
    {
      var group := NormalGroup(change.captureGroup);
      if undoStack != [] {
        var previous := Last(undoStack);
        assert undoStack == Front(undoStack) + [previous];
        BytesOfPush(Front(undoStack), previous);
        if change.coalesce && previous.key == change.key && previous.captureGroup == group
           && previous.captureEpoch == captureEpoch && 0 <= change.timestamp - previous.timestamp <= config.timeout
        {
          var extended := Extended(config, previous, change);
          BytesOfPush(Front(undoStack), extended);
          retainedBytes := retainedBytes - previous.bytes;
          undoStack := Front(undoStack) + [extended];
          retainedBytes := retainedBytes + extended.bytes;
          return;
        }
      }
      var bytes := EstimateBytes(config, before, change.value, change.meta, group).value;
      var next := Entry(change.key, before, change.value, change.meta, group, change.timestamp, captureEpoch, bytes);
      BytesOfPush(undoStack, next);
      undoStack := undoStack + [next];
      retainedBytes := retainedBytes + bytes;
    }

    method Record(page: Option<PageId>, change: Change) returns (recorded: bool)
      modifies this
      ensures View() == Next(config, old(View()), Event.Record(page, change))
      ensures recorded <==>
        Changes(EnsurePage(old(View()), page), change) && !Oversized(config, EnsurePage(old(View()), page), change)
    {
      SetPage(page);
      ghost var s := View();
      var key := change.key;
      if key == "" {
        return false;
      }
      if key !in baselines {
        baselines := baselines[key := change.value];
        return false;
      }
      var before := baselines[key];
      if ValuesMatch(before, change.value) {
        return false;
      }
      var bytes := EstimateBytes(config, before, change.value, change.meta, NormalGroup(change.captureGroup));
      baselines := baselines[key := change.value];
      ClearRedo();
      if bytes.None? || bytes.value > config.byteLimit {
        captureEpoch := captureEpoch + 1;
        return false;
      }
      assert baselines[key := before] == s.baselines;
      assert View().(baselines := s.baselines) == s.(redo := [], retained := s.retained - Bytes(s.redo));
      PushOrExtend(change, before);
      TrimUndo();
      recorded := true;
    }

    method Commit(page: Option<PageId>, direction: Direction) returns (committed: bool)
      modifies this
      ensures View() == Next(config, old(View()), Event.Commit(page, direction))
      ensures committed <==> old(activePageId) == page && old(if direction == Redo then redoStack else undoStack) != []
    {
      SetPage(page);
      if direction == Redo {
        if redoStack == [] {
          return false;
        }
        var entry := Last(redoStack);
        redoStack := Front(redoStack);
        undoStack := undoStack + [entry];
        baselines := baselines[entry.key := entry.after];
      } else {
        if undoStack == [] {
          return false;
        }
        var entry := Last(undoStack);
        undoStack := Front(undoStack);
        redoStack := redoStack + [entry];
        baselines := baselines[entry.key := entry.before];
      }
      captureEpoch := captureEpoch + 1;
      committed := true;
    }

    method Discard(page: Option<PageId>, direction: Direction) returns (discarded: bool)
      modifies this
      ensures View() == Next(config, old(View()), Event.Discard(page, direction))
      ensures discarded <==> old(activePageId) == page && old(if direction == Redo then redoStack else undoStack) != []
    {
      SetPage(page);
      var stack := if direction == Redo then redoStack else undoStack;
      if stack == [] {
        return false;
      }
      var entry := Last(stack);
      if direction == Redo {
        redoStack := Front(redoStack);
      } else {
        undoStack := Front(undoStack);
      }
      retainedBytes := retainedBytes - entry.bytes;
      baselines := baselines - {entry.key};
      captureEpoch := captureEpoch + 1;
      discarded := true;
    }

    /** The entry the next undo or redo would apply. */
    method Peek(page: Option<PageId>, direction: Direction) returns (entry: Option<Entry>)
      modifies this
      ensures View() == Next(config, old(View()), Event.SetPage(page))
      ensures var stack := if direction == Redo then redoStack else undoStack;
        entry == if stack == [] then None else Some(Last(stack))
    {
      SetPage(page);
      var stack := if direction == Redo then redoStack else undoStack;
      entry := if stack == [] then None else Some(Last(stack));
    }
  }
}
