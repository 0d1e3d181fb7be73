/**
 The recovery storage object: the variables the source's closure keeps, updated
 in place by its calls and continuations. Every method is one event of
 RecoveryMirror, so what is proved of all runs holds of this object.
 */
module RecoveryStorage {
  import opened Options
  import opened RecoveryMirror
  import opened RecoveryTransactions

  class Storage {
    var durable: map<Key, Value>
    var records: map<Key, Value>
    var uncommittedWrites: map<Key, WriteToken>
    var committedTokens: set<nat>
    var pendingDeleteTokens: map<Key, DeleteToken>
    var snapshots: map<nat, Snapshot>
    var keyMutationSequences: map<Key, nat>
    var localMutationSequence: nat
    var queue: seq<Operation>
    var phase: Phase
    var finished: nat
    var failureSequence: nat
    var readers: seq<Reader>
    var notifications: nat
    var externalRefreshFailed: bool
    var observedFailureSequence: nat
    var flushes: seq<Flush>
    ghost var disturbed: set<Key>
    ghost var unsure: set<Key>

    ghost function View(): State
      reads this
    {
      State(durable, records, uncommittedWrites, committedTokens, pendingDeleteTokens, snapshots,
            keyMutationSequences, localMutationSequence, queue, phase, finished, failureSequence,
            readers, notifications, externalRefreshFailed, observedFailureSequence, flushes, disturbed, unsure)
    }

    constructor (stored: map<Key, Value>)
      ensures View() == Start(stored)
    {
      durable, records := stored, stored;
      uncommittedWrites, committedTokens := map[], {};
      pendingDeleteTokens, snapshots := map[], map[];
      keyMutationSequences, localMutationSequence := map[], 0;
      queue, phase, finished := [], Waiting, 0;
      failureSequence, readers, notifications, externalRefreshFailed := 0, [], 0, false;
      observedFailureSequence, flushes, disturbed, unsure := 0, [], {}, {};
    }

    method MarkVisibleMutation(key: Key) returns (sequence: nat)
      modifies this`localMutationSequence, this`keyMutationSequences
      ensures sequence == old(localMutationSequence) + 1
      ensures View() == old(View()).(mutations := sequence, keySequences := old(keyMutationSequences)[key := sequence])
    {
      localMutationSequence := localMutationSequence + 1;
      sequence := localMutationSequence;
      keyMutationSequences := keyMutationSequences[key := sequence];
    }

    method Enqueue(op: Operation)
      modifies this`queue
      ensures View() == old(View()).(queue := old(queue) + [op])
    {
      queue := queue + [op];
    }

    method ShowDraft(key: Key, token: WriteToken)
      modifies this`uncommittedWrites, this`pendingDeleteTokens, this`records
      ensures View() == old(View()).(uncommitted := old(uncommittedWrites)[key := token],
                                     pendingDeletes := old(pendingDeleteTokens) - {key},
                                     records := old(records)[key := token.value])
    {
      uncommittedWrites := uncommittedWrites[key := token];
      pendingDeleteTokens := pendingDeleteTokens - {key};
      records := records[key := token.value];
    }

    method Set(key: Key, value: Value)
      modifies this
      ensures View() == Next(old(View()), SetItem(key, value))
    {
      var sequence := MarkVisibleMutation(key);
      ShowDraft(key, WriteToken(sequence, key, value));
      Enqueue(Put(key, sequence, value));
    }

    method CaptureRemovalSnapshot(key: Key) returns (id: nat)
      modifies this`snapshots
      ensures id == RemovalSnapshot(old(View()), key)
      ensures View() == old(View()).(snapshots := CapturedSnapshots(old(View()), key))
    {
      if key in pendingDeleteTokens {
        return pendingDeleteTokens[key].snapshot;
      }
      id := localMutationSequence + 1;
      var sequence := if key in keyMutationSequences then keyMutationSequences[key] else 0;
      snapshots := snapshots[id := Snapshot(key, false, sequence, Lookup(records, key), Lookup(uncommittedWrites, key))];
    }

    method Hide(key: Key, token: DeleteToken)
      modifies this`uncommittedWrites, this`pendingDeleteTokens, this`records, this`unsure
      ensures View() == old(View()).(uncommitted := old(uncommittedWrites) - {key},
                                     pendingDeletes := old(pendingDeleteTokens)[key := token],
                                     records := old(records) - {key},
                                     unsure := if key in disturbed then old(unsure) + {key} else old(unsure))
    {
      uncommittedWrites := uncommittedWrites - {key};
      pendingDeleteTokens := pendingDeleteTokens[key := token];
      records := records - {key};
      unsure := if key in disturbed then unsure + {key} else unsure;
    }

    method HideAndQueue(key: Key, id: nat)
      modifies this
      ensures View() == Hidden(old(View()), key, id)
    {
      var sequence := MarkVisibleMutation(key);
      Hide(key, DeleteToken(sequence, id));
      Enqueue(Delete(key, sequence, id));
    }

    method Remove(key: Key)
      modifies this
      ensures View() == Next(old(View()), RemoveItem(key))
    {
      var id := CaptureRemovalSnapshot(key);
      HideAndQueue(key, id);
    }

    /** compareAndSet, compareAndRemove, and the reconciliation of legacy storage events. */
    method CompareAnd(key: Key, comparison: Comparison)
      modifies this
      ensures View() == Next(old(View()), Compare(key, comparison))
    {
      var sequence := MarkVisibleMutation(key);
      Enqueue(Conditional(key, sequence, comparison));
    }

    /** The head's transaction completes; `verdict` is what its comparison answered. */
    method TransactionCompletes(verdict: bool)
      requires Enabled(View(), Commit(verdict))
      modifies this
      ensures View() == Next(old(View()), Commit(verdict))
      ensures queue[0].Put? ==> OnlyKeyHolds(old(durable), durable, queue[0].key, Some(queue[0].value))
      ensures queue[0].Delete? ==> OnlyKeyHolds(old(durable), durable, queue[0].key, None)
      ensures queue[0].Conditional? && verdict ==> ComparisonDone(old(durable), durable, queue[0].key, queue[0].comparison)
      ensures queue[0].Conditional? && !verdict ==> durable == old(durable)
    {
      var head := queue[0];
      if head.Conditional? {
        ComparisonCommits(View(), verdict);
      } else {
        WriteCommits(View(), verdict);
      }
      match head
      case Put(key, _, value) =>
        durable := durable[key := value];
        phase := Committed(Some(value));
      case Delete(key, _, _) =>
        durable := durable - {key};
        phase := Committed(None);
      case Conditional(key, _, comparison) =>
        var after := Outcome(comparison, Lookup(durable, key), verdict);
        durable := Assign(durable, key, after);
        phase := Committed(after);
    }

    method Finish(failed: bool)
      requires queue != []
      modifies this`queue, this`phase, this`finished, this`failureSequence, this`disturbed, this`unsure
      ensures View() == Popped(old(View()), failed)
    {
      Settle();
      queue := queue[1..];
      phase := Waiting;
      finished := finished + 1;
      if failed { failureSequence := failureSequence + 1; }
    }

    /** What the end of the head means for what is known of its key. */
    ghost method Settle()
      requires queue != []
      modifies this`disturbed, this`unsure
      ensures disturbed == if Repairs(old(View())) then old(disturbed) - {queue[0].key} else old(disturbed)
      ensures unsure == if HeadIsNewest(old(View())) then old(unsure) - {queue[0].key} else old(unsure)
    {
      ghost var before := View();
      disturbed := if Repairs(before) then disturbed - {queue[0].key} else disturbed;
      unsure := if HeadIsNewest(before) then unsure - {queue[0].key} else unsure;
    }

    method ReconcileRemovalSnapshot(key: Key, sequence: nat, after: Option<Value>)
      modifies this`snapshots
      ensures snapshots == Reconciled(old(View()), key, sequence, after)
    {
      if key !in pendingDeleteTokens || pendingDeleteTokens[key].snapshot !in snapshots { return; }
      var id := pendingDeleteTokens[key].snapshot;
      var snapshot := snapshots[id];
      if snapshot.sequence > sequence || TokenOpen(snapshot, committedTokens) { return; }
      snapshots := snapshots[id := snapshot.(removed := after.None?, held := after, writeToken := None)];
    }

    /** putRecord, after its transaction has completed. */
    method AfterPut()
      requires queue != [] && phase.Committed? && queue[0].Put?
      modifies this
      ensures View() == Next(old(View()), Continue)
    {
      var Put(key, id, _) := queue[0];
      committedTokens := committedTokens + {id};
      if key in uncommittedWrites && uncommittedWrites[key].id == id {
        uncommittedWrites := uncommittedWrites - {key};
      }
      Finish(false);
    }

    /** deleteRecord's commit callback. */
    method AfterDelete()
      requires queue != [] && phase.Committed? && queue[0].Delete?
      modifies this
      ensures View() == Next(old(View()), Continue)
    {
      var Delete(key, id, snapshot) := queue[0];
      if snapshot in snapshots {
        snapshots := snapshots[snapshot := snapshots[snapshot].(removed := true)];
      }
      if key in pendingDeleteTokens && pendingDeleteTokens[key].id == id {
        pendingDeleteTokens := pendingDeleteTokens - {key};
      }
      Finish(false);
    }

    /** A comparison's continuation: reconcile the pending removal, then the mirror. */
    method AfterComparison()
      requires queue != [] && phase.Committed? && queue[0].Conditional?
      modifies this
      ensures View() == Next(old(View()), Continue)
    {
      var Conditional(key, sequence, _) := queue[0];
      ReconcileRemovalSnapshot(key, sequence, phase.after);
      var current := if key in keyMutationSequences then keyMutationSequences[key] else 0;
      if key !in uncommittedWrites && current == sequence {
        records := Assign(records, key, phase.after);
      }
      Finish(false);
    }

    /** The key of a failed removal is shown again, as a draft if there is one. */
    method Reveal(visible: Option<Value>, draft: Option<WriteToken>)
      requires queue != []
      modifies this
      ensures View() == Revealed(old(View()), visible, draft)
    {
      var key := queue[0].key;
      records := Assign(records, key, visible);
      uncommittedWrites := if draft.Some? then uncommittedWrites[key := draft.value] else uncommittedWrites;
      pendingDeleteTokens := pendingDeleteTokens - {key};
      Finish(true);
    }

    /** deleteRecord's failure callback, when the removal still owns its key. */
    method AfterFailedDelete()
      requires queue != [] && phase.Aborted? && queue[0].Delete? && Owns(View(), queue[0])
      modifies this
      ensures View() == Next(old(View()), Continue)
    {
      var op := queue[0];
      var draft := if op.snapshot in snapshots && !snapshots[op.snapshot].removed
                      && TokenOpen(snapshots[op.snapshot], committedTokens)
                   then snapshots[op.snapshot].writeToken else None;
      match draft
      case None =>
        phase := ReadingBack;
      case Some(token) =>
        Reveal(snapshots[op.snapshot].held, Some(token));
    }

    /** Any other failure is only counted. */
    method AfterFailure()
      requires queue != [] && phase.Aborted? && (queue[0].Delete? ==> !Owns(View(), queue[0]))
      modifies this
      ensures View() == Next(old(View()), Continue)
    {
      Finish(true);
    }

    /** The continuation after the removal has read the store back, or failed to. */
    method AfterReadBack()
      requires queue != [] && queue[0].Delete? && (phase.ReadBack? || phase.ReadBackFailed?)
      modifies this
      ensures View() == Next(old(View()), Continue)
    {
      var head := queue[0];
      if head.key !in pendingDeleteTokens || pendingDeleteTokens[head.key].id != head.sequence {
        Finish(true);
        return;
      }
      var visible := Lookup(records, head.key);
      if phase.ReadBack? {
        visible := phase.found;
      } else if head.snapshot in snapshots && !snapshots[head.snapshot].removed && snapshots[head.snapshot].held.Some? {
        visible := snapshots[head.snapshot].held;
      }
      Reveal(visible, None);
    }

    // ----- notifications and refreshes -----

    /** A peer's message about one key, or about a clear: its reading joins the chain of earlier ones. */
    method ApplyExternalChange(key: Option<Key>)
      modifies this
      ensures View() == Next(old(View()), if key.Some? then Notified(key.value) else NotifiedOfClear)
    {
      var awaited := notifications;
      notifications := notifications + 1;
      var scope := Everything;
      if key.Some? {
        scope := Single(key.value, if key.value in keyMutationSequences then keyMutationSequences[key.value] else 0);
      }
      readers := readers + [Reader(scope, Some(notifications), Some(awaited), localMutationSequence, finished + |queue|,
                                   None, {}, false)];
    }

    /** Called by the page: remembers the newest mutation, and waits for what is queued. */
    method Refresh()
      modifies this
      ensures View() == Next(old(View()), StartRefresh)
    {
      readers := readers + [Reader(Everything, None, None, localMutationSequence, finished + |queue|, None, {}, false)];
    }

    /** The head of the refresh loop, and its end when no notification has come in between. */
    method RefreshTurn(i: nat)
      requires Enabled(View(), RefreshTurns(i))
      modifies this
      ensures View() == Next(old(View()), RefreshTurns(i))
    {
      if readers[i].awaited == Some(notifications) {
        readers := readers[..i] + readers[i + 1..];
        externalRefreshFailed := false;
        return;
      }
      readers := readers[i := readers[i].(awaited := Some(notifications), applied := false)];
    }

    /** No draft and no newer mutation stands in the way of what was read. */
    predicate MayShow(reader: Reader, key: Key)
      reads this
      ensures MayShow(reader, key) == Covers(View(), reader, key)
    {
      var sequence := if key in keyMutationSequences then keyMutationSequences[key] else 0;
      key !in uncommittedWrites
      && match reader.scope
         case Everything => sequence <= reader.fence
         case Single(named, atNotification) => key == named && sequence == atNotification
    }

    method ReloadRecords(reader: Reader)
      requires reader.loaded.Some?
      modifies this`records
      ensures records == Merged(old(View()), reader)
    {
      records := map k | k in records.Keys + reader.loaded.value.Keys
                         && (if MayShow(reader, k) then k in reader.loaded.value else k in records)
                 :: if MayShow(reader, k) then reader.loaded.value[k] else records[k];
    }

    /** What was read replaces the mirror's entries that are no draft and no newer mutation. */
    method ApplyReading(i: nat)
      requires Enabled(View(), Apply(i))
      modifies this
      ensures View() == Next(old(View()), Apply(i))
    {
      var reader := readers[i];
      ghost var before := View();
      ReloadRecords(reader);
      disturbed := disturbed - Repaired(before, reader) + Outrun(before, reader);
      readers := if reader.notification.None? then readers[i := reader.(loaded := None, applied := true)]
                 else readers[..i] + readers[i + 1..];
    }

    // ----- flush -----

    method BeginFlush()
      modifies this
      ensures View() == Next(old(View()), Event.BeginFlush)
    {
      flushes := flushes + [Flush(observedFailureSequence, finished + |queue|, notifications, failureSequence)];
    }

    /** One turn of the loop in `flush`, after both awaits; the verdict is what its caller learns. */
    method FlushTurn(i: nat) returns (verdict: Verdict)
      requires Enabled(View(), FlushTurns(i))
      modifies this
      ensures verdict == FlushVerdict(old(View()), old(flushes[i]))
      ensures View() == Next(old(View()), FlushTurns(i))
    {
      var flush := flushes[i];
      if flush.tail != finished + |queue| || flush.external != notifications {
        flushes := flushes[i := flush.(tail := finished + |queue|, external := notifications)];
        return Again;
      }
      flushes := flushes[..i] + flushes[i + 1..];
      if failureSequence > flush.boundary {
        observedFailureSequence := failureSequence;
        return WriteFailed;
      }
      if uncommittedWrites != map[] {
        return DraftsLeft;
      }
      verdict := if externalRefreshFailed then MirrorStale else Resolves;
    }
  }
}
