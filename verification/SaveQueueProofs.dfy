/**
 What every run of the save queue keeps, whatever the writer does and however
 edits, flushes and discards interleave with it.
 */
module SaveQueueProofs {
  import opened Options
  import opened SaveQueue

  // ----- invariants -----

  /** The live drains are the one that owns the queue, or there is none. */
  ghost predicate Owned(s: State) {
    && (s.running.None? ==> s.drains.Keys == {})
    && (s.running.Some? ==>
          && s.drains.Keys == {s.running.value.id}
          && s.running.value.id !in s.settled
          && s.running.value.id < s.nextRun
          && s.drains[s.running.value.id].gen == s.running.value.gen <= s.generation)
    && (forall id :: id in s.settled ==> id < s.nextRun)
  }

  predicate LastAttempt(s: State, e: Entry, outcome: Outcome) {
    |s.attempts| > 0 && s.attempts[|s.attempts| - 1] == Attempt(e, outcome)
  }

  /** The slots hold work of this generation that is not older than what was started. */
  ghost predicate Slots(s: State) {
    && s.boundary <= s.nextTask
    && (s.pending.Some? ==>
          && s.pending.value.gen == s.generation
          && s.boundary <= s.pending.value.task < s.nextTask
          && forall i :: 0 <= i < |s.attempts| ==> s.attempts[i].entry.task < s.pending.value.task)
    && (s.retry.Some? ==> s.retry.value.gen == s.generation && LastAttempt(s, s.retry.value, Lost))
  }

  /** Writer calls went out in enqueue order; only a call of unknown outcome is repeated. */
  ghost predicate InOrder(attempts: seq<Attempt>) {
    forall i, j :: 0 <= i < j < |attempts| ==>
      || attempts[i].entry.task < attempts[j].entry.task
      || (attempts[i].entry == attempts[j].entry && attempts[i].outcome == Lost)
  }

  ghost predicate Dated(s: State) {
    forall i :: 0 <= i < |s.attempts| ==>
      && s.attempts[i].entry.gen <= s.generation
      && s.attempts[i].entry.task < s.nextTask
      && (s.attempts[i].entry.gen == s.generation <==> s.boundary <= s.attempts[i].entry.task)
  }

  /** A call is outstanding exactly while the drain awaits it, and it is the latest call. */
  ghost predicate Wire(s: State) {
    && (forall i :: 0 <= i < |s.attempts| && s.attempts[i].outcome == Open ==>
          && i + 1 == |s.attempts| && s.running.Some? && IsWriting(s, s.running.value.id))
    && (forall id :: IsWriting(s, id) ==>
          && s.drains[id].phase.at + 1 == |s.attempts|
          && s.drains[id].phase.entry.gen == s.drains[id].gen
          && LastAttempt(s, s.drains[id].phase.entry, Open))
  }

  ghost predicate Results(s: State) {
    && (s.lastResult.Some? ==> s.lastResult.value.gen == s.generation)
    && (forall id :: id in s.drains ==>
          && (s.drains[id].last.Some? ==> s.drains[id].last.value.gen == s.drains[id].gen)
          && (s.drains[id].gen == s.generation ==> s.drains[id].last == s.lastResult))
    && (forall id :: id in s.settled && s.settled[id].Resolved? && s.settled[id].value.Some? ==>
          s.settled[id].value.value.gen == s.settled[id].gen)
  }

  /** No definitive rejection since the last discard. */
  ghost predicate Clean(s: State) {
    forall i :: 0 <= i < |s.attempts| && s.attempts[i].entry.gen == s.generation ==> s.attempts[i].outcome != Refused
  }

  /** The newest task of the generation is waiting, on the wire, due for retry, or written. */
  ghost predicate LatestIsHeld(s: State) {
    Clean(s) && s.boundary < s.nextTask ==>
      var latest := Entry(s.nextTask - 1, s.generation);
      || s.pending == Some(latest)
      || LastAttempt(s, latest, Open)
      || (LastAttempt(s, latest, Lost) && s.retry == Some(latest))
      || (LastAttempt(s, latest, Ok) && s.lastResult == Some(latest))
  }

  /** What a value handed to a caller may be. */
  ghost predicate MayAnswer(s: State, gen: Generation, purpose: Purpose, value: Option<Entry>) {
    && (value.Some? ==> gen <= value.value.gen)
    && (purpose.Edit? && gen == s.generation && Clean(s) ==> value.Some? && purpose.task <= value.value.task)
  }

  ghost predicate CallerFits(s: State, caller: Caller) {
    && caller.gen <= s.generation
    && (caller.purpose.Edit? ==>
          caller.purpose.task < s.nextTask && (caller.gen == s.generation ==> s.boundary <= caller.purpose.task))
    && (caller.place.Ready? ==> MayAnswer(s, caller.gen, caller.purpose, caller.place.value))
    && (caller.place.Joined? ==>
          || (caller.place.run in s.drains && s.drains[caller.place.run].gen == caller.gen)
          || (caller.place.run in s.settled && s.settled[caller.place.run].gen == caller.gen
              && (s.settled[caller.place.run].Resolved? ==>
                    MayAnswer(s, caller.gen, caller.purpose, s.settled[caller.place.run].value))))
    && (caller.place.Behind? ==> caller.place.run in s.drains || caller.place.run in s.settled)
  }

  ghost predicate Served(s: State) {
    forall c :: c in s.callers ==> CallerFits(s, s.callers[c])
  }

  ghost predicate Queue(s: State) {
    Owned(s) && Slots(s) && InOrder(s.attempts) && Dated(s) && Wire(s) && Results(s) && LatestIsHeld(s)
  }

  ghost predicate Inv(s: State) {
    Queue(s) && Served(s)
  }

  ghost predicate IsChoosing(s: State, id: RunId) {
    id in s.drains && s.drains[id].phase.Choosing?
  }

  // ----- each part keeps them -----

  lemma AdmitKeeps(s: State)
    requires Inv(s)
    ensures Inv(Admit(s))
  {
  }

  lemma SpawnKeeps(s: State)
    requires Inv(s) && s.running.None?
    ensures Inv(Spawn(s)) && IsChoosing(Spawn(s), s.nextRun) && Spawn(s).callers == s.callers
  {
  }

  /** History only grows: entries stay, and refusals are not forgotten. */
  ghost predicate Grows(s: State, t: State) {
    && t.generation == s.generation && |s.attempts| <= |t.attempts|
    && forall i :: 0 <= i < |s.attempts| ==>
         t.attempts[i].entry == s.attempts[i].entry
         && (s.attempts[i].outcome == Refused ==> t.attempts[i].outcome == Refused)
  }

  /** Callers are served as before when runs stay live or settle as they were. */
  lemma ServedStays(s: State, t: State)
    requires Grows(s, t) && Served(s) && t.callers == s.callers
    requires t.nextTask == s.nextTask && t.boundary == s.boundary
    requires forall id :: id in s.settled ==> id in t.settled && t.settled[id] == s.settled[id]
    requires forall id :: id in s.drains ==> id in t.drains && t.drains[id].gen == s.drains[id].gen
    ensures Served(t)
  {
  }

  lemma BeginPendingKeeps(s: State, id: RunId)
    requires Inv(s) && IsChoosing(s, id) && !IsFor(s.retry, s.drains[id].gen) && IsFor(s.pending, s.drains[id].gen)
    ensures Inv(Begin(s.(pending := None), id, s.pending.value))
  {
    var t := Begin(s.(pending := None), id, s.pending.value);
    ServedStays(s, t);
  }

  lemma BeginRetryKeeps(s: State, id: RunId)
    requires Inv(s) && IsChoosing(s, id) && IsFor(s.retry, s.drains[id].gen)
    ensures Inv(Begin(s.(retry := None), id, s.retry.value))
  {
    var t := Begin(s.(retry := None), id, s.retry.value);
    ServedStays(s, t);
  }

  /** A drain that finds nothing left has the newest task's result in hand. */
  lemma FinishedHasLatest(s: State, id: RunId)
    requires Queue(s) && IsChoosing(s, id) && s.drains[id].gen == s.generation
    requires s.retry.None? && s.pending.None? && Clean(s) && s.boundary < s.nextTask
    ensures s.drains[id].last == Some(Entry(s.nextTask - 1, s.generation))
  {
  }

  lemma ReleaseKeeps(s: State, id: RunId)
    requires Inv(s) && IsChoosing(s, id) && !IsFor(s.retry, s.drains[id].gen) && !IsFor(s.pending, s.drains[id].gen)
    ensures Inv(Release(s, id))
  {
  }

  lemma ClaimKeeps(s: State, id: RunId)
    requires Inv(s) && IsChoosing(s, id)
    ensures Inv(Claim(s, id))
  {
    if IsFor(s.retry, s.drains[id].gen) {
      BeginRetryKeeps(s, id);
    } else if IsFor(s.pending, s.drains[id].gen) {
      BeginPendingKeeps(s, id);
    } else {
      ReleaseKeeps(s, id);
    }
  }

  lemma WrittenKeeps(s: State, id: RunId)
    requires Inv(s) && IsWriting(s, id)
    ensures Inv(Written(s, id)) && IsChoosing(Written(s, id), id)
  {
    var t := Written(s, id);
    ServedStays(s, t);
  }

  lemma BrokenServes(s: State, id: RunId, retryable: bool, supersedes: bool)
    requires Inv(s) && IsWriting(s, id)
    ensures Served(Broken(s, id, retryable, supersedes))
    ensures LatestIsHeld(Broken(s, id, retryable, supersedes))
  {
    var t := Broken(s, id, retryable, supersedes);
    ServedStays(s, t);
  }

  lemma AbandonedKeeps(s: State, id: RunId, retryable: bool, supersedes: bool)
    requires Queue(s) && IsWriting(s, id) && s.drains[id].phase.entry.gen != s.generation
    ensures var t := Broken(s, id, retryable, supersedes);
      Owned(t) && Slots(t) && InOrder(t.attempts) && Dated(t) && Wire(t) && Results(t)
  {
  }

  lemma LostKeeps(s: State, id: RunId, supersedes: bool)
    requires Queue(s) && IsWriting(s, id) && s.drains[id].phase.entry.gen == s.generation
    ensures var t := Broken(s, id, true, supersedes);
      Owned(t) && Slots(t) && InOrder(t.attempts) && Dated(t) && Wire(t) && Results(t)
  {
  }

  lemma RefusedKeeps(s: State, id: RunId, supersedes: bool)
    requires Queue(s) && IsWriting(s, id) && s.drains[id].phase.entry.gen == s.generation
    ensures var t := Broken(s, id, false, supersedes);
      Owned(t) && Slots(t) && InOrder(t.attempts) && Dated(t) && Wire(t) && Results(t)
  {
  }

  lemma BrokenKeeps(s: State, id: RunId, retryable: bool, supersedes: bool)
    requires Inv(s) && IsWriting(s, id)
    ensures Inv(Broken(s, id, retryable, supersedes))
  {
    BrokenServes(s, id, retryable, supersedes);
    if s.drains[id].phase.entry.gen != s.generation {
      AbandonedKeeps(s, id, retryable, supersedes);
    } else if retryable {
      LostKeeps(s, id, supersedes);
    } else {
      RefusedKeeps(s, id, supersedes);
    }
  }

  lemma ReportKeeps(s: State, id: RunId)
    requires Inv(s) && IsFailing(s, id)
    ensures Inv(Report(s, id))
  {
  }

  lemma DiscardKeeps(s: State)
    requires Inv(s)
    ensures Inv(DiscardQueued(s))
  {
  }

  // ----- whole operations -----

  /** What ties a caller to the edits of its generation, apart from the promise it holds. */
  ghost predicate Bound(s: State, gen: Generation, purpose: Purpose) {
    && gen <= s.generation
    && (purpose.Edit? ==> purpose.task < s.nextTask && (gen == s.generation ==> s.boundary <= purpose.task))
  }

  lemma FreshRunFits(s: State, purpose: Purpose)
    requires Inv(s) && s.running.None? && Bound(s, s.generation, purpose)
    ensures var t := Claim(Spawn(s), s.nextRun);
      Inv(t) && CallerFits(t, Caller(s.generation, purpose, Joined(s.nextRun), false))
  {
    var u := Spawn(s);
    SpawnKeeps(s);
    ClaimKeeps(u, s.nextRun);
    var t := Claim(u, s.nextRun);
    if s.nextRun in t.settled && Clean(t) {
      if purpose.Edit? { FinishedHasLatest(u, s.nextRun); }
    }
  }

  lemma EnsureRunningKeeps(s: State, gen: Generation, purpose: Purpose, finished: bool)
    requires Inv(s) && Bound(s, gen, purpose)
    ensures var (t, place) := EnsureRunning(s, gen);
      Inv(t) && CallerFits(t, Caller(gen, purpose, place, finished))
  {
    if gen == s.generation && s.running.None? {
      FreshRunFits(s, purpose);
    }
  }

  lemma PutKeeps(s: State, c: CallerId, caller: Caller)
    requires Inv(s) && CallerFits(s, caller)
    ensures Inv(Put(s, c, caller))
  {
  }

  lemma FlushLoopKeeps(s: State, c: CallerId, gen: Generation, value: Option<Entry>)
    requires Inv(s) && gen <= s.generation && (value.Some? ==> gen <= value.value.gen)
    ensures Inv(FlushLoop(s, c, gen, value))
  {
    if !HasWork(s, gen) {
      PutKeeps(s, c, Caller(gen, Flush, Ready(value), true));
    } else {
      EnsureRunningKeeps(s, gen, Flush, false);
      var (t, place) := EnsureRunning(s, gen);
      PutKeeps(t, c, Caller(gen, Flush, place, false));
    }
  }

  lemma ResumeKeeps(s: State, c: CallerId)
    requires Inv(s) && c in s.callers
    ensures Inv(Resume(s, c))
  {
    var caller := s.callers[c];
    assert CallerFits(s, caller);
    match caller.place
    case Joined(r) =>
      if r in s.settled && s.settled[r].Rejected? {
        PutKeeps(s, c, caller.(place := Threw, finished := true));
      } else if r in s.settled {
        assert r !in s.drains;
        PutKeeps(s, c, caller.(place := Ready(s.settled[r].value), finished := caller.purpose.Edit?));
      }
    case Behind(r) =>
      if r in s.settled {
        EnsureRunningKeeps(s, caller.gen, caller.purpose, caller.finished);
        var (t, place) := EnsureRunning(s, caller.gen);
        PutKeeps(t, c, caller.(place := place));
      }
    case Ready(value) =>
      if !caller.finished && caller.purpose.Flush? {
        FlushLoopKeeps(s, c, caller.gen, value);
      } else if !caller.finished {
        PutKeeps(s, c, caller.(finished := true));
      }
    case Threw =>
  }

  lemma NextKeeps(s: State, e: Event)
    requires Inv(s)
    ensures Inv(Next(s, e))
  {
    match e
    case Enqueue(c) =>
      if c !in s.callers {
        AdmitKeeps(s);
        EnsureRunningKeeps(Admit(s), s.generation, Edit(s.nextTask), false);
        var (t, place) := EnsureRunning(Admit(s), s.generation);
        PutKeeps(t, c, Caller(s.generation, Edit(s.nextTask), place, false));
      }
    case BeginFlush(c) =>
      if c !in s.callers { FlushLoopKeeps(s, c, s.generation, s.lastResult); }
    case Discard => DiscardKeeps(s);
    case WriterResolves(id) =>
      if IsWriting(s, id) {
        WrittenKeeps(s, id);
        ClaimKeeps(Written(s, id), id);
      }
    case WriterRejects(id, retryable, supersedes) =>
      if IsWriting(s, id) {
        BrokenKeeps(s, id, retryable, supersedes);
        var t := Broken(s, id, retryable, supersedes);
        if t.drains[id].phase.Choosing? { ClaimKeeps(t, id); }
      }
    case Reports(id) => if IsFailing(s, id) { ReportKeeps(s, id); }
    case Resumes(c) => if c in s.callers { ResumeKeeps(s, c); }
  }

  lemma {:induction false} RunKeeps(events: seq<Event>)
    ensures Inv(Run(events))
    decreases |events|
  {
    if events != [] {
      RunKeeps(events[..|events| - 1]);
      NextKeeps(Run(events[..|events| - 1]), events[|events| - 1]);
    }
  }

  // ----- what a step starts, and what it may report -----

  ghost predicate Recorded(s: State, value: Option<Entry>) {
    value.Some? ==> Attempt(value.value, Ok) in s.attempts
  }

  /** Every value on its way to a caller is the result of a completed writer call. */
  ghost predicate Earned(s: State) {
    && Recorded(s, s.lastResult)
    && (forall id :: id in s.drains ==> Recorded(s, s.drains[id].last))
    && (forall id :: id in s.settled && s.settled[id].Resolved? ==> Recorded(s, s.settled[id].value))
    && (forall c :: c in s.callers && s.callers[c].place.Ready? ==> Recorded(s, s.callers[c].place.value))
  }

  /** Calls started between the two states are of the generation current in the first; successes stay recorded. */
  ghost predicate Advances(s: State, t: State) {
    && |s.attempts| <= |t.attempts|
    && (forall i :: |s.attempts| <= i < |t.attempts| ==> t.attempts[i].entry.gen == s.generation)
    && (forall i :: 0 <= i < |s.attempts| ==>
          t.attempts[i].entry == s.attempts[i].entry && (s.attempts[i].outcome == Ok ==> t.attempts[i].outcome == Ok))
  }

  lemma ClaimAdvances(s: State, id: RunId)
    requires Slots(s) && id in s.drains && Earned(s)
    ensures Advances(s, Claim(s, id)) && Earned(Claim(s, id)) && Claim(s, id).generation == s.generation
  {
  }

  lemma WrittenAdvances(s: State, id: RunId)
    requires Wire(s) && IsWriting(s, id) && Earned(s)
    ensures Advances(s, Written(s, id)) && Earned(Written(s, id)) && Written(s, id).generation == s.generation
  {
  }

  lemma BrokenAdvances(s: State, id: RunId, retryable: bool, supersedes: bool)
    requires Wire(s) && IsWriting(s, id) && Earned(s)
    ensures var t := Broken(s, id, retryable, supersedes);
      Advances(s, t) && Earned(t) && t.generation == s.generation
  {
  }

  lemma EnsureRunningAdvances(s: State, gen: Generation)
    requires Slots(s) && Earned(s)
    ensures var (t, place) := EnsureRunning(s, gen);
      Advances(s, t) && Earned(t) && (place.Ready? ==> Recorded(t, place.value)) && t.generation == s.generation
  {
  }

  lemma FlushLoopAdvances(s: State, c: CallerId, gen: Generation, value: Option<Entry>)
    requires Slots(s) && Earned(s) && Recorded(s, value)
    ensures Advances(s, FlushLoop(s, c, gen, value)) && Earned(FlushLoop(s, c, gen, value))
  {
    if !HasWork(s, gen) {
    } else {
      EnsureRunningAdvances(s, gen);
      var (t, place) := EnsureRunning(s, gen);
    }
  }

  lemma ResumeAdvances(s: State, c: CallerId)
    requires Slots(s) && Earned(s) && c in s.callers
    ensures Advances(s, Resume(s, c)) && Earned(Resume(s, c))
  {
    var caller := s.callers[c];
    if caller.place.Behind? {
      EnsureRunningAdvances(s, caller.gen);
    }
    if caller.place.Ready? {
      FlushLoopAdvances(s, c, caller.gen, caller.place.value);
    }
  }

  lemma ResolvedAdvances(s: State, id: RunId)
    requires Inv(s) && Earned(s) && IsWriting(s, id)
    ensures var t := Claim(Written(s, id), id);
      Earned(t) && Advances(s, t)
  {
    var t := Written(s, id);
    WrittenKeeps(s, id);
    WrittenAdvances(s, id);
    ClaimAdvances(t, id);
  }

  lemma RejectedAdvances(s: State, id: RunId, retryable: bool, supersedes: bool)
    requires Inv(s) && Earned(s) && IsWriting(s, id)
    ensures var t := Broken(s, id, retryable, supersedes);
      Earned(t) && Advances(s, t) && Earned(Claim(t, id)) && Advances(s, Claim(t, id))
  {
    var t := Broken(s, id, retryable, supersedes);
    BrokenKeeps(s, id, retryable, supersedes);
    BrokenAdvances(s, id, retryable, supersedes);
    ClaimAdvances(t, id);
  }

  lemma EnqueueAdvances(s: State, c: CallerId)
    requires Inv(s) && Earned(s)
    ensures Earned(Next(s, Enqueue(c))) && Advances(s, Next(s, Enqueue(c)))
  {
    AdmitKeeps(s);
    assert Earned(Admit(s));
    EnsureRunningAdvances(Admit(s), s.generation);
  }

  lemma NextAdvances(s: State, e: Event)
    requires Inv(s) && Earned(s)
    ensures Earned(Next(s, e))
    ensures Advances(s, Next(s, e))
  {
    match e
    case Enqueue(c) => EnqueueAdvances(s, c);
    case BeginFlush(c) => FlushLoopAdvances(s, c, s.generation, s.lastResult);
    case Discard =>
    case WriterResolves(id) => if IsWriting(s, id) { ResolvedAdvances(s, id); }
    case WriterRejects(id, retryable, supersedes) =>
      if IsWriting(s, id) { RejectedAdvances(s, id, retryable, supersedes); }
    case Reports(id) =>
    case Resumes(c) => if c in s.callers { ResumeAdvances(s, c); }
  }

  lemma {:induction false} RunIsEarned(events: seq<Event>)
    ensures Earned(Run(events))
    decreases |events|
  {
    if events != [] {
      RunKeeps(events[..|events| - 1]);
      RunIsEarned(events[..|events| - 1]);
      NextAdvances(Run(events[..|events| - 1]), events[|events| - 1]);
    }
  }

  // ----- what the queue promises -----

  ghost predicate Reachable(s: State) {
    exists events :: Run(events) == s
  }

  lemma ReachableKeeps(s: State)
    requires Reachable(s)
    ensures Inv(s) && Earned(s)
  {
    var events :| Run(events) == s;
    RunKeeps(events);
    RunIsEarned(events);
  }

  /** At most one writer call is outstanding: the newest. */
  lemma OneOutstandingCall(s: State, i: nat, j: nat)
    requires Reachable(s) && i < |s.attempts| && j < |s.attempts|
    requires s.attempts[i].outcome == Open && s.attempts[j].outcome == Open
    ensures i == j == |s.attempts| - 1
  {
    ReachableKeeps(s);
  }

  /**
   An outstanding call is the owner's, and the owner has not settled: whoever
   waits for the run a discard found in place waits out every older call.
   */
  lemma OutstandingCallHoldsTheQueue(s: State, i: nat)
    requires Reachable(s) && i < |s.attempts| && s.attempts[i].outcome == Open
    ensures s.running.Some? && s.running.value.id !in s.settled
    ensures s.running.value.gen == s.attempts[i].entry.gen
  {
    ReachableKeeps(s);
    assert IsWriting(s, s.running.value.id);
  }

  /** Calls start in enqueue order; the same task starts again only after an unknown outcome. */
  lemma TasksStartInOrder(s: State)
    requires Reachable(s)
    ensures InOrder(s.attempts)
  {
    ReachableKeeps(s);
  }

  /** An idle queue without a definitive rejection since the last discard has written the newest task last. */
  lemma IdleQueueHasWrittenLatest(s: State)
    requires Reachable(s)
    requires s.retry.None? && s.pending.None? && s.running.None? && Clean(s) && s.boundary < s.nextTask
    ensures LastAttempt(s, Entry(s.nextTask - 1, s.generation), Ok)
    ensures s.lastResult == Some(Entry(s.nextTask - 1, s.generation))
  {
    ReachableKeeps(s);
  }

  /** Every call a step starts was enqueued since the last discard before that step. */
  lemma NoDiscardedTaskStarts(s: State, e: Event, i: nat)
    requires Reachable(s) && |s.attempts| <= i < |Next(s, e).attempts|
    ensures Next(s, e).attempts[i].entry.gen == s.generation
    ensures s.boundary <= Next(s, e).attempts[i].entry.task
  {
    ReachableKeeps(s);
    NextAdvances(s, e);
    NextKeeps(s, e);
    if e != Discard {
      NextKeepsBoundary(s, e);
    }
  }

  lemma NextKeepsBoundary(s: State, e: Event)
    requires e != Discard
    ensures Next(s, e).boundary == s.boundary && Next(s, e).generation == s.generation
  {
  }

  /** No result of a discarded generation is the queue's last result or answers a later caller. */
  lemma ResultsStayInTheirGeneration(s: State)
    requires Reachable(s)
    ensures s.lastResult.Some? ==> s.lastResult.value.gen == s.generation
    ensures forall c :: c in s.callers && s.callers[c].place.Ready? && s.callers[c].place.value.Some? ==>
      s.callers[c].gen <= s.callers[c].place.value.value.gen
  {
    ReachableKeeps(s);
    forall c | c in s.callers && s.callers[c].place.Ready? && s.callers[c].place.value.Some?
      ensures s.callers[c].gen <= s.callers[c].place.value.value.gen
    {
      assert CallerFits(s, s.callers[c]);
    }
  }

  /**
   An edit whose promise is fulfilled was written, or a newer edit was written
   in its place, as long as nothing was discarded or definitively rejected since.
   */
  lemma FulfilledEditIsWritten(s: State, c: CallerId)
    requires Reachable(s) && c in s.callers && s.callers[c].purpose.Edit? && s.callers[c].place.Ready?
    requires s.callers[c].gen == s.generation && Clean(s)
    ensures var caller := s.callers[c];
      && caller.place.value.Some? && caller.purpose.task <= caller.place.value.value.task
      && Attempt(caller.place.value.value, Ok) in s.attempts
  {
    ReachableKeeps(s);
    assert CallerFits(s, s.callers[c]);
  }
}
