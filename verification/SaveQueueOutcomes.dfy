/**
 What each event does to the save queue, told by the event's arguments and what it finds: which slots it fills or
 empties, which call of the writer goes out next, and what the callers learn. Over runs, hypotheses are about the
 events, not about what the queue made of them.
 */
module SaveQueueOutcomes {
  import opened Options
  import opened SaveQueue
  import opened SaveQueueProofs

  /** The run has called the writer with the entry, as the newest call of all. */
  ghost predicate Writes(s: State, id: RunId, e: Entry) {
    && IsWriting(s, id) && s.drains[id].phase.entry == e
    && LastAttempt(s, e, Open)
  }

  /** What a run that looks for work finds: what is to be tried again before what waits, or nothing. */
  ghost predicate Proceeds(s: State, t: State, id: RunId, retry: Option<Entry>, pending: Option<Entry>) {
    && t.retry == None
    && (retry.Some? ==> Writes(t, id, retry.value) && t.pending == pending)
    && (retry.None? && pending.Some? ==> Writes(t, id, pending.value) && t.pending == None)
    && (retry.None? && pending.None? ==> id !in t.drains && t.pending == None && t.running.None?)
  }

  lemma ClaimProceeds(s: State, id: RunId)
    requires Inv(s) && IsChoosing(s, id) && s.drains[id].gen == s.generation
    ensures Proceeds(s, Claim(s, id), id, s.retry, s.pending)
    ensures var t := Claim(s, id);
      && (s.retry.None? && s.pending.None? ==> t.settled == s.settled[id := Resolved(s.generation, s.drains[id].last)])
      && (s.retry.Some? || s.pending.Some? ==>
            t.settled == s.settled && t.drains[id].gen == s.generation && t.running == s.running)
      && t.callers == s.callers && t.lastResult == s.lastResult
      && t.generation == s.generation && t.nextTask == s.nextTask
      && t.attempts[..|s.attempts|] == s.attempts
  {
  }

  /** A run of a discarded generation finds nothing. */
  lemma StaleClaimEnds(s: State, id: RunId)
    requires Inv(s) && IsChoosing(s, id) && s.drains[id].gen != s.generation
    ensures var t := Claim(s, id);
      && id !in t.drains && t.running.None? && t.retry == s.retry && t.pending == s.pending
      && t.settled == s.settled[id := Resolved(s.drains[id].gen, s.drains[id].last)]
      && t.attempts == s.attempts && t.callers == s.callers && t.lastResult == s.lastResult
  {
  }

  // ----- the writer answers -----

  /** While a call is out there is nothing to try again. */
  lemma WritingHasNoRetry(s: State, id: RunId)
    requires Inv(s) && IsWriting(s, id)
    ensures s.retry.None? && s.running.Some? && s.running.value.id == id
  {
  }

  /** The failure of a discarded call touches no slot. */
  lemma StaleRejectionDoes(s: State, id: RunId, retryable: bool, supersedes: bool)
    requires Reachable(s) && IsWriting(s, id) && s.drains[id].phase.entry.gen != s.generation
    ensures var t := Next(s, WriterRejects(id, retryable, supersedes));
      && IsFailing(t, id) && t.retry == s.retry && t.pending == s.pending && t.lastResult == s.lastResult
      && |t.attempts| == |s.attempts| && t.running == s.running && t.callers == s.callers && t.settled == s.settled
  {
    ReachableKeeps(s);
  }

  /** A failure of unknown outcome keeps its task to be tried again, and leaves a newer one waiting. */
  lemma RetryableRejectionDoes(s: State, id: RunId, supersedes: bool)
    requires Reachable(s) && IsWriting(s, id) && s.drains[id].phase.entry.gen == s.generation
    ensures var t := Next(s, WriterRejects(id, true, supersedes));
      && IsFailing(t, id) && t.retry == Some(s.drains[id].phase.entry) && t.pending == s.pending
      && |t.attempts| == |s.attempts| && t.lastResult == s.lastResult
      && t.running == s.running && t.callers == s.callers && t.settled == s.settled
  {
    ReachableKeeps(s);
  }

  /**
   A definitive rejection keeps nothing to try again. A newer task that may take its place is written at once; in any
   other case both slots are empty and the run fails.
   */
  lemma DefinitiveRejectionDoes(s: State, id: RunId, supersedes: bool)
    requires Reachable(s) && IsWriting(s, id) && s.drains[id].phase.entry.gen == s.generation
    ensures var t := Next(s, WriterRejects(id, false, supersedes));
      && t.retry.None? && t.pending.None? && t.lastResult == s.lastResult
      && t.running == s.running && t.callers == s.callers && t.settled == s.settled
      && (s.pending.Some? && supersedes ==> Writes(t, id, s.pending.value) && |t.attempts| == |s.attempts| + 1)
      && (s.pending.None? || !supersedes ==> IsFailing(t, id) && |t.attempts| == |s.attempts|)
  {
    ReachableKeeps(s);
    WritingHasNoRetry(s, id);
  }

  /** A success of the current generation is the queue's result, and the run goes on or resolves with it. */
  lemma ResolutionDoes(s: State, id: RunId)
    requires Reachable(s) && IsWriting(s, id) && s.drains[id].phase.entry.gen == s.generation
    ensures var e := s.drains[id].phase.entry;
            var t := Next(s, WriterResolves(id));
      && Attempt(e, Ok) in t.attempts && t.lastResult == Some(e) && t.callers == s.callers
      && Proceeds(s, t, id, None, s.pending)
      && (s.pending.None? ==> t.settled == s.settled[id := Resolved(s.generation, Some(e))])
      && (s.pending.Some? ==> t.settled == s.settled && t.running == s.running)
  {
    ReachableKeeps(s);
    WritingHasNoRetry(s, id);
    WrittenKeeps(s, id);
    ClaimProceeds(Written(s, id), id);
    var t := Next(s, WriterResolves(id));
    assert t.attempts[|s.attempts| - 1] == Written(s, id).attempts[|s.attempts| - 1];
  }

  /** A success of a discarded call resolves its own run and is no result of the queue. */
  lemma StaleResolutionDoes(s: State, id: RunId)
    requires Reachable(s) && IsWriting(s, id) && s.drains[id].phase.entry.gen != s.generation
    ensures var e := s.drains[id].phase.entry;
            var t := Next(s, WriterResolves(id));
      && t.lastResult == s.lastResult && t.retry == s.retry && t.pending == s.pending && t.running.None?
      && |t.attempts| == |s.attempts| && t.callers == s.callers
      && t.settled == s.settled[id := Resolved(e.gen, Some(e))]
  {
    ReachableKeeps(s);
    WrittenKeeps(s, id);
    StaleClaimEnds(Written(s, id), id);
  }

  /** The failed run rejects and lets go of the queue; the slots stay for the next one. */
  lemma ReportDoes(s: State, id: RunId)
    requires Reachable(s) && IsFailing(s, id)
    ensures var t := Next(s, Reports(id));
      && t.running.None? && id !in t.drains && t.settled == s.settled[id := Rejected(s.drains[id].gen)]
      && t.retry == s.retry && t.pending == s.pending && t.attempts == s.attempts && t.callers == s.callers
  {
    ReachableKeeps(s);
  }

  // ----- the callers act -----

  /** The promise a caller is given for the current generation: of the run that works for it, or behind an older one. */
  ghost predicate Waits(s: State, caller: Caller) {
    && (s.running.Some? && s.running.value.gen == s.generation ==> caller.place == Joined(s.running.value.id))
    && (s.running.Some? && s.running.value.gen != s.generation ==> caller.place == Behind(s.running.value.id))
    && (s.running.None? ==> caller.place == Joined(s.nextRun))
  }

  /** A run in place goes on untouched; without one a new run proceeds with what waits. */
  ghost predicate Serves(s: State, t: State, retry: Option<Entry>, pending: Option<Entry>) {
    && (s.running.Some? ==> t.running == s.running && t.drains == s.drains && t.attempts == s.attempts
                            && t.settled == s.settled && t.retry == retry && t.pending == pending)
    && (s.running.None? ==> Proceeds(s, t, s.nextRun, retry, pending))
    && t.lastResult == s.lastResult && t.generation == s.generation
  }

  lemma EnsureDoes(s: State, gen: Generation, t: State, place: Place)
    requires Inv(s) && gen == s.generation && (t, place) == EnsureRunning(s, gen)
    ensures Serves(s, t, s.retry, s.pending) && t.callers == s.callers && t.nextTask == s.nextTask
    ensures Waits(s, Caller(s.generation, Flush, place, false))
    ensures s.running.None? && (s.retry.Some? || s.pending.Some?) ==> t.running == Some(Owner(s.nextRun, s.generation))
  {
    if s.running.None? {
      SpawnKeeps(s);
      ClaimProceeds(Spawn(s), s.nextRun);
    }
  }

  /** An edit replaces the one that waits; an idle queue starts at once, with a task to be tried again before it. */
  lemma EnqueueDoes(s: State, c: CallerId)
    requires Reachable(s) && c !in s.callers
    ensures var t := Next(s, Enqueue(c));
      && Serves(s, t, s.retry, Some(Entry(s.nextTask, s.generation))) && t.nextTask == s.nextTask + 1
      && (s.running.None? ==> t.running == Some(Owner(s.nextRun, s.generation)))
      && c in t.callers && t.callers == s.callers[c := t.callers[c]]
      && t.callers[c].purpose == Edit(s.nextTask) && t.callers[c].gen == s.generation && !t.callers[c].finished
      && Waits(s, t.callers[c])
  {
    ReachableKeeps(s);
    AdmitKeeps(s);
    var (t, place) := EnsureRunning(Admit(s), s.generation);
    EnsureDoes(Admit(s), s.generation, t, place);
  }

  /** One look of a flush: it ends with its value without work of its generation, and otherwise waits for a run. */
  ghost predicate FlushTurns(s: State, t: State, c: CallerId, value: Option<Entry>) {
    var works := s.retry.Some? || s.pending.Some? || (s.running.Some? && s.running.value.gen == s.generation);
    && c in t.callers && t.callers == s.callers[c := t.callers[c]]
    && t.callers[c].purpose.Flush? && t.callers[c].gen == s.generation
    && (!works ==> t.callers[c].finished && t.callers[c].place == Ready(value) && t == s.(callers := t.callers))
    && (works ==> !t.callers[c].finished && Waits(s, t.callers[c]) && Serves(s, t, s.retry, s.pending))
  }

  lemma FlushLoopDoes(s: State, c: CallerId, value: Option<Entry>)
    requires Inv(s)
    ensures FlushTurns(s, FlushLoop(s, c, s.generation, value), c, value)
  {
    if HasWork(s, s.generation) {
      var (t, place) := EnsureRunning(s, s.generation);
      EnsureDoes(s, s.generation, t, place);
    }
  }

  /** A flush begins with the queue's result, and waits while there is work, which it starts if nobody does. */
  lemma FlushDoes(s: State, c: CallerId)
    requires Reachable(s) && c !in s.callers
    ensures FlushTurns(s, Next(s, BeginFlush(c)), c, s.lastResult)
  {
    ReachableKeeps(s);
    FlushLoopDoes(s, c, s.lastResult);
  }

  /** A discard empties both slots and the result, and leaves the call that is out to settle. */
  lemma DiscardDoes(s: State)
    requires Reachable(s)
    ensures var t := Next(s, Discard);
      && t.retry.None? && t.pending.None? && t.lastResult.None? && t.generation == s.generation + 1
      && t.running == s.running && t.drains == s.drains && t.settled == s.settled
      && t.attempts == s.attempts && t.callers == s.callers && t.nextTask == s.nextTask == t.boundary
  {
  }

  /** A settled run tells those who joined it: its failure, or its value, with which an edit ends and a flush looks again. */
  lemma JoinedLearns(s: State, c: CallerId)
    requires c in s.callers && s.callers[c].place.Joined?
    ensures var caller := s.callers[c];
            var t := Next(s, Resumes(c));
      && c in t.callers && t == s.(callers := s.callers[c := t.callers[c]])
      && (caller.place.run !in s.settled ==> t.callers[c] == caller)
      && (caller.place.run in s.settled && s.settled[caller.place.run].Rejected? ==>
            t.callers[c].place.Threw? && t.callers[c].finished)
      && (caller.place.run in s.settled && s.settled[caller.place.run].Resolved? ==>
            && t.callers[c].place == Ready(s.settled[caller.place.run].value)
            && (t.callers[c].finished <==> caller.purpose.Edit?))
  {
  }

  /** Behind a settled run a caller looks again: after a discard there is nothing for it, otherwise a run serves it. */
  lemma BehindLearns(s: State, c: CallerId)
    requires Reachable(s) && c in s.callers && s.callers[c].place.Behind? && s.callers[c].place.run in s.settled
    ensures var caller := s.callers[c];
            var t := Next(s, Resumes(c));
      && c in t.callers && t.callers == s.callers[c := t.callers[c]]
      && t.callers[c].purpose == caller.purpose && t.callers[c].gen == caller.gen
      && (caller.gen != s.generation ==> t.callers[c].place == Ready(s.lastResult) && t == s.(callers := t.callers))
      && (caller.gen == s.generation ==> Waits(s, t.callers[c]) && Serves(s, t, s.retry, s.pending))
  {
    ReachableKeeps(s);
    if s.callers[c].gen == s.generation {
      var (t, place) := EnsureRunning(s, s.generation);
      EnsureDoes(s, s.generation, t, place);
    }
  }

  /** A flush that has its value looks again, with that value. */
  lemma FlushLearns(s: State, c: CallerId)
    requires Reachable(s) && c in s.callers && s.callers[c].place.Ready? && !s.callers[c].finished
    requires s.callers[c].purpose.Flush? && s.callers[c].gen == s.generation
    ensures FlushTurns(s, Next(s, Resumes(c)), c, s.callers[c].place.value)
  {
    ReachableKeeps(s);
    FlushLoopDoes(s, c, s.callers[c].place.value);
  }

  /** An edit that has its value ends with it; whoever has ended, or learned of a failure, learns nothing more. */
  lemma EndedLearns(s: State, c: CallerId)
    requires c in s.callers && (s.callers[c].place.Ready? || s.callers[c].place.Threw?)
    ensures var caller := s.callers[c];
            var t := Next(s, Resumes(c));
      && (caller.place.Ready? && caller.purpose.Edit? ==> t == s.(callers := s.callers[c := caller.(finished := true)]))
      && (caller.place.Threw? || caller.finished ==> t == s)
  {
    if s.callers[c].finished {
      assert s.callers[c := s.callers[c]] == s.callers;
    }
  }

  /** A flush from before a discard takes up no newer work: it looks again while its own run is still out, and then ends. */
  lemma StaleFlushLearns(s: State, c: CallerId)
    requires Reachable(s) && c in s.callers && s.callers[c].place.Ready? && !s.callers[c].finished
    requires s.callers[c].purpose.Flush? && s.callers[c].gen != s.generation
    ensures var caller := s.callers[c];
            var t := Next(s, Resumes(c));
            var out := s.running.Some? && s.running.value.gen == caller.gen;
      && t == s.(callers := s.callers[c := t.callers[c]])
      && (out ==> !t.callers[c].finished && t.callers[c].place == Ready(s.lastResult))
      && (!out ==> t.callers[c].finished && t.callers[c].place == caller.place)
  {
    ReachableKeeps(s);
  }

  // ----- over runs -----

  /** No discard, and no failure that the caller calls definitive. */
  predicate Hopeful(e: Event) {
    !e.Discard? && (e.WriterRejects? ==> e.retryable)
  }

  ghost predicate NothingRefused(s: State) {
    forall i :: 0 <= i < |s.attempts| ==> s.attempts[i].outcome != Refused
  }

  lemma HopefulStepRefusesNothing(s: State, e: Event)
    requires NothingRefused(s) && Hopeful(e)
    ensures NothingRefused(Next(s, e)) && Next(s, e).boundary == s.boundary
  {
    NextKeepsBoundary(s, e);
    if e.WriterResolves? {
      if IsWriting(s, e.id) { ClaimRefusesNothing(Written(s, e.id), e.id); }
    } else if e.WriterRejects? {
      if IsWriting(s, e.id) { assert NothingRefused(Broken(s, e.id, true, e.supersedes)); }
    }
  }

  lemma ClaimRefusesNothing(s: State, id: RunId)
    requires NothingRefused(s) && id in s.drains
    ensures NothingRefused(Claim(s, id))
  {
  }

  lemma {:induction false} HopefulRunRefusesNothing(events: seq<Event>)
    requires forall i :: 0 <= i < |events| ==> Hopeful(events[i])
    ensures NothingRefused(Run(events)) && Run(events).boundary == 0
    decreases |events|
  {
    if events != [] {
      HopefulRunRefusesNothing(events[..|events| - 1]);
      HopefulStepRefusesNothing(Run(events[..|events| - 1]), events[|events| - 1]);
    }
  }

  /**
   Whatever else happens, as long as nothing is discarded and no failure is called definitive, a queue that has come to
   rest with both slots empty has written the newest edit, as its last call.
   */
  lemma RestingQueueHasWritten(events: seq<Event>)
    requires forall i :: 0 <= i < |events| ==> Hopeful(events[i])
    ensures var s := Run(events);
      s.retry.None? && s.pending.None? && s.running.None? && s.nextTask > 0 ==>
        && LastAttempt(s, Entry(s.nextTask - 1, s.generation), Ok)
        && s.lastResult == Some(Entry(s.nextTask - 1, s.generation))
  {
    HopefulRunRefusesNothing(events);
    RunKeeps(events);
  }

  /** And a queue that rests with work left is finished by one flush: its calls go out in turn until all is written. */
  lemma FlushFinishes(s: State, c: CallerId)
    requires Reachable(s) && s.running.None? && c !in s.callers && s.pending.Some?
    ensures var begun := Next(s, BeginFlush(c));
            var resolved := Next(begun, WriterResolves(s.nextRun));
      && (s.retry.None? ==> Writes(begun, s.nextRun, s.pending.value) && resolved.running.None?
                            && resolved.lastResult == s.pending)
      && (s.retry.Some? ==> Writes(begun, s.nextRun, s.retry.value) && Writes(resolved, s.nextRun, s.pending.value)
                            && Next(resolved, WriterResolves(s.nextRun)).running.None?
                            && Next(resolved, WriterResolves(s.nextRun)).lastResult == s.pending)
  {
    FlushDoes(s, c);
    ReachableKeeps(s);
    StepIsReachable(s, BeginFlush(c));
    var begun := Next(s, BeginFlush(c));
    ResolutionDoes(begun, s.nextRun);
    if s.retry.Some? {
      StepIsReachable(begun, WriterResolves(s.nextRun));
      ResolutionDoes(Next(begun, WriterResolves(s.nextRun)), s.nextRun);
    }
  }

  lemma StepIsReachable(s: State, e: Event)
    requires Reachable(s)
    ensures Reachable(Next(s, e))
  {
    var events :| Run(events) == s;
    assert (events + [e])[..|events|] == events;
    assert Run(events + [e]) == Next(s, e);
  }
}
