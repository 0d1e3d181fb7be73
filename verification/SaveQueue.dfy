/**
 The latest-write queue: one slot for the newest unstarted task, one for a task
 whose last attempt has an unknown outcome, a draining loop that owns the
 writer, and a discard that opens a new generation. Every await is a point
 where the other callers may act, so each operation is a step of a state machine.

 A task is named by the order in which it was enqueued; a writer result is
 named by the entry whose call produced it.
 */
module SaveQueue {
  import opened Options

  type Generation = nat

  type RunId = nat

  type CallerId = nat

  datatype Entry = Entry(task: nat, gen: Generation)

  datatype Owner = Owner(id: RunId, gen: Generation)

  /** Where a `drain` stands: at its loop head, awaiting the writer, or throwing. */
  datatype Phase = Choosing | Writing(entry: Entry, at: nat) | Failing

  datatype Drain = Drain(gen: Generation, phase: Phase, last: Option<Entry>)

  /** How a run's promise settled, and for which generation it ran. */
  datatype Settled = Resolved(gen: Generation, value: Option<Entry>) | Rejected(gen: Generation)

  /** What became of one call of the writer. */
  datatype Outcome = Open | Ok | Lost | Refused | Abandoned

  datatype Attempt = Attempt(entry: Entry, outcome: Outcome)

  datatype Purpose = Edit(task: nat) | Flush

  /** The promise a caller holds: a run's, one behind an older run, or a settled one. */
  datatype Place = Joined(run: RunId) | Behind(run: RunId) | Ready(value: Option<Entry>) | Threw

  /** `finished` is set once a flush has left its loop; an edit is finished when its promise is. */
  datatype Caller = Caller(gen: Generation, purpose: Purpose, place: Place, finished: bool)

  datatype State = State(
    retry: Option<Entry>,
    pending: Option<Entry>,
    running: Option<Owner>,
    generation: Generation,
    lastResult: Option<Entry>,
    drains: map<RunId, Drain>,
    settled: map<RunId, Settled>,
    attempts: seq<Attempt>,
    callers: map<CallerId, Caller>,
    nextTask: nat,
    boundary: nat,
    nextRun: RunId)

  const INITIAL := State(None, None, None, 0, None, map[], map[], [], map[], 0, 0, 0)

  // ----- the parts of an operation between two awaits -----

  /** The newest task takes the pending slot. */
  function Admit(s: State): State {
    s.(pending := Some(Entry(s.nextTask, s.generation)), nextTask := s.nextTask + 1)
  }

  /** A new run takes ownership before it looks for work. */
  function Spawn(s: State): State {
    s.(running := Some(Owner(s.nextRun, s.generation)),
       drains := s.drains[s.nextRun := Drain(s.generation, Choosing, s.lastResult)],
       nextRun := s.nextRun + 1)
  }

  predicate IsFor(slot: Option<Entry>, gen: Generation) {
    slot.Some? && slot.value.gen == gen
  }

  function Begin(s: State, id: RunId, e: Entry): State
    requires id in s.drains
  {
    s.(drains := s.drains[id := s.drains[id].(phase := Writing(e, |s.attempts|))],
       attempts := s.attempts + [Attempt(e, Open)])
  }

  function Release(s: State, id: RunId): State
    requires id in s.drains
  {
    s.(running := if s.running.Some? && s.running.value.id == id then None else s.running,
       drains := s.drains - {id},
       settled := s.settled[id := Resolved(s.drains[id].gen, s.drains[id].last)])
  }

  /** The loop head of a drain: the retry slot first, then the pending one, else done. */
  function Claim(s: State, id: RunId): State
    requires id in s.drains
  {
    var gen := s.drains[id].gen;
    if IsFor(s.retry, gen) then Begin(s.(retry := None), id, s.retry.value)
    else if IsFor(s.pending, gen) then Begin(s.(pending := None), id, s.pending.value)
    else Release(s, id)
  }

  function Mark(attempts: seq<Attempt>, at: nat, outcome: Outcome): seq<Attempt> {
    if at < |attempts| then attempts[at := attempts[at].(outcome := outcome)] else attempts
  }

  predicate IsWriting(s: State, id: RunId) {
    id in s.drains && s.drains[id].phase.Writing?
  }

  /** The writer's promise resolved. */
  function Written(s: State, id: RunId): State
    requires IsWriting(s, id)
  {
    var d := s.drains[id];
    var e := d.phase.entry;
    s.(drains := s.drains[id := Drain(d.gen, Choosing, Some(e))],
       attempts := Mark(s.attempts, d.phase.at, Ok),
       lastResult := if e.gen == s.generation then Some(e) else s.lastResult)
  }

  /** The writer's promise rejected; the caller's classification of the error comes along. */
  function Broken(s: State, id: RunId, retryable: bool, supersedes: bool): State
    requires IsWriting(s, id)
  {
    var d := s.drains[id];
    var e := d.phase.entry;
    var failing := s.drains[id := d.(phase := Failing)];
    if e.gen != s.generation then
      s.(drains := failing, attempts := Mark(s.attempts, d.phase.at, Abandoned))
    else if retryable then
      s.(drains := failing, attempts := Mark(s.attempts, d.phase.at, Lost), retry := Some(e))
    else if IsFor(s.pending, e.gen) && supersedes then
      s.(drains := s.drains[id := d.(phase := Choosing)], attempts := Mark(s.attempts, d.phase.at, Refused))
    else
      s.(drains := failing, attempts := Mark(s.attempts, d.phase.at, Refused),
         pending := if IsFor(s.pending, e.gen) then None else s.pending)
  }

  predicate IsFailing(s: State, id: RunId) {
    id in s.drains && s.drains[id].phase.Failing?
  }

  /** The rejection of a failed drain is propagated, and ownership released with it. */
  function Report(s: State, id: RunId): State
    requires IsFailing(s, id)
  {
    s.(running := if s.running.Some? && s.running.value.id == id then None else s.running,
       drains := s.drains - {id},
       settled := s.settled[id := Rejected(s.drains[id].gen)])
  }

  function DiscardQueued(s: State): State {
    s.(generation := s.generation + 1, lastResult := None, retry := None, pending := None, boundary := s.nextTask)
  }

  // ----- ensureRunning and its callers -----

  /** The state after `ensureRunning`, and the promise it returns. */
  function EnsureRunning(s: State, gen: Generation): (State, Place) {
    if gen != s.generation then (s, Ready(s.lastResult))
    else match s.running
      case Some(o) => (s, if o.gen == gen then Joined(o.id) else Behind(o.id))
      case None => (Claim(Spawn(s), s.nextRun), Joined(s.nextRun))
  }

  function Put(s: State, c: CallerId, caller: Caller): State {
    s.(callers := s.callers[c := caller])
  }

  /** The condition of the flush loop. */
  predicate HasWork(s: State, gen: Generation) {
    IsFor(s.retry, gen) || IsFor(s.pending, gen) || (s.running.Some? && s.running.value.gen == gen)
  }

  /** One evaluation of the flush loop with the result seen so far. */
  function FlushLoop(s: State, c: CallerId, gen: Generation, value: Option<Entry>): State {
    if !HasWork(s, gen) then Put(s, c, Caller(gen, Flush, Ready(value), true))
    else
      var (t, place) := EnsureRunning(s, gen);
      Put(t, c, Caller(gen, Flush, place, false))
  }

  /** The promise a caller awaits has settled, and the caller resumes. */
  function Resume(s: State, c: CallerId): State
    requires c in s.callers
  {
    var caller := s.callers[c];
    match caller.place
    case Joined(r) =>
      if r !in s.settled then s
      else if s.settled[r].Rejected? then Put(s, c, caller.(place := Threw, finished := true))
      else Put(s, c, caller.(place := Ready(s.settled[r].value), finished := caller.purpose.Edit?))
    case Behind(r) =>
      if r !in s.settled then s
      else
        var (t, place) := EnsureRunning(s, caller.gen);
        Put(t, c, caller.(place := place))
    case Ready(value) =>
      if caller.finished then s
      else if caller.purpose.Flush? then FlushLoop(s, c, caller.gen, value)
      else Put(s, c, caller.(finished := true))
    case Threw => s
  }

  datatype Event =
    | Enqueue(c: CallerId)
    | BeginFlush(c: CallerId)
    | Discard
    | WriterResolves(id: RunId)
    | WriterRejects(id: RunId, retryable: bool, supersedes: bool)
    | Reports(id: RunId)
    | Resumes(c: CallerId)

  function Next(s: State, e: Event): State {
    match e
    case Enqueue(c) =>
      if c in s.callers then s
      else
        var (t, place) := EnsureRunning(Admit(s), s.generation);
        Put(t, c, Caller(s.generation, Edit(s.nextTask), place, false))
    case BeginFlush(c) =>
      if c in s.callers then s else FlushLoop(s, c, s.generation, s.lastResult)
    case Discard => DiscardQueued(s)
    case WriterResolves(id) => if IsWriting(s, id) then Claim(Written(s, id), id) else s
    case WriterRejects(id, retryable, supersedes) =>
      if !IsWriting(s, id) then s
      else
        var t := Broken(s, id, retryable, supersedes);
        if t.drains[id].phase.Choosing? then Claim(t, id) else t
    case Reports(id) => if IsFailing(s, id) then Report(s, id) else s
    case Resumes(c) => if c in s.callers then Resume(s, c) else s
  }

  function Run(events: seq<Event>): State
    decreases |events|
  {
    if events == [] then INITIAL else Next(Run(events[..|events| - 1]), events[|events| - 1])
  }
}
