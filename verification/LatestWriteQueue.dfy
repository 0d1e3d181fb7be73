/**
 The save queue as the closure it is: mutable slots and generations, changed
 between two awaits by the methods below. Promises, waiting callers and the log
 of writer calls are kept beside them, because they are what the queue promises about.
 */
module LatestWriteQueue {
  import opened Options
  import opened SaveQueue

  class Queue {
    var retryTask: Option<Entry>
    var pendingTask: Option<Entry>
    var running: Option<Owner>
    var discardGeneration: Generation
    var lastResult: Option<Entry>
    var drains: map<RunId, Drain>
    var settled: map<RunId, Settled>
    var attempts: seq<Attempt>
    var callers: map<CallerId, Caller>
    var nextTask: nat
    var boundary: nat
    var nextRun: RunId

    function View(): State
      reads this
    {
      State(retryTask, pendingTask, running, discardGeneration, lastResult, drains, settled, attempts, callers,
            nextTask, boundary, nextRun)
    }

    constructor ()
      ensures View() == INITIAL
    {
      retryTask, pendingTask, running, lastResult := None, None, None, None;
      discardGeneration, nextTask, boundary, nextRun := 0, 0, 0, 0;
      drains, settled, callers, attempts := map[], map[], map[], [];
    }

    /** One turn of the drain loop, up to the next call of the writer or the end of the run. */
    method Drain(id: RunId)
      requires id in drains
      modifies this
      ensures View() == Claim(old(View()), id)
    {
      var d := drains[id];
      var isRetry := IsFor(retryTask, d.gen);
      if isRetry || IsFor(pendingTask, d.gen) {
        var task := if isRetry then retryTask.value else pendingTask.value;
        if isRetry {
          retryTask := None;
        } else {
          pendingTask := None;
        }
        drains := drains[id := d.(phase := Writing(task, |attempts|))];
        attempts := attempts + [Attempt(task, Open)];
      } else {
        if running.Some? && running.value.id == id {
          running := None;
        }
        drains := drains - {id};
        settled := settled[id := Resolved(d.gen, d.last)];
      }
    }

    method EnsureRunning(gen: Generation) returns (place: Place)
      modifies this
      ensures (View(), place) == SaveQueue.EnsureRunning(old(View()), gen)
    {
      if gen != discardGeneration {
        return Ready(lastResult);
      }
      if running.Some? {
        return if running.value.gen == gen then Joined(running.value.id) else Behind(running.value.id);
      }
      var id := nextRun;
      running := Some(Owner(id, gen));
      nextRun := nextRun + 1;
      drains := drains[id := SaveQueue.Drain.Drain(gen, Choosing, lastResult)];
      Drain(id);
      place := Joined(id);
    }

    method Enqueue(c: CallerId)
      requires c !in callers
      modifies this
      ensures View() == Next(old(View()), SaveQueue.Enqueue(c))
    {
      var task := nextTask;
      var gen := discardGeneration;
      nextTask := nextTask + 1;
      pendingTask := Some(Entry(task, gen));
      assert View() == Admit(old(View()));
      var place := EnsureRunning(gen);
      callers := callers[c := Caller(gen, Edit(task), place, false)];
    }

    /** The loop of `flush`, from one await to the next. */
    method FlushTurn(c: CallerId, gen: Generation, targetResult: Option<Entry>)
      modifies this
      ensures View() == FlushLoop(old(View()), c, gen, targetResult)
    {
      if IsFor(retryTask, gen) || IsFor(pendingTask, gen) || (running.Some? && running.value.gen == gen) {
        var place := EnsureRunning(gen);
        callers := callers[c := Caller(gen, Flush, place, false)];
      } else {
        callers := callers[c := Caller(gen, Flush, Ready(targetResult), true)];
      }
    }

    method BeginFlush(c: CallerId)
      requires c !in callers
      modifies this
      ensures View() == Next(old(View()), SaveQueue.BeginFlush(c))
    {
      FlushTurn(c, discardGeneration, lastResult);
    }

    method Discard()
      modifies this
      ensures View() == Next(old(View()), SaveQueue.Discard)
    {
      discardGeneration := discardGeneration + 1;
      lastResult := None;
      retryTask := None;
      pendingTask := None;
      boundary := nextTask;
    }

    method WriterResolves(id: RunId)
      requires IsWriting(View(), id)
      modifies this
      ensures View() == Next(old(View()), SaveQueue.WriterResolves(id))
    {
      var d := drains[id];
      var task := d.phase.entry;
      attempts := Mark(attempts, d.phase.at, Ok);
      drains := drains[id := SaveQueue.Drain.Drain(d.gen, Choosing, Some(task))];
      if task.gen == discardGeneration {
        lastResult := Some(task);
      }
      Drain(id);
    }

    method WriterRejects(id: RunId, shouldRetry: bool, canSupersede: bool)
      requires IsWriting(View(), id)
      modifies this
      ensures View() == Next(old(View()), SaveQueue.WriterRejects(id, shouldRetry, canSupersede))
    {
      var d := drains[id];
      var task := d.phase.entry;
      if task.gen != discardGeneration {
        attempts := Mark(attempts, d.phase.at, Abandoned);
      } else if shouldRetry {
        attempts := Mark(attempts, d.phase.at, Lost);
        retryTask := Some(task);
      } else {
        attempts := Mark(attempts, d.phase.at, Refused);
        if IsFor(pendingTask, task.gen) {
          if canSupersede {
            drains := drains[id := d.(phase := Choosing)];
            Drain(id);
            return;
          }
          pendingTask := None;
        }
      }
      drains := drains[id := d.(phase := Failing)];
    }

    method Reports(id: RunId)
      requires IsFailing(View(), id)
      modifies this
      ensures View() == Next(old(View()), SaveQueue.Reports(id))
    {
      if running.Some? && running.value.id == id {
        running := None;
      }
      settled := settled[id := Rejected(drains[id].gen)];
      drains := drains - {id};
    }

    method Resumes(c: CallerId)
      requires c in callers
      modifies this
      ensures View() == Next(old(View()), SaveQueue.Resumes(c))
    {
      var caller := callers[c];
      match caller.place
      case Joined(r) =>
        if r in settled {
          if settled[r].Rejected? {
            callers := callers[c := caller.(place := Threw, finished := true)];
          } else {
            callers := callers[c := caller.(place := Ready(settled[r].value), finished := caller.purpose.Edit?)];
          }
        }
      case Behind(r) =>
        if r in settled {
          var place := EnsureRunning(caller.gen);
          callers := callers[c := caller.(place := place)];
        }
      case Ready(value) =>
        if !caller.finished {
          if caller.purpose.Flush? {
            FlushTurn(c, caller.gen, value);
          } else {
            callers := callers[c := caller.(finished := true)];
          }
        }
      case Threw =>
    }
  }
}
