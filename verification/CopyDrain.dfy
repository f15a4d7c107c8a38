/** Without new submissions and flushes the batcher comes to rest, with everything resolved. */
module CopyDrain {
  import opened Basics
  import opened CopyProtocol
  import opened CopyInvariant
  import opened CopySteps

  // A measure of the work left

  function RunWork<T>(run: Run<T>): int {
    var n := 2 * |run.batch.requests|;
    match run.phase
    case Copying => n + 2
    case Finishing(_, next, _) => n - 2 * next + 1
    case Resolving(_, next, _, _) => n - 2 * next
    case Done(_) => 0
  }

  function RunsWork<T>(runs: seq<Run<T>>): int {
    if runs == [] then 0 else RunWork(runs[0]) + RunsWork(runs[1..])
  }

  function WaitingWork<T>(bs: seq<Batch<T>>): int {
    if bs == [] then 0 else 2 * |bs[0].requests| + 3 + WaitingWork(bs[1..])
  }

  function FlushWork(f: Flush): int {
    if f.result.Some? then 0 else |f.captured| - f.awaited + 1
  }

  function FlushesWork(fs: seq<Flush>): int {
    if fs == [] then 0 else FlushWork(fs[0]) + FlushesWork(fs[1..])
  }

  function Work<T>(s: State<T>): int {
    RunsWork(s.runs) + WaitingWork(Waiting(s)) + FlushesWork(s.flushes) + |s.timers|
  }

  /** The events that need no caller: timers, workers and running flushes. */
  predicate Drains<T>(e: Event<T>) {
    !e.Submit? && !e.FlushStarts?
  }

  /** A draining event that is sure to happen. Timers of batches that were closed before may have been stopped, so only
      the timer of the active batch counts. */
  predicate Effective<T>(s: State<T>, e: Event<T>) {
    Drains(e) && (e.TimerFires? ==> s.active.Some? && s.active.value.tickets == [e.ticket])
  }

  lemma {:induction false} RunsWorkAppend<T>(runs: seq<Run<T>>, run: Run<T>)
    ensures RunsWork(runs + [run]) == RunsWork(runs) + RunWork(run)
  {
    if runs == [] {
      assert runs + [run] == [run] && [run][1..] == [];
    } else {
      assert (runs + [run])[1..] == runs[1..] + [run];
      RunsWorkAppend(runs[1..], run);
    }
  }

  lemma {:induction false} RunsWorkUpdate<T>(runs: seq<Run<T>>, i: nat, run: Run<T>)
    requires i < |runs|
    ensures RunsWork(runs[i := run]) == RunsWork(runs) - RunWork(runs[i]) + RunWork(run)
  {
    if i == 0 {
      assert runs[i := run][1..] == runs[1..];
    } else {
      assert runs[i := run][1..] == runs[1..][i - 1 := run];
      RunsWorkUpdate(runs[1..], i - 1, run);
    }
  }

  lemma {:induction false} FlushesWorkUpdate(fs: seq<Flush>, i: nat, f: Flush)
    requires i < |fs|
    ensures FlushesWork(fs[i := f]) == FlushesWork(fs) - FlushWork(fs[i]) + FlushWork(f)
  {
    if i == 0 {
      assert fs[i := f][1..] == fs[1..];
    } else {
      assert fs[i := f][1..] == fs[1..][i - 1 := f];
      FlushesWorkUpdate(fs[1..], i - 1, f);
    }
  }

  lemma {:induction false} WaitingWorkConcat<T>(a: seq<Batch<T>>, b: seq<Batch<T>>)
    ensures WaitingWork(a + b) == WaitingWork(a) + WaitingWork(b)
  {
    if a == [] {
      assert a + b == b;
    } else {
      assert (a + b)[1..] == a[1..] + b;
      WaitingWorkConcat(a[1..], b);
    }
  }

  lemma {:induction false} MergeHeadWork<T>(cfg: Config, queue: seq<Batch<T>>)
    ensures WaitingWork(MergeHead(cfg, queue)) <= WaitingWork(queue)
    decreases |queue|
  {
    if Mergeable(cfg, queue) {
      var a, b, rest := queue[0], queue[1], queue[2..];
      MergeHeadWork(cfg, [Merge(a, b)] + rest);
      assert queue == [a] + ([b] + rest);
      WaitingWorkConcat([a], [b] + rest);
      WaitingWorkConcat([b], rest);
      WaitingWorkConcat([Merge(a, b)], rest);
      assert [a][1..] == [] && [b][1..] == [] && [Merge(a, b)][1..] == [];
    }
  }

  lemma {:induction false} ScheduleWork<T>(cfg: Config, s: State<T>)
    ensures Work(Schedule(cfg, s)) <= Work(s)
    decreases |s.queue|
  {
    hide MergeHead, RunsWork, WaitingWork, FlushesWork;
    if !(cfg.maxConcurrent <= s.inFlight || s.queue == []) {
      var act := if s.active.Some? then [s.active.value] else [];
      var s1 := s.(queue := MergeHead(cfg, s.queue));
      MergeHeadWork(cfg, s.queue);
      WaitingWorkConcat(s.queue, act);
      WaitingWorkConcat(s1.queue, act);
      var s2 := Dispatch(s1);
      RunsWorkAppend(s.runs, Run(s1.queue[0], None, Copying));
      assert Waiting(s1) == [s1.queue[0]] + Waiting(s2);
      WaitingWorkConcat([s1.queue[0]], Waiting(s2));
      OneWaiting(s1.queue[0]);
      ScheduleWork(cfg, s2);
    }
  }

  lemma OneWaiting<T>(b: Batch<T>)
    ensures WaitingWork([b]) == 2 * |b.requests| + 3
  {
    assert [b][1..] == [];
  }

  lemma CloseWork<T>(s: State<T>, reason: Reason)
    ensures Work(CloseActive(s, reason)) <= Work(s)
  {
    if s.active.Some? {
      var b := s.active.value;
      OneWaiting(b);
      OneWaiting(b.(reason := reason));
      WaitingWorkConcat(s.queue, [b]);
      WaitingWorkConcat(s.queue, [b.(reason := reason)]);
      var s' := CloseActive(s, reason);
      assert Waiting(s') == s'.queue;
    }
  }

  /** Every event that needs no caller leaves less work. */
  lemma DrainingDecreases<T>(cfg: Config, s: State<T>, e: Event<T>)
    requires Inv(cfg, s) && Enabled(cfg, s, e) && Drains(e)
    ensures Work(Apply(cfg, s, e)) < Work(s)
  {
    hide Inv, Schedule, RunsWork, WaitingWork, FlushesWork;
    var s' := Apply(cfg, s, e);
    match e
    case TimerFires(t) =>
      var s1 := s.(timers := s.timers - {t});
      CloseWork(s1, Linger);
      ScheduleWork(cfg, CloseActive(s1, Linger));
    case CopyReturns(i, report) => RunsWorkUpdate(s.runs, i, s'.runs[i]);
    case FinishPart(i) => RunsWorkUpdate(s.runs, i, s'.runs[i]);
    case Resolve(i) => RunsWorkUpdate(s.runs, i, s'.runs[i]);
    case Complete(i) =>
      RunsWorkUpdate(s.runs, i, Leave(s, i).runs[i]);
      ScheduleWork(cfg, Leave(s, i));
    case FlushAwaits(f) => FlushesWorkUpdate(s.flushes, f, s'.flushes[f]);
    case FlushReturns(f) => FlushesWorkUpdate(s.flushes, f, s'.flushes[f]);
  }

  lemma {:induction false} RunsWorkNonNegative<T>(runs: seq<Run<T>>)
    requires PhasesInRange(runs)
    ensures RunsWork(runs) >= 0
  {
    if runs != [] {
      assert PhaseInRange(runs[0]);
      RunsWorkNonNegative(runs[1..]);
    }
  }

  lemma {:induction false} WaitingWorkNonNegative<T>(bs: seq<Batch<T>>)
    ensures WaitingWork(bs) >= 0
  {
    if bs != [] {
      WaitingWorkNonNegative(bs[1..]);
    }
  }

  lemma {:induction false} FlushesWorkNonNegative<T>(fs: seq<Flush>, requests: seq<Request<T>>)
    requires forall f | f in fs :: FlushOk(f, requests)
    ensures FlushesWork(fs) >= 0
  {
    if fs != [] {
      assert FlushOk(fs[0], requests);
      FlushesWorkNonNegative(fs[1..], requests);
    }
  }

  lemma WorkNonNegative<T>(cfg: Config, s: State<T>)
    requires Inv(cfg, s)
    ensures Work(s) >= 0
  {
    hide BatchesOk, TicketsOk, Settled;
    RunsWorkNonNegative(s.runs);
    WaitingWorkNonNegative(Waiting(s));
    FlushesWorkNonNegative(s.flushes, s.requests);
  }

  // Something can always happen until everything is done

  /** At rest: nothing pending, active, queued or in flight, every future resolved and every flush returned. */
  ghost predicate AtRest<T>(s: State<T>) {
    && s.pending == {} && s.active.None? && s.queue == [] && s.inFlight == 0
    && (forall r: nat | r < |s.requests| :: s.requests[r].result.Some?)
    && (forall f | f in s.flushes :: f.result.Some?)
  }

  lemma {:induction false} LiveWitness<T>(runs: seq<Run<T>>) returns (i: nat)
    requires Live(runs) > 0
    ensures i < |runs| && !runs[i].phase.Done?
  {
    if !runs[0].phase.Done? {
      i := 0;
    } else {
      var j := LiveWitness(runs[1..]);
      i := j + 1;
    }
  }

  /** A live worker can always move, once its COPY returns. */
  lemma WorkerMoves<T>(cfg: Config, s: State<T>, i: nat) returns (e: Event<T>)
    requires Inv(cfg, s) && i < |s.runs| && !s.runs[i].phase.Done?
    ensures Enabled(cfg, s, e) && Effective(s, e)
  {
    hide TicketsOk, Settled, WellFormed, Ordered;
    var run := s.runs[i];
    assert PhaseOk(run, s.requests);
    assert run.batch in Batches(s) by {
      assert Batches(s)[i] == run.batch;
    }
    assert OwnersOk(run.batch, s.requests);
    match run.phase
    case Copying => e := CopyReturns(i, CopyReport(0, None));
    case Finishing(_, next, _) =>
      e := if next < |run.batch.requests| then FinishPart(i) else Complete(i);
      assert next < |run.batch.requests| ==> Current(run) in run.batch.requests;
    case Resolving(_, _, _, _) =>
      e := Resolve(i);
      assert Current(run) in run.batch.requests;
  }

  lemma FlushMoves<T>(cfg: Config, s: State<T>, f: nat) returns (e: Event<T>)
    requires Inv(cfg, s) && f < |s.flushes| && s.flushes[f].result.None?
    requires forall r: nat | r < |s.requests| :: s.requests[r].result.Some?
    ensures Enabled(cfg, s, e) && Effective(s, e)
  {
    hide Core;
    assert FlushOk(s.flushes[f], s.requests);
    e := if s.flushes[f].awaited < |s.flushes[f].captured| then FlushAwaits(f) else FlushReturns(f);
  }

  lemma DoneOwesNothing<T>(run: Run<T>, r: nat)
    requires run.phase.Done?
    ensures LedgerOf(run, r) == Ledger(0, 0, 0)
  {
    assert run.batch.requests[Finished(run)..] == [];
  }

  lemma {:induction false} NobodyOwes<T>(runs: seq<Run<T>>, r: nat)
    requires PhasesInRange(runs) && Live(runs) == 0
    ensures Total(runs, r) == Ledger(0, 0, 0)
  {
    hide LedgerOf;
    if runs != [] {
      DoneOwesNothing(runs[0], r);
      NobodyOwes(runs[1..], r);
    }
  }

  /** With no active batch and no worker, everybody admitted is resolved. */
  lemma IdleMeansResolved<T>(cfg: Config, s: State<T>)
    requires Inv(cfg, s) && cfg.maxConcurrent > 0 && s.active.None? && s.inFlight == 0
    ensures s.queue == [] && s.pending == {}
    ensures forall r: nat | r < |s.requests| :: s.requests[r].result.Some?
  {
    hide BatchesOk, TicketsOk, Total, Failures, Live;
    forall r: nat | r < |s.requests| ensures r !in s.pending && s.requests[r].result.Some? {
      assert RequestOk(s, r);
      NobodyOwes(s.runs, r);
      assert Waiting(s) == [];
    }
  }

  /** Until it is at rest, the batcher can take a step that needs no caller and no timer but the active batch's. */
  lemma NeverStuck<T>(cfg: Config, s: State<T>) returns (e: Event<T>)
    requires Inv(cfg, s) && cfg.maxConcurrent > 0 && !AtRest(s)
    ensures Enabled(cfg, s, e) && Effective(s, e)
  {
    hide BatchesOk, Settled, PhasesOk, Live, Count;
    if s.active.Some? {
      e := TimerFires(s.active.value.tickets[0]);
    } else if s.inFlight != 0 {
      var i := LiveWitness(s.runs);
      e := WorkerMoves(cfg, s, i);
    } else {
      IdleMeansResolved(cfg, s);
      var f :| 0 <= f < |s.flushes| && s.flushes[f].result.None?;
      e := FlushMoves(cfg, s, f);
    }
  }

  /** Left alone, every run is finite, and one that cannot go on has come to rest: nothing pending, active, queued or in
      flight, every future resolved and every flush returned. Timers that were stopped need not fire. */
  lemma {:induction false} EveryRunDrains<T>(cfg: Config, s: State<T>, events: seq<Event<T>>)
    requires Inv(cfg, s) && cfg.maxConcurrent > 0
    requires Possible(cfg, s, events) && forall i :: 0 <= i < |events| ==> Drains(events[i])
    ensures |events| <= Work(s)
    ensures var s' := After(cfg, s, events);
            (forall e :: Effective(s', e) ==> !Enabled(cfg, s', e)) ==> AtRest(s')
    decreases |events|
  {
    hide Inv, Enabled, Apply, AtRest, Work;
    if events == [] {
      WorkNonNegative(cfg, s);
      if !AtRest(s) {
        var e := NeverStuck(cfg, s);
      }
    } else {
      EventKeepsInv(cfg, s, events[0]);
      DrainingDecreases(cfg, s, events[0]);
      EveryRunDrains(cfg, Apply(cfg, s, events[0]), events[1..]);
    }
  }

  /** Such a run exists from every state. */
  lemma CanDrain<T>(cfg: Config, s: State<T>) returns (events: seq<Event<T>>)
    requires Inv(cfg, s) && cfg.maxConcurrent > 0
    ensures Possible(cfg, s, events) && (forall i :: 0 <= i < |events| ==> Drains(events[i]))
    ensures AtRest(After(cfg, s, events))
    decreases Work(s)
  {
    hide Inv, Enabled, Apply, AtRest, Work;
    if AtRest(s) {
      events := [];
    } else {
      var e := NeverStuck(cfg, s);
      var s' := Apply(cfg, s, e);
      EventKeepsInv(cfg, s, e);
      DrainingDecreases(cfg, s, e);
      WorkNonNegative(cfg, s');
      var rest := CanDrain(cfg, s');
      events := [e] + rest;
      assert events[1..] == rest;
    }
  }
}
