/** Every event keeps the invariant. */
module CopySteps {
  import opened Basics
  import opened CopyProtocol
  import opened CopyInvariant
  import opened CopyScheduling
  import opened CopyAdmission

  // Workers

  /** A worker's step leaves the arrangement of the batches alone. */
  lemma SameBatches<T>(s: State<T>, s': State<T>, i: nat)
    requires i < |s.runs| && |s'.runs| == |s.runs| && s'.runs == s.runs[i := s'.runs[i]]
    requires s'.runs[i].batch == s.runs[i].batch && s'.queue == s.queue && s'.active == s.active
    ensures Dispatched(s'.runs) == Dispatched(s.runs) && Batches(s') == Batches(s) && Waiting(s') == Waiting(s)
  {
  }

  lemma {:induction false} TotalBounds<T>(runs: seq<Run<T>>, i: nat, r: nat)
    requires PhasesInRange(runs) && i < |runs|
    ensures LedgerOf(runs[i], r).owed <= Total(runs, r).owed
    ensures LedgerOf(runs[i], r).resolving <= Total(runs, r).resolving
    ensures LedgerOf(runs[i], r).completed <= Total(runs, r).completed
  {
    hide LedgerOf;
    assert Total(runs, r) == Plus(LedgerOf(runs[0], r), Total(runs[1..], r));
    if i > 0 {
      TotalBounds(runs[1..], i - 1, r);
    }
  }

  /** Core after a worker's step, given what the step did to the books of each request. */
  lemma WorkerKeepsCore<T>(cfg: Config, s: State<T>, s': State<T>, i: nat)
    requires Core(cfg, s, |s.requests|) && i < |s.runs|
    requires |s'.runs| == |s.runs| && s'.runs == s.runs[i := s'.runs[i]]
    requires s'.runs[i].batch == s.runs[i].batch && !s.runs[i].phase.Done? && !s'.runs[i].phase.Done?
    requires s' == s.(runs := s'.runs, requests := s'.requests)
    requires |s'.requests| == |s.requests|
    requires forall r :: 0 <= r < |s.requests| ==>
      s'.requests[r].coalesced == s.requests[r].coalesced && s'.requests[r].rows == s.requests[r].rows
    requires PhasesOk(s')
    requires forall r: nat | r < |s'.requests| :: RequestOk(s', r)
    ensures Core(cfg, s', |s'.requests|)
  {
    SameBatches(s, s', i);
    LiveUpdate(s.runs, i, s'.runs[i]);
    assert BatchesOk(cfg, s') by {
      forall b | b in Batches(s') ensures WellFormed(cfg, b) && OwnersOk(b, s'.requests) {
        assert OwnersOk(b, s.requests);
      }
    }
  }

  lemma CopyReturnsKeepsCore<T>(cfg: Config, s: State<T>, i: nat, report: CopyReport)
    requires Core(cfg, s, |s.requests|) && i < |s.runs| && s.runs[i].phase.Copying?
    ensures Core(cfg, ApplyCopyReturns(s, i, report), |s.requests|)
  {
    hide Total, Failures, BatchesOk, TicketsOk;
    var s' := ApplyCopyReturns(s, i, report);
    var run, run' := s.runs[i], s'.runs[i];
    assert PhasesOk(s') by {
      forall j | 0 <= j < |s'.runs| ensures PhaseOk(s'.runs[j], s'.requests) {
        assert PhaseOk(s.runs[j], s.requests);
      }
    }
    SameBatches(s, s', i);
    forall r: nat | r < |s'.requests| ensures RequestOk(s', r) {
      TotalUpdate(s.runs, i, run', r);
      forall e ensures Failures(s'.runs, r, e) == Failures(s.runs, r, e) {
        FailuresUpdate(s.runs, i, run', r, e);
      }
      BooksFrame(s, s', r);
    }
    WorkerKeepsCore(cfg, s, s', i);
  }

  lemma FinishPartLedger<T>(s: State<T>, i: nat, r: nat)
    requires Enabled(Config(0, 0), s, FinishPart(i)) && PhasesInRange(s.runs)
    ensures var s', q := ApplyFinishPart(s, i), Current(s.runs[i]);
            var last := LosePart(s.requests[q], s.runs[i].phase.err).pendingParts == 0;
            && PhasesInRange(s'.runs)
            && Total(s.runs, r).owed == Total(s'.runs, r).owed + (if r == q then 1 else 0)
            && Total(s'.runs, r).resolving == Total(s.runs, r).resolving + (if r == q && last then 1 else 0)
            && Total(s'.runs, r).completed == Total(s.runs, r).completed
  {
    hide Total, Count;
    TotalUpdate(s.runs, i, ApplyFinishPart(s, i).runs[i], r);
    CountSplit(s.runs[i].batch.requests, s.runs[i].phase.next, r);
  }

  lemma FinishPartFailures<T>(s: State<T>, i: nat, r: nat, e: CopyError)
    requires Enabled(Config(0, 0), s, FinishPart(i)) && PhasesInRange(s.runs)
    ensures var s', q := ApplyFinishPart(s, i), Current(s.runs[i]);
            && PhasesInRange(s'.runs)
            && Failures(s'.runs, r, e)
            == Failures(s.runs, r, e) + if r == q && s.runs[i].phase.err == Some(e) then 1 else 0
  {
    hide Failures, Count;
    var q, next, requests := Current(s.runs[i]), s.runs[i].phase.next, s.runs[i].batch.requests;
    FailuresUpdate(s.runs, i, ApplyFinishPart(s, i).runs[i], r, e);
    assert requests[..next + 1] == requests[..next] + [q];
    CountConcat(requests[..next], [q], r);
    CountOne(q, r);
  }

  lemma FinishPartBooks<T>(cfg: Config, s: State<T>, i: nat, r: nat)
    requires Core(cfg, s, |s.requests|) && Enabled(cfg, s, FinishPart(i)) && r < |s.requests|
    ensures PhasesInRange(ApplyFinishPart(s, i).runs) && RequestOk(ApplyFinishPart(s, i), r)
  {
    hide LedgerOf, Total, Failures, Count, BatchesOk, TicketsOk, LedgerOf;
    var s', q, err := ApplyFinishPart(s, i), Current(s.runs[i]), s.runs[i].phase.err;
    assert RequestOk(s, r);
    SameBatches(s, s', i);
    FinishPartLedger(s, i, r);
    if r == q {
      forall e ensures Count(s'.requests[r].errs, e) == Failures(s'.runs, r, e) {
        FinishPartFailures(s, i, r, e);
        if err.Some? {
          CountConcat(s.requests[r].errs, [err.value], e);
          CountOne(err.value, e);
        }
      }
    } else {
      forall e ensures Failures(s'.runs, r, e) == Failures(s.runs, r, e) {
        FinishPartFailures(s, i, r, e);
      }
      BooksFrame(s, s', r);
    }
  }

  lemma FinishPartKeepsCore<T>(cfg: Config, s: State<T>, i: nat)
    requires Core(cfg, s, |s.requests|) && Enabled(cfg, s, FinishPart(i))
    ensures Core(cfg, ApplyFinishPart(s, i), |s.requests|)
  {
    hide Total, Failures, BatchesOk, TicketsOk;
    var s', q := ApplyFinishPart(s, i), Current(s.runs[i]);
    assert RequestOk(s, q);
    assert LedgerOf(s.runs[i], q).owed > 0 by {
      CountSplit(s.runs[i].batch.requests, s.runs[i].phase.next, q);
    }
    TotalBounds(s.runs, i, q);
    assert PhasesOk(s') by {
      forall j | 0 <= j < |s'.runs| ensures PhaseOk(s'.runs[j], s'.requests) {
        assert PhaseOk(s.runs[j], s.requests);
        TotalBounds(s.runs, j, q);
      }
    }
    forall r: nat | r < |s'.requests| ensures RequestOk(s', r) {
      FinishPartBooks(cfg, s, i, r);
    }
    WorkerKeepsCore(cfg, s, s', i);
  }

  lemma ResolveLedger<T>(s: State<T>, i: nat, r: nat, e: CopyError)
    requires Enabled(Config(0, 0), s, Resolve(i)) && PhasesInRange(s.runs)
    ensures var s', q := ApplyResolve(s, i), Current(s.runs[i]);
            && PhasesInRange(s'.runs)
            && Total(s'.runs, r).owed == Total(s.runs, r).owed
            && Total(s.runs, r).resolving == Total(s'.runs, r).resolving + (if r == q then 1 else 0)
            && Total(s'.runs, r).completed == Total(s.runs, r).completed + (if r == q then 1 else 0)
            && Failures(s'.runs, r, e) == Failures(s.runs, r, e)
  {
    hide Total, Failures, Count;
    var run', q := ApplyResolve(s, i).runs[i], Current(s.runs[i]);
    TotalUpdate(s.runs, i, run', r);
    FailuresUpdate(s.runs, i, run', r, e);
    CountConcat(s.runs[i].phase.completed, [q], r);
    CountOne(q, r);
  }

  lemma ResolveBooks<T>(cfg: Config, s: State<T>, i: nat, r: nat)
    requires Core(cfg, s, |s.requests|) && Enabled(cfg, s, Resolve(i)) && r < |s.requests|
    ensures s.requests[Current(s.runs[i])].result.None?
    ensures PhasesInRange(ApplyResolve(s, i).runs) && RequestOk(ApplyResolve(s, i), r)
  {
    hide Total, Failures, Count, BatchesOk, TicketsOk;
    var s', q := ApplyResolve(s, i), Current(s.runs[i]);
    assert RequestOk(s, r) && RequestOk(s, q) && PhaseOk(s.runs[i], s.requests);
    TotalBounds(s.runs, i, q);
    SameBatches(s, s', i);
    ResolveLedger(s, i, r, CopyFailed(""));
    forall e ensures Failures(s'.runs, r, e) == Failures(s.runs, r, e) {
      ResolveLedger(s, i, r, e);
    }
  }

  /** A future is resolved at most once: whenever a worker resolves one, it is still pending. */
  lemma ResolveKeepsCore<T>(cfg: Config, s: State<T>, i: nat)
    requires Core(cfg, s, |s.requests|) && Enabled(cfg, s, Resolve(i))
    ensures s.requests[Current(s.runs[i])].result.None?
    ensures Core(cfg, ApplyResolve(s, i), |s.requests|)
  {
    hide Total, Failures, BatchesOk, TicketsOk, RequestOk;
    var s' := ApplyResolve(s, i);
    ResolveBooks(cfg, s, i, Current(s.runs[i]));
    assert PhasesOk(s') by {
      forall j | 0 <= j < |s'.runs| ensures PhaseOk(s'.runs[j], s'.requests) {
        assert PhaseOk(s.runs[j], s.requests);
      }
    }
    forall r: nat | r < |s'.requests| ensures RequestOk(s', r) {
      ResolveBooks(cfg, s, i, r);
    }
    WorkerKeepsCore(cfg, s, s', i);
  }

  // Leaving

  /** The state a completing worker leaves behind, before the freed slot is filled. */
  function Leave<T>(s: State<T>, i: nat): State<T>
    requires i < |s.runs| && s.runs[i].phase.Finishing?
  {
    var run := s.runs[i];
    s.(pending := s.pending - (set r | r in run.phase.completed),
       inFlight := s.inFlight - 1,
       runs := s.runs[i := run.(phase := Done(run.phase.err))])
  }

  lemma LeaveLedger<T>(s: State<T>, i: nat, r: nat, e: CopyError)
    requires Enabled(Config(0, 0), s, Complete(i)) && PhasesInRange(s.runs)
    ensures var s' := Leave(s, i);
            && PhasesInRange(s'.runs)
            && Total(s'.runs, r).owed == Total(s.runs, r).owed
            && Total(s'.runs, r).resolving == Total(s.runs, r).resolving
            && Total(s.runs, r).completed == Total(s'.runs, r).completed + Count(s.runs[i].phase.completed, r)
            && Failures(s'.runs, r, e) == Failures(s.runs, r, e)
  {
    hide Total, Failures, Count;
    var run' := Leave(s, i).runs[i];
    TotalUpdate(s.runs, i, run', r);
    FailuresUpdate(s.runs, i, run', r, e);
  }

  lemma LeaveBooks<T>(cfg: Config, s: State<T>, i: nat, r: nat)
    requires Core(cfg, s, |s.requests|) && Enabled(cfg, s, Complete(i)) && r < |s.requests|
    ensures PhasesInRange(Leave(s, i).runs) && RequestOk(Leave(s, i), r)
  {
    hide Total, Failures, Count, BatchesOk, TicketsOk;
    var s' := Leave(s, i);
    assert RequestOk(s, r);
    SameBatches(s, s', i);
    LeaveLedger(s, i, r, CopyFailed(""));
    CountMember(s.runs[i].phase.completed, r);
    forall e ensures Failures(s'.runs, r, e) == Failures(s.runs, r, e) {
      LeaveLedger(s, i, r, e);
    }
  }

  lemma LeaveKeepsCore<T>(cfg: Config, s: State<T>, i: nat)
    requires Core(cfg, s, |s.requests|) && Enabled(cfg, s, Complete(i))
    ensures Core(cfg, Leave(s, i), |s.requests|)
  {
    hide Total, Failures, RequestOk, Live, WellFormed, OwnersOk, Ordered;
    var s' := Leave(s, i);
    SameBatches(s, s', i);
    LiveUpdate(s.runs, i, s'.runs[i]);
    assert PhasesOk(s') by {
      forall j | 0 <= j < |s'.runs| ensures PhaseOk(s'.runs[j], s'.requests) {
        assert PhaseOk(s.runs[j], s.requests);
      }
    }
    assert Settled(s', |s'.requests|) by {
      forall r: nat | r < |s'.requests| ensures RequestOk(s', r) {
        LeaveBooks(cfg, s, i, r);
      }
    }
  }

  // Timers

  lemma DropTimer<T>(cfg: Config, s: State<T>, n: nat, t: nat)
    requires Core(cfg, s, n) && (s.active.Some? ==> s.active.value.tickets != [t])
    ensures Core(cfg, s.(timers := s.timers - {t}), n)
  {
    hide Total, Failures, Count, RequestOk, WellFormed, OwnersOk, Ordered;
    var s' := s.(timers := s.timers - {t});
    assert Batches(s') == Batches(s);
    assert s.active.Some? ==> s.active.value.tickets == [s.active.value.tickets[0]];
    assert Settled(s', n) by {
      forall r: nat | r < n ensures RequestOk(s', r) {
        BooksFrame(s, s', r);
      }
    }
  }

  lemma TimerKeepsCore<T>(cfg: Config, s: State<T>, t: nat)
    requires Core(cfg, s, |s.requests|) && HasRoom(cfg, s.active) && Busy(cfg, s)
    ensures var s' := ApplyTimer(cfg, s, t);
            && Core(cfg, s', |s'.requests|) && HasRoom(cfg, s'.active) && Busy(cfg, s')
            && s'.requests == s.requests && s'.flushes == s.flushes && s'.pending == s.pending
  {
    hide Total, Failures, Count, Settled, PhasesOk, RowsIn, OwnersIn, Distinct, Schedule;
    if s.active.Some? && s.active.value.tickets == [t] {
      assert s.active.value in Batches(s);
      CloseKeepsCore(cfg, s, |s.requests|, Linger);
      var s1 := CloseActive(s, Linger);
      DropTimer(cfg, s1, |s.requests|, t);
      ScheduleKeepsCore(cfg, s1.(timers := s.timers - {t}), |s.requests|);
    } else {
      DropTimer(cfg, s, |s.requests|, t);
    }
  }

  // Flushes

  /** Nothing a caller was told changes any more. */
  ghost predicate Extends<T>(old': seq<Request<T>>, new': seq<Request<T>>) {
    && |old'| <= |new'|
    && forall r :: 0 <= r < |old'| ==>
         && new'[r].rows == old'[r].rows && new'[r].coalesced == old'[r].coalesced
         && new'[r].rowCount == old'[r].rowCount
         && (old'[r].result.Some? ==> new'[r].result == old'[r].result)
  }

  lemma {:induction false} AwaitErrorsStable<T>(requests: seq<Request<T>>, requests': seq<Request<T>>, ids: seq<nat>)
    requires Extends(requests, requests')
    requires forall i :: 0 <= i < |ids| ==> ids[i] < |requests| && requests[ids[i]].result.Some?
    ensures AwaitErrors(requests', ids) == AwaitErrors(requests, ids)
  {
    if ids != [] {
      AwaitErrorsStable(requests, requests', ids[..|ids| - 1]);
    }
  }

  lemma FlushStable<T>(f: Flush, requests: seq<Request<T>>, requests': seq<Request<T>>)
    requires Extends(requests, requests') && FlushOk(f, requests)
    ensures FlushOk(f, requests')
  {
    AwaitErrorsStable(requests, requests', f.captured[..f.awaited]);
  }

  lemma FlushesStable<T>(s: State<T>, s': State<T>)
    requires FlushesOk(s) && s'.flushes == s.flushes && Extends(s.requests, s'.requests)
    ensures FlushesOk(s')
  {
    forall f | f in s'.flushes ensures FlushOk(f, s'.requests) {
      FlushStable(f, s.requests, s'.requests);
    }
  }

  lemma CloseForFlush<T>(cfg: Config, s: State<T>)
    requires Core(cfg, s, |s.requests|) && Busy(cfg, s)
    ensures var s' := Schedule(cfg, CloseActive(s, Manual));
            && Core(cfg, s', |s'.requests|) && Busy(cfg, s') && s'.active.None?
            && s'.requests == s.requests && s'.flushes == s.flushes && s'.pending == s.pending
  {
    hide Total, Failures, Count, Settled, PhasesOk, RowsIn, OwnersIn, Distinct, Schedule;
    if s.active.Some? {
      assert s.active.value in Batches(s);
      CloseKeepsCore(cfg, s, |s.requests|, Manual);
    }
    ScheduleKeepsCore(cfg, CloseActive(s, Manual), |s.requests|);
  }

  lemma NewFlushOk<T>(cfg: Config, s: State<T>, order: seq<nat>)
    requires Core(cfg, s, |s.requests|) && (set r | r in order) == s.pending
    ensures FlushOk(Flush(|s.requests|, order, 0, [], None), s.requests)
  {
    hide Total, Failures, Count, BatchesOk, TicketsOk;
    forall i | 0 <= i < |order| ensures order[i] < |s.requests| {
      assert order[i] in s.pending;
    }
    forall r: nat | r < |s.requests| ensures s.requests[r].result.Some? || r in order {
      assert RequestOk(s, r);
      assert r in s.pending ==> r in (set x | x in order);
    }
    assert order[..0] == [];
  }

  lemma FlushStartsKeepsInv<T>(cfg: Config, s: State<T>, order: seq<nat>)
    requires Inv(cfg, s) && (set r | r in order) == s.pending
    ensures Inv(cfg, ApplyFlush(cfg, s, order))
  {
    hide Core, CloseActive, Schedule;
    var s1 := Schedule(cfg, CloseActive(s, Manual));
    CloseForFlush(cfg, s);
    NewFlushOk(cfg, s, order);
    FlushesMayChange(cfg, s1, s1.flushes + [Flush(|s.requests|, order, 0, [], None)]);
  }

  lemma FlushesMayChange<T>(cfg: Config, s: State<T>, flushes: seq<Flush>)
    requires Core(cfg, s, |s.requests|)
    ensures Core(cfg, s.(flushes := flushes), |s.requests|)
  {
    hide Total, Failures, Count, RequestOk, WellFormed, OwnersOk, Ordered;
    var s' := s.(flushes := flushes);
    assert Batches(s') == Batches(s);
    forall r: nat | r < |s.requests| ensures RequestOk(s', r) {
      BooksFrame(s, s', r);
    }
  }

  lemma AwaitErrorsNext<T>(requests: seq<Request<T>>, ids: seq<nat>, k: nat)
    requires k < |ids| && forall i :: 0 <= i <= k ==> ids[i] < |requests| && requests[ids[i]].result.Some?
    ensures var errs := requests[ids[k]].result.value.errs;
            AwaitErrors(requests, ids[..k + 1]) == AwaitErrors(requests, ids[..k]) + if errs != [] then [errs] else []
  {
    assert ids[..k + 1][..k] == ids[..k];
  }

  lemma FlushAwaitsKeepsInv<T>(cfg: Config, s: State<T>, f: nat)
    requires Inv(cfg, s) && Enabled(cfg, s, FlushAwaits(f))
    ensures Inv(cfg, ApplyFlushAwaits(s, f))
  {
    hide Core;
    var s', flush := ApplyFlushAwaits(s, f), s.flushes[f];
    FlushesMayChange(cfg, s, s'.flushes);
    assert FlushOk(flush, s.requests);
    AwaitErrorsNext(s.requests, flush.captured, flush.awaited);
    assert FlushOk(s'.flushes[f], s.requests) by {
      hide AwaitErrors;
    }
  }

  lemma FlushReturnsKeepsInv<T>(cfg: Config, s: State<T>, f: nat)
    requires Inv(cfg, s) && Enabled(cfg, s, FlushReturns(f))
    ensures Inv(cfg, Apply(cfg, s, FlushReturns(f)))
  {
    hide Core;
    assert FlushOk(s.flushes[f], s.requests);
    FlushesMayChange(cfg, s, Apply(cfg, s, FlushReturns(f)).flushes);
  }

  // Any event

  lemma InitInv<T>(cfg: Config)
    ensures Inv(cfg, Init<T>())
  {
    assert Batches(Init<T>()) == [];
  }

  lemma ReadyKeepsInv<T>(cfg: Config, s: State<T>, s': State<T>)
    requires Inv(cfg, s) && Core(cfg, s', |s'.requests|) && HasRoom(cfg, s'.active) && Busy(cfg, s')
    requires s'.flushes == s.flushes && Extends(s.requests, s'.requests)
    ensures Inv(cfg, s')
  {
    FlushesStable(s, s');
  }

  lemma SubmitKeepsInv<T>(cfg: Config, s: State<T>, rows: seq<T>, coalesce: bool)
    requires Inv(cfg, s) && rows != []
    ensures var s' := ApplySubmit(cfg, s, rows, coalesce);
            Inv(cfg, s') && Extends(s.requests, s'.requests)
  {
    hide Core, FlushesOk, ApplySubmit;
    var s' := ApplySubmit(cfg, s, rows, coalesce);
    SubmitKeepsCore(cfg, s, rows, coalesce);
    assert forall r :: 0 <= r < |s.requests| ==> s'.requests[r] == s'.requests[..|s.requests|][r];
    ReadyKeepsInv(cfg, s, s');
  }

  /** Whatever happens next, the invariant holds again and nothing a caller was told is taken back. */
  lemma EventKeepsInv<T>(cfg: Config, s: State<T>, e: Event<T>)
    requires Inv(cfg, s) && Enabled(cfg, s, e)
    ensures Inv(cfg, Apply(cfg, s, e)) && Extends(s.requests, Apply(cfg, s, e).requests)
  {
    hide Core, FlushesOk, Schedule, AppendRows;
    var s' := Apply(cfg, s, e);
    match e
    case Submit(rows, coalesce) =>
      SubmitKeepsInv(cfg, s, rows, coalesce);
    case TimerFires(t) =>
      TimerKeepsCore(cfg, s, t);
      ReadyKeepsInv(cfg, s, s');
    case CopyReturns(i, report) =>
      CopyReturnsKeepsCore(cfg, s, i, report);
      ReadyKeepsInv(cfg, s, s');
    case FinishPart(i) =>
      FinishPartKeepsCore(cfg, s, i);
      ReadyKeepsInv(cfg, s, s');
    case Resolve(i) =>
      ResolveKeepsCore(cfg, s, i);
      ReadyKeepsInv(cfg, s, s');
    case Complete(i) =>
      LeaveKeepsCore(cfg, s, i);
      ScheduleKeepsCore(cfg, Leave(s, i), |s.requests|);
      ReadyKeepsInv(cfg, s, s');
    case FlushStarts(order) =>
      FlushStartsKeepsInv(cfg, s, order);
      CloseForFlush(cfg, s);
    case FlushAwaits(f) =>
      FlushAwaitsKeepsInv(cfg, s, f);
    case FlushReturns(f) =>
      FlushReturnsKeepsInv(cfg, s, f);
  }
}
