/** What callers of the batcher can rely on, over every interleaving of events. */
module CopyTheorems {
  import opened Basics
  import opened CopyProtocol
  import opened CopyInvariant
  import opened CopyScheduling
  import opened CopyAdmission
  import opened CopyReasons
  import opened CopySteps

  ghost predicate Reachable<T(!new)>(cfg: Config, s: State<T>) {
    exists events: seq<Event<T>> :: Possible(cfg, Init(), events) && After(cfg, Init(), events) == s
  }

  lemma {:induction false} RunKeepsInv<T>(cfg: Config, s: State<T>, events: seq<Event<T>>)
    requires Inv(cfg, s) && Possible(cfg, s, events)
    ensures Inv(cfg, After(cfg, s, events)) && Extends(s.requests, After(cfg, s, events).requests)
    decreases |events|
  {
    hide Inv, Enabled, Apply;
    if events != [] {
      EventKeepsInv(cfg, s, events[0]);
      RunKeepsInv(cfg, Apply(cfg, s, events[0]), events[1..]);
    }
  }

  lemma ReachableInv<T(!new)>(cfg: Config, s: State<T>)
    requires Reachable(cfg, s)
    ensures Inv(cfg, s)
  {
    hide Inv;
    var events :| Possible(cfg, Init(), events) && After(cfg, Init(), events) == s;
    InitInv<T>(cfg);
    RunKeepsInv(cfg, Init(), events);
  }

  // Rows

  lemma RowsSplit<T>(a: seq<Batch<T>>, b: seq<Batch<T>>, c: seq<Batch<T>>, r: nat)
    ensures RowsOf(AllParts(a + (b + c)), r) == RowsOf(AllParts(a), r) + RowsOf(AllParts(b), r) + RowsOf(AllParts(c), r)
  {
    hide AllParts, AllTickets, AllOwners, RowsOf;
    BatchesConcat(a, b + c);
    BatchesConcat(b, c);
    RowsOfConcat(AllParts(a), AllParts(b) + AllParts(c), r);
    RowsOfConcat(AllParts(b), AllParts(c), r);
  }

  /** Dispatched, queued and active batches hold, in this order, exactly the rows each request submitted; what a batch
      sends to the database is exactly what its parts say. */
  lemma EveryRowInOnePlace<T(!new)>(cfg: Config, s: State<T>, r: nat)
    requires Reachable(cfg, s) && r < |s.requests|
    ensures RowsOf(AllParts(Dispatched(s.runs)), r) + RowsOf(AllParts(s.queue), r)
          + RowsOf(AllParts(if s.active.Some? then [s.active.value] else []), r) == s.requests[r].rows
    ensures forall b | b in Batches(s) :: b.rows == RowsIn(b.parts) && b.requests == OwnersIn(b.parts)
  {
    hide RequestOk, RowsOf, RowsIn, OwnersIn, Distinct, AllParts, TicketsOk, PhasesOk;
    ReachableInv(cfg, s);
    RowsSplit(Dispatched(s.runs), s.queue, if s.active.Some? then [s.active.value] else [], r);
  }

  function Volume<T>(bs: seq<Batch<T>>): nat {
    if bs == [] then 0 else |bs[0].rows| + Volume(bs[1..])
  }

  function Submitted<T>(requests: seq<Request<T>>): nat {
    if requests == [] then 0 else Submitted(requests[..|requests| - 1]) + |requests[|requests| - 1].rows|
  }

  /** The rows of the first `n` requests. */
  function VolumeOf<T>(parts: seq<Part<T>>, n: nat): nat {
    if n == 0 then 0 else VolumeOf(parts, n - 1) + |RowsOf(parts, n - 1)|
  }

  lemma {:induction false} VolumeOfCons<T>(parts: seq<Part<T>>, n: nat)
    requires parts != []
    ensures VolumeOf(parts, n) == VolumeOf(parts[1..], n) + if parts[0].request < n then |parts[0].rows| else 0
  {
    if n > 0 {
      VolumeOfCons(parts, n - 1);
    }
  }

  lemma {:induction false} VolumeOfAll<T>(parts: seq<Part<T>>, n: nat)
    requires forall i :: 0 <= i < |parts| ==> parts[i].request < n
    ensures VolumeOf(parts, n) == |RowsIn(parts)|
  {
    if parts == [] {
      NoVolume<T>(n);
    } else {
      VolumeOfCons(parts, n);
      VolumeOfAll(parts[1..], n);
    }
  }

  lemma {:induction false} NoVolume<T>(n: nat)
    ensures VolumeOf<T>([], n) == 0
  {
    if n > 0 {
      NoVolume<T>(n - 1);
    }
  }

  lemma {:induction false} VolumeOfBatches<T>(cfg: Config, bs: seq<Batch<T>>, n: nat)
    requires forall b | b in bs :: WellFormed(cfg, b) && forall r | r in b.requests :: r < n
    ensures Volume(bs) == |RowsIn(AllParts(bs))|
    ensures forall i :: 0 <= i < |AllParts(bs)| ==> AllParts(bs)[i].request < n
  {
    hide Distinct;
    if bs != [] {
      assert WellFormed(cfg, bs[0]) by {
        assert bs[0] in bs;
      }
      OwnersAt(bs[0].parts);
      forall i | 0 <= i < |bs[0].parts| ensures bs[0].parts[i].request < n {
        assert bs[0].requests[i] in bs[0].requests;
      }
      PartsConcat(bs[0].parts, AllParts(bs[1..]));
      VolumeOfBatches(cfg, bs[1..], n);
    }
  }

  lemma {:induction false} OwnersAt<T>(parts: seq<Part<T>>)
    ensures |OwnersIn(parts)| == |parts|
    ensures forall i :: 0 <= i < |parts| ==> OwnersIn(parts)[i] == parts[i].request
  {
    if parts != [] {
      OwnersAt(parts[1..]);
    }
  }

  lemma {:induction false} SettledVolume<T>(parts: seq<Part<T>>, requests: seq<Request<T>>)
    requires forall r: nat | r < |requests| :: RowsOf(parts, r) == requests[r].rows
    ensures VolumeOf(parts, |requests|) == Submitted(requests)
  {
    if requests != [] {
      SettledVolume(parts, requests[..|requests| - 1]);
    }
  }

  /** No row is dropped and none is invented: the batches hold as many rows as were submitted. */
  lemma RowsConserved<T(!new)>(cfg: Config, s: State<T>)
    requires Reachable(cfg, s)
    ensures Volume(Batches(s)) == Submitted(s.requests)
  {
    hide Total, Failures, Count, RowsOf, VolumeOf, Submitted, Volume, AllParts, RowsIn;
    ReachableInv(cfg, s);
    forall b | b in Batches(s) ensures WellFormed(cfg, b) && forall r | r in b.requests :: r < |s.requests| {
      assert OwnersOk(b, s.requests);
    }
    VolumeOfBatches(cfg, Batches(s), |s.requests|);
    VolumeOfAll(AllParts(Batches(s)), |s.requests|);
    SettledVolume(AllParts(Batches(s)), s.requests);
  }

  // Results

  lemma {:induction false} FailuresBound<T>(runs: seq<Run<T>>, i: nat, r: nat, e: CopyError)
    requires PhasesInRange(runs) && i < |runs|
    ensures FailureOf(runs[i], r, e) <= Failures(runs, r, e)
  {
    hide FailureOf;
    assert Failures(runs, r, e) == FailureOf(runs[0], r, e) + Failures(runs[1..], r, e);
    if i > 0 {
      FailuresBound(runs[1..], i - 1, r, e);
    }
  }

  lemma {:induction false} FailuresWitness<T>(runs: seq<Run<T>>, r: nat, e: CopyError) returns (i: nat)
    requires PhasesInRange(runs) && Failures(runs, r, e) > 0
    ensures i < |runs| && FailureOf(runs[i], r, e) > 0
  {
    hide FailureOf;
    if FailureOf(runs[0], r, e) > 0 {
      i := 0;
    } else {
      var j := FailuresWitness(runs[1..], r, e);
      i := j + 1;
    }
  }

  /** A worker's COPY returned without error and with the exact row count of its batch. */
  predicate Succeeded<T>(run: Run<T>) {
    run.report == Some(CopyReport(|run.batch.rows|, None))
  }

  /** When a request owes nothing, each batch listing it was dispatched and its COPY has returned. */
  lemma AllPartsReturned<T>(cfg: Config, s: State<T>, r: nat)
    requires Inv(cfg, s) && r < |s.requests| && s.requests[r].pendingParts == 0
    ensures forall b | b in Waiting(s) :: r !in b.requests
    ensures forall i | 0 <= i < |s.runs| && r in s.runs[i].batch.requests ::
      r in s.runs[i].batch.requests[..Finished(s.runs[i])] && s.runs[i].report.Some?
  {
    hide Total, Failures, Count, BatchesOk, TicketsOk, AllOwners;
    assert RequestOk(s, r) && Owed(s, r) == 0;
    NoOwners(Waiting(s), r);
    forall i | 0 <= i < |s.runs| && r in s.runs[i].batch.requests
      ensures r in s.runs[i].batch.requests[..Finished(s.runs[i])] && s.runs[i].report.Some?
    {
      var run := s.runs[i];
      assert PhaseOk(run, s.requests);
      TotalBounds(s.runs, i, r);
      CountMember(run.batch.requests[Finished(run)..], r);
      assert run.batch.requests == run.batch.requests[..Finished(run)] + run.batch.requests[Finished(run)..];
    }
  }

  lemma {:induction false} NoOwners<T>(bs: seq<Batch<T>>, r: nat)
    requires Count(AllOwners(bs), r) == 0
    ensures forall b | b in bs :: r !in b.requests
  {
    if bs != [] {
      CountConcat(bs[0].requests, AllOwners(bs[1..]), r);
      CountMember(bs[0].requests, r);
      NoOwners(bs[1..], r);
    }
  }

  /** The workers from the k-th on whose COPY carried rows of request `r` and failed with `e`. */
  ghost function FailedWith<T>(runs: seq<Run<T>>, k: nat, r: nat, e: CopyError): set<nat>
    requires PhasesInRange(runs)
  {
    set i: nat | k <= i < |runs| && FailureOf(runs[i], r, e) > 0
  }

  lemma {:induction false} FailuresCounted<T>(runs: seq<Run<T>>, k: nat, r: nat, e: CopyError)
    requires PhasesInRange(runs) && k <= |runs|
    requires forall i :: 0 <= i < |runs| ==> Distinct(runs[i].batch.requests)
    ensures Failures(runs[k..], r, e) == |FailedWith(runs, k, r, e)|
    decreases |runs| - k
  {
    hide FailureOf, Distinct;
    if k == |runs| {
      assert FailedWith(runs, k, r, e) == {};
    } else {
      hide FailedWith;
      FailuresCounted(runs, k + 1, r, e);
      AtMostOnce(runs[k], r, e);
      FailedNext(runs, k, r, e);
      FailuresFrom(runs, k, r, e);
    }
  }

  lemma FailuresFrom<T>(runs: seq<Run<T>>, k: nat, r: nat, e: CopyError)
    requires PhasesInRange(runs) && k < |runs|
    ensures Failures(runs[k..], r, e) == FailureOf(runs[k], r, e) + Failures(runs[k + 1..], r, e)
  {
    hide FailureOf;
    assert runs[k..][1..] == runs[k + 1..];
  }

  lemma FailedNext<T>(runs: seq<Run<T>>, k: nat, r: nat, e: CopyError)
    requires PhasesInRange(runs) && k < |runs|
    ensures |FailedWith(runs, k, r, e)|
         == |FailedWith(runs, k + 1, r, e)| + if FailureOf(runs[k], r, e) > 0 then 1 else 0
  {
    hide FailureOf;
    var all, later := FailedWith(runs, k, r, e), FailedWith(runs, k + 1, r, e);
    if FailureOf(runs[k], r, e) > 0 {
      assert all == later + {k};
    } else {
      assert all == later;
    }
  }

  lemma AtMostOnce<T>(run: Run<T>, r: nat, e: CopyError)
    requires PhaseInRange(run) && Distinct(run.batch.requests)
    ensures FailureOf(run, r, e) <= 1
  {
    CountMember(run.batch.requests[..Finished(run)], r);
  }

  /** The COPYs that carried rows of request `r` and failed with this cause. */
  ghost function FailedCopies<T>(runs: seq<Run<T>>, r: nat, cause: string): set<nat> {
    set i: nat | i < |runs| && r in runs[i].batch.requests && runs[i].report.Some?
                 && runs[i].report.value.failure == Some(cause)
  }

  /** The COPYs that carried rows of request `r` and stored `got` rows without an error, though they were given
      `want`. */
  ghost function Miscounted<T>(runs: seq<Run<T>>, r: nat, got: int, want: int): set<nat> {
    set i: nat | i < |runs| && r in runs[i].batch.requests && runs[i].report == Some(CopyReport(got, None))
                 && |runs[i].batch.rows| == want != got
  }

  /** The errors of a request that owes nothing are those its COPYs reported, each as often as it was reported. */
  lemma ErrorsAreReported<T>(cfg: Config, s: State<T>, r: nat, e: CopyError)
    requires Inv(cfg, s) && r < |s.requests| && s.requests[r].pendingParts == 0
    ensures Count(s.requests[r].errs, e)
         == match e
            case CopyFailed(cause) => |FailedCopies(s.runs, r, cause)|
            case CountMismatch(got, want) => |Miscounted(s.runs, r, got, want)|
            case Canceled => 0
  {
    hide Total, Failures, Count, TicketsOk, AllOwners, Owed;
    AllPartsReturned(cfg, s, r);
    assert RequestOk(s, r);
    forall i | 0 <= i < |s.runs| ensures Distinct(s.runs[i].batch.requests) {
      assert Dispatched(s.runs)[i] in Batches(s);
    }
    FailuresCounted(s.runs, 0, r, e);
    assert s.runs[0..] == s.runs;
    var found := FailedWith(s.runs, 0, r, e);
    forall i: nat | i < |s.runs|
      ensures i in found <==> r in s.runs[i].batch.requests && s.runs[i].report.Some?
                              && Verdict(s.runs[i].report.value, |s.runs[i].batch.rows|) == Some(e)
    {
      assert PhaseOk(s.runs[i], s.requests);
      CountMember(s.runs[i].batch.requests[..Finished(s.runs[i])], r);
    }
    match e
    case CopyFailed(cause) => assert found == FailedCopies(s.runs, r, cause);
    case CountMismatch(got, want) => assert found == Miscounted(s.runs, r, got, want);
    case Canceled => assert found == {};
  }

  lemma ReportedErrors<T>(cfg: Config, s: State<T>, r: nat)
    requires Inv(cfg, s) && r < |s.requests| && s.requests[r].pendingParts == 0
    ensures var errs := s.requests[r].errs;
            && (forall cause :: Count(errs, CopyFailed(cause)) == |FailedCopies(s.runs, r, cause)|)
            && (forall got, want :: Count(errs, CountMismatch(got, want)) == |Miscounted(s.runs, r, got, want)|)
            && Canceled !in errs
  {
    hide Inv, Count, FailedCopies, Miscounted;
    var errs := s.requests[r].errs;
    forall cause ensures Count(errs, CopyFailed(cause)) == |FailedCopies(s.runs, r, cause)| {
      ErrorsAreReported(cfg, s, r, CopyFailed(cause));
    }
    forall got, want ensures Count(errs, CountMismatch(got, want)) == |Miscounted(s.runs, r, got, want)| {
      ErrorsAreReported(cfg, s, r, CountMismatch(got, want));
    }
    ErrorsAreReported(cfg, s, r, Canceled);
    CountMember(errs, Canceled);
  }

  /** A resolved future holds the full row count and no error exactly when every COPY carrying rows of the request
      succeeded with the exact count of its batch; otherwise it holds zero and the errors of the others: the cause of
      every COPY that failed, and a mismatch for every one that returned another count. */
  lemma ResultIsExact<T(!new)>(cfg: Config, s: State<T>, r: nat)
    requires Reachable(cfg, s) && r < |s.requests| && s.requests[r].result.Some?
    ensures var outcome := s.requests[r].result.value;
            && outcome.count == (if outcome.errs == [] then |s.requests[r].rows| else 0)
            && (outcome.errs == []
                <==> forall i | 0 <= i < |s.runs| && r in s.runs[i].batch.requests :: Succeeded(s.runs[i]))
    ensures var errs := s.requests[r].result.value.errs;
            && (forall cause :: Count(errs, CopyFailed(cause)) == |FailedCopies(s.runs, r, cause)|)
            && (forall got, want :: Count(errs, CountMismatch(got, want)) == |Miscounted(s.runs, r, got, want)|)
            && Canceled !in errs
    ensures forall b | b in Waiting(s) :: r !in b.requests
    ensures forall i | 0 <= i < |s.runs| && r in s.runs[i].batch.requests :: s.runs[i].report.Some?
  {
    hide Total, Failures, Count, BatchesOk, TicketsOk, AllOwners, FailedCopies, Miscounted;
    ReachableInv(cfg, s);
    assert RequestOk(s, r);
    AllPartsReturned(cfg, s, r);
    var q := s.requests[r];
    ReportedErrors(cfg, s, r);
    forall i | 0 <= i < |s.runs| && r in s.runs[i].batch.requests && q.errs == []
      ensures Succeeded(s.runs[i])
    {
      var run := s.runs[i];
      assert PhaseOk(run, s.requests);
      if run.phase.err.Some? {
        var e := run.phase.err.value;
        FailuresBound(s.runs, i, r, e);
        CountMember(run.batch.requests[..Finished(run)], r);
        CountMember(q.errs, e);
        assert false;
      }
    }
    if q.errs != [] {
      var e := q.errs[0];
      CountMember(q.errs, e);
      var i := FailuresWitness(s.runs, r, e);
      CountMember(s.runs[i].batch.requests[..Finished(s.runs[i])], r);
      assert PhaseOk(s.runs[i], s.requests);
      assert r in s.runs[i].batch.requests && !Succeeded(s.runs[i]);
    }
  }

  /** The part counter is the number of batches still to finish for the request; a request whose counter is zero is
      resolved or being resolved by exactly one worker, and an unresolved request is always in `pending`. */
  lemma PartsAreCounted<T(!new)>(cfg: Config, s: State<T>, r: nat)
    requires Reachable(cfg, s) && r < |s.requests|
    ensures PhasesInRange(s.runs) && s.requests[r].pendingParts == Owed(s, r)
    ensures s.requests[r].pendingParts == 0 && s.requests[r].result.None? ==> Total(s.runs, r).resolving == 1
    ensures s.requests[r].pendingParts > 0 ==> s.requests[r].result.None? && Total(s.runs, r).resolving == 0
    ensures s.requests[r].result.None? ==> r in s.pending
  {
    hide Total, Failures, Count, BatchesOk, TicketsOk, Owed;
    ReachableInv(cfg, s);
    assert RequestOk(s, r);
  }

  /** A worker never resolves a future twice, and no event changes a resolved future. */
  lemma ResolvedOnce<T(!new)>(cfg: Config, s: State<T>, e: Event<T>, r: nat)
    requires Reachable(cfg, s) && Enabled(cfg, s, e) && r < |s.requests|
    ensures s.requests[r].result.Some? ==>
      r < |Apply(cfg, s, e).requests| && Apply(cfg, s, e).requests[r].result == s.requests[r].result
    ensures e.Resolve? ==> s.requests[Current(s.runs[e.run])].result.None?
  {
    hide Core, Apply;
    ReachableInv(cfg, s);
    EventKeepsInv(cfg, s, e);
    if e.Resolve? {
      ResolveKeepsCore(cfg, s, e.run);
    }
  }

  // Flushing

  /** A flush keeps its barrier and its futures, and once it returned it stays as it is. */
  ghost predicate SameFlush<T>(s: State<T>, s': State<T>, f: nat) {
    && f < |s.flushes| && f < |s'.flushes|
    && s'.flushes[f].barrier == s.flushes[f].barrier && s'.flushes[f].captured == s.flushes[f].captured
    && (s.flushes[f].result.Some? ==> s'.flushes[f] == s.flushes[f])
  }

  lemma FlushKept<T>(cfg: Config, s: State<T>, e: Event<T>, f: nat)
    requires Inv(cfg, s) && Enabled(cfg, s, e) && f < |s.flushes|
    ensures SameFlush(s, Apply(cfg, s, e), f)
  {
    hide Core, Schedule, AppendRows;
    match e
    case Submit(rows, coalesce) => SubmitKeepsCore(cfg, s, rows, coalesce);
    case TimerFires(t) => TimerKeepsCore(cfg, s, t);
    case Complete(i) =>
      LeaveKeepsCore(cfg, s, i);
      ScheduleKeepsCore(cfg, Leave(s, i), |s.requests|);
    case FlushStarts(order) => CloseForFlush(cfg, s);
    case _ =>
  }

  lemma {:induction false} FlushKeptOverRun<T>(cfg: Config, s: State<T>, events: seq<Event<T>>, f: nat)
    requires Inv(cfg, s) && Possible(cfg, s, events) && f < |s.flushes|
    ensures SameFlush(s, After(cfg, s, events), f)
    decreases |events|
  {
    hide Inv, Enabled, Apply;
    if events != [] {
      FlushKept(cfg, s, events[0], f);
      EventKeepsInv(cfg, s, events[0]);
      FlushKeptOverRun(cfg, Apply(cfg, s, events[0]), events[1..], f);
    }
  }

  /** A flush is a barrier. It closes the active batch. When it returns, every request admitted before it is resolved;
      it waited only for such requests; and it returns no error exactly when every request that was pending at the
      barrier succeeded. Its errors are those of the requests that failed, in the order in which it awaited them. */
  lemma FlushIsABarrier<T(!new)>(cfg: Config, before: State<T>, order: seq<nat>, events: seq<Event<T>>)
    requires Reachable(cfg, before) && Enabled(cfg, before, FlushStarts(order))
    requires Possible(cfg, ApplyFlush(cfg, before, order), events)
    ensures ApplyFlush(cfg, before, order).active.None?
    ensures var s := After(cfg, ApplyFlush(cfg, before, order), events);
            && |before.flushes| < |s.flushes| && |before.requests| <= |s.requests|
            && var flush := s.flushes[|before.flushes|];
            && flush.captured == order && (forall r | r in order :: r < |before.requests|)
            && (flush.result.Some? ==>
                  && (forall r: nat | r < |before.requests| :: s.requests[r].result.Some?)
                  && (flush.result.value == [] <==> forall r | r in order :: s.requests[r].result.value.errs == [])
                  && (forall i :: 0 <= i < |order| ==> order[i] < |s.requests| && s.requests[order[i]].result.Some?)
                  && flush.result.value == Filter(ErrorsOf(s.requests, order), Failed))
  {
    hide Core, Schedule, CloseActive, AwaitErrors, Possible, After;
    ReachableInv(cfg, before);
    var s1, f := ApplyFlush(cfg, before, order), |before.flushes|;
    CloseForFlush(cfg, before);
    FlushStartsKeepsInv(cfg, before, order);
    RunKeepsInv(cfg, s1, events);
    FlushKeptOverRun(cfg, s1, events, f);
    var s := After(cfg, s1, events);
    var flush := s.flushes[f];
    assert FlushOk(flush, s.requests);
    assert forall r | r in order :: exists i :: 0 <= i < |order| && order[i] == r;
    if flush.result.Some? {
      assert flush.captured[..flush.awaited] == order;
      NoAwaitErrors(s.requests, order);
      FailedErrors(s.requests, order);
    }
  }

  lemma {:induction false} NoAwaitErrors<T>(requests: seq<Request<T>>, ids: seq<nat>)
    requires forall i :: 0 <= i < |ids| ==> ids[i] < |requests| && requests[ids[i]].result.Some?
    ensures AwaitErrors(requests, ids) == []
      <==> forall i :: 0 <= i < |ids| ==> requests[ids[i]].result.value.errs == []
  {
    if ids != [] {
      var k := |ids| - 1;
      NoAwaitErrors(requests, ids[..k]);
      AwaitErrorsNext(requests, ids, k);
      assert ids[..k + 1] == ids;
    }
  }

  /** The errors the given futures hold, one entry for each future. */
  ghost function ErrorsOf<T>(requests: seq<Request<T>>, ids: seq<nat>): seq<seq<CopyError>>
    requires forall i :: 0 <= i < |ids| ==> ids[i] < |requests| && requests[ids[i]].result.Some?
  {
    seq(|ids|, i requires 0 <= i < |ids| => requests[ids[i]].result.value.errs)
  }

  predicate Failed(errs: seq<CopyError>) {
    errs != []
  }

  lemma {:induction false} FailedErrors<T>(requests: seq<Request<T>>, ids: seq<nat>)
    requires forall i :: 0 <= i < |ids| ==> ids[i] < |requests| && requests[ids[i]].result.Some?
    ensures AwaitErrors(requests, ids) == Filter(ErrorsOf(requests, ids), Failed)
  {
    if ids != [] {
      var k := |ids| - 1;
      FailedErrors(requests, ids[..k]);
      assert ErrorsOf(requests, ids)[..k] == ErrorsOf(requests, ids[..k]);
    }
  }

  // Scheduling and batch shape

  /** The in-flight counter is the number of live workers, never above the limit; a batch waits in the queue only while
      every worker is busy. */
  lemma NoLostWakeUp<T(!new)>(cfg: Config, s: State<T>)
    requires Reachable(cfg, s)
    ensures s.inFlight == Live(s.runs) <= cfg.maxConcurrent
    ensures s.queue != [] ==> Live(s.runs) == cfg.maxConcurrent
  {
    ReachableInv(cfg, s);
  }

  /** An unbatched request has all its rows in its one batch. */
  lemma UnbatchedIsWhole<T>(cfg: Config, s: State<T>, k: nat)
    requires Inv(cfg, s) && k < |Batches(s)| && Batches(s)[k].reason.Unbatched?
    ensures |Batches(s)[k].requests| == 1 && Batches(s)[k].requests[0] < |s.requests|
    ensures Batches(s)[k].rows == s.requests[Batches(s)[k].requests[0]].rows
  {
    hide Total, Failures, Count, AllTickets, TicketsOk, PhasesOk, Batches, RequestOk, RowsIn, AllParts, RowsOf,
      Distinct;
    var bs, b := Batches(s), Batches(s)[k];
    assert b in bs && WellFormed(cfg, b) && OwnersOk(b, s.requests);
    OwnersAt(b.parts);
    var r, pre, post := b.requests[0], bs[..k], bs[k + 1..];
    assert r in b.requests;
    forall i | 0 <= i < |bs| && i != k ensures r !in bs[i].requests && bs[i].requests == OwnersIn(bs[i].parts) {
      assert bs[i] in bs && WellFormed(cfg, bs[i]) && OwnersOk(bs[i], s.requests);
    }
    assert bs == pre + [b] + post;
    assert b.parts == [b.parts[0]];
    OnlyRows(pre, b, post, b.parts[0]);
  }

  /** If only `b` lists a request and it has a single part, that part holds all the rows of the request. */
  lemma OnlyRows<T>(pre: seq<Batch<T>>, b: Batch<T>, post: seq<Batch<T>>, p: Part<T>)
    requires b.parts == [p]
    requires forall x | x in pre + post :: x.requests == OwnersIn(x.parts) && p.request !in x.requests
    ensures RowsOf(AllParts(pre + [b] + post), p.request) == p.rows == RowsIn(b.parts)
  {
    hide AllOwners, AllTickets, AllParts;
    var r := p.request;
    assert forall x | x in pre || x in post :: x in pre + post;
    NoRows(pre, r);
    NoRows(post, r);
    BatchesConcat(pre + [b], post);
    LastSums(pre, b);
    RowsOfConcat(AllParts(pre) + [p], AllParts(post), r);
    RowsOfLast(AllParts(pre), p, r);
    SinglePart(p);
  }

  lemma ReachableReasons<T(!new)>(cfg: Config, s: State<T>)
    requires Reachable(cfg, s)
    ensures ReasonsOk(s)
  {
    var events: seq<Event<T>> :| Possible(cfg, Init(), events) && After(cfg, Init(), events) == s;
    RunKeepsReasons(cfg, Init(), events);
  }

  lemma OneReason<T(!new)>(cfg: Config, s: State<T>, b: Batch<T>)
    requires Reachable(cfg, s) && b in Batches(s) && WellFormed(cfg, b)
    ensures !b.reason.Filling? ==> SameReason(b, s.closings)
    ensures |b.tickets| > 1 ==> forall t | t in b.tickets :: t in s.closings && s.closings[t].Linger?
    ensures forall t | t in b.tickets && t in s.closings && !s.closings[t].Linger? :: b.tickets == [t]
  {
    hide RowsIn, OwnersIn, Settled, TicketsOk, PhasesOk, Distinct;
    ReachableInv(cfg, s);
    ReachableReasons(cfg, s);
    var k :| 0 <= k < |Batches(s)| && Batches(s)[k] == b;
    var n := |s.runs|;
    if k < n {
      assert b == s.runs[k].batch;
    } else if k < n + |s.queue| {
      assert b == s.queue[k - n];
    } else {
      assert b == s.active.value;
    }
  }

  /** Under a positive row limit a coalesced batch never exceeds it and a full one meets it exactly; only batches closed
      by their timer are ever merged, so one closed full, by a flush or unbatched goes out alone; an unbatched batch
      carries one whole request; no batch lists a request twice. */
  lemma BatchShape<T(!new)>(cfg: Config, s: State<T>, b: Batch<T>)
    requires Reachable(cfg, s) && b in Batches(s)
    ensures b.rows != [] && Distinct(b.requests)
    ensures cfg.maxRows > 0 && !b.reason.Unbatched? ==> |b.rows| <= cfg.maxRows
    ensures b.reason.Full? ==> |b.rows| == cfg.maxRows
    ensures !b.reason.Filling? ==> SameReason(b, s.closings)
    ensures |b.tickets| > 1 ==> forall t | t in b.tickets :: t in s.closings && s.closings[t].Linger?
    ensures forall t | t in b.tickets && t in s.closings && !s.closings[t].Linger? :: b.tickets == [t]
    ensures b.reason.Unbatched? ==>
      |b.requests| == 1 && b.requests[0] < |s.requests| && b.rows == s.requests[b.requests[0]].rows
  {
    hide RowsIn, OwnersIn, Settled, TicketsOk, PhasesOk, Batches, SameReason;
    ReachableInv(cfg, s);
    assert WellFormed(cfg, b);
    OneReason(cfg, s, b);
    NonEmptyRows(cfg, b);
    if b.reason.Unbatched? {
      var k :| 0 <= k < |Batches(s)| && Batches(s)[k] == b;
      UnbatchedIsWhole(cfg, s, k);
    }
  }
}
