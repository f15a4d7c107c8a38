/** The batcher as the code runs it: objects updated in place, one method for each atomic step. Every method is shown to
    take exactly the step of the state machine in `CopyProtocol`. */
module CopyBatcher {
  import opened Basics
  import opened CopyProtocol
  import opened CopyInvariant
  import opened CopyDispatch
  import opened CopySteps

  lemma AppendRowsTurn<T>(cfg: Config, s: State<T>, rows: seq<T>, r: nat)
    requires r < |s.requests| && HasRoom(cfg, s.active) && rows != []
    ensures var (s', rest) := AppendChunk(cfg, s, rows, r);
            && r < |s'.requests| && HasRoom(cfg, s'.active) && |rest| < |rows|
            && AppendRows(cfg, s, rows, r) == AppendRows(cfg, s', rest, r)
  {
  }

  lemma AppendNothing<T>(cfg: Config, s: State<T>, r: nat)
    requires r < |s.requests| && HasRoom(cfg, s.active)
    ensures AppendRows(cfg, s, [], r) == s
  {
  }

  /** A handle for an asynchronous result, resolved at most once. */
  class Future<V(0), E(0)> {
    var done: bool
    var value: V
    var err: E

    constructor ()
      ensures !done
    {
      done := false;
    }

    /** The first resolution wins; later ones change nothing. */
    method Resolve(v: V, e: E)
      modifies this
      ensures done
      ensures old(done) ==> value == old(value) && err == old(err)
      ensures !old(done) ==> value == v && err == e
    {
      if !done {
        value, err, done := v, e, true;
      }
    }

    /** One look at the future while waiting: a finished result is returned even if the wait was canceled, an unfinished
        one only stops the wait when it was canceled, and the work itself is never touched. */
    method Await(canceled: bool, zero: V, cancellation: E) returns (r: Option<(V, E)>)
      ensures done ==> r == Some((value, err))
      ensures !done ==> r == if canceled then Some((zero, cancellation)) else None
    {
      if done {
        r := Some((value, err));
      } else if canceled {
        r := Some((zero, cancellation));
      } else {
        r := None;
      }
    }
  }

  /** One submission, shared by the batches that carry its rows. */
  class CopyRequest {
    const rowCount: nat
    const result: Future<int, seq<CopyError>>
    var pendingParts: int
    var errs: seq<CopyError>

    constructor (rowCount: nat)
      ensures this.rowCount == rowCount && pendingParts == 0 && errs == []
      ensures fresh(result) && !result.done
    {
      this.rowCount := rowCount;
      result := new Future();
      pendingParts := 0;
      errs := [];
    }

    /** The request as a value of the state machine, given what was submitted. */
    ghost function Value<T>(rows: seq<T>, coalesced: bool): Request<T>
      reads this, result
    {
      Request(rows, coalesced, rowCount, pendingParts, errs,
              if result.done then Some(Outcome(result.value, result.err)) else None)
    }

    method AddPart()
      modifies this
      ensures pendingParts == old(pendingParts) + 1 && errs == old(errs)
    {
      pendingParts := pendingParts + 1;
    }

    /** One part is done; when it was the last one, `outcome` is what the future is to be resolved with. */
    method LosePart(err: Option<CopyError>) returns (last: bool, outcome: Outcome)
      modifies this
      ensures pendingParts == old(pendingParts) - 1
      ensures errs == if err.Some? then old(errs) + [err.value] else old(errs)
      ensures last <==> pendingParts == 0
      ensures outcome == if errs != [] then Outcome(0, errs) else Outcome(rowCount, [])
    {
      if err.Some? {
        errs := errs + [err.value];
      }
      pendingParts := pendingParts - 1;
      last := pendingParts == 0;
      outcome := if errs != [] then Outcome(0, errs) else Outcome(rowCount, []);
    }
  }

  ghost function Futures(requests: seq<CopyRequest>): set<object> {
    set i | 0 <= i < |requests| :: requests[i].result
  }

  ghost function ValuesOf<T>(requests: seq<CopyRequest>, submitted: seq<(seq<T>, bool)>): (values: seq<Request<T>>)
    requires |submitted| == |requests|
    reads requests, Futures(requests)
    ensures |values| == |requests|
  {
    seq(|requests|, i requires 0 <= i < |requests| && |submitted| == |requests| reads requests, Futures(requests)
                    => requests[i].Value(submitted[i].0, submitted[i].1))
  }

  /** The pending requests, in whatever order the map yields them. */
  method Capture(pending: set<nat>) returns (order: seq<nat>)
    ensures (set r | r in order) == pending && |order| == |pending|
  {
    order := [];
    var left := pending;
    while left != {}
      invariant left <= pending && |order| + |left| == |pending|
      invariant forall r :: r in pending <==> r in order || r in left
      decreases left
    {
      var r :| r in left;
      left := left - {r};
      order := order + [r];
    }
  }

  class Batcher<T> {
    const cfg: Config
    var active: Option<Batch<T>>
    var queue: seq<Batch<T>>
    var inFlight: int
    var pending: set<nat>
    var requests: seq<CopyRequest>
    var runs: seq<Run<T>>
    var flushes: seq<Flush>
    var nextTicket: nat
    ghost var timers: set<nat>
    ghost var closings: map<nat, Reason>
    ghost var submitted: seq<(seq<T>, bool)>

    ghost predicate Separate()
      reads this`requests, this`submitted
    {
      && |submitted| == |requests|
      && (forall i, j :: 0 <= i < j < |requests| ==>
            requests[i] != requests[j] && requests[i].result != requests[j].result)
    }

    ghost function Values(): (values: seq<Request<T>>)
      requires |submitted| == |requests|
      reads this`requests, this`submitted, requests, Futures(requests)
      ensures |values| == |requests|
    {
      ValuesOf(requests, submitted)
    }

    /** The state of the protocol this object is in. */
    ghost function Abs(): State<T>
      requires |submitted| == |requests|
      reads this, requests, Futures(requests)
    {
      State(active, queue, inFlight, pending, Values(), runs, flushes, timers, nextTicket, closings)
    }

    ghost predicate Valid()
      reads this, requests, Futures(requests)
    {
      Separate() && Inv(cfg, Abs())
    }

    constructor (cfg: Config)
      ensures Valid() && this.cfg == cfg && Abs() == Init()
    {
      this.cfg := cfg;
      active, queue, inFlight, pending := None, [], 0, {};
      requests, runs, flushes, nextTicket := [], [], [], 0;
      timers, closings, submitted := {}, map[], [];
      new;
      InitInv<T>(cfg);
    }

    /** Closes the active batch, if any, and queues it unless it is empty. */
    method CloseActiveLocked(reason: Reason)
      requires Separate()
      modifies this`active, this`queue, this`closings
      ensures Abs() == CloseActive(old(Abs()), reason)
    {
      if active.Some? {
        var batch := active.value.(reason := reason);
        active := None;
        if |batch.rows| != 0 {
          queue := queue + [batch];
          closings := closings + Closing(batch.tickets, reason);
        }
      }
    }

    method OpenBatchLocked()
      requires Separate()
      modifies this`active, this`timers, this`nextTicket
      ensures Abs() == OpenBatch(old(Abs()))
    {
      active := Some(Batch([nextTicket], [], [], [], Filling));
      timers := timers + {nextTicket};
      nextTicket := nextTicket + 1;
    }

    method AddPartLocked(r: nat)
      requires Separate() && r < |requests|
      modifies requests[r]
      ensures Separate()
      ensures Abs() == old(Abs()).(requests := old(Values())[r := AddPart(old(Values())[r])])
    {
      requests[r].AddPart();
      assert Values() == old(Values())[r := AddPart(old(Values())[r])];
    }

    /** Puts rows of request `r` into the active batch. */
    method AddToActiveLocked(r: nat, chunk: seq<T>)
      requires Separate() && r < |requests| && active.Some?
      modifies this`active, requests[r]
      ensures Separate()
      ensures Abs() == old(Abs()).(active := Some(AddToBatch(old(active).value, r, chunk)),
                                   requests := old(Values())[r := AddPart(old(Values())[r])])
    {
      var batch := active.value;
      active := Some(batch.(parts := batch.parts + [Part(r, chunk)], rows := batch.rows + chunk,
                            requests := batch.requests + [r]));
      AddPartLocked(r);
    }

    /** Fills batches with the rows of request `r`, closing each one that becomes full. */
    method AppendRequestLocked(rows: seq<T>, r: nat)
      requires Separate() && r < |requests| && HasRoom(cfg, active)
      modifies this`active, this`queue, this`closings, this`timers, this`nextTicket, requests[r]
      ensures Separate() && Abs() == AppendRows(cfg, old(Abs()), rows, r)
    {
      hide Values, AppendRows;
      var rest := rows;
      ghost var s := Abs();
      while rest != []
        invariant Separate() && Abs() == s && HasRoom(cfg, active)
        invariant AppendRows(cfg, s, rest, r) == AppendRows(cfg, old(Abs()), rows, r)
        decreases |rest|
      {
        ghost var (s', rest') := AppendChunk(cfg, s, rest, r);
        AppendRowsTurn(cfg, s, rest, r);
        if active.None? {
          OpenBatchLocked();
        }
        var rowCount := |rest|;
        if cfg.maxRows > 0 {
          rowCount := Min(rowCount, cfg.maxRows - |active.value.rows|);
        }
        AddToActiveLocked(r, rest[..rowCount]);
        rest := rest[rowCount..];
        if cfg.maxRows > 0 && |active.value.rows| == cfg.maxRows {
          CloseActiveLocked(Full);
        }
        assert Abs() == s' && rest == rest';
        s := s';
      }
      AppendNothing(cfg, s, r);
    }

    /** Takes the batch at the head of the queue, together with the timed-out ones behind it that fit. */
    method DequeueLocked() returns (batch: Batch<T>)
      requires queue != []
      modifies this`queue
      ensures [batch] + queue == MergeHead(cfg, old(queue))
      ensures exists k: nat :: Taken(cfg, old(queue), k, batch) && queue == old(queue)[k..]
    {
      ghost var _ := MergeHeadTakes(cfg, queue);
      batch := queue[0];
      queue := queue[1..];
      assert [batch] + queue == old(queue);
      if batch.reason.Linger? {
        while queue != [] && queue[0].reason.Linger?
              && (cfg.maxRows > 0 ==> |batch.rows| + |queue[0].rows| <= cfg.maxRows)
          invariant batch.reason.Linger?
          invariant MergeHead(cfg, [batch] + queue) == MergeHead(cfg, old(queue))
          decreases |queue|
        {
          ghost var whole := [batch] + queue;
          var next := queue[0];
          assert whole[1] == next && whole[2..] == queue[1..];
          queue := queue[1..];
          batch := Merge(batch, next);
        }
      }
    }

    /** Starts workers while there is capacity and something to run. */
    method ScheduleLocked()
      requires Separate()
      modifies this`queue, this`runs, this`inFlight
      ensures Separate() && Abs() == Schedule(cfg, old(Abs()))
    {
      hide MergeHead;
      var capacity := cfg.maxConcurrent - inFlight;
      ghost var s := Abs();
      while capacity > 0 && queue != []
        invariant Separate() && Abs() == s && capacity == cfg.maxConcurrent - inFlight
        invariant Schedule(cfg, s) == Schedule(cfg, old(Abs()))
        decreases |queue|
      {
        ghost var merged := s.(queue := MergeHead(cfg, s.queue));
        var batch := DequeueLocked();
        assert merged.queue[0] == batch && merged.queue[1..] == queue;
        runs := runs + [Run(batch, None, Copying)];
        inFlight := inFlight + 1;
        capacity := capacity - 1;
        s := Dispatch(merged);
      }
    }

    /** Admits a request: from now on it is pending and owns the next number. */
    method AdmitLocked(request: CopyRequest, ghost rows: seq<T>, ghost coalesce: bool)
      requires Separate() && request.rowCount == |rows| && request.pendingParts == 0 && request.errs == []
      requires !request.result.done
      requires request !in requests && forall q | q in requests :: q.result != request.result
      modifies this`requests, this`pending, this`submitted
      ensures Separate() && Abs() == Admit(old(Abs()), rows, coalesce)
      ensures requests == old(requests) + [request]
    {
      pending := pending + {|requests|};
      requests := requests + [request];
      submitted := submitted + [(rows, coalesce)];
      assert Values() == old(Values()) + [NewRequest(rows, coalesce)];
    }

    method EnqueueUnbatchedLocked(rows: seq<T>, r: nat)
      requires Separate() && r < |requests|
      modifies this`queue, this`closings, this`nextTicket, requests[r]
      ensures Separate() && Abs() == EnqueueUnbatched(old(Abs()), rows, r)
    {
      AddPartLocked(r);
      queue := queue + [Batch([nextTicket], [Part(r, rows)], rows, [r], Unbatched)];
      closings := closings + Closing([nextTicket], Unbatched);
      nextTicket := nextTicket + 1;
    }

    // The atomic steps

    /** `Submit` and `SubmitUnbatched`. An empty or canceled submission resolves at once and admits nothing; `canceled`
        is what the context says before the lock and under it. */
    method SubmitRows(rows: seq<T>, coalesce: bool, canceled: (bool, bool))
      returns (future: Future<int, seq<CopyError>>)
      requires Valid()
      modifies this
      ensures Valid()
      ensures rows == [] ==> future.done && future.value == 0 && future.err == []
      ensures rows != [] && (canceled.0 || canceled.1) ==> future.done && future.value == 0 && future.err == [Canceled]
      ensures rows == [] || canceled.0 || canceled.1 ==> Abs() == old(Abs())
      ensures rows != [] && !canceled.0 && !canceled.1 ==>
        && |requests| == |old(requests)| + 1 && future == requests[|old(requests)|].result
        && Enabled(cfg, old(Abs()), Submit(rows, coalesce))
        && Abs() == Apply(cfg, old(Abs()), Submit(rows, coalesce))
    {
      hide Inv, AppendRows, Schedule;
      ghost var s := Abs();
      assert HasRoom(cfg, s.active) by {
        AdmissionHasRoom(cfg, s);
      }
      if rows == [] || canceled.0 {
        future := new Future();
        future.Resolve(0, if rows == [] then [] else [Canceled]);
        assert Values() == old(Values());
        return;
      }
      var request := new CopyRequest(|rows|);
      future := request.result;
      if canceled.1 {
        future.Resolve(0, [Canceled]);
        assert Values() == old(Values());
        return;
      }
      assert Values() == s.requests;
      var r := |requests|;
      AdmitLocked(request, rows, coalesce);
      if coalesce {
        AppendRequestLocked(rows, r);
      } else {
        EnqueueUnbatchedLocked(rows, r);
      }
      ScheduleLocked();
      assert Abs() == Apply(cfg, s, Submit(rows, coalesce));
      EventKeepsInv(cfg, s, Submit(rows, coalesce));
    }

    /** The linger callback of the batch with this ticket: it does nothing unless that batch is still active. */
    method FlushExpiredBatch(ticket: nat)
      requires Valid() && ticket in timers
      modifies this`active, this`queue, this`closings, this`runs, this`inFlight, this`timers
      ensures Valid() && Abs() == Apply(cfg, old(Abs()), TimerFires(ticket))
    {
      hide Inv, Schedule;
      ghost var s := Abs();
      timers := timers - {ticket};
      assert Values() == s.requests;
      if active.Some? && active.value.tickets == [ticket] {
        CloseActiveLocked(Linger);
        ScheduleLocked();
      }
      assert Abs() == Apply(cfg, s, TimerFires(ticket));
      EventKeepsInv(cfg, s, TimerFires(ticket));
    }

    /** The COPY of a worker returns. */
    method CopyReturned(i: nat, report: CopyReport)
      requires Valid() && Enabled(cfg, Abs(), CopyReturns(i, report))
      modifies this`runs
      ensures Valid() && Abs() == Apply(cfg, old(Abs()), CopyReturns(i, report))
    {
      hide Inv;
      ghost var s := Abs();
      var err := None;
      if report.failure.Some? {
        err := Some(CopyFailed(report.failure.value));
      } else if report.count != |runs[i].batch.rows| {
        err := Some(CountMismatch(report.count, |runs[i].batch.rows|));
      }
      runs := runs[i := runs[i].(report := Some(report), phase := Finishing(err, 0, []))];
      assert Values() == s.requests;
      assert Abs() == Apply(cfg, s, CopyReturns(i, report));
      EventKeepsInv(cfg, s, CopyReturns(i, report));
    }

    /** A worker takes one part from the next request of its batch. */
    method FinishNextPart(i: nat)
      requires Valid() && Enabled(cfg, Abs(), FinishPart(i))
      modifies this`runs, requests[Current(runs[i])]
      ensures Valid() && Abs() == Apply(cfg, old(Abs()), FinishPart(i))
    {
      hide Inv;
      ghost var s := Abs();
      var run := runs[i];
      var Finishing(err, next, completed) := run.phase;
      var r := run.batch.requests[next];
      var last, outcome := requests[r].LosePart(err);
      assert Values() == s.requests[r := LosePart(s.requests[r], err)];
      var phase := if last then Resolving(err, next, completed, outcome) else Finishing(err, next + 1, completed);
      runs := runs[i := run.(phase := phase)];
      assert Values() == s.requests[r := LosePart(s.requests[r], err)];
      assert Abs() == Apply(cfg, s, FinishPart(i));
      EventKeepsInv(cfg, s, FinishPart(i));
    }

    /** A worker resolves the future of the request that just lost its last part. */
    method ResolveNext(i: nat)
      requires Valid() && Enabled(cfg, Abs(), Resolve(i))
      modifies this`runs, requests[Current(runs[i])].result
      ensures Valid() && Abs() == Apply(cfg, old(Abs()), Resolve(i))
      ensures !old(requests[Current(runs[i])].result.done)
    {
      hide Inv;
      ghost var s := Abs();
      var run := runs[i];
      var Resolving(err, next, completed, outcome) := run.phase;
      var r := run.batch.requests[next];
      assert s.requests[r].result.None? by {
        FirstResolution(cfg, s, i);
      }
      requests[r].result.Resolve(outcome.count, outcome.errs);
      assert Values() == s.requests[r := s.requests[r].(result := Some(outcome))];
      runs := runs[i := run.(phase := Finishing(err, next + 1, completed + [r]))];
      assert Values() == s.requests[r := s.requests[r].(result := Some(outcome))];
      assert Abs() == Apply(cfg, s, Resolve(i));
      EventKeepsInv(cfg, s, Resolve(i));
    }

    /** A worker is done with its batch: it removes what it completed and hands its slot on. */
    method CompleteBatch(i: nat)
      requires Valid() && Enabled(cfg, Abs(), Complete(i))
      modifies this`runs, this`pending, this`inFlight, this`queue
      ensures Valid() && Abs() == Apply(cfg, old(Abs()), Complete(i))
    {
      hide Inv, Schedule;
      ghost var s := Abs();
      var run := runs[i];
      var completed := run.phase.completed;
      for k := 0 to |completed|
        invariant pending == s.pending - (set r | r in completed[..k])
        invariant Separate() && Abs() == s.(pending := pending)
      {
        pending := pending - {completed[k]};
        assert completed[..k + 1] == completed[..k] + [completed[k]];
        assert Values() == s.requests;
      }
      assert completed[..|completed|] == completed;
      inFlight := inFlight - 1;
      runs := runs[i := run.(phase := Done(run.phase.err))];
      assert Values() == s.requests;
      ScheduleLocked();
      assert Abs() == Apply(cfg, s, Complete(i));
      EventKeepsInv(cfg, s, Complete(i));
    }

    /** Closes the active batch and captures the futures of the pending requests, in whatever order the map yields. */
    method FlushAsync() returns (order: seq<nat>)
      requires Valid()
      modifies this`active, this`queue, this`closings, this`runs, this`inFlight, this`flushes
      ensures Enabled(cfg, old(Abs()), FlushStarts(order))
      ensures Valid() && Abs() == Apply(cfg, old(Abs()), FlushStarts(order))
    {
      hide Inv, Schedule, CloseActive;
      ghost var s := Abs();
      CloseActiveLocked(Manual);
      ScheduleLocked();
      ghost var s' := Schedule(cfg, CloseActive(s, Manual));
      assert Abs() == s' && s'.pending == s.pending && s'.requests == s.requests;
      order := Capture(pending);
      flushes := flushes + [Flush(|requests|, order, 0, [], None)];
      assert Values() == s.requests;
      assert Abs() == Apply(cfg, s, FlushStarts(order));
      EventKeepsInv(cfg, s, FlushStarts(order));
    }

    /** A flush finds the next future it awaits resolved. */
    method FlushAwaitNext(f: nat)
      requires Valid() && Enabled(cfg, Abs(), FlushAwaits(f))
      modifies this`flushes
      ensures Valid() && Abs() == Apply(cfg, old(Abs()), FlushAwaits(f))
    {
      hide Inv;
      ghost var s := Abs();
      var flush := flushes[f];
      var request := requests[flush.captured[flush.awaited]];
      var outcome := request.result.Await(false, 0, []);
      var errs := outcome.value.1;
      flushes := flushes[f := flush.(awaited := flush.awaited + 1,
                                     errs := if errs != [] then flush.errs + [errs] else flush.errs)];
      assert Values() == s.requests;
      assert Abs() == Apply(cfg, s, FlushAwaits(f));
      EventKeepsInv(cfg, s, FlushAwaits(f));
    }

    method FlushReturn(f: nat)
      requires Valid() && Enabled(cfg, Abs(), FlushReturns(f))
      modifies this`flushes
      ensures Valid() && Abs() == Apply(cfg, old(Abs()), FlushReturns(f))
    {
      hide Inv;
      ghost var s := Abs();
      flushes := flushes[f := flushes[f].(result := Some(flushes[f].errs))];
      assert Values() == s.requests;
      assert Abs() == Apply(cfg, s, FlushReturns(f));
      EventKeepsInv(cfg, s, FlushReturns(f));
    }
  }

  lemma AdmissionHasRoom<T>(cfg: Config, s: State<T>)
    requires Inv(cfg, s)
    ensures HasRoom(cfg, s.active)
  {
  }

  lemma FirstResolution<T>(cfg: Config, s: State<T>, i: nat)
    requires Inv(cfg, s) && Enabled(cfg, s, Resolve(i))
    ensures s.requests[Current(s.runs[i])].result.None?
  {
    ResolveKeepsCore(cfg, s, i);
  }
}
