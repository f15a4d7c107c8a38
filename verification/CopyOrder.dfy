/** Admission order of coalesced rows, and timers that fire late. */
module CopyOrder {
  import opened Basics
  import opened CopyProtocol
  import opened CopyInvariant
  import opened CopyScheduling
  import opened CopyAdmission
  import opened CopySteps
  import opened CopyTheorems

  // Scheduling rearranges batches, never parts

  lemma {:induction false} MergeHeadParts<T>(cfg: Config, s: State<T>)
    ensures AllParts(Batches(s.(queue := MergeHead(cfg, s.queue)))) == AllParts(Batches(s))
    decreases |s.queue|
  {
    hide AllParts, Batches;
    if Mergeable(cfg, s.queue) {
      var s' := s.(queue := [Merge(s.queue[0], s.queue[1])] + s.queue[2..]);
      MergeLists(s, s', s.queue[2..] + if s.active.Some? then [s.active.value] else []);
      MergeHeadParts(cfg, s');
    } else {
      assert s.(queue := MergeHead(cfg, s.queue)) == s;
    }
  }

  lemma {:induction false} ScheduleParts<T>(cfg: Config, s: State<T>)
    ensures AllParts(Batches(Schedule(cfg, s))) == AllParts(Batches(s))
    ensures Schedule(cfg, s).requests == s.requests && Schedule(cfg, s).active == s.active
    ensures Schedule(cfg, s).nextTicket == s.nextTicket
    decreases |s.queue|
  {
    hide AllParts, Batches, MergeHead;
    if !(cfg.maxConcurrent <= s.inFlight || s.queue == []) {
      MergeHeadParts(cfg, s);
      var s1 := s.(queue := MergeHead(cfg, s.queue));
      DispatchLists(s1, Dispatch(s1));
      ScheduleParts(cfg, Dispatch(s1));
    }
  }

  lemma CloseParts<T>(s: State<T>, reason: Reason)
    requires s.active.Some? ==> s.active.value.rows != []
    ensures AllParts(Batches(CloseActive(s, reason))) == AllParts(Batches(s))
  {
    hide AllParts, Batches;
    if s.active.Some? {
      CloseLists(s, reason);
    }
  }

  // Coalesced rows

  /** The rows of coalesced submissions, in the order of the parts. */
  function CoalescedRows<T>(parts: seq<Part<T>>, requests: seq<Request<T>>): seq<T> {
    if parts == [] then []
    else
      (if parts[0].request < |requests| && requests[parts[0].request].coalesced then parts[0].rows else [])
      + CoalescedRows(parts[1..], requests)
  }

  /** What coalesced submissions handed in, in admission order. */
  function CoalescedInput<T>(requests: seq<Request<T>>): seq<T> {
    if requests == [] then []
    else
      var q := requests[|requests| - 1];
      CoalescedInput(requests[..|requests| - 1]) + if q.coalesced then q.rows else []
  }

  ghost predicate InOrder<T>(s: State<T>) {
    CoalescedRows(AllParts(Batches(s)), s.requests) == CoalescedInput(s.requests)
  }

  lemma {:induction false} CoalescedConcat<T>(a: seq<Part<T>>, b: seq<Part<T>>, requests: seq<Request<T>>)
    ensures CoalescedRows(a + b, requests) == CoalescedRows(a, requests) + CoalescedRows(b, requests)
  {
    if a == [] {
      assert a + b == b;
    } else {
      assert (a + b)[1..] == a[1..] + b;
      CoalescedConcat(a[1..], b, requests);
    }
  }

  lemma {:induction false} CoalescedFrame<T>(parts: seq<Part<T>>, old': seq<Request<T>>, new': seq<Request<T>>)
    requires Extends(old', new') && forall i :: 0 <= i < |parts| ==> parts[i].request < |old'|
    ensures CoalescedRows(parts, new') == CoalescedRows(parts, old')
  {
    if parts != [] {
      CoalescedFrame(parts[1..], old', new');
    }
  }

  lemma {:induction false} InputFrame<T>(old': seq<Request<T>>, new': seq<Request<T>>)
    requires Extends(old', new') && |old'| == |new'|
    ensures CoalescedInput(new') == CoalescedInput(old')
  {
    if old' != [] {
      InputFrame(old'[..|old'| - 1], new'[..|new'| - 1]);
    }
  }

  lemma PartsOwned<T>(cfg: Config, s: State<T>)
    requires Inv(cfg, s)
    ensures forall i :: 0 <= i < |AllParts(Batches(s))| ==> AllParts(Batches(s))[i].request < |s.requests|
  {
    hide Batches, AllParts, Settled, TicketsOk, PhasesOk, WellFormed;
    forall b | b in Batches(s) ensures WellFormed(cfg, b) && forall r | r in b.requests :: r < |s.requests| {
      assert OwnersOk(b, s.requests);
    }
    VolumeOfBatches(cfg, Batches(s), |s.requests|);
  }

  /** An event that keeps the parts and admits nobody keeps the order. */
  lemma SamePartsInOrder<T>(cfg: Config, s: State<T>, s': State<T>)
    requires Inv(cfg, s) && InOrder(s) && AllParts(Batches(s')) == AllParts(Batches(s))
    requires Extends(s.requests, s'.requests) && |s'.requests| == |s.requests|
    ensures InOrder(s')
  {
    hide Batches, AllParts, Inv;
    PartsOwned(cfg, s);
    CoalescedFrame(AllParts(Batches(s)), s.requests, s'.requests);
    InputFrame(s.requests, s'.requests);
  }

  lemma LastCoalesced<T>(parts: seq<Part<T>>, p: Part<T>, requests: seq<Request<T>>)
    requires p.request < |requests|
    ensures CoalescedRows(parts + [p], requests)
         == CoalescedRows(parts, requests) + if requests[p.request].coalesced then p.rows else []
  {
    CoalescedConcat(parts, [p], requests);
    assert [p][1..] == [];
  }

  lemma AppendChunkParts<T>(cfg: Config, s: State<T>, rows: seq<T>, r: nat)
    requires r < |s.requests| && rows != [] && HasRoom(cfg, s.active)
    ensures var (s', rest) := AppendChunk(cfg, s, rows, r);
            && |rest| < |rows| && HasRoom(cfg, s'.active)
            && AllParts(Batches(s')) == AllParts(Batches(s)) + [Part(r, rows[..|rows| - |rest|])]
            && rest == rows[|rows| - |rest|..]
            && s'.requests == s.requests[r := AddPart(s.requests[r])]
  {
    hide AllParts, Batches;
    var s1 := if s.active.None? then OpenBatch(s) else s;
    var n := ChunkSize(cfg, s1.active.value, rows);
    var s2 := AddChunk(s, rows[..n], r);
    AddChunkLists(s, rows[..n], r);
    if cfg.maxRows > 0 && |s2.active.value.rows| == cfg.maxRows {
      CloseParts(s2, Full);
    }
  }

  lemma {:induction false} AppendRowsParts<T>(cfg: Config, s: State<T>, rows: seq<T>, r: nat, requests: seq<Request<T>>)
    requires r < |s.requests| && HasRoom(cfg, s.active) && r < |requests| && requests[r].coalesced
    ensures var s' := AppendRows(cfg, s, rows, r);
            CoalescedRows(AllParts(Batches(s')), requests) == CoalescedRows(AllParts(Batches(s)), requests) + rows
    decreases |rows|
  {
    hide AllParts, Batches, AppendChunk, CoalescedRows;
    if rows != [] {
      var (s', rest) := AppendChunk(cfg, s, rows, r);
      AppendChunkParts(cfg, s, rows, r);
      AppendRowsParts(cfg, s', rest, r, requests);
      var chunk := rows[..|rows| - |rest|];
      LastCoalesced(AllParts(Batches(s)), Part(r, chunk), requests);
      var before := CoalescedRows(AllParts(Batches(s)), requests);
      assert chunk + rest == rows;
      assert before + chunk + rest == before + rows;
    }
  }

  lemma SubmitInOrder<T>(cfg: Config, s: State<T>, rows: seq<T>, coalesce: bool)
    requires Inv(cfg, s) && InOrder(s) && rows != []
    ensures InOrder(ApplySubmit(cfg, s, rows, coalesce))
  {
    hide AllParts, Core, CoalescedRows, Schedule, AppendRows, FlushesOk;
    var s1, r := Admit(s, rows, coalesce), |s.requests|;
    var s2 := if coalesce then AppendRows(cfg, s1, rows, r) else EnqueueUnbatched(s1, rows, r);
    var s' := ApplySubmit(cfg, s, rows, coalesce);
    assert Batches(s1) == Batches(s);
    SubmitKeepsCore(cfg, s, rows, coalesce);
    ScheduleParts(cfg, s2);
    assert s'.requests[..r] == s.requests && s'.requests[..|s'.requests| - 1] == s.requests;
    PartsOwned(cfg, s);
    forall q | 0 <= q < r ensures s'.requests[q] == s.requests[q] {
      assert s'.requests[q] == s'.requests[..r][q];
    }
    CoalescedFrame(AllParts(Batches(s)), s.requests, s'.requests);
    if coalesce {
      AppendRowsParts(cfg, s1, rows, r, s'.requests);
    } else {
      var act := if s1.active.Some? then [s1.active.value] else [];
      UnbatchedLists(s1, rows, r);
      CoalescedConcat(AllParts(Closed(s1)) + [Part(r, rows)], AllParts(act), s'.requests);
      CoalescedConcat(AllParts(Closed(s1)), AllParts(act), s'.requests);
      LastCoalesced(AllParts(Closed(s1)), Part(r, rows), s'.requests);
    }
  }

  lemma ActiveHasRows<T>(cfg: Config, s: State<T>)
    requires Inv(cfg, s) && s.active.Some?
    ensures s.active.value.rows != []
  {
    hide Settled, TicketsOk, PhasesOk, RowsIn, OwnersIn, Distinct;
    assert s.active.value in Batches(s) && WellFormed(cfg, s.active.value);
    NonEmptyRows(cfg, s.active.value);
  }

  lemma EventKeepsOrder<T>(cfg: Config, s: State<T>, e: Event<T>)
    requires Inv(cfg, s) && Enabled(cfg, s, e) && InOrder(s)
    ensures InOrder(Apply(cfg, s, e))
  {
    hide Inv, Schedule, AppendRows, AllParts, CoalescedRows, InOrder, Extends;
    var s' := Apply(cfg, s, e);
    EventKeepsInv(cfg, s, e);
    if e.Submit? {
      SubmitInOrder(cfg, s, e.rows, e.coalesce);
    } else {
      assert AllParts(Batches(s')) == AllParts(Batches(s)) && |s'.requests| == |s.requests| by {
        PartsKept(cfg, s, e);
      }
      SamePartsInOrder(cfg, s, s');
    }
  }

  lemma PartsKept<T>(cfg: Config, s: State<T>, e: Event<T>)
    requires Inv(cfg, s) && Enabled(cfg, s, e) && !e.Submit?
    ensures AllParts(Batches(Apply(cfg, s, e))) == AllParts(Batches(s))
    ensures |Apply(cfg, s, e).requests| == |s.requests|
  {
    hide Inv, Schedule, AllParts;
    var s' := Apply(cfg, s, e);
    if s.active.Some? {
      ActiveHasRows(cfg, s);
    }
    match e
    case TimerFires(t) =>
      var s1 := s.(timers := s.timers - {t});
      assert Batches(s1) == Batches(s);
      CloseParts(s1, Linger);
      ScheduleParts(cfg, CloseActive(s1, Linger));
    case CopyReturns(i, report) => SameBatches(s, s', i);
    case FinishPart(i) => SameBatches(s, s', i);
    case Resolve(i) => SameBatches(s, s', i);
    case Complete(i) =>
      SameBatches(s, Leave(s, i), i);
      ScheduleParts(cfg, Leave(s, i));
    case FlushStarts(order) =>
      var s1 := Schedule(cfg, CloseActive(s, Manual));
      CloseParts(s, Manual);
      ScheduleParts(cfg, CloseActive(s, Manual));
      assert Batches(s') == Batches(s1);
    case FlushAwaits(f) => assert Batches(s') == Batches(s);
    case FlushReturns(f) => assert Batches(s') == Batches(s);
  }

  lemma {:induction false} RunKeepsOrder<T>(cfg: Config, s: State<T>, events: seq<Event<T>>)
    requires Inv(cfg, s) && InOrder(s) && Possible(cfg, s, events)
    ensures InOrder(After(cfg, s, events))
    decreases |events|
  {
    hide Inv, Enabled, Apply, InOrder;
    if events != [] {
      EventKeepsInv(cfg, s, events[0]);
      EventKeepsOrder(cfg, s, events[0]);
      RunKeepsOrder(cfg, Apply(cfg, s, events[0]), events[1..]);
    }
  }

  /** Rows of coalesced submissions stand in admission order across all dispatched, queued and active batches, however
      often batches were split, merged or overtaken by unbatched ones. */
  lemma CoalescedInAdmissionOrder<T(!new)>(cfg: Config, s: State<T>)
    requires Reachable(cfg, s)
    ensures CoalescedRows(AllParts(Batches(s)), s.requests) == CoalescedInput(s.requests)
  {
    hide Inv;
    var events :| Possible(cfg, Init(), events) && After(cfg, Init(), events) == s;
    InitInv<T>(cfg);
    assert Batches(Init<T>()) == [];
    RunKeepsOrder(cfg, Init(), events);
  }

  // First closed, first served

  lemma {:induction false} MergeHeadTickets<T>(cfg: Config, s: State<T>)
    ensures AllTickets(Closed(s.(queue := MergeHead(cfg, s.queue)))) == AllTickets(Closed(s))
    decreases |s.queue|
  {
    if Mergeable(cfg, s.queue) {
      hide AllTickets;
      var queue' := [Merge(s.queue[0], s.queue[1])] + s.queue[2..];
      MergeSums(s.queue[0], s.queue[1], s.queue[2..]);
      assert s.queue == [s.queue[0], s.queue[1]] + s.queue[2..];
      BatchesConcat(Dispatched(s.runs), s.queue);
      BatchesConcat(Dispatched(s.runs), queue');
      MergeHeadTickets(cfg, s.(queue := queue'));
    }
  }

  lemma {:induction false} ScheduleTickets<T>(cfg: Config, s: State<T>)
    ensures AllTickets(Closed(Schedule(cfg, s))) == AllTickets(Closed(s))
    decreases |s.queue|
  {
    hide AllTickets, MergeHead, Closed;
    if !(cfg.maxConcurrent <= s.inFlight || s.queue == []) {
      MergeHeadTickets(cfg, s);
      var s1 := s.(queue := MergeHead(cfg, s.queue));
      DispatchClosed(s1);
      ScheduleTickets(cfg, Dispatch(s1));
    }
  }

  lemma DispatchClosed<T>(s: State<T>)
    requires s.queue != []
    ensures Closed(Dispatch(s)) == Closed(s)
  {
    DispatchLists(s, Dispatch(s));
  }

  lemma CloseTickets<T>(s: State<T>, reason: Reason)
    ensures AllTickets(Closed(s)) <= AllTickets(Closed(CloseActive(s, reason)))
  {
    hide AllTickets;
    if s.active.Some? && s.active.value.rows != [] {
      var b := s.active.value.(reason := reason);
      assert Closed(CloseActive(s, reason)) == Closed(s) + [b];
      LastSums(Closed(s), b);
    }
  }

  lemma {:induction false} AppendRowsTickets<T>(cfg: Config, s: State<T>, rows: seq<T>, r: nat)
    requires r < |s.requests| && HasRoom(cfg, s.active)
    ensures AllTickets(Closed(s)) <= AllTickets(Closed(AppendRows(cfg, s, rows, r)))
    decreases |rows|
  {
    if rows != [] {
      hide AllTickets;
      var (s', rest) := AppendChunk(cfg, s, rows, r);
      var s1 := if s.active.None? then OpenBatch(s) else s;
      var s2 := AddChunk(s, rows[..ChunkSize(cfg, s1.active.value, rows)], r);
      assert Closed(s2) == Closed(s);
      CloseTickets(s2, Full);
      AppendRowsTickets(cfg, s', rest, r);
    }
  }

  lemma EventKeepsQueueOrder<T>(cfg: Config, s: State<T>, e: Event<T>)
    requires Enabled(cfg, s, e)
    ensures AllTickets(Closed(s)) <= AllTickets(Closed(Apply(cfg, s, e)))
  {
    hide Schedule, AppendRows, AllTickets;
    match e
    case Submit(rows, coalesce) =>
      var s1, r := Admit(s, rows, coalesce), |s.requests|;
      assert Closed(s1) == Closed(s);
      if coalesce {
        AppendRowsTickets(cfg, s1, rows, r);
        ScheduleTickets(cfg, AppendRows(cfg, s1, rows, r));
      } else {
        var b := Batch([s.nextTicket], [Part(r, rows)], rows, [r], Unbatched);
        assert Closed(EnqueueUnbatched(s1, rows, r)) == Closed(s) + [b];
        LastSums(Closed(s), b);
        ScheduleTickets(cfg, EnqueueUnbatched(s1, rows, r));
      }
    case TimerFires(x) =>
      var s1 := s.(timers := s.timers - {x});
      assert Closed(s1) == Closed(s);
      CloseTickets(s1, Linger);
      ScheduleTickets(cfg, CloseActive(s1, Linger));
    case CopyReturns(i, report) => SameBatches(s, Apply(cfg, s, e), i);
    case FinishPart(i) => SameBatches(s, Apply(cfg, s, e), i);
    case Resolve(i) => SameBatches(s, Apply(cfg, s, e), i);
    case Complete(i) =>
      SameBatches(s, Leave(s, i), i);
      ScheduleTickets(cfg, Leave(s, i));
    case FlushStarts(order) =>
      var s1 := CloseActive(s, Manual);
      CloseTickets(s, Manual);
      ScheduleTickets(cfg, s1);
      assert Closed(Apply(cfg, s, e)) == Closed(Schedule(cfg, s1));
    case FlushAwaits(f) => assert Closed(Apply(cfg, s, e)) == Closed(s);
    case FlushReturns(f) => assert Closed(Apply(cfg, s, e)) == Closed(s);
  }

  /** Batches go out in the order in which they were closed: whatever happens, the tickets of dispatched and queued
      batches, in this order, only ever grow at the end, so no batch overtakes another in the queue. */
  lemma {:induction false} FirstClosedFirstServed<T>(cfg: Config, s: State<T>, events: seq<Event<T>>)
    requires Possible(cfg, s, events)
    ensures AllTickets(Dispatched(s.runs) + s.queue)
         <= AllTickets(Dispatched(After(cfg, s, events).runs) + After(cfg, s, events).queue)
    decreases |events|
  {
    hide Enabled, Apply, AllTickets;
    if events != [] {
      EventKeepsQueueOrder(cfg, s, events[0]);
      FirstClosedFirstServed(cfg, Apply(cfg, s, events[0]), events[1..]);
    }
  }

  // Timers

  /** Batch `t` was opened and has left `active`. */
  predicate Left<T>(s: State<T>, t: nat) {
    t < s.nextTicket && !(s.active.Some? && t in s.active.value.tickets)
  }

  lemma {:induction false} AppendRowsLeft<T>(cfg: Config, s: State<T>, rows: seq<T>, r: nat, t: nat)
    requires r < |s.requests| && HasRoom(cfg, s.active) && Left(s, t)
    ensures Left(AppendRows(cfg, s, rows, r), t)
    decreases |rows|
  {
    if rows != [] {
      var (s', rest) := AppendChunk(cfg, s, rows, r);
      AppendRowsLeft(cfg, s', rest, r, t);
    }
  }

  lemma LeftStays<T>(cfg: Config, s: State<T>, e: Event<T>, t: nat)
    requires Enabled(cfg, s, e) && Left(s, t)
    ensures Left(Apply(cfg, s, e), t)
  {
    hide Schedule, AppendRows;
    match e
    case Submit(rows, coalesce) =>
      var s1, r := Admit(s, rows, coalesce), |s.requests|;
      if coalesce {
        AppendRowsLeft(cfg, s1, rows, r, t);
        ScheduleParts(cfg, AppendRows(cfg, s1, rows, r));
      } else {
        ScheduleParts(cfg, EnqueueUnbatched(s1, rows, r));
      }
    case TimerFires(x) => ScheduleParts(cfg, CloseActive(s.(timers := s.timers - {x}), Linger));
    case Complete(i) => ScheduleParts(cfg, Leave(s, i));
    case FlushStarts(order) => ScheduleParts(cfg, CloseActive(s, Manual));
    case _ =>
  }

  lemma {:induction false} LeftStaysOverRun<T>(cfg: Config, s: State<T>, events: seq<Event<T>>, t: nat)
    requires Possible(cfg, s, events) && Left(s, t)
    ensures Left(After(cfg, s, events), t)
    decreases |events|
  {
    hide Enabled, Apply, Left;
    if events != [] {
      LeftStays(cfg, s, events[0], t);
      LeftStaysOverRun(cfg, Apply(cfg, s, events[0]), events[1..], t);
    }
  }

  /** A batch leaves `active` once and for all: from then on its own timer, however late it fires, changes nothing. */
  lemma LateTimerIsHarmless<T>(cfg: Config, s: State<T>, events: seq<Event<T>>, t: nat)
    requires Left(s, t) && Possible(cfg, s, events)
    ensures var s' := After(cfg, s, events);
            && !(s'.active.Some? && t in s'.active.value.tickets)
            && (t in s'.timers ==> Apply(cfg, s', TimerFires(t)) == s'.(timers := s'.timers - {t}))
  {
    hide Possible, After;
    LeftStaysOverRun(cfg, s, events, t);
  }

  /** Every opened batch is active, queued or dispatched, and in one place only; an active one has a timer that will
      close it. */
  lemma EveryBatchInOnePlace<T(!new)>(cfg: Config, s: State<T>, t: nat)
    requires Reachable(cfg, s) && t < s.nextTicket
    ensures Count(AllTickets(Batches(s)), t) == 1
    ensures s.active.Some? && t in s.active.value.tickets ==>
      t in s.timers && Apply(cfg, s, TimerFires(t)).active.None?
  {
    hide Settled, BatchesOk, PhasesOk, Count, AllTickets, Schedule;
    ReachableInv(cfg, s);
    ScheduleParts(cfg, CloseActive(s.(timers := s.timers - {t}), Linger));
  }
}
