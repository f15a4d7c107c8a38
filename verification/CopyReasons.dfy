/** Why batches were closed, remembered through every merge. */
module CopyReasons {
  import opened Basics
  import opened CopyProtocol

  /** Every ticket of the batch was closed for the batch's reason. */
  ghost predicate SameReason<T>(b: Batch<T>, closings: map<nat, Reason>) {
    forall t | t in b.tickets :: t in closings && closings[t] == b.reason
  }

  /** Closed batches carry the reason all their tickets were closed for; the active batch is not closed yet. */
  ghost predicate ReasonsOk<T>(s: State<T>) {
    && (forall t | t in s.closings :: t < s.nextTicket)
    && (s.active.Some? ==> forall t | t in s.active.value.tickets :: t < s.nextTicket && t !in s.closings)
    && (forall i :: 0 <= i < |s.runs| ==> SameReason(s.runs[i].batch, s.closings))
    && (forall i :: 0 <= i < |s.queue| ==> SameReason(s.queue[i], s.closings))
  }

  /** New closings say nothing about tickets closed before. */
  lemma ReasonStays<T>(b: Batch<T>, closings: map<nat, Reason>, tickets: seq<nat>, reason: Reason)
    requires SameReason(b, closings) && forall t | t in tickets :: t !in closings
    ensures SameReason(b, closings + Closing(tickets, reason))
  {
  }

  lemma CloseKeepsReasons<T>(s: State<T>, reason: Reason)
    requires ReasonsOk(s)
    ensures ReasonsOk(CloseActive(s, reason))
  {
    var s' := CloseActive(s, reason);
    if s.active.Some? && |s.active.value.rows| != 0 {
      var b := s.active.value;
      forall i | 0 <= i < |s.runs| ensures SameReason(s.runs[i].batch, s'.closings) {
        ReasonStays(s.runs[i].batch, s.closings, b.tickets, reason);
      }
      forall i | 0 <= i < |s'.queue| ensures SameReason(s'.queue[i], s'.closings) {
        if i < |s.queue| {
          ReasonStays(s.queue[i], s.closings, b.tickets, reason);
        }
      }
    }
  }

  lemma EnqueueKeepsReasons<T>(s: State<T>, rows: seq<T>, r: nat)
    requires ReasonsOk(s) && r < |s.requests|
    ensures ReasonsOk(EnqueueUnbatched(s, rows, r))
  {
    var s' := EnqueueUnbatched(s, rows, r);
    forall i | 0 <= i < |s.runs| ensures SameReason(s.runs[i].batch, s'.closings) {
      ReasonStays(s.runs[i].batch, s.closings, [s.nextTicket], Unbatched);
    }
    forall i | 0 <= i < |s'.queue| ensures SameReason(s'.queue[i], s'.closings) {
      if i < |s.queue| {
        ReasonStays(s.queue[i], s.closings, [s.nextTicket], Unbatched);
      }
    }
  }

  lemma {:induction false} MergeHeadKeepsReasons<T>(cfg: Config, s: State<T>)
    requires ReasonsOk(s)
    ensures ReasonsOk(s.(queue := MergeHead(cfg, s.queue)))
    decreases |s.queue|
  {
    if Mergeable(cfg, s.queue) {
      var s' := s.(queue := [Merge(s.queue[0], s.queue[1])] + s.queue[2..]);
      assert SameReason(s.queue[0], s.closings) && SameReason(s.queue[1], s.closings);
      assert SameReason(Merge(s.queue[0], s.queue[1]), s.closings);
      MergeHeadKeepsReasons(cfg, s');
    }
  }

  lemma {:induction false} ScheduleKeepsReasons<T>(cfg: Config, s: State<T>)
    requires ReasonsOk(s)
    ensures ReasonsOk(Schedule(cfg, s)) && Schedule(cfg, s).closings == s.closings
    decreases |s.queue|
  {
    if s.inFlight < cfg.maxConcurrent && s.queue != [] {
      MergeHeadKeepsReasons(cfg, s);
      var s1 := s.(queue := MergeHead(cfg, s.queue));
      ScheduleKeepsReasons(cfg, Dispatch(s1));
    }
  }

  lemma {:induction false} AppendRowsKeepsReasons<T>(cfg: Config, s: State<T>, rows: seq<T>, r: nat)
    requires ReasonsOk(s) && r < |s.requests| && HasRoom(cfg, s.active)
    ensures ReasonsOk(AppendRows(cfg, s, rows, r))
    ensures Kept(s.closings, AppendRows(cfg, s, rows, r).closings)
    decreases |rows|
  {
    if rows != [] {
      var (s', rest) := AppendChunk(cfg, s, rows, r);
      var s1 := if s.active.None? then OpenBatch(s) else s;
      var b := AddToBatch(s1.active.value, r, rows[..ChunkSize(cfg, s1.active.value, rows)]);
      var s2 := s1.(active := Some(b), requests := s1.requests[r := AddPart(s1.requests[r])]);
      assert ReasonsOk(s2);
      CloseKeepsReasons(s2, Full);
      ClosingKept(s2, Full);
      AppendRowsKeepsReasons(cfg, s', rest, r);
    }
  }

  /** What was recorded is never changed. */
  ghost predicate Kept(a: map<nat, Reason>, b: map<nat, Reason>) {
    forall t | t in a :: t in b && b[t] == a[t]
  }

  lemma ClosingKept<T>(s: State<T>, reason: Reason)
    requires ReasonsOk(s)
    ensures Kept(s.closings, CloseActive(s, reason).closings)
  {
  }

  /** Every event keeps the record and its agreement with the batches. */
  lemma EventKeepsReasons<T>(cfg: Config, s: State<T>, e: Event<T>)
    requires ReasonsOk(s) && Enabled(cfg, s, e)
    ensures ReasonsOk(Apply(cfg, s, e)) && Kept(s.closings, Apply(cfg, s, e).closings)
  {
    hide Schedule, AppendRows, SameReason;
    match e
    case Submit(rows, coalesce) =>
      var s1, r := Admit(s, rows, coalesce), |s.requests|;
      if coalesce {
        AppendRowsKeepsReasons(cfg, s1, rows, r);
        ScheduleKeepsReasons(cfg, AppendRows(cfg, s1, rows, r));
      } else {
        EnqueueKeepsReasons(s1, rows, r);
        ScheduleKeepsReasons(cfg, EnqueueUnbatched(s1, rows, r));
      }
    case TimerFires(t) =>
      var s1 := s.(timers := s.timers - {t});
      CloseKeepsReasons(s1, Linger);
      ClosingKept(s1, Linger);
      ScheduleKeepsReasons(cfg, CloseActive(s1, Linger));
    case CopyReturns(i, report) =>
    case FinishPart(i) =>
    case Resolve(i) =>
    case Complete(i) =>
      var run := s.runs[i];
      ScheduleKeepsReasons(cfg, s.(pending := s.pending - (set r | r in run.phase.completed),
                                   inFlight := s.inFlight - 1,
                                   runs := s.runs[i := run.(phase := Done(run.phase.err))]));
    case FlushStarts(order) =>
      CloseKeepsReasons(s, Manual);
      ClosingKept(s, Manual);
      ScheduleKeepsReasons(cfg, CloseActive(s, Manual));
    case FlushAwaits(f) =>
    case FlushReturns(f) =>
  }

  lemma {:induction false} RunKeepsReasons<T>(cfg: Config, s: State<T>, events: seq<Event<T>>)
    requires ReasonsOk(s) && Possible(cfg, s, events)
    ensures ReasonsOk(After(cfg, s, events)) && Kept(s.closings, After(cfg, s, events).closings)
    decreases |events|
  {
    hide ReasonsOk, Enabled, Apply;
    if events != [] {
      EventKeepsReasons(cfg, s, events[0]);
      RunKeepsReasons(cfg, Apply(cfg, s, events[0]), events[1..]);
    }
  }

  /** The record is the event that closed the batch: a manual flush, or the batch's own timer. */
  lemma RecordsTheCause<T>(cfg: Config, s: State<T>, e: Event<T>, t: nat)
    requires ReasonsOk(s) && Enabled(cfg, s, e)
    requires s.active.Some? && s.active.value.rows != [] && s.active.value.tickets == [t]
    ensures e.FlushStarts? ==> Apply(cfg, s, e).closings == s.closings[t := Manual]
    ensures e == TimerFires(t) ==> Apply(cfg, s, e).closings == s.closings[t := Linger]
  {
    hide Schedule, SameReason;
    if e.FlushStarts? {
      CloseKeepsReasons(s, Manual);
      ScheduleKeepsReasons(cfg, CloseActive(s, Manual));
    }
    if e == TimerFires(t) {
      var s1 := s.(timers := s.timers - {t});
      CloseKeepsReasons(s1, Linger);
      ScheduleKeepsReasons(cfg, CloseActive(s1, Linger));
    }
  }

  /** Appending rows closes batches only because they are full. */
  lemma {:induction false} AppendClosesFull<T>(cfg: Config, s: State<T>, rows: seq<T>, r: nat, t: nat)
    requires r < |s.requests| && HasRoom(cfg, s.active)
    requires t in AppendRows(cfg, s, rows, r).closings && t !in s.closings
    ensures AppendRows(cfg, s, rows, r).closings[t].Full? && cfg.maxRows > 0
    decreases |rows|
  {
    if rows != [] {
      var (s', rest) := AppendChunk(cfg, s, rows, r);
      if t in s'.closings {
        FullStays(cfg, s', rest, r, t);
      } else {
        AppendClosesFull(cfg, s', rest, r, t);
      }
    }
  }

  lemma {:induction false} FullStays<T>(cfg: Config, s: State<T>, rows: seq<T>, r: nat, t: nat)
    requires r < |s.requests| && HasRoom(cfg, s.active) && t in s.closings && s.closings[t].Full?
    ensures t in AppendRows(cfg, s, rows, r).closings && AppendRows(cfg, s, rows, r).closings[t].Full?
    decreases |rows|
  {
    if rows != [] {
      var (s', rest) := AppendChunk(cfg, s, rows, r);
      FullStays(cfg, s', rest, r, t);
    }
  }

  /** A batch stops accepting rows only when a coalesced submission fills it, when its own timer fires, or when a flush
      asks for it; until then later submissions join it. An unbatched submission closes only its own batch. */
  lemma ClosedOnlyForCause<T>(cfg: Config, s: State<T>, e: Event<T>, t: nat)
    requires ReasonsOk(s) && Enabled(cfg, s, e) && t in Apply(cfg, s, e).closings && t !in s.closings
    ensures match e
            case Submit(_, coalesce) =>
              if coalesce then Apply(cfg, s, e).closings[t].Full? && cfg.maxRows > 0
              else Apply(cfg, s, e).closings[t].Unbatched? && t == s.nextTicket
            case TimerFires(x) => Apply(cfg, s, e).closings[t].Linger? && t == x
            case FlushStarts(_) =>
              Apply(cfg, s, e).closings[t].Manual? && s.active.Some? && t in s.active.value.tickets
            case _ => false
  {
    hide Schedule, AppendRows, SameReason;
    match e
    case Submit(rows, coalesce) =>
      var s1, r := Admit(s, rows, coalesce), |s.requests|;
      if coalesce {
        AppendRowsKeepsReasons(cfg, s1, rows, r);
        ScheduleKeepsReasons(cfg, AppendRows(cfg, s1, rows, r));
        AppendClosesFull(cfg, s1, rows, r, t);
      } else {
        EnqueueKeepsReasons(s1, rows, r);
        ScheduleKeepsReasons(cfg, EnqueueUnbatched(s1, rows, r));
      }
    case TimerFires(x) =>
      var s1 := s.(timers := s.timers - {x});
      CloseKeepsReasons(s1, Linger);
      ScheduleKeepsReasons(cfg, CloseActive(s1, Linger));
    case Complete(i) =>
      var run := s.runs[i];
      ScheduleKeepsReasons(cfg, s.(pending := s.pending - (set r | r in run.phase.completed),
                                   inFlight := s.inFlight - 1,
                                   runs := s.runs[i := run.(phase := Done(run.phase.err))]));
    case FlushStarts(order) =>
      CloseKeepsReasons(s, Manual);
      ScheduleKeepsReasons(cfg, CloseActive(s, Manual));
    case _ =>
  }
}
