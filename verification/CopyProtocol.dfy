/** The COPY batcher as a state machine. One event is one critical section of the batcher's lock, or one step a worker
    or a flush takes outside it: a COPY returning, a request losing one part, a future being resolved or awaited. */
module CopyProtocol {
  import opened Basics

  /** Batcher settings after validation and defaulting; zero `maxRows` leaves batches unbounded. */
  datatype Config = Config(maxRows: nat, maxConcurrent: nat)

  const DEFAULT_MAX_CONCURRENT: nat := 32

  /** Negative settings are rejected; a zero concurrency limit, like a zero linger, means the default. */
  function NormalizedConfig(maxRows: int, linger: int, maxConcurrent: int): (cfg: Option<Config>)
    ensures cfg.Some? <==> 0 <= maxRows && 0 <= linger && 0 <= maxConcurrent
    ensures cfg.Some? ==> cfg.value.maxRows == maxRows && cfg.value.maxConcurrent > 0
    ensures cfg.Some? && maxConcurrent != 0 ==> cfg.value.maxConcurrent == maxConcurrent
    ensures cfg.Some? && maxConcurrent == 0 ==> cfg.value.maxConcurrent == 32
  {
    if maxRows < 0 || linger < 0 || maxConcurrent < 0 then None
    else Some(Config(maxRows, if maxConcurrent == 0 then DEFAULT_MAX_CONCURRENT else maxConcurrent))
  }

  /** Why a batch stopped accepting rows; `Filling` is the empty reason of the batch that still accepts them. */
  datatype Reason = Filling | Full | Manual | Linger | Unbatched

  /** The rows one request contributed to one batch. */
  datatype Part<T> = Part(request: nat, rows: seq<T>)

  /** A physical batch. The code keeps `rows`, `requests` and `reason`. `tickets` (which opened batches were merged into
      this one) and `parts` (who contributed which rows) are bookkeeping that no branch reads. */
  datatype Batch<T> = Batch(tickets: seq<nat>, parts: seq<Part<T>>, rows: seq<T>, requests: seq<nat>, reason: Reason)

  datatype CopyError = CopyFailed(cause: string) | CountMismatch(got: int, want: int) | Canceled

  /** What a resolved future holds; the error is nil exactly when `errs` is empty. */
  datatype Outcome = Outcome(count: int, errs: seq<CopyError>)

  /** One admitted submission. `rows` and `coalesced` record what was submitted; the code keeps the other fields. */
  datatype Request<T> = Request(
    rows: seq<T>,
    coalesced: bool,
    rowCount: nat,
    pendingParts: int,
    errs: seq<CopyError>,
    result: Option<Outcome>)

  /** What the physical COPY reported. */
  datatype CopyReport = CopyReport(count: int, failure: Option<string>)

  /** Where a worker is in its batch: the COPY is running; requests before `next` have lost their part; the request at
      `next` lost its last part and is about to be resolved with `outcome`; or the worker has left. */
  datatype Phase =
    | Copying
    | Finishing(err: Option<CopyError>, next: nat, completed: seq<nat>)
    | Resolving(err: Option<CopyError>, next: nat, completed: seq<nat>, outcome: Outcome)
    | Done(err: Option<CopyError>)

  /** A dispatched batch with its worker; `report` records what the COPY returned. */
  datatype Run<T> = Run(batch: Batch<T>, report: Option<CopyReport>, phase: Phase)

  /** One flush call: the futures it captured, in the order it awaits them, and the errors it met so far. `barrier` is
      the number of requests admitted before it. */
  datatype Flush = Flush(
    barrier: nat,
    captured: seq<nat>,
    awaited: nat,
    errs: seq<seq<CopyError>>,
    result: Option<seq<seq<CopyError>>>)

  /** Requests and batches are numbered in order of admission and opening. `runs` logs every dispatched batch, `timers`
      holds the linger callbacks that have not run yet, stale ones included, and `closings` records why each batch
      stopped accepting rows, whatever becomes of it later. */
  datatype State<T> = State(
    active: Option<Batch<T>>,
    queue: seq<Batch<T>>,
    inFlight: int,
    pending: set<nat>,
    requests: seq<Request<T>>,
    runs: seq<Run<T>>,
    flushes: seq<Flush>,
    timers: set<nat>,
    nextTicket: nat,
    closings: map<nat, Reason>)

  function Init<T>(): State<T> {
    State(None, [], 0, {}, [], [], [], {}, 0, map[])
  }

  // Requests

  function NewRequest<T>(rows: seq<T>, coalesced: bool): Request<T> {
    Request(rows, coalesced, |rows|, 0, [], None)
  }

  function AddPart<T>(q: Request<T>): Request<T> {
    q.(pendingParts := q.pendingParts + 1)
  }

  function LosePart<T>(q: Request<T>, err: Option<CopyError>): Request<T> {
    q.(errs := if err.Some? then q.errs + [err.value] else q.errs, pendingParts := q.pendingParts - 1)
  }

  /** The values handed to the future once no part is left. */
  function OutcomeOf<T>(q: Request<T>): Outcome {
    if q.errs != [] then Outcome(0, q.errs) else Outcome(q.rowCount, [])
  }

  // Admission

  predicate HasRoom<T>(cfg: Config, active: Option<Batch<T>>) {
    active.Some? && cfg.maxRows > 0 ==> |active.value.rows| < cfg.maxRows
  }

  function OpenBatch<T>(s: State<T>): State<T> {
    s.(active := Some(Batch([s.nextTicket], [], [], [], Filling)),
       timers := s.timers + {s.nextTicket},
       nextTicket := s.nextTicket + 1)
  }

  function ChunkSize<T>(cfg: Config, b: Batch<T>, rows: seq<T>): int {
    if cfg.maxRows > 0 then Min(|rows|, cfg.maxRows - |b.rows|) else |rows|
  }

  function AddToBatch<T>(b: Batch<T>, r: nat, chunk: seq<T>): Batch<T> {
    b.(parts := b.parts + [Part(r, chunk)], rows := b.rows + chunk, requests := b.requests + [r])
  }

  /** Closes the active batch, if any, and queues it unless it is empty. */
  function CloseActive<T>(s: State<T>, reason: Reason): State<T> {
    if s.active.None? then s
    else if |s.active.value.rows| == 0 then s.(active := None)
    else s.(active := None,
            queue := s.queue + [s.active.value.(reason := reason)],
            closings := s.closings + Closing(s.active.value.tickets, reason))
  }

  function Closing(tickets: seq<nat>, reason: Reason): map<nat, Reason> {
    map t | t in tickets :: reason
  }

  /** One turn of the append loop: the active batch, opened if need be, takes as many rows as it has room for. */
  function AppendChunk<T>(cfg: Config, s: State<T>, rows: seq<T>, r: nat): (State<T>, seq<T>)
    requires r < |s.requests| && rows != [] && HasRoom(cfg, s.active)
  {
    var s1 := if s.active.None? then OpenBatch(s) else s;
    var n := ChunkSize(cfg, s1.active.value, rows);
    var b := AddToBatch(s1.active.value, r, rows[..n]);
    var s2 := s1.(active := Some(b), requests := s1.requests[r := AddPart(s1.requests[r])]);
    (if cfg.maxRows > 0 && |b.rows| == cfg.maxRows then CloseActive(s2, Full) else s2, rows[n..])
  }

  function AppendRows<T>(cfg: Config, s: State<T>, rows: seq<T>, r: nat): State<T>
    requires r < |s.requests| && HasRoom(cfg, s.active)
    decreases |rows|
  {
    if rows == [] then s
    else
      var (s', rest) := AppendChunk(cfg, s, rows, r);
      AppendRows(cfg, s', rest, r)
  }

  function EnqueueUnbatched<T>(s: State<T>, rows: seq<T>, r: nat): State<T>
    requires r < |s.requests|
  {
    s.(requests := s.requests[r := AddPart(s.requests[r])],
       queue := s.queue + [Batch([s.nextTicket], [Part(r, rows)], rows, [r], Unbatched)],
       nextTicket := s.nextTicket + 1,
       closings := s.closings + Closing([s.nextTicket], Unbatched))
  }

  function Admit<T>(s: State<T>, rows: seq<T>, coalesce: bool): State<T> {
    s.(requests := s.requests + [NewRequest(rows, coalesce)], pending := s.pending + {|s.requests|})
  }

  // Scheduling

  function Merge<T>(b: Batch<T>, next: Batch<T>): Batch<T> {
    b.(tickets := b.tickets + next.tickets,
       parts := b.parts + next.parts,
       rows := b.rows + next.rows,
       requests := b.requests + next.requests)
  }

  /** The two batches at the head of the queue go out as one COPY. */
  predicate Mergeable<T>(cfg: Config, queue: seq<Batch<T>>) {
    && |queue| >= 2
    && queue[0].reason.Linger?
    && queue[1].reason.Linger?
    && (cfg.maxRows > 0 ==> |queue[0].rows| + |queue[1].rows| <= cfg.maxRows)
  }

  /** The queue once its head has absorbed every batch the dequeue loop merges into it. */
  function MergeHead<T>(cfg: Config, queue: seq<Batch<T>>): (merged: seq<Batch<T>>)
    ensures queue != [] ==> 0 < |merged| <= |queue|
    decreases |queue|
  {
    if Mergeable(cfg, queue) then MergeHead(cfg, [Merge(queue[0], queue[1])] + queue[2..]) else queue
  }

  /** Moves the head of the queue to a new worker. */
  function Dispatch<T>(s: State<T>): State<T>
    requires s.queue != []
  {
    s.(queue := s.queue[1..], runs := s.runs + [Run(s.queue[0], None, Copying)], inFlight := s.inFlight + 1)
  }

  function Schedule<T>(cfg: Config, s: State<T>): State<T>
    decreases |s.queue|
  {
    if cfg.maxConcurrent <= s.inFlight || s.queue == [] then s
    else Schedule(cfg, Dispatch(s.(queue := MergeHead(cfg, s.queue))))
  }

  // Events

  datatype Event<T> =
    | Submit(rows: seq<T>, coalesce: bool)
    | TimerFires(ticket: nat)
    | CopyReturns(run: nat, report: CopyReport)
    | FinishPart(run: nat)
    | Resolve(run: nat)
    | Complete(run: nat)
    | FlushStarts(order: seq<nat>)
    | FlushAwaits(flush: nat)
    | FlushReturns(flush: nat)

  /** The request whose turn it is on a worker. */
  function Current<T>(run: Run<T>): nat
    requires run.phase.Finishing? || run.phase.Resolving?
    requires run.phase.next < |run.batch.requests|
  {
    run.batch.requests[run.phase.next]
  }

  predicate Enabled<T>(cfg: Config, s: State<T>, e: Event<T>) {
    match e
    case Submit(rows, _) => rows != [] && HasRoom(cfg, s.active)
    case TimerFires(t) => t in s.timers
    case CopyReturns(i, _) => i < |s.runs| && s.runs[i].phase.Copying?
    case FinishPart(i) =>
      && i < |s.runs| && s.runs[i].phase.Finishing? && s.runs[i].phase.next < |s.runs[i].batch.requests|
      && Current(s.runs[i]) < |s.requests|
    case Resolve(i) =>
      && i < |s.runs| && s.runs[i].phase.Resolving? && s.runs[i].phase.next < |s.runs[i].batch.requests|
      && Current(s.runs[i]) < |s.requests|
    case Complete(i) =>
      i < |s.runs| && s.runs[i].phase.Finishing? && s.runs[i].phase.next == |s.runs[i].batch.requests|
    case FlushStarts(order) =>
      && |order| == |s.pending| && (set r | r in order) == s.pending
    case FlushAwaits(f) =>
      && f < |s.flushes| && s.flushes[f].result.None? && s.flushes[f].awaited < |s.flushes[f].captured|
      && s.flushes[f].captured[s.flushes[f].awaited] < |s.requests|
      && s.requests[s.flushes[f].captured[s.flushes[f].awaited]].result.Some?
    case FlushReturns(f) =>
      f < |s.flushes| && s.flushes[f].result.None? && s.flushes[f].awaited == |s.flushes[f].captured|
  }

  /** The error a worker reports for its batch: a clean COPY of the wrong number of rows is a failure too. */
  function Verdict(report: CopyReport, want: int): Option<CopyError> {
    if report.failure.Some? then Some(CopyFailed(report.failure.value))
    else if report.count != want then Some(CountMismatch(report.count, want))
    else None
  }

  function ApplySubmit<T>(cfg: Config, s: State<T>, rows: seq<T>, coalesce: bool): State<T>
    requires HasRoom(cfg, s.active)
  {
    var s1 := Admit(s, rows, coalesce);
    Schedule(cfg, if coalesce then AppendRows(cfg, s1, rows, |s.requests|)
                  else EnqueueUnbatched(s1, rows, |s.requests|))
  }

  function ApplyTimer<T>(cfg: Config, s: State<T>, t: nat): State<T> {
    var s1 := s.(timers := s.timers - {t});
    if s1.active.Some? && s1.active.value.tickets == [t] then Schedule(cfg, CloseActive(s1, Linger)) else s1
  }

  function ApplyCopyReturns<T>(s: State<T>, i: nat, report: CopyReport): State<T>
    requires i < |s.runs|
  {
    var run := s.runs[i];
    s.(runs := s.runs[i := run.(report := Some(report), phase := Finishing(Verdict(report, |run.batch.rows|), 0, []))])
  }

  function ApplyFinishPart<T>(s: State<T>, i: nat): State<T>
    requires i < |s.runs| && s.runs[i].phase.Finishing? && s.runs[i].phase.next < |s.runs[i].batch.requests|
    requires Current(s.runs[i]) < |s.requests|
  {
    var run, r := s.runs[i], Current(s.runs[i]);
    var Finishing(err, next, completed) := run.phase;
    var q := LosePart(s.requests[r], err);
    var phase := if q.pendingParts != 0 then Finishing(err, next + 1, completed)
                 else Resolving(err, next, completed, OutcomeOf(q));
    s.(requests := s.requests[r := q], runs := s.runs[i := run.(phase := phase)])
  }

  /** Resolving is guarded by the future's once: a second attempt would change nothing. */
  function ApplyResolve<T>(s: State<T>, i: nat): State<T>
    requires i < |s.runs| && s.runs[i].phase.Resolving? && s.runs[i].phase.next < |s.runs[i].batch.requests|
    requires Current(s.runs[i]) < |s.requests|
  {
    var run, r := s.runs[i], Current(s.runs[i]);
    var Resolving(err, next, completed, outcome) := run.phase;
    var q := s.requests[r];
    s.(requests := s.requests[r := if q.result.None? then q.(result := Some(outcome)) else q],
       runs := s.runs[i := run.(phase := Finishing(err, next + 1, completed + [r]))])
  }

  function ApplyComplete<T>(cfg: Config, s: State<T>, i: nat): State<T>
    requires i < |s.runs| && s.runs[i].phase.Finishing?
  {
    var run := s.runs[i];
    Schedule(cfg, s.(pending := s.pending - (set r | r in run.phase.completed),
                     inFlight := s.inFlight - 1,
                     runs := s.runs[i := run.(phase := Done(run.phase.err))]))
  }

  function ApplyFlush<T>(cfg: Config, s: State<T>, order: seq<nat>): State<T> {
    var s1 := Schedule(cfg, CloseActive(s, Manual));
    s1.(flushes := s1.flushes + [Flush(|s.requests|, order, 0, [], None)])
  }

  function ApplyFlushAwaits<T>(s: State<T>, f: nat): State<T>
    requires f < |s.flushes| && s.flushes[f].awaited < |s.flushes[f].captured|
    requires s.flushes[f].captured[s.flushes[f].awaited] < |s.requests|
    requires s.requests[s.flushes[f].captured[s.flushes[f].awaited]].result.Some?
  {
    var flush := s.flushes[f];
    var errs := s.requests[flush.captured[flush.awaited]].result.value.errs;
    s.(flushes := s.flushes[f := flush.(awaited := flush.awaited + 1,
                                        errs := if errs != [] then flush.errs + [errs] else flush.errs)])
  }

  function Apply<T>(cfg: Config, s: State<T>, e: Event<T>): State<T>
    requires Enabled(cfg, s, e)
  {
    match e
    case Submit(rows, coalesce) => ApplySubmit(cfg, s, rows, coalesce)
    case TimerFires(t) => ApplyTimer(cfg, s, t)
    case CopyReturns(i, report) => ApplyCopyReturns(s, i, report)
    case FinishPart(i) => ApplyFinishPart(s, i)
    case Resolve(i) => ApplyResolve(s, i)
    case Complete(i) => ApplyComplete(cfg, s, i)
    case FlushStarts(order) => ApplyFlush(cfg, s, order)
    case FlushAwaits(f) => ApplyFlushAwaits(s, f)
    case FlushReturns(f) => s.(flushes := s.flushes[f := s.flushes[f].(result := Some(s.flushes[f].errs))])
  }

  /** Every interleaving: `events` can happen one after the other from `s`. */
  predicate Possible<T>(cfg: Config, s: State<T>, events: seq<Event<T>>)
    decreases |events|
  {
    events == [] || (Enabled(cfg, s, events[0]) && Possible(cfg, Apply(cfg, s, events[0]), events[1..]))
  }

  function After<T>(cfg: Config, s: State<T>, events: seq<Event<T>>): State<T>
    requires Possible(cfg, s, events)
    decreases |events|
  {
    if events == [] then s else After(cfg, Apply(cfg, s, events[0]), events[1..])
  }
}
