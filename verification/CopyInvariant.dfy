/** What holds of the batcher between any two events. */
module CopyInvariant {
  import opened Basics
  import opened CopyProtocol

  // What batches and parts hold

  function RowsIn<T>(parts: seq<Part<T>>): seq<T> {
    if parts == [] then [] else parts[0].rows + RowsIn(parts[1..])
  }

  function OwnersIn<T>(parts: seq<Part<T>>): seq<nat> {
    if parts == [] then [] else [parts[0].request] + OwnersIn(parts[1..])
  }

  /** The rows request `r` contributed, in the order of the parts. */
  function RowsOf<T>(parts: seq<Part<T>>, r: nat): seq<T> {
    if parts == [] then []
    else (if parts[0].request == r then parts[0].rows else []) + RowsOf(parts[1..], r)
  }

  function AllParts<T>(bs: seq<Batch<T>>): seq<Part<T>> {
    if bs == [] then [] else bs[0].parts + AllParts(bs[1..])
  }

  function AllTickets<T>(bs: seq<Batch<T>>): seq<nat> {
    if bs == [] then [] else bs[0].tickets + AllTickets(bs[1..])
  }

  function AllOwners<T>(bs: seq<Batch<T>>): seq<nat> {
    if bs == [] then [] else bs[0].requests + AllOwners(bs[1..])
  }

  // All batches, in the order of their rows

  function Dispatched<T>(runs: seq<Run<T>>): (bs: seq<Batch<T>>)
    ensures |bs| == |runs|
  {
    seq(|runs|, i requires 0 <= i < |runs| => runs[i].batch)
  }

  function Waiting<T>(s: State<T>): seq<Batch<T>> {
    s.queue + if s.active.Some? then [s.active.value] else []
  }

  function Batches<T>(s: State<T>): seq<Batch<T>> {
    Dispatched(s.runs) + Waiting(s)
  }

  // What workers still owe

  /** How many requests of its batch a worker has taken a part from. */
  function Finished<T>(run: Run<T>): (n: int)
    ensures PhaseInRange(run) ==> 0 <= n <= |run.batch.requests|
  {
    match run.phase
    case Copying => 0
    case Finishing(_, next, _) => next
    case Resolving(_, next, _, _) => next + 1
    case Done(_) => |run.batch.requests|
  }

  predicate PhaseInRange<T>(run: Run<T>) {
    match run.phase
    case Copying => true
    case Finishing(_, next, _) => next <= |run.batch.requests|
    case Resolving(_, next, _, _) => next < |run.batch.requests|
    case Done(_) => true
  }

  ghost predicate PhasesInRange<T>(runs: seq<Run<T>>) {
    forall i :: 0 <= i < |runs| ==> PhaseInRange(runs[i])
  }

  /** What workers have left to do for one request: parts to finish, a future to resolve, an entry of `pending` to
      remove. */
  datatype Ledger = Ledger(owed: nat, resolving: nat, completed: nat)

  function Plus(a: Ledger, b: Ledger): Ledger {
    Ledger(a.owed + b.owed, a.resolving + b.resolving, a.completed + b.completed)
  }

  function LedgerOf<T>(run: Run<T>, r: nat): Ledger
    requires PhaseInRange(run)
  {
    Ledger(Count(run.batch.requests[Finished(run)..], r),
           if run.phase.Resolving? && Current(run) == r then 1 else 0,
           if run.phase.Finishing? || run.phase.Resolving? then Count(run.phase.completed, r) else 0)
  }

  ghost function Total<T>(runs: seq<Run<T>>, r: nat): Ledger
    requires PhasesInRange(runs)
  {
    if runs == [] then Ledger(0, 0, 0) else Plus(LedgerOf(runs[0], r), Total(runs[1..], r))
  }

  ghost function Live<T>(runs: seq<Run<T>>): nat {
    if runs == [] then 0 else (if runs[0].phase.Done? then 0 else 1) + Live(runs[1..])
  }

  /** The parts of a request that no worker has finished yet. */
  ghost function Owed<T>(s: State<T>, r: nat): nat
    requires PhasesInRange(s.runs)
  {
    Total(s.runs, r).owed + Count(AllOwners(Waiting(s)), r)
  }

  function FailureOf<T>(run: Run<T>, r: nat, e: CopyError): nat
    requires PhaseInRange(run)
  {
    if !run.phase.Copying? && run.phase.err == Some(e) then Count(run.batch.requests[..Finished(run)], r) else 0
  }

  /** How many finished parts of request `r` failed with `e`. */
  ghost function Failures<T>(runs: seq<Run<T>>, r: nat, e: CopyError): nat
    requires PhasesInRange(runs)
  {
    if runs == [] then 0 else FailureOf(runs[0], r, e) + Failures(runs[1..], r, e)
  }

  // The invariant

  ghost predicate WellFormed<T>(cfg: Config, b: Batch<T>) {
    && b.parts != []
    && b.rows == RowsIn(b.parts)
    && b.requests == OwnersIn(b.parts)
    && b.tickets != []
    && Distinct(b.requests)
    && (forall p | p in b.parts :: p.rows != [])
    && (b.reason.Linger? || |b.tickets| == 1)
    && match b.reason
       case Filling => cfg.maxRows > 0 ==> |b.rows| <= cfg.maxRows
       case Full => cfg.maxRows > 0 && |b.rows| == cfg.maxRows
       case Manual => cfg.maxRows > 0 ==> |b.rows| <= cfg.maxRows
       case Linger => cfg.maxRows > 0 ==> |b.rows| <= cfg.maxRows
       case Unbatched => |b.parts| == 1
  }

  /** A request spans two batches only where the earlier one was closed full. */
  ghost predicate Ordered<T>(bs: seq<Batch<T>>) {
    forall i, j, r :: 0 <= i < j < |bs| && r in bs[i].requests && r in bs[j].requests ==> bs[i].reason.Full?
  }

  ghost predicate OwnersOk<T>(b: Batch<T>, requests: seq<Request<T>>) {
    forall r | r in b.requests :: r < |requests| && (requests[r].coalesced <==> !b.reason.Unbatched?)
  }

  ghost predicate BatchesOk<T>(cfg: Config, s: State<T>) {
    && (forall b | b in Batches(s) :: WellFormed(cfg, b) && OwnersOk(b, s.requests))
    && Ordered(Batches(s))
    && (forall b | b in Dispatched(s.runs) + s.queue :: !b.reason.Filling?)
    && (s.active.Some? ==> s.active.value.reason.Filling?)
  }

  /** Every ticket handed out is held by exactly one batch, and the active batch has a live timer. */
  ghost predicate TicketsOk<T>(s: State<T>) {
    && (forall t: nat :: Count(AllTickets(Batches(s)), t) == if t < s.nextTicket then 1 else 0)
    && (forall t | t in s.timers :: t < s.nextTicket)
    && (s.active.Some? ==> |s.active.value.tickets| == 1 && s.active.value.tickets[0] in s.timers)
  }

  ghost predicate PhaseOk<T>(run: Run<T>, requests: seq<Request<T>>) {
    && PhaseInRange(run)
    && (run.phase.Copying? <==> run.report.None?)
    && (run.report.Some? ==> run.phase.err == Verdict(run.report.value, |run.batch.rows|))
    && (run.phase.Resolving? ==> Current(run) < |requests| && run.phase.outcome == OutcomeOf(requests[Current(run)]))
    && (run.phase.Finishing? || run.phase.Resolving? ==>
          forall r | r in run.phase.completed :: r in run.batch.requests)
  }

  ghost predicate PhasesOk<T>(s: State<T>) {
    forall i :: 0 <= i < |s.runs| ==> PhaseOk(s.runs[i], s.requests)
  }

  /** The books of one request, except for its rows: its counter is the number of unfinished parts, its errors are those
      of its finished parts, it is resolved once and with the right outcome, and it stays pending until removed. */
  ghost predicate RequestOk<T>(s: State<T>, r: nat)
    requires PhasesInRange(s.runs) && r < |s.requests|
  {
    var q, total := s.requests[r], Total(s.runs, r);
    && 0 < q.rowCount == |q.rows|
    && q.pendingParts == Owed(s, r)
    && (forall e :: Count(q.errs, e) == Failures(s.runs, r, e))
    && (q.result.Some? ==> q.pendingParts == 0 && q.result == Some(OutcomeOf(q)))
    && total.resolving == (if q.result.None? && q.pendingParts == 0 then 1 else 0)
    && (total.completed > 0 ==> q.result.Some? && total.completed == 1)
    && (r in s.pending <==> q.result.None? || total.completed > 0)
  }

  /** The first `n` requests are settled: their books hold and their rows are all accounted for. */
  ghost predicate Settled<T>(s: State<T>, n: nat)
    requires PhasesInRange(s.runs) && n <= |s.requests|
  {
    forall r: nat | r < n :: RequestOk(s, r) && RowsOf(AllParts(Batches(s)), r) == s.requests[r].rows
  }

  ghost predicate Core<T>(cfg: Config, s: State<T>, n: nat) {
    && BatchesOk(cfg, s)
    && TicketsOk(s)
    && PhasesOk(s)
    && n <= |s.requests|
    && Settled(s, n)
    && s.inFlight == Live(s.runs)
    && (forall r | r in s.pending :: r < |s.requests|)
  }

  /** No more workers than allowed, and a batch waits only when all of them are busy. */
  ghost predicate Busy<T>(cfg: Config, s: State<T>) {
    s.inFlight <= cfg.maxConcurrent && (s.queue != [] ==> s.inFlight == cfg.maxConcurrent)
  }

  /** The errors a flush collects from resolved futures. */
  ghost function AwaitErrors<T>(requests: seq<Request<T>>, ids: seq<nat>): seq<seq<CopyError>>
    requires forall i :: 0 <= i < |ids| ==> ids[i] < |requests| && requests[ids[i]].result.Some?
  {
    if ids == [] then []
    else
      var errs := requests[ids[|ids| - 1]].result.value.errs;
      AwaitErrors(requests, ids[..|ids| - 1]) + if errs != [] then [errs] else []
  }

  ghost predicate FlushOk<T>(f: Flush, requests: seq<Request<T>>) {
    && f.barrier <= |requests|
    && (forall i :: 0 <= i < |f.captured| ==> f.captured[i] < f.barrier)
    && (forall r: nat | r < f.barrier :: requests[r].result.Some? || r in f.captured)
    && f.awaited <= |f.captured|
    && (forall i :: 0 <= i < f.awaited ==> requests[f.captured[i]].result.Some?)
    && f.errs == AwaitErrors(requests, f.captured[..f.awaited])
    && (f.result.Some? ==> f.awaited == |f.captured| && f.result.value == f.errs)
  }

  ghost predicate FlushesOk<T>(s: State<T>) {
    forall f | f in s.flushes :: FlushOk(f, s.requests)
  }

  ghost predicate Inv<T>(cfg: Config, s: State<T>) {
    Core(cfg, s, |s.requests|) && HasRoom(cfg, s.active) && Busy(cfg, s) && FlushesOk(s)
  }
}
