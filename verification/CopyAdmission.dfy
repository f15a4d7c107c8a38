/** What admitting a request and closing the active batch keep. */
module CopyAdmission {
  import opened Basics
  import opened CopyProtocol
  import opened CopyInvariant
  import opened CopyScheduling

  /** The newest request, of which the rows in `rest` are not in any batch yet; so far it only went into batches that
      were closed full. */
  ghost predicate Admitting<T>(s: State<T>, rest: seq<T>) {
    Partial(s, rest) && (rest != [] ==> forall b | b in Batches(s) && |s.requests| - 1 in b.requests :: b.reason.Full?)
  }

  ghost predicate Partial<T>(s: State<T>, rest: seq<T>) {
    && |s.requests| > 0
    && PhasesInRange(s.runs)
    && var r, q := |s.requests| - 1, s.requests[|s.requests| - 1];
    && q == NewRequest(q.rows, q.coalesced).(pendingParts := q.pendingParts)
    && q.rowCount > 0
    && q.pendingParts == Owed(s, r)
    && (q.pendingParts > 0 || rest == q.rows)
    && r in s.pending
    && (forall i :: 0 <= i < |s.runs| ==> r !in s.runs[i].batch.requests)
    && RowsOf(AllParts(Batches(s)), r) + rest == q.rows
  }

  lemma UntouchedRun<T>(run: Run<T>, requests: seq<Request<T>>, r: nat, e: CopyError)
    requires PhaseOk(run, requests) && r !in run.batch.requests
    ensures LedgerOf(run, r) == Ledger(0, 0, 0) && FailureOf(run, r, e) == 0
  {
    CountMember(run.batch.requests[Finished(run)..], r);
    CountMember(run.batch.requests[..Finished(run)], r);
    if run.phase.Finishing? || run.phase.Resolving? {
      CountMember(run.phase.completed, r);
    }
  }

  lemma {:induction false} Untouched<T>(runs: seq<Run<T>>, requests: seq<Request<T>>, r: nat, e: CopyError)
    requires PhasesInRange(runs)
    requires forall i :: 0 <= i < |runs| ==> PhaseOk(runs[i], requests) && r !in runs[i].batch.requests
    ensures Total(runs, r) == Ledger(0, 0, 0) && Failures(runs, r, e) == 0
  {
    if runs != [] {
      UntouchedRun(runs[0], requests, r, e);
      Untouched(runs[1..], requests, r, e);
    }
  }

  /** Once nothing is left to append, the new request is settled too. */
  lemma AdmittedSettles<T>(cfg: Config, s: State<T>)
    requires |s.requests| > 0 && Core(cfg, s, |s.requests| - 1) && Admitting(s, [])
    ensures Core(cfg, s, |s.requests|)
  {
    hide LedgerOf, Total, Failures, RowsOf, AllParts, BatchesOk, TicketsOk, Owed;
    var r := |s.requests| - 1;
    assert RequestOk(s, r) by {
      forall e ensures Failures(s.runs, r, e) == 0 {
        Untouched(s.runs, s.requests, r, e);
      }
      Untouched(s.runs, s.requests, r, CopyFailed(""));
    }
    assert RowsOf(AllParts(Batches(s)), r) + [] == RowsOf(AllParts(Batches(s)), r);
  }

  // Closing the active batch

  /** The batches up to the active one. */
  function Closed<T>(s: State<T>): seq<Batch<T>> {
    Dispatched(s.runs) + s.queue
  }

  lemma LastSums<T>(pre: seq<Batch<T>>, b: Batch<T>)
    ensures AllParts(pre + [b]) == AllParts(pre) + b.parts
    ensures AllTickets(pre + [b]) == AllTickets(pre) + b.tickets
    ensures AllOwners(pre + [b]) == AllOwners(pre) + b.requests
  {
    BatchesConcat(pre, [b]);
    assert [b][1..] == [];
  }

  lemma CloseLists<T>(s: State<T>, reason: Reason)
    requires s.active.Some? && s.active.value.rows != []
    ensures var s', b := CloseActive(s, reason), s.active.value;
            && Batches(s) == Closed(s) + [b]
            && Batches(s') == Closed(s') == Closed(s) + [b.(reason := reason)]
            && AllParts(Batches(s')) == AllParts(Batches(s))
            && AllTickets(Batches(s')) == AllTickets(Batches(s))
            && AllOwners(Waiting(s')) == AllOwners(Waiting(s))
  {
    var s', b := CloseActive(s, reason), s.active.value;
    assert Batches(s) == Closed(s) + [b];
    assert Closed(s') == Batches(s') == Closed(s) + [b.(reason := reason)];
    LastSums(Closed(s), b);
    LastSums(Closed(s), b.(reason := reason));
    assert Waiting(s') == s.queue + [b.(reason := reason)];
    LastSums(s.queue, b);
    LastSums(s.queue, b.(reason := reason));
  }

  lemma CloseKeepsBatches<T>(cfg: Config, s: State<T>, reason: Reason)
    requires BatchesOk(cfg, s) && s.active.Some? && !reason.Filling? && !reason.Unbatched?
    requires s.active.value.rows != [] && WellFormed(cfg, s.active.value.(reason := reason))
    ensures BatchesOk(cfg, CloseActive(s, reason))
  {
    hide RowsIn, OwnersIn, Distinct, AllParts, AllTickets, AllOwners, RowsOf;
    var s', b, pre := CloseActive(s, reason), s.active.value, Closed(s);
    var b' := b.(reason := reason);
    CloseLists(s, reason);
    assert OwnersOk(b, s.requests) by {
      assert b in Batches(s);
    }
    forall x | x in Batches(s') ensures WellFormed(cfg, x) && OwnersOk(x, s'.requests) {
      assert x == b' || x in Batches(s);
    }
    forall i, j, r | 0 <= i < j < |Batches(s')| && r in Batches(s')[i].requests && r in Batches(s')[j].requests
      ensures Batches(s')[i].reason.Full?
    {
      assert Batches(s')[i] == Batches(s)[i] && Batches(s')[j].requests == Batches(s)[j].requests;
    }
  }

  lemma NonEmptyRows<T>(cfg: Config, b: Batch<T>)
    requires WellFormed(cfg, b)
    ensures b.rows != [] && b.requests != []
  {
    assert b.parts[0] in b.parts;
  }

  lemma CloseKeepsCore<T>(cfg: Config, s: State<T>, n: nat, reason: Reason)
    requires Core(cfg, s, n) && s.active.Some? && !reason.Filling? && !reason.Unbatched?
    requires WellFormed(cfg, s.active.value.(reason := reason))
    ensures Core(cfg, CloseActive(s, reason), n)
    ensures s.active.value.rows != []
  {
    var s' := CloseActive(s, reason);
    NonEmptyRows(cfg, s.active.value.(reason := reason));
    CloseLists(s, reason);
    CloseKeepsBatches(cfg, s, reason);
    SameBooks(s, s', n);
  }

  // Appending one chunk

  /** The state after a chunk went into the active batch, before a full batch is closed. */
  function AddChunk<T>(s: State<T>, chunk: seq<T>, r: nat): State<T>
    requires r < |s.requests|
  {
    var s1 := if s.active.None? then OpenBatch(s) else s;
    s1.(active := Some(AddToBatch(s1.active.value, r, chunk)),
        requests := s1.requests[r := AddPart(s1.requests[r])])
  }

  lemma AddChunkLists<T>(s: State<T>, chunk: seq<T>, r: nat)
    requires r < |s.requests|
    ensures var s' := AddChunk(s, chunk, r);
            && Closed(s') == Closed(s)
            && Batches(s') == Closed(s) + [s'.active.value]
            && Batches(s) == Closed(s) + (if s.active.Some? then [s.active.value] else [])
            && AllParts(Batches(s')) == AllParts(Batches(s)) + [Part(r, chunk)]
            && AllOwners(Waiting(s')) == AllOwners(Waiting(s)) + [r]
            && AllTickets(Batches(s')) == AllTickets(Batches(s)) + if s.active.None? then [s.nextTicket] else []
  {
    var s', pre := AddChunk(s, chunk, r), Closed(s);
    assert Batches(s') == pre + [s'.active.value];
    LastSums(pre, s'.active.value);
    assert Waiting(s') == s.queue + [s'.active.value];
    LastSums(s.queue, s'.active.value);
    if s.active.Some? {
      assert Batches(s) == pre + [s.active.value];
      LastSums(pre, s.active.value);
      assert Waiting(s) == s.queue + [s.active.value];
      LastSums(s.queue, s.active.value);
    } else {
      assert Batches(s) == pre && Waiting(s) == s.queue;
    }
  }

  lemma SinglePart<T>(p: Part<T>)
    ensures RowsIn([p]) == p.rows && OwnersIn([p]) == [p.request]
  {
    assert [p][1..] == [];
    assert OwnersIn([p]) == [p.request] + OwnersIn<T>([]);
  }

  lemma AddChunkWellFormed<T>(cfg: Config, b: Batch<T>, r: nat, chunk: seq<T>)
    requires b.reason.Filling? && chunk != [] && r !in b.requests
    requires (|b.tickets| == 1 && b.parts == [] && b.rows == [] && b.requests == []) || WellFormed(cfg, b)
    requires cfg.maxRows > 0 ==> |b.rows| + |chunk| <= cfg.maxRows
    ensures WellFormed(cfg, AddToBatch(b, r, chunk))
  {
    PartsConcat(b.parts, [Part(r, chunk)]);
    SinglePart(Part(r, chunk));
    DistinctConcat(b.requests, [r]);
  }

  lemma AddChunkKeepsBatches<T>(cfg: Config, s: State<T>, chunk: seq<T>, r: nat)
    requires BatchesOk(cfg, s) && r < |s.requests| && s.requests[r].coalesced && chunk != []
    requires forall b | b in Batches(s) && r in b.requests :: b.reason.Full?
    requires s.active.Some? && cfg.maxRows > 0 ==> |s.active.value.rows| + |chunk| <= cfg.maxRows
    requires s.active.None? && cfg.maxRows > 0 ==> |chunk| <= cfg.maxRows
    ensures BatchesOk(cfg, AddChunk(s, chunk, r))
  {
    hide RowsIn, OwnersIn, Distinct, AllParts, AllTickets, AllOwners, RowsOf;
    var s', pre := AddChunk(s, chunk, r), Closed(s);
    var b := (if s.active.None? then OpenBatch(s) else s).active.value;
    var b' := s'.active.value;
    AddChunkLists(s, chunk, r);
    assert s.active.Some? ==> b in Batches(s);
    AddChunkWellFormed(cfg, b, r, chunk);
    assert OwnersOk(b', s'.requests) by {
      assert s.active.Some? ==> OwnersOk(b, s.requests);
    }
    forall x | x in Batches(s') ensures WellFormed(cfg, x) && OwnersOk(x, s'.requests) {
      assert x == b' || (x in Batches(s) && OwnersOk(x, s.requests));
    }
    forall i, j, q | 0 <= i < j < |Batches(s')| && q in Batches(s')[i].requests && q in Batches(s')[j].requests
      ensures Batches(s')[i].reason.Full?
    {
      assert Batches(s')[i] == Batches(s)[i] == pre[i];
      if q != r {
        assert j < |Batches(s)| && q in Batches(s)[j].requests;
      }
    }
  }

  /** Handing out the next ticket keeps every ticket in exactly one place. */
  lemma NextTicket(tickets: seq<nat>, tickets': seq<nat>, next: nat, t: nat)
    requires Count(tickets, t) == if t < next then 1 else 0
    requires Count(tickets', t) == Count(tickets, t) + Count([next], t)
    ensures Count(tickets', t) == if t < next + 1 then 1 else 0
  {
    CountOne(next, t);
  }

  lemma AddChunkKeepsTickets<T>(s: State<T>, chunk: seq<T>, r: nat)
    requires TicketsOk(s) && r < |s.requests|
    ensures TicketsOk(AddChunk(s, chunk, r))
  {
    var s' := AddChunk(s, chunk, r);
    AddChunkLists(s, chunk, r);
    if s.active.None? {
      forall t: nat ensures Count(AllTickets(Batches(s')), t) == if t < s.nextTicket + 1 then 1 else 0 {
        CountConcat(AllTickets(Batches(s)), [s.nextTicket], t);
        NextTicket(AllTickets(Batches(s)), AllTickets(Batches(s')), s.nextTicket, t);
      }
    } else {
      assert AllTickets(Batches(s')) == AllTickets(Batches(s));
    }
  }

  lemma RowsOfLast<T>(parts: seq<Part<T>>, p: Part<T>, r: nat)
    ensures RowsOf(parts + [p], r) == RowsOf(parts, r) + if p.request == r then p.rows else []
  {
    RowsOfConcat(parts, [p], r);
    assert [p][1..] == [];
  }

  /** A new part raises what its own request owes by one and leaves the others alone. */
  lemma AddChunkOwed<T>(s: State<T>, chunk: seq<T>, r: nat, q: nat)
    requires r < |s.requests| && PhasesInRange(s.runs)
    ensures Owed(AddChunk(s, chunk, r), q) == Owed(s, q) + if q == r then 1 else 0
  {
    AddChunkLists(s, chunk, r);
    CountConcat(AllOwners(Waiting(s)), [r], q);
    assert [r][1..] == [];
  }

  lemma AddChunkKeepsCore<T>(cfg: Config, s: State<T>, chunk: seq<T>, rest: seq<T>)
    requires |s.requests| > 0 && Core(cfg, s, |s.requests| - 1) && Admitting(s, chunk + rest) && chunk != []
    requires s.requests[|s.requests| - 1].coalesced
    requires s.active.Some? && cfg.maxRows > 0 ==> |s.active.value.rows| + |chunk| <= cfg.maxRows
    requires s.active.None? && cfg.maxRows > 0 ==> |chunk| <= cfg.maxRows
    ensures Core(cfg, AddChunk(s, chunk, |s.requests| - 1), |s.requests| - 1)
  {
    hide LedgerOf, Total, Failures, Count, AllParts, AllOwners, AllTickets, RowsOf, BatchesOk, TicketsOk, Owed;
    var r := |s.requests| - 1;
    var s' := AddChunk(s, chunk, r);
    AddChunkKeepsBatches(cfg, s, chunk, r);
    AddChunkKeepsTickets(s, chunk, r);
    AddChunkLists(s, chunk, r);
    assert PhasesOk(s') by {
      forall i | 0 <= i < |s.runs| ensures PhaseOk(s'.runs[i], s'.requests) {
        assert PhaseOk(s.runs[i], s.requests);
        assert s.runs[i].phase.Resolving? ==> Current(s.runs[i]) in s.runs[i].batch.requests;
      }
    }
    assert Settled(s', r) by {
      forall q: nat | q < r ensures RequestOk(s', q) && RowsOf(AllParts(Batches(s')), q) == s'.requests[q].rows {
        AddChunkOwed(s, chunk, r, q);
        BooksFrame(s, s', q);
        RowsOfLast(AllParts(Batches(s)), Part(r, chunk), q);
      }
    }
  }

  lemma AddChunkPartial<T>(s: State<T>, chunk: seq<T>, rest: seq<T>)
    requires Partial(s, chunk + rest) && chunk != []
    ensures Partial(AddChunk(s, chunk, |s.requests| - 1), rest)
  {
    hide LedgerOf, Total, Failures, Count, AllParts, AllTickets, AllOwners, RowsOf, Owed;
    var r := |s.requests| - 1;
    var s' := AddChunk(s, chunk, r);
    AddChunkLists(s, chunk, r);
    AddChunkOwed(s, chunk, r, r);
    RowsOfLast(AllParts(Batches(s)), Part(r, chunk), r);
    var before := RowsOf(AllParts(Batches(s)), r);
    assert before + chunk + rest == before + (chunk + rest);
  }

  lemma ClosePartial<T>(s: State<T>, rest: seq<T>, reason: Reason)
    requires Partial(s, rest) && s.active.Some? && s.active.value.rows != []
    ensures Partial(CloseActive(s, reason), rest)
  {
    CloseLists(s, reason);
  }

  /** Closing a batch filled by the request being admitted. */
  lemma CloseFullKeeps<T>(cfg: Config, s: State<T>, rest: seq<T>)
    requires |s.requests| > 0 && Core(cfg, s, |s.requests| - 1) && Partial(s, rest)
    requires s.active.Some? && cfg.maxRows > 0 && |s.active.value.rows| == cfg.maxRows
    requires forall b | b in Closed(s) && |s.requests| - 1 in b.requests :: b.reason.Full?
    ensures Core(cfg, CloseActive(s, Full), |s.requests| - 1) && Admitting(CloseActive(s, Full), rest)
  {
    hide Core, Partial, AllParts, AllTickets, AllOwners;
    var b := s.active.value;
    FullIsWellFormed(cfg, s, |s.requests| - 1);
    CloseKeepsCore(cfg, s, |s.requests| - 1, Full);
    ClosePartial(s, rest, Full);
    CloseLists(s, Full);
    assert forall x | x in Batches(CloseActive(s, Full)) :: x == b.(reason := Full) || x in Closed(s);
  }

  lemma FullIsWellFormed<T>(cfg: Config, s: State<T>, n: nat)
    requires Core(cfg, s, n) && s.active.Some? && cfg.maxRows > 0 && |s.active.value.rows| == cfg.maxRows
    ensures WellFormed(cfg, s.active.value.(reason := Full))
  {
    hide LedgerOf, Total, Failures, Count, AllParts, AllTickets, AllOwners, RowsOf, RowsIn, OwnersIn, Distinct, Owed;
    assert s.active.value in Batches(s);
  }

  /** One turn of the append loop. It always makes progress, and leaves room in the batch it leaves open. */
  lemma AppendChunkKeeps<T>(cfg: Config, s: State<T>, rows: seq<T>)
    requires |s.requests| > 0 && Core(cfg, s, |s.requests| - 1) && HasRoom(cfg, s.active)
    requires Admitting(s, rows) && rows != [] && s.requests[|s.requests| - 1].coalesced
    ensures var r := |s.requests| - 1;
            var (s', rest) := AppendChunk(cfg, s, rows, r);
            Core(cfg, s', r) && Admitting(s', rest) && HasRoom(cfg, s'.active) && |rest| < |rows|
  {
    hide Partial, Core, AllParts, AllTickets, AllOwners, RowsOf;
    var r := |s.requests| - 1;
    var s1 := if s.active.None? then OpenBatch(s) else s;
    var n := ChunkSize(cfg, s1.active.value, rows);
    var chunk, rest := rows[..n], rows[n..];
    assert chunk + rest == rows;
    var s2 := AddChunk(s, chunk, r);
    AddChunkKeepsCore(cfg, s, chunk, rest);
    AddChunkPartial(s, chunk, rest);
    if cfg.maxRows > 0 && |s2.active.value.rows| == cfg.maxRows {
      AddChunkLists(s, chunk, r);
      assert forall b | b in Closed(s2) :: b in Batches(s);
      CloseFullKeeps(cfg, s2, rest);
    } else {
      assert rest == [];
    }
  }

  /** What appending rows of the newest request leaves alone. */
  ghost predicate OnlyPartsChange<T>(s: State<T>, s': State<T>) {
    var r := |s.requests| - 1;
    && |s'.requests| == |s.requests| > 0
    && s'.requests == s.requests[r := s.requests[r].(pendingParts := s'.requests[r].pendingParts)]
    && s' == s.(active := s'.active, queue := s'.queue, requests := s'.requests, timers := s'.timers,
                closings := s'.closings, nextTicket := s'.nextTicket)
  }

  lemma AppendChunkFrame<T>(cfg: Config, s: State<T>, rows: seq<T>)
    requires |s.requests| > 0 && rows != [] && HasRoom(cfg, s.active)
    ensures OnlyPartsChange(s, AppendChunk(cfg, s, rows, |s.requests| - 1).0)
  {
  }

  lemma {:induction false} AppendRowsKeeps<T>(cfg: Config, s: State<T>, rows: seq<T>)
    requires |s.requests| > 0 && Core(cfg, s, |s.requests| - 1) && HasRoom(cfg, s.active)
    requires Admitting(s, rows) && s.requests[|s.requests| - 1].coalesced
    ensures var s' := AppendRows(cfg, s, rows, |s.requests| - 1);
            && Core(cfg, s', |s.requests| - 1) && Admitting(s', []) && HasRoom(cfg, s'.active)
            && OnlyPartsChange(s, s')
    decreases |rows|
  {
    hide Core, Admitting, AppendChunk;
    if rows != [] {
      var (s', rest) := AppendChunk(cfg, s, rows, |s.requests| - 1);
      AppendChunkKeeps(cfg, s, rows);
      AppendChunkFrame(cfg, s, rows);
      AppendRowsKeeps(cfg, s', rest);
    }
  }

  // Taking a request in

  lemma {:induction false} NoRows<T>(bs: seq<Batch<T>>, r: nat)
    requires forall b | b in bs :: b.requests == OwnersIn(b.parts) && r !in b.requests
    ensures RowsOf(AllParts(bs), r) == [] && Count(AllOwners(bs), r) == 0
  {
    if bs != [] {
      assert bs[0] in bs;
      NoRowsInParts(bs[0].parts, r);
      RowsOfConcat(bs[0].parts, AllParts(bs[1..]), r);
      CountMember(bs[0].requests, r);
      CountConcat(bs[0].requests, AllOwners(bs[1..]), r);
      NoRows(bs[1..], r);
    }
  }

  lemma {:induction false} NoRowsInParts<T>(parts: seq<Part<T>>, r: nat)
    requires r !in OwnersIn(parts)
    ensures RowsOf(parts, r) == []
  {
    if parts != [] {
      NoRowsInParts(parts[1..], r);
    }
  }

  lemma AdmitKeepsCore<T>(cfg: Config, s: State<T>, rows: seq<T>, coalesce: bool)
    requires Core(cfg, s, |s.requests|)
    ensures Core(cfg, Admit(s, rows, coalesce), |s.requests|)
  {
    hide LedgerOf, Total, Failures, Count, AllParts, AllTickets, AllOwners, RowsOf, RowsIn, OwnersIn, Distinct,
      WellFormed;
    var s', n := Admit(s, rows, coalesce), |s.requests|;
    assert Batches(s') == Batches(s);
    assert BatchesOk(cfg, s') by {
      forall b | b in Batches(s) ensures WellFormed(cfg, b) && OwnersOk(b, s'.requests) {
        assert OwnersOk(b, s.requests);
      }
    }
    assert PhasesOk(s') by {
      forall i | 0 <= i < |s.runs| ensures PhaseOk(s'.runs[i], s'.requests) {
        assert PhaseOk(s.runs[i], s.requests);
      }
    }
    assert Settled(s', n) by {
      forall r: nat | r < n ensures RequestOk(s', r) && RowsOf(AllParts(Batches(s')), r) == s'.requests[r].rows {
        BooksFrame(s, s', r);
      }
    }
  }

  lemma AdmitStarts<T>(cfg: Config, s: State<T>, rows: seq<T>, coalesce: bool)
    requires Core(cfg, s, |s.requests|) && rows != []
    ensures Admitting(Admit(s, rows, coalesce), rows)
    ensures forall b | b in Batches(s) :: |s.requests| !in b.requests
  {
    hide LedgerOf, Total, Failures, Count, AllParts, AllTickets, AllOwners, RowsOf, RowsIn, OwnersIn, Distinct;
    var s', n := Admit(s, rows, coalesce), |s.requests|;
    forall b | b in Batches(s) ensures n !in b.requests && b.requests == OwnersIn(b.parts) {
      assert OwnersOk(b, s.requests) && WellFormed(cfg, b);
    }
    forall i | 0 <= i < |s.runs| ensures n !in s.runs[i].batch.requests {
      assert Batches(s)[i] == s.runs[i].batch;
    }
    assert forall b | b in Waiting(s) :: b in Batches(s);
    NoRows(Waiting(s), n);
    NoRows(Batches(s), n);
    Untouched(s.runs, s.requests, n, CopyFailed(""));
  }

  lemma UnbatchedLists<T>(s: State<T>, rows: seq<T>, r: nat)
    requires r < |s.requests|
    ensures var s' := EnqueueUnbatched(s, rows, r);
            var act := if s.active.Some? then [s.active.value] else [];
            var b := Batch([s.nextTicket], [Part(r, rows)], rows, [r], Unbatched);
            && Batches(s) == Closed(s) + act
            && Batches(s') == Closed(s) + [b] + act
            && AllParts(Batches(s)) == AllParts(Closed(s)) + AllParts(act)
            && AllParts(Batches(s')) == AllParts(Closed(s)) + [Part(r, rows)] + AllParts(act)
            && AllTickets(Batches(s)) == AllTickets(Closed(s)) + AllTickets(act)
            && AllTickets(Batches(s')) == AllTickets(Closed(s)) + [s.nextTicket] + AllTickets(act)
            && AllOwners(Waiting(s)) == AllOwners(s.queue) + AllOwners(act)
            && AllOwners(Waiting(s')) == AllOwners(s.queue) + [r] + AllOwners(act)
  {
    var s' := EnqueueUnbatched(s, rows, r);
    var act := if s.active.Some? then [s.active.value] else [];
    var b := Batch([s.nextTicket], [Part(r, rows)], rows, [r], Unbatched);
    assert Batches(s) == Closed(s) + act && Batches(s') == Closed(s) + [b] + act;
    BatchesConcat(Closed(s), act);
    BatchesConcat(Closed(s) + [b], act);
    LastSums(Closed(s), b);
    assert Waiting(s) == s.queue + act && Waiting(s') == s.queue + [b] + act;
    BatchesConcat(s.queue, act);
    BatchesConcat(s.queue + [b], act);
    LastSums(s.queue, b);
  }

  lemma InsertOrdered<T>(pre: seq<Batch<T>>, b: Batch<T>, post: seq<Batch<T>>, r: nat)
    requires Ordered(pre + post) && b.requests == [r]
    requires forall x | x in pre + post :: r !in x.requests
    ensures Ordered(pre + [b] + post)
  {
    var bs, bs', k := pre + post, pre + [b] + post, |pre|;
    forall i, j, q | 0 <= i < j < |bs'| && i != k && j != k && q in bs'[i].requests && q in bs'[j].requests
      ensures bs'[i].reason.Full?
    {
      assert bs'[i] == bs[if i < k then i else i - 1] && bs'[j] == bs[if j < k then j else j - 1];
    }
    forall i | 0 <= i < |bs'| && i != k ensures r !in bs'[i].requests {
      assert bs'[i] == bs[if i < k then i else i - 1];
    }
  }

  lemma UnbatchedKeepsBatches<T>(cfg: Config, s: State<T>, rows: seq<T>, r: nat)
    requires BatchesOk(cfg, s) && r < |s.requests| && !s.requests[r].coalesced && rows != []
    requires forall b | b in Batches(s) :: r !in b.requests
    ensures BatchesOk(cfg, EnqueueUnbatched(s, rows, r))
  {
    var s' := EnqueueUnbatched(s, rows, r);
    var b := Batch([s.nextTicket], [Part(r, rows)], rows, [r], Unbatched);
    var act := if s.active.Some? then [s.active.value] else [];
    assert Batches(s) == Closed(s) + act && Batches(s') == Closed(s) + [b] + act;
    SinglePart(Part(r, rows));
    assert WellFormed(cfg, b);
    forall x | x in Batches(s') ensures WellFormed(cfg, x) && OwnersOk(x, s'.requests) {
      assert x == b || (x in Batches(s) && OwnersOk(x, s.requests));
    }
    InsertOrdered(Closed(s), b, act, r);
  }

  lemma UnbatchedSums<T>(s: State<T>, rows: seq<T>, r: nat, q: nat)
    requires r < |s.requests| && PhasesInRange(s.runs)
    requires q == r ==> RowsOf(AllParts(Batches(s)), r) == []
    ensures var s' := EnqueueUnbatched(s, rows, r);
            && Owed(s', q) == Owed(s, q) + (if q == r then 1 else 0)
            && RowsOf(AllParts(Batches(s')), q) == if q == r then rows else RowsOf(AllParts(Batches(s)), q)
  {
    hide LedgerOf, Total, Count, AllParts, AllOwners, AllTickets, RowsOf;
    UnbatchedLists(s, rows, r);
    var act := if s.active.Some? then [s.active.value] else [];
    CountConcat(AllOwners(s.queue), [r], q);
    CountConcat(AllOwners(s.queue) + [r], AllOwners(act), q);
    CountConcat(AllOwners(s.queue), AllOwners(act), q);
    CountOne(r, q);
    RowsOfConcat(AllParts(Closed(s)), AllParts(act), q);
    RowsOfConcat(AllParts(Closed(s)) + [Part(r, rows)], AllParts(act), q);
    RowsOfLast(AllParts(Closed(s)), Part(r, rows), q);
  }

  lemma UnbatchedKeepsTickets<T>(s: State<T>, rows: seq<T>, r: nat)
    requires TicketsOk(s) && r < |s.requests|
    ensures TicketsOk(EnqueueUnbatched(s, rows, r))
  {
    var s' := EnqueueUnbatched(s, rows, r);
    var act := if s.active.Some? then [s.active.value] else [];
    UnbatchedLists(s, rows, r);
    forall t: nat ensures Count(AllTickets(Batches(s')), t) == if t < s.nextTicket + 1 then 1 else 0 {
      CountConcat(AllTickets(Closed(s)), [s.nextTicket], t);
      CountConcat(AllTickets(Closed(s)) + [s.nextTicket], AllTickets(act), t);
      CountConcat(AllTickets(Closed(s)), AllTickets(act), t);
      NextTicket(AllTickets(Batches(s)), AllTickets(Batches(s')), s.nextTicket, t);
    }
  }

  lemma UnbatchedKeepsCore<T>(cfg: Config, s: State<T>, rows: seq<T>)
    requires |s.requests| > 0 && Core(cfg, s, |s.requests| - 1) && Admitting(s, rows) && rows != []
    requires !s.requests[|s.requests| - 1].coalesced
    requires forall b | b in Batches(s) :: |s.requests| - 1 !in b.requests
    ensures Core(cfg, EnqueueUnbatched(s, rows, |s.requests| - 1), |s.requests| - 1)
  {
    var r := |s.requests| - 1;
    var s' := EnqueueUnbatched(s, rows, r);
    UnbatchedKeepsBatches(cfg, s, rows, r);
    UnbatchedKeepsTickets(s, rows, r);
    assert PhasesOk(s') by {
      forall i | 0 <= i < |s.runs| ensures PhaseOk(s'.runs[i], s'.requests) {
        assert PhaseOk(s.runs[i], s.requests);
        assert s.runs[i].phase.Resolving? ==> Current(s.runs[i]) in s.runs[i].batch.requests;
      }
    }
    assert Settled(s', r) by {
      forall q: nat | q < r ensures RequestOk(s', q) && RowsOf(AllParts(Batches(s')), q) == s'.requests[q].rows {
        UnbatchedSums(s, rows, r, q);
        BooksFrame(s, s', q);
      }
    }
  }

  lemma UnbatchedAdmits<T>(cfg: Config, s: State<T>, rows: seq<T>)
    requires |s.requests| > 0 && Core(cfg, s, |s.requests| - 1) && Admitting(s, rows)
    requires forall b | b in Batches(s) :: |s.requests| - 1 !in b.requests
    ensures Admitting(EnqueueUnbatched(s, rows, |s.requests| - 1), [])
  {
    hide LedgerOf, Total, Failures, Count, AllParts, AllTickets, AllOwners, RowsOf, RowsIn, OwnersIn, Distinct, Owed;
    var r := |s.requests| - 1;
    forall b | b in Batches(s) ensures b.requests == OwnersIn(b.parts) {
      assert WellFormed(cfg, b);
    }
    NoRows(Batches(s), r);
    UnbatchedSums(s, rows, r, r);
  }

  /** A submission keeps the books, coalesced or not. */
  lemma SubmitKeepsCore<T>(cfg: Config, s: State<T>, rows: seq<T>, coalesce: bool)
    requires Core(cfg, s, |s.requests|) && HasRoom(cfg, s.active) && rows != [] && s.inFlight <= cfg.maxConcurrent
    ensures var s' := ApplySubmit(cfg, s, rows, coalesce);
            && Core(cfg, s', |s'.requests|) && HasRoom(cfg, s'.active) && Busy(cfg, s')
            && |s'.requests| == |s.requests| + 1
            && s'.requests[..|s.requests|] == s.requests
            && s'.requests[|s.requests|].rows == rows && s'.requests[|s.requests|].coalesced == coalesce
            && s'.flushes == s.flushes && s'.pending == s.pending + {|s.requests|}
  {
    hide Core, Admitting, AppendRows, Schedule, Busy;
    var s1, r := Admit(s, rows, coalesce), |s.requests|;
    AdmitKeepsCore(cfg, s, rows, coalesce);
    AdmitStarts(cfg, s, rows, coalesce);
    assert Batches(s1) == Batches(s);
    var s2 := if coalesce then AppendRows(cfg, s1, rows, r) else EnqueueUnbatched(s1, rows, r);
    if coalesce {
      AppendRowsKeeps(cfg, s1, rows);
    } else {
      UnbatchedKeepsCore(cfg, s1, rows);
      UnbatchedAdmits(cfg, s1, rows);
    }
    AdmittedSettles(cfg, s2);
    ScheduleKeepsCore(cfg, s2, |s2.requests|);
  }
}
