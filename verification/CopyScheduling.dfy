/** Sums over batches and workers, and what scheduling does to them. */
module CopyScheduling {
  import opened Basics
  import opened CopyProtocol
  import opened CopyInvariant

  // Concatenation and update

  lemma {:induction false} PartsConcat<T>(a: seq<Part<T>>, b: seq<Part<T>>)
    ensures RowsIn(a + b) == RowsIn(a) + RowsIn(b)
    ensures OwnersIn(a + b) == OwnersIn(a) + OwnersIn(b)
  {
    if a == [] {
      assert a + b == b;
    } else {
      assert (a + b)[1..] == a[1..] + b;
      PartsConcat(a[1..], b);
    }
  }

  lemma {:induction false} RowsOfConcat<T>(a: seq<Part<T>>, b: seq<Part<T>>, r: nat)
    ensures RowsOf(a + b, r) == RowsOf(a, r) + RowsOf(b, r)
  {
    if a == [] {
      assert a + b == b;
    } else {
      assert (a + b)[1..] == a[1..] + b;
      RowsOfConcat(a[1..], b, r);
    }
  }

  lemma ConsSums<T>(b: Batch<T>, rest: seq<Batch<T>>)
    ensures AllParts([b] + rest) == b.parts + AllParts(rest)
    ensures AllTickets([b] + rest) == b.tickets + AllTickets(rest)
    ensures AllOwners([b] + rest) == b.requests + AllOwners(rest)
  {
    assert ([b] + rest)[1..] == rest;
  }

  lemma {:induction false} BatchesConcat<T>(a: seq<Batch<T>>, b: seq<Batch<T>>)
    ensures AllParts(a + b) == AllParts(a) + AllParts(b)
    ensures AllTickets(a + b) == AllTickets(a) + AllTickets(b)
    ensures AllOwners(a + b) == AllOwners(a) + AllOwners(b)
  {
    if a == [] {
      assert a + b == b;
    } else {
      hide AllParts, AllTickets, AllOwners;
      var first, tail := a[0], a[1..];
      assert a == [first] + tail && a + b == [first] + (tail + b);
      ConsSums(first, tail);
      ConsSums(first, tail + b);
      BatchesConcat(tail, b);
    }
  }

  lemma {:induction false} TotalAppend<T>(runs: seq<Run<T>>, run: Run<T>, r: nat)
    requires PhasesInRange(runs) && PhaseInRange(run)
    ensures Total(runs + [run], r) == Plus(Total(runs, r), LedgerOf(run, r))
    ensures Live(runs + [run]) == Live(runs) + if run.phase.Done? then 0 else 1
  {
    hide LedgerOf;
    if runs == [] {
      assert runs + [run] == [run] && [run][1..] == [];
    } else {
      assert (runs + [run])[1..] == runs[1..] + [run];
      TotalAppend(runs[1..], run, r);
    }
  }

  lemma {:induction false} TotalUpdate<T>(runs: seq<Run<T>>, i: nat, run: Run<T>, r: nat)
    requires PhasesInRange(runs) && PhaseInRange(run) && i < |runs|
    ensures Plus(Total(runs[i := run], r), LedgerOf(runs[i], r)) == Plus(Total(runs, r), LedgerOf(run, r))
  {
    hide LedgerOf;
    var runs' := runs[i := run];
    assert Total(runs', r) == Plus(LedgerOf(runs'[0], r), Total(runs'[1..], r));
    assert Total(runs, r) == Plus(LedgerOf(runs[0], r), Total(runs[1..], r));
    if i == 0 {
      assert runs'[1..] == runs[1..];
    } else {
      assert runs'[1..] == runs[1..][i - 1 := run];
      TotalUpdate(runs[1..], i - 1, run, r);
    }
  }

  lemma {:induction false} LiveUpdate<T>(runs: seq<Run<T>>, i: nat, run: Run<T>)
    requires i < |runs|
    ensures Live(runs[i := run]) + (if runs[i].phase.Done? then 0 else 1)
         == Live(runs) + if run.phase.Done? then 0 else 1
  {
    if i == 0 {
      assert runs[i := run][1..] == runs[1..];
    } else {
      assert runs[i := run][1..] == runs[1..][i - 1 := run];
      LiveUpdate(runs[1..], i - 1, run);
    }
  }

  lemma {:induction false} FailuresAppend<T>(runs: seq<Run<T>>, run: Run<T>, r: nat, e: CopyError)
    requires PhasesInRange(runs) && PhaseInRange(run)
    ensures Failures(runs + [run], r, e) == Failures(runs, r, e) + FailureOf(run, r, e)
  {
    hide FailureOf;
    if runs == [] {
      assert runs + [run] == [run] && [run][1..] == [];
    } else {
      assert (runs + [run])[1..] == runs[1..] + [run];
      FailuresAppend(runs[1..], run, r, e);
    }
  }

  lemma {:induction false} FailuresUpdate<T>(runs: seq<Run<T>>, i: nat, run: Run<T>, r: nat, e: CopyError)
    requires PhasesInRange(runs) && PhaseInRange(run) && i < |runs|
    ensures Failures(runs[i := run], r, e) + FailureOf(runs[i], r, e) == Failures(runs, r, e) + FailureOf(run, r, e)
  {
    if i == 0 {
      assert runs[i := run][1..] == runs[1..];
    } else {
      assert runs[i := run][1..] == runs[1..][i - 1 := run];
      FailuresUpdate(runs[1..], i - 1, run, r, e);
    }
  }

  // Merging

  lemma MergeWellFormed<T>(cfg: Config, a: Batch<T>, b: Batch<T>)
    requires WellFormed(cfg, a) && WellFormed(cfg, b)
    requires a.reason.Linger? && (cfg.maxRows > 0 ==> |a.rows| + |b.rows| <= cfg.maxRows)
    requires forall r | r in a.requests :: r !in b.requests
    ensures WellFormed(cfg, Merge(a, b))
  {
    PartsConcat(a.parts, b.parts);
    DistinctConcat(a.requests, b.requests);
  }

  lemma MergeOrdered<T>(pre: seq<Batch<T>>, a: Batch<T>, b: Batch<T>, post: seq<Batch<T>>)
    requires Ordered(pre + [a, b] + post)
    requires a.reason.Linger? && b.reason.Linger?
    ensures Ordered(pre + [Merge(a, b)] + post)
    ensures forall r | r in a.requests :: r !in b.requests
  {
    var bs, merged := pre + [a, b] + post, pre + [Merge(a, b)] + post;
    var k := |pre|;
    assert bs[k] == a && bs[k + 1] == b;
    forall i, j, r | 0 <= i < j < |merged| && r in merged[i].requests && r in merged[j].requests
      ensures merged[i].reason.Full?
    {
      var i' := if i < k then i else if i > k then i + 1 else if r in a.requests then k else k + 1;
      var j' := if j < k then j else if j > k then j + 1 else if r in a.requests then k else k + 1;
      assert r in bs[i'].requests && r in bs[j'].requests;
    }
  }

  lemma MergeSums<T>(a: Batch<T>, b: Batch<T>, rest: seq<Batch<T>>)
    ensures AllParts([Merge(a, b)] + rest) == AllParts([a, b] + rest)
    ensures AllTickets([Merge(a, b)] + rest) == AllTickets([a, b] + rest)
    ensures AllOwners([Merge(a, b)] + rest) == AllOwners([a, b] + rest)
  {
    hide AllParts, AllTickets, AllOwners;
    assert [a, b] + rest == [a] + ([b] + rest);
    ConsSums(a, [b] + rest);
    ConsSums(b, rest);
    ConsSums(Merge(a, b), rest);
  }

  // Steps of the scheduler

  /** The books of one request depend only on these sums. */
  lemma BooksFrame<T>(s: State<T>, s': State<T>, r: nat)
    requires PhasesInRange(s.runs) && PhasesInRange(s'.runs)
    requires r < |s.requests| && r < |s'.requests| && RequestOk(s, r)
    requires s'.requests[r] == s.requests[r] && (r in s'.pending <==> r in s.pending)
    requires Owed(s', r) == Owed(s, r)
    requires Total(s'.runs, r).resolving == Total(s.runs, r).resolving
    requires Total(s'.runs, r).completed == Total(s.runs, r).completed
    requires forall e :: Failures(s'.runs, r, e) == Failures(s.runs, r, e)
    ensures RequestOk(s', r)
  {
  }

  /** Requests stay settled when only the arrangement of the batches changes. */
  lemma SameBooks<T>(s: State<T>, s': State<T>, n: nat)
    requires PhasesInRange(s.runs) && PhasesInRange(s'.runs)
    requires n <= |s.requests| && Settled(s, n)
    requires s'.requests == s.requests && s'.pending == s.pending
    requires AllParts(Batches(s')) == AllParts(Batches(s))
    requires forall r :: Owed(s', r) == Owed(s, r)
    requires forall r :: Total(s'.runs, r).resolving == Total(s.runs, r).resolving
    requires forall r :: Total(s'.runs, r).completed == Total(s.runs, r).completed
    requires forall r, e :: Failures(s'.runs, r, e) == Failures(s.runs, r, e)
    ensures Settled(s', n)
  {
    forall r: nat | r < n
      ensures RequestOk(s', r) && RowsOf(AllParts(Batches(s')), r) == s'.requests[r].rows
    {
      BooksFrame(s, s', r);
    }
  }

  lemma MergeKeepsBatches<T>(cfg: Config, s: State<T>, s': State<T>, post: seq<Batch<T>>)
    requires BatchesOk(cfg, s) && Mergeable(cfg, s.queue)
    requires s' == s.(queue := [Merge(s.queue[0], s.queue[1])] + s.queue[2..])
    requires Batches(s) == Dispatched(s.runs) + [s.queue[0], s.queue[1]] + post
    requires Batches(s') == Dispatched(s.runs) + [Merge(s.queue[0], s.queue[1])] + post
    ensures BatchesOk(cfg, s')
  {
    var a, b := s.queue[0], s.queue[1];
    assert a in Batches(s) && b in Batches(s);
    MergeOrdered(Dispatched(s.runs), a, b, post);
    MergeWellFormed(cfg, a, b);
    assert OwnersOk(a, s.requests) && OwnersOk(b, s.requests);
    assert OwnersOk(Merge(a, b), s.requests);
    forall x | x in Batches(s') ensures WellFormed(cfg, x) && OwnersOk(x, s'.requests) {
      assert x == Merge(a, b) || x in Batches(s);
    }
    forall x | x in Dispatched(s'.runs) + s'.queue ensures !x.reason.Filling? {
      assert x == Merge(a, b) || x in Dispatched(s.runs) + s.queue;
    }
  }

  lemma MergeLists<T>(s: State<T>, s': State<T>, post: seq<Batch<T>>)
    requires |s.queue| >= 2 && s' == s.(queue := [Merge(s.queue[0], s.queue[1])] + s.queue[2..])
    requires post == s.queue[2..] + if s.active.Some? then [s.active.value] else []
    ensures Batches(s) == Dispatched(s.runs) + [s.queue[0], s.queue[1]] + post
    ensures Batches(s') == Dispatched(s.runs) + [Merge(s.queue[0], s.queue[1])] + post
    ensures AllParts(Batches(s')) == AllParts(Batches(s))
    ensures AllTickets(Batches(s')) == AllTickets(Batches(s))
    ensures AllOwners(Waiting(s')) == AllOwners(Waiting(s))
  {
    var a, b, pre := s.queue[0], s.queue[1], Dispatched(s.runs);
    assert Waiting(s) == [a, b] + post && Waiting(s') == [Merge(a, b)] + post;
    assert Batches(s) == pre + [a, b] + post && Batches(s') == pre + [Merge(a, b)] + post;
    MergeSums(a, b, post);
    BatchesConcat(pre, Waiting(s));
    BatchesConcat(pre, Waiting(s'));
  }

  lemma MergeKeepsCore<T>(cfg: Config, s: State<T>, n: nat, s': State<T>)
    requires Core(cfg, s, n) && Mergeable(cfg, s.queue)
    requires s' == s.(queue := [Merge(s.queue[0], s.queue[1])] + s.queue[2..])
    ensures Core(cfg, s', n)
  {
    hide LedgerOf, Total, Failures, Count, RowsOf, AllParts, AllTickets, AllOwners, BatchesOk, Settled;
    var post := s.queue[2..] + if s.active.Some? then [s.active.value] else [];
    MergeLists(s, s', post);
    MergeKeepsBatches(cfg, s, s', post);
    SameBooks(s, s', n);
  }

  lemma {:induction false} MergeHeadKeepsCore<T>(cfg: Config, s: State<T>, n: nat)
    requires Core(cfg, s, n)
    ensures Core(cfg, s.(queue := MergeHead(cfg, s.queue)), n)
    decreases |s.queue|
  {
    if Mergeable(cfg, s.queue) {
      var s' := s.(queue := [Merge(s.queue[0], s.queue[1])] + s.queue[2..]);
      MergeKeepsCore(cfg, s, n, s');
      MergeHeadKeepsCore(cfg, s', n);
    }
  }

  lemma DispatchLists<T>(s: State<T>, s': State<T>)
    requires s.queue != [] && s' == Dispatch(s)
    ensures Batches(s') == Batches(s) && Dispatched(s'.runs) + s'.queue == Dispatched(s.runs) + s.queue
    ensures AllOwners(Waiting(s)) == s.queue[0].requests + AllOwners(Waiting(s'))
  {
    assert Dispatched(s'.runs) == Dispatched(s.runs) + [s.queue[0]];
    assert Waiting(s) == [s.queue[0]] + Waiting(s') && Waiting(s)[1..] == Waiting(s');
  }

  lemma DispatchSums<T>(s: State<T>, s': State<T>, r: nat)
    requires PhasesInRange(s.runs) && s.queue != [] && s' == Dispatch(s)
    ensures PhasesInRange(s'.runs)
    ensures Total(s'.runs, r) == Plus(Total(s.runs, r), Ledger(Count(s.queue[0].requests, r), 0, 0))
    ensures Owed(s', r) == Owed(s, r)
    ensures Live(s'.runs) == Live(s.runs) + 1
    ensures forall e :: Failures(s'.runs, r, e) == Failures(s.runs, r, e)
  {
    hide Total, Failures, Count, AllOwners;
    var run := Run(s.queue[0], None, Copying);
    TotalAppend(s.runs, run, r);
    DispatchLists(s, s');
    CountConcat(s.queue[0].requests, AllOwners(Waiting(s')), r);
    assert s.queue[0].requests[0..] == s.queue[0].requests;
    forall e ensures Failures(s'.runs, r, e) == Failures(s.runs, r, e) {
      FailuresAppend(s.runs, run, r, e);
    }
  }

  lemma DispatchKeepsCore<T>(cfg: Config, s: State<T>, n: nat)
    requires Core(cfg, s, n) && s.queue != []
    ensures Core(cfg, Dispatch(s), n)
  {
    hide LedgerOf, Total, Failures, Count, RowsOf, AllParts, AllTickets, AllOwners;
    hide WellFormed, OwnersOk, Ordered, Settled, Live, Owed;
    var s' := Dispatch(s);
    DispatchLists(s, s');
    assert PhasesOk(s') by {
      assert forall i :: 0 <= i < |s.runs| ==> s'.runs[i] == s.runs[i];
    }
    DispatchSums(s, s', 0);
    forall r: nat
      ensures Owed(s', r) == Owed(s, r) && Total(s'.runs, r).resolving == Total(s.runs, r).resolving
      ensures Total(s'.runs, r).completed == Total(s.runs, r).completed
    {
      DispatchSums(s, s', r);
    }
    forall r: nat, e ensures Failures(s'.runs, r, e) == Failures(s.runs, r, e) {
      DispatchSums(s, s', r);
    }
    SameBooks(s, s', n);
  }

  /** Scheduling keeps the books and leaves no batch waiting beside an idle worker. */
  lemma {:induction false} ScheduleKeepsCore<T>(cfg: Config, s: State<T>, n: nat)
    requires Core(cfg, s, n) && s.inFlight <= cfg.maxConcurrent
    ensures Core(cfg, Schedule(cfg, s), n) && Busy(cfg, Schedule(cfg, s))
    ensures Schedule(cfg, s).requests == s.requests && Schedule(cfg, s).pending == s.pending
    ensures Schedule(cfg, s).flushes == s.flushes && Schedule(cfg, s).active == s.active
    decreases |s.queue|
  {
    if s.inFlight < cfg.maxConcurrent && s.queue != [] {
      MergeHeadKeepsCore(cfg, s, n);
      var s1 := s.(queue := MergeHead(cfg, s.queue));
      DispatchKeepsCore(cfg, s1, n);
      ScheduleKeepsCore(cfg, Dispatch(s1), n);
    }
  }
}
