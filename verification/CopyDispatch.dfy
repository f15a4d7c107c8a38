/** Which queued batches go out, and which of them as one COPY. */
module CopyDispatch {
  import opened Basics
  import opened CopyProtocol
  import opened CopyInvariant
  import opened CopyScheduling

  function AllRows<T>(bs: seq<Batch<T>>): seq<T> {
    if bs == [] then [] else bs[0].rows + AllRows(bs[1..])
  }

  /** `batch` is the first `k` batches of the queue as one COPY, in order, and `k` is as large as it may be: a batch not
      closed by its timer goes out alone, and timed-out ones are joined up to the row limit, if there is one. */
  ghost predicate Taken<T>(cfg: Config, queue: seq<Batch<T>>, k: nat, batch: Batch<T>)
    ensures Taken(cfg, queue, k, batch) ==> 0 < k <= |queue|
  {
    && 0 < k <= |queue|
    && batch.rows == AllRows(queue[..k]) && batch.requests == AllOwners(queue[..k])
    && batch.parts == AllParts(queue[..k]) && batch.tickets == AllTickets(queue[..k])
    && batch.reason == queue[0].reason
    && (k > 1 ==> forall i :: 0 <= i < k ==> queue[i].reason.Linger?)
    && (k > 1 && cfg.maxRows > 0 ==> |batch.rows| <= cfg.maxRows)
    && (|| !queue[0].reason.Linger?
        || k == |queue|
        || !queue[k].reason.Linger?
        || (cfg.maxRows > 0 && |batch.rows| + |queue[k].rows| > cfg.maxRows))
  }

  lemma MergedPrefix<T>(a: Batch<T>, b: Batch<T>, rest: seq<Batch<T>>)
    ensures AllRows([Merge(a, b)] + rest) == AllRows([a, b] + rest)
    ensures AllRows([Merge(a, b)]) == a.rows + b.rows
  {
    assert [Merge(a, b)][1..] == [];
    assert ([a, b] + rest)[1..] == [b] + rest && ([b] + rest)[1..] == rest == ([Merge(a, b)] + rest)[1..];
    assert a.rows + (b.rows + AllRows(rest)) == (a.rows + b.rows) + AllRows(rest);
  }

  lemma TakenMerged<T>(cfg: Config, queue: seq<Batch<T>>, k: nat, batch: Batch<T>)
    requires Mergeable(cfg, queue) && Taken(cfg, [Merge(queue[0], queue[1])] + queue[2..], k, batch)
    ensures Taken(cfg, queue, k + 1, batch)
  {
    hide AllRows, AllParts, AllTickets, AllOwners;
    var a, b, rest := queue[0], queue[1], queue[2..k + 1];
    var queue' := [Merge(a, b)] + queue[2..];
    assert queue[..k + 1] == [a, b] + rest && queue'[..k] == [Merge(a, b)] + rest;
    MergeSums(a, b, rest);
    MergedPrefix(a, b, rest);
    forall i | 0 <= i < k + 1 ensures queue[i].reason.Linger? {
      assert i >= 2 ==> queue[i] == queue'[i - 1];
    }
    assert k + 1 < |queue| ==> queue[k + 1] == queue'[k];
    assert k == 1 ==> queue'[..k] == [Merge(a, b)];
  }

  lemma TakenAlone<T>(cfg: Config, queue: seq<Batch<T>>)
    requires queue != [] && !Mergeable(cfg, queue)
    ensures Taken(cfg, queue, 1, queue[0])
  {
    var b := queue[0];
    assert queue[..1] == [b] && [b][1..] == [];
    assert AllRows([b]) == b.rows + AllRows<T>([]);
  }

  /** The dequeue loop takes the longest run it may take. */
  lemma {:induction false} MergeHeadTakes<T>(cfg: Config, queue: seq<Batch<T>>) returns (k: nat)
    requires queue != []
    ensures Taken(cfg, queue, k, MergeHead(cfg, queue)[0]) && MergeHead(cfg, queue)[1..] == queue[k..]
    decreases |queue|
  {
    if Mergeable(cfg, queue) {
      hide Taken;
      var queue' := [Merge(queue[0], queue[1])] + queue[2..];
      var k' := MergeHeadTakes(cfg, queue');
      TakenMerged(cfg, queue, k', MergeHead(cfg, queue)[0]);
      k := k' + 1;
      assert queue'[k'..] == queue[k..];
    } else {
      TakenAlone(cfg, queue);
      k := 1;
    }
  }

  /** The runs started from consecutive stretches of the queue, each as long as it may be, and left `rest`. */
  ghost predicate Started<T>(cfg: Config, queue: seq<Batch<T>>, runs: seq<Run<T>>, rest: seq<Batch<T>>) {
    if runs == [] then rest == queue
    else
      && runs[0] == Run(runs[0].batch, None, Copying)
      && exists k: nat :: Taken(cfg, queue, k, runs[0].batch) && Started(cfg, queue[k..], runs[1..], rest)
  }

  /** Scheduling starts workers from the head of the queue until it is empty or every worker is busy. */
  lemma {:induction false} ScheduleIsGreedy<T>(cfg: Config, s: State<T>)
    ensures var s' := Schedule(cfg, s);
            && s.runs <= s'.runs && Started(cfg, s.queue, s'.runs[|s.runs|..], s'.queue)
            && s'.inFlight == s.inFlight + |s'.runs| - |s.runs|
            && (s'.queue == [] || cfg.maxConcurrent <= s'.inFlight)
            && (s'.runs != s.runs ==> s'.inFlight <= cfg.maxConcurrent)
    decreases |s.queue|
  {
    if s.inFlight < cfg.maxConcurrent && s.queue != [] {
      hide MergeHead, Taken;
      var k := MergeHeadTakes(cfg, s.queue);
      var s1, s' := Dispatch(s.(queue := MergeHead(cfg, s.queue))), Schedule(cfg, s);
      ScheduleIsGreedy(cfg, s1);
      var runs := s'.runs[|s.runs|..];
      assert runs[1..] == s'.runs[|s1.runs|..] && runs[0] == s1.runs[|s.runs|];
      assert Taken(cfg, s.queue, k, runs[0].batch) && Started(cfg, s.queue[k..], runs[1..], s'.queue);
    }
  }
}
