/** Without new calls and flushes the store comes to rest: every admitted call is resolved, every flush has returned. */
module StoreDrain {
  import opened Basics
  import opened CopyProtocol
  import opened CopyInvariant
  import opened CopyDrain
  import opened StoreProtocol
  import opened StoreTheorems

  // How much work a submission and a flush bring

  lemma AppendChunkWork<T>(cfg: Config, s: State<T>, rows: seq<T>, r: nat)
    requires r < |s.requests| && rows != [] && HasRoom(cfg, s.active)
    ensures var (s', rest) := AppendChunk(cfg, s, rows, r);
            Work(s') <= Work(s) + 6 && |rest| < |rows| && HasRoom(cfg, s'.active)
  {
    hide RunsWork, FlushesWork, WaitingWork;
    var s1 := if s.active.None? then OpenBatch(s) else s;
    var b := AddToBatch(s1.active.value, r, rows[..ChunkSize(cfg, s1.active.value, rows)]);
    var s2 := s1.(active := Some(b), requests := s1.requests[r := AddPart(s1.requests[r])]);
    CloseWork(s2, Full);
    WaitingWorkConcat(s.queue, [b]);
    OneWaiting(b);
    if s.active.Some? {
      WaitingWorkConcat(s.queue, [s.active.value]);
      OneWaiting(s.active.value);
    } else {
      assert Waiting(s) == s.queue;
    }
  }

  lemma {:induction false} AppendRowsWork<T>(cfg: Config, s: State<T>, rows: seq<T>, r: nat)
    requires r < |s.requests| && HasRoom(cfg, s.active)
    ensures Work(AppendRows(cfg, s, rows, r)) <= Work(s) + 6 * |rows|
    decreases |rows|
  {
    hide Work, AppendChunk;
    if rows != [] {
      var (s', rest) := AppendChunk(cfg, s, rows, r);
      AppendChunkWork(cfg, s, rows, r);
      AppendChunkRequests(cfg, s, rows, r);
      AppendRowsWork(cfg, s', rest, r);
    }
  }

  lemma AppendChunkRequests<T>(cfg: Config, s: State<T>, rows: seq<T>, r: nat)
    requires r < |s.requests| && rows != [] && HasRoom(cfg, s.active)
    ensures |AppendChunk(cfg, s, rows, r).0.requests| == |s.requests|
  {
  }

  lemma EnqueueWork<T>(s: State<T>, rows: seq<T>, r: nat)
    requires r < |s.requests|
    ensures Work(EnqueueUnbatched(s, rows, r)) == Work(s) + 5
  {
    hide RunsWork, FlushesWork, WaitingWork;
    var s' := EnqueueUnbatched(s, rows, r);
    var b := Batch([s.nextTicket], [Part(r, rows)], rows, [r], Unbatched);
    var tail := if s.active.Some? then [s.active.value] else [];
    WaitingWorkConcat(s.queue, tail);
    WaitingWorkConcat(s.queue + [b], tail);
    WaitingWorkConcat(s.queue, [b]);
    OneWaiting(b);
  }

  lemma SubmitWork<T>(cfg: Config, s: State<T>, rows: seq<T>, coalesce: bool)
    requires rows != [] && HasRoom(cfg, s.active)
    ensures Work(ApplySubmit(cfg, s, rows, coalesce)) <= Work(s) + 6 * |rows|
  {
    hide RunsWork, FlushesWork, WaitingWork, AppendRows, Schedule;
    var s1, r := Admit(s, rows, coalesce), |s.requests|;
    assert Work(s1) == Work(s);
    if coalesce {
      AppendRowsWork(cfg, s1, rows, r);
      ScheduleWork(cfg, AppendRows(cfg, s1, rows, r));
    } else {
      EnqueueWork(s1, rows, r);
      ScheduleWork(cfg, EnqueueUnbatched(s1, rows, r));
    }
  }

  lemma {:induction false} FlushesWorkAppend(fs: seq<Flush>, f: Flush)
    ensures FlushesWork(fs + [f]) == FlushesWork(fs) + FlushWork(f)
  {
    if fs == [] {
      assert fs + [f] == [f] && [f][1..] == [];
    } else {
      assert (fs + [f])[1..] == fs[1..] + [f];
      FlushesWorkAppend(fs[1..], f);
    }
  }

  lemma FlushStartWork<T>(cfg: Config, s: State<T>, order: seq<nat>)
    requires Enabled(cfg, s, FlushStarts(order))
    ensures Work(Apply(cfg, s, FlushStarts(order))) <= Work(s) + |s.pending| + 1
  {
    hide RunsWork, FlushesWork, WaitingWork, Schedule, CloseActive;
    var s1 := Schedule(cfg, CloseActive(s, Manual));
    CloseWork(s, Manual);
    ScheduleWork(cfg, CloseActive(s, Manual));
    FlushesWorkAppend(s1.flushes, Flush(|s.requests|, order, 0, [], None));
  }

  lemma {:induction false} ScheduleKeepsPending<T>(cfg: Config, s: State<T>)
    ensures Schedule(cfg, s).pending == s.pending
    decreases |s.queue|
  {
    if s.inFlight < cfg.maxConcurrent && s.queue != [] {
      ScheduleKeepsPending(cfg, Dispatch(s.(queue := MergeHead(cfg, s.queue))));
    }
  }

  lemma DrainingShrinksPending<T>(cfg: Config, s: State<T>, e: Event<T>)
    requires Enabled(cfg, s, e) && Drains(e)
    ensures Apply(cfg, s, e).pending <= s.pending
  {
    hide Schedule;
    match e
    case TimerFires(t) =>
      ScheduleKeepsPending(cfg, CloseActive(s.(timers := s.timers - {t}), Linger));
    case Complete(i) =>
      var run := s.runs[i];
      ScheduleKeepsPending(cfg, s.(pending := s.pending - (set r | r in run.phase.completed),
                                   inFlight := s.inFlight - 1,
                                   runs := s.runs[i := run.(phase := Done(run.phase.err))]));
    case _ =>
  }

  // A measure for the store

  function ShardsWork<T>(shards: seq<State<T>>): int {
    if shards == [] then 0 else ShardsWork(shards[..|shards| - 1]) + Work(shards[|shards| - 1])
  }

  /** What flushing the shards from the k-th on may bring. */
  function PendingWork<T>(shards: seq<State<T>>, k: nat): nat
    decreases |shards| - k
  {
    if k >= |shards| then 0 else |shards[k].pending| + 2 + PendingWork(shards, k + 1)
  }

  /** What submitting the groups from the i-th on may bring. */
  function GroupsWork<T>(groups: seq<Group<T>>, i: nat): nat
    decreases |groups| - i
  {
    if i >= |groups| then 0 else 6 * |groups[i].rows| + 1 + GroupsWork(groups, i + 1)
  }

  function HolderWork<T>(s: Store<T>): int {
    match s.holder
    case Nobody => 0
    case Admitting(groups, ids) => GroupsWork(groups, |ids|) + |groups| + 2
    case Flushing(flushes) => PendingWork(s.shards, |flushes|) + |s.shards| + 2
  }

  function CallWork<T>(call: Call<T>): int {
    if call.result.Some? then 0 else |call.groups| - call.awaited + 1
  }

  function CallsWork<T>(calls: seq<Call<T>>): int {
    if calls == [] then 0 else CallsWork(calls[..|calls| - 1]) + CallWork(calls[|calls| - 1])
  }

  function StoreFlushWork(f: StoreFlush, n: nat): int {
    if f.result.Some? then 0 else n - f.awaited + 1
  }

  function StoreFlushesWork(fs: seq<StoreFlush>, n: nat): int {
    if fs == [] then 0 else StoreFlushesWork(fs[..|fs| - 1], n) + StoreFlushWork(fs[|fs| - 1], n)
  }

  function StoreWork<T>(s: Store<T>): int {
    ShardsWork(s.shards) + HolderWork(s) + CallsWork(s.calls) + StoreFlushesWork(s.flushes, |s.shards|)
  }

  lemma {:induction false} ShardsWorkUpdate<T>(shards: seq<State<T>>, k: nat, shard: State<T>)
    requires k < |shards|
    ensures ShardsWork(shards[k := shard]) == ShardsWork(shards) - Work(shards[k]) + Work(shard)
  {
    hide Work;
    var n := |shards| - 1;
    if k < n {
      assert shards[k := shard][..n] == shards[..n][k := shard];
      ShardsWorkUpdate(shards[..n], k, shard);
    } else {
      assert shards[k := shard][..n] == shards[..n];
    }
  }

  lemma {:induction false} CallsWorkUpdate<T>(calls: seq<Call<T>>, c: nat, call: Call<T>)
    requires c < |calls|
    ensures CallsWork(calls[c := call]) == CallsWork(calls) - CallWork(calls[c]) + CallWork(call)
  {
    hide CallWork;
    var n := |calls| - 1;
    if c < n {
      assert calls[c := call][..n] == calls[..n][c := call];
      CallsWorkUpdate(calls[..n], c, call);
    } else {
      assert calls[c := call][..n] == calls[..n];
    }
  }

  lemma {:induction false} StoreFlushesWorkUpdate(fs: seq<StoreFlush>, i: nat, f: StoreFlush, n: nat)
    requires i < |fs|
    ensures StoreFlushesWork(fs[i := f], n) == StoreFlushesWork(fs, n) - StoreFlushWork(fs[i], n) + StoreFlushWork(f, n)
  {
    hide StoreFlushWork;
    var m := |fs| - 1;
    if i < m {
      assert fs[i := f][..m] == fs[..m][i := f];
      StoreFlushesWorkUpdate(fs[..m], i, f, n);
    } else {
      assert fs[i := f][..m] == fs[..m];
    }
  }

  lemma {:induction false} PendingWorkUpdate<T>(shards: seq<State<T>>, j: nat, shard: State<T>, k: nat)
    requires j < |shards| && (j < k || |shard.pending| <= |shards[j].pending|)
    ensures PendingWork(shards[j := shard], k) <= PendingWork(shards, k)
    decreases |shards| - k
  {
    if k < |shards| {
      PendingWorkUpdate(shards, j, shard, k + 1);
    }
  }

  lemma {:induction false} PendingSubset(a: set<nat>, b: set<nat>)
    requires a <= b
    ensures |a| <= |b|
  {
    assert b == a + (b - a);
  }

  /** The events that need neither a call nor a flush to arrive. */
  predicate StoreDrains<T>(e: StoreEvent<T>) {
    !e.CallArrives? && !e.FlushArrives?
  }

  lemma ShardWorksDecreases<T>(cfg: StoreConfig, s: Store<T>, k: nat, e: Event<T>)
    requires StoreInv(cfg, s) && StoreEnabled(cfg, s, ShardWorks(k, e))
    ensures StoreWork(StoreApply(cfg, s, ShardWorks(k, e))) < StoreWork(s)
  {
    hide Inv, Enabled, Apply, Work, ShardsWork, CallsWork, StoreFlushesWork, GroupsWork, PendingWork;
    var shard := Apply(cfg.batch, s.shards[k], e);
    DrainingDecreases(cfg.batch, s.shards[k], e);
    DrainingShrinksPending(cfg.batch, s.shards[k], e);
    PendingSubset(shard.pending, s.shards[k].pending);
    ShardsWorkUpdate(s.shards, k, shard);
    if s.holder.Flushing? {
      PendingWorkUpdate(s.shards, k, shard, |s.holder.flushes|);
    }
  }

  lemma GroupSubmittedDecreases<T>(cfg: StoreConfig, s: Store<T>)
    requires StoreInv(cfg, s) && StoreEnabled(cfg, s, GroupSubmitted)
    ensures StoreWork(StoreApply(cfg, s, GroupSubmitted)) < StoreWork(s)
  {
    hide Inv, ApplySubmit, Work, ShardsWork, CallsWork, StoreFlushesWork;
    var Admitting(groups, ids) := s.holder;
    var g := groups[|ids|];
    SubmitWork(cfg.batch, s.shards[g.shard], g.rows, cfg.coalesce);
    ShardsWorkUpdate(s.shards, g.shard, ApplySubmit(cfg.batch, s.shards[g.shard], g.rows, cfg.coalesce));
  }

  lemma ShardFlushedDecreases<T>(cfg: StoreConfig, s: Store<T>, order: seq<nat>)
    requires StoreInv(cfg, s) && StoreEnabled(cfg, s, ShardFlushed(order))
    ensures StoreWork(StoreApply(cfg, s, ShardFlushed(order))) < StoreWork(s)
  {
    hide Inv, Enabled, Apply, Work, ShardsWork, CallsWork, StoreFlushesWork;
    var k := |s.holder.flushes|;
    var shard := Apply(cfg.batch, s.shards[k], FlushStarts(order));
    FlushStartWork(cfg.batch, s.shards[k], order);
    ShardsWorkUpdate(s.shards, k, shard);
    PendingWorkUpdate(s.shards, k, shard, k + 1);
  }

  lemma CallsWorkAppend<T>(calls: seq<Call<T>>, call: Call<T>)
    ensures CallsWork(calls + [call]) == CallsWork(calls) + CallWork(call)
  {
    assert (calls + [call])[..|calls|] == calls;
  }

  lemma StoreFlushesWorkAppend(fs: seq<StoreFlush>, f: StoreFlush, n: nat)
    ensures StoreFlushesWork(fs + [f], n) == StoreFlushesWork(fs, n) + StoreFlushWork(f, n)
  {
    assert (fs + [f])[..|fs|] == fs;
  }

  lemma CallAdmittedDecreases<T>(cfg: StoreConfig, s: Store<T>)
    requires StoreEnabled(cfg, s, CallAdmitted)
    ensures StoreWork(StoreApply(cfg, s, CallAdmitted)) < StoreWork(s)
  {
    hide ShardsWork, CallsWork, StoreFlushesWork, GroupsWork, Apply, Enabled;
    CallsWorkAppend(s.calls, Call(s.holder.groups, s.holder.ids, 0, 0, [], None));
  }

  lemma FlushStartedDecreases<T>(cfg: StoreConfig, s: Store<T>)
    requires StoreEnabled(cfg, s, FlushStarted)
    ensures StoreWork(StoreApply(cfg, s, FlushStarted)) < StoreWork(s)
  {
    hide ShardsWork, CallsWork, StoreFlushesWork, PendingWork, Apply, Enabled;
    StoreFlushesWorkAppend(s.flushes, StoreFlush(|s.calls|, s.holder.flushes, 0, [], false, None), |s.shards|);
  }

  lemma WaitingDecreases<T>(cfg: StoreConfig, s: Store<T>, e: StoreEvent<T>)
    requires StoreEnabled(cfg, s, e)
    requires e.CallAwaits? || e.CallReturns? || e.StoreFlushAwaits? || e.StoreFlushReturns?
    requires StoreInv(cfg, s)
    ensures StoreWork(StoreApply(cfg, s, e)) < StoreWork(s)
  {
    hide Inv, ShardsWork, CallsWork, StoreFlushesWork, GroupsWork, PendingWork, Apply, Enabled, HolderOk, CallsOk;
    var s' := StoreApply(cfg, s, e);
    if e.CallAwaits? || e.CallReturns? {
      CallsWorkUpdate(s.calls, e.call, s'.calls[e.call]);
    } else {
      StoreFlushesWorkUpdate(s.flushes, e.flush, s'.flushes[e.flush], |s.shards|);
    }
  }

  /** Every event that needs no arrival leaves less work. */
  lemma StoreDrainingDecreases<T>(cfg: StoreConfig, s: Store<T>, e: StoreEvent<T>)
    requires StoreInv(cfg, s) && StoreEnabled(cfg, s, e) && StoreDrains(e)
    ensures StoreWork(StoreApply(cfg, s, e)) < StoreWork(s)
  {
    hide StoreInv, StoreEnabled, StoreApply, StoreWork;
    match e
    case ShardWorks(k, event) => ShardWorksDecreases(cfg, s, k, event);
    case GroupSubmitted => GroupSubmittedDecreases(cfg, s);
    case ShardFlushed(order) => ShardFlushedDecreases(cfg, s, order);
    case CallAdmitted => CallAdmittedDecreases(cfg, s);
    case FlushStarted => FlushStartedDecreases(cfg, s);
    case _ => WaitingDecreases(cfg, s, e);
  }

  lemma {:induction false} ShardsWorkNonNegative<T>(cfg: Config, shards: seq<State<T>>)
    requires forall k :: 0 <= k < |shards| ==> Inv(cfg, shards[k])
    ensures ShardsWork(shards) >= 0
  {
    hide Inv, Work;
    if shards != [] {
      ShardsWorkNonNegative(cfg, shards[..|shards| - 1]);
      WorkNonNegative(cfg, shards[|shards| - 1]);
    }
  }

  lemma {:induction false} CallsWorkNonNegative<T>(calls: seq<Call<T>>)
    requires forall c :: 0 <= c < |calls| ==> calls[c].awaited <= |calls[c].groups|
    ensures CallsWork(calls) >= 0
  {
    if calls != [] {
      CallsWorkNonNegative(calls[..|calls| - 1]);
    }
  }

  lemma {:induction false} StoreFlushesWorkNonNegative(fs: seq<StoreFlush>, n: nat)
    requires forall f :: 0 <= f < |fs| ==> fs[f].awaited <= n
    ensures StoreFlushesWork(fs, n) >= 0
  {
    if fs != [] {
      StoreFlushesWorkNonNegative(fs[..|fs| - 1], n);
    }
  }

  lemma StoreWorkNonNegative<T>(cfg: StoreConfig, s: Store<T>)
    requires StoreInv(cfg, s)
    ensures StoreWork(s) >= 0
  {
    hide Inv, ShardsWork, CallsWork, StoreFlushesWork, GroupsWork, PendingWork;
    ShardsWorkNonNegative(cfg.batch, s.shards);
    forall c | 0 <= c < |s.calls| ensures s.calls[c].awaited <= |s.calls[c].groups| {
      assert CallOk(s, s.calls[c]);
    }
    CallsWorkNonNegative(s.calls);
    forall f | 0 <= f < |s.flushes| ensures s.flushes[f].awaited <= |s.shards| {
      assert StoreFlushOk(s, s.flushes[f]);
    }
    StoreFlushesWorkNonNegative(s.flushes, |s.shards|);
  }

  // Something can always happen until everything is done

  /** At rest: the lock is free, every batcher is at rest, every call is resolved and every flush has returned. */
  ghost predicate StoreAtRest<T>(s: Store<T>) {
    && s.holder.Nobody?
    && (forall k :: 0 <= k < |s.shards| ==> AtRest(s.shards[k]))
    && (forall c :: 0 <= c < |s.calls| ==> s.calls[c].result.Some?)
    && (forall f :: 0 <= f < |s.flushes| ==> s.flushes[f].result.Some?)
  }

  /** A draining event that is sure to happen: no stopped timer and no canceled wait. */
  predicate StoreEffective<T>(s: Store<T>, e: StoreEvent<T>) {
    && StoreDrains(e)
    && (e.ShardWorks? ==> e.shard < |s.shards| && Effective(s.shards[e.shard], e.event))
    && (e.StoreFlushAwaits? ==> !e.canceled)
  }

  lemma {:induction false} Listing(pending: set<nat>) returns (order: seq<nat>)
    ensures |order| == |pending| && forall r :: r in order <==> r in pending
    decreases |pending|
  {
    if pending == {} {
      order := [];
    } else {
      var r :| r in pending;
      var rest := Listing(pending - {r});
      order := rest + [r];
    }
  }

  /** Whoever holds the lock can go on. */
  lemma HolderMoves<T>(cfg: StoreConfig, s: Store<T>) returns (e: StoreEvent<T>)
    requires StoreInv(cfg, s) && !s.holder.Nobody?
    ensures StoreEnabled(cfg, s, e) && StoreEffective(s, e)
  {
    hide Core, CallsOk, StoreFlushesOk;
    if s.holder.Admitting? {
      e := if |s.holder.ids| < |s.holder.groups| then GroupSubmitted else CallAdmitted;
      if |s.holder.ids| < |s.holder.groups| {
        var k := s.holder.groups[|s.holder.ids|].shard;
        assert Inv(cfg.batch, s.shards[k]);
      }
    } else if |s.holder.flushes| < |s.shards| {
      var pending := s.shards[|s.holder.flushes|].pending;
      var order := Listing(pending);
      assert (set r | r in order) == pending;
      e := ShardFlushed(order);
    } else {
      e := FlushStarted;
    }
  }

  lemma CallMoves<T>(cfg: StoreConfig, s: Store<T>, c: nat) returns (e: StoreEvent<T>)
    requires StoreInv(cfg, s) && c < |s.calls| && s.calls[c].result.None?
    requires forall k :: 0 <= k < |s.shards| ==> AtRest(s.shards[k])
    ensures StoreEnabled(cfg, s, e) && StoreEffective(s, e)
  {
    hide Inv, StoreFlushesOk, HolderOk;
    var call := s.calls[c];
    assert CallOk(s, call);
    if call.awaited < |call.groups| {
      assert PartOk(s, call.groups[call.awaited], call.ids[call.awaited]);
      e := CallAwaits(c);
    } else {
      e := CallReturns(c);
    }
  }

  lemma StoreFlushMoves<T>(cfg: StoreConfig, s: Store<T>, f: nat) returns (e: StoreEvent<T>)
    requires StoreInv(cfg, s) && f < |s.flushes| && s.flushes[f].result.None?
    requires forall k :: 0 <= k < |s.shards| ==> AtRest(s.shards[k])
    ensures StoreEnabled(cfg, s, e) && StoreEffective(s, e)
  {
    hide Inv, CallsOk, HolderOk, Before, Behind;
    var flush := s.flushes[f];
    assert StoreFlushOk(s, flush);
    if flush.awaited < |s.shards| {
      var k := flush.awaited;
      assert AtRest(s.shards[k]) && s.shards[k].flushes[flush.flushes[k]] in s.shards[k].flushes;
      e := StoreFlushAwaits(f, false);
    } else {
      e := StoreFlushReturns(f);
    }
  }

  /** Until it is at rest, the store can take a step that needs no arrival, no stopped timer and no cancellation. */
  lemma StoreNeverStuck<T>(cfg: StoreConfig, s: Store<T>) returns (e: StoreEvent<T>)
    requires StoreInv(cfg, s) && cfg.batch.maxConcurrent > 0 && !StoreAtRest(s)
    ensures StoreEnabled(cfg, s, e) && StoreEffective(s, e)
  {
    hide Inv, AtRest, CallsOk, StoreFlushesOk, HolderOk, Enabled, Effective;
    if !s.holder.Nobody? {
      e := HolderMoves(cfg, s);
    } else if k :| 0 <= k < |s.shards| && !AtRest(s.shards[k]) {
      var event := NeverStuck(cfg.batch, s.shards[k]);
      EffectiveDrains(s.shards[k], event);
      e := ShardWorks(k, event);
    } else if c :| 0 <= c < |s.calls| && s.calls[c].result.None? {
      e := CallMoves(cfg, s, c);
    } else {
      var f :| 0 <= f < |s.flushes| && s.flushes[f].result.None?;
      e := StoreFlushMoves(cfg, s, f);
    }
  }

  lemma EffectiveDrains<T>(s: State<T>, e: Event<T>)
    requires Effective(s, e)
    ensures Drains(e)
  {
  }

  /** Left alone, every run of the store is finite, and one that cannot go on has resolved every admitted call and
      returned every flush. */
  lemma {:induction false} EveryStoreRunDrains<T>(cfg: StoreConfig, s: Store<T>, events: seq<StoreEvent<T>>)
    requires StoreInv(cfg, s) && cfg.batch.maxConcurrent > 0
    requires StorePossible(cfg, s, events) && forall i :: 0 <= i < |events| ==> StoreDrains(events[i])
    ensures |events| <= StoreWork(s)
    ensures var s' := StoreAfter(cfg, s, events);
            (forall e :: StoreEffective(s', e) ==> !StoreEnabled(cfg, s', e)) ==> StoreAtRest(s')
    decreases |events|
  {
    hide StoreInv, StoreEnabled, StoreApply, StoreAtRest, StoreWork, StoreEffective;
    if events == [] {
      StoreWorkNonNegative(cfg, s);
      if !StoreAtRest(s) {
        var e := StoreNeverStuck(cfg, s);
      }
    } else {
      StoreEventKeepsInv(cfg, s, events[0]);
      StoreDrainingDecreases(cfg, s, events[0]);
      EveryStoreRunDrains(cfg, StoreApply(cfg, s, events[0]), events[1..]);
    }
  }
}
