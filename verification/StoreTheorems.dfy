/** What callers of the store can rely on across shards. */
module StoreTheorems {
  import opened Basics
  import opened CopyProtocol
  import opened CopyInvariant
  import opened CopyAdmission
  import opened CopySteps
  import opened CopyTheorems
  import opened StoreProtocol

  // How one shard evolves

  ghost predicate ShardExtends<T>(a: State<T>, b: State<T>) {
    Extends(a.requests, b.requests) && forall f: nat :: f < |a.flushes| ==> SameFlush(a, b, f)
  }

  lemma EventExtends<T>(cfg: Config, s: State<T>, e: Event<T>)
    requires Inv(cfg, s) && Enabled(cfg, s, e)
    ensures Inv(cfg, Apply(cfg, s, e)) && ShardExtends(s, Apply(cfg, s, e))
  {
    hide Inv, Enabled, Apply, Extends, SameFlush;
    EventKeepsInv(cfg, s, e);
    forall f: nat | f < |s.flushes| ensures SameFlush(s, Apply(cfg, s, e), f) {
      FlushKept(cfg, s, e, f);
    }
  }

  // The invariant

  /** Group `g` of a call became request `id` of its shard. */
  ghost predicate PartOk<T>(s: Store<T>, g: Group<T>, id: nat) {
    && g.shard < |s.shards|
    && id < |s.shards[g.shard].requests|
    && s.shards[g.shard].requests[id].rows == g.rows
  }

  function RowTotal<T>(groups: seq<Group<T>>): nat {
    if groups == [] then 0 else RowTotal(groups[..|groups| - 1]) + |groups[|groups| - 1].rows|
  }

  ghost function PartOutcome<T>(s: Store<T>, call: Call<T>, i: nat): Outcome
    requires i < |call.groups| == |call.ids| && PartResolved(s, call, i)
  {
    s.shards[call.groups[i].shard].requests[call.ids[i]].result.value
  }

  /** The failures of the first `n` parts of a call, each with its shard, in the order of the groups. */
  ghost function PartErrors<T>(s: Store<T>, call: Call<T>, n: nat): seq<ShardError>
    requires n <= |call.groups| == |call.ids| && forall i :: 0 <= i < n ==> PartResolved(s, call, i)
  {
    if n == 0 then []
    else
      var errs := PartOutcome(s, call, n - 1).errs;
      PartErrors(s, call, n - 1) + if errs != [] then [ShardFailed(call.groups[n - 1].shard, [errs])] else []
  }

  /** Failures do not change once the parts are resolved. */
  lemma {:induction false} SamePartErrors<T>(s: Store<T>, s': Store<T>, call: Call<T>, call': Call<T>, n: nat)
    requires call'.groups == call.groups && call'.ids == call.ids && n <= |call.groups| == |call.ids|
    requires forall i :: 0 <= i < n ==> PartResolved(s, call, i) && PartResolved(s', call', i)
    requires forall i :: 0 <= i < n ==> PartOutcome(s', call', i) == PartOutcome(s, call, i)
    ensures PartErrors(s', call', n) == PartErrors(s, call, n)
  {
    if n > 0 {
      SamePartErrors(s, s', call, call', n - 1);
    }
  }

  lemma PartErrorsNext<T>(s: Store<T>, call: Call<T>, n: nat)
    requires n < |call.groups| == |call.ids| && forall i :: 0 <= i <= n ==> PartResolved(s, call, i)
    ensures PartErrors(s, call, n + 1) == PartErrors(s, call, n)
      + if PartOutcome(s, call, n).errs != []
        then [ShardFailed(call.groups[n].shard, [PartOutcome(s, call, n).errs])] else []
  {
  }

  ghost predicate CallOk<T>(s: Store<T>, call: Call<T>) {
    && GroupsOk(call.groups)
    && |call.ids| == |call.groups|
    && (forall i :: 0 <= i < |call.ids| ==> PartOk(s, call.groups[i], call.ids[i]))
    && call.awaited <= |call.groups|
    && (forall i :: 0 <= i < call.awaited ==> PartResolved(s, call, i))
    && (call.errs == [] ==> call.count == RowTotal(call.groups[..call.awaited]))
    && (call.errs == [] <==> forall i :: 0 <= i < call.awaited ==> PartSucceeded(s, call, i))
    && call.errs == PartErrors(s, call, call.awaited)
    && (call.result.Some? ==> call.awaited == |call.groups| && call.result == Finish(call).result)
  }

  ghost predicate PartSucceeded<T>(s: Store<T>, call: Call<T>, i: nat)
    requires i < |call.groups| == |call.ids|
  {
    PartResolved(s, call, i) && PartOutcome(s, call, i).errs == []
  }

  /** The barrier of the flush `flushes[k]` on shard `k`. */
  ghost function Barrier<T>(s: Store<T>, flushes: seq<nat>, k: nat): nat
    requires k < |s.shards| && k < |flushes| && flushes[k] < |s.shards[k].flushes|
  {
    s.shards[k].flushes[flushes[k]].barrier
  }

  ghost predicate ShardFlushesOk<T>(s: Store<T>, flushes: seq<nat>) {
    |flushes| <= |s.shards| && forall k :: 0 <= k < |flushes| ==> flushes[k] < |s.shards[k].flushes|
  }

  /** Every part of the call on a flushed shard came before the flush. */
  ghost predicate Before<T>(s: Store<T>, groups: seq<Group<T>>, ids: seq<nat>, flushes: seq<nat>)
    requires ShardFlushesOk(s, flushes) && |ids| <= |groups|
  {
    forall i :: 0 <= i < |ids| && groups[i].shard < |flushes| ==> ids[i] < Barrier(s, flushes, groups[i].shard)
  }

  ghost predicate Behind<T>(s: Store<T>, groups: seq<Group<T>>, ids: seq<nat>, flushes: seq<nat>)
    requires ShardFlushesOk(s, flushes) && |ids| <= |groups|
  {
    forall i :: 0 <= i < |ids| && groups[i].shard < |flushes| ==> Barrier(s, flushes, groups[i].shard) <= ids[i]
  }

  /** The shard flushes awaited so far returned no error. */
  ghost predicate Clean<T>(s: Store<T>, f: StoreFlush)
    requires ShardFlushesOk(s, f.flushes) && |f.flushes| == |s.shards| && f.awaited <= |s.shards|
  {
    forall k :: 0 <= k < f.awaited ==> s.shards[k].flushes[f.flushes[k]].result == Some([])
  }

  /** What the flush `flushes[k]` of shard `k` returned, if it returned. */
  ghost function ShardResult<T>(s: Store<T>, flushes: seq<nat>, k: nat): Option<seq<seq<CopyError>>>
    requires ShardFlushesOk(s, flushes) && k < |flushes|
  {
    s.shards[k].flushes[flushes[k]].result
  }

  /** The errors name exactly the shards below `n` whose flush failed, in increasing order, each with the errors of that
      flush. */
  ghost predicate NamesFailed<T>(s: Store<T>, flushes: seq<nat>, n: nat, errs: seq<ShardError>)
    requires ShardFlushesOk(s, flushes) && n <= |flushes|
  {
    && (forall i :: 0 <= i < |errs| ==> FailedShard(s, flushes, n, errs[i]))
    && (forall i, j :: 0 <= i < j < |errs| ==> errs[i].shard < errs[j].shard)
    && forall k :: 0 <= k < n && ShardResult(s, flushes, k) != Some([]) ==>
         exists i :: 0 <= i < |errs| && errs[i].shard == k
  }

  ghost predicate FailedShard<T>(s: Store<T>, flushes: seq<nat>, n: nat, e: ShardError)
    requires ShardFlushesOk(s, flushes) && n <= |flushes|
  {
    e.ShardFailed? && e.shard < n && e.errs != [] && ShardResult(s, flushes, e.shard) == Some(e.errs)
  }

  /** A flush that gave up waiting for a shard adds one error about that shard. */
  ghost predicate GaveUp<T>(s: Store<T>, f: StoreFlush, e: ShardError)
    requires ShardFlushesOk(s, f.flushes) && f.awaited < |f.flushes|
  {
    e == WaitCanceled(f.awaited) || (e.shard == f.awaited && FailedShard(s, f.flushes, f.awaited + 1, e))
  }

  /** Which errors a flush has collected. */
  ghost predicate ErrorsNamed<T>(s: Store<T>, f: StoreFlush)
    requires ShardFlushesOk(s, f.flushes) && f.awaited <= |f.flushes|
  {
    if f.result.Some? && f.awaited < |f.flushes| then
      var last := |f.errs| - 1;
      f.canceled && last >= 0 && NamesFailed(s, f.flushes, f.awaited, f.errs[..last]) && GaveUp(s, f, f.errs[last])
    else NamesFailed(s, f.flushes, f.awaited, f.errs)
  }

  ghost predicate StoreFlushOk<T>(s: Store<T>, f: StoreFlush) {
    && ShardFlushesOk(s, f.flushes) && |f.flushes| == |s.shards|
    && f.callsBefore <= |s.calls|
    && (forall c :: 0 <= c < |s.calls| ==> |s.calls[c].ids| == |s.calls[c].groups|)
    && (forall c :: 0 <= c < f.callsBefore ==> Before(s, s.calls[c].groups, s.calls[c].ids, f.flushes))
    && (forall c :: f.callsBefore <= c < |s.calls| ==> Behind(s, s.calls[c].groups, s.calls[c].ids, f.flushes))
    && f.awaited <= |s.shards|
    && (forall k :: 0 <= k < f.awaited ==> s.shards[k].flushes[f.flushes[k]].result.Some?)
    && (f.errs == [] ==> Clean(s, f))
    && (!f.canceled && Clean(s, f) ==> f.errs == [])
    && ErrorsNamed(s, f)
    && (f.result.Some? ==> f.result.value == f.errs && (f.errs == [] || !f.canceled ==> f.awaited == |s.shards|))
  }

  ghost predicate HolderOk<T>(s: Store<T>) {
    match s.holder
    case Nobody => true
    case Admitting(groups, ids) =>
      && GroupsOk(groups) && |ids| <= |groups|
      && (forall i :: 0 <= i < |groups| ==> groups[i].shard < |s.shards|)
      && (forall i :: 0 <= i < |ids| ==> PartOk(s, groups[i], ids[i]))
      && (forall f :: 0 <= f < |s.flushes| ==>
            ShardFlushesOk(s, s.flushes[f].flushes) && Behind(s, groups, ids, s.flushes[f].flushes))
    case Flushing(flushes) =>
      && ShardFlushesOk(s, flushes)
      && (forall c :: 0 <= c < |s.calls| ==>
            |s.calls[c].ids| == |s.calls[c].groups| && Before(s, s.calls[c].groups, s.calls[c].ids, flushes))
  }

  ghost predicate CallsOk<T>(s: Store<T>) {
    forall c :: 0 <= c < |s.calls| ==> CallOk(s, s.calls[c])
  }

  ghost predicate StoreFlushesOk<T>(s: Store<T>) {
    forall f :: 0 <= f < |s.flushes| ==> StoreFlushOk(s, s.flushes[f])
  }

  ghost predicate StoreInv<T>(cfg: StoreConfig, s: Store<T>) {
    && (forall k :: 0 <= k < |s.shards| ==> Inv(cfg.batch, s.shards[k]))
    && CallsOk(s) && StoreFlushesOk(s) && HolderOk(s)
  }

  // Shards moving under the store's feet

  ghost predicate ShardsExtend<T>(s: Store<T>, s': Store<T>) {
    && |s'.shards| == |s.shards|
    && forall k :: 0 <= k < |s.shards| ==> ShardExtends(s.shards[k], s'.shards[k])
  }

  lemma CallStable<T>(s: Store<T>, s': Store<T>, call: Call<T>)
    requires CallOk(s, call) && ShardsExtend(s, s')
    ensures CallOk(s', call)
  {
    forall i | 0 <= i < |call.ids|
      ensures PartOk(s', call.groups[i], call.ids[i])
      ensures PartResolved(s, call, i) ==> PartResolved(s', call, i)
      ensures PartResolved(s, call, i) ==> (PartSucceeded(s', call, i) <==> PartSucceeded(s, call, i))
      ensures PartResolved(s, call, i) ==> PartOutcome(s', call, i) == PartOutcome(s, call, i)
    {
      var k := call.groups[i].shard;
      assert PartOk(s, call.groups[i], call.ids[i]);
      assert ShardExtends(s.shards[k], s'.shards[k]);
    }
    SamePartErrors(s, s', call, call, call.awaited);
  }

  lemma BarrierStable<T>(s: Store<T>, s': Store<T>, flushes: seq<nat>)
    requires ShardFlushesOk(s, flushes) && ShardsExtend(s, s')
    ensures ShardFlushesOk(s', flushes)
    ensures forall k :: 0 <= k < |flushes| ==>
      && Barrier(s', flushes, k) == Barrier(s, flushes, k)
      && (s.shards[k].flushes[flushes[k]].result.Some? ==>
            s'.shards[k].flushes[flushes[k]] == s.shards[k].flushes[flushes[k]])
  {
    forall k | 0 <= k < |flushes|
      ensures SameFlush(s.shards[k], s'.shards[k], flushes[k]) && flushes[k] < |s'.shards[k].flushes|
    {
      assert ShardExtends(s.shards[k], s'.shards[k]);
    }
  }

  lemma ErrorsStable<T>(s: Store<T>, s': Store<T>, f: StoreFlush)
    requires ShardFlushesOk(s, f.flushes) && |s'.shards| == |s.shards| && ShardFlushesOk(s', f.flushes)
    requires f.awaited <= |f.flushes| && ErrorsNamed(s, f)
    requires forall k :: 0 <= k < f.awaited ==> ShardResult(s, f.flushes, k).Some?
    requires forall k :: 0 <= k < |f.flushes| && ShardResult(s, f.flushes, k).Some? ==>
      ShardResult(s', f.flushes, k) == ShardResult(s, f.flushes, k)
    ensures ErrorsNamed(s', f)
  {
  }

  lemma StoreFlushStable<T>(s: Store<T>, s': Store<T>, f: StoreFlush)
    requires StoreFlushOk(s, f) && ShardsExtend(s, s') && s'.calls == s.calls
    ensures StoreFlushOk(s', f)
  {
    hide ShardsExtend, ErrorsNamed;
    assert |s'.shards| == |s.shards| by {
      SameCount(s, s');
    }
    BarrierStable(s, s', f.flushes);
    ErrorsStable(s, s', f);
    forall c | 0 <= c < f.callsBefore ensures Before(s', s.calls[c].groups, s.calls[c].ids, f.flushes) {
      assert Before(s, s.calls[c].groups, s.calls[c].ids, f.flushes);
    }
    forall c | f.callsBefore <= c < |s.calls| ensures Behind(s', s.calls[c].groups, s.calls[c].ids, f.flushes) {
      assert Behind(s, s.calls[c].groups, s.calls[c].ids, f.flushes);
    }
  }

  lemma SameCount<T>(s: Store<T>, s': Store<T>)
    requires ShardsExtend(s, s')
    ensures |s'.shards| == |s.shards|
  {
  }

  /** Calls and flushes do not notice the batchers working. */
  lemma ShardsMove<T>(cfg: StoreConfig, s: Store<T>, s': Store<T>)
    requires StoreInv(cfg, s) && ShardsExtend(s, s') && s'.calls == s.calls && s'.flushes == s.flushes
    ensures CallsOk(s') && StoreFlushesOk(s')
  {
    hide CallOk, StoreFlushOk, ShardsExtend;
    forall c | 0 <= c < |s'.calls| ensures CallOk(s', s'.calls[c]) {
      CallStable(s, s', s.calls[c]);
    }
    forall f | 0 <= f < |s'.flushes| ensures StoreFlushOk(s', s'.flushes[f]) {
      StoreFlushStable(s, s', s.flushes[f]);
    }
  }

  lemma AdmittingStable<T>(s: Store<T>, s': Store<T>)
    requires s.holder.Admitting? && HolderOk(s) && ShardsExtend(s, s') && s'.flushes == s.flushes
    requires s'.holder == s.holder
    ensures HolderOk(s')
  {
    var Admitting(groups, ids) := s.holder;
    forall i | 0 <= i < |ids| ensures PartOk(s', groups[i], ids[i]) {
      assert PartOk(s, groups[i], ids[i]);
      assert ShardExtends(s.shards[groups[i].shard], s'.shards[groups[i].shard]);
    }
    forall f | 0 <= f < |s.flushes|
      ensures ShardFlushesOk(s', s.flushes[f].flushes) && Behind(s', groups, ids, s.flushes[f].flushes)
    {
      BarrierStable(s, s', s.flushes[f].flushes);
      assert Behind(s, groups, ids, s.flushes[f].flushes);
    }
  }

  lemma FlushingStable<T>(s: Store<T>, s': Store<T>)
    requires s.holder.Flushing? && HolderOk(s) && ShardsExtend(s, s') && s'.calls == s.calls
    requires s'.holder == s.holder
    ensures HolderOk(s')
  {
    BarrierStable(s, s', s.holder.flushes);
    forall c | 0 <= c < |s.calls| ensures Before(s', s.calls[c].groups, s.calls[c].ids, s.holder.flushes) {
      assert Before(s, s.calls[c].groups, s.calls[c].ids, s.holder.flushes);
    }
  }

  /** One shard takes a step, for whatever reason. */
  lemma OneShardMoves<T>(cfg: StoreConfig, s: Store<T>, k: nat, e: Event<T>)
    requires StoreInv(cfg, s) && k < |s.shards| && Enabled(cfg.batch, s.shards[k], e)
    ensures var s' := s.(shards := s.shards[k := Apply(cfg.batch, s.shards[k], e)]);
            StoreInv(cfg, s') && ShardsExtend(s, s')
  {
    hide Inv, Enabled, Apply, CallsOk, StoreFlushesOk, SameFlush, Extends;
    var s' := s.(shards := s.shards[k := Apply(cfg.batch, s.shards[k], e)]);
    EventExtends(cfg.batch, s.shards[k], e);
    forall j | 0 <= j < |s.shards| ensures ShardExtends(s.shards[j], s'.shards[j]) {
      SelfExtends(s.shards[j]);
    }
    ShardsMove(cfg, s, s');
    if s.holder.Admitting? {
      AdmittingStable(s, s');
    } else if s.holder.Flushing? {
      FlushingStable(s, s');
    }
  }

  lemma SelfExtends<T>(s: State<T>)
    ensures ShardExtends(s, s)
  {
  }

  // Events of the store

  lemma GroupSubmittedKeeps<T>(cfg: StoreConfig, s: Store<T>)
    requires StoreInv(cfg, s) && StoreEnabled(cfg, s, GroupSubmitted)
    ensures StoreInv(cfg, StoreApply(cfg, s, GroupSubmitted))
  {
    hide Inv, Apply, CallsOk, StoreFlushOk;
    var Admitting(groups, ids) := s.holder;
    var g := groups[|ids|];
    var k, e := g.shard, Submit(g.rows, cfg.coalesce);
    var s' := StoreApply(cfg, s, GroupSubmitted);
    var s1 := s.(shards := s'.shards);
    OneShardMoves(cfg, s, k, e);
    ShardsMove(cfg, s, s');
    SubmittedPart(cfg, s.shards[k], g.rows);
    assert HolderOk(s1);
    forall i | 0 <= i < |ids| + 1 ensures PartOk(s', groups[i], s'.holder.ids[i]) {
      assert i < |ids| ==> PartOk(s1, groups[i], ids[i]);
    }
    forall f | 0 <= f < |s.flushes|
      ensures ShardFlushesOk(s', s.flushes[f].flushes) && Behind(s', groups, s'.holder.ids, s.flushes[f].flushes)
    {
      var fs := s.flushes[f].flushes;
      assert ShardFlushesOk(s, fs) && Behind(s1, groups, ids, fs);
      BarrierStable(s, s1, fs);
      if k < |fs| {
        BarrierBound(cfg, s, fs, k);
      }
    }
  }

  /** The next request of a shard takes exactly the submitted rows. */
  lemma SubmittedPart<T>(cfg: StoreConfig, shard: State<T>, rows: seq<T>)
    requires Inv(cfg.batch, shard) && Enabled(cfg.batch, shard, Submit(rows, cfg.coalesce))
    ensures var shard' := Apply(cfg.batch, shard, Submit(rows, cfg.coalesce));
            |shard'.requests| == |shard.requests| + 1 && shard'.requests[|shard.requests|].rows == rows
  {
    hide Core, Schedule, AppendRows;
    SubmitKeepsCore(cfg.batch, shard, rows, cfg.coalesce);
  }

  lemma BarrierBound<T>(cfg: StoreConfig, s: Store<T>, flushes: seq<nat>, k: nat)
    requires StoreInv(cfg, s) && ShardFlushesOk(s, flushes) && k < |flushes|
    ensures Barrier(s, flushes, k) <= |s.shards[k].requests|
  {
    hide Core, CallsOk, StoreFlushesOk;
    assert FlushOk(s.shards[k].flushes[flushes[k]], s.shards[k].requests);
  }

  lemma CallAdmittedKeeps<T>(cfg: StoreConfig, s: Store<T>)
    requires StoreInv(cfg, s) && StoreEnabled(cfg, s, CallAdmitted)
    ensures StoreInv(cfg, StoreApply(cfg, s, CallAdmitted))
  {
    hide Inv, PartOk;
    var s', n := StoreApply(cfg, s, CallAdmitted), |s.calls|;
    forall c | 0 <= c < |s'.calls| ensures CallOk(s', s'.calls[c]) {
      if c < n {
        SameShardsCall(s, s', s.calls[c]);
      } else {
        NewCallOk(s, s');
      }
    }
    forall f | 0 <= f < |s'.flushes| ensures StoreFlushOk(s', s'.flushes[f]) {
      SameShardsFlush(s, s', s.flushes[f]);
    }
  }

  lemma SameShardsCall<T>(s: Store<T>, s': Store<T>, call: Call<T>)
    requires CallOk(s, call) && s'.shards == s.shards
    ensures CallOk(s', call)
  {
    forall k | 0 <= k < |s.shards| ensures ShardExtends(s.shards[k], s'.shards[k]) {
      SelfExtends(s.shards[k]);
    }
    CallStable(s, s', call);
  }

  lemma NewCallOk<T>(s: Store<T>, s': Store<T>)
    requires HolderOk(s) && s.holder.Admitting? && |s.holder.ids| == |s.holder.groups| && s'.shards == s.shards
    ensures CallOk(s', Call(s.holder.groups, s.holder.ids, 0, 0, [], None))
  {
    var call := Call(s.holder.groups, s.holder.ids, 0, 0, [], None);
    assert call.groups[..0] == [];
    forall i | 0 <= i < |call.ids| ensures PartOk(s', call.groups[i], call.ids[i]) {
      assert PartOk(s, call.groups[i], call.ids[i]);
    }
  }

  lemma SameShardsFlush<T>(s: Store<T>, s': Store<T>, f: StoreFlush)
    requires StoreFlushOk(s, f) && HolderOk(s) && f in s.flushes
    requires s'.shards == s.shards && s.holder.Admitting? && |s.holder.ids| == |s.holder.groups|
    requires s'.calls == s.calls + [Call(s.holder.groups, s.holder.ids, 0, 0, [], None)]
    ensures StoreFlushOk(s', f)
  {
    hide ErrorsNamed;
    ErrorsStable(s, s', f);
    var n := |s.calls|;
    forall c | 0 <= c < f.callsBefore ensures Before(s', s'.calls[c].groups, s'.calls[c].ids, f.flushes) {
      assert Before(s, s.calls[c].groups, s.calls[c].ids, f.flushes);
    }
    forall c | f.callsBefore <= c < n + 1 ensures Behind(s', s'.calls[c].groups, s'.calls[c].ids, f.flushes) {
      if c < n {
        assert Behind(s, s.calls[c].groups, s.calls[c].ids, f.flushes);
      } else {
        assert Behind(s, s.holder.groups, s.holder.ids, f.flushes);
      }
    }
  }

  lemma ShardFlushedKeeps<T>(cfg: StoreConfig, s: Store<T>, order: seq<nat>)
    requires StoreInv(cfg, s) && StoreEnabled(cfg, s, ShardFlushed(order))
    ensures StoreInv(cfg, StoreApply(cfg, s, ShardFlushed(order)))
  {
    hide Inv, Apply, CallOk, StoreFlushOk;
    var k, fs, s' := |s.holder.flushes|, s.holder.flushes, StoreApply(cfg, s, ShardFlushed(order));
    var s1 := s.(shards := s'.shards);
    OneShardMoves(cfg, s, k, FlushStarts(order));
    ShardsMove(cfg, s, s');
    NewShardFlush(cfg, s.shards[k], order);
    assert HolderOk(s1) && ShardFlushesOk(s1, fs);
    forall c | 0 <= c < |s.calls|
      ensures |s.calls[c].ids| == |s.calls[c].groups|
      ensures Before(s', s.calls[c].groups, s.calls[c].ids, s'.holder.flushes)
    {
      assert Before(s1, s.calls[c].groups, s.calls[c].ids, fs);
      AdmittedParts(s, c);
    }
  }

  lemma NewShardFlush<T>(cfg: StoreConfig, shard: State<T>, order: seq<nat>)
    requires Inv(cfg.batch, shard) && Enabled(cfg.batch, shard, FlushStarts(order))
    ensures var shard' := Apply(cfg.batch, shard, FlushStarts(order));
            && |shard'.flushes| == |shard.flushes| + 1
            && shard'.flushes[|shard.flushes|].barrier == |shard.requests|
  {
    hide Core, Schedule, CloseActive;
    CloseForFlush(cfg.batch, shard);
  }

  lemma AdmittedParts<T>(s: Store<T>, c: nat)
    requires CallsOk(s) && c < |s.calls|
    ensures |s.calls[c].ids| == |s.calls[c].groups|
    ensures forall i :: 0 <= i < |s.calls[c].ids| ==>
      s.calls[c].groups[i].shard < |s.shards| && s.calls[c].ids[i] < |s.shards[s.calls[c].groups[i].shard].requests|
  {
    assert CallOk(s, s.calls[c]);
    forall i | 0 <= i < |s.calls[c].ids| ensures PartOk(s, s.calls[c].groups[i], s.calls[c].ids[i]) {
    }
  }

  lemma FlushStartedKeeps<T>(cfg: StoreConfig, s: Store<T>)
    requires StoreInv(cfg, s) && StoreEnabled(cfg, s, FlushStarted)
    ensures StoreInv(cfg, StoreApply(cfg, s, FlushStarted))
  {
    hide Inv, CallOk;
    var s' := StoreApply(cfg, s, FlushStarted);
    forall c | 0 <= c < |s'.calls| ensures CallOk(s', s'.calls[c]) {
      SameShardsCall(s, s', s.calls[c]);
    }
    forall f | 0 <= f < |s'.flushes| ensures StoreFlushOk(s', s'.flushes[f]) {
      if f < |s.flushes| {
        SameStateFlush(s, s', s.flushes[f]);
      } else {
        forall c | 0 <= c < |s.calls| ensures Before(s', s.calls[c].groups, s.calls[c].ids, s.holder.flushes) {
          assert Before(s, s.calls[c].groups, s.calls[c].ids, s.holder.flushes);
        }
      }
    }
  }

  lemma SameStateFlush<T>(s: Store<T>, s': Store<T>, f: StoreFlush)
    requires StoreFlushOk(s, f) && s'.shards == s.shards && s'.calls == s.calls
    ensures StoreFlushOk(s', f)
  {
    hide SameFlush, Extends;
    forall k | 0 <= k < |s.shards| ensures ShardExtends(s.shards[k], s'.shards[k]) {
      SelfExtends(s.shards[k]);
    }
    StoreFlushStable(s, s', f);
  }

  lemma RowTotalNext<T>(groups: seq<Group<T>>, n: nat)
    requires n < |groups|
    ensures RowTotal(groups[..n + 1]) == RowTotal(groups[..n]) + |groups[n].rows|
  {
    assert groups[..n + 1][..n] == groups[..n];
  }

  /** A part that succeeded reports the rows of its group. */
  lemma PartCount<T>(cfg: StoreConfig, s: Store<T>, call: Call<T>, i: nat)
    requires StoreInv(cfg, s) && CallOk(s, call) && i < |call.groups| && PartResolved(s, call, i)
    ensures var outcome := s.shards[call.groups[i].shard].requests[call.ids[i]].result.value;
            outcome.errs == [] ==> outcome.count == |call.groups[i].rows|
  {
    hide BatchesOk, TicketsOk, Total, Failures, CallsOk, StoreFlushesOk, HolderOk;
    assert PartOk(s, call.groups[i], call.ids[i]);
    assert RequestOk(s.shards[call.groups[i].shard], call.ids[i]);
  }

  lemma AwaitPartOk<T>(cfg: StoreConfig, s: Store<T>, call: Call<T>)
    requires StoreInv(cfg, s) && CallOk(s, call) && call.result.None?
    requires call.awaited < |call.groups| && PartResolved(s, call, call.awaited)
    ensures CallOk(s, AwaitPart(s, call))
  {
    hide StoreInv, RowTotal, PartErrors;
    var n, call' := call.awaited, AwaitPart(s, call);
    PartCount(cfg, s, call, n);
    RowTotalNext(call.groups, n);
    forall i | 0 <= i <= n ensures PartResolved(s, call', i) {
      assert PartResolved(s, call, i);
    }
    SamePartErrors(s, s, call, call', n);
    PartErrorsNext(s, call', n);
    assert PartSucceeded(s, call', n) <==> PartSucceeded(s, call, n);
    assert (call'.errs == []) <==> call.errs == [] && PartSucceeded(s, call, n);
    if call.errs == [] {
      forall i | 0 <= i < n ensures PartSucceeded(s, call', i) {
        assert PartSucceeded(s, call, i);
      }
    } else {
      var i :| 0 <= i < n && !PartSucceeded(s, call, i);
      assert !PartSucceeded(s, call', i);
    }
  }

  lemma CallChanges<T>(cfg: StoreConfig, s: Store<T>, c: nat, call: Call<T>)
    requires StoreInv(cfg, s) && c < |s.calls| && CallOk(s, call)
    requires call.groups == s.calls[c].groups && call.ids == s.calls[c].ids
    ensures StoreInv(cfg, s.(calls := s.calls[c := call]))
  {
    hide Inv, CallOk, ErrorsNamed;
    var s' := s.(calls := s.calls[c := call]);
    forall d | 0 <= d < |s'.calls| ensures CallOk(s', s'.calls[d]) {
      SameShardsCall(s, s', s'.calls[d]);
    }
    forall f | 0 <= f < |s'.flushes| ensures StoreFlushOk(s', s'.flushes[f]) {
      var flush := s.flushes[f];
      assert StoreFlushOk(s, flush);
      ErrorsStable(s, s', flush);
      forall d | 0 <= d < flush.callsBefore ensures Before(s', s'.calls[d].groups, s'.calls[d].ids, flush.flushes) {
        assert Before(s, s.calls[d].groups, s.calls[d].ids, flush.flushes);
      }
      forall d | flush.callsBefore <= d < |s'.calls|
        ensures Behind(s', s'.calls[d].groups, s'.calls[d].ids, flush.flushes)
      {
        assert Behind(s, s.calls[d].groups, s.calls[d].ids, flush.flushes);
      }
    }
    HolderIgnoresProgress(s, s', c);
  }

  lemma HolderIgnoresProgress<T>(s: Store<T>, s': Store<T>, c: nat)
    requires HolderOk(s) && c < |s.calls| == |s'.calls| && s' == s.(calls := s.calls[c := s'.calls[c]])
    requires s'.calls[c].groups == s.calls[c].groups && s'.calls[c].ids == s.calls[c].ids
    ensures HolderOk(s')
  {
    match s.holder
    case Nobody =>
    case Admitting(groups, ids) =>
      forall i | 0 <= i < |ids| ensures PartOk(s', groups[i], ids[i]) {
        assert PartOk(s, groups[i], ids[i]);
      }
      forall f | 0 <= f < |s.flushes| ensures Behind(s', groups, ids, s.flushes[f].flushes) {
        assert Behind(s, groups, ids, s.flushes[f].flushes);
      }
    case Flushing(fs) =>
      forall d | 0 <= d < |s.calls| ensures Before(s', s'.calls[d].groups, s'.calls[d].ids, fs) {
        assert Before(s, s.calls[d].groups, s.calls[d].ids, fs);
      }
  }

  lemma StoreFlushChanges<T>(cfg: StoreConfig, s: Store<T>, f: nat, flush: StoreFlush)
    requires StoreInv(cfg, s) && f < |s.flushes| && StoreFlushOk(s, flush) && flush.flushes == s.flushes[f].flushes
    ensures StoreInv(cfg, s.(flushes := s.flushes[f := flush]))
  {
    hide Inv, CallOk, SameFlush, Extends;
    var s' := s.(flushes := s.flushes[f := flush]);
    forall c | 0 <= c < |s'.calls| ensures CallOk(s', s'.calls[c]) {
      SameShardsCall(s, s', s.calls[c]);
    }
    forall g | 0 <= g < |s'.flushes| ensures StoreFlushOk(s', s'.flushes[g]) {
      SameStateFlush(s, s', s'.flushes[g]);
    }
    match s.holder
    case Nobody =>
    case Admitting(groups, ids) =>
      forall i | 0 <= i < |ids| ensures PartOk(s', groups[i], ids[i]) {
        assert PartOk(s, groups[i], ids[i]);
      }
      forall g | 0 <= g < |s'.flushes|
        ensures ShardFlushesOk(s', s'.flushes[g].flushes) && Behind(s', groups, ids, s'.flushes[g].flushes)
      {
        assert Behind(s, groups, ids, s.flushes[g].flushes);
      }
    case Flushing(fs) => SameFlushing(s, s');
  }

  lemma SameFlushing<T>(s: Store<T>, s': Store<T>)
    requires HolderOk(s) && s.holder.Flushing? && s' == s.(flushes := s'.flushes)
    ensures HolderOk(s')
  {
    forall c | 0 <= c < |s.calls| ensures Before(s', s.calls[c].groups, s.calls[c].ids, s.holder.flushes) {
      assert Before(s, s.calls[c].groups, s.calls[c].ids, s.holder.flushes);
    }
  }

  lemma HolderChanges<T>(cfg: StoreConfig, s: Store<T>, holder: Holder<T>)
    requires StoreInv(cfg, s)
    ensures CallsOk(s.(holder := holder)) && StoreFlushesOk(s.(holder := holder))
  {
    hide Inv, CallOk, StoreFlushOk;
    var s' := s.(holder := holder);
    forall c | 0 <= c < |s'.calls| ensures CallOk(s', s'.calls[c]) {
      SameShardsCall(s, s', s.calls[c]);
    }
    forall f | 0 <= f < |s'.flushes| ensures StoreFlushOk(s', s'.flushes[f]) {
      SameStateFlush(s, s', s.flushes[f]);
    }
  }

  lemma ArrivalKeeps<T>(cfg: StoreConfig, s: Store<T>, e: StoreEvent<T>)
    requires StoreInv(cfg, s) && StoreEnabled(cfg, s, e) && (e.CallArrives? || e.FlushArrives?)
    ensures StoreInv(cfg, StoreApply(cfg, s, e))
  {
    hide Inv, CallOk;
    var s' := StoreApply(cfg, s, e);
    HolderChanges(cfg, s, s'.holder);
    forall f | 0 <= f < |s.flushes| ensures StoreFlushOk(s, s.flushes[f]) {
    }
    forall c | 0 <= c < |s.calls| ensures |s.calls[c].ids| == |s.calls[c].groups| {
      AdmittedParts(s, c);
    }
  }

  lemma AwaitNames<T>(s: Store<T>, f: StoreFlush, canceled: bool)
    requires ShardFlushesOk(s, f.flushes) && |f.flushes| == |s.shards| && f.awaited < |s.shards|
    requires f.result.None? && ErrorsNamed(s, f)
    ensures AwaitShardFlush(s, f, canceled).awaited <= |f.flushes|
    ensures ErrorsNamed(s, AwaitShardFlush(s, f, canceled))
  {
    var f', k := AwaitShardFlush(s, f, canceled), f.awaited;
    if f'.result.Some? {
      assert f'.errs[..|f'.errs| - 1] == f.errs;
    } else if f'.awaited == k + 1 {
      NamesNext(s, f.flushes, k, f.errs, ShardResult(s, f.flushes, k).value);
    }
  }

  lemma NamesNext<T>(s: Store<T>, flushes: seq<nat>, k: nat, errs: seq<ShardError>, failed: seq<seq<CopyError>>)
    requires ShardFlushesOk(s, flushes) && k < |flushes| && NamesFailed(s, flushes, k, errs)
    requires ShardResult(s, flushes, k) == Some(failed)
    ensures NamesFailed(s, flushes, k + 1, if failed != [] then errs + [ShardFailed(k, failed)] else errs)
  {
    var errs' := if failed != [] then errs + [ShardFailed(k, failed)] else errs;
    forall i | 0 <= i < |errs'| ensures FailedShard(s, flushes, k + 1, errs'[i]) {
      assert i < |errs| ==> FailedShard(s, flushes, k, errs[i]);
    }
    forall i | 0 <= i < k + 1 && ShardResult(s, flushes, i) != Some([])
      ensures exists j :: 0 <= j < |errs'| && errs'[j].shard == i
    {
      if i < k {
        var j :| 0 <= j < |errs| && errs[j].shard == i;
        assert errs'[j].shard == i;
      } else {
        assert errs'[|errs|].shard == i;
      }
    }
  }

  lemma AwaitShardFlushOk<T>(s: Store<T>, f: StoreFlush, canceled: bool)
    requires StoreFlushOk(s, f) && f.result.None? && f.awaited < |s.shards|
    ensures StoreFlushOk(s, AwaitShardFlush(s, f, canceled))
  {
    hide Before, Behind, ErrorsNamed;
    var f' := AwaitShardFlush(s, f, canceled);
    AwaitNames(s, f, canceled);
    assert f' == f.(awaited := f'.awaited, errs := f'.errs, canceled := f'.canceled, result := f'.result);
  }

  lemma StoreEventKeepsInv<T>(cfg: StoreConfig, s: Store<T>, e: StoreEvent<T>)
    requires StoreInv(cfg, s) && StoreEnabled(cfg, s, e)
    ensures StoreInv(cfg, StoreApply(cfg, s, e))
  {
    hide CallOk, HolderOk, Inv, Apply, Enabled;
    match e
    case ShardWorks(k, event) => OneShardMoves(cfg, s, k, event);
    case CallArrives(groups, canceled) => ArrivalKeeps(cfg, s, e);
    case GroupSubmitted => GroupSubmittedKeeps(cfg, s);
    case CallAdmitted => CallAdmittedKeeps(cfg, s);
    case FlushArrives => ArrivalKeeps(cfg, s, e);
    case ShardFlushed(order) => ShardFlushedKeeps(cfg, s, order);
    case FlushStarted => FlushStartedKeeps(cfg, s);
    case CallAwaits(c) =>
      AwaitPartOk(cfg, s, s.calls[c]);
      CallChanges(cfg, s, c, AwaitPart(s, s.calls[c]));
    case CallReturns(c) =>
      FinishOk(s, s.calls[c]);
      CallChanges(cfg, s, c, Finish(s.calls[c]));
    case StoreFlushAwaits(f, canceled) =>
      AwaitShardFlushOk(s, s.flushes[f], canceled);
      StoreFlushChanges(cfg, s, f, AwaitShardFlush(s, s.flushes[f], canceled));
    case StoreFlushReturns(f) =>
      FlushDoneOk(s, s.flushes[f]);
      StoreFlushChanges(cfg, s, f, s.flushes[f].(result := Some(s.flushes[f].errs)));
  }

  lemma FinishOk<T>(s: Store<T>, call: Call<T>)
    requires CallOk(s, call) && call.awaited == |call.groups|
    ensures CallOk(s, Finish(call))
  {
    var call' := Finish(call);
    forall i | 0 <= i < |call.groups|
      ensures PartResolved(s, call', i) && (PartSucceeded(s, call', i) <==> PartSucceeded(s, call, i))
    {
      assert PartResolved(s, call, i);
    }
    SamePartErrors(s, s, call, call', call.awaited);
  }

  lemma FlushDoneOk<T>(s: Store<T>, f: StoreFlush)
    requires StoreFlushOk(s, f) && f.awaited == |s.shards|
    ensures StoreFlushOk(s, f.(result := Some(f.errs)))
  {
  }

  lemma {:induction false} StoreRunKeepsInv<T>(cfg: StoreConfig, s: Store<T>, events: seq<StoreEvent<T>>)
    requires StoreInv(cfg, s) && StorePossible(cfg, s, events)
    ensures StoreInv(cfg, StoreAfter(cfg, s, events))
    decreases |events|
  {
    hide StoreInv, StoreEnabled, StoreApply;
    if events != [] {
      StoreEventKeepsInv(cfg, s, events[0]);
      StoreRunKeepsInv(cfg, StoreApply(cfg, s, events[0]), events[1..]);
    }
  }

  // What callers see

  /** Some run of a store with `n` shards ends in `s`. */
  ghost predicate StoreReachableWith<T(!new)>(cfg: StoreConfig, n: nat, s: Store<T>) {
    exists events: seq<StoreEvent<T>> ::
      StorePossible(cfg, StoreInit(n), events) && StoreAfter(cfg, StoreInit(n), events) == s
  }

  ghost predicate StoreReachable<T(!new)>(cfg: StoreConfig, s: Store<T>) {
    StoreReachableWith(cfg, |s.shards|, s)
  }

  lemma {:induction false} SameShards<T>(cfg: StoreConfig, s: Store<T>, events: seq<StoreEvent<T>>)
    requires StorePossible(cfg, s, events)
    ensures |StoreAfter(cfg, s, events).shards| == |s.shards|
    decreases |events|
  {
    hide Enabled, Apply;
    if events != [] {
      SameShards(cfg, StoreApply(cfg, s, events[0]), events[1..]);
    }
  }

  /** A store keeps the batchers it was made with. */
  lemma ShardsStay<T(!new)>(cfg: StoreConfig, n: nat, s: Store<T>)
    requires StoreReachableWith(cfg, n, s)
    ensures |s.shards| == n
  {
    var events: seq<StoreEvent<T>> :|
      StorePossible(cfg, StoreInit(n), events) && StoreAfter(cfg, StoreInit(n), events) == s;
    SameShards(cfg, StoreInit(n), events);
  }

  lemma StoreReachableInv<T(!new)>(cfg: StoreConfig, s: Store<T>)
    requires StoreReachable(cfg, s)
    ensures StoreInv(cfg, s)
  {
    hide Inv;
    var n: nat := |s.shards|;
    var events: seq<StoreEvent<T>> :|
      StorePossible(cfg, StoreInit(n), events) && StoreAfter(cfg, StoreInit(n), events) == s;
    InitInv<T>(cfg.batch);
    StoreRunKeepsInv(cfg, StoreInit(n), events);
  }

  /** Once accepted, a call can always take its next admission step. */
  lemma AdmissionNeverFails<T(!new)>(cfg: StoreConfig, s: Store<T>)
    requires StoreReachable(cfg, s) && s.holder.Admitting?
    ensures StoreEnabled(cfg, s, if |s.holder.ids| < |s.holder.groups| then GroupSubmitted else CallAdmitted)
  {
    hide Core, CallsOk, StoreFlushesOk;
    StoreReachableInv(cfg, s);
    if |s.holder.ids| < |s.holder.groups| {
      var k := s.holder.groups[|s.holder.ids|].shard;
      assert Inv(cfg.batch, s.shards[k]);
    }
  }

  /** The shards of the parts that failed, in the order of the groups. */
  ghost function FailedShards<T>(s: Store<T>, call: Call<T>, n: nat): seq<nat>
    requires n <= |call.groups| == |call.ids|
  {
    if n == 0 then []
    else FailedShards(s, call, n - 1) + if PartSucceeded(s, call, n - 1) then [] else [call.groups[n - 1].shard]
  }

  function ShardsOf(errs: seq<ShardError>): (shards: seq<nat>)
    ensures |shards| == |errs|
  {
    seq(|errs|, i requires 0 <= i < |errs| => errs[i].shard)
  }

  lemma {:induction false} ErrorsNameShards<T>(s: Store<T>, call: Call<T>, n: nat)
    requires n <= |call.groups| == |call.ids| && forall i :: 0 <= i < n ==> PartResolved(s, call, i)
    ensures ShardsOf(PartErrors(s, call, n)) == FailedShards(s, call, n)
  {
    if n > 0 {
      ErrorsNameShards(s, call, n - 1);
    }
  }

  /** The future of a call yields the number of rows of all its groups and no error exactly when every shard succeeded;
      otherwise it yields zero and the failures: one for each failed part, with its shard and that shard's errors, in
      the order of the groups. */
  lemma CallYieldsAllRows<T(!new)>(cfg: StoreConfig, s: Store<T>, c: nat)
    requires StoreReachable(cfg, s) && c < |s.calls| && s.calls[c].result.Some?
    ensures var call, r := s.calls[c], s.calls[c].result.value;
            && |call.ids| == |call.groups|
            && (forall i :: 0 <= i < |call.groups| ==> PartResolved(s, call, i))
            && (r.errs == [] <==> forall i :: 0 <= i < |call.groups| ==> PartSucceeded(s, call, i))
            && r.errs == PartErrors(s, call, |call.groups|)
            && ShardsOf(r.errs) == FailedShards(s, call, |call.groups|)
            && r.count == (if r.errs == [] then RowTotal(call.groups) else 0)
  {
    hide Inv, StoreFlushesOk, HolderOk, PartErrors, FailedShards, ShardsOf;
    StoreReachableInv(cfg, s);
    assert CallOk(s, s.calls[c]);
    assert s.calls[c].groups[..|s.calls[c].groups|] == s.calls[c].groups;
    ErrorsNameShards(s, s.calls[c], |s.calls[c].groups|);
  }

  /** The part of call `c` on shard `k` waits in the flush `f` started there. */
  ghost predicate WaitedFor<T>(s: Store<T>, f: StoreFlush, c: nat, i: nat)
    requires c < |s.calls| && i < |s.calls[c].groups| == |s.calls[c].ids|
  {
    var k := s.calls[c].groups[i].shard;
    && k < |s.shards| && k < |f.flushes| && f.flushes[k] < |s.shards[k].flushes|
    && s.calls[c].ids[i] in s.shards[k].flushes[f.flushes[k]].captured
  }

  /** A flush of the store that returns reports exactly the shards whose flush failed, in increasing order, each with
      the errors of its own flush. If it gave up because its context was canceled, that holds of the shards it had
      awaited, and one more error is about the shard it gave up on. */
  lemma StoreFlushNamesShards<T(!new)>(cfg: StoreConfig, s: Store<T>, f: nat)
    requires StoreReachable(cfg, s) && f < |s.flushes| && s.flushes[f].result.Some?
    ensures var flush, errs := s.flushes[f], s.flushes[f].result.value;
            && ShardFlushesOk(s, flush.flushes) && |flush.flushes| == |s.shards|
            && (flush.awaited == |s.shards| ==> NamesFailed(s, flush.flushes, |s.shards|, errs))
            && (flush.awaited != |s.shards| ==>
                  && flush.awaited < |s.shards| && flush.canceled && errs != []
                  && NamesFailed(s, flush.flushes, flush.awaited, errs[..|errs| - 1])
                  && GaveUp(s, flush, errs[|errs| - 1]))
  {
    hide Core, NamesFailed, GaveUp;
    StoreReachableInv(cfg, s);
    assert StoreFlushOk(s, s.flushes[f]);
  }

  /** A wait ends the flush exactly when the context is canceled and the shard's flush failed or had not returned; the
      last error is then the failure of that flush, or a canceled wait exactly when it had not returned. */
  lemma StoreFlushGivesUp<T>(cfg: StoreConfig, s: Store<T>, f: nat, canceled: bool)
    requires StoreInv(cfg, s) && StoreEnabled(cfg, s, StoreFlushAwaits(f, canceled))
    ensures var flush, flush' := s.flushes[f], StoreApply(cfg, s, StoreFlushAwaits(f, canceled)).flushes[f];
            var k := flush.awaited;
            && ShardFlushesOk(s, flush.flushes) && k < |flush.flushes|
            && (flush'.result.Some? <==> canceled && ShardResult(s, flush.flushes, k) != Some([]))
            && (flush'.result.Some? ==>
                  && flush'.awaited == k && flush'.result.value != []
                  && flush'.result.value[|flush'.result.value| - 1]
                     == match ShardResult(s, flush.flushes, k)
                        case None => WaitCanceled(k)
                        case Some(failed) => ShardFailed(k, failed))
            && (flush'.result.None? ==> flush'.awaited == k + 1)
  {
    hide Core;
    assert StoreFlushOk(s, s.flushes[f]);
  }

  /** A flush of the store that returns, unless it found its context canceled and reports an error, is a barrier over
      all shards: every part of every call admitted before it is resolved. Without a canceled context it returns nil
      exactly when the flush of every shard did. Returned or not, it never waits for a part of a call admitted after
      it. */
  lemma StoreFlushIsABarrier<T(!new)>(cfg: StoreConfig, s: Store<T>, f: nat)
    requires StoreReachable(cfg, s) && f < |s.flushes|
    ensures s.flushes[f].callsBefore <= |s.calls|
    ensures forall c :: 0 <= c < |s.calls| ==> |s.calls[c].ids| == |s.calls[c].groups|
    ensures s.flushes[f].result.Some? && (s.flushes[f].result == Some([]) || !s.flushes[f].canceled) ==>
      forall c, i | 0 <= c < s.flushes[f].callsBefore && 0 <= i < |s.calls[c].groups| :: PartResolved(s, s.calls[c], i)
    ensures s.flushes[f].result.Some? && !s.flushes[f].canceled ==>
      && |s.flushes[f].flushes| == |s.shards|
      && (forall k :: 0 <= k < |s.shards| ==> s.flushes[f].flushes[k] < |s.shards[k].flushes|)
      && (s.flushes[f].result == Some([]) <==>
            forall k :: 0 <= k < |s.shards| ==> s.shards[k].flushes[s.flushes[f].flushes[k]].result == Some([]))
    ensures forall c, i | s.flushes[f].callsBefore <= c < |s.calls| && 0 <= i < |s.calls[c].groups| ::
      !WaitedFor(s, s.flushes[f], c, i)
  {
    hide Core;
    StoreReachableInv(cfg, s);
    var flush := s.flushes[f];
    assert StoreFlushOk(s, flush);
    forall c | 0 <= c < |s.calls| ensures |s.calls[c].ids| == |s.calls[c].groups| {
      AdmittedParts(s, c);
    }
    if flush.result.Some? && (flush.result == Some([]) || !flush.canceled) {
      forall c, i | 0 <= c < flush.callsBefore && 0 <= i < |s.calls[c].groups|
        ensures PartResolved(s, s.calls[c], i)
      {
        AdmittedParts(s, c);
        assert Before(s, s.calls[c].groups, s.calls[c].ids, flush.flushes);
        var k := s.calls[c].groups[i].shard;
        BarrierResolves(cfg, s, flush, k, s.calls[c].ids[i]);
      }
    }
    forall c, i | flush.callsBefore <= c < |s.calls| && 0 <= i < |s.calls[c].groups|
      ensures !WaitedFor(s, flush, c, i)
    {
      AdmittedParts(s, c);
      assert Behind(s, s.calls[c].groups, s.calls[c].ids, flush.flushes);
      NotCaptured(cfg, s, flush, s.calls[c].groups[i].shard, s.calls[c].ids[i]);
    }
  }

  lemma BarrierResolves<T>(cfg: StoreConfig, s: Store<T>, flush: StoreFlush, k: nat, id: nat)
    requires StoreInv(cfg, s) && StoreFlushOk(s, flush) && flush.awaited == |s.shards|
    requires k < |s.shards| && id < Barrier(s, flush.flushes, k)
    ensures id < |s.shards[k].requests| && s.shards[k].requests[id].result.Some?
  {
    hide Core, CallsOk, StoreFlushesOk, HolderOk, Before, Behind, AwaitErrors, Clean;
    var shard := s.shards[k];
    var inner := shard.flushes[flush.flushes[k]];
    assert FlushOk(inner, shard.requests);
    if id in inner.captured {
      var j :| 0 <= j < |inner.captured| && inner.captured[j] == id;
    }
  }

  lemma NotCaptured<T>(cfg: StoreConfig, s: Store<T>, flush: StoreFlush, k: nat, id: nat)
    requires StoreInv(cfg, s) && StoreFlushOk(s, flush)
    requires k < |s.shards| && Barrier(s, flush.flushes, k) <= id
    ensures id !in s.shards[k].flushes[flush.flushes[k]].captured
  {
    hide Core, CallsOk, StoreFlushesOk, HolderOk, Before, Behind, AwaitErrors;
    assert FlushOk(s.shards[k].flushes[flush.flushes[k]], s.shards[k].requests);
  }
}
