/** Asynchronous COPY over several shards: one batcher for each replica set, and one store lock that admits a call to
    all its shards, or starts a flush on all of them, while the batchers keep working. */
module StoreProtocol {
  import opened Basics
  import opened CopyProtocol
  import opened CopyDrain

  /** The rows of a call that go to one shard. */
  datatype Group<T> = Group(shard: nat, rows: seq<T>)

  datatype ShardError = ShardFailed(shard: nat, errs: seq<seq<CopyError>>) | WaitCanceled(shard: nat)

  datatype CallResult = CallResult(count: int, errs: seq<ShardError>)

  /** An admitted call: `ids[i]` is the request its i-th group became. The other fields are the progress of the
      goroutine that awaits the parts in order. */
  datatype Call<T> = Call(
    groups: seq<Group<T>>,
    ids: seq<nat>,
    awaited: nat,
    count: int,
    errs: seq<ShardError>,
    result: Option<CallResult>)

  /** A flush of the store: `flushes[k]` is the flush it started on shard `k`. `canceled` records that it found its
      context canceled while it waited. */
  datatype StoreFlush = StoreFlush(
    callsBefore: nat,
    flushes: seq<nat>,
    awaited: nat,
    errs: seq<ShardError>,
    canceled: bool,
    result: Option<seq<ShardError>>)

  /** Who holds the store lock, and how far the holder got. */
  datatype Holder<T> =
    | Nobody
    | Admitting(groups: seq<Group<T>>, ids: seq<nat>)
    | Flushing(flushes: seq<nat>)

  datatype Store<T> = Store(
    shards: seq<State<T>>,
    holder: Holder<T>,
    calls: seq<Call<T>>,
    flushes: seq<StoreFlush>)

  /** Settings shared by the batchers, and whether coalescing is enabled for the query. */
  datatype StoreConfig = StoreConfig(batch: Config, coalesce: bool)

  datatype StoreEvent<T> =
    | ShardWorks(shard: nat, event: Event<T>)
    | CallArrives(groups: seq<Group<T>>, canceled: bool)
    | GroupSubmitted
    | CallAdmitted
    | FlushArrives
    | ShardFlushed(order: seq<nat>)
    | FlushStarted
    | CallAwaits(call: nat)
    | CallReturns(call: nat)
    | StoreFlushAwaits(flush: nat, canceled: bool)
    | StoreFlushReturns(flush: nat)

  /** What grouping hands over: at least one group, none of them empty, one for each shard at most. */
  ghost predicate GroupsOk<T>(groups: seq<Group<T>>) {
    && groups != []
    && (forall i :: 0 <= i < |groups| ==> groups[i].rows != [])
    && (forall i, j :: 0 <= i < j < |groups| ==> groups[i].shard != groups[j].shard)
  }

  /** A call is admitted when its context is live and every shard it needs has a batcher. */
  predicate Accepted<T>(s: Store<T>, groups: seq<Group<T>>, canceled: bool) {
    !canceled && forall i :: 0 <= i < |groups| ==> groups[i].shard < |s.shards|
  }

  ghost predicate StoreEnabled<T>(cfg: StoreConfig, s: Store<T>, e: StoreEvent<T>) {
    match e
    case ShardWorks(k, event) => k < |s.shards| && Drains(event) && Enabled(cfg.batch, s.shards[k], event)
    case CallArrives(groups, _) => s.holder.Nobody? && GroupsOk(groups)
    case GroupSubmitted =>
      && s.holder.Admitting? && |s.holder.ids| < |s.holder.groups|
      && s.holder.groups[|s.holder.ids|].shard < |s.shards|
      && Enabled(cfg.batch, s.shards[s.holder.groups[|s.holder.ids|].shard],
                 Submit(s.holder.groups[|s.holder.ids|].rows, cfg.coalesce))
    case CallAdmitted => s.holder.Admitting? && |s.holder.ids| == |s.holder.groups|
    case FlushArrives => s.holder.Nobody?
    case ShardFlushed(order) =>
      && s.holder.Flushing? && |s.holder.flushes| < |s.shards|
      && Enabled(cfg.batch, s.shards[|s.holder.flushes|], FlushStarts(order))
    case FlushStarted => s.holder.Flushing? && |s.holder.flushes| == |s.shards|
    case CallAwaits(c) =>
      && c < |s.calls| && s.calls[c].result.None? && s.calls[c].awaited < |s.calls[c].groups| == |s.calls[c].ids|
      && PartResolved(s, s.calls[c], s.calls[c].awaited)
    case CallReturns(c) => c < |s.calls| && s.calls[c].result.None? && s.calls[c].awaited == |s.calls[c].groups|
    case StoreFlushAwaits(f, canceled) =>
      && f < |s.flushes| && s.flushes[f].result.None? && s.flushes[f].awaited < |s.shards| == |s.flushes[f].flushes|
      && s.flushes[f].flushes[s.flushes[f].awaited] < |s.shards[s.flushes[f].awaited].flushes|
      && (canceled || s.shards[s.flushes[f].awaited].flushes[s.flushes[f].flushes[s.flushes[f].awaited]].result.Some?)
    case StoreFlushReturns(f) =>
      f < |s.flushes| && s.flushes[f].result.None? && s.flushes[f].awaited == |s.shards|
  }

  /** The future of the i-th part of a call is resolved. */
  predicate PartResolved<T>(s: Store<T>, call: Call<T>, i: nat)
    requires i < |call.groups| == |call.ids|
  {
    && call.groups[i].shard < |s.shards|
    && call.ids[i] < |s.shards[call.groups[i].shard].requests|
    && s.shards[call.groups[i].shard].requests[call.ids[i]].result.Some?
  }

  function AwaitPart<T>(s: Store<T>, call: Call<T>): Call<T>
    requires call.awaited < |call.groups| == |call.ids| && PartResolved(s, call, call.awaited)
  {
    var k := call.groups[call.awaited].shard;
    var outcome := s.shards[k].requests[call.ids[call.awaited]].result.value;
    if outcome.errs != [] then call.(awaited := call.awaited + 1, errs := call.errs + [ShardFailed(k, [outcome.errs])])
    else call.(awaited := call.awaited + 1, count := call.count + outcome.count)
  }

  /** One turn of the loop that awaits the shards' flushes: a finished one counts even when the wait was canceled; an
      error, or a canceled wait, ends the loop once the context is canceled. */
  function AwaitShardFlush<T>(s: Store<T>, flush: StoreFlush, canceled: bool): StoreFlush
    requires flush.awaited < |s.shards| == |flush.flushes|
    requires flush.flushes[flush.awaited] < |s.shards[flush.awaited].flushes|
  {
    var k := flush.awaited;
    var seen := flush.(canceled := flush.canceled || canceled);
    match s.shards[k].flushes[flush.flushes[k]].result
    case Some(errs) =>
      var errors := if errs != [] then flush.errs + [ShardFailed(k, errs)] else flush.errs;
      if errs != [] && canceled then seen.(errs := errors, result := Some(errors))
      else seen.(awaited := k + 1, errs := errors)
    case None =>
      var errors := flush.errs + [WaitCanceled(k)];
      if canceled then seen.(errs := errors, result := Some(errors)) else seen
  }

  function Finish<T>(call: Call<T>): Call<T> {
    call.(result := Some(if call.errs != [] then CallResult(0, call.errs) else CallResult(call.count, [])))
  }

  function StoreApply<T>(cfg: StoreConfig, s: Store<T>, e: StoreEvent<T>): Store<T>
    requires StoreEnabled(cfg, s, e)
  {
    match e
    case ShardWorks(k, event) => s.(shards := s.shards[k := Apply(cfg.batch, s.shards[k], event)])
    case CallArrives(groups, canceled) =>
      if Accepted(s, groups, canceled) then s.(holder := Admitting(groups, [])) else s
    case GroupSubmitted =>
      var Admitting(groups, ids) := s.holder;
      var k := groups[|ids|].shard;
      s.(shards := s.shards[k := Apply(cfg.batch, s.shards[k], Submit(groups[|ids|].rows, cfg.coalesce))],
         holder := Admitting(groups, ids + [|s.shards[k].requests|]))
    case CallAdmitted =>
      s.(calls := s.calls + [Call(s.holder.groups, s.holder.ids, 0, 0, [], None)], holder := Nobody)
    case FlushArrives => s.(holder := Flushing([]))
    case ShardFlushed(order) =>
      var k := |s.holder.flushes|;
      s.(shards := s.shards[k := Apply(cfg.batch, s.shards[k], FlushStarts(order))],
         holder := Flushing(s.holder.flushes + [|s.shards[k].flushes|]))
    case FlushStarted =>
      s.(flushes := s.flushes + [StoreFlush(|s.calls|, s.holder.flushes, 0, [], false, None)], holder := Nobody)
    case CallAwaits(c) => s.(calls := s.calls[c := AwaitPart(s, s.calls[c])])
    case CallReturns(c) => s.(calls := s.calls[c := Finish(s.calls[c])])
    case StoreFlushAwaits(f, canceled) => s.(flushes := s.flushes[f := AwaitShardFlush(s, s.flushes[f], canceled)])
    case StoreFlushReturns(f) => s.(flushes := s.flushes[f := s.flushes[f].(result := Some(s.flushes[f].errs))])
  }

  ghost predicate StorePossible<T>(cfg: StoreConfig, s: Store<T>, events: seq<StoreEvent<T>>)
    decreases |events|
  {
    events == [] || (StoreEnabled(cfg, s, events[0]) && StorePossible(cfg, StoreApply(cfg, s, events[0]), events[1..]))
  }

  function StoreAfter<T>(cfg: StoreConfig, s: Store<T>, events: seq<StoreEvent<T>>): Store<T>
    requires StorePossible(cfg, s, events)
    decreases |events|
  {
    if events == [] then s else StoreAfter(cfg, StoreApply(cfg, s, events[0]), events[1..])
  }

  function StoreInit<T>(shards: nat): Store<T> {
    Store(seq(shards, _ => Init<T>()), Nobody, [], [])
  }
}
