/** What a call adds to the shards: each of its groups exactly once, and nothing else. */
module StoreAdmission {
  import opened CopyProtocol
  import opened CopyInvariant
  import opened CopyAdmission
  import opened CopyOrder
  import opened CopySteps
  import opened StoreProtocol
  import opened StoreTheorems

  // Every request of a shard is one part of one call

  /** How often request `r` of shard `k` is named by these parts. */
  function Uses<T>(groups: seq<Group<T>>, ids: seq<nat>, k: nat, r: nat): nat {
    if ids == [] then 0
    else
      var n := |ids| - 1;
      Uses(groups, ids[..n], k, r) + if n < |groups| && groups[n].shard == k && ids[n] == r then 1 else 0
  }

  function CallUses<T>(calls: seq<Call<T>>, k: nat, r: nat): nat {
    if calls == [] then 0
    else
      var last := calls[|calls| - 1];
      CallUses(calls[..|calls| - 1], k, r) + Uses(last.groups, last.ids, k, r)
  }

  function HolderUses<T>(holder: Holder<T>, k: nat, r: nat): nat {
    match holder
    case Admitting(groups, ids) => Uses(groups, ids, k, r)
    case _ => 0
  }

  /** Each request of each shard belongs to exactly one group of exactly one call. */
  ghost predicate EachOnce<T>(s: Store<T>) {
    forall k: nat, r: nat | k < |s.shards| ::
      CallUses(s.calls, k, r) + HolderUses(s.holder, k, r) == if r < |s.shards[k].requests| then 1 else 0
  }

  lemma UsesNext<T>(groups: seq<Group<T>>, ids: seq<nat>, id: nat, k: nat, r: nat)
    requires |ids| < |groups|
    ensures Uses(groups, ids + [id], k, r)
         == Uses(groups, ids, k, r) + if groups[|ids|].shard == k && id == r then 1 else 0
  {
    assert (ids + [id])[..|ids|] == ids;
  }

  lemma {:induction false} SameCallUses<T>(calls: seq<Call<T>>, c: nat, call: Call<T>, k: nat, r: nat)
    requires c < |calls| && call.groups == calls[c].groups && call.ids == calls[c].ids
    ensures CallUses(calls[c := call], k, r) == CallUses(calls, k, r)
  {
    var n := |calls| - 1;
    if c < n {
      assert calls[c := call][..n] == calls[..n][c := call];
      SameCallUses(calls[..n], c, call, k, r);
    } else {
      assert calls[c := call][..n] == calls[..n];
    }
  }

  /** Nothing but a submission adds a request. */
  lemma SameRequests<T>(cfg: Config, s: State<T>, e: Event<T>)
    requires Inv(cfg, s) && Enabled(cfg, s, e) && !e.Submit?
    ensures |Apply(cfg, s, e).requests| == |s.requests|
  {
    hide Inv, Apply, Enabled;
    PartsKept(cfg, s, e);
  }

  lemma GroupSubmittedOnce<T>(cfg: StoreConfig, s: Store<T>)
    requires StoreInv(cfg, s) && EachOnce(s) && StoreEnabled(cfg, s, GroupSubmitted)
    ensures EachOnce(StoreApply(cfg, s, GroupSubmitted))
  {
    hide Inv, Apply, CallsOk, StoreFlushesOk, CallUses;
    var s' := StoreApply(cfg, s, GroupSubmitted);
    var Admitting(groups, ids) := s.holder;
    var k := groups[|ids|].shard;
    SubmittedPart(cfg, s.shards[k], groups[|ids|].rows);
    forall j: nat, r: nat | j < |s'.shards|
      ensures CallUses(s'.calls, j, r) + HolderUses(s'.holder, j, r) == if r < |s'.shards[j].requests| then 1 else 0
    {
      UsesNext(groups, ids, |s.shards[k].requests|, j, r);
      assert CallUses(s.calls, j, r) + HolderUses(s.holder, j, r) == if r < |s.shards[j].requests| then 1 else 0;
    }
  }

  lemma CallAdmittedOnce<T>(cfg: StoreConfig, s: Store<T>)
    requires EachOnce(s) && StoreEnabled(cfg, s, CallAdmitted)
    ensures EachOnce(StoreApply(cfg, s, CallAdmitted))
  {
    var s' := StoreApply(cfg, s, CallAdmitted);
    assert s'.calls[..|s.calls|] == s.calls;
    forall k: nat, r: nat | k < |s'.shards|
      ensures CallUses(s'.calls, k, r) + HolderUses(s'.holder, k, r) == if r < |s'.shards[k].requests| then 1 else 0
    {
      assert CallUses(s.calls, k, r) + HolderUses(s.holder, k, r) == if r < |s.shards[k].requests| then 1 else 0;
    }
  }

  /** Events that add no request and leave the parts of calls alone. */
  lemma OthersKeepOnce<T>(cfg: StoreConfig, s: Store<T>, e: StoreEvent<T>)
    requires StoreInv(cfg, s) && EachOnce(s) && StoreEnabled(cfg, s, e) && !e.GroupSubmitted? && !e.CallAdmitted?
    ensures EachOnce(StoreApply(cfg, s, e))
  {
    hide Inv, Apply, Enabled, CallsOk, StoreFlushesOk, HolderOk, CallUses, Uses;
    var s' := StoreApply(cfg, s, e);
    if e.ShardWorks? {
      SameRequests(cfg.batch, s.shards[e.shard], e.event);
    } else if e.ShardFlushed? {
      var k := |s.holder.flushes|;
      SameRequests(cfg.batch, s.shards[k], FlushStarts(e.order));
    }
    forall k: nat, r: nat | k < |s'.shards|
      ensures CallUses(s'.calls, k, r) + HolderUses(s'.holder, k, r) == if r < |s'.shards[k].requests| then 1 else 0
    {
      assert CallUses(s.calls, k, r) + HolderUses(s.holder, k, r) == if r < |s.shards[k].requests| then 1 else 0;
      if e.CallAwaits? || e.CallReturns? {
        SameCallUses(s.calls, e.call, s'.calls[e.call], k, r);
      }
      if e.CallArrives? {
        NoUses(e.groups, k, r);
      }
    }
  }

  lemma NoUses<T>(groups: seq<Group<T>>, k: nat, r: nat)
    ensures Uses(groups, [], k, r) == 0
  {
  }

  lemma {:induction false} RunKeepsOnce<T>(cfg: StoreConfig, s: Store<T>, events: seq<StoreEvent<T>>)
    requires StoreInv(cfg, s) && EachOnce(s) && StorePossible(cfg, s, events)
    ensures EachOnce(StoreAfter(cfg, s, events))
    decreases |events|
  {
    hide StoreInv, StoreEnabled, StoreApply, EachOnce;
    if events != [] {
      StoreEventKeepsInv(cfg, s, events[0]);
      if events[0].GroupSubmitted? {
        GroupSubmittedOnce(cfg, s);
      } else if events[0].CallAdmitted? {
        CallAdmittedOnce(cfg, s);
      } else {
        OthersKeepOnce(cfg, s, events[0]);
      }
      RunKeepsOnce(cfg, StoreApply(cfg, s, events[0]), events[1..]);
    }
  }

  /** In every reachable state each request of each shard is one group of one call, and of no other. */
  lemma EveryRequestIsOnePart<T(!new)>(cfg: StoreConfig, s: Store<T>, k: nat, r: nat)
    requires StoreReachable(cfg, s) && k < |s.shards|
    ensures CallUses(s.calls, k, r) + HolderUses(s.holder, k, r) == if r < |s.shards[k].requests| then 1 else 0
  {
    hide Inv;
    var n: nat := |s.shards|;
    var events: seq<StoreEvent<T>> :|
      StorePossible(cfg, StoreInit(n), events) && StoreAfter(cfg, StoreInit(n), events) == s;
    InitInv<T>(cfg.batch);
    RunKeepsOnce(cfg, StoreInit(n), events);
  }

  // How the shards grow while a call is admitted

  /** What a shard was given, in order. */
  function Inputs<T>(s: State<T>): (inputs: seq<(seq<T>, bool)>)
    ensures |inputs| == |s.requests|
  {
    seq(|s.requests|, i requires 0 <= i < |s.requests| => (s.requests[i].rows, s.requests[i].coalesced))
  }

  /** What these groups give to shard `k`. */
  function Given<T>(groups: seq<Group<T>>, k: nat, coalesce: bool): seq<(seq<T>, bool)> {
    if groups == [] then []
    else
      var last := groups[|groups| - 1];
      Given(groups[..|groups| - 1], k, coalesce) + if last.shard == k then [(last.rows, coalesce)] else []
  }

  lemma InputsKept<T>(cfg: Config, s: State<T>, e: Event<T>)
    requires Inv(cfg, s) && Enabled(cfg, s, e) && !e.Submit?
    ensures Inputs(Apply(cfg, s, e)) == Inputs(s)
  {
    hide Inv, Apply, Enabled;
    EventKeepsInv(cfg, s, e);
    SameRequests(cfg, s, e);
  }

  lemma InputsGrow<T>(cfg: StoreConfig, s: State<T>, rows: seq<T>)
    requires Inv(cfg.batch, s) && Enabled(cfg.batch, s, Submit(rows, cfg.coalesce))
    ensures Inputs(Apply(cfg.batch, s, Submit(rows, cfg.coalesce))) == Inputs(s) + [(rows, cfg.coalesce)]
  {
    hide Core, Schedule, AppendRows, ApplySubmit;
    var s' := ApplySubmit(cfg.batch, s, rows, cfg.coalesce);
    SubmitKeepsCore(cfg.batch, s, rows, cfg.coalesce);
    assert forall i :: 0 <= i < |s.requests| ==> s'.requests[i] == s'.requests[..|s.requests|][i];
  }

  /** The holder admits `groups`, and since `base` each shard was given exactly the groups submitted so far. */
  ghost predicate Grown<T>(cfg: StoreConfig, base: Store<T>, s: Store<T>, groups: seq<Group<T>>) {
    && s.holder.Admitting? && s.holder.groups == groups && |s.holder.ids| <= |groups|
    && |s.shards| == |base.shards|
    && forall k :: 0 <= k < |s.shards| ==>
         Inputs(s.shards[k]) == Inputs(base.shards[k]) + Given(groups[..|s.holder.ids|], k, cfg.coalesce)
  }

  lemma SubmissionGrows<T>(cfg: StoreConfig, base: Store<T>, s: Store<T>, groups: seq<Group<T>>)
    requires StoreInv(cfg, s) && Grown(cfg, base, s, groups) && StoreEnabled(cfg, s, GroupSubmitted)
    ensures Grown(cfg, base, StoreApply(cfg, s, GroupSubmitted), groups)
  {
    hide Inv, Apply, CallsOk, StoreFlushesOk, Inputs;
    var s', n := StoreApply(cfg, s, GroupSubmitted), |s.holder.ids|;
    var k := groups[n].shard;
    InputsGrow(cfg, s.shards[k], groups[n].rows);
    assert groups[..n + 1][..n] == groups[..n];
    forall j | 0 <= j < |s'.shards|
      ensures Inputs(s'.shards[j]) == Inputs(base.shards[j]) + Given(groups[..n + 1], j, cfg.coalesce)
    {
      assert Inputs(s.shards[j]) == Inputs(base.shards[j]) + Given(groups[..n], j, cfg.coalesce);
    }
  }

  /** Whatever else happens while the lock is held adds nothing to any shard. */
  lemma OthersDoNotGrow<T>(cfg: StoreConfig, base: Store<T>, s: Store<T>, groups: seq<Group<T>>, e: StoreEvent<T>)
    requires StoreInv(cfg, s) && Grown(cfg, base, s, groups)
    requires StoreEnabled(cfg, s, e) && !e.GroupSubmitted? && !e.CallAdmitted?
    ensures Grown(cfg, base, StoreApply(cfg, s, e), groups)
  {
    hide Inv, Apply, Enabled, CallsOk, StoreFlushesOk, HolderOk, Inputs, Given;
    var s' := StoreApply(cfg, s, e);
    if e.ShardWorks? {
      InputsKept(cfg.batch, s.shards[e.shard], e.event);
    }
    forall k | 0 <= k < |s'.shards|
      ensures Inputs(s'.shards[k]) == Inputs(base.shards[k]) + Given(groups[..|s.holder.ids|], k, cfg.coalesce)
    {
      assert Inputs(s.shards[k]) == Inputs(base.shards[k]) + Given(groups[..|s.holder.ids|], k, cfg.coalesce);
    }
  }

  lemma {:induction false} RunGrows<T>(cfg: StoreConfig, base: Store<T>, s: Store<T>, groups: seq<Group<T>>,
                                       events: seq<StoreEvent<T>>)
    requires StoreInv(cfg, s) && Grown(cfg, base, s, groups) && StorePossible(cfg, s, events)
    requires forall i :: 0 <= i < |events| ==> !events[i].CallAdmitted?
    ensures Grown(cfg, base, StoreAfter(cfg, s, events), groups)
    decreases |events|
  {
    hide StoreInv, StoreEnabled, StoreApply, Grown;
    if events != [] {
      StoreEventKeepsInv(cfg, s, events[0]);
      if events[0].GroupSubmitted? {
        SubmissionGrows(cfg, base, s, groups);
      } else {
        OthersDoNotGrow(cfg, base, s, groups, events[0]);
      }
      RunGrows(cfg, base, StoreApply(cfg, s, events[0]), groups, events[1..]);
    }
  }

  lemma {:induction false} NotGiven<T>(groups: seq<Group<T>>, k: nat, coalesce: bool)
    requires forall i :: 0 <= i < |groups| ==> groups[i].shard != k
    ensures Given(groups, k, coalesce) == []
  {
    if groups != [] {
      NotGiven(groups[..|groups| - 1], k, coalesce);
    }
  }

  lemma {:induction false} GivenOnce<T>(groups: seq<Group<T>>, i: nat, coalesce: bool)
    requires i < |groups| && forall a, b :: 0 <= a < b < |groups| ==> groups[a].shard != groups[b].shard
    ensures Given(groups, groups[i].shard, coalesce) == [(groups[i].rows, coalesce)]
  {
    var n := |groups| - 1;
    if i < n {
      GivenOnce(groups[..n], i, coalesce);
    } else {
      NotGiven(groups[..n], groups[i].shard, coalesce);
    }
  }

  /** Admission is all or nothing. A call is accepted if and only if its context is live and every shard it needs has a
      batcher; one that is not accepted changes nothing. From the moment an accepted call holds
      the lock, whatever workers, timers, calls and flushes do meanwhile, each shard is given exactly the groups
      submitted so far; and when the lock is released each shard the call names has got its group, once, and every other
      shard nothing. */
  lemma AdmissionIsAllOrNothing<T(!new)>(cfg: StoreConfig, s: Store<T>, groups: seq<Group<T>>, canceled: bool,
                                         events: seq<StoreEvent<T>>)
    requires StoreReachable(cfg, s) && StoreEnabled(cfg, s, CallArrives(groups, canceled))
    requires StorePossible(cfg, StoreApply(cfg, s, CallArrives(groups, canceled)), events)
    requires forall i :: 0 <= i < |events| ==> !events[i].CallAdmitted?
    ensures Accepted(s, groups, canceled)
      <==> !canceled && forall i :: 0 <= i < |groups| ==> groups[i].shard < |s.shards|
    ensures !Accepted(s, groups, canceled) ==> StoreApply(cfg, s, CallArrives(groups, canceled)) == s
    ensures Accepted(s, groups, canceled) ==>
              var s' := StoreAfter(cfg, StoreApply(cfg, s, CallArrives(groups, canceled)), events);
              && Grown(cfg, s, s', groups)
              && (StoreEnabled(cfg, s', CallAdmitted) ==> Admitted(cfg, s, StoreApply(cfg, s', CallAdmitted), groups))
  {
    AcceptedIff(s, groups, canceled);
    hide Grown, Admitted, StoreInv, StoreEnabled, StoreApply, Accepted;
    var e := CallArrives(groups, canceled);
    StoreReachableInv(cfg, s);
    ArrivalGrown(cfg, s, groups, canceled);
    if Accepted(s, groups, canceled) {
      var s1 := StoreApply(cfg, s, e);
      StoreEventKeepsInv(cfg, s, e);
      RunGrows(cfg, s, s1, groups, events);
      var s' := StoreAfter(cfg, s1, events);
      if StoreEnabled(cfg, s', CallAdmitted) {
        ReleasedGrown(cfg, s, s', groups);
      }
    }
  }

  lemma AcceptedIff<T>(s: Store<T>, groups: seq<Group<T>>, canceled: bool)
    ensures Accepted(s, groups, canceled)
      <==> !canceled && forall i :: 0 <= i < |groups| ==> groups[i].shard < |s.shards|
  {
  }

  lemma ArrivalGrown<T>(cfg: StoreConfig, s: Store<T>, groups: seq<Group<T>>, canceled: bool)
    requires StoreEnabled(cfg, s, CallArrives(groups, canceled))
    ensures GroupsOk(groups)
    ensures !Accepted(s, groups, canceled) ==> StoreApply(cfg, s, CallArrives(groups, canceled)) == s
    ensures Accepted(s, groups, canceled) ==>
      Accepted(s, groups, false) && Grown(cfg, s, StoreApply(cfg, s, CallArrives(groups, canceled)), groups)
  {
    hide Inputs;
    assert groups[..0] == [];
  }

  /** The newest call is this one, and since `base` it added exactly its groups. */
  ghost predicate Admitted<T>(cfg: StoreConfig, base: Store<T>, s: Store<T>, groups: seq<Group<T>>) {
    && s.holder.Nobody? && s.calls != [] && s.calls[|s.calls| - 1].groups == groups
    && |s.shards| == |base.shards|
    && (forall i :: 0 <= i < |groups| ==>
          && groups[i].shard < |s.shards|
          && Inputs(s.shards[groups[i].shard])
             == Inputs(base.shards[groups[i].shard]) + [(groups[i].rows, cfg.coalesce)])
    && (forall k :: 0 <= k < |s.shards| && (forall i :: 0 <= i < |groups| ==> groups[i].shard != k) ==>
          Inputs(s.shards[k]) == Inputs(base.shards[k]))
  }

  lemma ReleasedGrown<T>(cfg: StoreConfig, base: Store<T>, s: Store<T>, groups: seq<Group<T>>)
    requires Grown(cfg, base, s, groups) && StoreEnabled(cfg, s, CallAdmitted) && Accepted(base, groups, false)
    requires GroupsOk(groups)
    ensures Admitted(cfg, base, StoreApply(cfg, s, CallAdmitted), groups)
  {
    hide Inputs, Given;
    assert groups[..|groups|] == groups;
    forall i | 0 <= i < |groups|
      ensures Inputs(s.shards[groups[i].shard])
           == Inputs(base.shards[groups[i].shard]) + [(groups[i].rows, cfg.coalesce)]
    {
      GivenOnce(groups, i, cfg.coalesce);
    }
    forall k | 0 <= k < |s.shards| && forall i :: 0 <= i < |groups| ==> groups[i].shard != k
      ensures Inputs(s.shards[k]) == Inputs(base.shards[k])
    {
      NotGiven(groups, k, cfg.coalesce);
    }
  }
}
