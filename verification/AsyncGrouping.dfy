/** Asynchronous COPY: the rows of one call, grouped by shard, admitted to the batchers and counted. */
module AsyncGrouping {
  import opened Basics
  import opened Grouping
  import opened Mesh
  import S = StoreProtocol
  import ST = StoreTheorems

  /** The groups of a call, each with the position of its shard among the replica sets. */
  function ShardGroups<A>(items: seq<A>, route: A -> Option<string>, order: seq<string>): seq<S.Group<A>> {
    if order == [] then []
    else
      var mine := Routed(items, route, order[|order| - 1]);
      ShardGroups(items, route, order[..|order| - 1]) + if mine != [] then [S.Group(|order| - 1, mine)] else []
  }

  ghost predicate Same<A>(a: S.Group<A>, g: Group<A>, order: seq<string>) {
    a.shard < |order| && order[a.shard] == g.name && a.rows == g.items
  }

  lemma {:induction false} SameGroups<A>(items: seq<A>, route: A -> Option<string>, order: seq<string>)
    ensures var shards, groups := ShardGroups(items, route, order), GroupsOf(items, route, order);
            |shards| == |groups| && forall i :: 0 <= i < |groups| ==> Same(shards[i], groups[i], order)
  {
    hide Routed;
    if order != [] {
      var init := order[..|order| - 1];
      SameGroups(items, route, init);
      var shards, groups := ShardGroups(items, route, init), GroupsOf(items, route, init);
      forall i | 0 <= i < |groups| ensures Same(shards[i], groups[i], order) {
        assert Same(shards[i], groups[i], init);
      }
    }
  }

  lemma {:induction false} SameTotals<A>(shards: seq<S.Group<A>>, groups: seq<Group<A>>, order: seq<string>)
    requires |shards| == |groups| && forall i :: 0 <= i < |groups| ==> Same(shards[i], groups[i], order)
    ensures ST.RowTotal(shards) == Total(groups)
  {
    if shards != [] {
      SameTotals(shards[..|shards| - 1], groups[..|groups| - 1], order);
      assert Same(shards[|shards| - 1], groups[|groups| - 1], order);
    }
  }

  /** On a built mesh every non-empty call can arrive at the store, with all its rows, and one batcher for each group:
      that of the replica set its rows are routed to. */
  lemma CallCanArrive<A>(mesh: Mesh, hash: A -> nat, items: seq<A>)
    requires MeshOk(mesh) && items != [] && AllRouted(items, RouteOf(mesh, hash))
    ensures var groups := ShardGroups(items, RouteOf(mesh, hash), SetNames(mesh));
            && S.GroupsOk(groups)
            && (forall i :: 0 <= i < |groups| ==>
                  && groups[i].shard < |mesh.replicaSets|
                  && groups[i].rows == Routed(items, RouteOf(mesh, hash), mesh.replicaSets[groups[i].shard].name))
            && ST.RowTotal(groups) == |items|
  {
    hide Routed, GroupsOf, ShardGroups, RouteOf, ST.RowTotal, Total;
    var route, order := RouteOf(mesh, hash), SetNames(mesh);
    var shards, groups := ShardGroups(items, route, order), GroupsOf(items, route, order);
    SameGroups(items, route, order);
    SameTotals(shards, groups, order);
    GroupsPartition(mesh, hash, items);
    RoutesToAReplicaSet(mesh, hash, items[0]);
    forall i | 0 <= i < |shards|
      ensures shards[i].rows != [] && shards[i].shard < |mesh.replicaSets|
      ensures shards[i].rows == Routed(items, route, mesh.replicaSets[shards[i].shard].name)
    {
      assert Same(shards[i], groups[i], order);
    }
    forall i, j | 0 <= i < j < |shards| ensures shards[i].shard != shards[j].shard {
      assert Same(shards[i], groups[i], order) && Same(shards[j], groups[j], order);
    }
    var g := FirstGroup(items, route, order);
  }

  /** The group that holds the first item. */
  lemma FirstGroup<A>(items: seq<A>, route: A -> Option<string>, order: seq<string>) returns (g: nat)
    requires items != [] && route(items[0]).Some? && route(items[0]).value in order
    ensures g < |GroupsOf(items, route, order)|
  {
    var name := route(items[0]).value;
    RoutedMember(items, route, 0);
    hide GroupsOf, Routed;
    GroupFor(items, route, order, name);
    g :| 0 <= g < |GroupsOf(items, route, order)| && GroupsOf(items, route, order)[g].name == name;
  }

  /** A store has one batcher for each replica set of its mesh, so on a built mesh a routable call whose context is live
      is always accepted. */
  lemma CallIsAccepted<A(!new)>(cfg: S.StoreConfig, s: S.Store<A>, mesh: Mesh, hash: A -> nat, items: seq<A>)
    requires ST.StoreReachableWith(cfg, |mesh.replicaSets|, s)
    requires MeshOk(mesh) && items != [] && AllRouted(items, RouteOf(mesh, hash))
    ensures var groups := ShardGroups(items, RouteOf(mesh, hash), SetNames(mesh));
            && S.Accepted(s, groups, false)
            && (s.holder.Nobody? ==> S.StoreEnabled(cfg, s, S.CallArrives(groups, false)))
  {
    hide RouteOf, ShardGroups;
    ST.ShardsStay(cfg, |mesh.replicaSets|, s);
    CallCanArrive(mesh, hash, items);
  }

  /** End to end: in every run, a resolved call reports as many rows as it was given, or zero and the failures. */
  lemma CallCountsItsInput<A(!new)>(cfg: S.StoreConfig, s: S.Store<A>, c: nat, mesh: Mesh,
                                    hash: A -> nat, items: seq<A>)
    requires ST.StoreReachable(cfg, s) && c < |s.calls| && s.calls[c].result.Some?
    requires MeshOk(mesh) && AllRouted(items, RouteOf(mesh, hash))
    requires s.calls[c].groups == ShardGroups(items, RouteOf(mesh, hash), SetNames(mesh))
    ensures var r := s.calls[c].result.value;
            r.count == if r.errs == [] then |items| else 0
  {
    hide Routed, GroupsOf, ShardGroups, RouteOf, ST.RowTotal, Total, ST.StoreReachable, ST.PartSucceeded;
    var route, order := RouteOf(mesh, hash), SetNames(mesh);
    SameGroups(items, route, order);
    SameTotals(ShardGroups(items, route, order), GroupsOf(items, route, order), order);
    GroupsPartition(mesh, hash, items);
    ST.CallYieldsAllRows(cfg, s, c);
  }
}
