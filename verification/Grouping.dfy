/** Synchronous COPY over several shards: rows grouped by physical shard, one COPY for each group. */
module Grouping {
  import opened Basics
  import opened Mesh

  datatype Group<A> = Group(name: string, items: seq<A>)

  /** The items routed to one replica set, in input order. */
  function Routed<A>(items: seq<A>, route: A -> Option<string>, name: string): seq<A> {
    Filter(items, (x: A) => route(x) == Some(name))
  }

  /** One group for each replica set that gets something, in the order of the replica sets. */
  function GroupsOf<A>(items: seq<A>, route: A -> Option<string>, order: seq<string>): seq<Group<A>> {
    if order == [] then []
    else
      var name := order[|order| - 1];
      var mine := Routed(items, route, name);
      GroupsOf(items, route, order[..|order| - 1]) + if mine != [] then [Group(name, mine)] else []
  }

  lemma RoutedNext<A>(items: seq<A>, k: nat, route: A -> Option<string>, name: string)
    requires k < |items|
    ensures Routed(items[..k + 1], route, name)
         == Routed(items[..k], route, name) + if route(items[k]) == Some(name) then [items[k]] else []
  {
    assert items[..k + 1][..k] == items[..k];
  }

  /** Those are exactly the items with that route, each once, in input order: `at` is where they stand. */
  lemma RoutedInOrder<A>(items: seq<A>, route: A -> Option<string>, name: string) returns (at: seq<nat>)
    ensures |at| == |Routed(items, route, name)| && forall i, j :: 0 <= i < j < |at| ==> at[i] < at[j]
    ensures forall j :: 0 <= j < |at| ==>
      at[j] < |items| && route(items[at[j]]) == Some(name) && Routed(items, route, name)[j] == items[at[j]]
    ensures forall i :: 0 <= i < |items| && route(items[i]) == Some(name) ==> i in at
  {
    at := FilterSelects(items, (x: A) => route(x) == Some(name));
  }

  ghost predicate AllRouted<A>(items: seq<A>, route: A -> Option<string>) {
    forall i :: 0 <= i < |items| ==> route(items[i]).Some?
  }

  ghost predicate FirstUnrouted<A>(items: seq<A>, route: A -> Option<string>, index: nat) {
    index < |items| && route(items[index]).None? && forall i :: 0 <= i < index ==> route(items[i]).Some?
  }

  ghost predicate Collected<A>(byName: map<string, seq<A>>, items: seq<A>, route: A -> Option<string>) {
    && (forall name | name in byName :: byName[name] != [] && byName[name] == Routed(items, route, name))
    && (forall name: string | name !in byName :: Routed(items, route, name) == [])
  }

  lemma CollectedNext<A>(byName: map<string, seq<A>>, items: seq<A>, k: nat, route: A -> Option<string>, target: string)
    requires k < |items| && Collected(byName, items[..k], route) && route(items[k]) == Some(target)
    ensures var mine := if target in byName then byName[target] else [];
            Collected(byName[target := mine + [items[k]]], items[..k + 1], route)
  {
    hide Routed;
    forall name: string
      ensures Routed(items[..k + 1], route, name)
           == Routed(items[..k], route, name) + if target == name then [items[k]] else []
    {
      RoutedNext(items, k, route, name);
    }
  }

  /** Collects the items of each replica set; a routing error names the first item that cannot be routed. */
  method CollectByName<A>(items: seq<A>, route: A -> Option<string>) returns (r: Result<map<string, seq<A>>, nat>)
    ensures r.Err? ==> FirstUnrouted(items, route, r.error)
    ensures r.Ok? ==> AllRouted(items, route) && Collected(r.value, items, route)
  {
    var byName: map<string, seq<A>> := map[];
    assert Collected(byName, items[..0], route);
    hide Collected;
    for k := 0 to |items|
      invariant AllRouted(items[..k], route)
      invariant Collected(byName, items[..k], route)
    {
      var target := route(items[k]);
      if target.None? {
        assert forall i :: 0 <= i < k ==> items[..k][i] == items[i];
        return Err(k);
      }
      CollectedNext(byName, items, k, route, target.value);
      var mine := if target.value in byName then byName[target.value] else [];
      byName := byName[target.value := mine + [items[k]]];
    }
    assert items[..|items|] == items;
    r := Ok(byName);
  }

  /** Groups the items by replica set, in the order of the replica sets. */
  method GroupItems<A>(items: seq<A>, route: A -> Option<string>, order: seq<string>)
    returns (r: Result<seq<Group<A>>, nat>)
    ensures r.Err? ==> FirstUnrouted(items, route, r.error)
    ensures r.Ok? ==> AllRouted(items, route) && r.value == GroupsOf(items, route, order)
  {
    hide Routed;
    var collected := CollectByName(items, route);
    if collected.Err? {
      return Err(collected.error);
    }
    var byName := collected.value;
    var groups: seq<Group<A>> := [];
    for k := 0 to |order|
      invariant groups == GroupsOf(items, route, order[..k])
    {
      assert order[..k + 1][..k] == order[..k];
      if order[k] in byName {
        groups := groups + [Group(order[k], byName[order[k]])];
      }
    }
    assert order[..|order|] == order;
    r := Ok(groups);
  }

  // Nothing is lost

  function Total<A>(groups: seq<Group<A>>): nat {
    if groups == [] then 0 else Total(groups[..|groups| - 1]) + |groups[|groups| - 1].items|
  }

  /** How many of the items go to one of the listed replica sets. */
  function Covered<A>(items: seq<A>, route: A -> Option<string>, order: seq<string>): nat {
    |Filter(items, (x: A) => route(x).Some? && route(x).value in order)|
  }

  lemma {:induction false} TotalIsCovered<A>(items: seq<A>, route: A -> Option<string>, order: seq<string>)
    requires Distinct(order)
    ensures Total(GroupsOf(items, route, order)) == Covered(items, route, order)
  {
    if order == [] {
      NoneCovered(items, route);
    } else {
      hide Routed, Covered;
      var init, name := order[..|order| - 1], order[|order| - 1];
      TotalIsCovered(items, route, init);
      CoveredNext(items, route, init, name);
      assert init + [name] == order;
      var g := Group(name, Routed(items, route, name));
      var groups := GroupsOf(items, route, init);
      if g.items == [] {
        assert GroupsOf(items, route, order) == groups;
      } else {
        assert GroupsOf(items, route, order)[..|groups|] == groups;
      }
    }
  }

  lemma {:induction false} NoneCovered<A>(items: seq<A>, route: A -> Option<string>)
    ensures Covered(items, route, []) == 0
  {
    if items != [] {
      NoneCovered(items[..|items| - 1], route);
    }
  }

  lemma {:induction false} CoveredNext<A>(items: seq<A>, route: A -> Option<string>, order: seq<string>, name: string)
    requires name !in order
    ensures Covered(items, route, order + [name]) == Covered(items, route, order) + |Routed(items, route, name)|
  {
    if items != [] {
      CoveredNext(items[..|items| - 1], route, order, name);
    }
  }

  lemma {:induction false} AllCovered<A>(items: seq<A>, route: A -> Option<string>, order: seq<string>)
    requires forall i :: 0 <= i < |items| ==> route(items[i]).Some? && route(items[i]).value in order
    ensures Covered(items, route, order) == |items|
  {
    if items != [] {
      AllCovered(items[..|items| - 1], route, order);
    }
  }

  lemma {:induction false} GroupMembers<A>(items: seq<A>, route: A -> Option<string>, order: seq<string>, i: nat)
    requires i < |GroupsOf(items, route, order)| && Distinct(order)
    ensures var g := GroupsOf(items, route, order)[i];
            g.name in order && g.items == Routed(items, route, g.name) != []
    ensures forall j :: 0 <= j < i ==> GroupsOf(items, route, order)[j].name != GroupsOf(items, route, order)[i].name
  {
    hide Routed;
    var init := order[..|order| - 1];
    var groups := GroupsOf(items, route, init);
    if i < |groups| {
      GroupMembers(items, route, init, i);
    } else {
      forall j | 0 <= j < i ensures groups[j].name != order[|order| - 1] {
        GroupMembers(items, route, init, j);
      }
    }
  }

  lemma {:induction false} RoutedMember<A>(items: seq<A>, route: A -> Option<string>, i: nat)
    requires i < |items| && route(items[i]).Some?
    ensures items[i] in Routed(items, route, route(items[i]).value)
  {
    if i < |items| - 1 {
      RoutedMember(items[..|items| - 1], route, i);
    }
  }

  lemma {:induction false} GroupFor<A>(items: seq<A>, route: A -> Option<string>, order: seq<string>, name: string)
    requires name in order && Routed(items, route, name) != []
    ensures exists g :: 0 <= g < |GroupsOf(items, route, order)| && GroupsOf(items, route, order)[g].name == name
  {
    hide Routed;
    var init := order[..|order| - 1];
    var groups := GroupsOf(items, route, init);
    if name in init {
      GroupFor(items, route, init, name);
      var g :| 0 <= g < |groups| && groups[g].name == name;
      assert GroupsOf(items, route, order)[g].name == name;
    } else {
      assert GroupsOf(items, route, order)[|groups|].name == name;
    }
  }

  function NamesOf<A>(groups: seq<Group<A>>): (names: seq<string>)
    ensures |names| == |groups|
  {
    seq(|groups|, i requires 0 <= i < |groups| => groups[i].name)
  }

  /** The groups are those of the replica sets that get something, in the order of the replica sets. */
  lemma {:induction false} GroupOrder<A>(items: seq<A>, route: A -> Option<string>, order: seq<string>)
    ensures NamesOf(GroupsOf(items, route, order)) == Filter(order, name => Routed(items, route, name) != [])
  {
    if order != [] {
      hide Routed;
      var init, name := order[..|order| - 1], order[|order| - 1];
      GroupOrder(items, route, init);
      var groups := GroupsOf(items, route, init);
      assert NamesOf(groups + [Group(name, Routed(items, route, name))]) == NamesOf(groups) + [name];
    }
  }

  /** Routing by hash on a built mesh. */
  function RouteOf<A>(mesh: Mesh, hash: A -> nat): A -> Option<string> {
    (x: A) => match Resolve(mesh, hash(x)) case Ok(shard) => Some(shard.replicaSet.name) case Err(_) => None
  }

  function SetNames(mesh: Mesh): (names: seq<string>)
    ensures |names| == |mesh.replicaSets|
  {
    seq(|mesh.replicaSets|, i requires 0 <= i < |mesh.replicaSets| => mesh.replicaSets[i].name)
  }

  /** Whatever is routed on a built mesh goes to a replica set that the mesh lists, under a name no other one has. */
  lemma RoutesToAReplicaSet<A>(mesh: Mesh, hash: A -> nat, x: A)
    requires MeshOk(mesh)
    ensures Distinct(SetNames(mesh))
    ensures RouteOf(mesh, hash)(x).Some? ==> RouteOf(mesh, hash)(x).value in SetNames(mesh)
  {
    NamesAreUnique(mesh);
    if RouteOf(mesh, hash)(x).Some? {
      var rs := Resolve(mesh, hash(x)).value.replicaSet;
      assert rs in mesh.virtualShards;
      var k :| 0 <= k < |mesh.replicaSets| && mesh.replicaSets[k] == rs;
      assert SetNames(mesh)[k] == rs.name;
    }
  }

  /** On a built mesh the groups partition the input: each is the in-order subsequence routed to its replica set, no two
      share a replica set, together they hold every item, and they stand in the order of the replica sets. */
  lemma GroupsPartition<A>(mesh: Mesh, hash: A -> nat, items: seq<A>)
    requires MeshOk(mesh) && AllRouted(items, RouteOf(mesh, hash))
    ensures var groups := GroupsOf(items, RouteOf(mesh, hash), SetNames(mesh));
            && Total(groups) == |items|
            && (forall i :: 0 <= i < |groups| ==>
                  groups[i].items == Routed(items, RouteOf(mesh, hash), groups[i].name) != [])
            && (forall i, j :: 0 <= j < i < |groups| ==> groups[j].name != groups[i].name)
            && (forall i :: 0 <= i < |items| ==> exists g :: 0 <= g < |groups| && items[i] in groups[g].items)
            && NamesOf(groups) == Filter(SetNames(mesh), name => Routed(items, RouteOf(mesh, hash), name) != [])
  {
    var route, order := RouteOf(mesh, hash), SetNames(mesh);
    NamesAreUnique(mesh);
    forall i | 0 <= i < |items| ensures route(items[i]).Some? && route(items[i]).value in order {
      RoutesToAReplicaSet(mesh, hash, items[i]);
    }
    TotalIsCovered(items, route, order);
    AllCovered(items, route, order);
    GroupOrder(items, route, order);
    hide GroupsOf, Routed;
    var groups := GroupsOf(items, route, order);
    forall i | 0 <= i < |items| ensures exists g :: 0 <= g < |groups| && items[i] in groups[g].items {
      RoutedMember(items, route, i);
      GroupFor(items, route, order, route(items[i]).value);
      var g :| 0 <= g < |groups| && groups[g].name == route(items[i]).value;
      GroupMembers(items, route, order, g);
    }
    forall i | 0 <= i < |groups| ensures groups[i].items == Routed(items, route, groups[i].name) != [] {
      GroupMembers(items, route, order, i);
    }
    forall i, j | 0 <= j < i < |groups| ensures groups[j].name != groups[i].name {
      GroupMembers(items, route, order, i);
    }
  }

  // Running the groups

  datatype CopyFailure = RouteFailed(index: nat) | CrossShardTransaction | ShardsFailed(groups: seq<nat>)

  datatype Reply = Reply(count: int, failed: bool)

  function CountOf(replies: seq<Reply>): int {
    if replies == [] then 0 else CountOf(replies[..|replies| - 1]) + replies[|replies| - 1].count
  }

  ghost predicate Increasing(xs: seq<nat>) {
    forall i, j :: 0 <= i < j < |xs| ==> xs[i] < xs[j]
  }

  function Replies<A>(groups: seq<Group<A>>, reply: Group<A> -> Reply): seq<Reply> {
    seq(|groups|, i requires 0 <= i < |groups| => reply(groups[i]))
  }

  /** The indices of the replies that failed, in increasing order. */
  method Failures(replies: seq<Reply>) returns (failed: seq<nat>)
    ensures forall i: nat :: i in failed <==> i < |replies| && replies[i].failed
    ensures Increasing(failed)
  {
    failed := [];
    for i := 0 to |replies|
      invariant Increasing(failed) && forall j :: 0 <= j < |failed| ==> failed[j] < i
      invariant forall j: nat :: j in failed <==> j < i && replies[j].failed
    {
      if replies[i].failed {
        failed := failed + [i];
      }
    }
  }

  /** What a grouped COPY reports: an unroutable item first, then a transaction over several shards, then the failing
      shards, and a count only when there is none of these. */
  ghost predicate Reported<A>(items: seq<A>, route: A -> Option<string>, inTransaction: bool, groups: seq<Group<A>>,
                              reply: Group<A> -> Reply, r: Result<int, CopyFailure>)
  {
    match r
    case Err(RouteFailed(index)) => FirstUnrouted(items, route, index)
    case Err(CrossShardTransaction) => AllRouted(items, route) && inTransaction && |groups| > 1
    case Err(ShardsFailed(failed)) =>
      && AllRouted(items, route) && (inTransaction ==> |groups| <= 1) && failed != []
      && Increasing(failed) && forall i: nat :: i in failed <==> i < |groups| && reply(groups[i]).failed
    case Ok(count) =>
      && AllRouted(items, route) && (inTransaction ==> |groups| <= 1)
      && (forall i :: 0 <= i < |groups| ==> !reply(groups[i]).failed)
      && count == CountOf(Replies(groups, reply))
  }

  /** Copies every group and adds up the counts, in whatever order the COPYs complete. */
  method CopyGroups<A>(items: seq<A>, route: A -> Option<string>, order: seq<string>, inTransaction: bool,
                       reply: Group<A> -> Reply, completion: seq<nat>)
    returns (r: Result<int, CopyFailure>)
    requires var n := |GroupsOf(items, route, order)|;
             (forall i :: 0 <= i < |completion| ==> completion[i] < n) && (forall i: nat | i < n :: i in completion)
    ensures Reported(items, route, inTransaction, GroupsOf(items, route, order), reply, r)
  {
    hide GroupsOf;
    var grouped := GroupItems(items, route, order);
    if grouped.Err? {
      return Err(RouteFailed(grouped.error));
    }
    var groups := grouped.value;
    if inTransaction && |groups| > 1 {
      return Err(CrossShardTransaction);
    }
    var zero := Reply(0, false);
    var replies := Gather(|groups|, completion, zero, (i: nat) => if i < |groups| then reply(groups[i]) else zero);
    assert replies == Replies(groups, reply);
    var failed := Failures(replies);
    if failed != [] {
      return Err(ShardsFailed(failed));
    }
    forall i | 0 <= i < |groups| ensures !reply(groups[i]).failed {
      assert replies[i] == reply(groups[i]) && i !in failed;
    }
    var count := 0;
    for i := 0 to |replies|
      invariant count == CountOf(replies[..i])
    {
      assert replies[..i + 1][..i] == replies[..i];
      count := count + replies[i].count;
    }
    assert replies[..|replies|] == replies;
    r := Ok(count);
  }

  // What the count is

  /** The count of a grouped COPY is the sum of the counts of its parts. */
  lemma {:induction false} CountsAdd(a: seq<Reply>, b: seq<Reply>)
    ensures CountOf(a + b) == CountOf(a) + CountOf(b)
    ensures forall x: Reply :: CountOf([x]) == x.count
  {
    assert forall x: Reply :: [x][..0] == [];
    if b == [] {
      assert a + b == a;
    } else {
      assert (a + b)[..|a + b| - 1] == a + b[..|b| - 1];
      CountsAdd(a, b[..|b| - 1]);
    }
  }

  lemma {:induction false} CountIsTotal<A>(groups: seq<Group<A>>, reply: Group<A> -> Reply)
    requires forall i :: 0 <= i < |groups| ==> reply(groups[i]).count == |groups[i].items|
    ensures CountOf(Replies(groups, reply)) == Total(groups)
  {
    if groups != [] {
      var init := groups[..|groups| - 1];
      CountIsTotal(init, reply);
      assert Replies(groups, reply)[..|init|] == Replies(init, reply);
    }
  }

  /** On a built mesh a grouped COPY of routable items whose COPYs all store what they are given reports the number of
      items, unless it is a transaction over several shards. */
  lemma CopiesEverything<A>(mesh: Mesh, hash: A -> nat, items: seq<A>, inTransaction: bool, reply: Group<A> -> Reply,
                            r: Result<int, CopyFailure>)
    requires MeshOk(mesh) && AllRouted(items, RouteOf(mesh, hash))
    requires var groups := GroupsOf(items, RouteOf(mesh, hash), SetNames(mesh));
             && Reported(items, RouteOf(mesh, hash), inTransaction, groups, reply, r)
             && forall i :: 0 <= i < |groups| ==> reply(groups[i]) == Reply(|groups[i].items|, false)
    ensures var groups := GroupsOf(items, RouteOf(mesh, hash), SetNames(mesh));
            r == if inTransaction && |groups| > 1 then Err(CrossShardTransaction) else Ok(|items|)
  {
    hide GroupsOf, Routed, RouteOf;
    var groups := GroupsOf(items, RouteOf(mesh, hash), SetNames(mesh));
    GroupsPartition(mesh, hash, items);
    CountIsTotal(groups, reply);
    HasMember(if r.Err? && r.error.ShardsFailed? then r.error.groups else []);
  }

  lemma HasMember(xs: seq<nat>)
    ensures xs != [] ==> exists i: nat :: i in xs
  {
    if xs != [] {
      assert xs[0] in xs;
    }
  }
}
