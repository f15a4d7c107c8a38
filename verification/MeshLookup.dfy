/** The grouped lookup on a built mesh. */
module MeshLookup {
  import opened Basics
  import opened GroupedLookup
  import opened Mesh
  import Grouping

  /** No item is nil and every tenant key hashes to a virtual shard. */
  ghost predicate Routable<K>(mesh: Mesh, hash: int -> nat, items: seq<Option<Item<K>>>) {
    forall i :: 0 <= i < |items| ==> items[i].Some? && hash(items[i].value.tenantKey) < |mesh.virtualShards|
  }

  lemma RoutableIsUsable<K>(mesh: Mesh, hash: int -> nat, items: seq<Option<Item<K>>>)
    ensures Routable(mesh, hash, items) <==> Usable(items, Grouping.RouteOf(mesh, hash))
  {
  }

  /** What the lookup needs of its routes holds on every built mesh. */
  lemma RoutesAreListed(mesh: Mesh, hash: int -> nat)
    requires MeshOk(mesh)
    ensures var route, order := Grouping.RouteOf(mesh, hash), Grouping.SetNames(mesh);
            Distinct(order) && forall tenantKey :: route(tenantKey).Some? ==> route(tenantKey).value in order
  {
    forall tenantKey: int
      ensures Distinct(Grouping.SetNames(mesh))
      ensures Grouping.RouteOf(mesh, hash)(tenantKey).Some? ==>
                Grouping.RouteOf(mesh, hash)(tenantKey).value in Grouping.SetNames(mesh)
    {
      Grouping.RoutesToAReplicaSet(mesh, hash, tenantKey);
    }
    Grouping.RoutesToAReplicaSet(mesh, hash, 0);
  }

  /** The distinct (replica set, key) pairs of a request on this mesh. */
  ghost function AskedOn<K>(mesh: Mesh, hash: int -> nat, items: seq<Option<Item<K>>>): seq<Pair<K>>
    requires Routable(mesh, hash, items)
  {
    RoutableIsUsable(mesh, hash, items);
    Asked(items, Grouping.RouteOf(mesh, hash))
  }

  /** On a built mesh a request fails for its items exactly when it is not routable; a successful lookup returns every
      row of every replica set exactly as often as it came back; and when the queries filter by key, the lookup is the
      one-key lookups of the distinct pairs, in first-occurrence order. */
  method LookupOnMesh<K(==,!new), R(!new)>(mesh: Mesh, hash: int -> nat, items: seq<Option<Item<K>>>,
                                           inTransaction: bool, query: (string, seq<K>) -> Reply<R>,
                                           rowKey: R -> K, completion: seq<nat>)
    returns (r: Result<seq<R>, LookupFailure>)
    requires MeshOk(mesh)
    requires Routable(mesh, hash, items) ==>
               var n := |Names(AskedOn(mesh, hash, items), Grouping.SetNames(mesh))|;
               (forall i :: 0 <= i < |completion| ==> completion[i] < n) && (forall i: nat | i < n :: i in completion)
    ensures Routable(mesh, hash, items) <==> !(r.Err? && (r.error.NilItem? || r.error.RouteFailed?))
    ensures r.Ok? ==> Routable(mesh, hash, items)
    ensures r.Ok? ==>
              var pairs := AskedOn(mesh, hash, items);
              forall row ::
                Count(r.value, row) == Sum(Names(pairs, Grouping.SetNames(mesh)), Weight(Answer(pairs, query), row))
    ensures Routable(mesh, hash, items) && FiltersByKey(query, rowKey) ==>
              var pairs := AskedOn(mesh, hash, items);
              r == if inTransaction && |Names(pairs, Grouping.SetNames(mesh))| > 1 then Err(CrossShardTransaction)
                   else Ok(OneByOne(pairs, query))
  {
    var route, order := Grouping.RouteOf(mesh, hash), Grouping.SetNames(mesh);
    RoutableIsUsable(mesh, hash, items);
    RoutesAreListed(mesh, hash);
    hide Usable, Names, Routable, Grouping.RouteOf, Grouping.SetNames, Restored, OneByOne, FiltersByKey, Sum, Asked,
      Clean;
    r := Lookup(items, route, order, inTransaction, query, rowKey, completion);
    if r.Ok? {
      forall row
        ensures Count(r.value, row)
             == Sum(Names(Asked(items, route), order), Weight(Answer(Asked(items, route), query), row))
      {
        NoRowLostOrDuplicated(items, route, order, inTransaction, query, rowKey, r, row);
      }
    }
    if Routable(mesh, hash, items) && FiltersByKey(query, rowKey) {
      RefinesOneByOne(items, route, order, inTransaction, query, rowKey, r);
    }
  }
}
