/** Where the reads of an opened mesh go. */
module ReadPath {
  import opened Arithmetic
  import opened Basics
  import opened MeshConfig
  import opened RoundRobin
  import opened Mesh
  import opened OpenMesh

  /** The nodes a named replica set reads from. */
  function ReadNodes(specs: seq<ReplicaSetSpec>, main: string): (nodes: seq<nat>)
    requires main in Names(specs)
    ensures nodes != [] && Distinct(nodes)
  {
    if ReplicasOf(specs, main) == [] then [PrimaryOf(specs, main)] else ReplicasOf(specs, main)
  }

  /** The nodes of the first `m` reads after the counter stood at `start`. */
  function Reads(nodes: seq<nat>, start: nat, m: nat): seq<nat>
    requires nodes != []
  {
    if m == 0 then [] else Reads(nodes, start, m - 1) + [nodes[Picked(start, m - 1, |nodes|)]]
  }

  lemma CounterNext(x: nat)
    ensures (x % TWO_64 + 1) % TWO_64 == (x + 1) % TWO_64 && x % TWO_64 % TWO_64 == x % TWO_64
  {
    Division(x, TWO_64);
    var q, r := x / TWO_64, x % TWO_64;
    if r + 1 < TWO_64 {
      Remainder(x + 1, q, TWO_64, r + 1);
    } else {
      Remainder(x + 1, q + 1, TWO_64, 0);
    }
  }

  /** A read on a wired replica set goes to the next of its own nodes in turn: it extends the first `k` reads since the
      counter stood at `start` to the first `k + 1`. */
  method ReadOnShard(config: Config, rs: ReplicaSet, ghost main: string, ghost mirrors: seq<string>,
                     ghost start: nat, ghost k: nat)
    returns (target: ReadTarget)
    requires WiredAs(config, rs, main, mirrors) && rs.readTargets.next == (start + k) % TWO_64
    modifies rs.readTargets`next
    ensures rs.readTargets.next == (start + k + 1) % TWO_64
    ensures var nodes := ReadNodes(config.replicaSets, main);
            Reads(nodes, start, k + 1) == Reads(nodes, start, k) + [target.node]
    ensures target.Primary? <==> ReplicasOf(config.replicaSets, main) == []
  {
    hide PrimaryOf;
    CounterNext(start + k);
    target := rs.SelectRead();
  }

  lemma {:induction false} ReadsOfTarget(nodes: seq<nat>, start: nat, m: nat, t: nat)
    requires Distinct(nodes) && t < |nodes|
    ensures |Reads(nodes, start, m)| == m
    ensures multiset(Reads(nodes, start, m))[nodes[t]] == Served(start, m, |nodes|, t)
  {
    if m > 0 {
      ReadsOfTarget(nodes, start, m - 1, t);
    }
  }

  lemma {:induction false} ReadsStay(nodes: seq<nat>, start: nat, m: nat)
    requires nodes != []
    ensures forall node | node in Reads(nodes, start, m) :: node in nodes
  {
    if m > 0 {
      ReadsStay(nodes, start, m - 1);
    }
  }

  function NodesOf(targets: seq<ReadTarget>): (nodes: seq<nat>)
    ensures |nodes| == |targets|
  {
    seq(|targets|, i requires 0 <= i < |targets| => targets[i].node)
  }

  /** The picks are all among `nodes`, and each of these gets the floor or the ceiling of its share. */
  ghost predicate Spread(picks: seq<nat>, nodes: seq<nat>)
    requires nodes != []
  {
    && (forall node | node in picks :: node in nodes)
    && forall node | node in nodes ::
         |picks| / |nodes| <= multiset(picks)[node] <= (|picks| + |nodes| - 1) / |nodes|
  }

  lemma ReadsSpread(nodes: seq<nat>, start: nat, m: nat)
    requires nodes != [] && Distinct(nodes) && start + m <= TWO_64
    ensures |Reads(nodes, start, m)| == m && Spread(Reads(nodes, start, m), nodes)
  {
    hide Reads, Served;
    var n, picks := |nodes|, Reads(nodes, start, m);
    ReadsStay(nodes, start, m);
    ReadsOfTarget(nodes, start, m, 0);
    FairBelowTheWrap(start, m, n);
    forall node | node in nodes ensures m / n <= multiset(picks)[node] <= (m + n - 1) / n {
      var t: nat :| t < n && nodes[t] == node;
      ReadsOfTarget(nodes, start, m, t);
    }
  }

  /** Any run of reads on a virtual shard of an opened mesh that does not cross the wrap-around of its counter goes to
      the replicas of the shard's own main replica set, each of which serves the floor or the ceiling of its share; if
      it has no replicas, all of them go to its primary. */
  lemma ReadsRotate(config: Config, mesh: Mesh, j: nat, i: nat, start: nat, m: nat)
    requires Routes(config, mesh) && start + m <= TWO_64
    requires j < |config.mappings| && i < config.shardCount && i in config.mappings[j].indexes
    ensures config.mappings[j].main in Names(config.replicaSets)
    ensures var nodes := ReadNodes(config.replicaSets, config.mappings[j].main);
            && NodesOf(mesh.virtualShards[i].readTargets.items) == nodes
            && |Reads(nodes, start, m)| == m && Spread(Reads(nodes, start, m), nodes)
  {
    hide FirstMirrors, PrimaryOf, Reads, Spread;
    var main := config.mappings[j].main;
    assert WiredAs(config, mesh.virtualShards[i], main, FirstMirrors(config.mappings, main));
    ReadsSpread(ReadNodes(config.replicaSets, main), start, m);
  }

  /** No node is read by two replica sets, and a primary is read only by its own set and only if that has no
      replicas. */
  lemma ReadNodesAreOwn(specs: seq<ReplicaSetSpec>, main: string, other: string)
    requires main in Names(specs) && other in Names(specs)
    ensures main != other ==> forall node | node in ReadNodes(specs, main) :: node !in ReadNodes(specs, other)
    ensures PrimaryOf(specs, other) in ReadNodes(specs, main) <==> main == other && ReplicasOf(specs, main) == []
  {
    var i, j := IndexOf(Names(specs), main), IndexOf(Names(specs), other);
    hide PrimaryNode;
    if i < j {
      AllDSNsGrow(specs, i, j);
    } else if j < i {
      AllDSNsGrow(specs, j, i);
    }
  }
}
