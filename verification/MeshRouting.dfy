/** Where keys go on an opened mesh. */
module MeshRouting {
  import opened Basics
  import opened MeshConfig
  import opened Mesh
  import opened OpenMesh
  import Grouping
  import Hashing

  /** Mapping `j` lists virtual shard `i`. */
  predicate Lists(config: Config, j: nat, i: nat) {
    j < |config.mappings| && i < config.shardCount && i in config.mappings[j].indexes
  }

  /** A hash resolves to the virtual shard of that number and to the main replica set of the mapping that lists it,
      wired with that set's own nodes. */
  lemma ResolvesToMain(config: Config, mesh: Mesh, j: nat, i: nat)
    requires Routes(config, mesh) && Lists(config, j, i)
    ensures Resolve(mesh, i).Ok? && Resolve(mesh, i).value.index == i
    ensures var main := config.mappings[j].main;
            var rs := Resolve(mesh, i).value.replicaSet;
            rs.name == main && WiredAs(config, rs, main, FirstMirrors(config.mappings, main))
  {
    hide FirstMirrors, PrimaryOf, ReplicasOf, WritersOf;
    var main := config.mappings[j].main;
    assert WiredAs(config, mesh.virtualShards[i], main, FirstMirrors(config.mappings, main));
  }

  /** On a mesh opened with a valid configuration a key is routed to a replica set if and only if a mapping of that set
      lists the key's hash, and it is routed nowhere if and only if its hash is out of range. */
  lemma RouteIffMapped<A>(config: Config, mesh: Mesh, hash: A -> nat, x: A, name: string)
    requires ValidConfig(config, true, true) && Routes(config, mesh)
    ensures Grouping.RouteOf(mesh, hash)(x) == Some(name)
      <==> exists j: nat :: Lists(config, j, hash(x)) && config.mappings[j].main == name
    ensures Grouping.RouteOf(mesh, hash)(x).None? <==> hash(x) >= config.shardCount
  {
    hide Routes, WiredAs, AllIndexes, MappingsOk, SpecsOk;
    var i := hash(x);
    forall j: nat | Lists(config, j, i) ensures Grouping.RouteOf(mesh, hash)(x) == Some(config.mappings[j].main) {
      ResolvesToMain(config, mesh, j, i);
    }
    assert |mesh.virtualShards| == config.shardCount by {
      SameSize(config, mesh);
    }
    if i < config.shardCount {
      var j := MappingOfIndex(config.mappings, i);
      assert Lists(config, j, i);
    }
  }

  lemma SameSize(config: Config, mesh: Mesh)
    requires Routes(config, mesh)
    ensures |mesh.virtualShards| == config.shardCount
  {
  }

  /** With the modulo hasher a key of any integer type goes to the main replica set of the mapping that lists its
      remainder. */
  lemma ModuloReachesMain(config: Config, mesh: Mesh, t: Hashing.KeyType, key: int, j: nat)
    requires Routes(config, mesh) && Hashing.Wide(t) && Hashing.InRange(t, key)
    requires 0 < config.shardCount < 0x1_0000_0000_0000_0000 && Lists(config, j, key % config.shardCount)
    ensures var r := Resolve(mesh, Hashing.ModuloHash(t, key, config.shardCount));
            r.Ok? && r.value.replicaSet.name == config.mappings[j].main
  {
    hide WiredAs;
    ResolvesToMain(config, mesh, j, key % config.shardCount);
  }
}
