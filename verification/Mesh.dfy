/** Replica sets, the fluent mesh builder and the immutable mesh it produces. */
module Mesh {
  import opened Arithmetic
  import opened Basics
  import opened MeshConfig
  import opened RoundRobin
  import opened WriteMirrors
  import opened Text

  /** A node that reads can go to: the primary or the replica of a given number. */
  datatype ReadTarget = Primary(node: nat) | Replica(node: nat, index: nat)

  /** The replicas in order, or the primary if there are none. */
  function ReadTargets(primary: nat, replicas: seq<nat>): (targets: seq<ReadTarget>)
    ensures targets != []
  {
    if replicas == [] then [Primary(primary)]
    else seq(|replicas|, i requires 0 <= i < |replicas| => Replica(replicas[i], i))
  }

  method NewReadTargets(primary: nat, replicas: seq<nat>) returns (targets: seq<ReadTarget>)
    ensures targets == ReadTargets(primary, replicas)
  {
    targets := [];
    if replicas == [] {
      targets := [Primary(primary)];
    } else {
      for index := 0 to |replicas|
        invariant targets == ReadTargets(primary, replicas)[..index]
      {
        targets := targets + [Replica(replicas[index], index)];
      }
    }
  }

  /** One physical shard. Only the read counter ever changes; two replica sets are the same only if they are the same
      object. */
  class ReplicaSet {
    const name: string
    const primary: Writer
    const readTargets: Balancer<ReadTarget>
    const writeMirrors: seq<Writer>

    constructor (name: string, primary: Writer, replicas: seq<nat>)
      ensures this.name == name && this.primary == primary && writeMirrors == []
      ensures fresh(readTargets) && readTargets.items == ReadTargets(primary.main, replicas) && readTargets.next == 0
    {
      var targets := NewReadTargets(primary.main, replicas);
      this.name, this.primary, writeMirrors := name, primary, [];
      readTargets := new Balancer(targets);
    }

    constructor Mirrored(main: ReplicaSet, mirrors: seq<Writer>)
      ensures name == main.name && primary == main.primary && readTargets == main.readTargets
      ensures writeMirrors == main.writeMirrors + mirrors
    {
      name, primary, readTargets := main.name, main.primary, main.readTargets;
      writeMirrors := main.writeMirrors + mirrors;
    }

    /** A copy whose writes are also sent to `mirrors`; the receiver is unchanged and shares its read counter. */
    method WithWriteMirrors(mirrors: seq<Writer>) returns (copy: ReplicaSet)
      ensures fresh(copy) && copy.name == name && copy.primary == primary && copy.readTargets == readTargets
      ensures copy.writeMirrors == writeMirrors + mirrors
    {
      copy := new ReplicaSet.Mirrored(this, mirrors);
    }

    /** The next read target in turn. */
    method SelectRead() returns (target: ReadTarget)
      requires readTargets.Valid()
      modifies readTargets`next
      ensures readTargets.next == (old(readTargets.next) + 1) % TWO_64
      ensures target == readTargets.items[Picked(old(readTargets.next), 0, |readTargets.items|)]
    {
      target := readTargets.NextItem();
    }

    /** The primary's writer with the configured mirrors attached. */
    method SelectWrite() returns (target: Writer)
      ensures Targets(target) == Targets(primary) + Reached(Present(writeMirrors))
    {
      target := WithMirrors(primary, Present(writeMirrors));
    }
  }

  // The mesh

  datatype Mesh = Mesh(virtualShards: seq<ReplicaSet>, replicaSets: seq<ReplicaSet>)

  /** Every slot is filled and named, and one name means one replica set. */
  ghost predicate Buildable(shards: seq<ReplicaSet?>) {
    && (forall i :: 0 <= i < |shards| ==> shards[i] != null && !Blank(shards[i].name))
    && (forall i, j :: 0 <= i < j < |shards| && shards[i] != null && shards[j] != null ==>
          shards[i].name == shards[j].name ==> shards[i] == shards[j])
  }

  /** What `Build` promises of a mesh: names tell replica sets apart, and `replicaSets` lists each one where it is first
      mapped. */
  ghost predicate MeshOk(mesh: Mesh) {
    && mesh.virtualShards != []
    && mesh.replicaSets == Dedup(mesh.virtualShards)
    && (forall i :: 0 <= i < |mesh.virtualShards| ==> !Blank(mesh.virtualShards[i].name))
    && (forall a, b | a in mesh.virtualShards && b in mesh.virtualShards && a.name == b.name :: a == b)
  }

  datatype Resolved = Resolved(index: nat, replicaSet: ReplicaSet)

  /** Routes a hashed key to the replica set of the virtual shard it names; it fails exactly when the hash is out of
      range. */
  function Resolve(mesh: Mesh, hash: nat): (r: Result<Resolved, MeshError>)
    ensures r.Ok? <==> hash < |mesh.virtualShards|
    ensures r.Ok? ==> r.value.index == hash && r.value.replicaSet == mesh.virtualShards[hash]
    ensures r.Err? ==> r.error == OutOfRange(hash)
  {
    if hash >= |mesh.virtualShards| then Err(OutOfRange(hash)) else Ok(Resolved(hash, mesh.virtualShards[hash]))
  }

  /** Replica sets of a built mesh have pairwise different names, so looking groups up by name loses none. */
  lemma NamesAreUnique(mesh: Mesh)
    requires MeshOk(mesh)
    ensures Distinct(seq(|mesh.replicaSets|, i requires 0 <= i < |mesh.replicaSets| => mesh.replicaSets[i].name))
    ensures forall rs :: rs in mesh.virtualShards <==> rs in mesh.replicaSets
  {
    DedupMembers(mesh.virtualShards);
    var names := seq(|mesh.replicaSets|, i requires 0 <= i < |mesh.replicaSets| => mesh.replicaSets[i].name);
    forall i, j | 0 <= i < j < |names| ensures names[i] != names[j] {
      assert mesh.replicaSets[i] in mesh.virtualShards && mesh.replicaSets[j] in mesh.virtualShards;
    }
  }

  // The builder

  class MeshBuilder {
    var virtualShards: array<ReplicaSet?>
    var hasHasher: bool
    var err: Option<MeshError>

    /** An unmapped builder; `telemetryErr` is the outcome of creating the telemetry instruments. */
    constructor (shardCount: nat, telemetryErr: Option<MeshError>)
      ensures fresh(virtualShards) && virtualShards.Length == shardCount && !hasHasher && err == telemetryErr
      ensures forall i :: 0 <= i < shardCount ==> virtualShards[i] == null
    {
      virtualShards := new ReplicaSet?[shardCount](_ => null);
      hasHasher, err := false, telemetryErr;
    }

    method WithShardHasher(present: bool)
      modifies this`hasHasher
      ensures hasHasher == present
    {
      hasHasher := present;
    }

    /** Assigns one virtual shard. The first failure sticks: after it nothing changes any more. */
    method MapVirtualShard(index: nat, replicaSet: ReplicaSet?)
      modifies this`err, virtualShards
      ensures old(err.Some?) ==> err == old(err) && virtualShards[..] == old(virtualShards[..])
      ensures old(err.None?) && index >= virtualShards.Length ==> err == Some(OutOfRange(index))
      ensures old(err.None?) && index < virtualShards.Length && replicaSet == null ==> err == Some(NilReplicaSet(index))
      ensures old(err.None?) && index < virtualShards.Length && replicaSet != null ==>
        err == if old(virtualShards[index]) != null then Some(AlreadyMapped(index)) else None
      ensures err.Some? ==> virtualShards[..] == old(virtualShards[..])
      ensures err.None? ==>
        index < virtualShards.Length && virtualShards[..] == old(virtualShards[..])[index := replicaSet]
    {
      if err.Some? {
        return;
      }
      if index >= virtualShards.Length {
        err := Some(OutOfRange(index));
        return;
      }
      if replicaSet == null {
        err := Some(NilReplicaSet(index));
        return;
      }
      if virtualShards[index] != null {
        err := Some(AlreadyMapped(index));
        return;
      }
      virtualShards[index] := replicaSet;
    }

    /** Succeeds exactly when no step failed and the topology is complete and consistently named, and then returns the
        mapped replica sets as they are. */
    method Build() returns (r: Result<Mesh, MeshError>)
      ensures r.Ok? <==> err.None? && virtualShards.Length > 0 && hasHasher && Buildable(virtualShards[..])
      ensures r.Ok? ==> r.value.virtualShards == virtualShards[..] && MeshOk(r.value)
      ensures err.Some? ==> r == Err(err.value)
      ensures err.None? && virtualShards.Length == 0 ==> r == Err(NoVirtualShards)
      ensures err.None? && virtualShards.Length > 0 && !hasHasher ==> r == Err(NilShardHasher)
      ensures r.Err? && err.None? && virtualShards.Length > 0 && hasHasher ==> Fault(virtualShards[..], r.error)
    {
      if err.Some? {
        return Err(err.value);
      }
      if virtualShards.Length == 0 {
        return Err(NoVirtualShards);
      }
      if !hasHasher {
        return Err(NilShardHasher);
      }
      r := CollectShards(virtualShards[..]);
    }
  }

  /** What the loop over the virtual shards knows: each is named and is the one its name stands for. */
  ghost predicate Seen(shards: seq<ReplicaSet>, names: map<string, ReplicaSet>) {
    && (forall i :: 0 <= i < |shards| ==> !Blank(shards[i].name))
    && (forall i :: 0 <= i < |shards| ==> shards[i].name in names && names[shards[i].name] == shards[i])
    && (forall name | name in names :: exists i :: 0 <= i < |shards| && shards[i].name == name)
  }

  lemma SeenNext(shards: seq<ReplicaSet>, names: map<string, ReplicaSet>, next: ReplicaSet)
    requires Seen(shards, names) && !Blank(next.name)
    requires next.name in names ==> names[next.name] == next
    ensures Seen(shards + [next], names[next.name := next])
  {
    hide Blank;
    var all, names' := shards + [next], names[next.name := next];
    forall name | name in names' ensures exists i :: 0 <= i < |all| && all[i].name == name {
      if name == next.name {
        assert all[|shards|].name == name;
      } else {
        var i :| 0 <= i < |shards| && shards[i].name == name;
        assert all[i].name == name;
      }
    }
  }

  lemma SeenClash(slots: seq<ReplicaSet?>, shards: seq<ReplicaSet>, names: map<string, ReplicaSet>, k: nat)
    requires k < |slots| && shards == slots[..k] && Seen(shards, names)
    requires slots[k] != null && slots[k].name in names && names[slots[k].name] != slots[k]
    ensures !Buildable(slots) && Fault(slots, DuplicateReplicaSet(slots[k].name))
  {
    hide Blank;
    var i :| 0 <= i < |shards| && shards[i].name == slots[k].name;
    assert slots[i] == shards[i] == names[shards[i].name];
  }

  lemma SeenAll(slots: seq<ReplicaSet?>, shards: seq<ReplicaSet>, names: map<string, ReplicaSet>)
    requires shards == slots && slots != [] && Seen(shards, names)
    ensures Buildable(slots) && MeshOk(Mesh(shards, Dedup(shards)))
  {
    hide Blank, Dedup;
    assert forall i :: 0 <= i < |slots| ==> slots[i] == shards[i];
  }

  /** What is wrong with slots rejected with this error. */
  ghost predicate Fault(slots: seq<ReplicaSet?>, e: MeshError) {
    match e
    case NotMapped(i) => i < |slots| && slots[i] == null && forall j :: 0 <= j < i ==> slots[j] != null
    case EmptyReplicaSetName => exists i :: 0 <= i < |slots| && slots[i] != null && Blank(slots[i].name)
    case DuplicateReplicaSet(name) =>
      exists i, j :: 0 <= i < j < |slots| && slots[i] != null && slots[j] != null
                     && slots[i].name == slots[j].name == name && slots[i] != slots[j]
    case _ => false
  }

  /** Checks the mapped slots and lists each replica set where it first occurs. */
  method CollectShards(slots: seq<ReplicaSet?>) returns (r: Result<Mesh, MeshError>)
    requires slots != []
    ensures r.Ok? <==> Buildable(slots)
    ensures r.Ok? ==> r.value.virtualShards == slots && MeshOk(r.value)
    ensures r.Err? ==> Fault(slots, r.error)
  {
    hide Blank, Dedup, Seen, MeshOk;
    NoDedup<ReplicaSet>();
    var shards: seq<ReplicaSet> := [];
    var replicaSets: seq<ReplicaSet> := [];
    var seenNames: map<string, ReplicaSet> := map[];
    SeenNone();
    for index := 0 to |slots|
      invariant shards == slots[..index] && replicaSets == Dedup(shards) && Seen(shards, seenNames)
    {
      var replicaSet := slots[index];
      if replicaSet == null {
        return Err(NotMapped(index));
      }
      if Blank(replicaSet.name) {
        return Err(EmptyReplicaSetName);
      }
      if replicaSet.name in seenNames && seenNames[replicaSet.name] != replicaSet {
        SeenClash(slots, shards, seenNames, index);
        return Err(DuplicateReplicaSet(replicaSet.name));
      }
      SeenNext(shards, seenNames, replicaSet);
      DedupNext<ReplicaSet>(shards, replicaSet);
      seenNames := seenNames[replicaSet.name := replicaSet];
      shards := shards + [replicaSet];
      if replicaSet !in replicaSets {
        replicaSets := replicaSets + [replicaSet];
      }
    }
    SeenAll(slots, shards, seenNames);
    r := Ok(Mesh(shards, replicaSets));
  }

  lemma SeenNone()
    ensures Seen([], map[])
  {
  }
}
