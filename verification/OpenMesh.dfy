/** Opening a mesh from its configuration: validate, open the nodes, wire the mirrors, build. */
module OpenMesh {
  import opened Basics
  import opened MeshConfig
  import opened WriteMirrors
  import opened Mesh
  import opened Text

  // Nodes are numbered in the order in which they are opened.

  function SpecDSNs(spec: ReplicaSetSpec): seq<string> {
    [spec.primaryDSN] + spec.replicaDSNs
  }

  function AllDSNs(specs: seq<ReplicaSetSpec>): seq<string> {
    if specs == [] then [] else AllDSNs(specs[..|specs| - 1]) + SpecDSNs(specs[|specs| - 1])
  }

  /** The node opened for the primary of the i-th replica set. */
  function PrimaryNode(specs: seq<ReplicaSetSpec>, i: nat): nat
    requires i <= |specs|
  {
    |AllDSNs(specs[..i])|
  }

  /** The nodes opened for the replicas of the i-th replica set. */
  function ReplicaNodes(specs: seq<ReplicaSetSpec>, i: nat): seq<nat>
    requires i < |specs|
  {
    seq(|specs[i].replicaDSNs|, r => PrimaryNode(specs, i) + 1 + r)
  }

  function IndexOf(names: seq<string>, name: string): (i: nat)
    requires name in names
    ensures i < |names| && names[i] == name && name !in names[..i]
  {
    if names[0] == name then 0 else 1 + IndexOf(names[1..], name)
  }

  function PrimaryOf(specs: seq<ReplicaSetSpec>, name: string): nat
    requires name in Names(specs)
  {
    PrimaryNode(specs, IndexOf(Names(specs), name))
  }

  /** The nodes opened for the replicas of a named replica set, in order. */
  function ReplicasOf(specs: seq<ReplicaSetSpec>, name: string): seq<nat>
    requires name in Names(specs)
  {
    ReplicaNodes(specs, IndexOf(Names(specs), name))
  }

  /** Where the reads of a named replica set go: its replicas, or its primary if it has none. */
  function TargetsOf(specs: seq<ReplicaSetSpec>, name: string): seq<ReadTarget>
    requires name in Names(specs)
  {
    ReadTargets(PrimaryOf(specs, name), ReplicasOf(specs, name))
  }

  /** The bare writers of the named replica sets, in order. */
  function WritersOf(specs: seq<ReplicaSetSpec>, names: seq<string>): (ws: seq<Writer>)
    requires forall i :: 0 <= i < |names| ==> names[i] in Names(specs)
    ensures |ws| == |names|
  {
    seq(|names|, i requires 0 <= i < |names| => Writer(PrimaryOf(specs, names[i]), []))
  }

  lemma {:induction false} AllDSNsPrefix(specs: seq<ReplicaSetSpec>, k: nat)
    requires k <= |specs|
    ensures AllDSNs(specs[..k]) <= AllDSNs(specs)
    decreases |specs|
  {
    if k == |specs| {
      assert specs[..k] == specs;
    } else {
      var init := specs[..|specs| - 1];
      assert specs[..k] == init[..k];
      AllDSNsPrefix(init, k);
    }
  }

  lemma DSNsNext(specs: seq<ReplicaSetSpec>, k: nat)
    requires k < |specs|
    ensures AllDSNs(specs[..k + 1]) == AllDSNs(specs[..k]) + SpecDSNs(specs[k])
    ensures AllDSNs(specs[..k]) + SpecDSNs(specs[k]) <= AllDSNs(specs)
  {
    assert specs[..k + 1][..k] == specs[..k];
    AllDSNsPrefix(specs, k + 1);
  }

  /** The nodes of a replica set come before those of the sets listed after it. */
  lemma {:induction false} AllDSNsGrow(specs: seq<ReplicaSetSpec>, i: nat, j: nat)
    requires i < j <= |specs|
    ensures PrimaryNode(specs, i) + |SpecDSNs(specs[i])| <= PrimaryNode(specs, j)
  {
    assert specs[..j][..j - 1] == specs[..j - 1];
    if i < j - 1 {
      AllDSNsGrow(specs, i, j - 1);
    }
  }

  /** The nodes of a replica set are the ones opened with its own connection strings: the primary's first, then those of
      the replicas in order. */
  lemma NodesHaveTheirDSNs(specs: seq<ReplicaSetSpec>, k: nat)
    requires k < |specs|
    ensures PrimaryNode(specs, k) + |specs[k].replicaDSNs| < |AllDSNs(specs)|
    ensures AllDSNs(specs)[PrimaryNode(specs, k)] == specs[k].primaryDSN
    ensures forall r :: 0 <= r < |specs[k].replicaDSNs| ==>
      && ReplicaNodes(specs, k)[r] < |AllDSNs(specs)|
      && AllDSNs(specs)[ReplicaNodes(specs, k)[r]] == specs[k].replicaDSNs[r]
  {
    hide AllDSNs;
    var before, all := AllDSNs(specs[..k]), AllDSNs(specs);
    DSNsNext(specs, k);
    forall i | 0 <= i < |SpecDSNs(specs[k])| ensures all[|before| + i] == SpecDSNs(specs[k])[i] {
      assert (before + SpecDSNs(specs[k]))[|before| + i] == all[|before| + i];
    }
    forall r | 0 <= r < |specs[k].replicaDSNs|
      ensures ReplicaNodes(specs, k)[r] < |all| && all[ReplicaNodes(specs, k)[r]] == specs[k].replicaDSNs[r]
    {
      assert ReplicaNodes(specs, k)[r] == |before| + (1 + r);
      assert SpecDSNs(specs[k])[1 + r] == specs[k].replicaDSNs[r];
    }
  }

  /** Replica set `rs` is the one the k-th spec describes, before mirrors. */
  ghost predicate OpenedAs(specs: seq<ReplicaSetSpec>, k: nat, rs: ReplicaSet)
    requires k < |specs|
  {
    && rs.name == specs[k].name
    && rs.primary == Writer(PrimaryNode(specs, k), [])
    && rs.readTargets.items == ReadTargets(PrimaryNode(specs, k), ReplicaNodes(specs, k))
    && rs.writeMirrors == []
  }

  /** Opens the replicas of one set; its first call is number `first`. */
  method OpenReplicas(dsns: seq<string>, first: nat, opens: nat -> bool)
    returns (ok: bool, nodes: seq<nat>, called: seq<string>)
    ensures called <= dsns
    ensures ok ==> called == dsns && forall i: nat | first <= i < first + |called| :: opens(i)
    ensures !ok ==> called != [] && !opens(first + |called| - 1)
    ensures !ok ==> forall i: nat | first <= i < first + |called| - 1 :: opens(i)
    ensures ok ==> nodes == seq(|dsns|, i => first + i)
  {
    called, nodes := [], [];
    for i := 0 to |dsns|
      invariant called == dsns[..i] && nodes == seq(i, j => first + j)
      invariant forall j: nat | first <= j < first + i :: opens(j)
    {
      called := called + [dsns[i]];
      if !opens(first + i) {
        return false, nodes, called;
      }
      nodes := nodes + [first + i];
    }
    ok := true;
  }

  /** The first `k` replica sets are open and registered under their names. */
  ghost predicate Registered(specs: seq<ReplicaSetSpec>, k: nat, replicaSets: map<string, ReplicaSet>) {
    && k <= |specs|
    && replicaSets.Keys == (set name | name in Names(specs)[..k])
    && forall j :: 0 <= j < k ==> specs[j].name in replicaSets && OpenedAs(specs, j, replicaSets[specs[j].name])
  }

  lemma RegisterNext(specs: seq<ReplicaSetSpec>, k: nat, replicaSets: map<string, ReplicaSet>, rs: ReplicaSet)
    requires Distinct(Names(specs)) && k < |specs| && Registered(specs, k, replicaSets) && OpenedAs(specs, k, rs)
    ensures Registered(specs, k + 1, replicaSets[specs[k].name := rs])
  {
    hide OpenedAs;
    assert Names(specs)[..k + 1] == Names(specs)[..k] + [specs[k].name];
    forall j | 0 <= j < k ensures specs[j].name != specs[k].name {
      assert Names(specs)[j] != Names(specs)[k];
    }
  }

  /** Opens every primary and replica in order, stopping at the first failure; `opens(i)` tells whether the i-th call
      succeeds. */
  method OpenNodes(specs: seq<ReplicaSetSpec>, opens: nat -> bool)
    returns (r: Result<map<string, ReplicaSet>, MeshError>, called: seq<string>)
    requires Distinct(Names(specs))
    ensures called <= AllDSNs(specs)
    ensures r.Ok? ==> called == AllDSNs(specs) && forall i: nat | i < |called| :: opens(i)
    ensures r.Err? ==> called != [] && !opens(|called| - 1) && forall i: nat | i < |called| - 1 :: opens(i)
    ensures r.Err? ==> r.error.OpenFailed?
    ensures r.Ok? ==> Registered(specs, |specs|, r.value)
  {
    hide AllDSNs, Registered, Names;
    called := [];
    var replicaSets: map<string, ReplicaSet> := map[];
    RegisterNone(specs);
    for k := 0 to |specs|
      invariant called == AllDSNs(specs[..k]) && forall i: nat | i < |called| :: opens(i)
      invariant Registered(specs, k, replicaSets)
    {
      var spec, primary := specs[k], |called|;
      DSNsNext(specs, k);
      called := called + [spec.primaryDSN];
      assert called <= AllDSNs(specs);
      if !opens(primary) {
        return Err(OpenFailed(spec.name)), called;
      }
      var ok, replicas, more := OpenReplicas(spec.replicaDSNs, primary + 1, opens);
      ghost var whole := called + spec.replicaDSNs;
      assert whole == AllDSNs(specs[..k]) + SpecDSNs(spec);
      called := called + more;
      assert called <= whole;
      if !ok {
        return Err(OpenFailed(spec.name)), called;
      }
      var rs := new ReplicaSet(spec.name, Writer(primary, []), replicas);
      RegisterNext(specs, k, replicaSets, rs);
      replicaSets := replicaSets[spec.name := rs];
    }
    assert specs[..|specs|] == specs;
    r := Ok(replicaSets);
  }

  lemma RegisterNone(specs: seq<ReplicaSetSpec>)
    ensures Registered(specs, 0, map[]) && AllDSNs(specs[..0]) == []
  {
    assert specs[..0] == [];
  }

  // Mirrors

  /** The mirror list of the first mapping of a main replica set. */
  function FirstMirrors(mappings: seq<Mapping>, main: string): seq<string>
    requires exists i :: 0 <= i < |mappings| && mappings[i].main == main
  {
    if mappings[0].main == main then mappings[0].mirrors else FirstMirrors(mappings[1..], main)
  }

  lemma {:induction false} FirstMirrorsAt(mappings: seq<Mapping>, k: nat)
    requires k < |mappings| && forall i :: 0 <= i < k ==> mappings[i].main != mappings[k].main
    ensures FirstMirrors(mappings, mappings[k].main) == mappings[k].mirrors
  {
    if k > 0 {
      FirstMirrorsAt(mappings[1..], k - 1);
    }
  }

  lemma {:induction false} FirstMirrorsSource(mappings: seq<Mapping>, main: string) returns (k: nat)
    requires exists i :: 0 <= i < |mappings| && mappings[i].main == main
    ensures k < |mappings| && mappings[k].main == main && FirstMirrors(mappings, main) == mappings[k].mirrors
    ensures forall i :: 0 <= i < k ==> mappings[i].main != main
  {
    if mappings[0].main == main {
      k := 0;
    } else {
      assert exists i :: 0 <= i < |mappings[1..]| && mappings[1..][i].main == main by {
        var i :| 0 <= i < |mappings| && mappings[i].main == main;
        assert mappings[1..][i - 1] == mappings[i];
      }
      var j := FirstMirrorsSource(mappings[1..], main);
      k := j + 1;
    }
  }

  /** `rs` is the replica set named `main`, with its own primary and read targets and the writers of `mirrors`
      attached. */
  ghost predicate WiredAs(config: Config, rs: ReplicaSet, main: string, mirrors: seq<string>) {
    && main in Names(config.replicaSets)
    && (forall i :: 0 <= i < |mirrors| ==> mirrors[i] in Names(config.replicaSets))
    && rs.name == main
    && rs.primary == Writer(PrimaryOf(config.replicaSets, main), [])
    && rs.readTargets.items == TargetsOf(config.replicaSets, main)
    && rs.writeMirrors == WritersOf(config.replicaSets, mirrors)
  }

  /** The writers of the named replica sets, taken from their primaries without any mirrors of their own. */
  method PrimaryWriters(config: Config, replicaSets: map<string, ReplicaSet>, names: seq<string>)
    returns (ws: seq<Writer>)
    requires Registered(config.replicaSets, |config.replicaSets|, replicaSets)
    requires forall i :: 0 <= i < |names| ==> names[i] in Names(config.replicaSets)
    ensures ws == WritersOf(config.replicaSets, names)
  {
    hide OpenedAs, PrimaryOf;
    ws := [];
    for i := 0 to |names|
      invariant ws == WritersOf(config.replicaSets, names)[..i]
    {
      Lookup(config.replicaSets, replicaSets, names[i]);
      ws := ws + [replicaSets[names[i]].primary];
    }
  }

  lemma Lookup(specs: seq<ReplicaSetSpec>, replicaSets: map<string, ReplicaSet>, name: string)
    requires Registered(specs, |specs|, replicaSets) && name in Names(specs)
    ensures name in replicaSets && replicaSets[name].name == name && replicaSets[name].writeMirrors == []
    ensures replicaSets[name].primary == Writer(PrimaryOf(specs, name), [])
    ensures replicaSets[name].readTargets.items == TargetsOf(specs, name)
  {
    hide PrimaryNode, ReplicaNodes, ReadTargets;
    var k := IndexOf(Names(specs), name);
    assert specs[k].name == name && OpenedAs(specs, k, replicaSets[specs[k].name]);
  }

  /** Wires each main replica set once, with the mirrors of its first mapping. */
  method Configure(config: Config, replicaSets: map<string, ReplicaSet>) returns (configured: map<string, ReplicaSet>)
    requires Registered(config.replicaSets, |config.replicaSets|, replicaSets)
    requires MappingsOk(Names(config.replicaSets), config.mappings)
    ensures forall i :: 0 <= i < |config.mappings| ==> config.mappings[i].main in configured
    ensures forall i :: 0 <= i < |config.mappings| ==>
      WiredAs(config, configured[config.mappings[i].main], config.mappings[i].main,
              FirstMirrors(config.mappings, config.mappings[i].main))
  {
    hide Registered, WiredAs, FirstMirrors, JoinsAgree;
    configured := map[];
    for k := 0 to |config.mappings|
      invariant forall i :: 0 <= i < k ==> config.mappings[i].main in configured
      invariant forall name | name in configured :: exists i :: 0 <= i < k && config.mappings[i].main == name
      invariant forall i :: 0 <= i < k ==>
        WiredAs(config, configured[config.mappings[i].main], config.mappings[i].main,
                FirstMirrors(config.mappings, config.mappings[i].main))
    {
      var mapping := config.mappings[k];
      if mapping.main in configured {
        continue;
      }
      assert MirrorsOk(Names(config.replicaSets), mapping);
      Lookup(config.replicaSets, replicaSets, mapping.main);
      var mirrors := PrimaryWriters(config, replicaSets, mapping.mirrors);
      var wired := replicaSets[mapping.main].WithWriteMirrors(mirrors);
      FirstMirrorsAt(config.mappings, k);
      Wired(config, replicaSets[mapping.main], wired, mapping.main, mapping.mirrors);
      configured := configured[mapping.main := wired];
    }
  }

  lemma Wired(config: Config, main: ReplicaSet, wired: ReplicaSet, name: string, mirrors: seq<string>)
    requires name in Names(config.replicaSets)
    requires forall i :: 0 <= i < |mirrors| ==> mirrors[i] in Names(config.replicaSets)
    requires main.writeMirrors == [] && wired.name == main.name == name
    requires wired.primary == main.primary == Writer(PrimaryOf(config.replicaSets, name), [])
    requires wired.readTargets == main.readTargets && main.readTargets.items == TargetsOf(config.replicaSets, name)
    requires wired.writeMirrors == main.writeMirrors + WritersOf(config.replicaSets, mirrors)
    ensures WiredAs(config, wired, name, mirrors)
  {
    assert [] + WritersOf(config.replicaSets, mirrors) == WritersOf(config.replicaSets, mirrors);
  }

  // Building

  method MapIndexes(builder: MeshBuilder, indexes: seq<nat>, rs: ReplicaSet, ghost before: seq<nat>)
    requires builder.err.None? && IndexesOk(builder.virtualShards.Length, before + indexes)
    requires forall i: nat | i < builder.virtualShards.Length :: builder.virtualShards[i] != null <==> i in before
    modifies builder`err, builder.virtualShards
    ensures builder.err.None?
    ensures forall i: nat | i < builder.virtualShards.Length ::
      builder.virtualShards[i] == if i in indexes then rs else old(builder.virtualShards[i])
  {
    var shards := builder.virtualShards;
    for k := 0 to |indexes|
      invariant builder.err.None? && builder.virtualShards == shards
      invariant forall i: nat | i < shards.Length :: shards[i] == if i in indexes[..k] then rs else old(shards[i])
    {
      ghost var slots := shards[..];
      var index := indexes[k];
      assert (before + indexes)[|before| + k] == index;
      assert index in before + indexes && index < shards.Length;
      assert index !in before && index !in indexes[..k] by {
        assert forall i :: 0 <= i < |before| ==> before[i] == (before + indexes)[i];
        assert forall i :: 0 <= i < k ==> indexes[i] == (before + indexes)[|before| + i];
      }
      assert slots[index] == null;
      builder.MapVirtualShard(index, rs);
      assert shards[..] == slots[index := rs];
      forall i: nat | i < shards.Length
        ensures shards[i] == if i in indexes[..k + 1] then rs else old(shards[i])
      {
        assert shards[i] == shards[..][i];
        assert indexes[..k + 1] == indexes[..k] + [index];
      }
    }
    assert indexes[..|indexes|] == indexes;
  }

  lemma {:induction false} IndexesOfMapping(mappings: seq<Mapping>, k: nat, i: nat)
    requires k < |mappings| && i in mappings[k].indexes
    ensures i in AllIndexes(mappings)
  {
    if k < |mappings| - 1 {
      IndexesOfMapping(mappings[..|mappings| - 1], k, i);
    }
  }

  lemma {:induction false} MappingOfIndex(mappings: seq<Mapping>, i: nat) returns (k: nat)
    requires i in AllIndexes(mappings)
    ensures k < |mappings| && i in mappings[k].indexes
  {
    var last := |mappings| - 1;
    if i in mappings[last].indexes {
      k := last;
    } else {
      k := MappingOfIndex(mappings[..last], i);
    }
  }

  /** The virtual shards of the first `k` mappings hold the wired replica set of their mapping, the others nothing. */
  ghost predicate Placed(config: Config, configured: map<string, ReplicaSet>, shards: seq<ReplicaSet?>, k: nat) {
    && k <= |config.mappings| && |shards| == config.shardCount
    && (forall m | m in config.mappings :: m.main in configured)
    && (forall i :: 0 <= i < |shards| ==> (shards[i] != null <==> i in AllIndexes(config.mappings[..k])))
    && (forall j, i :: 0 <= j < k && 0 <= i < |shards| && i in config.mappings[j].indexes ==>
          shards[i] == configured[config.mappings[j].main])
  }

  lemma PlaceNext(config: Config, configured: map<string, ReplicaSet>, shards: seq<ReplicaSet?>,
                  shards': seq<ReplicaSet?>, k: nat)
    requires k < |config.mappings| && Placed(config, configured, shards, k) && |shards'| == |shards|
    requires IndexesOk(config.shardCount, AllIndexes(config.mappings[..k]) + config.mappings[k].indexes)
    requires config.mappings[k].main in configured
    requires forall i :: 0 <= i < |shards| ==>
      shards'[i] == if i in config.mappings[k].indexes then configured[config.mappings[k].main] else shards[i]
    ensures Placed(config, configured, shards', k + 1)
  {
    hide AllIndexes;
    var before, more := AllIndexes(config.mappings[..k]), config.mappings[k].indexes;
    NextIndexes(config.mappings, k);
    forall j, i | 0 <= j < k && 0 <= i < |shards| && i in config.mappings[j].indexes
      ensures shards'[i] == configured[config.mappings[j].main]
    {
      assert config.mappings[..k][j] == config.mappings[j];
      IndexesOfMapping(config.mappings[..k], j, i);
      var x :| 0 <= x < |before| && before[x] == i;
      forall y | 0 <= y < |more| ensures more[y] != i {
        assert (before + more)[x] == i && (before + more)[|before| + y] == more[y];
      }
    }
  }

  method MapAll(builder: MeshBuilder, config: Config, configured: map<string, ReplicaSet>)
    requires builder.err.None? && Placed(config, configured, builder.virtualShards[..], 0)
    requires IndexesOk(config.shardCount, AllIndexes(config.mappings))
    modifies builder`err, builder.virtualShards
    ensures builder.err.None? && Placed(config, configured, builder.virtualShards[..], |config.mappings|)
  {
    hide AllIndexes;
    var shards := builder.virtualShards;
    for k := 0 to |config.mappings|
      invariant builder.err.None? && builder.virtualShards == shards
      invariant Placed(config, configured, shards[..], k)
    {
      var mapping := config.mappings[k];
      ghost var slots := shards[..];
      assert mapping in config.mappings;
      NextIndexes(config.mappings, k);
      PrefixFault(config.shardCount, config.mappings, k + 1, 0);
      forall i: nat | i < shards.Length ensures shards[i] != null <==> i in AllIndexes(config.mappings[..k]) {
        assert slots[i] == shards[i];
      }
      MapIndexes(builder, mapping.indexes, configured[mapping.main], AllIndexes(config.mappings[..k]));
      PlaceNext(config, configured, slots, shards[..], k);
    }
  }

  /** Each virtual shard of a mapping is served by its main replica set, wired with the mirrors of the first mapping of
      that set. */
  ghost predicate Routes(config: Config, mesh: Mesh) {
    && |mesh.virtualShards| == config.shardCount
    && forall j, i :: 0 <= j < |config.mappings| && 0 <= i < config.shardCount && i in config.mappings[j].indexes ==>
         WiredAs(config, mesh.virtualShards[i], config.mappings[j].main,
                 FirstMirrors(config.mappings, config.mappings[j].main))
  }

  lemma PlacedIsBuildable(config: Config, configured: map<string, ReplicaSet>, shards: seq<ReplicaSet?>)
    requires ValidConfig(config, true, true) && Placed(config, configured, shards, |config.mappings|)
    requires forall i :: 0 <= i < |config.mappings| ==>
      && config.mappings[i].main in configured
      && configured[config.mappings[i].main].name == config.mappings[i].main
    ensures Buildable(shards)
  {
    hide AllIndexes, MirrorsOk, JoinsAgree;
    assert config.mappings[..|config.mappings|] == config.mappings;
    forall i | 0 <= i < |shards|
      ensures shards[i] != null && !Blank(shards[i].name)
      ensures shards[i].name in configured && shards[i] == configured[shards[i].name]
    {
      var k := MappingOfIndex(config.mappings, i);
      var main := config.mappings[k].main;
      assert shards[i] == configured[main] && main in Names(config.replicaSets);
      var n :| 0 <= n < |config.replicaSets| && Names(config.replicaSets)[n] == main;
      assert SpecOk(config.replicaSets[n]);
    }
  }

  /** Opens a mesh. Nothing is opened for an invalid configuration, and an accepted one whose nodes and telemetry open
      always builds: no later step can fail. */
  method OpenMesh(config: Config, hasOpener: bool, hasHasher: bool, opens: nat -> bool, telemetryErr: Option<MeshError>)
    returns (r: Result<Mesh, MeshError>, called: seq<string>)
    ensures !ValidConfig(config, hasOpener, hasHasher) ==>
      r.Err? && called == [] && Explains(config, hasOpener, hasHasher, r.error)
    ensures r.Err? && ValidConfig(config, hasOpener, hasHasher) ==>
      if called != [] && !opens(|called| - 1) then r.error.OpenFailed? else Some(r.error) == telemetryErr
    ensures called <= AllDSNs(config.replicaSets)
    ensures forall i: nat | i < |called| - 1 :: opens(i)
    ensures ValidConfig(config, hasOpener, hasHasher) && telemetryErr.None? ==>
      (forall i: nat | i < |AllDSNs(config.replicaSets)| :: opens(i)) ==> r.Ok?
    ensures r.Ok? ==> ValidConfig(config, hasOpener, hasHasher) && called == AllDSNs(config.replicaSets)
    ensures r.Ok? ==> MeshOk(r.value) && Routes(config, r.value)
  {
    hide AllDSNs, AllIndexes, Registered, Placed, WiredAs, MappingsOk, IndexesOk, Explains, FirstMirrors, MeshOk;
    called := [];
    var err := ValidateMeshConfig(config, hasOpener, hasHasher);
    if err.Some? {
      return Err(err.value), called;
    }
    var nodes;
    nodes, called := OpenNodes(config.replicaSets, opens);
    if nodes.Err? {
      return Err(nodes.error), called;
    }
    var configured := Configure(config, nodes.value);
    var builder := new MeshBuilder(config.shardCount, telemetryErr);
    builder.WithShardHasher(hasHasher);
    if telemetryErr.Some? {
      r := builder.Build();
      return;
    }
    NothingPlaced(config, configured, builder.virtualShards[..]);
    MapAll(builder, config, configured);
    MainsAreNamed(config, configured);
    PlacedIsBuildable(config, configured, builder.virtualShards[..]);
    r := builder.Build();
    PlacedRoutes(config, configured, r.value);
  }

  lemma NothingPlaced(config: Config, configured: map<string, ReplicaSet>, shards: seq<ReplicaSet?>)
    requires |shards| == config.shardCount && forall i :: 0 <= i < |shards| ==> shards[i] == null
    requires forall i :: 0 <= i < |config.mappings| ==> config.mappings[i].main in configured
    ensures Placed(config, configured, shards, 0)
  {
    assert config.mappings[..0] == [];
  }

  lemma MainsAreNamed(config: Config, configured: map<string, ReplicaSet>)
    requires forall i :: 0 <= i < |config.mappings| ==>
      && config.mappings[i].main in configured
      && WiredAs(config, configured[config.mappings[i].main], config.mappings[i].main,
                 FirstMirrors(config.mappings, config.mappings[i].main))
    ensures forall i :: 0 <= i < |config.mappings| ==>
      configured[config.mappings[i].main].name == config.mappings[i].main
  {
  }

  lemma PlacedRoutes(config: Config, configured: map<string, ReplicaSet>, mesh: Mesh)
    requires Placed(config, configured, mesh.virtualShards, |config.mappings|)
    requires forall i :: 0 <= i < |config.mappings| ==>
      && config.mappings[i].main in configured
      && WiredAs(config, configured[config.mappings[i].main], config.mappings[i].main,
                 FirstMirrors(config.mappings, config.mappings[i].main))
    ensures Routes(config, mesh)
  {
    hide WiredAs, AllIndexes, FirstMirrors;
  }
}
