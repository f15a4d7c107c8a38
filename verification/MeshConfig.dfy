/** The declarative mesh configuration and its validation. */
module MeshConfig {
  import opened Basics
  import opened Text

  datatype ReplicaSetSpec = ReplicaSetSpec(name: string, primaryDSN: string, replicaDSNs: seq<string>)

  /** Virtual shards placed on a main replica set, whose writes are mirrored to the listed ones in order. */
  datatype Mapping = Mapping(indexes: seq<nat>, main: string, mirrors: seq<string>)

  datatype Config = Config(replicaSets: seq<ReplicaSetSpec>, shardCount: nat, mappings: seq<Mapping>)

  datatype MeshError =
    | NoReplicaSets
    | NilNodeOpener
    | NilShardHasher
    | NoVirtualShards
    | EmptyReplicaSetName
    | DuplicateReplicaSet(name: string)
    | EmptyDSN(name: string)
    | UnknownReplicaSet(name: string)
    | MirrorConfiguration(name: string)
    | OutOfRange(index: nat)
    | AlreadyMapped(index: nat)
    | NotMapped(index: nat)
    | NilReplicaSet(index: nat)
    | OpenFailed(name: string)

  const NUL: string := "\0"

  // What a valid configuration is

  function Names(specs: seq<ReplicaSetSpec>): (names: seq<string>)
    ensures |names| == |specs|
  {
    seq(|specs|, i requires 0 <= i < |specs| => specs[i].name)
  }

  predicate SpecOk(spec: ReplicaSetSpec) {
    !Blank(spec.name) && !Blank(spec.primaryDSN) && forall dsn | dsn in spec.replicaDSNs :: !Blank(dsn)
  }

  ghost predicate SpecsOk(specs: seq<ReplicaSetSpec>) {
    (forall i :: 0 <= i < |specs| ==> SpecOk(specs[i])) && Distinct(Names(specs))
  }

  ghost predicate MirrorsOk(names: seq<string>, m: Mapping) {
    && (forall i :: 0 <= i < |m.mirrors| ==> m.mirrors[i] in names && m.mirrors[i] != m.main)
    && Distinct(m.mirrors)
  }

  /** Mappings of the same main replica set have mirror lists that look the same once joined. */
  ghost predicate JoinsAgree(mappings: seq<Mapping>) {
    forall i, j :: 0 <= i < j < |mappings| && mappings[i].main == mappings[j].main ==>
      Join(mappings[i].mirrors, NUL) == Join(mappings[j].mirrors, NUL)
  }

  function AllIndexes(mappings: seq<Mapping>): seq<nat> {
    if mappings == [] then []
    else AllIndexes(mappings[..|mappings| - 1]) + mappings[|mappings| - 1].indexes
  }

  ghost predicate MappingsOk(names: seq<string>, mappings: seq<Mapping>) {
    && (forall i :: 0 <= i < |mappings| ==> mappings[i].main in names && MirrorsOk(names, mappings[i]))
    && JoinsAgree(mappings)
  }

  ghost predicate IndexesOk(count: nat, indexes: seq<nat>) {
    (forall i | i in indexes :: i < count) && Distinct(indexes)
  }

  ghost predicate ValidConfig(config: Config, hasOpener: bool, hasHasher: bool) {
    && config.replicaSets != [] && hasOpener && hasHasher && config.shardCount > 0
    && SpecsOk(config.replicaSets)
    && MappingsOk(Names(config.replicaSets), config.mappings)
    && IndexesOk(config.shardCount, AllIndexes(config.mappings))
    && (forall i: nat | i < config.shardCount :: i in AllIndexes(config.mappings))
  }

  // Validation

  /** What is wrong with a configuration rejected with this error. */
  ghost predicate Explains(config: Config, hasOpener: bool, hasHasher: bool, err: MeshError) {
    match err
    case NoReplicaSets => config.replicaSets == []
    case NilNodeOpener => !hasOpener
    case NilShardHasher => !hasHasher
    case NoVirtualShards => config.shardCount == 0
    case EmptyReplicaSetName => exists spec | spec in config.replicaSets :: Blank(spec.name)
    case DuplicateReplicaSet(name) =>
      exists i, j :: 0 <= i < j < |config.replicaSets|
                     && config.replicaSets[i].name == config.replicaSets[j].name == name
    case EmptyDSN(name) =>
      exists spec | spec in config.replicaSets ::
        spec.name == name && (Blank(spec.primaryDSN) || exists dsn | dsn in spec.replicaDSNs :: Blank(dsn))
    case UnknownReplicaSet(name) =>
      name !in Names(config.replicaSets) && exists m | m in config.mappings :: m.main == name || name in m.mirrors
    case MirrorConfiguration(name) =>
      || (exists m | m in config.mappings :: name in m.mirrors && (m.main == name || !Distinct(m.mirrors)))
      || (exists m, n | m in config.mappings && n in config.mappings ::
            m.main == n.main == name && Join(m.mirrors, NUL) != Join(n.mirrors, NUL))
    case OutOfRange(i) => i >= config.shardCount && i in AllIndexes(config.mappings)
    case AlreadyMapped(i) => Count(AllIndexes(config.mappings), i) > 1
    case NotMapped(i) => i < config.shardCount && i !in AllIndexes(config.mappings)
    case _ => false
  }

  method ValidateSpecs(specs: seq<ReplicaSetSpec>) returns (err: Option<MeshError>, names: set<string>)
    ensures err.None? <==> SpecsOk(specs)
    ensures err.None? ==> names == set name | name in Names(specs)
    ensures err.Some? ==> forall count, mappings, a, b :: Explains(Config(specs, count, mappings), a, b, err.value)
  {
    err, names := None, {};
    for k := 0 to |specs|
      invariant forall i :: 0 <= i < k ==> SpecOk(specs[i])
      invariant Distinct(Names(specs)[..k])
      invariant names == set name | name in Names(specs)[..k]
    {
      var spec := specs[k];
      assert Names(specs)[k] == spec.name && Names(specs)[..k + 1] == Names(specs)[..k] + [spec.name];
      if Blank(spec.name) {
        return Some(EmptyReplicaSetName), names;
      }
      if spec.name in names {
        ghost var i :| 0 <= i < k && Names(specs)[i] == spec.name;
        assert Names(specs)[i] == Names(specs)[k] && specs[i].name == specs[k].name;
        return Some(DuplicateReplicaSet(spec.name)), names;
      }
      names := names + {spec.name};
      if Blank(spec.primaryDSN) {
        return Some(EmptyDSN(spec.name)), names;
      }
      for j := 0 to |spec.replicaDSNs|
        invariant forall x :: 0 <= x < j ==> !Blank(spec.replicaDSNs[x])
      {
        if Blank(spec.replicaDSNs[j]) {
          return Some(EmptyDSN(spec.name)), names;
        }
      }
    }
    assert Names(specs)[..|specs|] == Names(specs);
  }

  method ValidateMirrors(names: set<string>, ghost order: seq<string>, m: Mapping) returns (err: Option<MeshError>)
    requires names == set name | name in order
    ensures err.None? <==> MirrorsOk(order, m)
    ensures err.Some? ==> err.value.UnknownReplicaSet? || err.value.MirrorConfiguration?
    ensures err.Some? ==> err.value.name in m.mirrors
    ensures err.Some? && err.value.UnknownReplicaSet? ==> err.value.name !in order
    ensures err.Some? && err.value.MirrorConfiguration? ==> err.value.name == m.main || !Distinct(m.mirrors)
  {
    err := None;
    var seen := {};
    for k := 0 to |m.mirrors|
      invariant forall i :: 0 <= i < k ==> m.mirrors[i] in order && m.mirrors[i] != m.main
      invariant Distinct(m.mirrors[..k]) && seen == set mirror | mirror in m.mirrors[..k]
    {
      var mirror := m.mirrors[k];
      assert m.mirrors[..k + 1] == m.mirrors[..k] + [mirror];
      if mirror !in names {
        return Some(UnknownReplicaSet(mirror));
      }
      if mirror == m.main {
        return Some(MirrorConfiguration(mirror));
      }
      if mirror in seen {
        ghost var i :| 0 <= i < k && m.mirrors[i] == mirror;
        return Some(MirrorConfiguration(mirror));
      }
      seen := seen + {mirror};
    }
    assert m.mirrors[..|m.mirrors|] == m.mirrors;
  }

  /** Marks the virtual shards of one mapping; `before` are the ones marked already. */
  method MarkIndexes(mapped: array<bool>, indexes: seq<nat>, ghost before: seq<nat>) returns (err: Option<MeshError>)
    requires IndexesOk(mapped.Length, before)
    requires forall i: nat | i < mapped.Length :: mapped[i] <==> i in before
    modifies mapped
    ensures err.None? <==> IndexesOk(mapped.Length, before + indexes)
    ensures err.None? ==> forall i: nat | i < mapped.Length :: mapped[i] <==> i in before + indexes
    ensures err.Some? ==>
      || (err.value.OutOfRange? && err.value.index in indexes && err.value.index >= mapped.Length)
      || (err.value.AlreadyMapped? && Count(before + indexes, err.value.index) > 1)
  {
    err := None;
    assert before + indexes[..0] == before;
    for k := 0 to |indexes|
      invariant IndexesOk(mapped.Length, before + indexes[..k])
      invariant forall i: nat | i < mapped.Length :: mapped[i] <==> i in before + indexes[..k]
    {
      var index := indexes[k];
      ghost var done := before + indexes[..k];
      assert before + indexes[..k + 1] == done + [index];
      assert (before + indexes)[|done|] == index && (before + indexes)[..|done|] == done;
      if index >= mapped.Length {
        assert index in before + indexes;
        return Some(OutOfRange(index));
      }
      if mapped[index] {
        ghost var i :| 0 <= i < |done| && done[i] == index;
        assert (before + indexes)[i] == (before + indexes)[|done|];
        CountTwice(before + indexes, i, |done|);
        return Some(AlreadyMapped(index));
      }
      mapped[index] := true;
    }
    assert before + indexes[..|indexes|] == before + indexes;
  }

  lemma {:induction false} CountTwice(xs: seq<nat>, i: nat, j: nat)
    requires i < j < |xs| && xs[i] == xs[j]
    ensures Count(xs, xs[j]) > 1
  {
    if i > 0 {
      CountTwice(xs[1..], i - 1, j - 1);
    } else {
      CountMember(xs[1..], xs[j]);
      assert xs[1..][j - 1] == xs[j];
    }
  }

  lemma {:induction false} AllIndexesPrefix(mappings: seq<Mapping>, k: nat)
    requires k <= |mappings|
    ensures AllIndexes(mappings[..k]) <= AllIndexes(mappings)
    decreases |mappings|
  {
    if k == |mappings| {
      assert mappings[..k] == mappings;
    } else {
      var init := mappings[..|mappings| - 1];
      assert mappings[..k] == init[..k];
      AllIndexesPrefix(init, k);
    }
  }

  /** A fault among the first mappings is a fault of all of them. */
  lemma PrefixFault(count: nat, mappings: seq<Mapping>, k: nat, i: nat)
    requires k <= |mappings|
    ensures !IndexesOk(count, AllIndexes(mappings[..k])) ==> !IndexesOk(count, AllIndexes(mappings))
    ensures Count(AllIndexes(mappings[..k]), i) <= Count(AllIndexes(mappings), i)
    ensures i in AllIndexes(mappings[..k]) ==> i in AllIndexes(mappings)
  {
    AllIndexesPrefix(mappings, k);
    var some, all := AllIndexes(mappings[..k]), AllIndexes(mappings);
    assert all == some + all[|some|..];
    CountConcat(some, all[|some|..], i);
    assert forall x | x in some :: x in all;
    assert forall x :: 0 <= x < |some| ==> some[x] == all[x];
  }

  /** Accepts exactly the valid configurations, and every error it reports names a fault that is really there. */
  method ValidateMeshConfig(config: Config, hasOpener: bool, hasHasher: bool) returns (err: Option<MeshError>)
    ensures err.None? <==> ValidConfig(config, hasOpener, hasHasher)
    ensures err.Some? ==> Explains(config, hasOpener, hasHasher, err.value)
  {
    if config.replicaSets == [] {
      return Some(NoReplicaSets);
    }
    if !hasOpener {
      return Some(NilNodeOpener);
    }
    if !hasHasher {
      return Some(NilShardHasher);
    }
    if config.shardCount == 0 {
      return Some(NoVirtualShards);
    }
    var names;
    err, names := ValidateSpecs(config.replicaSets);
    if err.Some? {
      return;
    }
    err := ValidateMappings(config, names, hasOpener, hasHasher);
  }

  /** The first `k` mappings passed, and this is what the loop remembers of them. */
  ghost predicate Scanned(config: Config, joins: map<string, string>, mapped: seq<bool>, k: nat) {
    var mappings := config.mappings;
    && k <= |mappings| && |mapped| == config.shardCount
    && MappingsOk(Names(config.replicaSets), mappings[..k])
    && (forall i :: 0 <= i < k ==>
          mappings[i].main in joins && joins[mappings[i].main] == Join(mappings[i].mirrors, NUL))
    && (forall name | name in joins :: exists i :: 0 <= i < k && mappings[i].main == name)
    && IndexesOk(config.shardCount, AllIndexes(mappings[..k]))
    && (forall i: nat | i < |mapped| :: mapped[i] <==> i in AllIndexes(mappings[..k]))
  }

  // Each rejection names a fault of the whole configuration

  ghost predicate Rejected(config: Config, hasOpener: bool, hasHasher: bool, err: MeshError) {
    !ValidConfig(config, hasOpener, hasHasher) && Explains(config, hasOpener, hasHasher, err)
  }

  lemma MainFault(config: Config, hasOpener: bool, hasHasher: bool, k: nat)
    requires k < |config.mappings| && config.mappings[k].main !in Names(config.replicaSets)
    ensures Rejected(config, hasOpener, hasHasher, UnknownReplicaSet(config.mappings[k].main))
  {
    hide Names, AllIndexes;
    assert config.mappings[k] in config.mappings;
  }

  lemma MirrorFault(config: Config, hasOpener: bool, hasHasher: bool, k: nat, err: MeshError)
    requires k < |config.mappings| && !MirrorsOk(Names(config.replicaSets), config.mappings[k])
    requires err.UnknownReplicaSet? || err.MirrorConfiguration?
    requires err.name in config.mappings[k].mirrors
    requires err.UnknownReplicaSet? ==> err.name !in Names(config.replicaSets)
    requires err.MirrorConfiguration? ==>
      err.name == config.mappings[k].main || !Distinct(config.mappings[k].mirrors)
    ensures Rejected(config, hasOpener, hasHasher, err)
  {
    hide Names, AllIndexes, MirrorsOk, Distinct;
    assert config.mappings[k] in config.mappings;
  }

  lemma JoinFault(config: Config, hasOpener: bool, hasHasher: bool, i: nat, k: nat)
    requires i < k < |config.mappings| && config.mappings[i].main == config.mappings[k].main
    requires Join(config.mappings[i].mirrors, NUL) != Join(config.mappings[k].mirrors, NUL)
    ensures Rejected(config, hasOpener, hasHasher, MirrorConfiguration(config.mappings[k].main))
  {
    hide Names, AllIndexes, MirrorsOk, Distinct, Join;
    assert config.mappings[i] in config.mappings && config.mappings[k] in config.mappings;
  }

  lemma IndexFault(config: Config, hasOpener: bool, hasHasher: bool, k: nat, err: MeshError)
    requires k < |config.mappings| && !IndexesOk(config.shardCount, AllIndexes(config.mappings[..k + 1]))
    requires var indexes := AllIndexes(config.mappings[..k + 1]);
             || (err.OutOfRange? && err.index in indexes && err.index >= config.shardCount)
             || (err.AlreadyMapped? && Count(indexes, err.index) > 1)
    ensures Rejected(config, hasOpener, hasHasher, err)
  {
    hide Names, AllIndexes, MappingsOk, IndexesOk, Count;
    PrefixFault(config.shardCount, config.mappings, k + 1, err.index);
  }

  method ValidateMapping(config: Config, names: set<string>, joins: map<string, string>, mapped: array<bool>, k: nat,
                         ghost hasOpener: bool, ghost hasHasher: bool)
    returns (err: Option<MeshError>, joins': map<string, string>)
    requires names == set name | name in Names(config.replicaSets)
    requires k < |config.mappings| && Scanned(config, joins, mapped[..], k)
    modifies mapped
    ensures err.None? ==> Scanned(config, joins', mapped[..], k + 1)
    ensures err.Some? ==> Rejected(config, hasOpener, hasHasher, err.value)
  {
    hide Join, AllIndexes, Count, SpecsOk, Rejected, MirrorsOk, MappingsOk, IndexesOk, Names;
    ghost var order, mappings := Names(config.replicaSets), config.mappings;
    var m := config.mappings[k];
    joins' := joins;
    if m.main !in names {
      MainFault(config, hasOpener, hasHasher, k);
      return Some(UnknownReplicaSet(m.main)), joins';
    }
    err := ValidateMirrors(names, order, m);
    if err.Some? {
      MirrorFault(config, hasOpener, hasHasher, k, err.value);
      return;
    }
    var configuration := Join(m.mirrors, NUL);
    if m.main in joins && joins[m.main] != configuration {
      ghost var i :| 0 <= i < k && mappings[i].main == m.main;
      JoinFault(config, hasOpener, hasHasher, i, k);
      return Some(MirrorConfiguration(m.main)), joins';
    }
    joins' := joins[m.main := configuration];
    err := MarkIndexes(mapped, m.indexes, AllIndexes(mappings[..k]));
    NextIndexes(mappings, k);
    if err.None? {
      MappingsNext(order, mappings, joins, k);
    } else {
      IndexFault(config, hasOpener, hasHasher, k, err.value);
    }
  }

  lemma MappingsNext(order: seq<string>, mappings: seq<Mapping>, joins: map<string, string>, k: nat)
    requires k < |mappings| && MappingsOk(order, mappings[..k])
    requires mappings[k].main in order && MirrorsOk(order, mappings[k])
    requires forall i :: 0 <= i < k ==>
      mappings[i].main in joins && joins[mappings[i].main] == Join(mappings[i].mirrors, NUL)
    requires mappings[k].main in joins ==> joins[mappings[k].main] == Join(mappings[k].mirrors, NUL)
    ensures MappingsOk(order, mappings[..k + 1])
  {
    hide Join, MirrorsOk;
    assert mappings[..k + 1][..k] == mappings[..k];
    assert forall i :: 0 <= i < k ==> mappings[..k + 1][i] == mappings[..k][i];
  }

  lemma ScannedNone(config: Config, mapped: seq<bool>)
    requires |mapped| == config.shardCount && forall i :: 0 <= i < |mapped| ==> !mapped[i]
    ensures Scanned(config, map[], mapped, 0)
  {
    assert config.mappings[..0] == [];
  }

  lemma ScannedAll(config: Config, joins: map<string, string>, mapped: seq<bool>)
    requires Scanned(config, joins, mapped, |config.mappings|)
    ensures MappingsOk(Names(config.replicaSets), config.mappings)
    ensures IndexesOk(config.shardCount, AllIndexes(config.mappings))
    ensures |mapped| == config.shardCount
    ensures forall i: nat | i < |mapped| :: mapped[i] <==> i in AllIndexes(config.mappings)
  {
    assert config.mappings[..|config.mappings|] == config.mappings;
  }

  lemma NextIndexes(mappings: seq<Mapping>, k: nat)
    requires k < |mappings|
    ensures AllIndexes(mappings[..k + 1]) == AllIndexes(mappings[..k]) + mappings[k].indexes
  {
    assert mappings[..k + 1][..k] == mappings[..k];
  }

  method ValidateMappings(config: Config, names: set<string>, ghost hasOpener: bool, ghost hasHasher: bool)
    returns (err: Option<MeshError>)
    requires config.replicaSets != [] && hasOpener && hasHasher && config.shardCount > 0
    requires SpecsOk(config.replicaSets) && names == set name | name in Names(config.replicaSets)
    ensures err.None? <==> ValidConfig(config, hasOpener, hasHasher)
    ensures err.Some? ==> Explains(config, hasOpener, hasHasher, err.value)
  {
    hide SpecsOk, Scanned, MappingsOk, IndexesOk, AllIndexes;
    var mapped := new bool[config.shardCount](_ => false);
    var joins: map<string, string> := map[];
    ScannedNone(config, mapped[..]);
    for k := 0 to |config.mappings|
      invariant Scanned(config, joins, mapped[..], k)
    {
      err, joins := ValidateMapping(config, names, joins, mapped, k, hasOpener, hasHasher);
      if err.Some? {
        return;
      }
    }
    ScannedAll(config, joins, mapped[..]);
    for i := 0 to mapped.Length
      invariant forall x: nat | x < i :: x in AllIndexes(config.mappings)
    {
      if !mapped[i] {
        return Some(NotMapped(i));
      }
    }
    err := None;
  }
}
