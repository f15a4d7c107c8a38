/** Where the writes of an opened mesh go. */
module MirrorWiring {
  import opened Basics
  import opened MeshConfig
  import opened WriteMirrors
  import opened Mesh
  import opened OpenMesh
  import opened Text

  // One shard

  function PrimariesOf(specs: seq<ReplicaSetSpec>, names: seq<string>): (nodes: seq<nat>)
    requires forall i :: 0 <= i < |names| ==> names[i] in Names(specs)
    ensures |nodes| == |names|
  {
    seq(|names|, i requires 0 <= i < |names| => PrimaryOf(specs, names[i]))
  }

  lemma {:induction false} ReachedBare(ws: seq<Writer>)
    requires forall i :: 0 <= i < |ws| ==> ws[i].mirrors == []
    ensures Reached(Present(ws)) == seq(|ws|, i requires 0 <= i < |ws| => ws[i].main)
  {
    if ws != [] {
      var init := ws[..|ws| - 1];
      assert Present(ws)[..|ws| - 1] == Present(init);
      ReachedBare(init);
    }
  }

  /** A write on a wired replica set calls its primary and then the primaries of the listed mirrors, in that order and
      nobody else: mirrors of a mirror are never reached, even when mappings mirror each other in a circle. It stops
      early only where the primary does not succeed or at a mirror error other than no rows. In a transaction only the
      transaction is called. */
  method WriteOnShard(config: Config, rs: ReplicaSet, ghost main: string, ghost mirrors: seq<string>, tx: Option<nat>,
                      answers: nat -> Answer)
    returns (trace: seq<nat>, err: Option<Answer>)
    requires WiredAs(config, rs, main, mirrors)
    ensures tx.Some? ==> trace == [tx.value]
    ensures tx.None? ==>
      var full := [PrimaryOf(config.replicaSets, main)] + PrimariesOf(config.replicaSets, mirrors);
      && trace <= full && trace != []
      && (!answers(0).Done? ==> |trace| == 1)
      && (answers(0).Done? && |trace| < |full| ==> answers(|trace| - 1).Failed?)
    ensures forall p: nat | 0 < p < |trace| - 1 :: !answers(p).Failed?
    ensures trace != []
    ensures err == if answers(|trace| - 1).Failed? || !answers(0).Done? then Some(answers(|trace| - 1)) else None
  {
    hide PrimaryOf;
    hide Reached, Present;
    var target := rs.SelectWrite();
    ReachedBare(rs.writeMirrors);
    assert Reached(Present(rs.writeMirrors)) == PrimariesOf(config.replicaSets, mirrors);
    if tx.Some? {
      target := WithTx(target, tx.value);
    }
    var kept;
    trace, kept, err := Write(target, answers);
  }

  // Whose mirror list counts

  lemma PrimariesDiffer(specs: seq<ReplicaSetSpec>, a: string, b: string)
    requires a in Names(specs) && b in Names(specs) && a != b
    ensures PrimaryOf(specs, a) != PrimaryOf(specs, b)
  {
    var i, j := IndexOf(Names(specs), a), IndexOf(Names(specs), b);
    if i < j {
      AllDSNsGrow(specs, i, j);
    } else {
      AllDSNsGrow(specs, j, i);
    }
  }

  /** Different name lists are different lists of writers. */
  lemma WritersDiffer(specs: seq<ReplicaSetSpec>, a: seq<string>, b: seq<string>)
    requires forall i :: 0 <= i < |a| ==> a[i] in Names(specs)
    requires forall i :: 0 <= i < |b| ==> b[i] in Names(specs)
    requires WritersOf(specs, a) == WritersOf(specs, b)
    ensures a == b
  {
    forall i | 0 <= i < |a| ensures a[i] == b[i] {
      assert WritersOf(specs, a)[i] == WritersOf(specs, b)[i];
      if a[i] != b[i] {
        PrimariesDiffer(specs, a[i], b[i]);
        assert false;
      }
    }
  }

  /** Every mapping that places a shard repeats the mirror list of the first mapping of its main replica set. */
  ghost predicate RepeatsFirst(mappings: seq<Mapping>) {
    forall j :: 0 <= j < |mappings| && mappings[j].indexes != [] ==>
      mappings[j].mirrors == FirstMirrors(mappings, mappings[j].main)
  }

  /** Every virtual shard writes to exactly the mirrors its own mapping lists, in order. */
  ghost predicate OwnMirrors(config: Config, mesh: Mesh)
    requires ValidConfig(config, true, true) && Routes(config, mesh)
  {
    forall j, i :: 0 <= j < |config.mappings| && 0 <= i < config.shardCount && i in config.mappings[j].indexes ==>
      WiredAs(config, mesh.virtualShards[i], config.mappings[j].main, config.mappings[j].mirrors)
  }

  /** An opened mesh honours every mirror list exactly when the mappings of each main replica set repeat one list. */
  lemma OwnMirrorsIffRepeated(config: Config, mesh: Mesh)
    requires ValidConfig(config, true, true) && Routes(config, mesh)
    ensures OwnMirrors(config, mesh) <==> RepeatsFirst(config.mappings)
  {
    hide FirstMirrors, AllIndexes, JoinsAgree, PrimaryOf, SpecsOk;
    if OwnMirrors(config, mesh) {
      forall j | 0 <= j < |config.mappings| && config.mappings[j].indexes != []
        ensures config.mappings[j].mirrors == FirstMirrors(config.mappings, config.mappings[j].main)
      {
        var m := config.mappings[j];
        var i := m.indexes[0];
        assert i in m.indexes;
        IndexesOfMapping(config.mappings, j, i);
        assert WiredAs(config, mesh.virtualShards[i], m.main, m.mirrors);
        assert WiredAs(config, mesh.virtualShards[i], m.main, FirstMirrors(config.mappings, m.main));
        WritersDiffer(config.replicaSets, m.mirrors, FirstMirrors(config.mappings, m.main));
      }
    }
  }

  // When joined lists tell lists apart

  ghost predicate NulFree(s: string) {
    forall i :: 0 <= i < |s| ==> s[i] != '\0'
  }

  ghost predicate Separable(parts: seq<string>) {
    forall i :: 0 <= i < |parts| ==> parts[i] != "" && NulFree(parts[i])
  }

  lemma {:induction false} JoinHead(parts: seq<string>, k: nat)
    requires parts != [] && Separable(parts) && k < |parts[0]|
    ensures k < |Join(parts, NUL)| && Join(parts, NUL)[k] == parts[0][k] != '\0'
  {
  }

  lemma JoinEmpty(parts: seq<string>)
    requires Separable(parts)
    ensures Join(parts, NUL) == "" <==> parts == []
  {
    if parts != [] {
      JoinHead(parts, 0);
    }
  }

  /** Joining with NUL loses nothing for non-empty NUL-free names. */
  lemma {:induction false} JoinInjective(a: seq<string>, b: seq<string>)
    requires Separable(a) && Separable(b) && Join(a, NUL) == Join(b, NUL)
    ensures a == b
  {
    JoinEmpty(a);
    JoinEmpty(b);
    if a != [] && b != [] {
      FirstParts(a, b);
      if |a| > 1 && |b| > 1 {
        assert Join(a, NUL)[|a[0]| + 1..] == Join(a[1..], NUL);
        assert Join(b, NUL)[|b[0]| + 1..] == Join(b[1..], NUL);
        JoinInjective(a[1..], b[1..]);
        assert a == [a[0]] + a[1..] && b == [b[0]] + b[1..];
      }
    }
  }

  lemma FirstParts(a: seq<string>, b: seq<string>)
    requires a != [] && b != [] && Separable(a) && Separable(b) && Join(a, NUL) == Join(b, NUL)
    ensures a[0] == b[0] && (|a| == 1 <==> |b| == 1)
  {
    var s := Join(a, NUL);
    forall k | 0 <= k < |a[0]| ensures s[k] == a[0][k] != '\0' {
      JoinHead(a, k);
    }
    forall k | 0 <= k < |b[0]| ensures s[k] == b[0][k] != '\0' {
      JoinHead(b, k);
    }
    assert |a| > 1 ==> s[|a[0]|] == '\0';
    assert |b| > 1 ==> s[|b[0]|] == '\0';
  }

  /** With NUL-free names the validator only accepts mappings that repeat their lists, so every opened mesh honours
      every list. */
  lemma NulFreeNamesRepeat(config: Config, mesh: Mesh)
    requires ValidConfig(config, true, true) && Routes(config, mesh)
    requires forall name | name in Names(config.replicaSets) :: NulFree(name)
    ensures OwnMirrors(config, mesh)
  {
    hide AllIndexes, WiredAs, FirstMirrors, Join;
    forall j | 0 <= j < |config.mappings| && config.mappings[j].indexes != []
      ensures config.mappings[j].mirrors == FirstMirrors(config.mappings, config.mappings[j].main)
    {
      var k := FirstMirrorsSource(config.mappings, config.mappings[j].main);
      ListedNamesSeparable(config, j);
      ListedNamesSeparable(config, k);
      JoinInjective(config.mappings[k].mirrors, config.mappings[j].mirrors);
    }
    OwnMirrorsIffRepeated(config, mesh);
  }

  lemma ListedNamesSeparable(config: Config, j: nat)
    requires ValidConfig(config, true, true) && j < |config.mappings|
    requires forall name | name in Names(config.replicaSets) :: NulFree(name)
    ensures Separable(config.mappings[j].mirrors)
  {
    hide AllIndexes, JoinsAgree, NulFree;
    var mirrors := config.mappings[j].mirrors;
    assert MirrorsOk(Names(config.replicaSets), config.mappings[j]);
    forall i | 0 <= i < |mirrors| ensures mirrors[i] != "" && NulFree(mirrors[i]) {
      var n :| 0 <= n < |config.replicaSets| && Names(config.replicaSets)[n] == mirrors[i];
      assert SpecOk(config.replicaSets[n]);
    }
  }

  const NUL_SPECS: seq<ReplicaSetSpec> :=
    [ReplicaSetSpec("m", "d", []), ReplicaSetSpec("a", "d", []), ReplicaSetSpec("b", "d", []),
     ReplicaSetSpec("a\0b", "d", [])]

  const NUL_MAPPINGS: seq<Mapping> := [Mapping([0], "m", ["a", "b"]), Mapping([1], "m", ["a\0b"])]

  const NUL_CONFIG := Config(NUL_SPECS, 2, NUL_MAPPINGS)

  /** A name with a NUL in it can hide two different lists behind one joined string: this configuration is accepted,
      although its second mapping asks for other mirrors than the first, and no mesh opened with it honours both. */
  lemma NulInNameHidesMirrors(mesh: Mesh)
    ensures ValidConfig(NUL_CONFIG, true, true)
    ensures !RepeatsFirst(NUL_MAPPINGS)
    ensures Routes(NUL_CONFIG, mesh) ==> !OwnMirrors(NUL_CONFIG, mesh)
  {
    NulIsAccepted();
    hide ValidConfig, Routes, OwnMirrors, RepeatsFirst;
    if Routes(NUL_CONFIG, mesh) {
      OwnMirrorsIffRepeated(NUL_CONFIG, mesh);
    }
  }

  lemma NulIsAccepted()
    ensures ValidConfig(NUL_CONFIG, true, true)
    ensures !RepeatsFirst(NUL_MAPPINGS)
  {
    hide Join, AllIndexes, SpecsOk, Names, MappingsOk;
    NulSpecs();
    NulJoins();
    NulIndexes();
    assert NUL_MAPPINGS[0].main == "m";
    assert FirstMirrors(NUL_MAPPINGS, "m") == ["a", "b"] != NUL_MAPPINGS[1].mirrors;
  }

  lemma NotBlank(s: string)
    requires s != "" && 'a' <= s[0] <= 'z'
    ensures !Blank(s)
  {
    assert !IsSpace(s[0]);
  }

  lemma NulSpecs()
    ensures SpecsOk(NUL_SPECS) && Names(NUL_SPECS) == ["m", "a", "b", "a\0b"]
  {
    hide Blank;
    NotBlank("m");
    NotBlank("a");
    NotBlank("b");
    NotBlank("d");
    NotBlank("a\0b");
    assert Names(NUL_SPECS) == ["m", "a", "b", "a\0b"];
  }

  lemma NulJoins()
    ensures MappingsOk(["m", "a", "b", "a\0b"], NUL_MAPPINGS)
  {
    assert ["a", "b"][1..] == ["b"];
    assert Join(["a", "b"], NUL) == "a" + NUL + Join(["b"], NUL) == "a\0b" == Join(["a\0b"], NUL);
  }

  lemma NulIndexes()
    ensures AllIndexes(NUL_MAPPINGS) == [0, 1]
  {
    assert NUL_MAPPINGS[..1] == [NUL_MAPPINGS[0]] && NUL_MAPPINGS[..1][..0] == [];
    assert AllIndexes(NUL_MAPPINGS[..1]) == AllIndexes([]) + [0];
  }
}
