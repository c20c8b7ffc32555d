/** What a passing fairness manifest proves about the four arms, and what it does
    not. */
module Fairness {
  import opened Util
  import opened Trace
  import opened Gate
  import opened DogfoodCapture
  import opened Assembler
  import opened Fingerprint
  import opened FingerprintTheorems
  import opened Workspace

  // ----- the comparisons -----

  lemma SubsetOfSameSize(l: set<string>, r: set<string>)
    requires l <= r && |l| == |r|
    ensures l == r
  {
    var rest := r - l;
    assert r == l + rest;
    assert |r| == |l| + |rest|;
  }

  /** Lists of ids are the same exactly when they have the same members. */
  lemma SameStringSetIff(left: seq<string>, right: seq<string>)
    ensures SameStringSet(left, right) <==> forall x :: x in left <==> x in right
  {
    var l, r := set x | x in left, set x | x in right;
    if SameStringSet(left, right) {
      SubsetOfSameSize(l, r);
      assert forall x :: x in left <==> x in l;
    }
    if forall x :: x in left <==> x in right {
      assert l == r;
    }
  }

  lemma AtMostOneIff(s: set<string>)
    ensures |s| <= 1 <==> forall x, y :: x in s && y in s ==> x == y
  {
    if |s| > 1 {
      var x :| x in s;
      var rest := s - {x};
      assert |rest| == |s| - 1;
      var y :| y in rest;
      assert x in s && y in s && x != y;
    } else if s != {} {
      var x :| x in s;
      assert |s - {x}| == 0;
      assert s == {x};
    }
  }

  /** Two arms that both record a value record the same one. */
  predicate AgreeWhereRecorded(values: seq<Option<string>>) {
    forall i, j :: 0 <= i < |values| && 0 <= j < |values| && values[i].GetOr("") != "" && values[j].GetOr("") != "" ==>
                     values[i] == values[j]
  }

  lemma MaybeSameIff(values: seq<Option<string>>)
    ensures MaybeSame(values) <==> AgreeWhereRecorded(values)
  {
    AtMostOneIff(Recorded(values));
    if MaybeSame(values) {
      forall i, j | 0 <= i < |values| && 0 <= j < |values| && values[i].GetOr("") != "" && values[j].GetOr("") != ""
        ensures values[i] == values[j]
      {
        assert values[i] in values && values[j] in values;
        assert values[i].value in Recorded(values) && values[j].value in Recorded(values);
      }
    }
    if AgreeWhereRecorded(values) {
      forall x, y | x in Recorded(values) && y in Recorded(values) ensures x == y {
        var i :| 0 <= i < |values| && values[i] == Some(x);
        var j :| 0 <= j < |values| && values[j] == Some(y);
      }
    }
  }

  // ----- arm by arm -----

  function Index(arm: Arm): (i: nat)
    ensures i < 4
  {
    match arm
    case Baseline => 0
    case AionisAssisted => 1
    case NegativeControl => 2
    case PositiveControl => 3
  }

  lemma ListedAt(arm: Arm)
    ensures RequiredArms[Index(arm)] == arm
  {
  }

  /** The value that an arm's environment holds. */
  function ValueOf(loaded: PerArm<Option<LoadedArm>>, get: Environment -> Option<string>, arm: Arm): Option<string> {
    var env := EnvironmentOf(loaded.Get(arm));
    if env.Some? then get(env.value) else None
  }

  lemma ValueAt(loaded: PerArm<Option<LoadedArm>>, get: Environment -> Option<string>, arm: Arm)
    ensures |ReadFrom(get, Environments(loaded))| == 4
    ensures ReadFrom(get, Environments(loaded))[Index(arm)] == ValueOf(loaded, get, arm)
  {
    ListedAt(arm);
  }

  /** Any two arms that both record this value record the same one. */
  predicate ArmsAgree(loaded: PerArm<Option<LoadedArm>>, get: Environment -> Option<string>) {
    forall a, b | Records(loaded, get, a) && Records(loaded, get, b) ::
      ValueOf(loaded, get, a) == ValueOf(loaded, get, b)
  }

  predicate Records(loaded: PerArm<Option<LoadedArm>>, get: Environment -> Option<string>, arm: Arm) {
    ValueOf(loaded, get, arm).GetOr("") != ""
  }

  function ArmAt(i: int): Arm {
    match i
    case 0 => Baseline
    case 1 => AionisAssisted
    case 2 => NegativeControl
    case _ => PositiveControl
  }

  lemma MaybeSameIffArmsAgree(loaded: PerArm<Option<LoadedArm>>, get: Environment -> Option<string>)
    ensures MaybeSame(ReadFrom(get, Environments(loaded))) <==> ArmsAgree(loaded, get)
  {
    var values := ReadFrom(get, Environments(loaded));
    MaybeSameIff(values);
    forall arm ensures |values| == 4 && values[Index(arm)] == ValueOf(loaded, get, arm) {
      ValueAt(loaded, get, arm);
    }
    if AgreeWhereRecorded(values) {
      forall a, b | Records(loaded, get, a) && Records(loaded, get, b)
        ensures ValueOf(loaded, get, a) == ValueOf(loaded, get, b)
      {
        assert values[Index(a)] == values[Index(b)];
      }
    }
    if ArmsAgree(loaded, get) {
      forall i, j | 0 <= i < 4 && 0 <= j < 4 && values[i].GetOr("") != "" && values[j].GetOr("") != ""
        ensures values[i] == values[j]
      {
        assert Index(ArmAt(i)) == i && Index(ArmAt(j)) == j;
        assert Records(loaded, get, ArmAt(i)) && Records(loaded, get, ArmAt(j));
      }
    }
  }

  predicate EveryArmHasEnvironment(loaded: PerArm<Option<LoadedArm>>) {
    forall arm :: EnvironmentOf(loaded.Get(arm)).Some?
  }

  lemma AllPresentIff(loaded: PerArm<Option<LoadedArm>>)
    ensures AllPresent(Environments(loaded)) <==> EveryArmHasEnvironment(loaded)
  {
    var envs := Environments(loaded);
    if AllPresent(envs) {
      forall arm ensures EnvironmentOf(loaded.Get(arm)).Some? {
        ListedAt(arm);
        assert envs[Index(arm)] in envs;
      }
    }
  }

  /** Every arm ran with the pinned value; or, with none pinned, any two arms
      that record one agree. */
  predicate Pinned(loaded: PerArm<Option<LoadedArm>>, pin: Option<string>, get: Environment -> Option<string>) {
    if pin.GetOr("") != "" then forall arm :: ValueOf(loaded, get, arm) == pin else ArmsAgree(loaded, get)
  }

  lemma PinnedOrSameIff(loaded: PerArm<Option<LoadedArm>>, pin: Option<string>, get: Environment -> Option<string>)
    requires EveryArmHasEnvironment(loaded)
    ensures PinnedOrSame(pin, get, Environments(loaded)) <==> Pinned(loaded, pin, get)
  {
    var envs := Environments(loaded);
    AllPresentIff(loaded);
    MaybeSameIffArmsAgree(loaded, get);
    assert envs[0] in envs;
    if PinnedOrSame(pin, get, envs) && pin.GetOr("") != "" {
      forall arm ensures ValueOf(loaded, get, arm) == pin {
        ListedAt(arm);
        assert envs[Index(arm)] in envs;
      }
    }
    if Pinned(loaded, pin, get) && pin.GetOr("") != "" {
      forall env | env in envs ensures env.Some? && get(env.value) == pin {
        var i :| 0 <= i < |envs| && envs[i] == env;
        assert ValueOf(loaded, get, RequiredArms[i]) == pin;
      }
    }
  }

  // ----- the manifest -----

  /** What the fairness manifest demands of the environments. */
  predicate EnvironmentsFair(f: FairnessManifest, loaded: PerArm<Option<LoadedArm>>) {
    && EveryArmHasEnvironment(loaded)
    && Pinned(loaded, f.model, ModelOf)
    && Pinned(loaded, f.reasoningEffort, ReasoningEffortOf)
    && Pinned(loaded, f.agentCli, AgentCliOf)
    && ArmsAgree(loaded, AgentCliVersionOf)
    && ArmsAgree(loaded, CommandHashOf)
    && ArmsAgree(loaded, InitialWorkspaceOf)
  }

  lemma EnvironmentReqsIff(f: FairnessManifest, loaded: PerArm<Option<LoadedArm>>)
    ensures AllOk(EnvironmentReqs(f, Environments(loaded))) <==> EnvironmentsFair(f, loaded)
  {
    SevenReqsIff(EnvironmentReqs(f, Environments(loaded)));
    AllPresentIff(loaded);
    if EveryArmHasEnvironment(loaded) {
      PinnedOrSameIff(loaded, f.model, ModelOf);
      PinnedOrSameIff(loaded, f.reasoningEffort, ReasoningEffortOf);
      PinnedOrSameIff(loaded, f.agentCli, AgentCliOf);
    }
    MaybeSameIffArmsAgree(loaded, AgentCliVersionOf);
    MaybeSameIffArmsAgree(loaded, CommandHashOf);
    MaybeSameIffArmsAgree(loaded, InitialWorkspaceOf);
  }

  lemma SevenReqsIff(rs: seq<Requirement>)
    requires |rs| == 7
    ensures AllOk(rs) <==> rs[0].ok && rs[1].ok && rs[2].ok && rs[3].ok && rs[4].ok && rs[5].ok && rs[6].ok
  {
  }

  /** What it demands of the verifier runs: a root must be recorded for every
      arm where one workspace is promised; the roots are not compared. */
  predicate ProvenanceFair(f: FairnessManifest, loaded: PerArm<Option<LoadedArm>>) {
    && (forall arm :: IsVersioned(RunProvenance(loaded.Get(arm))))
    && (f.sameVerifierWorkspace ==> forall arm :: RunProvenance(loaded.Get(arm)).workspaceRoot.Some?)
    && AllProbes(loaded) != [] && forall p :: p in AllProbes(loaded) ==> IsFreshShell(p.provenance)
  }

  lemma EveryRunIff(loaded: PerArm<Option<LoadedArm>>, p: Provenance -> bool)
    ensures (forall r :: r in Provenances(loaded) ==> p(r)) <==> forall arm :: p(RunProvenance(loaded.Get(arm)))
  {
    var runs := Provenances(loaded);
    if forall r :: r in runs ==> p(r) {
      forall arm ensures p(RunProvenance(loaded.Get(arm))) {
        ListedAt(arm);
        assert runs[Index(arm)] in runs;
      }
    }
    if forall arm :: p(RunProvenance(loaded.Get(arm))) {
      forall r | r in runs ensures p(r) {
        var i :| 0 <= i < |runs| && runs[i] == r;
        assert r == RunProvenance(loaded.Get(RequiredArms[i]));
      }
    }
  }

  lemma EveryProbeIff(probes: seq<Probe>)
    ensures (forall p :: p in ProbeProvenances(probes) ==> IsFreshShell(p)) <==>
            forall p :: p in probes ==> IsFreshShell(p.provenance)
  {
    var ps := ProbeProvenances(probes);
    if forall p :: p in ps ==> IsFreshShell(p) {
      forall p | p in probes ensures IsFreshShell(p.provenance) {
        var i :| 0 <= i < |probes| && probes[i] == p;
        assert ps[i] in ps;
      }
    }
  }

  predicate HasRoot(p: Provenance) { p.workspaceRoot.Some? }

  lemma ProvenanceReqsIff(f: FairnessManifest, loaded: PerArm<Option<LoadedArm>>)
    ensures AllOk(ProvenanceReqs(f, Provenances(loaded), ProbeProvenances(AllProbes(loaded)))) <==>
            ProvenanceFair(f, loaded)
  {
    var rs := ProvenanceReqs(f, Provenances(loaded), ProbeProvenances(AllProbes(loaded)));
    assert rs[0] in rs && rs[1] in rs && rs[2] in rs;
    EveryRunIff(loaded, IsVersioned);
    EveryRunIff(loaded, HasRoot);
    EveryProbeIff(AllProbes(loaded));
  }

  predicate PacketsMatch(f: FairnessManifest, arms: PerArm<Option<ArmManifest>>) {
    forall arm :: arms.Get(arm).Some? && arms.Get(arm).value.packetSource == f.packetSources.Get(arm)
  }

  lemma PacketReqsIff(f: FairnessManifest, arms: PerArm<Option<ArmManifest>>)
    ensures AllOk(FlatMap(PacketReqs(f, arms), RequiredArms)) <==> PacketsMatch(f, arms)
  {
    AllOkForArms(PacketReqs(f, arms));
    forall arm
      ensures AllOk(PacketReqs(f, arms)(arm)) <==>
              arms.Get(arm).Some? && arms.Get(arm).value.packetSource == f.packetSources.Get(arm)
    {
      assert PacketReqs(f, arms)(arm)[0] in PacketReqs(f, arms)(arm);
    }
  }

  lemma FrozenEntriesIff(frozen: seq<(string, bool)>)
    ensures AllOk(FlatMap(FrozenEntry, frozen)) <==> forall entry :: entry in frozen ==> entry.1
  {
    AllOkFlatMap(FrozenEntry, frozen);
    forall entry: (string, bool) ensures AllOk(FrozenEntry(entry)) <==> entry.1 {
      assert FrozenEntry(entry)[0] in FrozenEntry(entry);
    }
  }

  lemma FrozenIdsIff(f: FairnessManifest, m: Manifest)
    ensures AllOk([Requirement(OfSuite, FairnessVersionSupported, f.version == Supported),
                   Requirement(OfSuite, SameTaskIds, SameStringSet(f.taskIds, m.taskIds))]) <==>
            f.version == Supported && forall x :: x in f.taskIds <==> x in m.taskIds
  {
    var rs := [Requirement(OfSuite, FairnessVersionSupported, f.version == Supported),
               Requirement(OfSuite, SameTaskIds, SameStringSet(f.taskIds, m.taskIds))];
    assert rs[0] in rs && rs[1] in rs;
    SameStringSetIff(f.taskIds, m.taskIds);
  }

  /** The whole validator of the fairness manifest, arm by arm. */
  lemma FrozenReqsIff(f: FairnessManifest, m: Manifest, loaded: PerArm<Option<LoadedArm>>)
    ensures AllOk(FrozenReqs(f, m, loaded)) <==>
            && f.version == Supported && (forall x :: x in f.taskIds <==> x in m.taskIds)
            && (forall entry :: entry in f.frozen ==> entry.1)
            && EnvironmentsFair(f, loaded) && ProvenanceFair(f, loaded) && PacketsMatch(f, m.arms)
            && !(m.arms.aionis.Some? && m.arms.aionis.value.hinted)
  {
    var ids := [Requirement(OfSuite, FairnessVersionSupported, f.version == Supported),
                Requirement(OfSuite, SameTaskIds, SameStringSet(f.taskIds, m.taskIds))];
    var entries, hints := FlatMap(FrozenEntry, f.frozen), HintReqs(m.arms);
    var packets := FlatMap(PacketReqs(f, m.arms), RequiredArms);
    var envs := EnvironmentReqs(f, Environments(loaded));
    var runs := ProvenanceReqs(f, Provenances(loaded), ProbeProvenances(AllProbes(loaded)));
    AllOkOfSix(ids, entries, envs, runs, packets, hints);
    FrozenIdsIff(f, m);
    FrozenEntriesIff(f.frozen);
    EnvironmentReqsIff(f, loaded);
    ProvenanceReqsIff(f, loaded);
    PacketReqsIff(f, m.arms);
    assert AllOk(hints) <==> hints[0].ok by { assert hints[0] in hints; }
  }

  lemma AllOkOfSix(a: seq<Requirement>, b: seq<Requirement>, c: seq<Requirement>, d: seq<Requirement>,
                   e: seq<Requirement>, f: seq<Requirement>)
    ensures AllOk((a + b + c + d) + e + f) <==> AllOk(a) && AllOk(b) && AllOk(c) && AllOk(d) && AllOk(e) && AllOk(f)
  {
    AllOkAppend(a, b);
    AllOkAppend(a + b, c);
    AllOkAppend(a + b + c, d);
    AllOkAppend(a + b + c + d, e);
    AllOkAppend(a + b + c + d + e, f);
  }

  // ----- the starting point of the arms -----

  /** The hash that an arm recorded before its run is the fingerprint of `root`. */
  ghost predicate StartedFrom(loaded: PerArm<Option<LoadedArm>>, arm: Arm, le: (string, string) -> bool,
                              sha: string -> string, read: Reader, root: Node)
    requires Reads(read, root, [])
  {
    Records(loaded, InitialWorkspaceOf, arm)
    && ValueOf(loaded, InitialWorkspaceOf, arm) == Some(FingerprintOf(le, sha, read, root).hash)
  }

  /** When the assembler accepts a fairness manifest, any two arms that recorded
      a fingerprint started from workspaces that show the same files, unless the
      hash collides on them. */
  lemma ArmsStartFromSameFiles(m: Manifest, loaded: PerArm<Option<LoadedArm>>, a: Arm, b: Arm,
                               le: (string, string) -> bool, sha: string -> string,
                               readA: Reader, rootA: Node, readB: Reader, rootB: Node)
    requires AllOk(FairnessManifestReqs(m, loaded)) && m.fairnessManifest.Some?
    requires IsTree(readA, rootA) && IsTree(readB, rootB)
    requires StartedFrom(loaded, a, le, sha, readA, rootA) && StartedFrom(loaded, b, le, sha, readB, rootB)
    requires NoCollision(le, sha, readA, rootA, readB, rootB)
    ensures SameFiles(RulesFor(le), rootA, rootB)
  {
    FrozenReqsIff(m.fairnessManifest.value, m, loaded);
    assert ArmsAgree(loaded, InitialWorkspaceOf);
    EqualHashesShowSameFiles(le, sha, readA, rootA, readB, rootB);
  }
}
