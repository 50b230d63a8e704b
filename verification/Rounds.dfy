/** A round of all definitions, then all specifications, then all hubs: with nothing changed from outside
    and no copies in the way, a second one changes nothing in the whole cluster. */
module Rounds {
  import opened Wrappers
  import opened Objects
  import opened Cluster
  import opened Publishing
  import opened Locality
  import opened Runs
  import opened Provenance
  import D = DefinitionController
  import S = SpecificationController
  import H = HubController
  import P = HubProperties

  // ---- Rounds ---------------------------------------------------------------------------------

  /** A reconciled resource; `None` for a change from outside. */
  function ResourceOf(step: Step): Option<Resource> {
    match step
    case DefinitionReconciled(d, _) => Some(Resource(DefinitionKind, d))
    case SpecificationReconciled(s, _) => Some(Resource(SpecificationKind, s))
    case HubReconciled(h, _) => Some(Resource(HubKind, h))
    case Changed(_) => None
  }

  function Rank(kind: Kind): int {
    match kind case DefinitionKind => 0 case SpecificationKind => 1 case HubKind => 2
  }

  /** The second step may follow the first one: another resource, and no earlier stage. */
  predicate Follows(a: Step, b: Step) {
    && ResourceOf(a).Some? && ResourceOf(b).Some? && ResourceOf(a) != ResourceOf(b)
    && Rank(ResourceOf(a).value.kind) <= Rank(ResourceOf(b).value.kind)
  }

  /** Every resource once, definitions first and hubs last; with any failures. */
  predicate IsRound(round: seq<Step>) {
    && (forall step | step in round :: ResourceOf(step).Some?)
    && forall i, j | 0 <= i < j < |round| :: Follows(round[i], round[j])
  }

  /** No copy lands on the ConfigMap of a resource, nor on the copy of another one. */
  ghost predicate CopiesApart(universe: Universe) {
    && (forall p | p in universe.producers :: Undisturbed(universe, StoreOf(p)))
    && forall e, f, n | e in universe.producers && f in universe.producers && n in universe.hubNamespaces && e != f ::
         IsNative(RefOf(e), n) || IsNative(RefOf(f), n) || SlotOf(RefOf(e), n) != SlotOf(RefOf(f), n)
  }

  /** Everything in the cluster is in the universe. */
  predicate Inhabits(w: Snapshot, universe: Universe) {
    && (forall d | d in w.definitions :: OfDefinition(d) in universe.producers)
    && (forall s | s in w.specifications :: OfSpecification(s) in universe.producers)
    && forall h | h in w.hubs :: h.namespace in universe.hubNamespaces
  }

  // ---- What a later step leaves alone ---------------------------------------------------------

  /** The parts of the cluster that later steps of a round may touch, as one step touches them. */
  ghost predicate LeavesAlone(w: Snapshot, after: Snapshot, step: Step) {
    && after.namespaces == w.namespaces
    && (forall k | ResourceOf(step) != Some(Resource(DefinitionKind, k)) :: SameAt(w.definitions, after.definitions, k))
    && (forall k | ResourceOf(step) != Some(Resource(SpecificationKind, k)) ::
        SameAt(w.specifications, after.specifications, k))
    && (forall k | ResourceOf(step) != Some(Resource(HubKind, k)) :: SameAt(w.hubs, after.hubs, k))
  }

  lemma DefinitionLeavesAlone(w: Snapshot, after: Snapshot, d: Key, inputs: D.Inputs)
    requires D.Writes(w, after, d)
    ensures LeavesAlone(w, after, DefinitionReconciled(d, inputs))
  {}

  lemma SpecificationLeavesAlone(w: Snapshot, after: Snapshot, s: Key, inputs: S.Inputs)
    requires S.Writes(w, after, s)
    ensures LeavesAlone(w, after, SpecificationReconciled(s, inputs))
  {}

  lemma HubLeavesAlone(w: Snapshot, after: Snapshot, h: Key, inputs: H.Inputs)
    requires P.Writes(w, after, h)
    ensures LeavesAlone(w, after, HubReconciled(h, inputs))
  {}

  lemma StepLeavesAlone(setting: Setting, w: Snapshot, step: Step)
    requires ResourceOf(step).Some?
    ensures LeavesAlone(w, System(setting)(w, step), step)
  {
    var after := System(setting)(w, step);
    match step
    case DefinitionReconciled(d, inputs) =>
      D.StepWrites(w, d, inputs);
      DefinitionLeavesAlone(w, after, d, inputs);
    case SpecificationReconciled(s, inputs) =>
      S.StepWrites(setting.libs, w, s, inputs);
      SpecificationLeavesAlone(w, after, s, inputs);
    case HubReconciled(h, inputs) =>
      P.StepWrites(setting.platform, w, h, inputs);
      HubLeavesAlone(w, after, h, inputs);
    case Changed(_) =>
  }

  /** With copies apart, a hub leaves the ConfigMaps of all resources. */
  lemma HubLeavesStores(platform: H.Platform, universe: Universe, w: Snapshot, h: Key, inputs: H.Inputs, p: Producer)
    requires CopiesApart(universe) && Inhabits(w, universe) && p in universe.producers
    ensures SameAt(w.configMaps, H.HubStep(platform, w, h, inputs).configMaps, StoreOf(p))
  {
    P.StepCopies(platform, w, h, inputs);
    if h in w.hubs {
      var refs := P.HubRefs(w, h, inputs);
      LoopEffect(w.configMaps, inputs.calls, refs, h.namespace, H.FrontendURL(w.hubs[h]), StoreOf(p));
      forall i | 0 <= i < |refs| ensures !CopiesTo(w.configMaps, refs[i], h.namespace, StoreOf(p)) {
        var e := HubRefsExist(w, h, inputs, i);
        assert e in universe.producers;
      }
    }
  }

  /** A hub changes the copy of a resource to nothing but that copy. */
  lemma HubLeavesCopies(platform: H.Platform, universe: Universe, w: Snapshot, g: Key, inputs: H.Inputs, e: Producer,
                        hubNamespace: string)
    requires CopiesApart(universe) && Inhabits(w, universe)
    requires e in universe.producers && hubNamespace in universe.hubNamespaces && !IsNative(RefOf(e), hubNamespace)
    ensures var k, after := SlotOf(RefOf(e), hubNamespace), H.HubStep(platform, w, g, inputs).configMaps;
            SameAt(w.configMaps, after, k) ||
            (StoreOf(e) in w.configMaps && k in after && after[k] == w.configMaps[StoreOf(e)])
  {
    var k := SlotOf(RefOf(e), hubNamespace);
    P.StepCopies(platform, w, g, inputs);
    if g in w.hubs {
      var refs := P.HubRefs(w, g, inputs);
      LoopEffect(w.configMaps, inputs.calls, refs, g.namespace, H.FrontendURL(w.hubs[g]), k);
      forall i | 0 <= i < |refs| && CopiesTo(w.configMaps, refs[i], g.namespace, k) ensures refs[i] == RefOf(e) {
        var f := HubRefsExist(w, g, inputs, i);
        assert f in universe.producers && g.namespace == hubNamespace;
      }
    }
  }

  lemma OtherHubsObjects(platform: H.Platform, w: Snapshot, g: Key, inputs: H.Inputs, h: Key)
    requires g != h
    ensures var after := H.HubStep(platform, w, g, inputs);
            && SameAt(w.services, after.services, H.ObjectKeyOf(h))
            && SameAt(w.deployments, after.deployments, H.ObjectKeyOf(h))
  {
    assert H.ObjectKeyOf(g).name[|"swagger-ui-"|..] == g.name && H.ObjectKeyOf(h).name[|"swagger-ui-"|..] == h.name;
    if g in w.hubs {
      P.OnlyOwnedObjects(platform, w, g, inputs);
    }
  }

  lemma OtherStore(a: map<Key, ConfigMap>, b: map<Key, ConfigMap>, p: Producer, other: Producer)
    requires p != other && a - {StoreOf(other)} == b - {StoreOf(other)}
    ensures SameAt(a, b, StoreOf(p))
  {
    StoresAreDistinct(p, other);
    assert StoreOf(p) in a <==> StoreOf(p) in a - {StoreOf(other)};
    assert StoreOf(p) in b <==> StoreOf(p) in b - {StoreOf(other)};
  }

  lemma DefinitionLeavesStore(w: Snapshot, after: Snapshot, d: Key, p: Producer)
    requires D.Writes(w, after, d) && p != OfDefinition(d)
    ensures SameAt(w.configMaps, after.configMaps, StoreOf(p))
  {
    OtherStore(w.configMaps, after.configMaps, p, OfDefinition(d));
  }

  lemma SpecificationLeavesStore(w: Snapshot, after: Snapshot, s: Key, p: Producer)
    requires S.Writes(w, after, s) && p != OfSpecification(s)
    ensures SameAt(w.configMaps, after.configMaps, StoreOf(p))
  {
    OtherStore(w.configMaps, after.configMaps, p, OfSpecification(s));
  }

  /** Other resources leave the ConfigMap of a resource. */
  lemma StoreLeft(setting: Setting, universe: Universe, w: Snapshot, step: Step, p: Producer)
    requires CopiesApart(universe) && Inhabits(w, universe) && p in universe.producers
    requires ResourceOf(step).Some? && ResourceOf(step) != Some(ResourceOfProducer(p))
    ensures SameAt(w.configMaps, System(setting)(w, step).configMaps, StoreOf(p))
  {
    match step
    case DefinitionReconciled(d, inputs) =>
      D.StepWrites(w, d, inputs);
      DefinitionLeavesStore(w, D.DefinitionStep(w, d, inputs), d, p);
    case SpecificationReconciled(s, inputs) =>
      S.StepWrites(setting.libs, w, s, inputs);
      SpecificationLeavesStore(w, S.SpecificationStep(setting.libs, w, s, inputs), s, p);
    case HubReconciled(h, inputs) => HubLeavesStores(setting.platform, universe, w, h, inputs, p);
    case Changed(_) =>
  }

  /** All ConfigMaps of other resources are left. */
  ghost predicate LeavesStores(universe: Universe, w: Snapshot, after: Snapshot, step: Step) {
    forall p | p in universe.producers && ResourceOf(step) != Some(ResourceOfProducer(p)) ::
      SameAt(w.configMaps, after.configMaps, StoreOf(p))
  }

  lemma StoresLeft(setting: Setting, universe: Universe, w: Snapshot, step: Step)
    requires CopiesApart(universe) && Inhabits(w, universe) && ResourceOf(step).Some?
    ensures LeavesStores(universe, w, System(setting)(w, step), step)
  {
    forall p | p in universe.producers && ResourceOf(step) != Some(ResourceOfProducer(p))
      ensures SameAt(w.configMaps, System(setting)(w, step).configMaps, StoreOf(p))
    {
      StoreLeft(setting, universe, w, step, p);
    }
  }

  function ResourceOfProducer(p: Producer): Resource {
    match p
    case OfDefinition(k) => Resource(DefinitionKind, k)
    case OfSpecification(k) => Resource(SpecificationKind, k)
  }

  // ---- A fixed step stays fixed ---------------------------------------------------------------

  lemma DefinitionKept(setting: Setting, universe: Universe, w: Snapshot, d: Key, inputs: D.Inputs, step: Step)
    requires CopiesApart(universe) && Inhabits(w, universe) && Follows(DefinitionReconciled(d, inputs), step)
    requires D.DefinitionStep(w, d, inputs) == w
    ensures var after := System(setting)(w, step); D.DefinitionStep(after, d, inputs) == after
  {
    StepLeavesAlone(setting, w, step);
    if d in w.definitions {
      StoreLeft(setting, universe, w, step, OfDefinition(d));
      DefinitionStaysFixed(w, System(setting)(w, step), d, inputs);
    }
  }

  lemma SpecificationKept(setting: Setting, universe: Universe, w: Snapshot, s: Key, inputs: S.Inputs, step: Step)
    requires CopiesApart(universe) && Inhabits(w, universe) && Follows(SpecificationReconciled(s, inputs), step)
    requires S.SpecificationStep(setting.libs, w, s, inputs) == w
    ensures var after := System(setting)(w, step); S.SpecificationStep(setting.libs, after, s, inputs) == after
  {
    if s in w.specifications {
      var after := System(setting)(w, step);
      StepLeavesAlone(setting, w, step);
      StoresLeft(setting, universe, w, step);
      LaterStepsWrite(setting, w, step);
      SpecificationInputsKept(universe, w, after, s, inputs, step);
      SpecificationStaysFixed(setting.libs, w, after, s, inputs);
    } else {
      StepLeavesAlone(setting, w, step);
    }
  }

  lemma SpecificationInputsKept(universe: Universe, w: Snapshot, after: Snapshot, s: Key, inputs: S.Inputs, step: Step)
    requires Inhabits(w, universe) && Follows(SpecificationReconciled(s, inputs), step) && s in w.specifications
    requires LeavesAlone(w, after, step) && LeavesStores(universe, w, after, step) && after.definitions == w.definitions
    ensures SameForSpecification(w, after, s)
  {
    forall d | d in w.definitions ensures SameAt(w.configMaps, after.configMaps, DefinitionStore(d)) {
      assert OfDefinition(d) in universe.producers && StoreOf(OfDefinition(d)) == DefinitionStore(d);
    }
    assert OfSpecification(s) in universe.producers && StoreOf(OfSpecification(s)) == SpecificationStore(s);
  }

  lemma LaterStepsWrite(setting: Setting, w: Snapshot, step: Step)
    requires step.SpecificationReconciled? || step.HubReconciled?
    ensures System(setting)(w, step).definitions == w.definitions
    ensures step.HubReconciled? ==> System(setting)(w, step).specifications == w.specifications
  {
    match step
    case SpecificationReconciled(s, inputs) => S.StepWrites(setting.libs, w, s, inputs);
    case HubReconciled(h, inputs) => P.StepWrites(setting.platform, w, h, inputs);
    case _ =>
  }

  lemma HubKept(platform: H.Platform, universe: Universe, w: Snapshot, h: Key, inputs: H.Inputs, g: Key,
                later: H.Inputs)
    requires CopiesApart(universe) && Inhabits(w, universe) && g != h
    requires H.HubStep(platform, w, h, inputs) == w
    ensures var after := H.HubStep(platform, w, g, later); H.HubStep(platform, after, h, inputs) == after
  {
    var after := H.HubStep(platform, w, g, later);
    P.StepWrites(platform, w, g, later);
    if h in w.hubs {
      OtherHubsObjects(platform, w, g, later, h);
      HubRefsKept(platform, universe, w, h, inputs, g, later);
      HubRefsApart(universe, w, h, inputs);
    }
    HubStaysFixed(platform, w, after, h, inputs);
  }

  lemma HubRefsKept(platform: H.Platform, universe: Universe, w: Snapshot, h: Key, inputs: H.Inputs, g: Key,
                    later: H.Inputs)
    requires CopiesApart(universe) && Inhabits(w, universe) && h in w.hubs
    ensures SameForRefs(w.configMaps, H.HubStep(platform, w, g, later).configMaps, P.HubRefs(w, h, inputs), h.namespace)
  {
    var refs := P.HubRefs(w, h, inputs);
    forall i | 0 <= i < |refs|
      ensures SameForRef(w.configMaps, H.HubStep(platform, w, g, later).configMaps, refs[i], h.namespace)
    {
      var e := HubRefsExist(w, h, inputs, i);
      assert e in universe.producers;
      HubLeavesStores(platform, universe, w, g, later, e);
      if !IsNative(refs[i], h.namespace) {
        HubLeavesCopies(platform, universe, w, g, later, e, h.namespace);
      }
    }
  }

  lemma HubRefsApart(universe: Universe, w: Snapshot, h: Key, inputs: H.Inputs)
    requires CopiesApart(universe) && Inhabits(w, universe) && h in w.hubs
    ensures SlotsApart(P.HubRefs(w, h, inputs), h.namespace)
  {
    var refs := P.HubRefs(w, h, inputs);
    forall i, j | 0 <= i < |refs| && 0 <= j < |refs| && !IsNative(refs[i], h.namespace) &&
                  !IsNative(refs[j], h.namespace) && SlotOf(refs[i], h.namespace) == SlotOf(refs[j], h.namespace)
      ensures SourceOf(refs[i]) == SourceOf(refs[j])
    {
      var e := HubRefsExist(w, h, inputs, i);
      var f := HubRefsExist(w, h, inputs, j);
      assert e in universe.producers && f in universe.producers;
    }
  }

  lemma StepKept(setting: Setting, universe: Universe, w: Snapshot, a: Step, b: Step)
    requires CopiesApart(universe) && Inhabits(w, universe) && Follows(a, b)
    requires System(setting)(w, a) == w
    ensures System(setting)(System(setting)(w, b), a) == System(setting)(w, b)
  {
    match a
    case DefinitionReconciled(d, inputs) => DefinitionKept(setting, universe, w, d, inputs, b);
    case SpecificationReconciled(s, inputs) => SpecificationKept(setting, universe, w, s, inputs, b);
    case HubReconciled(h, inputs) => HubKept(setting.platform, universe, w, h, inputs, b.h, b.hubInputs);
    case Changed(_) =>
  }

  lemma StepRepeats(setting: Setting, w: Snapshot, step: Step)
    requires P.LawfulPlatform(setting.platform) && ResourceOf(step).Some?
    ensures System(setting)(System(setting)(w, step), step) == System(setting)(w, step)
  {
    match step
    case DefinitionReconciled(d, inputs) => D.DefinitionIsFixpoint(w, d, inputs);
    case SpecificationReconciled(s, inputs) => S.SpecificationIsFixpoint(setting.libs, w, s, inputs);
    case HubReconciled(h, inputs) => P.HubIsFixpoint(setting.platform, w, h, inputs);
    case Changed(_) =>
  }

  // ---- The round ------------------------------------------------------------------------------

  /** A step taken again changes nothing. */
  predicate Repeats(next: Semantics, w: Snapshot, step: Step) {
    next(next(w, step), step) == next(w, step)
  }

  /** A step that changes nothing still does not after a later one. */
  predicate Keeps(next: Semantics, w: Snapshot, a: Step, b: Step) {
    next(w, a) == w ==> next(next(w, b), a) == next(w, b)
  }

  predicate StaysInside(next: Semantics, universe: Universe, w: Snapshot, step: Step) {
    Inhabits(next(w, step), universe)
  }

  /** What the induction over a round needs of the system. */
  ghost predicate IsCalm(next: Semantics, universe: Universe) {
    && (forall w, step | Inhabits(w, universe) && ResourceOf(step).Some? :: StaysInside(next, universe, w, step))
    && (forall w, step | ResourceOf(step).Some? :: Repeats(next, w, step))
    && (forall w, a, b | Inhabits(w, universe) && Follows(a, b) :: Keeps(next, w, a, b))
  }

  lemma SystemIsCalm(setting: Setting, universe: Universe)
    requires P.LawfulPlatform(setting.platform) && CopiesApart(universe)
    ensures IsCalm(System(setting), universe)
  {
    var next := System(setting);
    forall w, step | Inhabits(w, universe) && ResourceOf(step).Some? ensures StaysInside(next, universe, w, step) {
      StepInhabits(setting, universe, w, step);
    }
    forall w, step | ResourceOf(step).Some? ensures Repeats(next, w, step) {
      StepRepeats(setting, w, step);
    }
    forall w, a, b | Inhabits(w, universe) && Follows(a, b) ensures Keeps(next, w, a, b) {
      if next(w, a) == w {
        StepKept(setting, universe, w, a, b);
      }
    }
  }

  lemma StepInhabits(setting: Setting, universe: Universe, w: Snapshot, step: Step)
    requires Inhabits(w, universe) && ResourceOf(step).Some?
    ensures Inhabits(System(setting)(w, step), universe)
  {
    match step
    case DefinitionReconciled(d, inputs) => D.StepWrites(w, d, inputs);
    case SpecificationReconciled(s, inputs) => S.StepWrites(setting.libs, w, s, inputs);
    case HubReconciled(h, inputs) => P.StepWrites(setting.platform, w, h, inputs);
    case Changed(_) =>
  }

  lemma {:induction false} FixedSoFar(next: Semantics, universe: Universe, w: Snapshot, round: seq<Step>)
    requires IsCalm(next, universe) && Inhabits(w, universe) && IsRound(round)
    ensures Inhabits(After(next, w, round), universe)
    ensures forall i | 0 <= i < |round| :: next(After(next, w, round), round[i]) == After(next, w, round)
  {
    if round != [] {
      var n := |round| - 1;
      var before, step := After(next, w, round[..n]), round[n];
      assert step in round && forall s | s in round[..n] :: s in round;
      FixedSoFar(next, universe, w, round[..n]);
      assert StaysInside(next, universe, before, step) && Repeats(next, before, step);
      forall i | 0 <= i < n ensures next(next(before, step), round[i]) == next(before, step) {
        assert round[..n][i] == round[i];
        assert Keeps(next, before, round[i], step);
      }
    }
  }

  lemma {:induction false} NothingHappens(next: Semantics, w: Snapshot, run: seq<Step>)
    requires forall step | step in run :: next(w, step) == w
    ensures After(next, w, run) == w
  {
    if run != [] {
      NothingHappens(next, w, run[..|run| - 1]);
      assert run[|run| - 1] in run;
    }
  }

  /** A second round, with the same failures as the first one, changes nothing in the whole cluster: no
      ConfigMap, service, deployment or status. */
  lemma RoundIsFixpoint(setting: Setting, universe: Universe, w: Snapshot, round: seq<Step>)
    requires P.LawfulPlatform(setting.platform) && CopiesApart(universe) && Inhabits(w, universe) && IsRound(round)
    ensures var after := After(System(setting), w, round);
            After(System(setting), after, round) == after
  {
    SystemIsCalm(setting, universe);
    FixedSoFar(System(setting), universe, w, round);
    NothingHappens(System(setting), After(System(setting), w, round), round);
  }
}
