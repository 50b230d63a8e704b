/** Where the bytes in a ConfigMap come from, over whole runs. */
module Provenance {
  import opened Wrappers
  import opened Objects
  import opened Selectors
  import opened Conditions
  import opened Unification
  import opened Cluster
  import opened Selection
  import opened Publishing
  import opened Serving
  import opened Runs
  import D = DefinitionController
  import S = SpecificationController
  import H = HubController
  import P = HubProperties

  /** What produces the content of a ConfigMap. */
  datatype Producer = OfDefinition(k: Key) | OfSpecification(k: Key)

  function RefOf(p: Producer): MountRef {
    match p
    case OfDefinition(k) => DefinitionRef(k)
    case OfSpecification(k) => SpecificationRef(k)
  }

  /** The ConfigMap of a producer. */
  function StoreOf(p: Producer): Key {
    SourceOf(RefOf(p))
  }

  /** The producers of a cluster. */
  predicate Exists(w: Snapshot, e: Producer) {
    if e.OfDefinition? then e.k in w.definitions else e.k in w.specifications
  }

  lemma StoresAreDistinct(a: Producer, b: Producer)
    ensures StoreOf(a) == StoreOf(b) ==> a == b
  {
    ConfigMapNamesInjective(a.k.name, b.k.name);
    ConfigMapKindsDiffer(a.k.name, b.k.name);
    ConfigMapKindsDiffer(b.k.name, a.k.name);
  }

  /** What a step produces for `p`: the body of a successful fetch, or a unified document. */
  ghost function Produced(setting: Setting, w: Snapshot, step: Step, p: Producer): Option<Bytes> {
    if step.DefinitionReconciled? && p == OfDefinition(step.d) then D.Produced(w, step.d, step.definitionInputs)
    else if step.SpecificationReconciled? && p == OfSpecification(step.s)
    then S.Produced(setting.libs, w, step.s, step.specificationInputs)
    else None
  }

  type Production = (Snapshot, Step) -> Option<Bytes>

  ghost function ProductionOf(setting: Setting, p: Producer): Production {
    (w, step) => Produced(setting, w, step, p)
  }

  /** The last thing that a run produced, or else what was there before. */
  ghost function Latest(next: Semantics, produced: Production, w: Snapshot, run: seq<Step>,
                        initial: Option<Bytes>): Option<Bytes> {
    if run == [] then initial
    else
      var before := run[..|run| - 1];
      var now := produced(After(next, w, before), run[|run| - 1]);
      if now.Some? then now else Latest(next, produced, w, before, initial)
  }

  /** Where the runs take place: the definitions and specifications, and the namespaces of the hubs. */
  datatype Universe = Universe(producers: set<Producer>, hubNamespaces: set<string>)

  /** A step within the universe, by which nobody else writes the ConfigMap `k`. */
  ghost predicate Within(universe: Universe, w: Snapshot, step: Step, k: Key) {
    && (forall d | d in w.definitions :: OfDefinition(d) in universe.producers)
    && (forall s | s in w.specifications :: OfSpecification(s) in universe.producers)
    && (step.HubReconciled? ==> step.h.namespace in universe.hubNamespaces)
    && (step.Changed? && step.change.SetConfigMap? ==> step.change.k != k)
  }

  ghost predicate RunWithin(next: Semantics, universe: Universe, w: Snapshot, run: seq<Step>, k: Key) {
    forall i | 0 <= i < |run| :: Within(universe, After(next, w, run[..i]), run[i], k)
  }

  /** No hub of the universe copies anything onto the ConfigMap `k`. */
  ghost predicate Undisturbed(universe: Universe, k: Key) {
    forall e, n | e in universe.producers && n in universe.hubNamespaces ::
      IsNative(RefOf(e), n) || SlotOf(RefOf(e), n) != k
  }

  // ---- One step -------------------------------------------------------------------------------

  function Newer(now: Option<Bytes>, before: Option<Bytes>): Option<Bytes> {
    if now.Some? then now else before
  }

  lemma DefinitionProduces(w: Snapshot, d: Key, inputs: D.Inputs, p: Producer)
    ensures Content(D.DefinitionStep(w, d, inputs).configMaps, StoreOf(p)) ==
            Newer(if p == OfDefinition(d) then D.Produced(w, d, inputs) else None, Content(w.configMaps, StoreOf(p)))
  {
    D.StepStores(w, d, inputs);
    StoresAreDistinct(p, OfDefinition(d));
  }

  lemma SpecificationProduces(libs: S.Libraries, w: Snapshot, s: Key, inputs: S.Inputs, p: Producer)
    ensures Content(S.SpecificationStep(libs, w, s, inputs).configMaps, StoreOf(p)) ==
            Newer(if p == OfSpecification(s) then S.Produced(libs, w, s, inputs) else None,
                  Content(w.configMaps, StoreOf(p)))
  {
    S.StepStores(libs, w, s, inputs);
    StoresAreDistinct(p, OfSpecification(s));
  }

  /** The producers a hub publishes exist. */
  lemma HubRefsExist(w: Snapshot, h: Key, inputs: H.Inputs, i: int) returns (e: Producer)
    requires h in w.hubs && 0 <= i < |P.HubRefs(w, h, inputs)|
    ensures P.HubRefs(w, h, inputs)[i] == RefOf(e) && Exists(w, e)
  {
    var definitions, specifications := H.SelectedDefinitions(w, h, inputs), H.SelectedSpecifications(w, h, inputs);
    var d := |definitions.value|;
    if i < d {
      assert definitions.value[i] in Elements(definitions.value);
      e := OfDefinition(definitions.value[i]);
    } else {
      assert specifications.value[i - d] in Elements(specifications.value);
      e := OfSpecification(specifications.value[i - d]);
    }
  }

  lemma HubCopiesElsewhere(universe: Universe, w: Snapshot, h: Key, inputs: H.Inputs, k: Key)
    requires h in w.hubs && Undisturbed(universe, k) && Within(universe, w, HubReconciled(h, inputs), k)
    ensures var refs := P.HubRefs(w, h, inputs);
            forall i | 0 <= i < |refs| :: IsNative(refs[i], h.namespace) || SlotOf(refs[i], h.namespace) != k
  {
    var refs := P.HubRefs(w, h, inputs);
    forall i | 0 <= i < |refs| ensures IsNative(refs[i], h.namespace) || SlotOf(refs[i], h.namespace) != k {
      var e := HubRefsExist(w, h, inputs, i);
      assert e in universe.producers;
    }
  }

  lemma HubProducesNothing(platform: H.Platform, universe: Universe, w: Snapshot, h: Key, inputs: H.Inputs, p: Producer)
    requires Undisturbed(universe, StoreOf(p)) && Within(universe, w, HubReconciled(h, inputs), StoreOf(p))
    ensures Content(H.HubStep(platform, w, h, inputs).configMaps, StoreOf(p)) == Content(w.configMaps, StoreOf(p))
  {
    P.StepCopies(platform, w, h, inputs);
    if h in w.hubs {
      HubCopiesElsewhere(universe, w, h, inputs, StoreOf(p));
      OnlyCopiesWritten(Start(w.configMaps, inputs.calls), P.HubRefs(w, h, inputs), h.namespace,
                        H.FrontendURL(w.hubs[h]), StoreOf(p));
    }
  }

  lemma ChangeProducesNothing(universe: Universe, w: Snapshot, change: Change, p: Producer)
    requires Within(universe, w, Changed(change), StoreOf(p))
    ensures Content(Apply(w, change).configMaps, StoreOf(p)) == Content(w.configMaps, StoreOf(p))
  {}

  lemma StepProduces(setting: Setting, universe: Universe, w: Snapshot, step: Step, p: Producer)
    requires Undisturbed(universe, StoreOf(p)) && Within(universe, w, step, StoreOf(p))
    ensures Content(System(setting)(w, step).configMaps, StoreOf(p)) ==
            Newer(ProductionOf(setting, p)(w, step), Content(w.configMaps, StoreOf(p)))
  {
    match step
    case DefinitionReconciled(d, inputs) => DefinitionProduces(w, d, inputs, p);
    case SpecificationReconciled(s, inputs) => SpecificationProduces(setting.libs, w, s, inputs, p);
    case HubReconciled(h, inputs) => HubProducesNothing(setting.platform, universe, w, h, inputs, p);
    case Changed(change) => ChangeProducesNothing(universe, w, change, p);
  }

  // ---- Runs -----------------------------------------------------------------------------------

  ghost predicate Produces(next: Semantics, produced: Production, universe: Universe, k: Key) {
    forall w, step | Within(universe, w, step, k) ::
      Content(next(w, step).configMaps, k) == Newer(produced(w, step), Content(w.configMaps, k))
  }

  lemma {:induction false} LatestIsKept(next: Semantics, produced: Production, universe: Universe, w: Snapshot,
                                        run: seq<Step>, k: Key)
    requires Produces(next, produced, universe, k) && RunWithin(next, universe, w, run, k)
    ensures Content(After(next, w, run).configMaps, k) == Latest(next, produced, w, run, Content(w.configMaps, k))
  {
    if run != [] {
      var n := |run| - 1;
      forall i | 0 <= i < n ensures Within(universe, After(next, w, run[..n][..i]), run[..n][i], k) {
        assert run[..n][..i] == run[..i];
        assert Within(universe, After(next, w, run[..i]), run[i], k);
      }
      LatestIsKept(next, produced, universe, w, run[..n], k);
      assert Within(universe, After(next, w, run[..n]), run[n], k);
    }
  }

  /** `p`'s ConfigMap holds what `p` produced last, at the end of every run of the universe. */
  ghost predicate AlwaysLatest(setting: Setting, universe: Universe, p: Producer) {
    forall w, run | RunWithin(System(setting), universe, w, run, StoreOf(p)) ::
      Content(After(System(setting), w, run).configMaps, StoreOf(p)) ==
      Latest(System(setting), ProductionOf(setting, p), w, run, Content(w.configMaps, StoreOf(p)))
  }

  lemma UndisturbedIsLatest(setting: Setting, universe: Universe, p: Producer)
    requires Undisturbed(universe, StoreOf(p))
    ensures AlwaysLatest(setting, universe, p)
  {
    var next, produced, k := System(setting), ProductionOf(setting, p), StoreOf(p);
    forall w, step | Within(universe, w, step, k)
      ensures Content(next(w, step).configMaps, k) == Newer(produced(w, step), Content(w.configMaps, k))
    {
      StepProduces(setting, universe, w, step, p);
    }
    forall w, run | RunWithin(next, universe, w, run, k)
      ensures Content(After(next, w, run).configMaps, k) == Latest(next, produced, w, run, Content(w.configMaps, k))
    {
      LatestIsKept(next, produced, universe, w, run, k);
    }
  }

  // ---- The condition is exact -----------------------------------------------------------------

  /** The producer exists, and its document is stored. */
  predicate IsPresent(w: Snapshot, p: Producer) {
    Exists(w, p) && StoreOf(p) in w.configMaps
  }

  ghost predicate PresentThroughout(next: Semantics, w: Snapshot, run: seq<Step>, p: Producer) {
    forall i | 0 <= i <= |run| :: IsPresent(After(next, w, run[..i]), p)
  }

  /** The same, asked only of runs during which `p` exists and has a document stored. */
  ghost predicate LatestWhilePresent(setting: Setting, universe: Universe, p: Producer) {
    forall w, run | RunWithin(System(setting), universe, w, run, StoreOf(p)) &&
                    PresentThroughout(System(setting), w, run, p) ::
      Content(After(System(setting), w, run).configMaps, StoreOf(p)) ==
      Latest(System(setting), ProductionOf(setting, p), w, run, Content(w.configMaps, StoreOf(p)))
  }

  const E_BODY := "{}"
  const P_BODY := "{ }"

  function SomeDefinition(): Definition {
    Definition(map[], "", 1, false, None, Status([], 0, []))
  }

  function SomeSpecification(): Specification {
    Specification(map[], "", 1, false, None, None, Head("", "", "", Contact("", "", ""), License("", ""), []),
                  Status([], 0, []))
  }

  function SomeHub(): Hub {
    Hub("", 1, false, false, "", EVERYTHING, EVERYTHING, EVERYTHING, None, Status([], 0, []))
  }

  /** Two producers of one kind, each with a document of its own stored, and in the namespace of `p` a hub
      that selects everything. */
  function TwoNamespaces(e: Producer, p: Producer): Snapshot {
    Snapshot(
      map[e.k.namespace := map[], p.k.namespace := map[]],
      if e.OfDefinition? then map[e.k := SomeDefinition(), p.k := SomeDefinition()] else map[],
      if e.OfSpecification? then map[e.k := SomeSpecification(), p.k := SomeSpecification()] else map[],
      map[HubBeside(p) := SomeHub()],
      map[StoreOf(e) := ConfigMap(map[DATA_KEY := E_BODY], []), StoreOf(p) := ConfigMap(map[DATA_KEY := P_BODY], [])],
      map[], map[])
  }

  function HubBeside(p: Producer): Key {
    Key(p.k.namespace, "hub")
  }

  /** Every request succeeds. */
  ghost function NoFaults(e: Producer, p: Producer): H.Inputs {
    var inputs := H.Inputs(true, ALL_LISTED, ALL_LISTED, 0, true, true, true, 1, true);
    inputs.(calls := 3 * |P.HubRefs(TwoNamespaces(e, p), HubBeside(p), inputs)|)
  }

  /** A hub without restrictions publishes everything there is in the listed namespaces. */
  lemma EverythingSelected(namespaces: map<string, Labels>, objects: map<Key, Labels>, own: string, k: Key)
    requires k in objects && k.namespace in namespaces
    ensures var r := Selected(namespaces, objects, own, EVERYTHING, EVERYTHING, ALL_LISTED); r.Ok? && k in r.value
  {
    var keys := SelectedKeys(objects, SelectedNamespaces(namespaces, EVERYTHING, own), EVERYTHING);
    assert k in keys && k in Elements(Canonical(keys));
  }

  lemma RefsHold(definitions: seq<Key>, specifications: seq<Key>, e: Producer)
    requires if e.OfDefinition? then e.k in definitions else e.k in specifications
    ensures RefOf(e) in Refs(definitions, specifications)
  {
    var refs := Refs(definitions, specifications);
    if e.OfDefinition? {
      var i :| 0 <= i < |definitions| && definitions[i] == e.k;
      assert refs[i] == RefOf(e);
    } else {
      var i :| 0 <= i < |specifications| && specifications[i] == e.k;
      assert refs[|definitions| + i] == RefOf(e);
    }
  }

  lemma HubPublishes(w: Snapshot, h: Key, inputs: H.Inputs, e: Producer)
    requires h in w.hubs && w.hubs[h] == SomeHub() && inputs.definitions == inputs.specifications == ALL_LISTED
    requires Exists(w, e) && e.k.namespace in w.namespaces
    ensures RefOf(e) in P.HubRefs(w, h, inputs)
  {
    if e.OfDefinition? {
      EverythingSelected(w.namespaces, DefinitionLabels(w.definitions), h.namespace, e.k);
    } else {
      EverythingSelected(w.namespaces, SpecificationLabels(w.specifications), h.namespace, e.k);
    }
    RefsHold(H.SelectedDefinitions(w, h, inputs).value, H.SelectedSpecifications(w, h, inputs).value, e);
  }

  lemma OnlyTwoExist(e: Producer, p: Producer, other: Producer)
    requires Exists(TwoNamespaces(e, p), other) && p.OfDefinition? == e.OfDefinition?
    ensures other == e || other == p
  {}

  lemma BothPublished(e: Producer, p: Producer, inputs: H.Inputs)
    requires inputs.definitions == inputs.specifications == ALL_LISTED && p.OfDefinition? == e.OfDefinition?
    ensures var w := TwoNamespaces(e, p);
            && RefOf(e) in P.HubRefs(w, HubBeside(p), inputs)
            && forall ref | ref in P.HubRefs(w, HubBeside(p), inputs) :: ref == RefOf(e) || ref == RefOf(p)
  {
    var w, h := TwoNamespaces(e, p), HubBeside(p);
    HubPublishes(w, h, inputs, e);
    forall ref | ref in P.HubRefs(w, h, inputs) ensures ref == RefOf(e) || ref == RefOf(p) {
      var i :| 0 <= i < |P.HubRefs(w, h, inputs)| && P.HubRefs(w, h, inputs)[i] == ref;
      var other := HubRefsExist(w, h, inputs, i);
      OnlyTwoExist(e, p, other);
    }
  }

  /** A copy that only `ref` can make has the content of the source of `ref`. */
  lemma SoleCopy(configMaps: map<Key, ConfigMap>, refs: seq<MountRef>, hubNamespace: string, ref: MountRef)
    requires ref in refs && !IsNative(ref, hubNamespace) && SourceOf(ref) in configMaps
    requires forall other | other in refs :: other == ref || IsNative(other, hubNamespace)
    ensures var after := configMaps + Copies(configMaps, refs, hubNamespace);
            Content(after, SlotOf(ref, hubNamespace)) == Content(configMaps, SourceOf(ref))
  {
    var i :| 0 <= i < |refs| && refs[i] == ref;
    CopyWritten(configMaps, refs, hubNamespace, i);
    var j := CopyWriter(configMaps, refs, hubNamespace, SlotOf(ref, hubNamespace));
    assert refs[j] in refs;
  }

  /** The hub copies the document of `e` onto that of `p`. */
  lemma HubOverwrites(platform: H.Platform, e: Producer, p: Producer)
    requires p.OfDefinition? == e.OfDefinition?
    requires !IsNative(RefOf(e), p.k.namespace) && SlotOf(RefOf(e), p.k.namespace) == StoreOf(p)
    ensures Content(H.HubStep(platform, TwoNamespaces(e, p), HubBeside(p), NoFaults(e, p)).configMaps, StoreOf(p)) ==
            Some(E_BODY)
  {
    BothPublished(e, p, NoFaults(e, p));
    HubCopiesSole(platform, TwoNamespaces(e, p), HubBeside(p), NoFaults(e, p), RefOf(e));
    assert StoreOf(e) != StoreOf(p);
  }

  lemma HubCopiesSole(platform: H.Platform, w: Snapshot, h: Key, inputs: H.Inputs, ref: MountRef)
    requires h in w.hubs && inputs.read && !w.hubs[h].suspend && inputs.calls >= 3 * |P.HubRefs(w, h, inputs)|
    requires ref in P.HubRefs(w, h, inputs) && !IsNative(ref, h.namespace) && SourceOf(ref) in w.configMaps
    requires forall other | other in P.HubRefs(w, h, inputs) :: other == ref || IsNative(other, h.namespace)
    ensures Content(H.HubStep(platform, w, h, inputs).configMaps, SlotOf(ref, h.namespace)) ==
            Content(w.configMaps, SourceOf(ref))
  {
    P.StepCopies(platform, w, h, inputs);
    EnoughCalls(Start(w.configMaps, inputs.calls), P.HubRefs(w, h, inputs), h.namespace, H.FrontendURL(w.hubs[h]));
    P.LoopPublishes(w, h, inputs);
    SoleCopy(w.configMaps, P.HubRefs(w, h, inputs), h.namespace, ref);
  }

  lemma OneStepLoses(next: Semantics, produced: Production, universe: Universe, w: Snapshot, step: Step, p: Producer)
    requires Within(universe, w, step, StoreOf(p)) && produced(w, step) == None
    requires IsPresent(w, p) && IsPresent(next(w, step), p)
    requires Content(next(w, step).configMaps, StoreOf(p)) != Content(w.configMaps, StoreOf(p))
    ensures RunWithin(next, universe, w, [step], StoreOf(p)) && PresentThroughout(next, w, [step], p)
    ensures Content(After(next, w, [step]).configMaps, StoreOf(p)) !=
            Latest(next, produced, w, [step], Content(w.configMaps, StoreOf(p)))
  {
    assert [step][..0] == [] && [step][..1] == [step];
    assert After(next, w, [step][..0]) == w;
  }

  lemma HubStepLoses(setting: Setting, universe: Universe, w: Snapshot, h: Key, inputs: H.Inputs, p: Producer)
    requires Within(universe, w, HubReconciled(h, inputs), StoreOf(p)) && IsPresent(w, p)
    requires Content(w.configMaps, StoreOf(p)).Some?
    requires Content(H.HubStep(setting.platform, w, h, inputs).configMaps, StoreOf(p)).Some?
    requires Content(H.HubStep(setting.platform, w, h, inputs).configMaps, StoreOf(p)) !=
             Content(w.configMaps, StoreOf(p))
    ensures !LatestWhilePresent(setting, universe, p)
  {
    HubStepPresent(setting.platform, w, h, inputs, p);
    OneStepLoses(System(setting), ProductionOf(setting, p), universe, w, HubReconciled(h, inputs), p);
  }

  lemma HubStepPresent(platform: H.Platform, w: Snapshot, h: Key, inputs: H.Inputs, p: Producer)
    requires IsPresent(w, p) && Content(H.HubStep(platform, w, h, inputs).configMaps, StoreOf(p)).Some?
    ensures IsPresent(H.HubStep(platform, w, h, inputs), p)
  {
    P.StepWrites(platform, w, h, inputs);
  }

  lemma DisturbedLoses(setting: Setting, universe: Universe, p: Producer, e: Producer, n: string)
    requires p in universe.producers && e in universe.producers && n in universe.hubNamespaces
    requires !IsNative(RefOf(e), n) && SlotOf(RefOf(e), n) == StoreOf(p)
    ensures !LatestWhilePresent(setting, universe, p)
  {
    DisturbedExactly(p, e, n);
    StoresAreDistinct(e, p);
    HubOverwrites(setting.platform, e, p);
    TwoAreWithin(universe, p, e, NoFaults(e, p));
    HubStepLoses(setting, universe, TwoNamespaces(e, p), HubBeside(p), NoFaults(e, p), p);
  }

  lemma TwoAreWithin(universe: Universe, p: Producer, e: Producer, inputs: H.Inputs)
    requires p in universe.producers && e in universe.producers && p.k.namespace in universe.hubNamespaces
    requires p.OfDefinition? == e.OfDefinition?
    ensures Within(universe, TwoNamespaces(e, p), HubReconciled(HubBeside(p), inputs), StoreOf(p))
    ensures IsPresent(TwoNamespaces(e, p), p)
    ensures Content(TwoNamespaces(e, p).configMaps, StoreOf(p)) == Some(P_BODY)
  {}

  /** A producer's ConfigMap holds what it produced last, whatever runs, if and only if no copy that a hub
      can make has its name: failed fetches, other reconcilers and users' edits all leave it. It is lost
      even among the runs during which the producer exists and its document is stored. */
  lemma LatestExactly(setting: Setting, universe: Universe, p: Producer)
    requires p in universe.producers
    ensures AlwaysLatest(setting, universe, p) <==> Undisturbed(universe, StoreOf(p))
    ensures LatestWhilePresent(setting, universe, p) <==> Undisturbed(universe, StoreOf(p))
  {
    if Undisturbed(universe, StoreOf(p)) {
      UndisturbedIsLatest(setting, universe, p);
    } else {
      var e, n :| e in universe.producers && n in universe.hubNamespaces &&
                  !IsNative(RefOf(e), n) && SlotOf(RefOf(e), n) == StoreOf(p);
      DisturbedLoses(setting, universe, p, e, n);
    }
  }

  /** What disturbs a producer: another one of its kind, in another namespace, whose name and namespace
      join to the producer's name, and a hub in the producer's own namespace. */
  lemma DisturbedExactly(p: Producer, e: Producer, hubNamespace: string)
    ensures SlotOf(RefOf(e), hubNamespace) == StoreOf(p) && !IsNative(RefOf(e), hubNamespace) <==>
            p.OfDefinition? == e.OfDefinition? && p.k.namespace == hubNamespace != e.k.namespace &&
            p.k.name == e.k.name + "-" + e.k.namespace
  {
    var joined := e.k.name + "-" + e.k.namespace;
    if e.OfDefinition? {
      assert CopyName(RefOf(e)) == DefinitionConfigMap(joined);
      ConfigMapNamesInjective(p.k.name, joined);
      ConfigMapKindsDiffer(joined, p.k.name);
    } else {
      assert CopyName(RefOf(e)) == SpecificationConfigMap(joined);
      ConfigMapNamesInjective(p.k.name, joined);
      ConfigMapKindsDiffer(p.k.name, joined);
    }
  }

  // ---- From production to the deployed URL ----------------------------------------------------

  /** Unless another volume is mounted over the file, the web server finds an entry there; and whatever it
      finds has this content. */
  ghost predicate Shows(pod: PodTemplate, configMaps: map<Key, ConfigMap>, file: string, hubNamespace: string,
                        body: Option<Bytes>) {
    && (!IsCovered(pod, file) ==> exists e :: Finds(pod, file, e))
    && forall e | Finds(pod, file, e) :: Content(configMaps, Key(hubNamespace, e.configMap)) == body
  }

  /** The whole pipeline: when a hub reconcile at the end of a run deploys, and the user mounts no other
      volume there, the deployed pod shows under the URL of each published definition or specification
      what that one produced last, unless some volume is mounted over that very file. */
  lemma PublishedIsLatest(setting: Setting, universe: Universe, w: Snapshot, run: seq<Step>, h: Key,
                          inputs: H.Inputs, p: Producer)
    requires FaithfulPlatform(setting.platform)
    requires RunWithin(System(setting), universe, w, run, StoreOf(p)) && Undisturbed(universe, StoreOf(p))
    requires var now := After(System(setting), w, run);
             && h in now.hubs && !H.Reconciled(setting.platform, now, h, inputs).outcome.Failed?
             && Separated(P.HubRefs(now, h, inputs), h.namespace)
             && RefOf(p) in P.PublishedRefs(now, h, inputs) && UserVolume(now.hubs[h]) in {None, Some(H.VOLUME)}
    ensures var now := After(System(setting), w, run);
            var after := H.Reconciled(setting.platform, now, h, inputs).world;
            && H.ObjectKeyOf(h) in after.deployments
            && Shows(after.deployments[H.ObjectKeyOf(h)].template, after.configMaps,
                     FileOf(RefOf(p), H.FrontendURL(now.hubs[h])), h.namespace,
                     Latest(System(setting), ProductionOf(setting, p), w, run, Content(w.configMaps, StoreOf(p))))
  {
    UndisturbedIsLatest(setting, universe, p);
    PublishedIsShown(setting.platform, After(System(setting), w, run), h, inputs, p);
  }

  lemma PublishedIsShown(platform: H.Platform, w: Snapshot, h: Key, inputs: H.Inputs, p: Producer)
    requires FaithfulPlatform(platform)
    requires h in w.hubs && !H.Reconciled(platform, w, h, inputs).outcome.Failed?
    requires Separated(P.HubRefs(w, h, inputs), h.namespace)
    requires RefOf(p) in P.PublishedRefs(w, h, inputs) && UserVolume(w.hubs[h]) in {None, Some(H.VOLUME)}
    ensures var after := H.Reconciled(platform, w, h, inputs).world;
            && H.ObjectKeyOf(h) in after.deployments
            && Shows(after.deployments[H.ObjectKeyOf(h)].template, after.configMaps,
                     FileOf(RefOf(p), H.FrontendURL(w.hubs[h])), h.namespace, Content(w.configMaps, StoreOf(p)))
  {
    DeployedServesSources(platform, w, h, inputs);
    var after := H.Reconciled(platform, w, h, inputs).world;
    ServingShows(platform, w.hubs[h], after.deployments[H.ObjectKeyOf(h)].template, P.PublishedRefs(w, h, inputs),
                 h.namespace, w.configMaps, after.configMaps, RefOf(p));
  }

  lemma ServingShows(platform: H.Platform, hub: Hub, pod: PodTemplate, refs: seq<MountRef>, hubNamespace: string,
                     before: map<Key, ConfigMap>, after: map<Key, ConfigMap>, ref: MountRef)
    requires PodServes(platform, hub, pod, refs, hubNamespace, before, after) && ref in refs
    requires UserVolume(hub) in {None, Some(H.VOLUME)}
    ensures Shows(pod, after, FileOf(ref, H.FrontendURL(hub)), hubNamespace, Content(before, SourceOf(ref)))
  {
    var file := FileOf(ref, H.FrontendURL(hub));
    if !IsCovered(pod, file) {
      var e :| e in EntriesOf(pod).value && FileAt(e) == file;
      assert Finds(pod, file, e);
    }
  }

  /** Unification over every run: a definition that takes part in a unified document takes part with the
      document that was fetched for it last. */
  lemma UnifiedFromLatest(setting: Setting, universe: Universe, w: Snapshot, run: seq<Step>, d: Key,
                          unreadable: set<Key>, source: Source)
    requires Undisturbed(universe, StoreOf(OfDefinition(d)))
    requires RunWithin(System(setting), universe, w, run, StoreOf(OfDefinition(d)))
    requires S.LoadsAs(setting.libs, After(System(setting), w, run).configMaps, unreadable, d, source)
    ensures var body := Latest(System(setting), ProductionOf(setting, OfDefinition(d)), w, run,
                               Content(w.configMaps, StoreOf(OfDefinition(d))));
            body.Some? && setting.libs.unmarshal(body.value) == Ok(source.doc) && source.name == d.name
  {
    UndisturbedIsLatest(setting, universe, OfDefinition(d));
  }
}
