/** What a hub reconcile guarantees: the published bytes, ownership, and that running it again changes
    nothing. */
module HubProperties {
  import opened Wrappers
  import opened Objects
  import opened Selectors
  import opened Conditions
  import opened Cluster
  import opened Selection
  import opened Publishing
  import opened ContainerMerge
  import opened HubController

  /** The references a hub publishes, when both selections succeed. */
  ghost function HubRefs(w: Snapshot, h: Key, inputs: Inputs): seq<MountRef>
    requires h in w.hubs
  {
    match (SelectedDefinitions(w, h, inputs), SelectedSpecifications(w, h, inputs))
    case (Ok(definitions), Ok(specifications)) => Refs(definitions, specifications)
    case _ => []
  }

  /** The references among them that have a ConfigMap. */
  ghost function PublishedRefs(w: Snapshot, h: Key, inputs: Inputs): seq<MountRef>
    requires h in w.hubs
  {
    var refs := HubRefs(w, h, inputs);
    Visible(w.configMaps, refs, |refs|, h.namespace)
  }

  /** With separated references the published ones are those whose own ConfigMap exists, in their order. */
  lemma PublishedRefsExactly(w: Snapshot, h: Key, inputs: Inputs) returns (order: seq<nat>)
    requires h in w.hubs && Separated(HubRefs(w, h, inputs), h.namespace)
    ensures var refs, published := HubRefs(w, h, inputs), PublishedRefs(w, h, inputs);
            && |order| == |published| && (forall i, j | 0 <= i < j < |order| :: order[i] < order[j])
            && (forall j | 0 <= j < |order| :: order[j] < |refs| && published[j] == refs[order[j]])
            && (forall i: nat | i < |refs| :: i in order <==> SourceOf(refs[i]) in w.configMaps)
  {
    var refs := HubRefs(w, h, inputs);
    order := VisibleInOrder(w.configMaps, refs, |refs|, h.namespace);
    SeparatedPublishes(w.configMaps, refs, h.namespace);
  }

  // ---- What a hub selects ---------------------------------------------------------------------

  /** The hub's selectors are valid and its listings answered. */
  predicate CanSelect(w: Snapshot, own: string, selector: Option<LabelSelector>,
                      namespaceSelector: Option<LabelSelector>, listing: Listing) {
    && IsValid(selector) && IsValid(namespaceSelector) && (namespaceSelector.Some? ==> listing.namespaces)
    && forall n | n in listing.refused :: !IsPicked(w.namespaces, own, namespaceSelector, n)
  }

  /** A hub selects the definitions with the labels that its definition selector asks for, and the specifications with
      those of its specification selector, in the namespaces that its namespace selector picks. */
  lemma HubSelectionExactly(w: Snapshot, h: Key, inputs: Inputs)
    requires h in w.hubs
    ensures var hub, definitions := w.hubs[h], SelectedDefinitions(w, h, inputs);
            && (definitions.Ok? <==>
                  CanSelect(w, h.namespace, hub.definitionSelector, hub.namespaceSelector, inputs.definitions))
            && (definitions.Ok? ==> forall k :: k in definitions.value <==>
                  k in w.definitions && Matches(hub.definitionSelector, w.definitions[k].labels) &&
                  IsPicked(w.namespaces, h.namespace, hub.namespaceSelector, k.namespace))
    ensures var hub, specifications := w.hubs[h], SelectedSpecifications(w, h, inputs);
            && (specifications.Ok? <==>
                  CanSelect(w, h.namespace, hub.specificationSelector, hub.namespaceSelector, inputs.specifications))
            && (specifications.Ok? ==> forall k :: k in specifications.value <==>
                  k in w.specifications && Matches(hub.specificationSelector, w.specifications[k].labels) &&
                  IsPicked(w.namespaces, h.namespace, hub.namespaceSelector, k.namespace))
  {
    var hub := w.hubs[h];
    SelectedExactly(w.namespaces, DefinitionLabels(w.definitions), h.namespace, hub.definitionSelector,
                    hub.namespaceSelector, inputs.definitions);
    SelectedExactly(w.namespaces, SpecificationLabels(w.specifications), h.namespace, hub.specificationSelector,
                    hub.namespaceSelector, inputs.specifications);
  }

  /** The mappers ask for exactly the hubs whose next reconcile takes the object in, when its listings are answered. */
  lemma WokenHubsSelect(w: Snapshot, h: Key, inputs: Inputs, o: Key, listing: MapperListing)
    requires h in w.hubs && inputs.definitions == ALL_LISTED && inputs.specifications == ALL_LISTED
    requires listing.hubs
    requires forall g | g in w.hubs && w.hubs[g].namespaceSelector.Some? ::
               IsValid(w.hubs[g].namespaceSelector) && g !in listing.refused
    ensures o in w.definitions ==>
              (h in Woken(w, WatchedDefinitions, o, listing) <==>
               SelectedDefinitions(w, h, inputs).Ok? && o in SelectedDefinitions(w, h, inputs).value)
    ensures o in w.specifications ==>
              (h in Woken(w, WatchedSpecifications, o, listing) <==>
               SelectedSpecifications(w, h, inputs).Ok? && o in SelectedSpecifications(w, h, inputs).value)
  {
    if o in w.definitions {
      HubTriggerAgrees(w, h, WatchedDefinitions, o, listing);
    }
    if o in w.specifications {
      HubTriggerAgrees(w, h, WatchedSpecifications, o, listing);
    }
  }

  // ---- URLs lead to bytes ---------------------------------------------------------------------

  /** The catalog of a reconcile whose selections succeed. */
  ghost function FullCatalog(w: Snapshot, h: Key, inputs: Inputs): seq<ResourceReference>
    requires h in w.hubs && SelectedDefinitions(w, h, inputs).Ok? && SelectedSpecifications(w, h, inputs).Ok?
  {
    Catalog(DEFINITION_KIND, SelectedDefinitions(w, h, inputs).value, h.namespace) +
    Catalog(SPECIFICATION_KIND, SelectedSpecifications(w, h, inputs).value, h.namespace)
  }

  /** The loop over the references of a hub. */
  ghost function HubLoop(w: Snapshot, h: Key, inputs: Inputs): State
    requires h in w.hubs
  {
    VisitAll(Start(w.configMaps, inputs.calls), HubRefs(w, h, inputs), h.namespace, FrontendURL(w.hubs[h]))
  }

  lemma LoopPublishes(w: Snapshot, h: Key, inputs: Inputs)
    requires h in w.hubs && !HubLoop(w, h, inputs).failed
    ensures var loop, visible := HubLoop(w, h, inputs), PublishedRefs(w, h, inputs);
            && loop.configMaps == w.configMaps + Copies(w.configMaps, HubRefs(w, h, inputs), h.namespace)
            && loop.urls == Urls(visible, FrontendURL(w.hubs[h]))
            && loop.mounts == Mounts(visible, h.namespace)
  {
    var refs := HubRefs(w, h, inputs);
    assert refs[..|refs|] == refs;
    VisitAllIs(w.configMaps, inputs.calls, refs, |refs|, h.namespace, FrontendURL(w.hubs[h]));
  }

  /** A deployed hub has a service and a deployment that come from the desired ones. */
  lemma DeployWrites(platform: Platform, w: Snapshot, h: Key, inputs: Inputs, catalog: seq<ResourceReference>,
                     urls: seq<ApiUrl>, mounts: seq<MountRef>)
    requires h in w.hubs && !Deploy(platform, w, h, inputs, catalog, urls, mounts).outcome.Failed?
    ensures var after, k := Deploy(platform, w, h, inputs, catalog, urls, mounts).world, ObjectKeyOf(h);
            var desired := DesiredDeployment(platform, h, w.hubs[h], urls, mounts);
            && after.configMaps == w.configMaps
            && desired.Ok? && k in after.deployments && k in after.services
            && after.deployments[k] == (if k in w.deployments
                                        then platform.applyDeployment(w.deployments[k], desired.value)
                                        else desired.value)
            && after.services[k] == (if k in w.services
                                     then platform.applyService(w.services[k], DesiredService(h, w.hubs[h]))
                                     else DesiredService(h, w.hubs[h]))
  {}

  /** A reconcile that got as far as the deployment added exactly the copies of the published references,
      and deployed their URLs and mounts. */
  lemma DeployedFrom(platform: Platform, w: Snapshot, h: Key, inputs: Inputs)
    requires h in w.hubs && !Reconciled(platform, w, h, inputs).outcome.Failed?
    ensures var visible := PublishedRefs(w, h, inputs);
            var desired := DesiredDeployment(platform, h, w.hubs[h], Urls(visible, FrontendURL(w.hubs[h])),
                                             Mounts(visible, h.namespace));
            var after, k := Reconciled(platform, w, h, inputs).world, ObjectKeyOf(h);
            && desired.Ok? && k in after.deployments
            && after.deployments[k] == (if k in w.deployments
                                        then platform.applyDeployment(w.deployments[k], desired.value)
                                        else desired.value)
            && after.configMaps == w.configMaps + Copies(w.configMaps, HubRefs(w, h, inputs), h.namespace)
  {
    var loop := HubLoop(w, h, inputs);
    LoopPublishes(w, h, inputs);
    DeployWrites(platform, w.(configMaps := loop.configMaps), h, inputs, FullCatalog(w, h, inputs), loop.urls,
                 loop.mounts);
  }

  /** The key a catalog entry stands for. */
  function KeyOf(ref: ResourceReference, namespace: string): Key {
    Key(if ref.namespace == "" then namespace else ref.namespace, ref.name)
  }

  /** The catalog lists exactly the definitions, then the specifications, in their order, by their keys. */
  predicate Identifies(catalog: seq<ResourceReference>, definitions: seq<Key>, specifications: seq<Key>,
                       namespace: string) {
    && |catalog| == |definitions| + |specifications|
    && (forall i | 0 <= i < |definitions| ::
          catalog[i].kind == DEFINITION_KIND && KeyOf(catalog[i], namespace) == definitions[i])
    && (forall i | 0 <= i < |specifications| ::
          catalog[|definitions| + i].kind == SPECIFICATION_KIND &&
          KeyOf(catalog[|definitions| + i], namespace) == specifications[i])
  }

  /** What the catalog lists: the selections as far as they succeed, specifications only after definitions. */
  ghost function ListedDefinitions(w: Snapshot, h: Key, inputs: Inputs): seq<Key>
    requires h in w.hubs
  {
    if SelectedDefinitions(w, h, inputs).Ok? then SelectedDefinitions(w, h, inputs).value else []
  }

  ghost function ListedSpecifications(w: Snapshot, h: Key, inputs: Inputs): seq<Key>
    requires h in w.hubs
  {
    if SelectedDefinitions(w, h, inputs).Ok? && SelectedSpecifications(w, h, inputs).Ok?
    then SelectedSpecifications(w, h, inputs).value
    else []
  }

  /** A persisted status of a hub identifies exactly the selected definitions and specifications, as far as the
      selections succeed. */
  lemma CatalogIdentifies(platform: Platform, w: Snapshot, h: Key, inputs: Inputs)
    requires h in w.hubs && inputs.read && !w.hubs[h].suspend && inputs.statusPatched
    requires (forall k | k in w.definitions :: k.namespace != "") &&
             (forall k | k in w.specifications :: k.namespace != "")
    ensures var after := HubStep(platform, w, h, inputs).hubs;
            h in after && Identifies(after[h].status.catalog, ListedDefinitions(w, h, inputs),
                                     ListedSpecifications(w, h, inputs), h.namespace)
  {
    ReconciledCatalog(platform, w, h, inputs);
    ListedExist(w, h, inputs);
    FullCatalogIdentifies(ListedDefinitions(w, h, inputs), ListedSpecifications(w, h, inputs), h.namespace);
  }

  lemma ListedExist(w: Snapshot, h: Key, inputs: Inputs)
    requires h in w.hubs
    ensures forall k | k in ListedDefinitions(w, h, inputs) :: k in w.definitions
    ensures forall k | k in ListedSpecifications(w, h, inputs) :: k in w.specifications
  {
    HubSelectionExactly(w, h, inputs);
  }

  lemma FullCatalogIdentifies(definitions: seq<Key>, specifications: seq<Key>, namespace: string)
    requires (forall k | k in definitions :: k.namespace != "") && (forall k | k in specifications :: k.namespace != "")
    ensures Identifies(Catalog(DEFINITION_KIND, definitions, namespace) +
                       Catalog(SPECIFICATION_KIND, specifications, namespace),
                       definitions, specifications, namespace)
  {}

  lemma ReconciledCatalog(platform: Platform, w: Snapshot, h: Key, inputs: Inputs)
    requires h in w.hubs
    ensures Reconciled(platform, w, h, inputs).catalog ==
            Catalog(DEFINITION_KIND, ListedDefinitions(w, h, inputs), h.namespace) +
            Catalog(SPECIFICATION_KIND, ListedSpecifications(w, h, inputs), h.namespace)
  {}

  /** Without a namespace selector the references are separated as soon as no definition and
      specification share a name. */
  lemma OwnNamespaceSeparated(definitions: seq<Key>, specifications: seq<Key>, hubNamespace: string)
    requires forall k | k in definitions || k in specifications :: k.namespace == hubNamespace && '/' !in k.name
    requires forall k | k in definitions :: k !in specifications
    ensures Separated(Refs(definitions, specifications), hubNamespace)
  {
    var refs := Refs(definitions, specifications);
    var d := |definitions|;
    forall i, j | 0 <= i < |refs| && 0 <= j < |refs| && SourceOf(refs[i]) != SourceOf(refs[j])
      ensures SlotOf(refs[i], hubNamespace) != SlotOf(refs[j], hubNamespace)
      ensures PathOf(refs[i]) != PathOf(refs[j])
    {
      var a := if i < d then definitions[i] else specifications[i - d];
      var b := if j < d then definitions[j] else specifications[j - d];
      assert a in definitions || a in specifications;
      assert b in definitions || b in specifications;
      assert a.name == refs[i].name && b.name == refs[j].name;
      SamePathSameName(hubNamespace, a.name, b.name);
    }
  }

  lemma SamePathSameName(namespace: string, a: string, b: string)
    ensures namespace + "/" + a + "/" + DATA_KEY == namespace + "/" + b + "/" + DATA_KEY ==> a == b
  {
    var p := namespace + "/" + a + "/" + DATA_KEY;
    var q := namespace + "/" + b + "/" + DATA_KEY;
    assert |p| - |q| == |a| - |b|;
    assert p[|namespace| + 1..|namespace| + 1 + |a|] == a;
    assert q[|namespace| + 1..|namespace| + 1 + |b|] == b;
  }

  // ---- A hub reconcile is a fixpoint ----------------------------------------------------------

  /** Server-side apply of the same fields twice is applying them once, and keeps the owner it sets. */
  ghost predicate ApplyLaws<T(!new)>(apply: (T, T) -> T, ownersOf: T -> seq<OwnerReference>) {
    && (forall e, d :: apply(apply(e, d), d) == apply(e, d))
    && (forall d :: apply(d, d) == d)
    && (forall e, d, o :: IsOwner(o, ownersOf(d)) ==> IsOwner(o, ownersOf(apply(e, d))))
  }

  ghost predicate LawfulPlatform(platform: Platform) {
    ApplyLaws(platform.applyService, ServiceOwners()) && ApplyLaws(platform.applyDeployment, DeploymentOwners())
  }

  lemma CreateOrUpdateStable<T(!new)>(objects: map<Key, T>, k: Key, desired: T, ownersOf: T -> seq<OwnerReference>,
                                      apply: (T, T) -> T, owner: OwnerReference, written: bool)
    requires ApplyLaws(apply, ownersOf) && IsOwner(owner, ownersOf(desired))
    ensures var r := CreateOrUpdate(objects, k, desired, ownersOf, apply, owner, written);
            r.Ok? ==> CreateOrUpdate(r.value, k, desired, ownersOf, apply, owner, written) == r
  {
    var r := CreateOrUpdate(objects, k, desired, ownersOf, apply, owner, written);
    if r.Ok? {
      assert r.value[k := r.value[k]] == r.value;
    }
  }

  lemma DesiredAreOwned(platform: Platform, h: Key, hub: Hub, urls: seq<ApiUrl>, mounts: seq<MountRef>)
    ensures IsOwner(OwnerOf(h, hub), ServiceOwners()(DesiredService(h, hub)))
    ensures DesiredDeployment(platform, h, hub, urls, mounts).Ok? ==>
              IsOwner(OwnerOf(h, hub), DeploymentOwners()(DesiredDeployment(platform, h, hub, urls, mounts).value))
  {
    assert OwnerOf(h, hub) in [OwnerOf(h, hub)];
  }

  /** The same hub, up to its status. */
  predicate SameSpec(a: Hub, b: Hub) {
    a.(status := b.status) == b
  }

  /** Deploying once more what was deployed, or failing once more where it failed, changes nothing. */
  lemma RolloutStable(platform: Platform, services: map<Key, Service>, deployments: map<Key, Deployment>,
                      h: Key, hub: Hub, inputs: Inputs, urls: seq<ApiUrl>, mounts: seq<MountRef>)
    requires LawfulPlatform(platform)
    ensures var out := Rollout(platform, services, deployments, h, hub, inputs, urls, mounts);
            Rollout(platform, out.services, out.deployments, h, hub, inputs, urls, mounts) == out
  {
    var owner, k := OwnerOf(h, hub), ObjectKeyOf(h);
    DesiredAreOwned(platform, h, hub, urls, mounts);
    CreateOrUpdateStable(services, k, DesiredService(h, hub), ServiceOwners(), platform.applyService, owner,
                         inputs.serviceWritten);
    var desired := DesiredDeployment(platform, h, hub, urls, mounts);
    if desired.Ok? {
      CreateOrUpdateStable(deployments, k, desired.value, DeploymentOwners(), platform.applyDeployment, owner,
                           inputs.deploymentWritten);
    }
  }

  /** The status of a hub does not matter for what it deploys. */
  lemma RolloutSameSpec(platform: Platform, services: map<Key, Service>, deployments: map<Key, Deployment>,
                        h: Key, hub: Hub, other: Hub, inputs: Inputs, urls: seq<ApiUrl>, mounts: seq<MountRef>)
    requires SameSpec(hub, other)
    ensures Rollout(platform, services, deployments, h, other, inputs, urls, mounts) ==
            Rollout(platform, services, deployments, h, hub, inputs, urls, mounts)
  {
    assert DesiredDeployment(platform, h, other, urls, mounts) == DesiredDeployment(platform, h, hub, urls, mounts);
  }

  lemma DeployStable(platform: Platform, w: Snapshot, again: Snapshot, h: Key, inputs: Inputs,
                     catalog: seq<ResourceReference>, urls: seq<ApiUrl>, mounts: seq<MountRef>)
    requires LawfulPlatform(platform)
    requires h in w.hubs && h in again.hubs && SameSpec(w.hubs[h], again.hubs[h])
    requires var run := Deploy(platform, w, h, inputs, catalog, urls, mounts);
             again.services == run.world.services && again.deployments == run.world.deployments
    ensures Deploy(platform, again, h, inputs, catalog, urls, mounts) ==
            Deploy(platform, w, h, inputs, catalog, urls, mounts).(world := again)
  {
    RolloutStable(platform, w.services, w.deployments, h, w.hubs[h], inputs, urls, mounts);
    RolloutSameSpec(platform, again.services, again.deployments, h, w.hubs[h], again.hubs[h], inputs, urls, mounts);
  }

  /** A snapshot in which another reconcile of the hub selects what the first one selected. */
  predicate SameSelection(a: Snapshot, b: Snapshot, h: Key) {
    h in a.hubs && h in b.hubs && SameSpec(a.hubs[h], b.hubs[h]) &&
    a.namespaces == b.namespaces && a.definitions == b.definitions && a.specifications == b.specifications
  }

  lemma DeployFrame(platform: Platform, w: Snapshot, h: Key, inputs: Inputs, catalog: seq<ResourceReference>,
                    urls: seq<ApiUrl>, mounts: seq<MountRef>)
    requires h in w.hubs
    ensures var run := Deploy(platform, w, h, inputs, catalog, urls, mounts);
            run.world == w.(services := run.world.services, deployments := run.world.deployments) &&
            run.catalog == catalog
  {}

  /** A reconcile writes ConfigMaps, services and deployments, and nothing else. */
  lemma ReconciledFrame(platform: Platform, w: Snapshot, h: Key, inputs: Inputs)
    requires h in w.hubs
    ensures var after := Reconciled(platform, w, h, inputs).world;
            after == w.(configMaps := after.configMaps, services := after.services, deployments := after.deployments)
  {
    if SelectedDefinitions(w, h, inputs).Ok? && SelectedSpecifications(w, h, inputs).Ok? {
      var loop := HubLoop(w, h, inputs);
      DeployFrame(platform, w.(configMaps := loop.configMaps), h, inputs, FullCatalog(w, h, inputs), loop.urls,
                  loop.mounts);
    }
  }

  /** A step writes, besides the published objects, at most the status of its hub. */
  ghost predicate Writes(w: Snapshot, after: Snapshot, h: Key) {
    && after == w.(configMaps := after.configMaps, services := after.services,
                   deployments := after.deployments, hubs := after.hubs)
    && (after.hubs == w.hubs ||
        (h in w.hubs && exists outcome, catalog ::
            after.hubs == w.hubs[h := w.hubs[h].(status := HubStatus(w.hubs[h], outcome, catalog))]))
  }

  lemma StepWrites(platform: Platform, w: Snapshot, h: Key, inputs: Inputs)
    ensures Writes(w, HubStep(platform, w, h, inputs), h)
  {
    if h in w.hubs {
      ReconciledFrame(platform, w, h, inputs);
    }
  }

  /** Nothing happens for a hub that is gone, unreadable or suspended, and a status that is not persisted stays. */
  lemma StepKeeps(platform: Platform, w: Snapshot, h: Key, inputs: Inputs)
    ensures h !in w.hubs || !inputs.read || w.hubs[h].suspend ==> HubStep(platform, w, h, inputs) == w
    ensures !inputs.statusPatched ==> HubStep(platform, w, h, inputs).hubs == w.hubs
  {
    if h in w.hubs {
      ReconciledFrame(platform, w, h, inputs);
    }
  }

  /** The ConfigMaps after a step are those after its loop. */
  lemma StepCopies(platform: Platform, w: Snapshot, h: Key, inputs: Inputs)
    ensures HubStep(platform, w, h, inputs).configMaps ==
            if h !in w.hubs || !inputs.read || w.hubs[h].suspend then w.configMaps
            else HubLoop(w, h, inputs).configMaps
  {
    if h in w.hubs {
      ReconciledCopies(platform, w, h, inputs);
    }
  }

  lemma ReconciledCopies(platform: Platform, w: Snapshot, h: Key, inputs: Inputs)
    requires h in w.hubs
    ensures Reconciled(platform, w, h, inputs).world.configMaps == HubLoop(w, h, inputs).configMaps
  {
    if SelectedDefinitions(w, h, inputs).Ok? && SelectedSpecifications(w, h, inputs).Ok? {
      var loop := HubLoop(w, h, inputs);
      DeployFrame(platform, w.(configMaps := loop.configMaps), h, inputs, FullCatalog(w, h, inputs), loop.urls,
                  loop.mounts);
    }
  }

  lemma ReconciledStable(platform: Platform, w: Snapshot, again: Snapshot, h: Key, inputs: Inputs)
    requires LawfulPlatform(platform) && SameSelection(w, again, h)
    requires var after := Reconciled(platform, w, h, inputs).world;
             again.configMaps == after.configMaps && again.services == after.services &&
             again.deployments == after.deployments
    ensures Reconciled(platform, again, h, inputs) == Reconciled(platform, w, h, inputs).(world := again)
  {
    SelectedAgain(w, again, h, inputs);
    if SelectedDefinitions(w, h, inputs).Ok? && SelectedSpecifications(w, h, inputs).Ok? {
      var loop := HubLoop(w, h, inputs);
      FinishFrame(platform, w, h, inputs, FullCatalog(w, h, inputs), loop);
      HubLoopStable(w, again, h, inputs);
      FinishStable(platform, w, again, h, inputs, FullCatalog(w, h, inputs), loop, HubLoop(again, h, inputs));
    }
  }

  lemma SelectedAgain(w: Snapshot, again: Snapshot, h: Key, inputs: Inputs)
    requires SameSelection(w, again, h)
    ensures SelectedDefinitions(again, h, inputs) == SelectedDefinitions(w, h, inputs)
    ensures SelectedSpecifications(again, h, inputs) == SelectedSpecifications(w, h, inputs)
    ensures HubRefs(again, h, inputs) == HubRefs(w, h, inputs)
  {}

  lemma HubLoopStable(w: Snapshot, again: Snapshot, h: Key, inputs: Inputs)
    requires SameSelection(w, again, h) && again.configMaps == HubLoop(w, h, inputs).configMaps
    ensures var loop, loop' := HubLoop(w, h, inputs), HubLoop(again, h, inputs);
            && loop'.failed == loop.failed && loop'.configMaps == loop.configMaps
            && (!loop.failed ==> loop'.urls == loop.urls && loop'.mounts == loop.mounts)
  {
    var definitions, specifications := SelectedDefinitions(w, h, inputs), SelectedSpecifications(w, h, inputs);
    SelectedAgain(w, again, h, inputs);
    if definitions.Ok? && specifications.Ok? {
      LoopIsStable(w.configMaps, inputs.calls, definitions.value, specifications.value, h.namespace,
                   FrontendURL(w.hubs[h]));
    }
  }

  lemma FinishFrame(platform: Platform, w: Snapshot, h: Key, inputs: Inputs,
                    catalog: seq<ResourceReference>, loop: State)
    requires h in w.hubs
    ensures Finish(platform, w, h, inputs, catalog, loop).world.configMaps == loop.configMaps
  {
    DeployFrame(platform, w.(configMaps := loop.configMaps), h, inputs, catalog, loop.urls, loop.mounts);
  }

  lemma FinishStable(platform: Platform, w: Snapshot, again: Snapshot, h: Key, inputs: Inputs,
                     catalog: seq<ResourceReference>, loop: State, loop': State)
    requires LawfulPlatform(platform) && h in w.hubs && h in again.hubs && SameSpec(w.hubs[h], again.hubs[h])
    requires var after := Finish(platform, w, h, inputs, catalog, loop).world;
             again.services == after.services && again.deployments == after.deployments
    requires loop'.failed == loop.failed && loop'.configMaps == loop.configMaps == again.configMaps
    requires !loop.failed ==> loop'.urls == loop.urls && loop'.mounts == loop.mounts
    ensures Finish(platform, again, h, inputs, catalog, loop') ==
            Finish(platform, w, h, inputs, catalog, loop).(world := again)
  {
    assert again.(configMaps := loop.configMaps) == again;
    if !loop.failed {
      DeployStable(platform, w.(configMaps := loop.configMaps), again, h, inputs, catalog, loop.urls, loop.mounts);
    }
  }

  /** With no outside change, reconciling a hub again with the same failures changes nothing at all: no
      copy, service, deployment, catalog entry or condition. This needs no assumption on names: colliding
      copies are overwritten the same way each time, and no copy becomes a source that was not one. */
  lemma HubIsFixpoint(platform: Platform, w: Snapshot, h: Key, inputs: Inputs)
    requires LawfulPlatform(platform)
    ensures HubStep(platform, HubStep(platform, w, h, inputs), h, inputs) == HubStep(platform, w, h, inputs)
  {
    if h in w.hubs && inputs.read && !w.hubs[h].suspend {
      var hub := w.hubs[h];
      var run := Reconciled(platform, w, h, inputs);
      var again := HubStep(platform, w, h, inputs);
      ReconciledFrame(platform, w, h, inputs);
      ReconciledStable(platform, w, again, h, inputs);
      HubConditionsStable(hub.status.conditions, hub.wait, hub.generation, run.outcome);
      assert again.hubs[h := again.hubs[h]] == again.hubs;
    }
  }

  // ---- When a hub is ready --------------------------------------------------------------------

  /** The API server takes the object, and there is none yet or the owner's own. */
  predicate IsWritable<T(==)>(objects: map<Key, T>, k: Key, owner: OwnerReference, ownersOf: T -> seq<OwnerReference>,
                              written: bool) {
    written && (k in objects ==> owner in ownersOf(objects[k]))
  }

  /** Containers merge, and both objects can be written. */
  predicate RollsOut(platform: Platform, services: map<Key, Service>, deployments: map<Key, Deployment>, h: Key,
                     hub: Hub,
                     inputs: Inputs, urls: seq<ApiUrl>, mounts: seq<MountRef>) {
    var owner, k := OwnerReference(h.name, hub.uid, HUB_KIND), Key(h.namespace, "swagger-ui-" + h.name);
    && DesiredDeployment(platform, h, hub, urls, mounts).Ok?
    && IsWritable(services, k, owner, ServiceOwners(), inputs.serviceWritten)
    && IsWritable(deployments, k, owner, DeploymentOwners(), inputs.deploymentWritten)
  }

  /** Both selections and the loop over the references succeed, and the deployment is rolled out. */
  ghost predicate IsRolledOut(platform: Platform, w: Snapshot, h: Key, inputs: Inputs)
    requires h in w.hubs
  {
    var loop := HubLoop(w, h, inputs);
    && SelectedDefinitions(w, h, inputs).Ok? && SelectedSpecifications(w, h, inputs).Ok? && !loop.failed
    && RollsOut(platform, w.services, w.deployments, h, w.hubs[h], inputs, loop.urls, loop.mounts)
  }

  /** A persisted reconcile is ready exactly when the deployment is rolled out and, if the hub waits for it, was
      read and has a ready replica. A ready hub is healthy exactly when it waits, and has no such condition
      otherwise; one that waits for a deployment without ready replicas is unhealthy. */
  lemma HubReadyExactly(platform: Platform, w: Snapshot, h: Key, inputs: Inputs)
    requires h in w.hubs && inputs.read && !w.hubs[h].suspend && inputs.statusPatched
    ensures var hub, after := w.hubs[h], HubStep(platform, w, h, inputs).hubs;
            && h in after && after[h] == hub.(status := after[h].status)
            && after[h].status.observedGeneration == hub.generation
            && IsHealth(h, hub, IsRolledOut(platform, w, h, inputs), inputs, after[h].status.conditions)
  {
    ReconciledOutcome(platform, w, h, inputs);
    HealthExactly(h, w.hubs[h], IsRolledOut(platform, w, h, inputs), inputs,
                  Reconciled(platform, w, h, inputs).outcome);
  }

  /** What `Ready` and `Healthy` say after a hub was rolled out, or was not. */
  predicate IsHealth(h: Key, hub: Hub, rolledOut: bool, inputs: Inputs, after: seq<Condition>) {
    var served := rolledOut && (!hub.wait || (inputs.appRead && inputs.readyReplicas > 0));
    var unserved := rolledOut && hub.wait && inputs.appRead && inputs.readyReplicas == 0;
    && Find(after, READY).Some?
    && (IsTrue(after, READY) <==> served)
    && (served ==> Find(after, READY).value.message == "deployment/" + ("swagger-ui-" + h.name) + " created")
    && (served && hub.wait ==> IsTrue(after, HEALTHY))
    && (served && !hub.wait ==> Find(after, HEALTHY).None?)
    && (unserved ==> Find(after, HEALTHY).Some? && Find(after, HEALTHY).value.status == FALSE)
    && (!served && !unserved ==> Find(after, HEALTHY) == Find(hub.status.conditions, HEALTHY))
  }

  /** The outcome of a reconcile by what the hub was and what it got. */
  predicate IsOutcome(h: Key, hub: Hub, rolledOut: bool, inputs: Inputs, outcome: HubOutcome) {
    && (outcome.Deployed? <==> rolledOut && (!hub.wait || (inputs.appRead && inputs.readyReplicas > 0)))
    && (outcome.Deployed? ==> outcome.message == "deployment/" + ("swagger-ui-" + h.name) + " created")
    && (outcome.NoEndpoint? <==> rolledOut && hub.wait && inputs.appRead && inputs.readyReplicas == 0)
  }

  lemma HealthExactly(h: Key, hub: Hub, rolledOut: bool, inputs: Inputs, outcome: HubOutcome)
    requires IsOutcome(h, hub, rolledOut, inputs, outcome)
    ensures IsHealth(h, hub, rolledOut, inputs, HubConditions(hub.status.conditions, hub.wait, hub.generation, outcome))
  {
    HubConditionsExactly(hub.status.conditions, hub.wait, hub.generation, outcome, READY);
    HubConditionsExactly(hub.status.conditions, hub.wait, hub.generation, outcome, HEALTHY);
  }

  lemma ReconciledOutcome(platform: Platform, w: Snapshot, h: Key, inputs: Inputs)
    requires h in w.hubs
    ensures IsOutcome(h, w.hubs[h], IsRolledOut(platform, w, h, inputs), inputs,
                      Reconciled(platform, w, h, inputs).outcome)
  {
    if SelectedDefinitions(w, h, inputs).Ok? && SelectedSpecifications(w, h, inputs).Ok? {
      FinishOutcome(platform, w, h, inputs, FullCatalog(w, h, inputs), HubLoop(w, h, inputs));
    }
  }

  lemma FinishOutcome(platform: Platform, w: Snapshot, h: Key, inputs: Inputs, catalog: seq<ResourceReference>,
                      loop: State)
    requires h in w.hubs
    ensures var rolledOut := !loop.failed && RollsOut(platform, w.services, w.deployments, h, w.hubs[h], inputs,
                                                      loop.urls, loop.mounts);
            IsOutcome(h, w.hubs[h], rolledOut, inputs, Finish(platform, w, h, inputs, catalog, loop).outcome)
  {
    RolloutOutcome(platform, w.services, w.deployments, h, w.hubs[h], inputs, loop.urls, loop.mounts);
  }

  lemma RolloutOutcome(platform: Platform, services: map<Key, Service>, deployments: map<Key, Deployment>, h: Key,
                       hub: Hub, inputs: Inputs, urls: seq<ApiUrl>, mounts: seq<MountRef>)
    ensures IsOutcome(h, hub, RollsOut(platform, services, deployments, h, hub, inputs, urls, mounts), inputs,
                      Rollout(platform, services, deployments, h, hub, inputs, urls, mounts).outcome)
  {
    var owner, k := OwnerOf(h, hub), ObjectKeyOf(h);
    WritableExactly(services, k, DesiredService(h, hub), ServiceOwners(), platform.applyService, owner,
                    inputs.serviceWritten);
    var desired := DesiredDeployment(platform, h, hub, urls, mounts);
    if desired.Ok? {
      WritableExactly(deployments, k, desired.value, DeploymentOwners(), platform.applyDeployment, owner,
                      inputs.deploymentWritten);
    }
  }

  lemma WritableExactly<T>(objects: map<Key, T>, k: Key, desired: T, ownersOf: T -> seq<OwnerReference>,
                           apply: (T, T) -> T, owner: OwnerReference, written: bool)
    ensures CreateOrUpdate(objects, k, desired, ownersOf, apply, owner, written).Ok? <==>
            IsWritable(objects, k, owner, ownersOf, written)
  {
    if k in objects {
      OwnerExactly(owner, ownersOf(objects[k]));
    }
  }

  // ---- Ownership ------------------------------------------------------------------------------

  /** Only the object `own` may have changed, and only when it was absent or belonged to `owner`. */
  predicate Spared<T(==)>(before: map<Key, T>, after: map<Key, T>, own: Key, owner: OwnerReference,
                          ownersOf: T -> seq<OwnerReference>) {
    && (forall k | k in before && (k != own || !IsOwner(owner, ownersOf(before[k]))) ::
          k in after && after[k] == before[k])
    && (forall k | k in after :: k in before || k == own)
  }

  lemma CreateOrUpdateSpares<T>(objects: map<Key, T>, k: Key, desired: T, ownersOf: T -> seq<OwnerReference>,
                                apply: (T, T) -> T, owner: OwnerReference, written: bool)
    ensures Spared(objects, objects, k, owner, ownersOf)
    ensures var r := CreateOrUpdate(objects, k, desired, ownersOf, apply, owner, written);
            r.Ok? ==> Spared(objects, r.value, k, owner, ownersOf)
  {}

  /** A reconcile, failing or not, touches no service or deployment but the hub's own two, and not even
      those when an object without the hub's owner reference has the name. */
  lemma OnlyOwnedObjects(platform: Platform, w: Snapshot, h: Key, inputs: Inputs)
    requires h in w.hubs
    ensures var after := HubStep(platform, w, h, inputs);
            var owner := OwnerOf(h, w.hubs[h]);
            && Spared(w.services, after.services, ObjectKeyOf(h), owner, ServiceOwners())
            && Spared(w.deployments, after.deployments, ObjectKeyOf(h), owner, DeploymentOwners())
  {
    ReconciledSpares(platform, w, h, inputs);
  }

  lemma ReconciledSpares(platform: Platform, w: Snapshot, h: Key, inputs: Inputs)
    requires h in w.hubs
    ensures var after := Reconciled(platform, w, h, inputs).world;
            var owner := OwnerOf(h, w.hubs[h]);
            && Spared(w.services, after.services, ObjectKeyOf(h), owner, ServiceOwners())
            && Spared(w.deployments, after.deployments, ObjectKeyOf(h), owner, DeploymentOwners())
  {
    var loop := HubLoop(w, h, inputs);
    ReconciledRolls(platform, w, h, inputs);
    RolloutSpares(platform, w.services, w.deployments, h, w.hubs[h], inputs, loop.urls, loop.mounts);
  }

  lemma ReconciledRolls(platform: Platform, w: Snapshot, h: Key, inputs: Inputs)
    requires h in w.hubs
    ensures var after, loop := Reconciled(platform, w, h, inputs).world, HubLoop(w, h, inputs);
            var out := Rollout(platform, w.services, w.deployments, h, w.hubs[h], inputs, loop.urls, loop.mounts);
            (after.services == w.services && after.deployments == w.deployments) ||
            (after.services == out.services && after.deployments == out.deployments)
  {}

  lemma RolloutSpares(platform: Platform, services: map<Key, Service>, deployments: map<Key, Deployment>,
                      h: Key, hub: Hub, inputs: Inputs, urls: seq<ApiUrl>, mounts: seq<MountRef>)
    ensures var out := Rollout(platform, services, deployments, h, hub, inputs, urls, mounts);
            && Spared(services, out.services, ObjectKeyOf(h), OwnerOf(h, hub), ServiceOwners())
            && Spared(deployments, out.deployments, ObjectKeyOf(h), OwnerOf(h, hub), DeploymentOwners())
  {
    var owner, k := OwnerOf(h, hub), ObjectKeyOf(h);
    CreateOrUpdateSpares(services, k, DesiredService(h, hub), ServiceOwners(), platform.applyService,
                         owner, inputs.serviceWritten);
    var desired := DesiredDeployment(platform, h, hub, urls, mounts);
    if desired.Ok? {
      CreateOrUpdateSpares(deployments, k, desired.value, DeploymentOwners(), platform.applyDeployment,
                           owner, inputs.deploymentWritten);
    }
  }

  /** The hub's container is the first one, and the only one of its name. */
  lemma OneUiContainer(platform: Platform, h: Key, hub: Hub, urls: seq<ApiUrl>, mounts: seq<MountRef>)
    requires KeepsName(platform.merge) && DesiredDeployment(platform, h, hub, urls, mounts).Ok?
    ensures var containers := DesiredDeployment(platform, h, hub, urls, mounts).value.template.containers;
            && containers != [] && containers[0].name == UI
            && forall i | 0 < i < |containers| :: containers[i].name != UI
  {
    var base := BaseContainer(platform, urls, mounts);
    var patches := TemplateOf(hub).template.containers;
    MergeExactly([base], patches, platform.merge);
    SingleBaseStaysFirst(base, patches, platform.merge, MergeResult([base], patches, platform.merge).value);
  }

  /** What the deployment takes over from the user's template: annotations, labels apart from the three of the hub, the
      volumes, to which at most one is added, and the fields nobody reads. */
  predicate TakesOver(d: Deployment, t: DeploymentTemplate, mounts: seq<MountRef>) {
    var own := {"app.kubernetes.io/instance", "app.kubernetes.io/name", "swagger-hub-controller/hub"};
    && d.annotations == t.annotations && d.rest == t.rest && d.template.rest == t.template.rest
    && d.labels - own == t.labels - own && d.template.labels - own == t.template.labels - own
    && d.template.volumes == t.template.volumes + if mounts == [] then [] else
         [Projected("definitions", Projections(mounts))]
  }

  lemma DeploymentTakesOver(platform: Platform, h: Key, hub: Hub, urls: seq<ApiUrl>, mounts: seq<MountRef>)
    requires DesiredDeployment(platform, h, hub, urls, mounts).Ok?
    ensures var d := DesiredDeployment(platform, h, hub, urls, mounts).value;
            && d.owners == DesiredService(h, hub).owners == [OwnerReference(h.name, hub.uid, HUB_KIND)]
            && (hub.template.Some? ==> TakesOver(d, hub.template.value, mounts))
            && (hub.template.None? ==> exists rest ::
                  TakesOver(d, DeploymentTemplate(map[], map[], PodTemplate(map[], [], [], rest), ""), mounts))
  {
    var d, t := DesiredDeployment(platform, h, hub, urls, mounts).value, TemplateOf(hub);
    var own := HubLabels(h.name).Keys;
    assert own == {"app.kubernetes.io/instance", "app.kubernetes.io/name", "swagger-hub-controller/hub"};
    LabelsUnder(t.labels, HubLabels(h.name));
    LabelsUnder(t.template.labels, HubLabels(h.name));
    assert TakesOver(d, t, mounts);
  }

  lemma LabelsUnder(labels: Labels, own: Labels)
    ensures (labels + own) - own.Keys == labels - own.Keys
  {}

  /** The `swagger-ui` container that the user does not patch: the configured image or else the default one, the URLs
      when there are any, and the volume when something is mounted. */
  lemma UnpatchedUi(platform: Platform, h: Key, hub: Hub, urls: seq<ApiUrl>, mounts: seq<MountRef>)
    requires DesiredDeployment(platform, h, hub, urls, mounts).Ok? && UI !in Names(TemplateOf(hub).template.containers)
    ensures var containers := DesiredDeployment(platform, h, hub, urls, mounts).value.template.containers;
            && containers != [] && containers[0].name == "swagger-ui"
            && (platform.defaultImage != "" ==> containers[0].image == platform.defaultImage)
            && (platform.defaultImage == "" ==> containers[0].image == "swaggerapi/swagger-ui:latest")
            && (urls == [] ==> containers[0].env == [])
            && (urls != [] ==> containers[0].env == [EnvVar("API_URLS", platform.marshalUrls(urls))])
            && (mounts == [] ==> containers[0].mounts == [])
            && (mounts != [] ==>
                  containers[0].mounts == [VolumeMount("definitions", true, "/usr/share/nginx/html/definitions")])
  {
    var base := BaseContainer(platform, urls, mounts);
    var patches := TemplateOf(hub).template.containers;
    MergeExactly([base], patches, platform.merge);
    assert Patched([base], patches, 0, platform.merge) == Ok(base);
  }

  predicate SelectsPods(selector: Labels, pod: Labels) {
    forall l | l in selector :: l in pod && pod[l] == selector[l]
  }

  /** Whatever the users' templates, the service of one hub selects the pods of another one exactly when
      the hubs have the same name; a deployment's selector selects its own pods. */
  lemma ServiceSelectsOwnPods(platform: Platform, a: Key, hubA: Hub, b: Key, hubB: Hub, urls: seq<ApiUrl>,
                              mounts: seq<MountRef>)
    requires DesiredDeployment(platform, b, hubB, urls, mounts).Ok?
    ensures var d := DesiredDeployment(platform, b, hubB, urls, mounts).value;
            && (SelectsPods(DesiredService(a, hubA).selector, d.template.labels) <==> a.name == b.name)
            && SelectsPods(d.selector, d.template.labels)
  {
    var d := DesiredDeployment(platform, b, hubB, urls, mounts).value;
    assert HUB_LABEL in DesiredService(a, hubA).selector;
    assert HUB_LABEL in HubLabels(b.name) && d.template.labels[HUB_LABEL] == b.name;
    forall l | l in HubLabels(b.name) ensures l in d.template.labels && d.template.labels[l] == HubLabels(b.name)[l] {
    }
  }
}
