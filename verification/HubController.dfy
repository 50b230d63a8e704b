/** The hub reconciler. */
module HubController {
  import opened Wrappers
  import opened Objects
  import opened Conditions
  import opened Cluster
  import opened Selection
  import opened Publishing
  import opened ContainerMerge

  /** What the reconciler gets from libraries: strategic merge of containers, server-side apply of its
      fields onto an existing object, JSON encoding of the URLs; and its configured default image. */
  datatype Platform = Platform(
    merge: Merger,
    applyService: (Service, Service) -> Service,
    applyDeployment: (Deployment, Deployment) -> Deployment,
    marshalUrls: seq<ApiUrl> -> string,
    defaultImage: string)

  /** What the environment decides in one reconcile: which requests succeed, and the readiness read. */
  datatype Inputs = Inputs(
    read: bool, definitions: Listing, specifications: Listing, calls: nat, serviceWritten: bool,
    deploymentWritten: bool, appRead: bool, readyReplicas: nat, statusPatched: bool)

  const UI := "swagger-ui"
  const HUB_LABEL := "swagger-hub-controller/hub"
  const VOLUME := "definitions"

  // ---- The desired objects --------------------------------------------------------------------

  function HubLabels(hub: string): Labels {
    map["app.kubernetes.io/instance" := UI, "app.kubernetes.io/name" := UI, HUB_LABEL := hub]
  }

  function ObjectKeyOf(h: Key): Key {
    Key(h.namespace, "swagger-ui-" + h.name)
  }

  function OwnerOf(h: Key, hub: Hub): OwnerReference {
    OwnerReference(h.name, hub.uid, HUB_KIND)
  }

  function FrontendURL(hub: Hub): string {
    if hub.frontendURL != "" then hub.frontendURL else "http://localhost"
  }

  function DefaultTemplate(): DeploymentTemplate {
    DeploymentTemplate(map[], map[], PodTemplate(map[], [], [], "runAsNonRoot 10000:10000"), "")
  }

  function TemplateOf(hub: Hub): DeploymentTemplate {
    if hub.template.Some? then hub.template.value else DefaultTemplate()
  }

  /** The `swagger-ui` container, before the user's patches. */
  function BaseContainer(platform: Platform, urls: seq<ApiUrl>, mounts: seq<MountRef>): Container {
    Container(UI,
              if platform.defaultImage != "" then platform.defaultImage else "swaggerapi/swagger-ui:latest",
              if urls != [] then [EnvVar("API_URLS", platform.marshalUrls(urls))] else [],
              if mounts != [] then [VolumeMount(VOLUME, true, MOUNT_PATH)] else [],
              "probes and port http:8080")
  }

  function DefinitionVolumes(mounts: seq<MountRef>): seq<Volume> {
    if mounts != [] then [Projected(VOLUME, Projections(mounts))] else []
  }

  function DesiredDeployment(platform: Platform, h: Key, hub: Hub, urls: seq<ApiUrl>,
                             mounts: seq<MountRef>): Result<Deployment> {
    var t := TemplateOf(hub);
    match MergeResult([BaseContainer(platform, urls, mounts)], t.template.containers, platform.merge)
    case Err(e) => Err(e)
    case Ok(containers) =>
      Ok(Deployment([OwnerOf(h, hub)], t.labels + HubLabels(h.name), t.annotations, HubLabels(h.name),
                    PodTemplate(t.template.labels + HubLabels(h.name), containers,
                                t.template.volumes + DefinitionVolumes(mounts),
                                t.template.rest),
                    t.rest))
  }

  function DesiredService(h: Key, hub: Hub): Service {
    Service([OwnerOf(h, hub)], HubLabels(h.name), "port http:80")
  }

  // ---- createOrUpdateWithOwnershipValidation --------------------------------------------------

  /** `isOwner`. */
  predicate IsOwner(owner: OwnerReference, owners: seq<OwnerReference>) {
    exists o :: o in owners && o.name == owner.name && o.uid == owner.uid && o.kind == owner.kind
  }

  /** An owner reference is its name, uid and kind: no other object has all three. */
  lemma OwnerExactly(owner: OwnerReference, owners: seq<OwnerReference>)
    ensures IsOwner(owner, owners) <==> owner in owners
  {}

  function NotOwned(name: string): string {
    "can not take ownership of existing resource: " + name
  }

  function CreateOrUpdate<T>(objects: map<Key, T>, k: Key, desired: T, ownersOf: T -> seq<OwnerReference>,
                             apply: (T, T) -> T, owner: OwnerReference, written: bool): Result<map<Key, T>> {
    if !written then Err(REQUEST_FAILED)
    else if k !in objects then Ok(objects[k := desired])
    else if !IsOwner(owner, ownersOf(objects[k])) then Err(NotOwned(k.name))
    else Ok(objects[k := apply(objects[k], desired)])
  }

  function ServiceOwners(): Service -> seq<OwnerReference> { (s: Service) => s.owners }

  function DeploymentOwners(): Deployment -> seq<OwnerReference> { (d: Deployment) => d.owners }

  // ---- The step -------------------------------------------------------------------------------

  function Reference(kind: string, k: Key, namespace: string): ResourceReference {
    ResourceReference(kind, k.name, if k.namespace != namespace then k.namespace else "")
  }

  function Catalog(kind: string, keys: seq<Key>, namespace: string): seq<ResourceReference> {
    seq(|keys|, i requires 0 <= i < |keys| => Reference(kind, keys[i], namespace))
  }

  /** The cluster, catalog and outcome that `reconcile` leaves; the status is not yet persisted. */
  datatype Run = Run(world: Snapshot, catalog: seq<ResourceReference>, outcome: HubOutcome)

  ghost function SelectedDefinitions(w: Snapshot, h: Key, inputs: Inputs): Result<seq<Key>>
    requires h in w.hubs
  {
    Selected(w.namespaces, DefinitionLabels(w.definitions), h.namespace, w.hubs[h].definitionSelector,
             w.hubs[h].namespaceSelector, inputs.definitions)
  }

  ghost function SelectedSpecifications(w: Snapshot, h: Key, inputs: Inputs): Result<seq<Key>>
    requires h in w.hubs
  {
    Selected(w.namespaces, SpecificationLabels(w.specifications), h.namespace, w.hubs[h].specificationSelector,
             w.hubs[h].namespaceSelector, inputs.specifications)
  }

  ghost function Reconciled(platform: Platform, w: Snapshot, h: Key, inputs: Inputs): Run
    requires h in w.hubs
  {
    match SelectedDefinitions(w, h, inputs)
    case Err(e) => Run(w, [], Failed(e))
    case Ok(definitions) =>
      var first := Catalog(DEFINITION_KIND, definitions, h.namespace);
      match SelectedSpecifications(w, h, inputs)
      case Err(e) => Run(w, first, Failed(e))
      case Ok(specifications) =>
        var catalog := first + Catalog(SPECIFICATION_KIND, specifications, h.namespace);
        var published := VisitAll(Start(w.configMaps, inputs.calls), Refs(definitions, specifications),
                                  h.namespace, FrontendURL(w.hubs[h]));
        Finish(platform, w, h, inputs, catalog, published)
  }

  /** What follows the loop over the references. */
  function Finish(platform: Platform, w: Snapshot, h: Key, inputs: Inputs, catalog: seq<ResourceReference>,
                  published: State): Run
    requires h in w.hubs
  {
    var w' := w.(configMaps := published.configMaps);
    if published.failed then Run(w', catalog, Failed(REQUEST_FAILED))
    else Deploy(platform, w', h, inputs, catalog, published.urls, published.mounts)
  }

  /** From the merged containers to the outcome. */
  function Deploy(platform: Platform, w: Snapshot, h: Key, inputs: Inputs, catalog: seq<ResourceReference>,
                  urls: seq<ApiUrl>, mounts: seq<MountRef>): Run
    requires h in w.hubs
  {
    var out := Rollout(platform, w.services, w.deployments, h, w.hubs[h], inputs, urls, mounts);
    Run(w.(services := out.services, deployments := out.deployments), catalog, out.outcome)
  }

  datatype Rolled = Rolled(services: map<Key, Service>, deployments: map<Key, Deployment>, outcome: HubOutcome)

  function Rollout(platform: Platform, services: map<Key, Service>, deployments: map<Key, Deployment>, h: Key, hub: Hub,
                   inputs: Inputs, urls: seq<ApiUrl>, mounts: seq<MountRef>): Rolled {
    var owner, k := OwnerOf(h, hub), ObjectKeyOf(h);
    match DesiredDeployment(platform, h, hub, urls, mounts)
    case Err(e) => Rolled(services, deployments, Failed(e))
    case Ok(deployment) =>
      match CreateOrUpdate(services, k, DesiredService(h, hub), ServiceOwners(), platform.applyService,
                           owner, inputs.serviceWritten)
      case Err(e) => Rolled(services, deployments, Failed(e))
      case Ok(services') =>
        match CreateOrUpdate(deployments, k, deployment, DeploymentOwners(), platform.applyDeployment,
                             owner, inputs.deploymentWritten)
        case Err(e) => Rolled(services', deployments, Failed(e))
        case Ok(deployments') => Rolled(services', deployments', Health(hub, k, inputs))
  }

  function Health(hub: Hub, k: Key, inputs: Inputs): HubOutcome {
    if hub.wait && !inputs.appRead then Failed(REQUEST_FAILED)
    else if hub.wait && inputs.readyReplicas == 0 then NoEndpoint
    else Deployed("deployment/" + k.name + " created")
  }

  /** `Reconcile`: nothing for a hub that is gone, unreadable or suspended. */
  ghost function HubStep(platform: Platform, w: Snapshot, h: Key, inputs: Inputs): Snapshot {
    if h !in w.hubs || !inputs.read || w.hubs[h].suspend then w
    else
      var run := Reconciled(platform, w, h, inputs);
      var hub := w.hubs[h];
      if !inputs.statusPatched then run.world
      else run.world.(hubs := w.hubs[h := hub.(status := HubStatus(hub, run.outcome, run.catalog))])
  }

  function HubStatus(hub: Hub, outcome: HubOutcome, catalog: seq<ResourceReference>): Status<ResourceReference> {
    Status(HubConditions(hub.status.conditions, hub.wait, hub.generation, outcome), hub.generation, catalog)
  }

  // ---- The code -------------------------------------------------------------------------------

  /** Lines 408-423. */
  method BuildRefs(definitions: seq<Key>, specifications: seq<Key>) returns (refs: seq<MountRef>)
    ensures refs == Refs(definitions, specifications)
  {
    refs := [];
    for i := 0 to |definitions|
      invariant refs == Refs(definitions[..i], [])
    {
      refs := refs + [DefinitionRef(definitions[i])];
    }
    assert definitions[..|definitions|] == definitions;
    for i := 0 to |specifications|
      invariant refs == Refs(definitions, specifications[..i])
    {
      refs := refs + [SpecificationRef(specifications[i])];
    }
    assert specifications[..|specifications|] == specifications;
  }

  /** Lines 425-488: reads and writes the ConfigMaps of the cluster while it goes. */
  method PublishRefs(c: ApiServer, refs: seq<MountRef>, namespace: string, frontendURL: string, calls: nat)
    returns (urls: seq<ApiUrl>, mounts: seq<MountRef>, failed: bool)
    modifies c`configMaps
    ensures var out := VisitAll(Start(old(c.configMaps), calls), refs, namespace, frontendURL);
            c.configMaps == out.configMaps && failed == out.failed &&
            (!failed ==> urls == out.urls && mounts == out.mounts)
  {
    urls, mounts := [], [];
    var left := calls;
    ghost var start := Start(c.configMaps, calls);
    for i := 0 to |refs|
      invariant State(c.configMaps, urls, mounts, left, false) == VisitAll(start, refs[..i], namespace, frontendURL)
    {
      assert refs[..i + 1][..i] == refs[..i];
      var ref := refs[i];
      if left == 0 {
        FailureLasts(start, refs, i + 1, namespace, frontendURL);
        return urls, mounts, true;
      }
      left := left - 1;
      if SourceOf(ref) !in c.configMaps {
        continue;
      }
      var existing := c.configMaps[SourceOf(ref)];
      urls := urls + [UrlOf(ref, frontendURL)];
      if IsNative(ref, namespace) {
        mounts := mounts + [ref];
        continue;
      }
      var copy := Key(namespace, ref.configMap + "-" + ref.namespace);
      if left < 2 {
        FailureLasts(start, refs, i + 1, namespace, frontendURL);
        return urls, mounts, true;
      }
      left := left - 2;
      c.configMaps := c.configMaps[copy := existing];
      mounts := mounts + [ref.(configMap := copy.name)];
    }
    assert refs[..|refs|] == refs;
    failed := false;
  }

  /** Lines 490-505. */
  method Project(mounts: seq<MountRef>) returns (sources: seq<Projection>)
    ensures sources == Projections(mounts)
  {
    sources := [];
    for i := 0 to |mounts|
      invariant sources == Projections(mounts[..i])
    {
      sources := sources + [ProjectionOf(mounts[i])];
    }
    assert mounts[..|mounts|] == mounts;
  }

  /** Lines 301-398 and 507-541. */
  method BuildDeployment(platform: Platform, h: Key, hub: Hub, urls: seq<ApiUrl>, mounts: seq<MountRef>)
    returns (r: Result<Deployment>)
    ensures r == DesiredDeployment(platform, h, hub, urls, mounts)
  {
    var template := DefaultTemplate();
    if hub.template.Some? {
      template := hub.template.value;
    }
    var selector := map["app.kubernetes.io/instance" := UI, "app.kubernetes.io/name" := UI, HUB_LABEL := h.name];
    var podLabels, labels := template.template.labels, template.labels;
    podLabels := podLabels["app.kubernetes.io/instance" := UI];
    podLabels := podLabels["app.kubernetes.io/name" := UI];
    podLabels := podLabels[HUB_LABEL := h.name];
    labels := labels["app.kubernetes.io/instance" := UI];
    labels := labels["app.kubernetes.io/name" := UI];
    labels := labels[HUB_LABEL := h.name];
    assert podLabels == template.template.labels + HubLabels(h.name);
    assert labels == template.labels + HubLabels(h.name);

    var image := "swaggerapi/swagger-ui:latest";
    if platform.defaultImage != "" {
      image := platform.defaultImage;
    }
    var container := Container(UI, image, [], [], "probes and port http:8080");
    var sources := Project(mounts);
    var volumes := template.template.volumes;
    if |sources| != 0 {
      container := container.(mounts := [VolumeMount(VOLUME, true, MOUNT_PATH)]);
      volumes := volumes + [Projected(VOLUME, sources)];
    }
    if |urls| > 0 {
      container := container.(env := [EnvVar("API_URLS", platform.marshalUrls(urls))]);
    }
    assert container == BaseContainer(platform, urls, mounts);
    var containers := MergePatchContainers([container], template.template.containers, platform.merge);
    if containers.Err? {
      return Err(containers.error);
    }
    r := Ok(Deployment([OwnerOf(h, hub)], labels, template.annotations, selector,
                       PodTemplate(podLabels, containers.value, volumes, template.template.rest), template.rest));
    assert volumes == template.template.volumes + DefinitionVolumes(mounts);
  }

  /** `createOrUpdateWithOwnershipValidation` for the Service. */
  method WriteService(c: ApiServer, platform: Platform, k: Key, desired: Service, owner: OwnerReference, written: bool)
    returns (error: Option<string>)
    modifies c`services
    ensures match CreateOrUpdate(old(c.services), k, desired, ServiceOwners(), platform.applyService, owner, written)
            case Err(e) => error == Some(e) && c.services == old(c.services)
            case Ok(services) => error == None && c.services == services
  {
    if !written {
      return Some(REQUEST_FAILED);
    }
    if k !in c.services {
      c.services := c.services[k := desired];
    } else {
      var existing := c.services[k];
      var owned := HasOwner(owner, existing.owners);
      if !owned {
        return Some(NotOwned(k.name));
      }
      c.services := c.services[k := platform.applyService(existing, desired)];
    }
    error := None;
  }

  /** `createOrUpdateWithOwnershipValidation` for the Deployment. */
  method WriteDeployment(c: ApiServer, platform: Platform, k: Key, desired: Deployment, owner: OwnerReference,
                         written: bool)
    returns (error: Option<string>)
    modifies c`deployments
    ensures match CreateOrUpdate(old(c.deployments), k, desired, DeploymentOwners(), platform.applyDeployment, owner,
                                 written)
            case Err(e) => error == Some(e) && c.deployments == old(c.deployments)
            case Ok(deployments) => error == None && c.deployments == deployments
  {
    if !written {
      return Some(REQUEST_FAILED);
    }
    if k !in c.deployments {
      c.deployments := c.deployments[k := desired];
    } else {
      var existing := c.deployments[k];
      var owned := HasOwner(owner, existing.owners);
      if !owned {
        return Some(NotOwned(k.name));
      }
      c.deployments := c.deployments[k := platform.applyDeployment(existing, desired)];
    }
    error := None;
  }

  method HasOwner(owner: OwnerReference, owners: seq<OwnerReference>) returns (found: bool)
    ensures found == IsOwner(owner, owners)
  {
    for i := 0 to |owners|
      invariant forall j | 0 <= j < i ::
                  owners[j].name != owner.name || owners[j].uid != owner.uid || owners[j].kind != owner.kind
    {
      var o := owners[i];
      if o.name == owner.name && o.uid == owner.uid && o.kind == owner.kind {
        return true;
      }
    }
    found := false;
  }

  /** Lines 693-705 and 753-765. */
  method AppendReferences(catalog: seq<ResourceReference>, kind: string, keys: seq<Key>, namespace: string)
    returns (r: seq<ResourceReference>)
    ensures r == catalog + Catalog(kind, keys, namespace)
  {
    r := catalog;
    for i := 0 to |keys|
      invariant r == catalog + Catalog(kind, keys[..i], namespace)
    {
      var ref := ResourceReference(kind, keys[i].name, "");
      if keys[i].namespace != namespace {
        ref := ref.(namespace := keys[i].namespace);
      }
      r := r + [ref];
    }
    assert keys[..|keys|] == keys;
  }

  /** The conditions that `reconcile` leaves: those of its end, or when it fails those it started with. */
  function Left(hub: Hub, outcome: HubOutcome): seq<Condition> {
    if outcome.Failed? then Started(hub.status.conditions, hub.wait, hub.generation)
    else HubConditions(hub.status.conditions, hub.wait, hub.generation, outcome)
  }

  /** Both selections: the catalog as far as it gets, and the references. */
  ghost predicate IsChosen(w: Snapshot, h: Key, inputs: Inputs, catalog: seq<ResourceReference>,
                           refs: Result<seq<MountRef>>)
    requires h in w.hubs
  {
    match SelectedDefinitions(w, h, inputs)
    case Err(e) => catalog == [] && refs == Err(e)
    case Ok(definitions) =>
      var first := Catalog(DEFINITION_KIND, definitions, h.namespace);
      match SelectedSpecifications(w, h, inputs)
      case Err(e) => catalog == first && refs == Err(e)
      case Ok(specifications) =>
        catalog == first + Catalog(SPECIFICATION_KIND, specifications, h.namespace) &&
        refs == Ok(Refs(definitions, specifications))
  }

  /** `extendhubWithDefinitions`, `extendhubWithSpecifications` and lines 408-423. */
  method Choose(c: ApiServer, h: Key, hub: Hub, inputs: Inputs)
    returns (catalog: seq<ResourceReference>, refs: Result<seq<MountRef>>)
    requires h in c.hubs && hub == c.hubs[h]
    ensures IsChosen(c.View(), h, inputs, catalog, refs)
  {
    catalog := [];
    var definitions := Extend(c.namespaces, DefinitionLabels(c.definitions), h.namespace,
                              hub.definitionSelector, hub.namespaceSelector, inputs.definitions);
    if definitions.Err? {
      return catalog, Err(definitions.error);
    }
    catalog := AppendReferences(catalog, DEFINITION_KIND, definitions.value, h.namespace);
    assert catalog == Catalog(DEFINITION_KIND, definitions.value, h.namespace);
    var specifications := Extend(c.namespaces, SpecificationLabels(c.specifications), h.namespace,
                                 hub.specificationSelector, hub.namespaceSelector, inputs.specifications);
    if specifications.Err? {
      return catalog, Err(specifications.error);
    }
    catalog := AppendReferences(catalog, SPECIFICATION_KIND, specifications.value, h.namespace);
    var all := BuildRefs(definitions.value, specifications.value);
    refs := Ok(all);
  }

  /** `reconcile`, the status updated step by step. */
  method ReconcileHub(c: ApiServer, platform: Platform, h: Key, inputs: Inputs)
    returns (status: Status<ResourceReference>, outcome: HubOutcome)
    requires h in c.hubs
    modifies c`configMaps, c`services, c`deployments
    ensures Run(c.View(), status.catalog, outcome) == Reconciled(platform, old(c.View()), h, inputs)
    ensures status == c.hubs[h].status.(conditions := Left(c.hubs[h], outcome), catalog := status.catalog)
  {
    var hub := c.hubs[h];
    status := hub.status;
    if hub.wait {
      status := status.(conditions :=
        Put(status.conditions, Condition(RECONCILING, TRUE, "Progressing", "", hub.generation)));
    }
    var catalog, refs := Choose(c, h, hub, inputs);
    status := status.(catalog := catalog);
    if refs.Err? {
      return status, Failed(refs.error);
    }
    var urls, mounts, failed := PublishRefs(c, refs.value, h.namespace, FrontendURL(hub), inputs.calls);
    if failed {
      return status, Failed(REQUEST_FAILED);
    }
    var conditions;
    conditions, outcome := DeployHub(c, platform, h, inputs, catalog, urls, mounts, status.conditions);
    status := status.(conditions := conditions);
  }

  /** Lines 536-604. */
  method DeployHub(c: ApiServer, platform: Platform, h: Key, inputs: Inputs, ghost catalog: seq<ResourceReference>,
                   urls: seq<ApiUrl>, mounts: seq<MountRef>, started: seq<Condition>)
    returns (conditions: seq<Condition>, outcome: HubOutcome)
    requires h in c.hubs && started == Started(c.hubs[h].status.conditions, c.hubs[h].wait, c.hubs[h].generation)
    modifies c`services, c`deployments
    ensures Run(c.View(), catalog, outcome) == Deploy(platform, old(c.View()), h, inputs, catalog, urls, mounts)
    ensures conditions == Left(c.hubs[h], outcome)
  {
    var hub := c.hubs[h];
    conditions := started;
    var deployment := BuildDeployment(platform, h, hub, urls, mounts);
    if deployment.Err? {
      return conditions, Failed(deployment.error);
    }
    var k := ObjectKeyOf(h);
    var error := WriteService(c, platform, k, DesiredService(h, hub), OwnerOf(h, hub), inputs.serviceWritten);
    if error.Some? {
      return conditions, Failed(error.value);
    }
    error := WriteDeployment(c, platform, k, deployment.value, OwnerOf(h, hub), inputs.deploymentWritten);
    if error.Some? {
      return conditions, Failed(error.value);
    }
    conditions, outcome := CheckHealth(hub, k, inputs, conditions);
  }

  /** Lines 582-604. */
  method CheckHealth(hub: Hub, k: Key, inputs: Inputs, started: seq<Condition>)
    returns (conditions: seq<Condition>, outcome: HubOutcome)
    requires started == Started(hub.status.conditions, hub.wait, hub.generation)
    ensures outcome == Health(hub, k, inputs) && conditions == Left(hub, outcome)
  {
    conditions := started;
    if hub.wait {
      if !inputs.appRead {
        return conditions, Failed(REQUEST_FAILED);
      }
      if inputs.readyReplicas == 0 {
        conditions := Put(conditions, Condition(HEALTHY, FALSE, "NoEndpointReady", UNHEALTHY, hub.generation));
        conditions := Put(conditions, Failure(UNHEALTHY, hub.generation));
        return conditions, NoEndpoint;
      }
      conditions := Put(conditions, Condition(HEALTHY, TRUE, "EndpointReady", HEALTHY_MESSAGE, hub.generation));
    } else {
      conditions := Drop(conditions, HEALTHY);
    }
    conditions := Drop(conditions, RECONCILING);
    var message := "deployment/" + k.name + " created";
    conditions := Put(conditions, Succeeded(message, hub.generation));
    outcome := Deployed(message);
  }

  method Reconcile(c: ApiServer, platform: Platform, h: Key, inputs: Inputs)
    modifies c
    ensures c.View() == HubStep(platform, old(c.View()), h, inputs)
  {
    if h !in c.hubs || !inputs.read || c.hubs[h].suspend {
      return;
    }
    var hub := c.hubs[h];
    var status, outcome := ReconcileHub(c, platform, h, inputs);
    status := status.(observedGeneration := hub.generation);
    if outcome.Failed? {
      status := status.(conditions := Put(status.conditions, Failure(outcome.error, hub.generation)));
    }
    if inputs.statusPatched {
      c.hubs := c.hubs[h := hub.(status := status)];
    }
  }
}
