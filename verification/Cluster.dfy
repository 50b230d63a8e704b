/** The custom resources, and the cluster the controllers read and write. */
module Cluster {
  import opened Wrappers
  import opened Objects
  import opened Selectors
  import opened Conditions
  import opened Unification

  const DEFINITION_KIND := "SwaggerDefinition"
  const SPECIFICATION_KIND := "SwaggerSpecification"
  const HUB_KIND := "SwaggerHub"

  /** The error of any request to the API server that fails. */
  const REQUEST_FAILED := "request failed"

  /** The `namespace` stays empty for a resource of the hub's own namespace. */
  datatype ResourceReference = ResourceReference(kind: string, name: string, namespace: string)

  datatype ResourceLookupReference = ResourceLookupReference(kind: string, name: string, error: string)

  datatype Definition = Definition(
    labels: Labels, uid: string, generation: int, suspend: bool, url: Option<string>, status: Status<()>)

  datatype Specification = Specification(
    labels: Labels, uid: string, generation: int, suspend: bool,
    definitionSelector: Option<LabelSelector>, namespaceSelector: Option<LabelSelector>, head: Head,
    status: Status<ResourceLookupReference>)

  /** `rest` stands for replicas, strategy and the other fields that are copied as they are. */
  datatype DeploymentTemplate = DeploymentTemplate(
    labels: Labels, annotations: Labels, template: PodTemplate, rest: string)

  datatype Hub = Hub(
    uid: string, generation: int, suspend: bool, wait: bool, frontendURL: string,
    definitionSelector: Option<LabelSelector>, specificationSelector: Option<LabelSelector>,
    namespaceSelector: Option<LabelSelector>, template: Option<DeploymentTemplate>,
    status: Status<ResourceReference>)

  /** The state of the API server. */
  datatype Snapshot = Snapshot(
    namespaces: map<string, Labels>,
    definitions: map<Key, Definition>,
    specifications: map<Key, Specification>,
    hubs: map<Key, Hub>,
    configMaps: map<Key, ConfigMap>,
    services: map<Key, Service>,
    deployments: map<Key, Deployment>)

  class ApiServer {
    var namespaces: map<string, Labels>
    var definitions: map<Key, Definition>
    var specifications: map<Key, Specification>
    var hubs: map<Key, Hub>
    var configMaps: map<Key, ConfigMap>
    var services: map<Key, Service>
    var deployments: map<Key, Deployment>

    function View(): Snapshot
      reads this
    {
      Snapshot(namespaces, definitions, specifications, hubs, configMaps, services, deployments)
    }
  }

  // ---- Selection ------------------------------------------------------------------------------

  /** The namespaces to look in: the matching ones, or without a selector the resource's own. */
  function SelectedNamespaces(namespaces: map<string, Labels>, selector: Option<LabelSelector>,
                              own: string): set<string> {
    if selector.None? then {own} else set n | n in namespaces && Matches(selector, namespaces[n])
  }

  function SelectedKeys(objects: map<Key, Labels>, namespaces: set<string>, selector: Option<LabelSelector>): set<Key> {
    set k | k in objects && k.namespace in namespaces && Matches(selector, objects[k])
  }

  function DefinitionLabels(definitions: map<Key, Definition>): map<Key, Labels> {
    map k | k in definitions :: definitions[k].labels
  }

  function SpecificationLabels(specifications: map<Key, Specification>): map<Key, Labels> {
    map k | k in specifications :: specifications[k].labels
  }
}
