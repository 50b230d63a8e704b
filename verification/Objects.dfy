/** The parts of the Kubernetes API types that the controllers read and write. */
module Objects {

  /** A byte slice, one `char` a byte. */
  type Bytes = string

  type Labels = map<string, string>

  /** `types.NamespacedName`. */
  datatype Key = Key(namespace: string, name: string)

  datatype OwnerReference = OwnerReference(name: string, uid: string, kind: string)

  datatype ConfigMap = ConfigMap(binaryData: map<string, Bytes>, owners: seq<OwnerReference>)

  datatype EnvVar = EnvVar(name: string, value: string)

  datatype VolumeMount = VolumeMount(name: string, readOnly: bool, mountPath: string)

  /** `rest` stands for the probes, ports and all fields the controllers never read. */
  datatype Container = Container(
    name: string, image: string, env: seq<EnvVar>, mounts: seq<VolumeMount>, rest: string)

  /** A projected entry: the key `definition.json` of a ConfigMap, at a path below the mount. */
  datatype Projection = Projection(configMap: string, path: string)

  datatype Volume = Projected(name: string, sources: seq<Projection>) | OtherVolume(name: string, rest: string)

  datatype PodTemplate = PodTemplate(labels: Labels, containers: seq<Container>, volumes: seq<Volume>, rest: string)

  datatype Deployment = Deployment(
    owners: seq<OwnerReference>, labels: Labels, annotations: Labels, selector: Labels,
    template: PodTemplate, rest: string)

  datatype Service = Service(owners: seq<OwnerReference>, selector: Labels, rest: string)
}
