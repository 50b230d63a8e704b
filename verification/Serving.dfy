/** What the pods of a hub serve: the URLs in the deployed container, the volume behind them, and the
    bytes in that volume, whether the deployment is created or updated. */
module Serving {
  import opened Wrappers
  import opened Text
  import opened Objects
  import opened Cluster
  import opened Publishing
  import opened ContainerMerge
  import opened HubController
  import opened HubProperties

  const API_URLS := "API_URLS"

  // ---- Reading a pod --------------------------------------------------------------------------

  function OrElse<T>(a: Option<T>, b: Option<T>): Option<T> {
    if a.Some? then a else b
  }

  /** The value of an environment variable; of a name that occurs again the last one. */
  function EnvValue(env: seq<EnvVar>, name: string): Option<string> {
    if env == [] then None
    else if env[|env| - 1].name == name then Some(env[|env| - 1].value)
    else EnvValue(env[..|env| - 1], name)
  }

  /** The volume mounted at a path. */
  function MountedAt(mounts: seq<VolumeMount>, path: string): Option<string> {
    if mounts == [] then None
    else if mounts[|mounts| - 1].mountPath == path then Some(mounts[|mounts| - 1].name)
    else MountedAt(mounts[..|mounts| - 1], path)
  }

  function VolumeNamed(volumes: seq<Volume>, name: string): Option<Volume> {
    if volumes == [] then None
    else if volumes[|volumes| - 1].name == name then Some(volumes[|volumes| - 1])
    else VolumeNamed(volumes[..|volumes| - 1], name)
  }

  /** The value of `API_URLS` in the `swagger-ui` container. */
  function UrlsOf(pod: PodTemplate): Option<string> {
    if UI in Names(pod.containers) then EnvValue(LastNamed(pod.containers, UI).env, API_URLS) else None
  }

  /** The volume mounted where the web server of the `swagger-ui` container looks for definitions. */
  function VolumeOf(pod: PodTemplate): Option<string> {
    if UI in Names(pod.containers) then MountedAt(LastNamed(pod.containers, UI).mounts, MOUNT_PATH) else None
  }

  /** The projected entries of that volume. */
  function EntriesOf(pod: PodTemplate): Option<seq<Projection>> {
    var name :- VolumeOf(pod);
    match VolumeNamed(pod.volumes, name)
    case Some(Projected(_, sources)) => Some(sources)
    case _ => None
  }

  /** A path below the directory of the definitions at which a mount covers the file. */
  predicate Covers(path: string, file: string) {
    HasPrefix(path, MOUNT_PATH + "/") && HasPrefix(file, path)
  }

  /** Another volume is mounted over the file, below the directory of the definitions. */
  ghost predicate IsCovered(pod: PodTemplate, file: string) {
    UI in Names(pod.containers) &&
    exists path :: MountedAt(LastNamed(pod.containers, UI).mounts, path).Some? && Covers(path, file)
  }

  /** The web server finds the entry in that file. */
  ghost predicate Finds(pod: PodTemplate, file: string, e: Projection) {
    !IsCovered(pod, file) && EntriesOf(pod).Some? && e in EntriesOf(pod).value && FileAt(e) == file
  }

  /** What the user's template sets itself for the `swagger-ui` container. */
  function UserContainers(hub: Hub): seq<Container> {
    TemplateOf(hub).template.containers
  }

  function UserUrls(hub: Hub): Option<string> {
    if UI in Names(UserContainers(hub)) then EnvValue(LastNamed(UserContainers(hub), UI).env, API_URLS) else None
  }

  function UserMount(hub: Hub, path: string): Option<string> {
    if UI in Names(UserContainers(hub)) then MountedAt(LastNamed(UserContainers(hub), UI).mounts, path) else None
  }

  function UserVolume(hub: Hub): Option<string> {
    UserMount(hub, MOUNT_PATH)
  }

  // ---- Laws of the libraries ------------------------------------------------------------------

  /** The base with variables by name and mounts by path, those of the patch first. */
  ghost predicate IsOverridden(base: Container, patch: Container, r: Container) {
    && r.name == base.name
    && (forall n :: EnvValue(r.env, n) == OrElse(EnvValue(patch.env, n), EnvValue(base.env, n)))
    && (forall p :: MountedAt(r.mounts, p) == OrElse(MountedAt(patch.mounts, p), MountedAt(base.mounts, p)))
  }

  /** Strategic merge of containers. */
  ghost predicate Overrides(merge: Merger) {
    forall base, patch | merge(base, patch).Ok? :: IsOverridden(base, patch, merge(base, patch).value)
  }

  /** The second container has what the first one sets. */
  ghost predicate KeepsContainer(c: Container, r: Container) {
    && (forall n | EnvValue(c.env, n).Some? :: EnvValue(r.env, n) == EnvValue(c.env, n))
    && (forall p | MountedAt(c.mounts, p).Some? :: MountedAt(r.mounts, p) == MountedAt(c.mounts, p))
  }

  ghost predicate KeepsPod(t: PodTemplate, r: PodTemplate) {
    && (forall n | n in Names(t.containers) ::
          n in Names(r.containers) && KeepsContainer(LastNamed(t.containers, n), LastNamed(r.containers, n)))
    && (forall n | VolumeNamed(t.volumes, n).Some? :: VolumeNamed(r.volumes, n) == VolumeNamed(t.volumes, n))
  }

  /** Server-side apply with forced ownership: what is applied is in the object afterwards. Objects with
      repeated names never get here, the API server rejects them. */
  ghost predicate AppliesFields(apply: (Deployment, Deployment) -> Deployment) {
    forall e: Deployment, d: Deployment :: KeepsPod(d.template, apply(e, d).template)
  }

  ghost predicate FaithfulPlatform(platform: Platform) {
    Overrides(platform.merge) && AppliesFields(platform.applyDeployment)
  }

  lemma {:induction false} EnvValueConcat(a: seq<EnvVar>, b: seq<EnvVar>, n: string)
    ensures EnvValue(a + b, n) == OrElse(EnvValue(b, n), EnvValue(a, n))
  {
    if b == [] {
      assert a + b == a;
    } else {
      assert (a + b)[..|a + b| - 1] == a + b[..|b| - 1];
      EnvValueConcat(a, b[..|b| - 1], n);
    }
  }

  lemma {:induction false} MountedAtConcat(a: seq<VolumeMount>, b: seq<VolumeMount>, p: string)
    ensures MountedAt(a + b, p) == OrElse(MountedAt(b, p), MountedAt(a, p))
  {
    if b == [] {
      assert a + b == a;
    } else {
      assert (a + b)[..|a + b| - 1] == a + b[..|b| - 1];
      MountedAtConcat(a, b[..|b| - 1], p);
    }
  }

  function Appended(base: Container, patch: Container): Result<Container> {
    Ok(base.(env := base.env + patch.env, mounts := base.mounts + patch.mounts))
  }

  function Appender(): Merger {
    (base, patch) => Appended(base, patch)
  }

  /** Server-side apply of an object that nobody else sets anything in. */
  function Replacer<T>(): (T, T) -> T {
    (e, d) => d
  }

  lemma AppendedIsOverridden(base: Container, patch: Container)
    ensures IsOverridden(base, patch, Appended(base, patch).value)
  {
    var r := Appended(base, patch).value;
    forall n ensures EnvValue(r.env, n) == OrElse(EnvValue(patch.env, n), EnvValue(base.env, n)) {
      EnvValueConcat(base.env, patch.env, n);
    }
    forall p ensures MountedAt(r.mounts, p) == OrElse(MountedAt(patch.mounts, p), MountedAt(base.mounts, p)) {
      MountedAtConcat(base.mounts, patch.mounts, p);
    }
  }

  lemma AppenderOverrides()
    ensures Overrides(Appender())
  {
    forall base, patch ensures IsOverridden(base, patch, Appender()(base, patch).value) {
      AppendedIsOverridden(base, patch);
    }
  }

  lemma ReplacerApplies()
    ensures AppliesFields(Replacer()) && ApplyLaws(Replacer(), ServiceOwners()) &&
        ApplyLaws(Replacer(), DeploymentOwners())
  {}

  /** The laws can be met, all of them at once. */
  lemma LawsAreConsistent(marshalUrls: seq<ApiUrl> -> string)
    ensures var platform := Platform(Appender(), Replacer(), Replacer(), marshalUrls, "");
            LawfulPlatform(platform) && FaithfulPlatform(platform)
  {
    AppenderOverrides();
    ReplacerApplies();
  }

  // ---- The deployed pod -----------------------------------------------------------------------

  /** The merged `swagger-ui` container: the controller's one, with what the user sets laid over it. */
  lemma MergedUi(platform: Platform, h: Key, hub: Hub, urls: seq<ApiUrl>, mounts: seq<MountRef>)
    requires Overrides(platform.merge) && DesiredDeployment(platform, h, hub, urls, mounts).Ok?
    ensures var pod := DesiredDeployment(platform, h, hub, urls, mounts).value.template;
            && UI in Names(pod.containers)
            && (urls != [] ==> UrlsOf(pod) == OrElse(UserUrls(hub), Some(platform.marshalUrls(urls))))
            && (mounts != [] ==> VolumeOf(pod) == OrElse(UserVolume(hub), Some(VOLUME)))
            && forall path | path != MOUNT_PATH ::
                 MountedAt(LastNamed(pod.containers, UI).mounts, path) == UserMount(hub, path)
  {
    var base := BaseContainer(platform, urls, mounts);
    var patches := UserContainers(hub);
    var pod := DesiredDeployment(platform, h, hub, urls, mounts).value.template;
    MergeExactly([base], patches, platform.merge);
    OneUiContainer(platform, h, hub, urls, mounts);
    OnlyFirstNamed(pod.containers, UI);
    var merged := Patched([base], patches, 0, platform.merge);
    assert merged == Ok(pod.containers[0]);
    assert [base][..0] == [];
    BaseReads(platform, urls, mounts);
  }

  lemma BaseReads(platform: Platform, urls: seq<ApiUrl>, mounts: seq<MountRef>)
    ensures var base := BaseContainer(platform, urls, mounts);
            && (urls != [] ==> EnvValue(base.env, API_URLS) == Some(platform.marshalUrls(urls)))
            && (mounts != [] ==> MountedAt(base.mounts, MOUNT_PATH) == Some(VOLUME))
            && forall path | path != MOUNT_PATH :: MountedAt(base.mounts, path) == None
  {}

  /** In a deployment that is created, exactly the files that the user mounts something over are covered. */
  lemma CoveredByUser(platform: Platform, h: Key, hub: Hub, urls: seq<ApiUrl>, mounts: seq<MountRef>, file: string)
    requires Overrides(platform.merge) && DesiredDeployment(platform, h, hub, urls, mounts).Ok?
    ensures IsCovered(DesiredDeployment(platform, h, hub, urls, mounts).value.template, file) <==>
            exists path :: UserMount(hub, path).Some? && Covers(path, file)
  {
    MergedUi(platform, h, hub, urls, mounts);
    assert !HasPrefix(MOUNT_PATH, MOUNT_PATH + "/");
  }

  lemma {:induction false} OnlyFirstNamed(cs: seq<Container>, name: string)
    requires cs != [] && cs[0].name == name && forall i | 0 < i < |cs| :: cs[i].name != name
    ensures name in Names(cs) && LastNamed(cs, name) == cs[0]
  {
    assert cs[0] in cs;
    if |cs| > 1 {
      OnlyFirstNamed(cs[..|cs| - 1], name);
    }
  }

  lemma LastVolume(volumes: seq<Volume>, v: Volume)
    ensures VolumeNamed(volumes + [v], v.name) == Some(v)
  {}

  /** The entries of `API_URLS` lead to the hub's own address, or to the local one when it has none. */
  predicate AreHubUrls(hub: Hub, urls: seq<ApiUrl>, refs: seq<MountRef>) {
    && (hub.frontendURL != "" ==> AreApiUrls(urls, refs, hub.frontendURL))
    && (hub.frontendURL == "" ==> AreApiUrls(urls, refs, "http://localhost"))
  }

  /** The deployment of a hub that did not fail, created or updated, under any user template: it has the
      URLs of the published references, one each and in their order, unless the user sets others, and mounts their
      ConfigMaps, in their order, unless the user mounts another volume there. */
  lemma DeployedPod(platform: Platform, w: Snapshot, h: Key, inputs: Inputs) returns (urls: seq<ApiUrl>)
    requires FaithfulPlatform(platform)
    requires h in w.hubs && !Reconciled(platform, w, h, inputs).outcome.Failed? && PublishedRefs(w, h, inputs) != []
    ensures AreHubUrls(w.hubs[h], urls, PublishedRefs(w, h, inputs))
    ensures var after := Reconciled(platform, w, h, inputs).world.deployments;
            && ObjectKeyOf(h) in after
            && UrlsOf(after[ObjectKeyOf(h)].template) ==
               OrElse(UserUrls(w.hubs[h]), Some(platform.marshalUrls(urls)))
            && VolumeOf(after[ObjectKeyOf(h)].template) == OrElse(UserVolume(w.hubs[h]), Some(VOLUME))
            && VolumeNamed(after[ObjectKeyOf(h)].template.volumes, VOLUME) ==
               Some(Projected(VOLUME, Projections(Mounts(PublishedRefs(w, h, inputs), h.namespace))))
  {
    DeployedFrom(platform, w, h, inputs);
    var visible := PublishedRefs(w, h, inputs);
    var mounts := Mounts(visible, h.namespace);
    urls := Urls(visible, FrontendURL(w.hubs[h]));
    UrlsAre(visible, FrontendURL(w.hubs[h]));
    DesiredPod(platform, h, w.hubs[h], urls, mounts);
    var desired := DesiredDeployment(platform, h, w.hubs[h], urls, mounts).value;
    if ObjectKeyOf(h) in w.deployments {
      AppliedPod(desired.template, platform.applyDeployment(w.deployments[ObjectKeyOf(h)], desired).template);
    }
  }

  lemma DesiredPod(platform: Platform, h: Key, hub: Hub, urls: seq<ApiUrl>, mounts: seq<MountRef>)
    requires Overrides(platform.merge) && urls != [] && mounts != []
    requires DesiredDeployment(platform, h, hub, urls, mounts).Ok?
    ensures var pod := DesiredDeployment(platform, h, hub, urls, mounts).value.template;
            && UrlsOf(pod) == OrElse(UserUrls(hub), Some(platform.marshalUrls(urls)))
            && VolumeOf(pod) == OrElse(UserVolume(hub), Some(VOLUME))
            && VolumeNamed(pod.volumes, VOLUME) == Some(Projected(VOLUME, Projections(mounts)))
  {
    MergedUi(platform, h, hub, urls, mounts);
    LastVolume(TemplateOf(hub).template.volumes, Projected(VOLUME, Projections(mounts)));
  }

  lemma AppliedPod(t: PodTemplate, r: PodTemplate)
    requires KeepsPod(t, r)
    ensures UrlsOf(t).Some? ==> UrlsOf(r) == UrlsOf(t)
    ensures VolumeOf(t).Some? ==> VolumeOf(r) == VolumeOf(t)
    ensures VolumeNamed(t.volumes, VOLUME).Some? ==> VolumeNamed(r.volumes, VOLUME) == VolumeNamed(t.volumes, VOLUME)
  {}

  // ---- From the deployed URL to the bytes -----------------------------------------------------

  /** A pod with the URLs of `refs`, in which every entry of the volume with the file of one of them has the
      content of that reference's source; as far as the user does not set other URLs, or mounts another volume there. */
  ghost predicate PodServes(platform: Platform, hub: Hub, pod: PodTemplate, refs: seq<MountRef>, hubNamespace: string,
                            before: map<Key, ConfigMap>, after: map<Key, ConfigMap>) {
    && (UserUrls(hub) == None ==>
          exists urls :: AreHubUrls(hub, urls, refs) && UrlsOf(pod) == Some(platform.marshalUrls(urls)))
    && (UserVolume(hub) in {None, Some(VOLUME)} ==>
          EntriesOf(pod).Some? &&
          ServesSources(before, after, refs, EntriesOf(pod).value, FrontendURL(hub), hubNamespace))
  }

  lemma PodServesEntries(platform: Platform, hub: Hub, pod: PodTemplate, refs: seq<MountRef>, hubNamespace: string,
                         before: map<Key, ConfigMap>, after: map<Key, ConfigMap>, entries: seq<Projection>,
                         urls: seq<ApiUrl>)
    requires AreHubUrls(hub, urls, refs) && UrlsOf(pod) == OrElse(UserUrls(hub), Some(platform.marshalUrls(urls)))
    requires VolumeOf(pod) == OrElse(UserVolume(hub), Some(VOLUME))
    requires VolumeNamed(pod.volumes, VOLUME) == Some(Projected(VOLUME, entries))
    requires ServesSources(before, after, refs, entries, FrontendURL(hub), hubNamespace)
    ensures PodServes(platform, hub, pod, refs, hubNamespace, before, after)
  {}

  /** End to end, over the deployed object, created or updated: unless the user sets other URLs or mounts
      another volume there, `API_URLS` of the deployed container encodes the URLs of the published
      references, one each, and every projected source of the deployed volume with the file of such a URL
      has the content of that URL's source. */
  lemma DeployedServesSources(platform: Platform, w: Snapshot, h: Key, inputs: Inputs)
    requires FaithfulPlatform(platform)
    requires h in w.hubs && !Reconciled(platform, w, h, inputs).outcome.Failed? && PublishedRefs(w, h, inputs) != []
    requires Separated(HubRefs(w, h, inputs), h.namespace)
    ensures var after := Reconciled(platform, w, h, inputs).world;
            && ObjectKeyOf(h) in after.deployments
            && PodServes(platform, w.hubs[h], after.deployments[ObjectKeyOf(h)].template, PublishedRefs(w, h, inputs),
                         h.namespace, w.configMaps, after.configMaps)
  {
    var urls := DeployedPod(platform, w, h, inputs);
    DeployedFrom(platform, w, h, inputs);
    var visible := PublishedRefs(w, h, inputs);
    RefsServe(w.configMaps, HubRefs(w, h, inputs), h.namespace, FrontendURL(w.hubs[h]));
    var after := Reconciled(platform, w, h, inputs).world;
    PodServesEntries(platform, w.hubs[h], after.deployments[ObjectKeyOf(h)].template, visible, h.namespace,
                     w.configMaps, after.configMaps, Projections(Mounts(visible, h.namespace)), urls);
  }
}
