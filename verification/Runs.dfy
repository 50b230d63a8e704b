/** Runs: any interleaving of the three reconcilers, of their users and of other programs. */
module Runs {
  import opened Wrappers
  import opened Objects
  import opened Conditions
  import opened Cluster
  import D = DefinitionController
  import S = SpecificationController
  import H = HubController
  import P = HubProperties

  /** What stays the same over a run. */
  datatype Setting = Setting(platform: H.Platform, libs: S.Libraries)

  datatype Kind = DefinitionKind | SpecificationKind | HubKind

  datatype Resource = Resource(kind: Kind, k: Key)

  /** What users and other programs do to the cluster. */
  datatype Change =
    | SetNamespaces(namespaces: map<string, Labels>)
    | PutDefinition(k: Key, definition: Definition)
    | PutSpecification(k: Key, specification: Specification)
    | PutHub(k: Key, hub: Hub)
    | Delete(resource: Resource)
    | SetConfigMap(k: Key, configMap: Option<ConfigMap>)
    | SetService(k: Key, service: Option<Service>)
    | SetDeployment(k: Key, deployment: Option<Deployment>)

  datatype Step =
    | DefinitionReconciled(d: Key, definitionInputs: D.Inputs)
    | SpecificationReconciled(s: Key, specificationInputs: S.Inputs)
    | HubReconciled(h: Key, hubInputs: H.Inputs)
    | Changed(change: Change)

  /** A new resource has generation 1 and no status. An update leaves uid and status to the server, and
      counts the generation up when it changes more than labels. */
  function UpdatedDefinition(previous: Option<Definition>, wanted: Definition): Definition {
    match previous
    case None => wanted.(generation := 1, status := Status([], 0, []))
    case Some(d) =>
      var same := wanted.(labels := d.labels, uid := d.uid, generation := d.generation, status := d.status) == d;
      wanted.(uid := d.uid, status := d.status, generation := if same then d.generation else d.generation + 1)
  }

  function UpdatedSpecification(previous: Option<Specification>, wanted: Specification): Specification {
    match previous
    case None => wanted.(generation := 1, status := Status([], 0, []))
    case Some(s) =>
      var same := wanted.(labels := s.labels, uid := s.uid, generation := s.generation, status := s.status) == s;
      wanted.(uid := s.uid, status := s.status, generation := if same then s.generation else s.generation + 1)
  }

  function UpdatedHub(previous: Option<Hub>, wanted: Hub): Hub {
    match previous
    case None => wanted.(generation := 1, status := Status([], 0, []))
    case Some(h) =>
      var same := wanted.(uid := h.uid, generation := h.generation, status := h.status) == h;
      wanted.(uid := h.uid, status := h.status, generation := if same then h.generation else h.generation + 1)
  }

  function Lookup<V>(m: map<Key, V>, k: Key): Option<V> {
    if k in m then Some(m[k]) else None
  }

  function Set<V>(m: map<Key, V>, k: Key, v: Option<V>): map<Key, V> {
    if v.Some? then m[k := v.value] else m - {k}
  }

  function ApplyToDefinitions(m: map<Key, Definition>, change: Change): map<Key, Definition> {
    match change
    case PutDefinition(k, d) => m[k := UpdatedDefinition(Lookup(m, k), d)]
    case Delete(Resource(DefinitionKind, k)) => m - {k}
    case _ => m
  }

  function ApplyToSpecifications(m: map<Key, Specification>, change: Change): map<Key, Specification> {
    match change
    case PutSpecification(k, s) => m[k := UpdatedSpecification(Lookup(m, k), s)]
    case Delete(Resource(SpecificationKind, k)) => m - {k}
    case _ => m
  }

  function ApplyToHubs(m: map<Key, Hub>, change: Change): map<Key, Hub> {
    match change
    case PutHub(k, h) => m[k := UpdatedHub(Lookup(m, k), h)]
    case Delete(Resource(HubKind, k)) => m - {k}
    case _ => m
  }

  function Apply(w: Snapshot, change: Change): Snapshot {
    Snapshot(
      if change.SetNamespaces? then change.namespaces else w.namespaces,
      ApplyToDefinitions(w.definitions, change),
      ApplyToSpecifications(w.specifications, change),
      ApplyToHubs(w.hubs, change),
      if change.SetConfigMap? then Set(w.configMaps, change.k, change.configMap) else w.configMaps,
      if change.SetService? then Set(w.services, change.k, change.service) else w.services,
      if change.SetDeployment? then Set(w.deployments, change.k, change.deployment) else w.deployments)
  }

  ghost function Next(setting: Setting, w: Snapshot, step: Step): Snapshot {
    match step
    case DefinitionReconciled(d, inputs) => D.DefinitionStep(w, d, inputs)
    case SpecificationReconciled(s, inputs) => S.SpecificationStep(setting.libs, w, s, inputs)
    case HubReconciled(h, inputs) => H.HubStep(setting.platform, w, h, inputs)
    case Changed(change) => Apply(w, change)
  }

  type Semantics = (Snapshot, Step) -> Snapshot

  ghost function System(setting: Setting): Semantics {
    (w, step) => Next(setting, w, step)
  }

  ghost function After(next: Semantics, w: Snapshot, run: seq<Step>): Snapshot {
    if run == [] then w
    else next(After(next, w, run[..|run| - 1]), run[|run| - 1])
  }

  // ---- Status ---------------------------------------------------------------------------------

  /** What a run does to a resource, apart from its specification. */
  datatype Tracked = Tracked(uid: string, generation: int, observed: int, conditions: seq<Condition>)

  function Track<T>(uid: string, generation: int, status: Status<T>): Tracked {
    Tracked(uid, generation, status.observedGeneration, status.conditions)
  }

  function Definitions(m: map<Key, Definition>): map<Key, Tracked> {
    map k | k in m :: Track(m[k].uid, m[k].generation, m[k].status)
  }

  function Specifications(m: map<Key, Specification>): map<Key, Tracked> {
    map k | k in m :: Track(m[k].uid, m[k].generation, m[k].status)
  }

  function Hubs(m: map<Key, Hub>): map<Key, Tracked> {
    map k | k in m :: Track(m[k].uid, m[k].generation, m[k].status)
  }

  function TrackedOf(w: Snapshot, kind: Kind): map<Key, Tracked> {
    match kind
    case DefinitionKind => Definitions(w.definitions)
    case SpecificationKind => Specifications(w.specifications)
    case HubKind => Hubs(w.hubs)
  }

  /** A sound status: condition types are unique, `Ready` was written for the observed generation, that is
      not ahead of the resource's own, and a ready hub is neither reconciling nor unhealthy. */
  predicate SoundStatus(kind: Kind, t: Tracked) {
    && StatusSound<()>(Status(t.conditions, t.observed, []), t.generation)
    && (kind.HubKind? ==> ReadyMeansSettled(t.conditions))
  }

  ghost predicate Sound(w: Snapshot) {
    forall kind, k | k in TrackedOf(w, kind) :: SoundStatus(kind, TrackedOf(w, kind)[k])
  }

  /** A persisted reconcile: the status is for the current generation. */
  predicate IsPersisted(kind: Kind, a: Tracked, b: Tracked) {
    && b == a.(observed := a.generation, conditions := b.conditions)
    && (UniqueKinds(a.conditions) ==>
          && UniqueKinds(b.conditions)
          && Find(b.conditions, READY).Some? && Find(b.conditions, READY).value.observedGeneration == b.generation
          && (kind.HubKind? ==> ReadyMeansSettled(b.conditions)))
  }

  predicate IsUpdated(a: Tracked, b: Tracked) {
    b == a.(generation := b.generation) && a.generation <= b.generation
  }

  predicate IsNew(t: Tracked) {
    t.generation == 1 && t.observed == 0 && t.conditions == []
  }

  /** One step of the resources of one kind. */
  ghost predicate Evolves(kind: Kind, a: map<Key, Tracked>, b: map<Key, Tracked>, step: Step) {
    && (forall k | k in b :: if k in a then IsPersisted(kind, a[k], b[k]) || IsUpdated(a[k], b[k]) else IsNew(b[k]))
    && (forall k | k in a :: k in b || step == Changed(Delete(Resource(kind, k))))
  }

  lemma Unchanged(kind: Kind, a: map<Key, Tracked>, step: Step)
    ensures Evolves(kind, a, a, step)
  {}

  lemma DefinitionPersisted(m: map<Key, Definition>, d: Key, outcome: Result<string>, step: Step)
    requires d in m
    ensures Evolves(DefinitionKind, Definitions(m),
                    Definitions(m[d := m[d].(status := D.DefinitionStatus(m[d], outcome))]), step)
  {
    if UniqueKinds(m[d].status.conditions) {
      PlainKeeps(m[d].status.conditions, m[d].generation, outcome);
    }
  }

  lemma SpecificationPersisted(m: map<Key, Specification>, s: Key, outcome: Result<string>,
                               catalog: seq<ResourceLookupReference>, step: Step)
    requires s in m
    ensures Evolves(SpecificationKind, Specifications(m),
                    Specifications(m[s := m[s].(status := S.SpecificationStatus(m[s], outcome, catalog))]), step)
  {
    if UniqueKinds(m[s].status.conditions) {
      PlainKeeps(m[s].status.conditions, m[s].generation, outcome);
    }
  }

  lemma HubPersisted(m: map<Key, Hub>, h: Key, outcome: HubOutcome, catalog: seq<ResourceReference>, step: Step)
    requires h in m
    ensures Evolves(HubKind, Hubs(m), Hubs(m[h := m[h].(status := H.HubStatus(m[h], outcome, catalog))]), step)
  {
    if UniqueKinds(m[h].status.conditions) {
      HubKeeps(m[h].status.conditions, m[h].wait, m[h].generation, outcome);
    }
  }

  lemma DefinitionsEvolve(w: Snapshot, after: Snapshot, d: Key, kind: Kind, step: Step)
    requires D.Writes(w, after, d)
    ensures Evolves(kind, TrackedOf(w, kind), TrackedOf(after, kind), step)
  {
    if kind == DefinitionKind && after.definitions != w.definitions {
      var outcome :| after.definitions == w.definitions[d :=
        w.definitions[d].(status := D.DefinitionStatus(w.definitions[d], outcome))];
      DefinitionPersisted(w.definitions, d, outcome, step);
    } else {
      Unchanged(kind, TrackedOf(w, kind), step);
    }
  }

  lemma SpecificationsEvolve(w: Snapshot, after: Snapshot, s: Key, kind: Kind, step: Step)
    requires S.Writes(w, after, s)
    ensures Evolves(kind, TrackedOf(w, kind), TrackedOf(after, kind), step)
  {
    if kind == SpecificationKind && after.specifications != w.specifications {
      var outcome, catalog :| after.specifications == w.specifications[s :=
        w.specifications[s].(status := S.SpecificationStatus(w.specifications[s], outcome, catalog))];
      SpecificationPersisted(w.specifications, s, outcome, catalog, step);
    } else {
      Unchanged(kind, TrackedOf(w, kind), step);
    }
  }

  lemma HubsEvolve(w: Snapshot, after: Snapshot, h: Key, kind: Kind, step: Step)
    requires P.Writes(w, after, h)
    ensures Evolves(kind, TrackedOf(w, kind), TrackedOf(after, kind), step)
  {
    if kind == HubKind && after.hubs != w.hubs {
      var outcome, catalog :| after.hubs == w.hubs[h :=
        w.hubs[h].(status := H.HubStatus(w.hubs[h], outcome, catalog))];
      HubPersisted(w.hubs, h, outcome, catalog, step);
    } else {
      Unchanged(kind, TrackedOf(w, kind), step);
    }
  }

  lemma ChangedDefinitions(m: map<Key, Definition>, change: Change)
    ensures Evolves(DefinitionKind, Definitions(m), Definitions(ApplyToDefinitions(m, change)), Changed(change))
  {}

  lemma ChangedSpecifications(m: map<Key, Specification>, change: Change)
    ensures Evolves(SpecificationKind, Specifications(m), Specifications(ApplyToSpecifications(m, change)),
                    Changed(change))
  {}

  lemma ChangedHubs(m: map<Key, Hub>, change: Change)
    ensures Evolves(HubKind, Hubs(m), Hubs(ApplyToHubs(m, change)), Changed(change))
  {}

  lemma ChangesEvolve(w: Snapshot, change: Change, kind: Kind)
    ensures Evolves(kind, TrackedOf(w, kind), TrackedOf(Apply(w, change), kind), Changed(change))
  {
    match kind
    case DefinitionKind => ChangedDefinitions(w.definitions, change);
    case SpecificationKind => ChangedSpecifications(w.specifications, change);
    case HubKind => ChangedHubs(w.hubs, change);
  }

  lemma StepEvolves(setting: Setting, w: Snapshot, step: Step, kind: Kind)
    ensures Evolves(kind, TrackedOf(w, kind), TrackedOf(System(setting)(w, step), kind), step)
  {
    var after := System(setting)(w, step);
    match step
    case DefinitionReconciled(d, inputs) =>
      D.StepWrites(w, d, inputs);
      DefinitionsEvolve(w, after, d, kind, step);
    case SpecificationReconciled(s, inputs) =>
      S.StepWrites(setting.libs, w, s, inputs);
      SpecificationsEvolve(w, after, s, kind, step);
    case HubReconciled(h, inputs) =>
      P.StepWrites(setting.platform, w, h, inputs);
      HubsEvolve(w, after, h, kind, step);
    case Changed(change) => ChangesEvolve(w, change, kind);
  }

  ghost predicate Evolving(next: Semantics) {
    forall w, step, kind :: Evolves(kind, TrackedOf(w, kind), TrackedOf(next(w, step), kind), step)
  }

  lemma SystemEvolves(setting: Setting)
    ensures Evolving(System(setting))
  {
    forall w, step, kind ensures Evolves(kind, TrackedOf(w, kind), TrackedOf(System(setting)(w, step), kind), step) {
      StepEvolves(setting, w, step, kind);
    }
  }

  lemma EvolvesSound(kind: Kind, a: map<Key, Tracked>, b: map<Key, Tracked>, step: Step)
    requires Evolves(kind, a, b, step)
    requires forall k | k in a :: SoundStatus(kind, a[k])
    ensures forall k | k in b :: SoundStatus(kind, b[k])
  {}

  lemma {:induction false} SoundAfter(next: Semantics, w: Snapshot, run: seq<Step>)
    requires Sound(w) && Evolving(next)
    ensures Sound(After(next, w, run))
  {
    if run != [] {
      var n := |run| - 1;
      SoundAfter(next, w, run[..n]);
      var before := After(next, w, run[..n]);
      var after := next(before, run[n]);
      forall kind ensures forall k | k in TrackedOf(after, kind) :: SoundStatus(kind, TrackedOf(after, kind)[k]) {
        EvolvesSound(kind, TrackedOf(before, kind), TrackedOf(after, kind), run[n]);
      }
    }
  }

  lemma {:induction false} ForwardAfter(next: Semantics, w: Snapshot, run: seq<Step>, r: Resource)
    requires Sound(w) && Evolving(next) && r.k in TrackedOf(w, r.kind) && Changed(Delete(r)) !in run
    ensures r.k in TrackedOf(After(next, w, run), r.kind)
    ensures var a, b := TrackedOf(w, r.kind)[r.k], TrackedOf(After(next, w, run), r.kind)[r.k];
            a.uid == b.uid && a.generation <= b.generation && a.observed <= b.observed
  {
    if run != [] {
      var n := |run| - 1;
      var before := After(next, w, run[..n]);
      ForwardAfter(next, w, run[..n], r);
      SoundAfter(next, w, run[..n]);
      assert run[n] in run;
      assert Evolves(r.kind, TrackedOf(before, r.kind), TrackedOf(next(before, run[n]), r.kind), run[n]);
      assert SoundStatus(r.kind, TrackedOf(before, r.kind)[r.k]);
    }
  }

  /** Over every run, whatever fails and whatever users do, every persisted status is sound. */
  lemma RunsKeepStatusSound(setting: Setting, w: Snapshot, run: seq<Step>)
    requires Sound(w)
    ensures Sound(After(System(setting), w, run))
  {
    SystemEvolves(setting);
    SoundAfter(System(setting), w, run);
  }

  /** As long as a resource is not deleted it stays the same one, and neither its generation nor the
      observed one goes back. */
  lemma GenerationsGoForward(setting: Setting, w: Snapshot, run: seq<Step>, r: Resource)
    requires Sound(w) && r.k in TrackedOf(w, r.kind) && Changed(Delete(r)) !in run
    ensures r.k in TrackedOf(After(System(setting), w, run), r.kind)
    ensures var a, b := TrackedOf(w, r.kind)[r.k], TrackedOf(After(System(setting), w, run), r.kind)[r.k];
            a.uid == b.uid && a.generation <= b.generation && a.observed <= b.observed
  {
    SystemEvolves(setting);
    ForwardAfter(System(setting), w, run, r);
  }
}
