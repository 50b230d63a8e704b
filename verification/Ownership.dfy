/** Services and deployments are changed by their owners only, over whole runs. */
module Ownership {
  import opened Objects
  import opened Cluster
  import opened Runs
  import D = DefinitionController
  import S = SpecificationController
  import H = HubController
  import P = HubProperties

  /** A reconcile of a hub that the object names as its owner, by name, uid and kind, and that the object
      is made for. */
  predicate ByOwner(w: Snapshot, step: Step, k: Key, owners: seq<OwnerReference>) {
    && step.HubReconciled? && step.h in w.hubs
    && k == H.ObjectKeyOf(step.h) && H.IsOwner(H.OwnerOf(step.h, w.hubs[step.h]), owners)
  }

  predicate SetsService(step: Step, k: Key) {
    step.Changed? && step.change.SetService? && step.change.k == k
  }

  predicate SetsDeployment(step: Step, k: Key) {
    step.Changed? && step.change.SetDeployment? && step.change.k == k
  }

  /** One step changes an object only by its owner, or directly by somebody else. */
  predicate Spares(w: Snapshot, after: Snapshot, step: Step, k: Key) {
    && (k in w.services && !SetsService(step, k) && !ByOwner(w, step, k, w.services[k].owners) ==>
          k in after.services && after.services[k] == w.services[k])
    && (k in w.deployments && !SetsDeployment(step, k) && !ByOwner(w, step, k, w.deployments[k].owners) ==>
          k in after.deployments && after.deployments[k] == w.deployments[k])
  }

  lemma SameObjectsSpare(w: Snapshot, after: Snapshot, step: Step, k: Key)
    requires after.services == w.services && after.deployments == w.deployments
    ensures Spares(w, after, step, k)
  {}

  lemma HubStepSpares(platform: H.Platform, w: Snapshot, h: Key, inputs: H.Inputs, k: Key)
    ensures Spares(w, H.HubStep(platform, w, h, inputs), HubReconciled(h, inputs), k)
  {
    if h in w.hubs {
      P.OnlyOwnedObjects(platform, w, h, inputs);
    }
  }

  lemma ChangeSpares(w: Snapshot, change: Change, k: Key)
    ensures Spares(w, Apply(w, change), Changed(change), k)
  {}

  lemma StepSpares(setting: Setting, w: Snapshot, step: Step, k: Key)
    ensures Spares(w, System(setting)(w, step), step, k)
  {
    var after := System(setting)(w, step);
    match step
    case DefinitionReconciled(d, inputs) =>
      D.StepWrites(w, d, inputs);
      SameObjectsSpare(w, after, step, k);
    case SpecificationReconciled(s, inputs) =>
      S.StepWrites(setting.libs, w, s, inputs);
      SameObjectsSpare(w, after, step, k);
    case HubReconciled(h, inputs) => HubStepSpares(setting.platform, w, h, inputs, k);
    case Changed(change) => ChangeSpares(w, change, k);
  }

  ghost predicate Sparing(next: Semantics) {
    forall w, step, k :: Spares(w, next(w, step), step, k)
  }

  lemma SystemSpares(setting: Setting)
    ensures Sparing(System(setting))
  {
    forall w, step, k ensures Spares(w, System(setting)(w, step), step, k) {
      StepSpares(setting, w, step, k);
    }
  }

  /** No step of the run is by an owner among `owners`. */
  ghost predicate NeverByOwner(next: Semantics, w: Snapshot, run: seq<Step>, k: Key, owners: seq<OwnerReference>) {
    forall i | 0 <= i < |run| :: !ByOwner(After(next, w, run[..i]), run[i], k, owners)
  }

  lemma NeverBefore(next: Semantics, w: Snapshot, run: seq<Step>, k: Key, owners: seq<OwnerReference>)
    requires run != [] && NeverByOwner(next, w, run, k, owners)
    ensures NeverByOwner(next, w, run[..|run| - 1], k, owners)
    ensures !ByOwner(After(next, w, run[..|run| - 1]), run[|run| - 1], k, owners)
  {
    var n := |run| - 1;
    forall i | 0 <= i < n ensures !ByOwner(After(next, w, run[..n][..i]), run[..n][i], k, owners) {
      assert run[..n][..i] == run[..i];
      assert !ByOwner(After(next, w, run[..i]), run[i], k, owners);
    }
  }

  lemma {:induction false} ServiceSpared(next: Semantics, w: Snapshot, run: seq<Step>, k: Key)
    requires Sparing(next) && k in w.services && NeverByOwner(next, w, run, k, w.services[k].owners)
    requires forall step | step in run :: !SetsService(step, k)
    ensures var after := After(next, w, run); k in after.services && after.services[k] == w.services[k]
  {
    if run != [] {
      var n := |run| - 1;
      NeverBefore(next, w, run, k, w.services[k].owners);
      ServiceSpared(next, w, run[..n], k);
      assert run[n] in run;
      assert Spares(After(next, w, run[..n]), next(After(next, w, run[..n]), run[n]), run[n], k);
    }
  }

  lemma {:induction false} DeploymentSpared(next: Semantics, w: Snapshot, run: seq<Step>, k: Key)
    requires Sparing(next) && k in w.deployments && NeverByOwner(next, w, run, k, w.deployments[k].owners)
    requires forall step | step in run :: !SetsDeployment(step, k)
    ensures var after := After(next, w, run); k in after.deployments && after.deployments[k] == w.deployments[k]
  {
    if run != [] {
      var n := |run| - 1;
      NeverBefore(next, w, run, k, w.deployments[k].owners);
      DeploymentSpared(next, w, run[..n], k);
      assert run[n] in run;
      assert Spares(After(next, w, run[..n]), next(After(next, w, run[..n]), run[n]), run[n], k);
    }
  }

  /** Whatever runs, a service or deployment changes only when somebody sets it directly, or when the hub
      that its own owner references name, by name, uid and kind, is reconciled. */
  lemma ObjectsBelongToOwners(setting: Setting, w: Snapshot, run: seq<Step>, k: Key)
    ensures var after := After(System(setting), w, run);
            && (k in w.services && NeverByOwner(System(setting), w, run, k, w.services[k].owners) &&
                (forall step | step in run :: !SetsService(step, k)) ==>
                  k in after.services && after.services[k] == w.services[k])
            && (k in w.deployments && NeverByOwner(System(setting), w, run, k, w.deployments[k].owners) &&
                (forall step | step in run :: !SetsDeployment(step, k)) ==>
                  k in after.deployments && after.deployments[k] == w.deployments[k])
  {
    var next := System(setting);
    SystemSpares(setting);
    if k in w.services && NeverByOwner(next, w, run, k, w.services[k].owners) &&
       forall step | step in run :: !SetsService(step, k) {
      ServiceSpared(next, w, run, k);
    }
    if k in w.deployments && NeverByOwner(next, w, run, k, w.deployments[k].owners) &&
       forall step | step in run :: !SetsDeployment(step, k) {
      DeploymentSpared(next, w, run, k);
    }
  }
}
