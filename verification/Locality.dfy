/** A step that changes nothing still changes nothing in a cluster that differs only elsewhere. */
module Locality {
  import opened Wrappers
  import opened Objects
  import opened Selectors
  import opened Cluster
  import opened Publishing
  import D = DefinitionController
  import S = SpecificationController
  import H = HubController
  import P = HubProperties

  predicate SameAt<T(==)>(a: map<Key, T>, b: map<Key, T>, k: Key) {
    (k in a <==> k in b) && (k in a ==> a[k] == b[k])
  }

  // ---- Definitions ----------------------------------------------------------------------------

  /** What keeps a definition's step from changing anything. */
  lemma DefinitionStaysFixed(w: Snapshot, after: Snapshot, d: Key, inputs: D.Inputs)
    requires D.DefinitionStep(w, d, inputs) == w
    requires SameAt(w.definitions, after.definitions, d) && SameAt(w.configMaps, after.configMaps, DefinitionStore(d))
    ensures D.DefinitionStep(after, d, inputs) == after
  {
    if d in w.definitions && inputs.read && !w.definitions[d].suspend {
      var definition := w.definitions[d];
      var outcome := D.Outcome(d, definition, inputs);
      var status := D.DefinitionStatus(definition, outcome);
      DefinitionFixedParts(w, d, inputs);
      assert outcome.Ok? ==>
               D.Storing(after.configMaps, d, definition.uid, inputs.fetched.value) == after.configMaps;
      assert inputs.statusPatched ==> after.definitions[d := definition.(status := status)] == after.definitions;
    }
  }

  lemma DefinitionFixedParts(w: Snapshot, d: Key, inputs: D.Inputs)
    requires D.DefinitionStep(w, d, inputs) == w
    requires d in w.definitions && inputs.read && !w.definitions[d].suspend
    ensures var definition := w.definitions[d];
            var outcome := D.Outcome(d, definition, inputs);
            && (outcome.Ok? ==>
                  DefinitionStore(d) in w.configMaps && w.configMaps[DefinitionStore(d)] ==
                  Stored(d, definition.uid, DEFINITION_KIND, inputs.fetched.value))
            && (inputs.statusPatched ==> definition.status == D.DefinitionStatus(definition, outcome))
  {
    var after := D.DefinitionStep(w, d, inputs);
    assert after.configMaps == w.configMaps && after.definitions == w.definitions;
  }

  // ---- Specifications -------------------------------------------------------------------------

  lemma FetchedTheSame(libs: S.Libraries, a: map<Key, ConfigMap>, b: map<Key, ConfigMap>, unreadable: set<Key>,
                       definitions: seq<Key>)
    requires forall d | d in definitions :: SameAt(a, b, DefinitionStore(d))
    ensures S.FetchAll(libs, a, unreadable, definitions) == S.FetchAll(libs, b, unreadable, definitions)
  {
    forall i | 0 <= i < |definitions|
      ensures S.FetchOne(libs, a, unreadable, definitions[i]) == S.FetchOne(libs, b, unreadable, definitions[i])
    {
      FetchedOneTheSame(libs, a, b, unreadable, definitions[i]);
    }
  }

  lemma FetchedOneTheSame(libs: S.Libraries, a: map<Key, ConfigMap>, b: map<Key, ConfigMap>, unreadable: set<Key>,
                          d: Key)
    requires SameAt(a, b, DefinitionStore(d))
    ensures S.FetchOne(libs, a, unreadable, d) == S.FetchOne(libs, b, unreadable, d)
  {
    assert S.Get(a, unreadable, DefinitionStore(d)) == S.Get(b, unreadable, DefinitionStore(d));
  }

  /** The cluster after is the same as far as the unification of a specification reads it. */
  ghost predicate SameForSpecification(w: Snapshot, after: Snapshot, s: Key) {
    && after.namespaces == w.namespaces && after.definitions == w.definitions
    && SameAt(w.specifications, after.specifications, s)
    && (forall d | d in w.definitions :: SameAt(w.configMaps, after.configMaps, DefinitionStore(d)))
    && SameAt(w.configMaps, after.configMaps, SpecificationStore(s))
  }

  lemma UnifiedTheSame(libs: S.Libraries, w: Snapshot, after: Snapshot, s: Key, inputs: S.Inputs)
    requires SameForSpecification(w, after, s) && s in w.specifications
    ensures S.SelectedBy(after, s, inputs) == S.SelectedBy(w, s, inputs)
    ensures S.SelectedBy(w, s, inputs).Ok? ==>
              var head, ds := w.specifications[s].head, S.SelectedBy(w, s, inputs).value;
              S.Generate(libs, after.configMaps, inputs.unreadable, head, ds, S.Catalog(ds)) ==
              S.Generate(libs, w.configMaps, inputs.unreadable, head, ds, S.Catalog(ds))
  {
    if S.SelectedBy(w, s, inputs).Ok? {
      var ds := S.SelectedBy(w, s, inputs).value;
      assert forall d | d in ds :: d in Elements(ds);
      FetchedTheSame(libs, w.configMaps, after.configMaps, inputs.unreadable, ds);
    }
  }

  lemma SpecificationReconciledTheSame(libs: S.Libraries, w: Snapshot, after: Snapshot, s: Key, inputs: S.Inputs)
    requires SameForSpecification(w, after, s) && s in w.specifications && inputs.read && !w.specifications[s].suspend
    requires S.SpecificationStep(libs, w, s, inputs) == w
    ensures S.Reconciled(libs, after, s, inputs) ==
            match S.Reconciled(libs, w, s, inputs)
            case Aborted => S.Aborted
            case Run(_, catalog, outcome) => S.Run(after.configMaps, catalog, outcome)
  {
    UnifiedTheSame(libs, w, after, s, inputs);
    S.StepStores(libs, w, s, inputs);
    S.ReconciledStores(libs, w, s, inputs);
  }

  lemma SpecificationStaysFixed(libs: S.Libraries, w: Snapshot, after: Snapshot, s: Key, inputs: S.Inputs)
    requires S.SpecificationStep(libs, w, s, inputs) == w && SameForSpecification(w, after, s)
    ensures S.SpecificationStep(libs, after, s, inputs) == after
  {
    if s in w.specifications && inputs.read && !w.specifications[s].suspend {
      SpecificationReconciledTheSame(libs, w, after, s, inputs);
      var run := S.Reconciled(libs, w, s, inputs);
      if !run.Aborted? && inputs.statusPatched {
        var specification := w.specifications[s];
        var status := S.SpecificationStatus(specification, run.outcome, run.catalog);
        assert S.SpecificationStep(libs, w, s, inputs).specifications[s] == specification.(status := status);
        assert after.specifications[s := specification] == after.specifications;
      }
    }
  }

  // ---- The loop over references ---------------------------------------------------------------

  /** What a loop may do to a ConfigMap: nothing, or copy the source of a reference there. */
  lemma LoopEffect(configMaps: map<Key, ConfigMap>, calls: nat, refs: seq<MountRef>, hubNamespace: string,
                   frontendURL: string, k: Key)
    ensures var out := VisitAll(Start(configMaps, calls), refs, hubNamespace, frontendURL).configMaps;
            SameAt(configMaps, out, k) ||
            exists i :: 0 <= i < |refs| && CopiesTo(configMaps, refs[i], hubNamespace, k) &&
              k in out && out[k] == configMaps[SourceOf(refs[i])]
  {
    var m := StoppingPoint(Start(configMaps, calls), refs, hubNamespace, frontendURL);
    VisitAllIs(configMaps, calls, refs, m, hubNamespace, frontendURL);
    var copies := Copies(configMaps, refs[..m], hubNamespace);
    if k in copies {
      var i := CopyWriter(configMaps, refs[..m], hubNamespace, k);
      assert refs[..m][i] == refs[i];
    }
  }

  predicate CopiesTo(configMaps: map<Key, ConfigMap>, ref: MountRef, hubNamespace: string, k: Key) {
    !IsNative(ref, hubNamespace) && SlotOf(ref, hubNamespace) == k && SourceOf(ref) in configMaps
  }

  /** References that are copied to one place have one source. */
  predicate SlotsApart(refs: seq<MountRef>, hubNamespace: string) {
    forall i, j | 0 <= i < |refs| && 0 <= j < |refs| && !IsNative(refs[i], hubNamespace) &&
                  !IsNative(refs[j], hubNamespace) && SlotOf(refs[i], hubNamespace) == SlotOf(refs[j], hubNamespace) ::
      SourceOf(refs[i]) == SourceOf(refs[j])
  }

  /** A loop that changes nothing in the end changes nothing on the way. */
  lemma FixedOnTheWay(configMaps: map<Key, ConfigMap>, calls: nat, refs: seq<MountRef>, n: nat, hubNamespace: string,
                      frontendURL: string)
    requires SlotsApart(refs, hubNamespace) && n <= |refs|
    requires VisitAll(Start(configMaps, calls), refs, hubNamespace, frontendURL).configMaps == configMaps
    ensures VisitAll(Start(configMaps, calls), refs[..n], hubNamespace, frontendURL).configMaps == configMaps
  {
    var m := StoppingPoint(Start(configMaps, calls), refs, hubNamespace, frontendURL);
    VisitAllIs(configMaps, calls, refs, m, hubNamespace, frontendURL);
    if n <= m {
      assert refs[..m][..n] == refs[..n];
      NotFailedBefore(Start(configMaps, calls), refs[..m], n, hubNamespace, frontendURL);
      VisitAllIs(configMaps, calls, refs, n, hubNamespace, frontendURL);
      CopiesWithin(configMaps, refs, n, m, hubNamespace);
    } else {
      assert refs[..n][..m] == refs[..m] && refs[..n][..m + 1] == refs[..m + 1];
      StopsAt(Start(configMaps, calls), refs[..n], m, hubNamespace, frontendURL);
    }
  }

  lemma NotFailedBefore(st: State, refs: seq<MountRef>, n: nat, hubNamespace: string, frontendURL: string)
    requires n <= |refs| && !VisitAll(st, refs, hubNamespace, frontendURL).failed
    ensures !VisitAll(st, refs[..n], hubNamespace, frontendURL).failed
  {
    if VisitAll(st, refs[..n], hubNamespace, frontendURL).failed {
      FailureLasts(st, refs, n, hubNamespace, frontendURL);
    }
  }

  /** With slots apart, the copies of fewer references are among those of more. */
  lemma CopiesWithin(configMaps: map<Key, ConfigMap>, refs: seq<MountRef>, n: nat, m: nat, hubNamespace: string)
    requires SlotsApart(refs, hubNamespace) && n <= m <= |refs|
    requires configMaps + Copies(configMaps, refs[..m], hubNamespace) == configMaps
    ensures configMaps + Copies(configMaps, refs[..n], hubNamespace) == configMaps
  {
    var few, many := Copies(configMaps, refs[..n], hubNamespace), Copies(configMaps, refs[..m], hubNamespace);
    forall k | k in few ensures k in configMaps && configMaps[k] == few[k] {
      var i := CopyWriter(configMaps, refs[..n], hubNamespace, k);
      assert refs[..n][i] == refs[i] == refs[..m][i];
      CopyWritten(configMaps, refs[..m], hubNamespace, i);
      var j := CopyWriter(configMaps, refs[..m], hubNamespace, k);
      assert refs[..m][j] == refs[j];
      assert (configMaps + many)[k] == many[k];
    }
  }

  /** The same source, and at the place of the copy the same as before or already the copy. */
  predicate SameForRef(a: map<Key, ConfigMap>, b: map<Key, ConfigMap>, ref: MountRef, hubNamespace: string) {
    && SameAt(a, b, SourceOf(ref))
    && (IsNative(ref, hubNamespace) || SameAt(a, b, SlotOf(ref, hubNamespace)) ||
        (SourceOf(ref) in a && SlotOf(ref, hubNamespace) in b && b[SlotOf(ref, hubNamespace)] == a[SourceOf(ref)]))
  }

  predicate SameForRefs(a: map<Key, ConfigMap>, b: map<Key, ConfigMap>, refs: seq<MountRef>, hubNamespace: string) {
    forall ref | ref in refs :: SameForRef(a, b, ref, hubNamespace)
  }

  lemma VisitTheSame(st: State, b: map<Key, ConfigMap>, ref: MountRef, refs: seq<MountRef>, hubNamespace: string,
                     frontendURL: string)
    requires ref in refs && SameForRefs(st.configMaps, b, refs, hubNamespace)
    requires Visit(st, ref, hubNamespace, frontendURL).configMaps == st.configMaps
    ensures Visit(st.(configMaps := b), ref, hubNamespace, frontendURL) ==
            Visit(st, ref, hubNamespace, frontendURL).(configMaps := b)
  {
    var k := SlotOf(ref, hubNamespace);
    if !IsNative(ref, hubNamespace) && SourceOf(ref) in st.configMaps && !st.failed && st.calls >= 3 {
      assert st.configMaps[k := st.configMaps[SourceOf(ref)]] == st.configMaps;
      assert b[k := b[SourceOf(ref)]] == b;
    }
  }

  lemma {:induction false} LoopTheSame(a: map<Key, ConfigMap>, b: map<Key, ConfigMap>, calls: nat, refs: seq<MountRef>,
                                       n: nat, hubNamespace: string, frontendURL: string)
    requires n <= |refs| && SlotsApart(refs, hubNamespace) && SameForRefs(a, b, refs, hubNamespace)
    requires VisitAll(Start(a, calls), refs, hubNamespace, frontendURL).configMaps == a
    ensures VisitAll(Start(b, calls), refs[..n], hubNamespace, frontendURL) ==
            VisitAll(Start(a, calls), refs[..n], hubNamespace, frontendURL).(configMaps := b)
  {
    if n > 0 {
      LoopTheSame(a, b, calls, refs, n - 1, hubNamespace, frontendURL);
      FixedOnTheWay(a, calls, refs, n - 1, hubNamespace, frontendURL);
      FixedOnTheWay(a, calls, refs, n, hubNamespace, frontendURL);
      assert refs[..n][..n - 1] == refs[..n - 1] && refs[..n][n - 1] == refs[n - 1];
      VisitTheSame(VisitAll(Start(a, calls), refs[..n - 1], hubNamespace, frontendURL), b, refs[n - 1], refs,
                   hubNamespace, frontendURL);
    }
  }

  // ---- Hubs -----------------------------------------------------------------------------------

  lemma WrittenTheSame<T>(a: map<Key, T>, b: map<Key, T>, k: Key, desired: T, ownersOf: T -> seq<OwnerReference>,
                          apply: (T, T) -> T, owner: OwnerReference, written: bool)
    requires SameAt(a, b, k)
    requires var r := H.CreateOrUpdate(a, k, desired, ownersOf, apply, owner, written); r.Ok? ==> r.value == a
    ensures H.CreateOrUpdate(b, k, desired, ownersOf, apply, owner, written) ==
            match H.CreateOrUpdate(a, k, desired, ownersOf, apply, owner, written)
            case Err(e) => Err(e)
            case Ok(_) => Ok(b)
  {
    if k in a {
      assert b[k := b[k]] == b;
    } else {
      assert k in a[k := desired];
    }
  }

  lemma RolloutTheSame(platform: H.Platform, w: Snapshot, after: Snapshot, h: Key, hub: Hub, inputs: H.Inputs,
                       urls: seq<ApiUrl>, mounts: seq<MountRef>)
    requires SameAt(w.services, after.services, H.ObjectKeyOf(h))
    requires SameAt(w.deployments, after.deployments, H.ObjectKeyOf(h))
    requires var out := H.Rollout(platform, w.services, w.deployments, h, hub, inputs, urls, mounts);
             out.services == w.services && out.deployments == w.deployments
    ensures H.Rollout(platform, after.services, after.deployments, h, hub, inputs, urls, mounts) ==
            H.Rolled(after.services, after.deployments,
                     H.Rollout(platform, w.services, w.deployments, h, hub, inputs, urls, mounts).outcome)
  {
    var k, owner := H.ObjectKeyOf(h), H.OwnerOf(h, hub);
    var desired := H.DesiredDeployment(platform, h, hub, urls, mounts);
    if desired.Ok? {
      WrittenTheSame(w.services, after.services, k, H.DesiredService(h, hub), H.ServiceOwners(), platform.applyService,
                     owner, inputs.serviceWritten);
      if H.CreateOrUpdate(w.services, k, H.DesiredService(h, hub), H.ServiceOwners(), platform.applyService, owner,
                          inputs.serviceWritten).Ok? {
        WrittenTheSame(w.deployments, after.deployments, k, desired.value, H.DeploymentOwners(),
                       platform.applyDeployment, owner, inputs.deploymentWritten);
      }
    }
  }

  /** The cluster after is the same as far as the reconcile of a hub reads it. */
  ghost predicate SameForHub(w: Snapshot, after: Snapshot, h: Key, inputs: H.Inputs)
    requires h in w.hubs
  {
    && after.namespaces == w.namespaces && after.definitions == w.definitions &&
        after.specifications == w.specifications
    && SameAt(w.hubs, after.hubs, h)
    && SameForRefs(w.configMaps, after.configMaps, P.HubRefs(w, h, inputs), h.namespace)
    && SameAt(w.services, after.services, H.ObjectKeyOf(h))
    && SameAt(w.deployments, after.deployments, H.ObjectKeyOf(h))
  }

  lemma FinishTheSame(platform: H.Platform, w: Snapshot, after: Snapshot, h: Key, inputs: H.Inputs,
                      catalog: seq<ResourceReference>, loop: State)
    requires h in w.hubs && h in after.hubs && w.hubs[h] == after.hubs[h]
    requires SameAt(w.services, after.services, H.ObjectKeyOf(h))
    requires SameAt(w.deployments, after.deployments, H.ObjectKeyOf(h))
    requires loop.configMaps == w.configMaps
    requires var out := H.Finish(platform, w, h, inputs, catalog, loop).world;
             out.services == w.services && out.deployments == w.deployments
    ensures H.Finish(platform, after, h, inputs, catalog, loop.(configMaps := after.configMaps)) ==
            H.Finish(platform, w, h, inputs, catalog, loop).(world := after)
  {
    assert after.(configMaps := after.configMaps) == after;
    if !loop.failed {
      RolloutTheSame(platform, w, after, h, w.hubs[h], inputs, loop.urls, loop.mounts);
      assert after.(services := after.services, deployments := after.deployments) == after;
    }
  }

  lemma HubReconciledTheSame(platform: H.Platform, w: Snapshot, after: Snapshot, h: Key, inputs: H.Inputs)
    requires h in w.hubs && SameForHub(w, after, h, inputs) && SlotsApart(P.HubRefs(w, h, inputs), h.namespace)
    requires var out := H.Reconciled(platform, w, h, inputs).world;
             out.configMaps == w.configMaps && out.services == w.services && out.deployments == w.deployments
    ensures H.Reconciled(platform, after, h, inputs) == H.Reconciled(platform, w, h, inputs).(world := after)
  {
    var definitions, specifications := H.SelectedDefinitions(w, h, inputs), H.SelectedSpecifications(w, h, inputs);
    assert H.SelectedDefinitions(after, h, inputs) == definitions;
    assert H.SelectedSpecifications(after, h, inputs) == specifications;
    if definitions.Ok? && specifications.Ok? {
      HubLoopTheSame(platform, w, after, h, inputs);
      FinishTheSame(platform, w, after, h, inputs, P.FullCatalog(w, h, inputs), P.HubLoop(w, h, inputs));
    }
  }

  lemma HubLoopTheSame(platform: H.Platform, w: Snapshot, after: Snapshot, h: Key, inputs: H.Inputs)
    requires h in w.hubs && SameForHub(w, after, h, inputs) && SlotsApart(P.HubRefs(w, h, inputs), h.namespace)
    requires H.Reconciled(platform, w, h, inputs).world.configMaps == w.configMaps
    ensures P.HubLoop(after, h, inputs) == P.HubLoop(w, h, inputs).(configMaps := after.configMaps)
    ensures P.HubLoop(w, h, inputs).configMaps == w.configMaps
  {
    var refs := P.HubRefs(w, h, inputs);
    P.ReconciledCopies(platform, w, h, inputs);
    assert P.HubRefs(after, h, inputs) == refs;
    LoopTheSame(w.configMaps, after.configMaps, inputs.calls, refs, |refs|, h.namespace, H.FrontendURL(w.hubs[h]));
    assert refs[..|refs|] == refs;
  }

  lemma HubStaysFixed(platform: H.Platform, w: Snapshot, after: Snapshot, h: Key, inputs: H.Inputs)
    requires H.HubStep(platform, w, h, inputs) == w && SameAt(w.hubs, after.hubs, h)
    requires h in w.hubs ==>
               SameForHub(w, after, h, inputs) && SlotsApart(P.HubRefs(w, h, inputs), h.namespace)
    ensures H.HubStep(platform, after, h, inputs) == after
  {
    if h in w.hubs && inputs.read && !w.hubs[h].suspend {
      P.ReconciledFrame(platform, w, h, inputs);
      HubReconciledTheSame(platform, w, after, h, inputs);
      var run := H.Reconciled(platform, w, h, inputs);
      if inputs.statusPatched {
        var status := H.HubStatus(w.hubs[h], run.outcome, run.catalog);
        assert H.HubStep(platform, w, h, inputs).hubs[h] == w.hubs[h].(status := status);
        assert after.hubs[h := after.hubs[h]] == after.hubs;
      }
    }
  }
}
