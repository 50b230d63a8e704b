/** The three controllers together: from the fetched documents to the bytes that a pod serves. */
module Pipeline {
  import opened Wrappers
  import opened Objects
  import opened Cluster
  import opened Publishing
  import opened Unification
  import opened UnificationProperties
  import opened Serving
  import opened Runs
  import opened Provenance
  import S = SpecificationController
  import H = HubController
  import P = HubProperties

  /** The last step of a run that produced something. */
  lemma {:induction false} LastProduction(next: Semantics, produced: Production, w: Snapshot, run: seq<Step>,
                                          initial: Option<Bytes>)
    returns (n: int)
    ensures -1 <= n < |run|
    ensures n == -1 ==> Latest(next, produced, w, run, initial) == initial
    ensures n >= 0 ==> Latest(next, produced, w, run, initial) == produced(After(next, w, run[..n]), run[n])
    ensures n >= 0 ==> produced(After(next, w, run[..n]), run[n]).Some?
    ensures forall j | n < j < |run| :: produced(After(next, w, run[..j]), run[j]) == None
  {
    n := -1;
    if run != [] {
      var m := |run| - 1;
      if produced(After(next, w, run[..m]), run[m]).Some? {
        n := m;
      } else {
        n := LastProduction(next, produced, w, run[..m], initial);
        forall j | n < j < m ensures produced(After(next, w, run[..j]), run[j]) == None {
          assert run[..m][..j] == run[..j] && run[..m][j] == run[j];
        }
        assert n >= 0 ==> run[..m][..n] == run[..n];
      }
    }
  }

  lemma RunPrefix(next: Semantics, universe: Universe, w: Snapshot, run: seq<Step>, k: Key, n: nat)
    requires RunWithin(next, universe, w, run, k) && n <= |run|
    ensures RunWithin(next, universe, w, run[..n], k)
  {
    forall i | 0 <= i < n ensures Within(universe, After(next, w, run[..n][..i]), run[..n][i], k) {
      assert run[..n][..i] == run[..i];
      assert Within(universe, After(next, w, run[..i]), run[i], k);
    }
  }

  /** Nobody writes the ConfigMaps of the universe but their own producers. */
  ghost predicate AllUndisturbed(setting: Setting, universe: Universe, w: Snapshot, run: seq<Step>) {
    forall p | p in universe.producers ::
      Undisturbed(universe, StoreOf(p)) && RunWithin(System(setting), universe, w, run, StoreOf(p))
  }

  /** The document is what was fetched last for the definition, at the end of the run. */
  ghost predicate FetchedLast(setting: Setting, w: Snapshot, run: seq<Step>, d: Key, doc: JsonMap) {
    var body := Latest(System(setting), ProductionOf(setting, OfDefinition(d)), w, run,
                       Content(w.configMaps, StoreOf(OfDefinition(d))));
    body.Some? && setting.libs.unmarshal(body.value) == Ok(doc)
  }

  /** The sources are definitions with their last fetched documents. */
  ghost predicate AreLastFetched(setting: Setting, w: Snapshot, run: seq<Step>, sources: seq<Source>) {
    forall source | source in sources ::
      exists d :: d in After(System(setting), w, run).definitions && d.name == source.name &&
        FetchedLast(setting, w, run, d, source.doc)
  }

  /** The body is the marshalled union of the sources, under the head that the specification had after the
      run, and with separate names every path item in it means what it meant in its own source. */
  ghost predicate IsUnification(setting: Setting, w: Snapshot, run: seq<Step>, s: Key, sources: seq<Source>,
                                body: Bytes)
    requires AreSources(sources)
  {
    var now := After(System(setting), w, run);
    && s in now.specifications
    && setting.libs.marshal(Unified(now.specifications[s].head, sources)) == Ok(body)
    && (NamesSeparate(NamesOf(sources)) && (forall j | 0 <= j < |sources| :: HasSchemaRefsOnly(sources[j])) ==>
          KeepsMeaning(now.specifications[s].head, sources))
  }

  /** The sources are exactly the definitions that the specification selects at the end of the run and that
      load then, in their order. */
  ghost predicate AreSelected(setting: Setting, w: Snapshot, run: seq<Step>, s: Key, inputs: S.Inputs,
                              definitions: seq<Key>, sources: seq<Source>) {
    var now := After(System(setting), w, run);
    && s in now.specifications && S.SelectedBy(now, s, inputs) == Ok(definitions)
    && S.AreLoaded(setting.libs, now.configMaps, inputs.unreadable, definitions, sources)
  }

  lemma SourcesLastFetched(setting: Setting, universe: Universe, w: Snapshot, run: seq<Step>, s: Key,
                           inputs: S.Inputs) returns (definitions: seq<Key>, sources: seq<Source>)
    requires AllUndisturbed(setting, universe, w, run)
    requires forall d | d in After(System(setting), w, run).definitions :: OfDefinition(d) in universe.producers
    requires S.Produced(setting.libs, After(System(setting), w, run), s, inputs).Some?
    ensures AreSources(sources) && AreLastFetched(setting, w, run, sources)
    ensures AreSelected(setting, w, run, s, inputs, definitions, sources)
    ensures IsUnification(setting, w, run, s, sources,
                          S.Produced(setting.libs, After(System(setting), w, run), s, inputs).value)
  {
    var now := After(System(setting), w, run);
    definitions, sources := S.ProducedUnifies(setting.libs, now, s, inputs);
    AllLastFetched(setting, universe, w, run, inputs.unreadable, definitions, sources);
    if NamesSeparate(NamesOf(sources)) && forall j | 0 <= j < |sources| :: HasSchemaRefsOnly(sources[j]) {
      SeparateKeepsMeaning(now.specifications[s].head, sources);
    }
  }

  lemma AllLastFetched(setting: Setting, universe: Universe, w: Snapshot, run: seq<Step>, unreadable: set<Key>,
                       definitions: seq<Key>, sources: seq<Source>)
    requires AllUndisturbed(setting, universe, w, run)
    requires forall d | d in definitions ::
               OfDefinition(d) in universe.producers && d in After(System(setting), w, run).definitions
    requires S.AreLoaded(setting.libs, After(System(setting), w, run).configMaps, unreadable, definitions, sources)
    ensures AreLastFetched(setting, w, run, sources)
  {
    var now := After(System(setting), w, run);
    forall source | source in sources
      ensures exists d :: d in now.definitions && d.name == source.name && FetchedLast(setting, w, run, d, source.doc)
    {
      var d := S.LoadedDefinition(setting.libs, now.configMaps, unreadable, definitions, sources, source);
      SourceLastFetched(setting, universe, w, run, d, unreadable, source);
    }
  }

  lemma SourceLastFetched(setting: Setting, universe: Universe, w: Snapshot, run: seq<Step>, d: Key,
                          unreadable: set<Key>, source: Source)
    requires AllUndisturbed(setting, universe, w, run) && OfDefinition(d) in universe.producers
    requires S.LoadsAs(setting.libs, After(System(setting), w, run).configMaps, unreadable, d, source)
    ensures d.name == source.name && FetchedLast(setting, w, run, d, source.doc)
  {
    UnifiedFromLatest(setting, universe, w, run, d, unreadable, source);
  }

  /** From end to end: what the deployed pod of a hub shows under the URL of a specification, at the end of
      any run, was produced in the last step `n` of the run that produced anything for it: it is the union
      of the definitions that the specification selected then, all of them that loaded and no others, with
      the documents that were fetched last before that step; and with separate names every path item in it
      means what it meant in its own document. */
  lemma ServedSpecification(setting: Setting, universe: Universe, w: Snapshot, run: seq<Step>, h: Key,
                            inputs: H.Inputs, s: Key)
    returns (n: int, definitions: seq<Key>, sources: seq<Source>, body: Option<Bytes>)
    requires FaithfulPlatform(setting.platform)
    requires AllUndisturbed(setting, universe, w, run) && OfSpecification(s) in universe.producers
    requires var now := After(System(setting), w, run);
             && h in now.hubs && !H.Reconciled(setting.platform, now, h, inputs).outcome.Failed?
             && Separated(P.HubRefs(now, h, inputs), h.namespace)
             && SpecificationRef(s) in P.PublishedRefs(now, h, inputs)
             && UserVolume(now.hubs[h]) in {None, Some(H.VOLUME)}
    ensures var now := After(System(setting), w, run);
            var after := H.Reconciled(setting.platform, now, h, inputs).world;
            && H.ObjectKeyOf(h) in after.deployments
            && Shows(after.deployments[H.ObjectKeyOf(h)].template, after.configMaps,
                     FileOf(SpecificationRef(s), H.FrontendURL(now.hubs[h])), h.namespace, body)
    ensures body == Latest(System(setting), ProductionOf(setting, OfSpecification(s)), w, run,
                           Content(w.configMaps, SpecificationStore(s)))
    ensures -1 <= n < |run| && AreSources(sources)
    ensures n == -1 ==> body == Content(w.configMaps, SpecificationStore(s))
    ensures n >= 0 ==> run[n].SpecificationReconciled? && run[n].s == s && body.Some? &&
                       AreSelected(setting, w, run[..n], s, run[n].specificationInputs, definitions, sources) &&
                       AreLastFetched(setting, w, run[..n], sources) &&
                       IsUnification(setting, w, run[..n], s, sources, body.value)
  {
    var p := OfSpecification(s);
    PublishedIsLatest(setting, universe, w, run, h, inputs, p);
    body := Latest(System(setting), ProductionOf(setting, p), w, run, Content(w.configMaps, StoreOf(p)));
    n, definitions, sources := ProducedFrom(setting, universe, w, run, s);
  }

  lemma ProducedFrom(setting: Setting, universe: Universe, w: Snapshot, run: seq<Step>, s: Key)
    returns (n: int, definitions: seq<Key>, sources: seq<Source>)
    requires AllUndisturbed(setting, universe, w, run) && OfSpecification(s) in universe.producers
    ensures -1 <= n < |run| && AreSources(sources)
    ensures var initial := Content(w.configMaps, SpecificationStore(s));
            var body := Latest(System(setting), ProductionOf(setting, OfSpecification(s)), w, run, initial);
            && (n == -1 ==> body == initial)
            && (n >= 0 ==> run[n].SpecificationReconciled? && run[n].s == s && body.Some? &&
                           AreSelected(setting, w, run[..n], s, run[n].specificationInputs, definitions, sources) &&
                           AreLastFetched(setting, w, run[..n], sources) &&
                           IsUnification(setting, w, run[..n], s, sources, body.value))
  {
    var p := OfSpecification(s);
    n := LastProduction(System(setting), ProductionOf(setting, p), w, run, Content(w.configMaps, StoreOf(p)));
    definitions, sources := [], [];
    if n >= 0 {
      forall q | q in universe.producers
        ensures Undisturbed(universe, StoreOf(q)) && RunWithin(System(setting), universe, w, run[..n], StoreOf(q))
      {
        RunPrefix(System(setting), universe, w, run, StoreOf(q), n);
      }
      assert Within(universe, After(System(setting), w, run[..n]), run[n], StoreOf(p));
      definitions, sources := SourcesLastFetched(setting, universe, w, run[..n], s, run[n].specificationInputs);
    }
  }
}
