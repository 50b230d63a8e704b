/** The specification reconciler: select definitions, unify their documents, store the result. */
module SpecificationController {
  import opened Wrappers
  import opened Objects
  import opened JsonPointer
  import opened RefRewriting
  import opened InPlaceRewriting
  import opened Unification
  import opened Selectors
  import opened Conditions
  import opened Cluster
  import opened Selection
  import opened Publishing

  /** JSON decoding and encoding, what the OpenAPI loader rejects, and the base path of a document. */
  datatype Libraries = Libraries(
    unmarshal: Bytes -> Result<JsonMap>,
    load: JsonMap -> Option<string>,
    basePath: JsonMap -> Result<string>,
    marshal: JsonMap -> Result<Bytes>)

  /** What the environment decides: the reads and writes that succeed. */
  datatype Inputs = Inputs(read: bool, definitions: Listing, unreadable: set<Key>, written: bool, statusPatched: bool)

  const NOT_FOUND := "not found"

  // ---- One definition -------------------------------------------------------------------------

  /** `Panicked` stands for a failed type assertion, which ends the whole reconcile. */
  datatype Fetched = Panicked | Unusable(error: string) | Loaded(source: Source)

  const NO_CONFIGMAP := "definition configmap does not exists: "
  const NO_DATA := "definition.json does not exists in definition configmap: %!w(<nil>)"
  const NOT_JSON := "failed to unmarshal definition: "
  const NOT_LOADED := "failed to load SwaggerDefinition url: "
  const NO_BASE_PATH := "failed to extract base path: "

  function Get(configMaps: map<Key, ConfigMap>, unreadable: set<Key>, k: Key): Result<ConfigMap> {
    if k in unreadable then Err(REQUEST_FAILED)
    else if k in configMaps then Ok(configMaps[k]) else Err(NOT_FOUND)
  }

  /** Lines 186-273. */
  function FetchOne(libs: Libraries, configMaps: map<Key, ConfigMap>, unreadable: set<Key>, d: Key): Fetched {
    match Get(configMaps, unreadable, DefinitionStore(d))
    case Err(e) => Unusable(NO_CONFIGMAP + e)
    case Ok(cm) =>
      if DATA_KEY !in cm.binaryData then Unusable(NO_DATA)
      else
        match libs.unmarshal(cm.binaryData[DATA_KEY])
        case Err(e) => Unusable(NOT_JSON + e)
        case Ok(doc) => Load(libs, d.name, doc)
  }

  function Load(libs: Libraries, name: string, doc: JsonMap): Fetched {
    if !Rewritable(doc) then Panicked
    else if !HasObjects(doc) then Unusable(NOT_LOADED + "unexpected type")
    else
      var rewritten := Rewritten(doc, name);
      match libs.load(rewritten)
      case Some(e) => Unusable(NOT_LOADED + e)
      case None =>
        match libs.basePath(rewritten)
        case Err(e) => Unusable(NO_BASE_PATH + e)
        case Ok(basePath) => Loaded(Source(name, doc, basePath))
  }

  /** What the definition's ConfigMap can be read as. */
  predicate Decodes(libs: Libraries, configMaps: map<Key, ConfigMap>, unreadable: set<Key>, d: Key, doc: JsonMap) {
    var body := Content(configMaps, DefinitionStore(d));
    DefinitionStore(d) !in unreadable && body.Some? && libs.unmarshal(body.value) == Ok(doc)
  }

  /** The definition takes part with that source: its own document, which can be rewritten under its name, is
      accepted by the loader then, and has that base path. */
  predicate LoadsAs(libs: Libraries, configMaps: map<Key, ConfigMap>, unreadable: set<Key>, d: Key, source: Source) {
    && source.name == d.name && Decodes(libs, configMaps, unreadable, d, source.doc) && IsSource(source)
    && libs.load(Rewritten(source.doc, d.name)) == None
    && libs.basePath(Rewritten(source.doc, d.name)) == Ok(source.basePath)
  }

  /** A definition loads exactly as that source, and panics exactly when it can be read but not rewritten. */
  lemma LoadedExactly(libs: Libraries, configMaps: map<Key, ConfigMap>, unreadable: set<Key>, d: Key, source: Source)
    ensures FetchOne(libs, configMaps, unreadable, d) == Loaded(source) <==>
            LoadsAs(libs, configMaps, unreadable, d, source)
  {}

  lemma PanickedExactly(libs: Libraries, configMaps: map<Key, ConfigMap>, unreadable: set<Key>, d: Key)
    ensures FetchOne(libs, configMaps, unreadable, d).Panicked? <==>
            exists doc :: Decodes(libs, configMaps, unreadable, d, doc) && !Rewritable(doc)
  {}

  /** Why a definition's ConfigMap cannot be read as a document. */
  ghost predicate FailsToDecode(libs: Libraries, configMaps: map<Key, ConfigMap>, unreadable: set<Key>, d: Key,
                          error: string) {
    var k := DefinitionStore(d);
    || (k in unreadable && error == NO_CONFIGMAP + REQUEST_FAILED)
    || (k !in unreadable && k !in configMaps && error == NO_CONFIGMAP + NOT_FOUND)
    || (k !in unreadable && k in configMaps && Content(configMaps, k) == None && error == NO_DATA)
    || (k !in unreadable && Content(configMaps, k).Some? &&
        exists e :: libs.unmarshal(Content(configMaps, k).value) == Err(e) && error == NOT_JSON + e)
  }

  /** Why its rewritten document is not taken. */
  predicate FailsToLoad(libs: Libraries, name: string, doc: JsonMap, error: string) {
    Rewritable(doc) &&
    if !HasObjects(doc) then error == NOT_LOADED + "unexpected type"
    else if libs.load(Rewritten(doc, name)).Some? then error == NOT_LOADED + libs.load(Rewritten(doc, name)).value
    else libs.basePath(Rewritten(doc, name)).Err? &&
         error == NO_BASE_PATH + libs.basePath(Rewritten(doc, name)).error
  }

  /** Why a definition takes no part. */
  ghost predicate Fails(libs: Libraries, configMaps: map<Key, ConfigMap>, unreadable: set<Key>, d: Key, error: string) {
    FailsToDecode(libs, configMaps, unreadable, d, error) ||
    exists doc :: Decodes(libs, configMaps, unreadable, d, doc) && FailsToLoad(libs, d.name, doc, error)
  }

  /** Each error of a definition has its case. */
  lemma UnusableExactly(libs: Libraries, configMaps: map<Key, ConfigMap>, unreadable: set<Key>, d: Key, error: string)
    ensures FetchOne(libs, configMaps, unreadable, d) == Unusable(error) <==>
            Fails(libs, configMaps, unreadable, d, error)
  {
    if DefinitionStore(d) !in unreadable && Content(configMaps, DefinitionStore(d)).Some? {
      var decoded := libs.unmarshal(Content(configMaps, DefinitionStore(d)).value);
      if decoded.Ok? {
        UnusableDocument(libs, d.name, decoded.value, error);
        assert Decodes(libs, configMaps, unreadable, d, decoded.value);
      }
    }
  }

  lemma UnusableDocument(libs: Libraries, name: string, doc: JsonMap, error: string)
    ensures Load(libs, name, doc) == Unusable(error) <==> FailsToLoad(libs, name, doc, error)
  {}

  function FetchAll(libs: Libraries, configMaps: map<Key, ConfigMap>, unreadable: set<Key>,
                    definitions: seq<Key>): seq<Fetched> {
    seq(|definitions|, i requires 0 <= i < |definitions| => FetchOne(libs, configMaps, unreadable, definitions[i]))
  }

  /** The definitions that loaded, in order. */
  function Sources(fetched: seq<Fetched>): (sources: seq<Source>)
    requires forall f | f in fetched :: f.Loaded? ==> IsSource(f.source)
    ensures AreSources(sources)
  {
    if fetched == [] then []
    else
      var last := fetched[|fetched| - 1];
      Sources(fetched[..|fetched| - 1]) + (if last.Loaded? then [last.source] else [])
  }

  lemma FetchedAreSources(libs: Libraries, configMaps: map<Key, ConfigMap>, unreadable: set<Key>, definitions: seq<Key>)
    ensures forall f | f in FetchAll(libs, configMaps, unreadable, definitions) :: f.Loaded? ==> IsSource(f.source)
  {}

  // ---- All definitions ------------------------------------------------------------------------

  /** `SubResourceCatalog[refID].Error = ...` for the first `n` definitions that are unusable. */
  function WithErrorsUpTo(catalog: seq<ResourceLookupReference>, fetched: seq<Fetched>,
                          n: nat): seq<ResourceLookupReference>
    requires |catalog| == |fetched|
  {
    seq(|catalog|, i requires 0 <= i < |catalog| =>
      if i < n && fetched[i].Unusable? then catalog[i].(error := fetched[i].error) else catalog[i])
  }

  function WithErrors(catalog: seq<ResourceLookupReference>, fetched: seq<Fetched>): seq<ResourceLookupReference>
    requires |catalog| == |fetched|
  {
    WithErrorsUpTo(catalog, fetched, |fetched|)
  }

  lemma ErrorStep(catalog: seq<ResourceLookupReference>, fetched: seq<Fetched>, i: nat)
    requires |catalog| == |fetched| && i < |fetched|
    ensures var before := WithErrorsUpTo(catalog, fetched, i);
            WithErrorsUpTo(catalog, fetched, i + 1) ==
            if fetched[i].Unusable? then before[i := before[i].(error := fetched[i].error)] else before
  {}

  function Catalog(definitions: seq<Key>): seq<ResourceLookupReference> {
    seq(|definitions|, i requires 0 <= i < |definitions| =>
      ResourceLookupReference(DEFINITION_KIND, definitions[i].name, ""))
  }

  datatype Generated = Generated(document: JsonMap, catalog: seq<ResourceLookupReference>)

  /** `generateOpenAPI`; `None` when it panics. */
  function Generate(libs: Libraries, configMaps: map<Key, ConfigMap>, unreadable: set<Key>, head: Head,
                    definitions: seq<Key>, catalog: seq<ResourceLookupReference>): Option<Generated>
    requires |catalog| == |definitions|
  {
    var fetched := FetchAll(libs, configMaps, unreadable, definitions);
    FetchedAreSources(libs, configMaps, unreadable, definitions);
    if exists f :: f in fetched && f.Panicked? then None
    else Some(Generated(Unified(head, Sources(fetched)), WithErrors(catalog, fetched)))
  }

  // ---- The step -------------------------------------------------------------------------------

  /** The ConfigMaps once the specification's own one is created or updated. */
  function Storing(configMaps: map<Key, ConfigMap>, s: Key, uid: string, body: Bytes): map<Key, ConfigMap> {
    configMaps[SpecificationStore(s) := Stored(s, uid, SPECIFICATION_KIND, body)]
  }

  /** How `reconcile` ends: a panic, or ConfigMaps, a catalog, and the message of the condition. */
  datatype Run = Aborted | Run(configMaps: map<Key, ConfigMap>, catalog: seq<ResourceLookupReference>,
                               outcome: Result<string>)

  ghost function Reconciled(libs: Libraries, w: Snapshot, s: Key, inputs: Inputs): Run
    requires s in w.specifications
  {
    var specification := w.specifications[s];
    match SelectedBy(w, s, inputs)
    case Err(e) => Run(w.configMaps, [], Err(e))
    case Ok(definitions) =>
      Concluded(libs, w.configMaps, s, specification.uid, inputs,
                Generate(libs, w.configMaps, inputs.unreadable, specification.head, definitions, Catalog(definitions)))
  }

  /** What follows `generateOpenAPI`. */
  function Concluded(libs: Libraries, configMaps: map<Key, ConfigMap>, s: Key, uid: string, inputs: Inputs,
                     generated: Option<Generated>): Run
  {
    match generated
    case None => Aborted
    case Some(g) =>
      match libs.marshal(g.document)
      case Err(e) => Run(configMaps, g.catalog, Err(e))
      case Ok(body) =>
        if !inputs.written then Run(configMaps, g.catalog, Err(REQUEST_FAILED))
        else Run(Storing(configMaps, s, uid, body), g.catalog,
                 Ok("configmap/" + SpecificationConfigMap(s.name) + " created"))
  }

  function SpecificationStatus(specification: Specification, outcome: Result<string>,
                               catalog: seq<ResourceLookupReference>)
    : Status<ResourceLookupReference>
  {
    Status(PlainConditions(specification.status.conditions, specification.generation, outcome),
           specification.generation, catalog)
  }

  /** `Reconcile` of the specification controller. */
  ghost function SpecificationStep(libs: Libraries, w: Snapshot, s: Key, inputs: Inputs): Snapshot {
    if s !in w.specifications || !inputs.read || w.specifications[s].suspend then w
    else
      match Reconciled(libs, w, s, inputs)
      case Aborted => w
      case Run(configMaps, catalog, outcome) =>
        var w1 := w.(configMaps := configMaps);
        var specification := w.specifications[s];
        if !inputs.statusPatched then w1
        else w1.(specifications := w.specifications[s :=
               specification.(status := SpecificationStatus(specification, outcome, catalog))])
  }

  /** What a step may write: its own ConfigMap and its own status. */
  ghost predicate Writes(w: Snapshot, after: Snapshot, s: Key) {
    && after == w.(configMaps := after.configMaps, specifications := after.specifications)
    && after.configMaps - {SpecificationStore(s)} == w.configMaps - {SpecificationStore(s)}
    && (after.specifications == w.specifications ||
        (s in w.specifications && exists outcome, catalog ::
            after.specifications ==
            w.specifications[s :=
              w.specifications[s].(status := SpecificationStatus(w.specifications[s], outcome, catalog))]))
  }

  lemma StepWrites(libs: Libraries, w: Snapshot, s: Key, inputs: Inputs)
    ensures Writes(w, SpecificationStep(libs, w, s, inputs), s)
  {
    StepStores(libs, w, s, inputs);
    StepSetsStatus(libs, w, s, inputs);
  }

  /** Nothing happens for a specification that is gone, unreadable or suspended, and a status that is not persisted
      stays. */
  lemma StepKeeps(libs: Libraries, w: Snapshot, s: Key, inputs: Inputs)
    ensures s !in w.specifications || !inputs.read || w.specifications[s].suspend ==>
              SpecificationStep(libs, w, s, inputs) == w
    ensures !inputs.statusPatched ==> SpecificationStep(libs, w, s, inputs).specifications == w.specifications
  {}

  lemma StepSetsStatus(libs: Libraries, w: Snapshot, s: Key, inputs: Inputs)
    ensures var after := SpecificationStep(libs, w, s, inputs);
            && after == w.(configMaps := after.configMaps, specifications := after.specifications)
            && (after.specifications == w.specifications ||
                (s in w.specifications && exists outcome, catalog ::
                   after.specifications == w.specifications[s :=
                     w.specifications[s].(status := SpecificationStatus(w.specifications[s], outcome, catalog))]))
  {}

  /** The definitions that a specification selects. */
  ghost function SelectedBy(w: Snapshot, s: Key, inputs: Inputs): Result<seq<Key>>
    requires s in w.specifications
  {
    var specification := w.specifications[s];
    Selected(w.namespaces, DefinitionLabels(w.definitions), s.namespace, specification.definitionSelector,
             specification.namespaceSelector, inputs.definitions)
  }

  /** The unified document of a step that gets as far as storing it. */
  ghost function Produced(libs: Libraries, w: Snapshot, s: Key, inputs: Inputs): Option<Bytes> {
    if s !in w.specifications || !inputs.read || w.specifications[s].suspend || !inputs.written then None
    else
      var specification := w.specifications[s];
      var definitions := SelectedBy(w, s, inputs);
      if definitions.Err? then None
      else
        match Generate(libs, w.configMaps, inputs.unreadable, specification.head, definitions.value,
                       Catalog(definitions.value))
        case None => None
        case Some(g) => match libs.marshal(g.document) case Err(e) => None case Ok(body) => Some(body)
  }

  lemma StepStores(libs: Libraries, w: Snapshot, s: Key, inputs: Inputs)
    ensures SpecificationStep(libs, w, s, inputs).configMaps ==
            match Produced(libs, w, s, inputs)
            case None => w.configMaps
            case Some(body) => Storing(w.configMaps, s, w.specifications[s].uid, body)
  {
    if s in w.specifications && inputs.read && !w.specifications[s].suspend {
      ReconciledStores(libs, w, s, inputs);
    }
  }

  lemma ReconciledStores(libs: Libraries, w: Snapshot, s: Key, inputs: Inputs)
    requires s in w.specifications && inputs.read && !w.specifications[s].suspend
    ensures var run := Reconciled(libs, w, s, inputs);
            (if run.Aborted? then w.configMaps else run.configMaps) ==
            match Produced(libs, w, s, inputs)
            case None => w.configMaps
            case Some(body) => Storing(w.configMaps, s, w.specifications[s].uid, body)
  {}

  /** The ConfigMaps that a unification reads are those of definitions, so storing its result leaves them. */
  lemma FetchAllStable(libs: Libraries, configMaps: map<Key, ConfigMap>, unreadable: set<Key>,
                       definitions: seq<Key>, s: Key, cm: ConfigMap)
    ensures FetchAll(libs, configMaps[SpecificationStore(s) := cm], unreadable, definitions) ==
            FetchAll(libs, configMaps, unreadable, definitions)
  {
    forall i | 0 <= i < |definitions|
      ensures FetchOne(libs, configMaps[SpecificationStore(s) := cm], unreadable, definitions[i]) ==
              FetchOne(libs, configMaps, unreadable, definitions[i])
    {
      FetchOneStable(libs, configMaps, unreadable, definitions[i], s, cm);
    }
  }

  lemma FetchOneStable(libs: Libraries, configMaps: map<Key, ConfigMap>, unreadable: set<Key>,
                       d: Key, s: Key, cm: ConfigMap)
    ensures FetchOne(libs, configMaps[SpecificationStore(s) := cm], unreadable, d) ==
            FetchOne(libs, configMaps, unreadable, d)
  {
    ConfigMapKindsDiffer(d.name, s.name);
    var k := DefinitionStore(d);
    assert Get(configMaps[SpecificationStore(s) := cm], unreadable, k) == Get(configMaps, unreadable, k);
  }

  lemma GenerateStable(libs: Libraries, configMaps: map<Key, ConfigMap>, unreadable: set<Key>, head: Head,
                       definitions: seq<Key>, s: Key, cm: ConfigMap)
    ensures Generate(libs, configMaps[SpecificationStore(s) := cm], unreadable, head, definitions,
                     Catalog(definitions)) ==
            Generate(libs, configMaps, unreadable, head, definitions, Catalog(definitions))
  {
    FetchAllStable(libs, configMaps, unreadable, definitions, s, cm);
  }

  /** Reconciling a specification again, with the same failures, changes nothing. */
  lemma SpecificationIsFixpoint(libs: Libraries, w: Snapshot, s: Key, inputs: Inputs)
    ensures SpecificationStep(libs, SpecificationStep(libs, w, s, inputs), s, inputs) ==
            SpecificationStep(libs, w, s, inputs)
  {
    if s in w.specifications && inputs.read && !w.specifications[s].suspend {
      var again := SpecificationStep(libs, w, s, inputs);
      var specification := w.specifications[s];
      StepStores(libs, w, s, inputs);
      StepWrites(libs, w, s, inputs);
      ReconciledStable(libs, w, again, s, inputs);
      var run := Reconciled(libs, w, s, inputs);
      if !run.Aborted? {
        PlainConditionsStable(specification.status.conditions, specification.generation, run.outcome);
        assert again.specifications[s := again.specifications[s]] == again.specifications;
      }
    }
  }

  lemma ReconciledStable(libs: Libraries, w: Snapshot, again: Snapshot, s: Key, inputs: Inputs)
    requires s in w.specifications && s in again.specifications && inputs.read && !w.specifications[s].suspend
    requires again.specifications[s].(status := w.specifications[s].status) == w.specifications[s]
    requires again.namespaces == w.namespaces && again.definitions == w.definitions
    requires again.configMaps == match Produced(libs, w, s, inputs)
                                 case None => w.configMaps
                                 case Some(body) => Storing(w.configMaps, s, w.specifications[s].uid, body)
    ensures Reconciled(libs, again, s, inputs) ==
            match Reconciled(libs, w, s, inputs)
            case Aborted => Aborted
            case Run(_, catalog, outcome) => Run(again.configMaps, catalog, outcome)
  {
    var selected, specification := SelectedBy(w, s, inputs), w.specifications[s];
    assert SelectedBy(again, s, inputs) == selected;
    if selected.Ok? {
      GeneratedAgain(libs, w, again, s, inputs, selected.value);
      ConcludedAgain(libs, w.configMaps, s, specification.uid, inputs,
                     Generate(libs, w.configMaps, inputs.unreadable, specification.head, selected.value,
                              Catalog(selected.value)));
    }
  }

  lemma ConcludedAgain(libs: Libraries, configMaps: map<Key, ConfigMap>, s: Key, uid: string, inputs: Inputs,
                       generated: Option<Generated>)
    ensures var run := Concluded(libs, configMaps, s, uid, inputs, generated);
            !run.Aborted? ==>
              Concluded(libs, run.configMaps, s, uid, inputs, generated) == run
  {}

  lemma GeneratedAgain(libs: Libraries, w: Snapshot, again: Snapshot, s: Key, inputs: Inputs, definitions: seq<Key>)
    requires s in w.specifications
    requires again.configMaps == match Produced(libs, w, s, inputs)
                                 case None => w.configMaps
                                 case Some(body) => Storing(w.configMaps, s, w.specifications[s].uid, body)
    ensures var head := w.specifications[s].head;
            Generate(libs, again.configMaps, inputs.unreadable, head, definitions, Catalog(definitions)) ==
            Generate(libs, w.configMaps, inputs.unreadable, head, definitions, Catalog(definitions))
  {
    match Produced(libs, w, s, inputs)
    case None =>
    case Some(body) =>
      var specification := w.specifications[s];
      GenerateStable(libs, w.configMaps, inputs.unreadable, specification.head, definitions, s,
                     Stored(s, specification.uid, SPECIFICATION_KIND, body));
  }

  // ---- The code -------------------------------------------------------------------------------

  /** Copies a Go map into another one, its keys in any order. */
  method CopyInto(target: JsonMap, source: JsonMap) returns (r: JsonMap)
    ensures r == target + source
  {
    r := target;
    var todo := source.Keys;
    while todo != {}
      invariant todo <= source.Keys
      invariant r == target + (map k | k in source && k !in todo :: source[k])
      decreases todo
    {
      var k :| k in todo;
      r := r[k := source[k]];
      todo := todo - {k};
    }
    assert (map k | k in source && k !in todo :: source[k]) == source;
  }

  /** Lines 296-300, the path items in any order and their operations in any order. */
  method TagOperations(paths: JsonMap, name: string) returns (r: JsonMap)
    ensures r == TaggedItems(paths, name)
  {
    r := paths;
    var todo := paths.Keys;
    while todo != {}
      invariant todo <= paths.Keys == r.Keys
      invariant forall p | p in paths :: r[p] == if p in todo then paths[p] else TaggedItem(paths[p], name)
      decreases todo
    {
      var p :| p in todo;
      var item := TagItem(paths[p], name);
      r := r[p := item];
      todo := todo - {p};
    }
  }

  method TagItem(item: Json, name: string) returns (r: Json)
    ensures r == TaggedItem(item, name)
  {
    r := item;
    if item.Obj? {
      var fields := item.fields;
      var todo := set k | k in fields && IsMethod(k);
      while todo != {}
        invariant todo <= fields.Keys == item.fields.Keys
        invariant forall k | k in todo :: IsMethod(k)
        invariant forall k | k in fields ::
                    fields[k] == if IsMethod(k) && k !in todo then Tagged(item.fields[k], name) else item.fields[k]
        decreases todo
      {
        var k :| k in todo;
        fields := fields[k := Tagged(fields[k], name)];
        todo := todo - {k};
      }
      r := Obj(fields);
      assert fields == TaggedItem(item, name).fields;
    }
  }

  /** `NewPaths`: a later option replaces an earlier one for the same path. */
  function NewPaths(options: seq<(string, Json)>): JsonMap {
    if options == [] then map[]
    else NewPaths(options[..|options| - 1])[options[|options| - 1].0 := options[|options| - 1].1]
  }

  /** Lines 302-309, the paths of a definition in any order. */
  method AppendPaths(options: seq<(string, Json)>, paths: JsonMap, basePath: string) returns (r: seq<(string, Json)>)
    ensures NewPaths(r) == NewPaths(options) + MovedPaths(paths, basePath)
  {
    r := options;
    var todo := paths.Keys;
    ghost var order: seq<string> := [];
    while todo != {}
      invariant todo <= paths.Keys
      invariant forall p :: p in order <==> p in paths && p !in todo
      invariant r == options + Listed(order, paths, basePath)
      decreases todo
    {
      var p :| p in todo;
      r := AppendPath(r, p, paths[p], basePath);
      todo := todo - {p};
      order := order + [p];
    }
    ListedPaths(options, order, paths, basePath);
  }

  /** One `openapi3.WithPath`. */
  method AppendPath(options: seq<(string, Json)>, path: string, item: Json,
                    basePath: string) returns (r: seq<(string, Json)>)
    ensures r == options + [(if basePath == "/" then path else basePath + path, item)]
  {
    var base := basePath;
    if base == "/" {
      base := "";
      assert "" + path == path;
    }
    r := options + [(base + path, item)];
  }

  function Listed(order: seq<string>, paths: JsonMap, basePath: string): seq<(string, Json)>
    requires forall p | p in order :: p in paths
  {
    seq(|order|, i requires 0 <= i < |order| => (AtBase(basePath, order[i]), paths[order[i]]))
  }

  lemma ListedPaths(options: seq<(string, Json)>, order: seq<string>, paths: JsonMap, basePath: string)
    requires forall p :: p in order <==> p in paths
    ensures NewPaths(options + Listed(order, paths, basePath)) == NewPaths(options) + MovedPaths(paths, basePath)
  {
    var listed := Listed(order, paths, basePath);
    NewPathsAppend(options, listed);
    ListedItems(order, paths, basePath);
    NewPathsLists(listed, MovedPaths(paths, basePath));
  }

  lemma ListedItems(order: seq<string>, paths: JsonMap, basePath: string)
    requires forall p :: p in order <==> p in paths
    ensures var listed, moved := Listed(order, paths, basePath), MovedPaths(paths, basePath);
            && (forall i | 0 <= i < |listed| :: listed[i].0 in moved && moved[listed[i].0] == listed[i].1)
            && (forall q | q in moved :: exists i :: 0 <= i < |listed| && listed[i].0 == q)
  {
    var listed, moved := Listed(order, paths, basePath), MovedPaths(paths, basePath);
    forall i | 0 <= i < |listed| ensures listed[i].0 in moved && moved[listed[i].0] == listed[i].1 {
      assert order[i] in paths && listed[i].0 == AtBase(basePath, order[i]);
    }
    forall q | q in moved ensures exists i :: 0 <= i < |listed| && listed[i].0 == q {
      var p :| p in paths && q == AtBase(basePath, p);
      var i :| 0 <= i < |order| && order[i] == p;
      assert listed[i].0 == q;
    }
  }

  lemma {:induction false} NewPathsAppend(a: seq<(string, Json)>, b: seq<(string, Json)>)
    ensures NewPaths(a + b) == NewPaths(a) + NewPaths(b)
  {
    if b == [] {
      assert a + b == a;
    } else {
      NewPathsAppend(a, b[..|b| - 1]);
      assert (a + b)[..|a + b| - 1] == a + b[..|b| - 1];
    }
  }

  /** Options that list a map, in any order and with repetitions, make that map. */
  lemma NewPathsLists(options: seq<(string, Json)>, m: JsonMap)
    requires forall i | 0 <= i < |options| :: options[i].0 in m && m[options[i].0] == options[i].1
    requires forall q | q in m :: exists i :: 0 <= i < |options| && options[i].0 == q
    ensures NewPaths(options) == m
  {
    NewPathsWithin(options, m);
  }

  lemma {:induction false} NewPathsWithin(options: seq<(string, Json)>, m: JsonMap)
    requires forall i | 0 <= i < |options| :: options[i].0 in m && m[options[i].0] == options[i].1
    ensures forall q | q in NewPaths(options) :: q in m && m[q] == NewPaths(options)[q]
    ensures forall i | 0 <= i < |options| :: options[i].0 in NewPaths(options)
  {
    if options != [] {
      NewPathsWithin(options[..|options| - 1], m);
    }
  }

  /** What is kept of one definition between the two loops. */
  datatype FetchResult = FetchResult(definition: Key, fetched: Fetched, spec: JsonMap, refID: nat)

  predicate IsResult(result: FetchResult, d: Key, fetched: Fetched, i: int) {
    result.definition == d && result.fetched == fetched && result.refID == i && IsSpecOf(fetched, result.spec)
  }

  /** The rewritten document that came with a source. */
  predicate IsSpecOf(fetched: Fetched, spec: JsonMap) {
    fetched.Loaded? ==> IsSource(fetched.source) && spec == Rewritten(fetched.source.doc, fetched.source.name)
  }

  /** Lines 186-273: the document is decoded into maps of its own, rewritten in place, and encoded again
      for the loader. */
  method FetchDefinition(libs: Libraries, c: ApiServer, unreadable: set<Key>, d: Key)
    returns (fetched: Fetched, spec: JsonMap)
    ensures fetched == FetchOne(libs, c.configMaps, unreadable, d) && IsSpecOf(fetched, spec)
  {
    spec := map[];
    var k := Key(d.namespace, "swagger-definition-" + d.name);
    if k in unreadable {
      return Unusable(NO_CONFIGMAP + REQUEST_FAILED), spec;
    }
    if k !in c.configMaps {
      return Unusable(NO_CONFIGMAP + NOT_FOUND), spec;
    }
    var cm := c.configMaps[k];
    if DATA_KEY !in cm.binaryData {
      return Unusable(NO_DATA), spec;
    }
    var doc := libs.unmarshal(cm.binaryData[DATA_KEY]);
    if doc.Err? {
      return Unusable(NOT_JSON + doc.error), spec;
    }
    fetched, spec := LoadDefinition(libs, d.name, doc.value);
  }

  method LoadDefinition(libs: Libraries, name: string, doc: JsonMap) returns (fetched: Fetched, spec: JsonMap)
    ensures fetched == Load(libs, name, doc) && IsSpecOf(fetched, spec)
  {
    var panicked;
    panicked, spec := RewriteOnHeap(doc, name);
    if panicked {
      return Panicked, spec;
    }
    if !HasObjects(doc) {
      return Unusable(NOT_LOADED + "unexpected type"), spec;
    }
    var rejected := libs.load(spec);
    if rejected.Some? {
      return Unusable(NOT_LOADED + rejected.value), spec;
    }
    var basePath := libs.basePath(spec);
    if basePath.Err? {
      return Unusable(NO_BASE_PATH + basePath.error), spec;
    }
    fetched := Loaded(Source(name, doc, basePath.value));
  }

  method RewriteOnHeap(doc: JsonMap, name: string) returns (panicked: bool, rewritten: JsonMap)
    ensures panicked <==> !Rewritable(doc)
    ensures !panicked ==> rewritten == Rewritten(doc, name)
  {
    var value, shape := Decode(Obj(doc));
    rewritten := map[];
    ghost var shape';
    panicked, shape' := RewriteDocument(value.node, name, shape, doc);
    if !panicked {
      var encoded := Encode(value, shape', Obj(Rewritten(doc, name)));
      rewritten := encoded.fields;
    }
  }

  /** Lines 183-274: one result for each definition, unless one panics. */
  method FetchDefinitions(libs: Libraries, c: ApiServer, unreadable: set<Key>, definitions: seq<Key>)
    returns (panicked: bool, results: seq<FetchResult>)
    ensures var fetched := FetchAll(libs, c.configMaps, unreadable, definitions);
            && (panicked <==> exists f :: f in fetched && f.Panicked?)
            && (!panicked ==> |results| == |definitions|)
            && (!panicked ==> forall i | 0 <= i < |results| :: IsResult(results[i], definitions[i], fetched[i], i))
  {
    results := [];
    ghost var all := FetchAll(libs, c.configMaps, unreadable, definitions);
    for refID := 0 to |definitions|
      invariant |results| == refID
      invariant forall i | 0 <= i < refID :: IsResult(results[i], definitions[i], all[i], i)
      invariant forall i | 0 <= i < refID :: !all[i].Panicked?
    {
      var fetched, spec := FetchDefinition(libs, c, unreadable, definitions[refID]);
      assert fetched == all[refID];
      if fetched.Panicked? {
        return true, results;
      }
      results := results + [FetchResult(definitions[refID], fetched, spec, refID)];
    }
    panicked := false;
  }

  /** Lines 276-318: the results folded into one document, the errors into the catalog. */
  method MergeResults(head: Head, results: seq<FetchResult>, catalog: seq<ResourceLookupReference>,
                      ghost fetched: seq<Fetched>)
    returns (document: JsonMap, accounted: seq<ResourceLookupReference>)
    requires |catalog| == |results| == |fetched|
    requires forall i | 0 <= i < |results| ::
               IsResult(results[i], results[i].definition, fetched[i], i) && !fetched[i].Panicked?
    requires forall f | f in fetched :: f.Loaded? ==> IsSource(f.source)
    ensures document == Unified(head, Sources(fetched))
    ensures accounted == WithErrors(catalog, fetched)
  {
    var components: JsonMap, securitySchemes: JsonMap, options: seq<(string, Json)> := map[], map[], [];
    accounted := catalog;
    for i := 0 to |results|
      invariant accounted == WithErrorsUpTo(catalog, fetched, i)
      invariant Parts(components, securitySchemes, NewPaths(options)) == Merge(Contributions(Sources(fetched[..i])))
    {
      var result := results[i];
      assert fetched[i] in fetched;
      ErrorStep(catalog, fetched, i);
      SourcesStep(fetched, i);
      if result.fetched.Unusable? {
        accounted := accounted[result.refID := accounted[result.refID].(error := result.fetched.error)];
      } else {
        components, securitySchemes, options := MergeSource(components, securitySchemes, options,
                                                            result.fetched.source, result.spec);
      }
    }
    assert fetched[..|results|] == fetched;
    document := Document(head, Parts(components, securitySchemes, NewPaths(options)));
  }

  /** Lines 286-309. */
  method MergeSource(components: JsonMap, securitySchemes: JsonMap, options: seq<(string, Json)>, source: Source,
                     spec: JsonMap)
    returns (components': JsonMap, securitySchemes': JsonMap, options': seq<(string, Json)>)
    requires IsSource(source) && spec == Rewritten(source.doc, source.name)
    ensures Parts(components', securitySchemes', NewPaths(options')) ==
            Overlay(Parts(components, securitySchemes, NewPaths(options)), Contribution(source))
  {
    RewrittenSchemas(source.doc, Prefixer(source.name), source.name);
    components' := CopyInto(components, SchemasOf(spec));
    securitySchemes' := CopyInto(securitySchemes, SecuritySchemesOf(spec));
    var tagged := TagOperations(PathsOf(spec), source.name);
    options' := AppendPaths(options, tagged, source.basePath);
  }

  lemma MergeAppend(sources: seq<Source>, source: Source)
    requires AreSources(sources) && IsSource(source)
    ensures AreSources(sources + [source])
    ensures Merge(Contributions(sources + [source])) == Overlay(Merge(Contributions(sources)), Contribution(source))
  {
    ContributionsAppend(sources, source);
    MergeAppendPart(Contributions(sources), Contribution(source));
  }

  lemma ContributionsAppend(sources: seq<Source>, source: Source)
    requires AreSources(sources) && IsSource(source)
    ensures AreSources(sources + [source])
    ensures Contributions(sources + [source]) == Contributions(sources) + [Contribution(source)]
  {
    MapSeqAppend(sources, source, Contributor());
  }

  lemma MergeAppendPart(parts: seq<Parts>, part: Parts)
    ensures Merge(parts + [part]) == Overlay(Merge(parts), part)
  {
    assert (parts + [part])[..|parts|] == parts;
  }

  lemma SourcesStep(fetched: seq<Fetched>, i: nat)
    requires i < |fetched| && forall f | f in fetched :: f.Loaded? ==> IsSource(f.source)
    ensures var before := Merge(Contributions(Sources(fetched[..i])));
            Merge(Contributions(Sources(fetched[..i + 1]))) ==
            if fetched[i].Loaded? then Overlay(before, Contribution(fetched[i].source)) else before
  {
    assert fetched[..i + 1][..i] == fetched[..i] && fetched[..i + 1][i] == fetched[i];
    var sources := Sources(fetched[..i]);
    if fetched[i].Loaded? {
      assert fetched[i] in fetched;
      MergeAppend(sources, fetched[i].source);
    } else {
      assert sources + [] == sources;
    }
  }

  method GenerateOpenAPI(libs: Libraries, c: ApiServer, unreadable: set<Key>, head: Head, definitions: seq<Key>,
                         catalog: seq<ResourceLookupReference>)
    returns (r: Option<Generated>)
    requires |catalog| == |definitions|
    ensures r == Generate(libs, c.configMaps, unreadable, head, definitions, catalog)
  {
    var panicked, results := FetchDefinitions(libs, c, unreadable, definitions);
    if panicked {
      return None;
    }
    ghost var fetched := FetchAll(libs, c.configMaps, unreadable, definitions);
    FetchedAreSources(libs, c.configMaps, unreadable, definitions);
    assert forall i | 0 <= i < |results| :: fetched[i] in fetched;
    var document, accounted := MergeResults(head, results, catalog, fetched);
    r := Some(Generated(document, accounted));
  }

  /** Lines 464-470. */
  method BuildCatalog(definitions: seq<Key>) returns (catalog: seq<ResourceLookupReference>)
    ensures catalog == Catalog(definitions)
  {
    catalog := [];
    for i := 0 to |definitions|
      invariant catalog == Catalog(definitions[..i])
    {
      catalog := catalog + [ResourceLookupReference(DEFINITION_KIND, definitions[i].name, "")];
    }
    assert definitions[..|definitions|] == definitions;
  }

  method Reconcile(c: ApiServer, libs: Libraries, s: Key, inputs: Inputs)
    modifies c
    ensures c.View() == SpecificationStep(libs, old(c.View()), s, inputs)
  {
    if s !in c.specifications || !inputs.read || c.specifications[s].suspend {
      return;
    }
    var specification := c.specifications[s];
    var aborted, status, outcome := Unify(c, libs, s, inputs);
    if aborted {
      return;
    }
    status := status.(observedGeneration := specification.generation);
    if outcome.Err? {
      status := status.(conditions := Put(status.conditions, Failure(outcome.error, specification.generation)));
    }
    if inputs.statusPatched {
      c.specifications := c.specifications[s := specification.(status := status)];
    }
  }

  /** `reconcile`. The status is ready when it succeeds, and else has still its old conditions. */
  method Unify(c: ApiServer, libs: Libraries, s: Key, inputs: Inputs)
    returns (aborted: bool, status: Status<ResourceLookupReference>, outcome: Result<string>)
    requires s in c.specifications
    modifies c`configMaps
    ensures (if aborted then Aborted else Run(c.configMaps, status.catalog, outcome)) ==
            Reconciled(libs, old(c.View()), s, inputs)
    ensures aborted ==> c.configMaps == old(c.configMaps)
    ensures var specification := c.specifications[s];
            status == specification.status.(catalog := status.catalog, conditions :=
              if !aborted && outcome.Ok?
              then PlainConditions(specification.status.conditions, specification.generation, outcome)
              else specification.status.conditions)
  {
    var specification := c.specifications[s];
    aborted, status, outcome := false, specification.status.(catalog := []), Err("");
    var definitions := Extend(c.namespaces, DefinitionLabels(c.definitions), s.namespace,
                              specification.definitionSelector, specification.namespaceSelector, inputs.definitions);
    if definitions.Err? {
      return false, status, Err(definitions.error);
    }
    var catalog := BuildCatalog(definitions.value);
    status := status.(catalog := catalog);
    var generated := GenerateOpenAPI(libs, c, inputs.unreadable, specification.head, definitions.value, catalog);
    if generated.None? {
      return true, status, outcome;
    }
    status := status.(catalog := generated.value.catalog);
    var body := libs.marshal(generated.value.document);
    if body.Err? {
      return false, status, Err(body.error);
    }
    if !inputs.written {
      return false, status, Err(REQUEST_FAILED);
    }
    c.configMaps := Storing(c.configMaps, s, specification.uid, body.value);
    var message := "configmap/" + SpecificationConfigMap(s.name) + " created";
    status := status.(conditions := Put(status.conditions, Succeeded(message, specification.generation)));
    outcome := Ok(message);
  }

  // ---- Error accounting -----------------------------------------------------------------------

  lemma {:induction false} SourcesInOrder(fetched: seq<Fetched>) returns (order: seq<nat>)
    requires forall f | f in fetched :: f.Loaded? ==> IsSource(f.source)
    ensures |order| == |Sources(fetched)| && forall i, j | 0 <= i < j < |order| :: order[i] < order[j]
    ensures forall j | 0 <= j < |order| :: order[j] < |fetched| && fetched[order[j]] == Loaded(Sources(fetched)[j])
    ensures forall i: nat | i < |fetched| && fetched[i].Loaded? :: i in order
  {
    order := [];
    if fetched != [] {
      var n := |fetched| - 1;
      assert fetched == fetched[..n] + [fetched[n]];
      order := SourcesInOrder(fetched[..n]);
      if fetched[n].Loaded? {
        order := order + [n];
      }
    }
  }

  /** The catalog entry names the definition; its error is empty exactly when the definition loads, and is the reason
      otherwise. */
  ghost predicate IsAccounted(libs: Libraries, configMaps: map<Key, ConfigMap>, unreadable: set<Key>, d: Key,
                              entry: ResourceLookupReference) {
    && entry.kind == DEFINITION_KIND && entry.name == d.name
    && (entry.error == "" <==> exists source :: LoadsAs(libs, configMaps, unreadable, d, source))
    && (entry.error != "" ==> Fails(libs, configMaps, unreadable, d, entry.error))
  }

  /** The sources are those that the definitions load as, in their order: source `j` is the one of definition
      `order[j]`, and the others do not load. */
  ghost predicate IsLoadOrder(libs: Libraries, configMaps: map<Key, ConfigMap>, unreadable: set<Key>,
                              definitions: seq<Key>, sources: seq<Source>, order: seq<nat>) {
    && |order| == |sources| && (forall i, j | 0 <= i < j < |order| :: order[i] < order[j])
    && (forall j | 0 <= j < |order| ::
          order[j] < |definitions| && LoadsAs(libs, configMaps, unreadable, definitions[order[j]], sources[j]))
    && (forall i: nat, source | i < |definitions| && i !in order ::
          !LoadsAs(libs, configMaps, unreadable, definitions[i], source))
  }

  ghost predicate AreLoaded(libs: Libraries, configMaps: map<Key, ConfigMap>, unreadable: set<Key>,
                            definitions: seq<Key>, sources: seq<Source>) {
    AreSources(sources) && exists order :: IsLoadOrder(libs, configMaps, unreadable, definitions, sources, order)
  }

  /** The entries account for the definitions, one after the other. */
  ghost predicate AccountFor(libs: Libraries, configMaps: map<Key, ConfigMap>, unreadable: set<Key>,
                             definitions: seq<Key>, catalog: seq<ResourceLookupReference>) {
    |catalog| == |definitions| &&
    forall i | 0 <= i < |definitions| :: IsAccounted(libs, configMaps, unreadable, definitions[i], catalog[i])
  }

  /** Some definition can be read, but its document cannot be rewritten. */
  ghost predicate PanicsOn(libs: Libraries, configMaps: map<Key, ConfigMap>, unreadable: set<Key>,
                           definitions: seq<Key>) {
    exists d, doc :: d in definitions && Decodes(libs, configMaps, unreadable, d, doc) && !Rewritable(doc)
  }

  /** It panics exactly when some definition can be read but not rewritten. */
  lemma GenerateNeeds(libs: Libraries, configMaps: map<Key, ConfigMap>, unreadable: set<Key>, head: Head,
                      definitions: seq<Key>)
    ensures Generate(libs, configMaps, unreadable, head, definitions, Catalog(definitions)).None? <==>
            PanicsOn(libs, configMaps, unreadable, definitions)
  {
    var fetched := FetchAll(libs, configMaps, unreadable, definitions);
    forall i | 0 <= i < |definitions|
      ensures fetched[i] in fetched && definitions[i] in definitions
      ensures fetched[i].Panicked? <==>
              exists doc :: Decodes(libs, configMaps, unreadable, definitions[i], doc) && !Rewritable(doc)
    {
      PanickedExactly(libs, configMaps, unreadable, definitions[i]);
    }
  }

  /** Every selected definition is accounted for: entry `i` of the catalog names definition `i`, and has an
      error exactly when that definition does not load; the document is unified from the others, one source
      each, and from nothing else. */
  lemma ErrorsAccounted(libs: Libraries, configMaps: map<Key, ConfigMap>, unreadable: set<Key>, head: Head,
                        definitions: seq<Key>) returns (sources: seq<Source>)
    requires Generate(libs, configMaps, unreadable, head, definitions, Catalog(definitions)).Some?
    ensures AreLoaded(libs, configMaps, unreadable, definitions, sources)
    ensures var g := Generate(libs, configMaps, unreadable, head, definitions, Catalog(definitions)).value;
            g.document == Unified(head, sources) &&
            AccountFor(libs, configMaps, unreadable, definitions, g.catalog)
  {
    sources := LoadedFrom(libs, configMaps, unreadable, definitions);
    EntriesAccounted(libs, configMaps, unreadable, definitions);
  }

  lemma EntriesAccounted(libs: Libraries, configMaps: map<Key, ConfigMap>, unreadable: set<Key>, definitions: seq<Key>)
    requires forall f | f in FetchAll(libs, configMaps, unreadable, definitions) :: !f.Panicked?
    ensures AccountFor(libs, configMaps, unreadable, definitions,
                       WithErrors(Catalog(definitions), FetchAll(libs, configMaps, unreadable, definitions)))
  {
    var fetched := FetchAll(libs, configMaps, unreadable, definitions);
    var catalog := WithErrors(Catalog(definitions), fetched);
    forall i | 0 <= i < |definitions|
      ensures IsAccounted(libs, configMaps, unreadable, definitions[i], catalog[i])
    {
      assert fetched[i] in fetched;
      EntryAccounts(libs, configMaps, unreadable, definitions[i], catalog[i]);
    }
  }

  lemma EntryAccounts(libs: Libraries, configMaps: map<Key, ConfigMap>, unreadable: set<Key>, d: Key,
                      entry: ResourceLookupReference)
    requires var f := FetchOne(libs, configMaps, unreadable, d);
             !f.Panicked? &&
             entry == ResourceLookupReference(DEFINITION_KIND, d.name, if f.Loaded? then "" else f.error)
    ensures IsAccounted(libs, configMaps, unreadable, d, entry)
  {
    var f := FetchOne(libs, configMaps, unreadable, d);
    UnusableHasError(libs, configMaps, unreadable, d);
    if f.Loaded? {
      LoadedExactly(libs, configMaps, unreadable, d, f.source);
    } else {
      UnusableExactly(libs, configMaps, unreadable, d, f.error);
      forall source ensures !LoadsAs(libs, configMaps, unreadable, d, source) {
        LoadedExactly(libs, configMaps, unreadable, d, source);
      }
    }
  }

  lemma UnusableHasError(libs: Libraries, configMaps: map<Key, ConfigMap>, unreadable: set<Key>, d: Key)
    ensures var f := FetchOne(libs, configMaps, unreadable, d); f.Unusable? ==> f.error != ""
  {}

  /** What a step stores is the document unified from the selected definitions that load. */
  lemma ProducedUnifies(libs: Libraries, w: Snapshot, s: Key, inputs: Inputs)
    returns (definitions: seq<Key>, sources: seq<Source>)
    requires Produced(libs, w, s, inputs).Some?
    ensures s in w.specifications && forall d | d in definitions :: d in w.definitions
    ensures SelectedBy(w, s, inputs) == Ok(definitions)
    ensures AreLoaded(libs, w.configMaps, inputs.unreadable, definitions, sources)
    ensures libs.marshal(Unified(w.specifications[s].head, sources)) == Ok(Produced(libs, w, s, inputs).value)
  {
    definitions := SelectedBy(w, s, inputs).value;
    SelectedByExactly(w, s, inputs);
    sources := LoadedFrom(libs, w.configMaps, inputs.unreadable, definitions);
  }

  lemma IndexOf<T>(s: seq<T>, x: T) returns (i: nat)
    requires x in s
    ensures i < |s| && s[i] == x
  {
    i :| 0 <= i < |s| && s[i] == x;
  }

  lemma LoadedDefinition(libs: Libraries, configMaps: map<Key, ConfigMap>, unreadable: set<Key>, definitions: seq<Key>,
                         sources: seq<Source>, source: Source) returns (d: Key)
    requires AreLoaded(libs, configMaps, unreadable, definitions, sources) && source in sources
    ensures d in definitions && LoadsAs(libs, configMaps, unreadable, d, source)
  {
    var order :| IsLoadOrder(libs, configMaps, unreadable, definitions, sources, order);
    var j := IndexOf(sources, source);
    d := definitions[order[j]];
  }

  /** The definitions a specification selects: those with the labels that are asked for, in picked namespaces. */
  lemma SelectedByExactly(w: Snapshot, s: Key, inputs: Inputs)
    requires s in w.specifications
    ensures var specification := w.specifications[s];
            && (SelectedBy(w, s, inputs).Ok? <==>
                  IsValid(specification.definitionSelector) && IsValid(specification.namespaceSelector) &&
                  (specification.namespaceSelector.Some? ==> inputs.definitions.namespaces) &&
                  forall n | n in inputs.definitions.refused ::
                    !IsPicked(w.namespaces, s.namespace, specification.namespaceSelector, n))
            && (SelectedBy(w, s, inputs).Ok? ==> forall d :: d in SelectedBy(w, s, inputs).value <==>
                  d in w.definitions && Matches(specification.definitionSelector, w.definitions[d].labels) &&
                  IsPicked(w.namespaces, s.namespace, specification.namespaceSelector, d.namespace))
  {
    var specification := w.specifications[s];
    SelectedExactly(w.namespaces, DefinitionLabels(w.definitions), s.namespace, specification.definitionSelector,
                    specification.namespaceSelector, inputs.definitions);
  }

  /** The document unified from the selected definitions that load is stored, encoded, whether the status is persisted
      or not, in the ConfigMap of the specification, which belongs to it; without one no ConfigMap changes. */
  lemma StoredForSpecification(libs: Libraries, w: Snapshot, s: Key, inputs: Inputs) returns (sources: seq<Source>)
    requires s in w.specifications && inputs.read && !w.specifications[s].suspend
    ensures var selected := SelectedBy(w, s, inputs);
            selected.Ok? ==> AreLoaded(libs, w.configMaps, inputs.unreadable, selected.value, sources)
    ensures AreSources(sources)
    ensures Stores(libs, w, s, inputs, sources, SpecificationStep(libs, w, s, inputs).configMaps)
  {
    sources := RunReports(libs, w, s, inputs);
  }

  ghost predicate Stores(libs: Libraries, w: Snapshot, s: Key, inputs: Inputs, sources: seq<Source>,
                         after: map<Key, ConfigMap>)
    requires s in w.specifications && AreSources(sources)
  {
    if !Panics(libs, w, s, inputs) &&
       IsUnified(libs, w.specifications[s].head, inputs, SelectedBy(w, s, inputs), sources)
    then IsStoredFor(w, s, libs.marshal(Unified(w.specifications[s].head, sources)).value, after)
    else after == w.configMaps
  }

  predicate IsStoredFor(w: Snapshot, s: Key, body: Bytes, after: map<Key, ConfigMap>)
    requires s in w.specifications
  {
    after == w.configMaps[Key(s.namespace, "swagger-specification-" + s.name) :=
      ConfigMap(map["definition.json" := body],
                [OwnerReference(s.name, w.specifications[s].uid, SPECIFICATION_KIND)])]
  }

  ghost predicate Panics(libs: Libraries, w: Snapshot, s: Key, inputs: Inputs)
    requires s in w.specifications
  {
    SelectedBy(w, s, inputs).Ok? && PanicsOn(libs, w.configMaps, inputs.unreadable, SelectedBy(w, s, inputs).value)
  }

  /** What a reconcile leaves. One that panics leaves everything as it was. Any other persisted one is ready exactly
      when the selection succeeds and the document unified from the definitions that load is encoded and
      written; and its catalog accounts for each selected definition. */
  lemma ReadyExactly(libs: Libraries, w: Snapshot, s: Key, inputs: Inputs) returns (sources: seq<Source>)
    requires s in w.specifications && inputs.read && !w.specifications[s].suspend && inputs.statusPatched
    ensures Panics(libs, w, s, inputs) ==> SpecificationStep(libs, w, s, inputs) == w
    ensures var selected := SelectedBy(w, s, inputs);
            selected.Ok? ==> AreLoaded(libs, w.configMaps, inputs.unreadable, selected.value, sources)
    ensures AreSources(sources)
    ensures var after, selected := SpecificationStep(libs, w, s, inputs).specifications, SelectedBy(w, s, inputs);
            !Panics(libs, w, s, inputs) ==>
              && s in after && after[s] == w.specifications[s].(status := after[s].status)
              && IsReport(libs, w, s, inputs, selected, sources, after[s].status)
  {
    sources := RunReports(libs, w, s, inputs);
    var run := Reconciled(libs, w, s, inputs);
    if !run.Aborted? {
      StatusReports(libs, w, s, inputs, SelectedBy(w, s, inputs), sources, run.outcome, run.catalog);
    }
  }

  lemma StatusReports(libs: Libraries, w: Snapshot, s: Key, inputs: Inputs, selected: Result<seq<Key>>,
                      sources: seq<Source>, outcome: Result<string>, catalog: seq<ResourceLookupReference>)
    requires s in w.specifications && AreSources(sources) && Accounts(libs, w, inputs, selected, catalog)
    requires outcome.Ok? ==> outcome.value == "configmap/" + ("swagger-specification-" + s.name) + " created"
    requires outcome.Ok? <==> IsUnified(libs, w.specifications[s].head, inputs, selected, sources)
    ensures IsReport(libs, w, s, inputs, selected, sources, SpecificationStatus(w.specifications[s], outcome, catalog))
  {
    var specification := w.specifications[s];
    PlainFinds(specification.status.conditions, specification.generation, outcome);
  }

  /** The same before the status is persisted. */
  lemma RunReports(libs: Libraries, w: Snapshot, s: Key, inputs: Inputs) returns (sources: seq<Source>)
    requires s in w.specifications
    ensures AreSources(sources) && (Panics(libs, w, s, inputs) <==> Reconciled(libs, w, s, inputs).Aborted?)
    ensures var selected := SelectedBy(w, s, inputs);
            selected.Ok? ==> AreLoaded(libs, w.configMaps, inputs.unreadable, selected.value, sources)
    ensures var run, selected := Reconciled(libs, w, s, inputs), SelectedBy(w, s, inputs);
            !run.Aborted? ==>
              && (run.outcome.Ok? ==>
                    run.outcome.value == "configmap/" + ("swagger-specification-" + s.name) + " created")
              && (run.outcome.Ok? <==> IsUnified(libs, w.specifications[s].head, inputs, selected, sources))
              && Accounts(libs, w, inputs, selected, run.catalog)
    ensures var run := Reconciled(libs, w, s, inputs);
            Stores(libs, w, s, inputs, sources, if run.Aborted? then w.configMaps else run.configMaps)
  {
    var specification, selected := w.specifications[s], SelectedBy(w, s, inputs);
    sources := [];
    if selected.Ok? {
      sources := GeneratedReports(libs, w.configMaps, inputs.unreadable, specification.head, selected.value);
      ConcludedReports(libs, w.configMaps, s, specification.uid, inputs,
                       Generate(libs, w.configMaps, inputs.unreadable, specification.head, selected.value,
                                Catalog(selected.value)));
    }
  }

  lemma ConcludedReports(libs: Libraries, configMaps: map<Key, ConfigMap>, s: Key, uid: string, inputs: Inputs,
                         generated: Option<Generated>)
    ensures var run := Concluded(libs, configMaps, s, uid, inputs, generated);
            && (run.Aborted? <==> generated.None?)
            && (generated.Some? ==> run.catalog == generated.value.catalog)
            && (generated.Some? && run.outcome.Err? ==> run.configMaps == configMaps)
            && (generated.Some? && run.outcome.Ok? ==>
                  run.configMaps == Storing(configMaps, s, uid, libs.marshal(generated.value.document).value))
            && (generated.Some? && run.outcome.Ok? ==>
                  run.outcome.value == "configmap/" + ("swagger-specification-" + s.name) + " created")
            && (generated.Some? ==>
                  (run.outcome.Ok? <==> libs.marshal(generated.value.document).Ok? && inputs.written))
  {}

  lemma GeneratedReports(libs: Libraries, configMaps: map<Key, ConfigMap>, unreadable: set<Key>, head: Head,
                         definitions: seq<Key>) returns (sources: seq<Source>)
    ensures AreLoaded(libs, configMaps, unreadable, definitions, sources)
    ensures var generated := Generate(libs, configMaps, unreadable, head, definitions, Catalog(definitions));
            && (generated.None? <==> PanicsOn(libs, configMaps, unreadable, definitions))
            && (generated.Some? ==>
                  generated.value.document == Unified(head, sources) &&
                  AccountFor(libs, configMaps, unreadable, definitions, generated.value.catalog))
  {
    GenerateNeeds(libs, configMaps, unreadable, head, definitions);
    if Generate(libs, configMaps, unreadable, head, definitions, Catalog(definitions)).Some? {
      sources := ErrorsAccounted(libs, configMaps, unreadable, head, definitions);
    } else {
      sources := LoadedFrom(libs, configMaps, unreadable, definitions);
    }
  }

  /** The document unified from the sources is encoded and written. */
  predicate IsUnified(libs: Libraries, head: Head, inputs: Inputs, selected: Result<seq<Key>>, sources: seq<Source>)
    requires AreSources(sources)
  {
    selected.Ok? && libs.marshal(Unified(head, sources)).Ok? && inputs.written
  }

  /** The catalog accounts for the selected definitions, one after the other. */
  ghost predicate Accounts(libs: Libraries, w: Snapshot, inputs: Inputs, selected: Result<seq<Key>>,
                           catalog: seq<ResourceLookupReference>) {
    && (selected.Err? ==> catalog == [])
    && (selected.Ok? ==> AccountFor(libs, w.configMaps, inputs.unreadable, selected.value, catalog))
  }

  ghost predicate IsReport(libs: Libraries, w: Snapshot, s: Key, inputs: Inputs, selected: Result<seq<Key>>,
                           sources: seq<Source>, status: Status<ResourceLookupReference>)
    requires s in w.specifications && AreSources(sources)
  {
    && status.observedGeneration == w.specifications[s].generation
    && Find(status.conditions, READY).Some?
    && (IsTrue(status.conditions, READY) ==>
          Find(status.conditions, READY).value.message ==
              "configmap/" + ("swagger-specification-" + s.name) + " created")
    && (IsTrue(status.conditions, READY) <==> IsUnified(libs, w.specifications[s].head, inputs, selected, sources))
    && Accounts(libs, w, inputs, selected, status.catalog)
  }

  lemma LoadedFrom(libs: Libraries, configMaps: map<Key, ConfigMap>, unreadable: set<Key>, definitions: seq<Key>)
    returns (sources: seq<Source>)
    ensures var fetched := FetchAll(libs, configMaps, unreadable, definitions);
            (forall f | f in fetched :: f.Loaded? ==> IsSource(f.source)) && sources == Sources(fetched)
    ensures AreLoaded(libs, configMaps, unreadable, definitions, sources)
  {
    var fetched := FetchAll(libs, configMaps, unreadable, definitions);
    FetchedAreSources(libs, configMaps, unreadable, definitions);
    sources := Sources(fetched);
    var order := SourcesInOrder(fetched);
    forall i, source | 0 <= i < |definitions|
      ensures fetched[i] == Loaded(source) <==> LoadsAs(libs, configMaps, unreadable, definitions[i], source)
    {
      LoadedExactly(libs, configMaps, unreadable, definitions[i], source);
    }
    assert IsLoadOrder(libs, configMaps, unreadable, definitions, sources, order);
  }
}
