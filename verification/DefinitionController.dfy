/** The definition reconciler: fetch a document, store it in a ConfigMap. */
module DefinitionController {
  import opened Wrappers
  import opened Objects
  import opened Conditions
  import opened Cluster
  import opened Publishing

  /** What the environment decides: the reads and writes that succeed, and what the fetch returns. */
  datatype Inputs = Inputs(read: bool, fetched: Result<Bytes>, written: bool, statusPatched: bool)

  /** The ConfigMaps once the definition's own one is created or updated. */
  function Storing(configMaps: map<Key, ConfigMap>, d: Key, uid: string, body: Bytes): map<Key, ConfigMap> {
    configMaps[DefinitionStore(d) := Stored(d, uid, DEFINITION_KIND, body)]
  }

  /** The result of `reconcile`; `Ok` with the message of the `Ready` condition. */
  function Outcome(d: Key, definition: Definition, inputs: Inputs): Result<string> {
    if definition.url.None? then Err("url is required")
    else
      match inputs.fetched
      case Err(e) => Err("failed to fetch definition: " + e)
      case Ok(body) =>
        if !inputs.written then Err(REQUEST_FAILED)
        else Ok("configmap/" + DefinitionConfigMap(d.name) + " created")
  }

  function DefinitionStatus(definition: Definition, outcome: Result<string>): Status<()> {
    Status(PlainConditions(definition.status.conditions, definition.generation, outcome), definition.generation,
           definition.status.catalog)
  }

  /** `Reconcile` of the definition controller. */
  function DefinitionStep(w: Snapshot, d: Key, inputs: Inputs): Snapshot {
    if d !in w.definitions || !inputs.read || w.definitions[d].suspend then w
    else
      var definition := w.definitions[d];
      var outcome := Outcome(d, definition, inputs);
      var w1 := if outcome.Ok?
                then w.(configMaps := Storing(w.configMaps, d, definition.uid, inputs.fetched.value))
                else w;
      if !inputs.statusPatched then w1
      else w1.(definitions := w.definitions[d := definition.(status := DefinitionStatus(definition, outcome))])
  }

  /** What a step may write: its own ConfigMap and its own status. */
  ghost predicate Writes(w: Snapshot, after: Snapshot, d: Key) {
    && after == w.(configMaps := after.configMaps, definitions := after.definitions)
    && after.configMaps - {DefinitionStore(d)} == w.configMaps - {DefinitionStore(d)}
    && (after.definitions == w.definitions ||
        (d in w.definitions && exists outcome ::
            after.definitions ==
            w.definitions[d := w.definitions[d].(status := DefinitionStatus(w.definitions[d], outcome))]))
  }

  lemma StepWrites(w: Snapshot, d: Key, inputs: Inputs)
    ensures Writes(w, DefinitionStep(w, d, inputs), d)
  {}

  /** Nothing happens for a definition that is gone, unreadable or suspended,
      and a status that is not persisted stays. */
  lemma StepKeeps(w: Snapshot, d: Key, inputs: Inputs)
    ensures d !in w.definitions || !inputs.read || w.definitions[d].suspend ==> DefinitionStep(w, d, inputs) == w
    ensures !inputs.statusPatched ==> DefinitionStep(w, d, inputs).definitions == w.definitions
  {}

  /** The body of a fetch that a step stores. */
  function Produced(w: Snapshot, d: Key, inputs: Inputs): Option<Bytes> {
    if d in w.definitions && inputs.read && !w.definitions[d].suspend && w.definitions[d].url.Some? &&
       inputs.fetched.Ok? && inputs.written
    then Some(inputs.fetched.value)
    else None
  }

  lemma StepStores(w: Snapshot, d: Key, inputs: Inputs)
    ensures DefinitionStep(w, d, inputs).configMaps ==
            match Produced(w, d, inputs)
            case None => w.configMaps
            case Some(body) => Storing(w.configMaps, d, w.definitions[d].uid, body)
  {}

  /** A fetched body is stored, whether the status is persisted or not, in the ConfigMap of the definition,
      which belongs
      to it; without one no ConfigMap changes. */
  lemma StoredForDefinition(w: Snapshot, d: Key, inputs: Inputs)
    requires d in w.definitions && inputs.read && !w.definitions[d].suspend
    ensures var after := DefinitionStep(w, d, inputs).configMaps;
            if w.definitions[d].url.Some? && inputs.fetched.Ok? && inputs.written
            then after == w.configMaps[Key(d.namespace, "swagger-definition-" + d.name) :=
                   ConfigMap(map["definition.json" := inputs.fetched.value],
                             [OwnerReference(d.name, w.definitions[d].uid, DEFINITION_KIND)])]
            else after == w.configMaps
  {}

  /** A persisted reconcile is ready exactly when the definition has a url, the fetch succeeded, and the ConfigMap was
      written; the status is of this generation. */
  lemma ReadyExactly(w: Snapshot, d: Key, inputs: Inputs)
    requires d in w.definitions && inputs.read && !w.definitions[d].suspend && inputs.statusPatched
    ensures var after := DefinitionStep(w, d, inputs).definitions;
            && d in after && after[d] == w.definitions[d].(status := after[d].status)
            && after[d].status.observedGeneration == w.definitions[d].generation
            && Find(after[d].status.conditions, READY).Some?
            && (IsTrue(after[d].status.conditions, READY) <==>
                  w.definitions[d].url.Some? && inputs.fetched.Ok? && inputs.written)
            && (IsTrue(after[d].status.conditions, READY) ==>
                  Find(after[d].status.conditions, READY).value.message ==
                  "configmap/" + ("swagger-definition-" + d.name) + " created")
  {
    var definition := w.definitions[d];
    var outcome := Outcome(d, definition, inputs);
    PlainFinds(definition.status.conditions, definition.generation, outcome);
  }

  /** Fetching the same bytes again changes nothing. */
  lemma DefinitionIsFixpoint(w: Snapshot, d: Key, inputs: Inputs)
    ensures DefinitionStep(DefinitionStep(w, d, inputs), d, inputs) == DefinitionStep(w, d, inputs)
  {
    if d in w.definitions {
      var definition := w.definitions[d];
      PlainConditionsStable(definition.status.conditions, definition.generation, Outcome(d, definition, inputs));
    }
  }

  method Reconcile(c: ApiServer, d: Key, inputs: Inputs)
    modifies c
    ensures c.View() == DefinitionStep(old(c.View()), d, inputs)
  {
    if d !in c.definitions || !inputs.read || c.definitions[d].suspend {
      return;
    }
    var definition := c.definitions[d];
    var status, outcome := Store(c, d, definition, inputs);
    status := status.(observedGeneration := definition.generation);
    if outcome.Err? {
      status := status.(conditions := Put(status.conditions, Failure(outcome.error, definition.generation)));
    }
    definition := definition.(status := status);
    if inputs.statusPatched {
      c.definitions := c.definitions[d := definition];
    }
  }

  /** `reconcile`: create and update both leave the ConfigMap as it is desired. The status is ready when it
      succeeds, and else still what it was. */
  method Store(c: ApiServer, d: Key, definition: Definition, inputs: Inputs)
    returns (status: Status<()>, outcome: Result<string>)
    modifies c`configMaps
    ensures outcome == Outcome(d, definition, inputs)
    ensures c.configMaps == if outcome.Ok?
                            then Storing(old(c.configMaps), d, definition.uid, inputs.fetched.value)
                            else old(c.configMaps)
    ensures status == definition.status.(conditions :=
              if outcome.Ok? then PlainConditions(definition.status.conditions, definition.generation, outcome)
              else definition.status.conditions)
  {
    status := definition.status;
    if definition.url.None? {
      return status, Err("url is required");
    }
    if inputs.fetched.Err? {
      return status, Err("failed to fetch definition: " + inputs.fetched.error);
    }
    var cm := Stored(d, definition.uid, DEFINITION_KIND, inputs.fetched.value);
    if !inputs.written {
      return status, Err(REQUEST_FAILED);
    }
    c.configMaps := c.configMaps[DefinitionStore(d) := cm];
    var message := "configmap/" + DefinitionConfigMap(d.name) + " created";
    status := status.(conditions := Put(status.conditions, Succeeded(message, definition.generation)));
    outcome := Ok(message);
  }
}
