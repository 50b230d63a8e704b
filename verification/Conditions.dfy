/** Status conditions, and what each reconciler makes of them. */
module Conditions {
  import opened Wrappers

  datatype Condition = Condition(kind: string, status: string, reason: string, message: string, observedGeneration: int)

  const READY := "Ready"
  const RECONCILING := "Reconciling"
  const HEALTHY := "Healthy"
  const TRUE := "True"
  const FALSE := "False"

  /** The status of a resource; a catalog entry is of type `T`. */
  datatype Status<T> = Status(conditions: seq<Condition>, observedGeneration: int, catalog: seq<T>)

  function Find(conditions: seq<Condition>, kind: string): Option<Condition> {
    if conditions == [] then None
    else if conditions[0].kind == kind then Some(conditions[0])
    else Find(conditions[1..], kind)
  }

  /** `SetStatusCondition`: replaces the condition of that type, or appends it. */
  function Put(conditions: seq<Condition>, c: Condition): seq<Condition> {
    if conditions == [] then [c]
    else if conditions[0].kind == c.kind then [c] + conditions[1..]
    else [conditions[0]] + Put(conditions[1..], c)
  }

  /** `conditions.Delete`. */
  function Drop(conditions: seq<Condition>, kind: string): seq<Condition> {
    if conditions == [] then []
    else (if conditions[0].kind == kind then [] else [conditions[0]]) + Drop(conditions[1..], kind)
  }

  predicate UniqueKinds(conditions: seq<Condition>) {
    conditions == [] || (Find(conditions[1..], conditions[0].kind).None? && UniqueKinds(conditions[1..]))
  }

  lemma {:induction false} PutFinds(conditions: seq<Condition>, c: Condition, kind: string)
    ensures Find(Put(conditions, c), kind) == if kind == c.kind then Some(c) else Find(conditions, kind)
  {
    if conditions != [] {
      if conditions[0].kind == c.kind {
        assert ([c] + conditions[1..])[1..] == conditions[1..];
      } else {
        PutFinds(conditions[1..], c, kind);
        assert ([conditions[0]] + Put(conditions[1..], c))[1..] == Put(conditions[1..], c);
      }
    }
  }

  lemma {:induction false} DropFinds(conditions: seq<Condition>, dropped: string, kind: string)
    ensures Find(Drop(conditions, dropped), kind) == if kind == dropped then None else Find(conditions, kind)
  {
    if conditions != [] {
      DropFinds(conditions[1..], dropped, kind);
      if conditions[0].kind == dropped {
        assert [] + Drop(conditions[1..], dropped) == Drop(conditions[1..], dropped);
      } else {
        assert ([conditions[0]] + Drop(conditions[1..], dropped))[1..] == Drop(conditions[1..], dropped);
      }
    }
  }

  lemma {:induction false} PutUnique(conditions: seq<Condition>, c: Condition)
    requires UniqueKinds(conditions)
    ensures UniqueKinds(Put(conditions, c))
  {
    if conditions != [] {
      if conditions[0].kind == c.kind {
        assert ([c] + conditions[1..])[1..] == conditions[1..];
      } else {
        PutUnique(conditions[1..], c);
        PutFinds(conditions[1..], c, conditions[0].kind);
        assert ([conditions[0]] + Put(conditions[1..], c))[1..] == Put(conditions[1..], c);
      }
    }
  }

  lemma {:induction false} DropUnique(conditions: seq<Condition>, kind: string)
    requires UniqueKinds(conditions)
    ensures UniqueKinds(Drop(conditions, kind))
  {
    if conditions != [] {
      DropUnique(conditions[1..], kind);
      if conditions[0].kind == kind {
        assert [] + Drop(conditions[1..], kind) == Drop(conditions[1..], kind);
      } else {
        DropFinds(conditions[1..], kind, conditions[0].kind);
        assert ([conditions[0]] + Drop(conditions[1..], kind))[1..] == Drop(conditions[1..], kind);
      }
    }
  }

  // ---- The conditions each reconciler writes --------------------------------------------------

  function Ready(status: string, reason: string, message: string, generation: int): Condition {
    Condition(READY, status, reason, message, generation)
  }

  function Succeeded(message: string, generation: int): Condition {
    Ready(TRUE, "ReconciliationSuccessful", message, generation)
  }

  function Failure(message: string, generation: int): Condition {
    Ready(FALSE, "ReconciliationFailed", message, generation)
  }

  /** The definition and specification reconcilers only ever set `Ready`. */
  function PlainConditions(conditions: seq<Condition>, generation: int, result: Result<string>): seq<Condition> {
    match result
    case Err(e) => Put(conditions, Failure(e, generation))
    case Ok(message) => Put(conditions, Succeeded(message, generation))
  }

  /** How a hub reconcile ends. */
  datatype HubOutcome = Failed(error: string) | NoEndpoint | Deployed(message: string)

  const UNHEALTHY := "health check failed; no endpoint is ready"
  const HEALTHY_MESSAGE := "health check passed; at least one endpoint is ready"

  function Started(conditions: seq<Condition>, wait: bool, generation: int): seq<Condition> {
    if wait then Put(conditions, Condition(RECONCILING, TRUE, "Progressing", "", generation)) else conditions
  }

  function Checked(conditions: seq<Condition>, wait: bool, generation: int): seq<Condition> {
    if wait then Put(conditions, Condition(HEALTHY, TRUE, "EndpointReady", HEALTHY_MESSAGE, generation))
    else Drop(conditions, HEALTHY)
  }

  /** Lines 233-240, 276-280 and 582-604 of the hub controller. */
  function HubConditions(conditions: seq<Condition>, wait: bool, generation: int, outcome: HubOutcome): seq<Condition> {
    var started := Started(conditions, wait, generation);
    match outcome
    case Failed(e) => Put(started, Failure(e, generation))
    case NoEndpoint =>
      Put(Put(started, Condition(HEALTHY, FALSE, "NoEndpointReady", UNHEALTHY, generation)),
          Failure(UNHEALTHY, generation))
    case Deployed(message) =>
      Put(Drop(Checked(started, wait, generation), RECONCILING), Succeeded(message, generation))
  }

  // ---- Invariants -----------------------------------------------------------------------------

  /** Types are unique, and `Ready` was written for the observed generation. */
  predicate StatusSound<T>(status: Status<T>, generation: int) {
    && UniqueKinds(status.conditions)
    && status.observedGeneration <= generation
    && (Find(status.conditions, READY).Some? ==>
          Find(status.conditions, READY).value.observedGeneration == status.observedGeneration)
  }

  predicate IsTrue(conditions: seq<Condition>, kind: string) {
    Find(conditions, kind).Some? && Find(conditions, kind).value.status == TRUE
  }

  /** A ready hub is not reconciling, and not unhealthy. */
  predicate ReadyMeansSettled(conditions: seq<Condition>) {
    IsTrue(conditions, READY) ==>
      Find(conditions, RECONCILING).None? && (Find(conditions, HEALTHY).None? || IsTrue(conditions, HEALTHY))
  }

  lemma PlainKeeps(conditions: seq<Condition>, generation: int, result: Result<string>)
    requires UniqueKinds(conditions)
    ensures var after := PlainConditions(conditions, generation, result);
            && UniqueKinds(after)
            && Find(after, READY).Some? && Find(after, READY).value.observedGeneration == generation
            && (IsTrue(after, READY) <==> result.Ok?)
            && forall kind :: kind != READY ==> Find(after, kind) == Find(conditions, kind)
  {
    var c := match result case Err(e) => Failure(e, generation) case Ok(m) => Succeeded(m, generation);
    PutUnique(conditions, c);
    forall kind { PutFinds(conditions, c, kind); }
  }

  lemma StartedKeeps(conditions: seq<Condition>, wait: bool, generation: int)
    requires UniqueKinds(conditions)
    ensures UniqueKinds(Started(conditions, wait, generation))
    ensures forall kind :: kind != RECONCILING ==>
              Find(Started(conditions, wait, generation), kind) == Find(conditions, kind)
  {
    var c := Condition(RECONCILING, TRUE, "Progressing", "", generation);
    PutUnique(conditions, c);
    forall kind { PutFinds(conditions, c, kind); }
  }

  lemma CheckedKeeps(conditions: seq<Condition>, wait: bool, generation: int)
    requires UniqueKinds(conditions)
    ensures UniqueKinds(Checked(conditions, wait, generation))
    ensures wait ==> IsTrue(Checked(conditions, wait, generation), HEALTHY)
    ensures !wait ==> Find(Checked(conditions, wait, generation), HEALTHY).None?
  {
    var c := Condition(HEALTHY, TRUE, "EndpointReady", HEALTHY_MESSAGE, generation);
    PutUnique(conditions, c);
    DropUnique(conditions, HEALTHY);
    PutFinds(conditions, c, HEALTHY);
    DropFinds(conditions, HEALTHY, HEALTHY);
  }

  /** Every way a hub reconcile can end leaves unique types, a `Ready` condition of this generation that
      is true exactly when the hub was deployed, and no ready hub that is reconciling or unhealthy. */
  lemma HubKeeps(conditions: seq<Condition>, wait: bool, generation: int, outcome: HubOutcome)
    requires UniqueKinds(conditions)
    ensures var after := HubConditions(conditions, wait, generation, outcome);
            && UniqueKinds(after)
            && Find(after, READY).Some? && Find(after, READY).value.observedGeneration == generation
            && (IsTrue(after, READY) <==> outcome.Deployed?)
            && ReadyMeansSettled(after)
  {
    var started := Started(conditions, wait, generation);
    StartedKeeps(conditions, wait, generation);
    match outcome
    case Failed(e) =>
      PutUnique(started, Failure(e, generation));
      PutFinds(started, Failure(e, generation), READY);
    case NoEndpoint =>
      var c := Condition(HEALTHY, FALSE, "NoEndpointReady", UNHEALTHY, generation);
      PutUnique(started, c);
      PutUnique(Put(started, c), Failure(UNHEALTHY, generation));
      PutFinds(Put(started, c), Failure(UNHEALTHY, generation), READY);
    case Deployed(message) =>
      var checked := Checked(started, wait, generation);
      CheckedKeeps(started, wait, generation);
      DropUnique(checked, RECONCILING);
      PutUnique(Drop(checked, RECONCILING), Succeeded(message, generation));
      DropPutFinds(checked, RECONCILING, Succeeded(message, generation));
  }

  /** What each condition is after a hub reconcile; conditions of other types stay. */
  lemma HubConditionsExactly(conditions: seq<Condition>, wait: bool, generation: int, outcome: HubOutcome, kind: string)
    ensures var after := Find(HubConditions(conditions, wait, generation, outcome), kind);
            var before := Find(conditions, kind);
            if kind == READY then
              match outcome
              case Failed(e) => after == Some(Condition(READY, FALSE, "ReconciliationFailed", e, generation))
              case NoEndpoint => after == Some(Condition(READY, FALSE, "ReconciliationFailed", UNHEALTHY, generation))
              case Deployed(m) => after == Some(Condition(READY, TRUE, "ReconciliationSuccessful", m, generation))
            else if kind == RECONCILING then
              after == if outcome.Deployed? then None
                       else if wait then Some(Condition(RECONCILING, TRUE, "Progressing", "", generation))
                       else before
            else if kind == HEALTHY then
              match outcome
              case Failed(_) => after == before
              case NoEndpoint => after.Some? && after.value.status == FALSE
              case Deployed(_) => if wait then after.Some? && after.value.status == TRUE else after == None
            else after == before
  {
    var started := Started(conditions, wait, generation);
    PutFinds(conditions, Condition(RECONCILING, TRUE, "Progressing", "", generation), kind);
    match outcome
    case Failed(e) => PutFinds(started, Failure(e, generation), kind);
    case NoEndpoint =>
      var unhealthy := Condition(HEALTHY, FALSE, "NoEndpointReady", UNHEALTHY, generation);
      PutFinds(started, unhealthy, kind);
      PutFinds(Put(started, unhealthy), Failure(UNHEALTHY, generation), kind);
    case Deployed(message) =>
      PutFinds(started, Condition(HEALTHY, TRUE, "EndpointReady", HEALTHY_MESSAGE, generation), kind);
      DropFinds(started, HEALTHY, kind);
      DropPutFinds(Checked(started, wait, generation), RECONCILING, Succeeded(message, generation));
  }

  lemma DropPutFinds(conditions: seq<Condition>, dropped: string, c: Condition)
    ensures forall kind :: Find(Put(Drop(conditions, dropped), c), kind) ==
              if kind == c.kind then Some(c) else if kind == dropped then None else Find(conditions, kind)
  {
    forall kind
      ensures Find(Put(Drop(conditions, dropped), c), kind) ==
              if kind == c.kind then Some(c) else if kind == dropped then None else Find(conditions, kind)
    {
      DropFinds(conditions, dropped, kind);
      PutFinds(Drop(conditions, dropped), c, kind);
    }
  }

  // ---- A second reconcile with the same outcome changes nothing -------------------------------

  lemma {:induction false} PutSame(conditions: seq<Condition>, c: Condition)
    requires Find(conditions, c.kind) == Some(c)
    ensures Put(conditions, c) == conditions
  {
    if conditions[0].kind != c.kind {
      PutSame(conditions[1..], c);
    }
  }

  lemma {:induction false} DropSame(conditions: seq<Condition>, kind: string)
    requires Find(conditions, kind).None?
    ensures Drop(conditions, kind) == conditions
  {
    if conditions != [] {
      DropSame(conditions[1..], kind);
    }
  }

  lemma PlainFinds(conditions: seq<Condition>, generation: int, result: Result<string>)
    ensures var ready := Find(PlainConditions(conditions, generation, result), READY);
            && ready.Some? && ready.value.observedGeneration == generation
            && ready.value.status == (if result.Ok? then TRUE else FALSE)
            && ready.value.message == (if result.Ok? then result.value else result.error)
  {
    var c := match result case Err(e) => Failure(e, generation) case Ok(m) => Succeeded(m, generation);
    PutFinds(conditions, c, READY);
  }

  lemma PlainConditionsStable(conditions: seq<Condition>, generation: int, result: Result<string>)
    ensures var after := PlainConditions(conditions, generation, result);
            PlainConditions(after, generation, result) == after
  {
    var c := match result case Err(e) => Failure(e, generation) case Ok(m) => Succeeded(m, generation);
    PutFinds(conditions, c, READY);
    PutSame(Put(conditions, c), c);
  }

  /** A condition put where there was none is the one that dropping its type takes away. */
  lemma {:induction false} DropPut(conditions: seq<Condition>, c: Condition)
    requires Find(conditions, c.kind).None?
    ensures Drop(Put(conditions, c), c.kind) == conditions
  {
    if conditions == [] {
      assert Drop([c], c.kind) == [] + Drop([c][1..], c.kind);
    } else {
      assert ([conditions[0]] + Put(conditions[1..], c))[1..] == Put(conditions[1..], c);
      DropPut(conditions[1..], c);
    }
  }

  /** Reconciling a hub again, with the same outcome, leaves its conditions as they are, in their order. */
  lemma HubConditionsStable(conditions: seq<Condition>, wait: bool, generation: int, outcome: HubOutcome)
    ensures var after := HubConditions(conditions, wait, generation, outcome);
            HubConditions(after, wait, generation, outcome) == after
  {
    var started := Started(conditions, wait, generation);
    var after := HubConditions(conditions, wait, generation, outcome);
    var reconciling := Condition(RECONCILING, TRUE, "Progressing", "", generation);
    PutFinds(conditions, reconciling, RECONCILING);
    match outcome
    case Failed(e) =>
      var ready := Failure(e, generation);
      PutFinds(started, ready, RECONCILING);
      PutFinds(started, ready, READY);
      if wait { PutSame(after, reconciling); }
      PutSame(after, ready);
    case NoEndpoint =>
      var unhealthy := Condition(HEALTHY, FALSE, "NoEndpointReady", UNHEALTHY, generation);
      var ready := Failure(UNHEALTHY, generation);
      PutFinds(started, unhealthy, RECONCILING);
      PutFinds(started, unhealthy, HEALTHY);
      PutFinds(Put(started, unhealthy), ready, RECONCILING);
      PutFinds(Put(started, unhealthy), ready, HEALTHY);
      PutFinds(Put(started, unhealthy), ready, READY);
      if wait { PutSame(after, reconciling); }
      PutSame(after, unhealthy);
      PutSame(after, ready);
    case Deployed(message) => DeployedStable(conditions, wait, generation, message);
  }

  lemma DeployedStable(conditions: seq<Condition>, wait: bool, generation: int, message: string)
    ensures var after := HubConditions(conditions, wait, generation, Deployed(message));
            HubConditions(after, wait, generation, Deployed(message)) == after
  {
    var started := Started(conditions, wait, generation);
    var checked := Checked(started, wait, generation);
    var ready := Succeeded(message, generation);
    var after := Put(Drop(checked, RECONCILING), ready);
    DropPutFinds(checked, RECONCILING, ready);
    var healthy := Condition(HEALTHY, TRUE, "EndpointReady", HEALTHY_MESSAGE, generation);
    if wait {
      PutFinds(started, healthy, HEALTHY);
      var reconciling := Condition(RECONCILING, TRUE, "Progressing", "", generation);
      PutFinds(after, reconciling, HEALTHY);
      PutSame(Put(after, reconciling), healthy);
      DropPut(after, reconciling);
    } else {
      DropFinds(started, HEALTHY, HEALTHY);
      DropSame(after, HEALTHY);
      DropSame(after, RECONCILING);
    }
    PutSame(after, ready);
  }
}
