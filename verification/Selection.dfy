/** Selecting objects by label and namespace, and the watch mappers that must agree with it. */
module Selection {
  import opened Wrappers
  import opened Objects
  import opened Selectors
  import opened Cluster

  // ---- The `extend...` functions --------------------------------------------------------------

  /** `slices.SortFunc` on distinct keys: the canonical list, whatever the order of the items. */
  method SortKeys(items: seq<Key>) returns (sorted: seq<Key>)
    requires forall i, j | 0 <= i < j < |items| :: items[i] != items[j]
    ensures sorted == Canonical(Elements(items))
  {
    sorted := [];
    for i := 0 to |items|
      invariant IsCanonical(sorted, Elements(items[..i]))
    {
      assert items[i] !in sorted by { assert items[i] !in Elements(items[..i]); }
      InsertSorts(sorted, items[i]);
      sorted := Insert(sorted, items[i]);
      assert items[..i + 1] == items[..i] + [items[i]];
      assert Elements(items[..i + 1]) == Elements(items[..i]) + {items[i]};
    }
    assert items[..|items|] == items;
    CanonicalUnique(sorted, Canonical(Elements(items)));
  }

  /** `List` in one namespace; the API server returns the items in any order. */
  method ListInNamespace(objects: map<Key, Labels>, namespace: string, selector: Option<LabelSelector>)
    returns (items: seq<Key>)
    ensures Elements(items) == SelectedKeys(objects, {namespace}, selector)
    ensures forall i, j | 0 <= i < j < |items| :: items[i] != items[j]
  {
    items := [];
    var todo := SelectedKeys(objects, {namespace}, selector);
    while todo != {}
      invariant Elements(items) !! todo
      invariant Elements(items) + todo == SelectedKeys(objects, {namespace}, selector)
      invariant forall i, j | 0 <= i < j < |items| :: items[i] != items[j]
      decreases todo
    {
      var k :| k in todo;
      assert k !in Elements(items);
      assert Elements(items + [k]) == Elements(items) + {k};
      items := items + [k];
      todo := todo - {k};
    }
  }

  /** The selection of `extendhubWithDefinitions`, `extendhubWithSpecifications` and
      `extendSpecificationWithDefinitions`: an error for an invalid selector or a failed listing,
      otherwise the canonical list of the selected objects, whatever order they are listed in. */
  method Extend(namespaces: map<string, Labels>, objects: map<Key, Labels>, own: string,
                selector: Option<LabelSelector>, namespaceSelector: Option<LabelSelector>, listing: Listing)
    returns (r: Result<seq<Key>>)
    ensures r == Selected(namespaces, objects, own, selector, namespaceSelector, listing)
  {
    if !IsValid(selector) || !IsValid(namespaceSelector) {
      return Err(INVALID_SELECTOR);
    }
    if namespaceSelector.Some? && !listing.namespaces {
      return Err(LIST_FAILED);
    }
    var todo := SelectedNamespaces(namespaces, namespaceSelector, own);
    ghost var done: set<string> := {};
    var items: seq<Key> := [];
    while todo != {}
      invariant done !! todo && done + todo == SelectedNamespaces(namespaces, namespaceSelector, own)
      invariant done !! listing.refused
      invariant Elements(items) == SelectedKeys(objects, done, selector)
      invariant forall i, j | 0 <= i < j < |items| :: items[i] != items[j]
      decreases todo
    {
      var n :| n in todo;
      if n in listing.refused {
        return Err(LIST_FAILED);
      }
      var more := ListInNamespace(objects, n, selector);
      AppendDistinct(items, more);
      items := items + more;
      todo := todo - {n};
      done := done + {n};
    }
    var sorted := SortKeys(items);
    r := Ok(sorted);
  }

  lemma AppendDistinct(a: seq<Key>, b: seq<Key>)
    requires Elements(a) !! Elements(b)
    requires forall i, j | 0 <= i < j < |a| :: a[i] != a[j]
    requires forall i, j | 0 <= i < j < |b| :: b[i] != b[j]
    ensures Elements(a + b) == Elements(a) + Elements(b)
    ensures forall i, j | 0 <= i < j < |a + b| :: (a + b)[i] != (a + b)[j]
  {
    assert forall k | k in a :: k in Elements(a);
    assert forall k | k in b :: k in Elements(b);
    forall i, j | 0 <= i < |a| <= j < |a + b| ensures (a + b)[i] != (a + b)[j] {
      assert (a + b)[i] in a && (a + b)[j] in b;
    }
  }

  /** Which of the listings of a selection the API server answers: that of the namespaces, and that of
      the objects in each namespace. */
  datatype Listing = Listing(namespaces: bool, refused: set<string>)

  const ALL_LISTED := Listing(true, {})

  predicate Lists(listing: Listing, namespaceSelector: Option<LabelSelector>, selected: set<string>) {
    (namespaceSelector.Some? ==> listing.namespaces) && selected !! listing.refused
  }

  const INVALID_SELECTOR := "invalid label selector"
  const LIST_FAILED := "listing failed"

  ghost function Selected(namespaces: map<string, Labels>, objects: map<Key, Labels>, own: string,
                          selector: Option<LabelSelector>, namespaceSelector: Option<LabelSelector>, listing: Listing)
    : Result<seq<Key>>
  {
    if !IsValid(selector) || !IsValid(namespaceSelector) then Err(INVALID_SELECTOR)
    else if !Lists(listing, namespaceSelector, SelectedNamespaces(namespaces, namespaceSelector, own))
    then Err(LIST_FAILED)
    else Ok(Canonical(SelectedKeys(objects, SelectedNamespaces(namespaces, namespaceSelector, own), selector)))
  }

  /** The namespace selector picks the namespace; without one only the selecting resource's own is picked. */
  predicate IsPicked(namespaces: map<string, Labels>, own: string, namespaceSelector: Option<LabelSelector>,
                     namespace: string) {
    if namespaceSelector.None? then namespace == own
    else namespace in namespaces && Matches(namespaceSelector, namespaces[namespace])
  }

  /** A selection succeeds exactly when both selectors are valid and each listing it needs is answered; it then has
      exactly the objects in picked namespaces with the labels that are asked for, by name and then by namespace. */
  lemma SelectedExactly(namespaces: map<string, Labels>, objects: map<Key, Labels>, own: string,
                        selector: Option<LabelSelector>, namespaceSelector: Option<LabelSelector>, listing: Listing)
    ensures var r := Selected(namespaces, objects, own, selector, namespaceSelector, listing);
            && (r.Ok? <==> IsValid(selector) && IsValid(namespaceSelector) &&
                           (namespaceSelector.Some? ==> listing.namespaces) &&
                           forall n | n in listing.refused :: !IsPicked(namespaces, own, namespaceSelector, n))
            && (r.Ok? ==> IsSorted(r.value) && forall o :: o in r.value <==>
                  o in objects && Matches(selector, objects[o]) &&
                  IsPicked(namespaces, own, namespaceSelector, o.namespace))
  {
    var picked := SelectedNamespaces(namespaces, namespaceSelector, own);
    var keys := SelectedKeys(objects, picked, selector);
    assert forall o :: o in Canonical(keys) <==> o in Elements(Canonical(keys));
  }

  // ---- The watch mappers ----------------------------------------------------------------------

  /** Which of the hub's selectors a mapper looks at. */
  datatype Watched = WatchedDefinitions | WatchedSpecifications

  function SelectorOf(hub: Hub, watched: Watched): Option<LabelSelector> {
    match watched
    case WatchedDefinitions => hub.definitionSelector
    case WatchedSpecifications => hub.specificationSelector
  }

  /** What the API server does with the listings of a hub mapper: the hubs, and the namespaces of a hub. */
  datatype MapperListing = MapperListing(hubs: bool, refused: set<Key>)

  /** The mapper gives up on a hub: its namespace selector is invalid, or its namespaces are not listed. */
  predicate GivesUp(h: Key, hub: Hub, listing: MapperListing) {
    hub.namespaceSelector.Some? && (!IsValid(hub.namespaceSelector) || h in listing.refused)
  }

  /** The hubs that a mapper wakes: none at all when it gives up on one. */
  function HubRequests(namespaces: map<string, Labels>, hubs: map<Key, Hub>, watched: Watched, namespace: string,
                       labels: Labels, listing: MapperListing): set<Key> {
    if !listing.hubs || exists h :: h in hubs && GivesUp(h, hubs[h], listing) then {}
    else set h | h in hubs && HubWants(namespaces, h, hubs[h], watched, namespace, labels)
  }

  /** `requestsForChangeByDefinitionSelector` and `requestsForChangeBySpecificationSelector`, the hubs in
      any order. */
  method HubsForChange(namespaces: map<string, Labels>, hubs: map<Key, Hub>, watched: Watched,
                       namespace: string, labels: Labels, listing: MapperListing)
    returns (requests: seq<Key>)
    ensures Elements(requests) == HubRequests(namespaces, hubs, watched, namespace, labels, listing)
    ensures forall i, j | 0 <= i < j < |requests| :: requests[i] != requests[j]
  {
    requests := [];
    if !listing.hubs {
      return;
    }
    var todo := hubs.Keys;
    while todo != {}
      invariant todo <= hubs.Keys
      invariant forall h | h in hubs.Keys - todo :: !GivesUp(h, hubs[h], listing)
      invariant Elements(requests) ==
                set h | h in hubs.Keys - todo && HubWants(namespaces, h, hubs[h], watched, namespace, labels)
      invariant forall i, j | 0 <= i < j < |requests| :: requests[i] != requests[j]
      decreases todo
    {
      var h :| h in todo;
      todo := todo - {h};
      if hubs[h].namespaceSelector.Some? {
        if !IsValid(hubs[h].namespaceSelector) {
          return [];
        }
        if h in listing.refused {
          return [];
        }
      }
      assert h !in requests by { assert h !in Elements(requests); }
      var wants := Wants(namespaces, h, hubs[h], watched, namespace, labels);
      if wants {
        assert Elements(requests + [h]) == Elements(requests) + {h};
        requests := requests + [h];
      }
    }
  }

  /** Lines 128-146 and 182-200. */
  method Wants(namespaces: map<string, Labels>, h: Key, hub: Hub, watched: Watched, namespace: string, labels: Labels)
    returns (wants: bool)
    ensures wants == HubWants(namespaces, h, hub, watched, namespace, labels)
  {
    if namespace !in SelectedNamespaces(namespaces, hub.namespaceSelector, h.namespace) {
      return false;
    }
    var selector := SelectorOf(hub, watched);
    if !IsValid(selector) {
      return false;
    }
    wants := Matches(selector, labels);
  }

  predicate HubWants(namespaces: map<string, Labels>, h: Key, hub: Hub, watched: Watched, namespace: string,
                     labels: Labels) {
    namespace in SelectedNamespaces(namespaces, hub.namespaceSelector, h.namespace) &&
    IsValid(SelectorOf(hub, watched)) && Matches(SelectorOf(hub, watched), labels)
  }

  function WatchedLabels(w: Snapshot, watched: Watched): map<Key, Labels> {
    match watched
    case WatchedDefinitions => DefinitionLabels(w.definitions)
    case WatchedSpecifications => SpecificationLabels(w.specifications)
  }

  /** What a hub's reconcile selects, when its listings succeed. */
  ghost predicate HubSelects(w: Snapshot, h: Key, watched: Watched, o: Key)
    requires h in w.hubs
  {
    var hub := w.hubs[h];
    var r := Selected(w.namespaces, WatchedLabels(w, watched), h.namespace, SelectorOf(hub, watched),
                      hub.namespaceSelector, ALL_LISTED);
    r.Ok? && o in r.value
  }

  /** The hubs that a change of `o` wakes. */
  function Woken(w: Snapshot, watched: Watched, o: Key, listing: MapperListing): set<Key>
    requires o in WatchedLabels(w, watched)
  {
    HubRequests(w.namespaces, w.hubs, watched, o.namespace, WatchedLabels(w, watched)[o], listing)
  }

  lemma HubSelectsExactly(w: Snapshot, h: Key, watched: Watched, o: Key)
    requires h in w.hubs && o in WatchedLabels(w, watched)
    ensures HubSelects(w, h, watched, o) <==>
            IsValid(w.hubs[h].namespaceSelector) &&
            HubWants(w.namespaces, h, w.hubs[h], watched, o.namespace, WatchedLabels(w, watched)[o])
  {
    var hub := w.hubs[h];
    var keys := SelectedKeys(WatchedLabels(w, watched),
                             SelectedNamespaces(w.namespaces, hub.namespaceSelector, h.namespace),
                             SelectorOf(hub, watched));
    assert o in Canonical(keys) <==> o in Elements(Canonical(keys));
  }

  /** A changed definition or specification wakes exactly the hubs whose reconcile selects it, when the
      mapper gives up on none. */
  lemma HubTriggerAgrees(w: Snapshot, h: Key, watched: Watched, o: Key, listing: MapperListing)
    requires h in w.hubs && o in WatchedLabels(w, watched)
    requires listing.hubs
    requires forall g | g in w.hubs && w.hubs[g].namespaceSelector.Some? ::
               IsValid(w.hubs[g].namespaceSelector) && g !in listing.refused
    ensures h in Woken(w, watched, o, listing) <==> HubSelects(w, h, watched, o)
  {
    HubSelectsExactly(w, h, watched, o);
  }

  /** One hub with a namespace selector that is invalid, or whose namespaces are not listed, and no hub is woken. */
  lemma OneHubSilencesAll(w: Snapshot, g: Key, watched: Watched, o: Key, listing: MapperListing)
    requires g in w.hubs && o in WatchedLabels(w, watched) && w.hubs[g].namespaceSelector.Some?
    requires !IsValid(w.hubs[g].namespaceSelector) || g in listing.refused
    ensures Woken(w, watched, o, listing) == {}
  {
    assert GivesUp(g, w.hubs[g], listing);
  }

  /** The condition is exact: the mapper agrees for all hubs if and only if it gives up on none, or there
      is no hub that selects the object. */
  lemma HubTriggerAgreesExactly(w: Snapshot, watched: Watched, o: Key, listing: MapperListing)
    requires o in WatchedLabels(w, watched)
    ensures (forall h | h in w.hubs :: h in Woken(w, watched, o, listing) <==> HubSelects(w, h, watched, o)) <==>
            ((listing.hubs && forall g | g in w.hubs :: !GivesUp(g, w.hubs[g], listing)) ||
             (forall h | h in w.hubs && IsValid(w.hubs[h].namespaceSelector) ::
                !HubWants(w.namespaces, h, w.hubs[h], watched, o.namespace, WatchedLabels(w, watched)[o])))
  {
    forall h | h in w.hubs
      ensures HubSelects(w, h, watched, o) <==>
              IsValid(w.hubs[h].namespaceSelector) &&
              HubWants(w.namespaces, h, w.hubs[h], watched, o.namespace, WatchedLabels(w, watched)[o])
    {
      HubSelectsExactly(w, h, watched, o);
    }
  }

  /** `requestsForChangeBySelector`: only the specifications of the object's own namespace are listed. */
  method SpecificationsForChange(specifications: map<Key, Specification>, namespace: string, labels: Labels,
                                 listed: bool)
    returns (requests: seq<Key>)
    ensures Elements(requests) == SpecificationRequests(specifications, namespace, labels, listed)
    ensures forall i, j | 0 <= i < j < |requests| :: requests[i] != requests[j]
  {
    requests := [];
    if !listed {
      return;
    }
    var todo := set s | s in specifications && s.namespace == namespace;
    while todo != {}
      invariant todo <= specifications.Keys
      invariant forall s | s in todo :: s.namespace == namespace
      invariant Elements(requests) ==
                set s | s in specifications && s !in todo &&
                          SpecificationNotified(s, specifications[s], namespace, labels)
      invariant forall i, j | 0 <= i < j < |requests| :: requests[i] != requests[j]
      decreases todo
    {
      var s :| s in todo;
      todo := todo - {s};
      assert s !in requests by { assert s !in Elements(requests); }
      var selector := specifications[s].definitionSelector;
      if IsValid(selector) && Matches(selector, labels) {
        assert Elements(requests + [s]) == Elements(requests) + {s};
        requests := requests + [s];
      }
    }
  }

  /** The specifications that the mapper wakes. */
  function SpecificationRequests(specifications: map<Key, Specification>, namespace: string, labels: Labels,
                                 listed: bool)
    : set<Key>
  {
    if !listed then {}
    else set s | s in specifications && SpecificationNotified(s, specifications[s], namespace, labels)
  }

  predicate SpecificationNotified(s: Key, specification: Specification, namespace: string, labels: Labels) {
    s.namespace == namespace && IsValid(specification.definitionSelector) &&
    Matches(specification.definitionSelector, labels)
  }

  ghost predicate SpecificationSelects(w: Snapshot, s: Key, o: Key)
    requires s in w.specifications
  {
    var specification := w.specifications[s];
    var r := Selected(w.namespaces, DefinitionLabels(w.definitions), s.namespace,
                      specification.definitionSelector, specification.namespaceSelector, ALL_LISTED);
    r.Ok? && o in r.value
  }

  /** For definitions that match the label selector, the mapper agrees with the selection exactly when the
      namespace selector picks the specification's own namespace and no other of theirs: so always without
      one. A definition of another selected namespace changes without waking the specification. */
  lemma SpecificationTriggerAgreesExactly(w: Snapshot, s: Key, o: Key)
    requires s in w.specifications && o in w.definitions
    ensures var specification := w.specifications[s];
            var picked := IsValid(specification.namespaceSelector) &&
                          o.namespace in SelectedNamespaces(w.namespaces, specification.namespaceSelector, s.namespace);
            var woken := s in SpecificationRequests(w.specifications, o.namespace, w.definitions[o].labels, true);
            && ((woken <==> SpecificationSelects(w, s, o)) <==>
                (IsValid(specification.definitionSelector) &&
                 Matches(specification.definitionSelector, w.definitions[o].labels) ==>
                 (picked <==> o.namespace == s.namespace)))
            && (specification.namespaceSelector.None? ==> (woken <==> SpecificationSelects(w, s, o)))
  {
    var specification := w.specifications[s];
    var keys := SelectedKeys(DefinitionLabels(w.definitions),
                             SelectedNamespaces(w.namespaces, specification.namespaceSelector, s.namespace),
                             specification.definitionSelector);
    assert o in Canonical(keys) <==> o in Elements(Canonical(keys));
  }
}
