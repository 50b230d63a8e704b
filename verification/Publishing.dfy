/** How a hub publishes its definitions and specifications: URLs, copies of ConfigMaps into the hub's
    namespace, and the projected volume (lines 408-505 of the hub controller). */
module Publishing {
  import opened Wrappers
  import opened Text
  import opened Objects
  import opened Selectors

  const DATA_KEY := "definition.json"
  const MOUNT_PATH := "/usr/share/nginx/html/definitions"
  const DOCUMENT_ROOT := "/usr/share/nginx/html"

  function DefinitionConfigMap(name: string): string { "swagger-definition-" + name }

  function SpecificationConfigMap(name: string): string { "swagger-specification-" + name }

  datatype MountRef = MountRef(namespace: string, name: string, configMap: string)

  datatype ApiUrl = ApiUrl(name: string, url: string)

  function DefinitionRef(k: Key): MountRef {
    MountRef(k.namespace, k.name, DefinitionConfigMap(k.name))
  }

  function SpecificationRef(k: Key): MountRef {
    MountRef(k.namespace, k.name, SpecificationConfigMap(k.name))
  }

  /** The ConfigMap a reference is published from. */
  function SourceOf(ref: MountRef): Key {
    Key(ref.namespace, ref.configMap)
  }

  /** The ConfigMap of a definition. */
  function DefinitionStore(d: Key): Key {
    SourceOf(DefinitionRef(d))
  }

  /** The ConfigMap of a specification. */
  function SpecificationStore(s: Key): Key {
    SourceOf(SpecificationRef(s))
  }

  /** A stored document, owned by the resource of that kind it belongs to. */
  function Stored(k: Key, uid: string, kind: string, body: Bytes): ConfigMap {
    ConfigMap(map[DATA_KEY := body], [OwnerReference(k.name, uid, kind)])
  }

  /** Lines 408-423. */
  function Refs(definitions: seq<Key>, specifications: seq<Key>): seq<MountRef> {
    seq(|definitions|, i requires 0 <= i < |definitions| => DefinitionRef(definitions[i])) +
    seq(|specifications|, i requires 0 <= i < |specifications| => SpecificationRef(specifications[i]))
  }

  /** First the definitions, then the specifications, in their order, each with the ConfigMap it is stored in. */
  lemma RefsExactly(definitions: seq<Key>, specifications: seq<Key>)
    ensures |Refs(definitions, specifications)| == |definitions| + |specifications|
    ensures forall i | 0 <= i < |definitions| ::
              Refs(definitions, specifications)[i] ==
              MountRef(definitions[i].namespace, definitions[i].name, "swagger-definition-" + definitions[i].name)
    ensures forall i | 0 <= i < |specifications| ::
              Refs(definitions, specifications)[|definitions| + i] ==
              MountRef(specifications[i].namespace, specifications[i].name,
                       "swagger-specification-" + specifications[i].name)
  {}

  function CopyName(ref: MountRef): string {
    ref.configMap + "-" + ref.namespace
  }

  /** The reference is to a ConfigMap in the hub's own namespace. */
  predicate IsNative(ref: MountRef, hubNamespace: string) {
    ref.namespace == hubNamespace
  }

  /** The reference with the ConfigMap the pod mounts: its own one, or the copy. */
  function Mounted(ref: MountRef, hubNamespace: string): MountRef {
    if IsNative(ref, hubNamespace) then ref else ref.(configMap := CopyName(ref))
  }

  /** Where the mounted ConfigMap is: in the hub's namespace. */
  function SlotOf(ref: MountRef, hubNamespace: string): Key {
    Key(hubNamespace, Mounted(ref, hubNamespace).configMap)
  }

  function PathOf(ref: MountRef): string {
    ref.namespace + "/" + ref.name + "/" + DATA_KEY
  }

  function UrlOf(ref: MountRef, frontendURL: string): ApiUrl {
    ApiUrl(ref.name + ":" + ref.namespace,
           frontendURL + "/definitions/" + ref.namespace + "/" + ref.name + "/" + DATA_KEY)
  }

  function ProjectionOf(mounted: MountRef): Projection {
    Projection(mounted.configMap, PathOf(mounted))
  }

  // ---- The loop over the references -----------------------------------------------------------

  /** The API server answers `calls` more requests, then fails one: a failed request ends the loop. */
  datatype State = State(
    configMaps: map<Key, ConfigMap>, urls: seq<ApiUrl>, mounts: seq<MountRef>, calls: nat, failed: bool)

  function Start(configMaps: map<Key, ConfigMap>, calls: nat): State {
    State(configMaps, [], [], calls, false)
  }

  /** One turn: a get of the source; for a foreign source a get of the copy, and its create or update. */
  function Visit(st: State, ref: MountRef, hubNamespace: string, frontendURL: string): State {
    if st.failed then st
    else if st.calls == 0 then st.(failed := true)
    else if SourceOf(ref) !in st.configMaps then st.(calls := st.calls - 1)
    else
      var seen := st.(urls := st.urls + [UrlOf(ref, frontendURL)]);
      if IsNative(ref, hubNamespace) then seen.(mounts := seen.mounts + [ref], calls := st.calls - 1)
      else if st.calls < 3 then seen.(calls := 0, failed := true)
      else seen.(configMaps := seen.configMaps[SlotOf(ref, hubNamespace) := st.configMaps[SourceOf(ref)]],
                 mounts := seen.mounts + [Mounted(ref, hubNamespace)], calls := st.calls - 3)
  }

  function VisitAll(st: State, refs: seq<MountRef>, hubNamespace: string, frontendURL: string): State {
    if refs == [] then st
    else Visit(VisitAll(st, refs[..|refs| - 1], hubNamespace, frontendURL), refs[|refs| - 1], hubNamespace, frontendURL)
  }

  // ---- What the loop amounts to ---------------------------------------------------------------

  /** The copies that the references make of ConfigMaps in other namespaces. */
  function Copies(configMaps: map<Key, ConfigMap>, refs: seq<MountRef>, hubNamespace: string): map<Key, ConfigMap> {
    if refs == [] then map[]
    else
      var last := refs[|refs| - 1];
      var before := Copies(configMaps, refs[..|refs| - 1], hubNamespace);
      if !IsNative(last, hubNamespace) && SourceOf(last) in configMaps
      then before[SlotOf(last, hubNamespace) := configMaps[SourceOf(last)]]
      else before
  }

  predicate IsVisible(configMaps: map<Key, ConfigMap>, refs: seq<MountRef>, i: nat, hubNamespace: string)
    requires i < |refs|
  {
    SourceOf(refs[i]) in configMaps || SourceOf(refs[i]) in Copies(configMaps, refs[..i], hubNamespace)
  }

  /** The references that the loop finds a ConfigMap for. */
  function Visible(configMaps: map<Key, ConfigMap>, refs: seq<MountRef>, n: nat, hubNamespace: string): seq<MountRef>
    requires n <= |refs|
  {
    if n == 0 then []
    else Visible(configMaps, refs, n - 1, hubNamespace) +
         (if IsVisible(configMaps, refs, n - 1, hubNamespace) then [refs[n - 1]] else [])
  }

  function Urls(refs: seq<MountRef>, frontendURL: string): seq<ApiUrl> {
    seq(|refs|, i requires 0 <= i < |refs| => UrlOf(refs[i], frontendURL))
  }

  function Mounts(refs: seq<MountRef>, hubNamespace: string): seq<MountRef> {
    seq(|refs|, i requires 0 <= i < |refs| => Mounted(refs[i], hubNamespace))
  }

  function Projections(mounts: seq<MountRef>): seq<Projection> {
    seq(|mounts|, i requires 0 <= i < |mounts| => ProjectionOf(mounts[i]))
  }

  lemma {:induction false} CopiesAreLocal(configMaps: map<Key, ConfigMap>, refs: seq<MountRef>, hubNamespace: string)
    ensures forall k | k in Copies(configMaps, refs, hubNamespace) :: k.namespace == hubNamespace
  {
    if refs != [] {
      CopiesAreLocal(configMaps, refs[..|refs| - 1], hubNamespace);
    }
  }

  /** A copy has one of its sources: the last reference that writes it. */
  lemma {:induction false} CopyWriter(configMaps: map<Key, ConfigMap>, refs: seq<MountRef>, hubNamespace: string,
                                      k: Key)
    returns (i: int)
    requires k in Copies(configMaps, refs, hubNamespace)
    ensures 0 <= i < |refs| && !IsNative(refs[i], hubNamespace) && SourceOf(refs[i]) in configMaps
    ensures SlotOf(refs[i], hubNamespace) == k
    ensures Copies(configMaps, refs, hubNamespace)[k] == configMaps[SourceOf(refs[i])]
  {
    var n := |refs| - 1;
    var last := refs[n];
    if !IsNative(last, hubNamespace) && SourceOf(last) in configMaps && SlotOf(last, hubNamespace) == k {
      i := n;
    } else {
      i := CopyWriter(configMaps, refs[..n], hubNamespace, k);
    }
  }

  lemma {:induction false} CopyWritten(configMaps: map<Key, ConfigMap>, refs: seq<MountRef>, hubNamespace: string,
                                       i: int)
    requires 0 <= i < |refs| && !IsNative(refs[i], hubNamespace) && SourceOf(refs[i]) in configMaps
    ensures SlotOf(refs[i], hubNamespace) in Copies(configMaps, refs, hubNamespace)
  {
    if i < |refs| - 1 {
      CopyWritten(configMaps, refs[..|refs| - 1], hubNamespace, i);
    }
  }

  /** A loop that does not fail adds exactly the copies, and lists URLs and mounts of the same visible
      references, side by side. Foreign sources are never disturbed by copies. */
  lemma {:induction false} VisitAllIs(configMaps: map<Key, ConfigMap>, calls: nat, refs: seq<MountRef>, n: nat,
                                      hubNamespace: string, frontendURL: string)
    requires n <= |refs| && !VisitAll(Start(configMaps, calls), refs[..n], hubNamespace, frontendURL).failed
    ensures var out := VisitAll(Start(configMaps, calls), refs[..n], hubNamespace, frontendURL);
            var visible := Visible(configMaps, refs, n, hubNamespace);
            && out.configMaps == configMaps + Copies(configMaps, refs[..n], hubNamespace)
            && out.urls == Urls(visible, frontendURL)
            && out.mounts == Mounts(visible, hubNamespace)
  {
    if n > 0 {
      assert refs[..n][..n - 1] == refs[..n - 1] && refs[..n][n - 1] == refs[n - 1];
      VisitAllIs(configMaps, calls, refs, n - 1, hubNamespace, frontendURL);
      var st := VisitAll(Start(configMaps, calls), refs[..n - 1], hubNamespace, frontendURL);
      VisitConfigMaps(configMaps, refs, n, hubNamespace, frontendURL, st);
      VisitLists(configMaps, refs, n, hubNamespace, frontendURL, st);
    }
  }

  lemma VisitConfigMaps(configMaps: map<Key, ConfigMap>, refs: seq<MountRef>, n: nat, hubNamespace: string,
                        frontendURL: string, st: State)
    requires 0 < n <= |refs| && !Visit(st, refs[n - 1], hubNamespace, frontendURL).failed
    requires st.configMaps == configMaps + Copies(configMaps, refs[..n - 1], hubNamespace)
    ensures Visit(st, refs[n - 1], hubNamespace, frontendURL).configMaps ==
            configMaps + Copies(configMaps, refs[..n], hubNamespace)
  {
    assert refs[..n][..n - 1] == refs[..n - 1] && refs[..n][n - 1] == refs[n - 1];
    CopiesAreLocal(configMaps, refs[..n - 1], hubNamespace);
  }

  lemma VisitLists(configMaps: map<Key, ConfigMap>, refs: seq<MountRef>, n: nat, hubNamespace: string,
                   frontendURL: string, st: State)
    requires 0 < n <= |refs| && !Visit(st, refs[n - 1], hubNamespace, frontendURL).failed
    requires st.configMaps == configMaps + Copies(configMaps, refs[..n - 1], hubNamespace)
    requires st.urls == Urls(Visible(configMaps, refs, n - 1, hubNamespace), frontendURL)
    requires st.mounts == Mounts(Visible(configMaps, refs, n - 1, hubNamespace), hubNamespace)
    ensures var out := Visit(st, refs[n - 1], hubNamespace, frontendURL);
            var visible := Visible(configMaps, refs, n, hubNamespace);
            out.urls == Urls(visible, frontendURL) && out.mounts == Mounts(visible, hubNamespace)
  {
    var ref := refs[n - 1];
    var visible := Visible(configMaps, refs, n - 1, hubNamespace);
    assert Urls(visible + [ref], frontendURL) == Urls(visible, frontendURL) + [UrlOf(ref, frontendURL)];
    assert Mounts(visible + [ref], hubNamespace) == Mounts(visible, hubNamespace) + [Mounted(ref, hubNamespace)];
    assert visible + [] == visible;
  }

  /** Even a loop that fails half way writes only copies of foreign references. */
  lemma {:induction false} OnlyCopiesWritten(st: State, refs: seq<MountRef>, hubNamespace: string,
                                             frontendURL: string, k: Key)
    requires forall i | 0 <= i < |refs| :: IsNative(refs[i], hubNamespace) || SlotOf(refs[i], hubNamespace) != k
    ensures Content(VisitAll(st, refs, hubNamespace, frontendURL).configMaps, k) == Content(st.configMaps, k)
  {
    if refs != [] {
      OnlyCopiesWritten(st, refs[..|refs| - 1], hubNamespace, frontendURL, k);
    }
  }

  /** With three answers for every reference the loop does not fail. */
  lemma {:induction false} EnoughCalls(st: State, refs: seq<MountRef>, hubNamespace: string, frontendURL: string)
    requires !st.failed && st.calls >= 3 * |refs|
    ensures var out := VisitAll(st, refs, hubNamespace, frontendURL);
            !out.failed && out.calls >= st.calls - 3 * |refs|
  {
    if refs != [] {
      EnoughCalls(st, refs[..|refs| - 1], hubNamespace, frontendURL);
    }
  }

  // ---- From the URL to the bytes --------------------------------------------------------------

  /** The file the web server looks up for a published URL. */
  function FileOf(ref: MountRef, frontendURL: string): string {
    DOCUMENT_ROOT + UrlOf(ref, frontendURL).url[|frontendURL|..]
  }

  /** The file a projected entry is mounted as. */
  function FileAt(entry: Projection): string {
    MOUNT_PATH + "/" + entry.path
  }

  /** It is the file of the resource below the document root, whatever the host in front. */
  lemma FileExactly(ref: MountRef, frontendURL: string)
    ensures FileOf(ref, frontendURL) ==
            "/usr/share/nginx/html/definitions/" + ref.namespace + "/" + ref.name + "/definition.json"
  {
    UrlIsMounted(ref, frontendURL, "");
  }

  /** An entry of `API_URLS` for a resource: its name and namespace, and its address behind the host. */
  predicate IsApiUrl(url: ApiUrl, ref: MountRef, host: string) {
    && url.name == ref.name + ":" + ref.namespace
    && url.url == host + "/definitions/" + ref.namespace + "/" + ref.name + "/definition.json"
  }

  predicate AreApiUrls(urls: seq<ApiUrl>, refs: seq<MountRef>, host: string) {
    |urls| == |refs| && forall i | 0 <= i < |refs| :: IsApiUrl(urls[i], refs[i], host)
  }

  lemma UrlsAre(refs: seq<MountRef>, host: string)
    ensures AreApiUrls(Urls(refs, host), refs, host)
  {}

  lemma UrlIsMounted(ref: MountRef, frontendURL: string, hubNamespace: string)
    ensures FileOf(ref, frontendURL) == FileAt(ProjectionOf(Mounted(ref, hubNamespace)))
  {
    var rest := "/definitions/" + ref.namespace + "/" + ref.name + "/" + DATA_KEY;
    assert UrlOf(ref, frontendURL).url == frontendURL + rest;
    assert DOCUMENT_ROOT + "/definitions/" == MOUNT_PATH + "/";
  }

  function Content(configMaps: map<Key, ConfigMap>, k: Key): Option<Bytes> {
    if k in configMaps && DATA_KEY in configMaps[k].binaryData
    then Some(configMaps[k].binaryData[DATA_KEY])
    else None
  }

  /** After the loop: exactly the references with a ConfigMap of their own are published, and whatever
      is mounted at the path of one has the content of that one's source. */
  ghost predicate Published(configMaps: map<Key, ConfigMap>, refs: seq<MountRef>, hubNamespace: string) {
    var after := configMaps + Copies(configMaps, refs, hubNamespace);
    && (forall i | 0 <= i < |refs| :: IsVisible(configMaps, refs, i, hubNamespace) <==> SourceOf(refs[i]) in configMaps)
    && (forall i, j | 0 <= i < |refs| && 0 <= j < |refs| ::
          SourceOf(refs[i]) in configMaps && SourceOf(refs[j]) in configMaps && PathOf(refs[i]) == PathOf(refs[j]) ==>
            Content(after, SlotOf(refs[j], hubNamespace)) == Content(configMaps, SourceOf(refs[i])))
  }

  /** References with different sources are mounted from different ConfigMaps, at different paths. */
  predicate Separated(refs: seq<MountRef>, hubNamespace: string) {
    forall i, j | 0 <= i < |refs| && 0 <= j < |refs| :: SourceOf(refs[i]) != SourceOf(refs[j]) ==>
      SlotOf(refs[i], hubNamespace) != SlotOf(refs[j], hubNamespace) && PathOf(refs[i]) != PathOf(refs[j])
  }

  /** With separated references no copy is a source. */
  lemma CopiesAreNoSources(configMaps: map<Key, ConfigMap>, refs: seq<MountRef>, n: nat, hubNamespace: string, i: int)
    requires Separated(refs, hubNamespace) && n <= |refs| && 0 <= i < |refs|
    ensures SourceOf(refs[i]) !in Copies(configMaps, refs[..n], hubNamespace)
  {
    if SourceOf(refs[i]) in Copies(configMaps, refs[..n], hubNamespace) {
      CopiesAreLocal(configMaps, refs[..n], hubNamespace);
      var j := CopyWriter(configMaps, refs[..n], hubNamespace, SourceOf(refs[i]));
      SameSlotSameSource(refs, hubNamespace, i, j);
    }
  }

  lemma SameSlotSameSource(refs: seq<MountRef>, hubNamespace: string, i: int, j: int)
    requires Separated(refs, hubNamespace) && 0 <= i < |refs| && 0 <= j < |refs|
    requires SlotOf(refs[i], hubNamespace) == SlotOf(refs[j], hubNamespace)
    ensures SourceOf(refs[i]) == SourceOf(refs[j])
  {
  }

  lemma SeparatedPublishes(configMaps: map<Key, ConfigMap>, refs: seq<MountRef>, hubNamespace: string)
    requires Separated(refs, hubNamespace)
    ensures Published(configMaps, refs, hubNamespace)
  {
    var after := configMaps + Copies(configMaps, refs, hubNamespace);
    forall i | 0 <= i < |refs|
      ensures IsVisible(configMaps, refs, i, hubNamespace) <==> SourceOf(refs[i]) in configMaps
    {
      CopiesAreNoSources(configMaps, refs, i, hubNamespace, i);
    }
    forall j | 0 <= j < |refs| && SourceOf(refs[j]) in configMaps
      ensures Content(after, SlotOf(refs[j], hubNamespace)) == Content(configMaps, SourceOf(refs[j]))
    {
      MountedContent(configMaps, refs, hubNamespace, j);
    }
  }

  lemma MountedContent(configMaps: map<Key, ConfigMap>, refs: seq<MountRef>, hubNamespace: string, j: int)
    requires Separated(refs, hubNamespace) && 0 <= j < |refs| && SourceOf(refs[j]) in configMaps
    ensures var after := configMaps + Copies(configMaps, refs, hubNamespace);
            Content(after, SlotOf(refs[j], hubNamespace)) == Content(configMaps, SourceOf(refs[j]))
  {
    assert refs[..|refs|] == refs;
    var slot := SlotOf(refs[j], hubNamespace);
    if IsNative(refs[j], hubNamespace) {
      CopiesAreNoSources(configMaps, refs, |refs|, hubNamespace, j);
    } else {
      CopyWritten(configMaps, refs, hubNamespace, j);
      var i := CopyWriter(configMaps, refs, hubNamespace, slot);
      SameSlotSameSource(refs, hubNamespace, i, j);
    }
  }

  /** Every published URL leads to the bytes of its source, for all contents of the cluster at once, if
      and only if the references are separated. */
  lemma PublishedExactly(refs: seq<MountRef>, hubNamespace: string)
    ensures Separated(refs, hubNamespace) <==>
            forall configMaps :: Published(configMaps, refs, hubNamespace)
  {
    if Separated(refs, hubNamespace) {
      forall configMaps ensures Published(configMaps, refs, hubNamespace) {
        SeparatedPublishes(configMaps, refs, hubNamespace);
      }
    } else {
      var i, j :| 0 <= i < |refs| && 0 <= j < |refs| && SourceOf(refs[i]) != SourceOf(refs[j]) &&
        (SlotOf(refs[i], hubNamespace) == SlotOf(refs[j], hubNamespace) || PathOf(refs[i]) == PathOf(refs[j]));
      var configMaps := NotSeparatedLoses(refs, hubNamespace, i, j);
    }
  }

  lemma NotSeparatedLoses(refs: seq<MountRef>, hubNamespace: string, i: int, j: int)
    returns (configMaps: map<Key, ConfigMap>)
    requires 0 <= i < |refs| && 0 <= j < |refs| && SourceOf(refs[i]) != SourceOf(refs[j])
    requires SlotOf(refs[i], hubNamespace) == SlotOf(refs[j], hubNamespace) || PathOf(refs[i]) == PathOf(refs[j])
    ensures !Published(configMaps, refs, hubNamespace)
  {
    var si, sj := SourceOf(refs[i]), SourceOf(refs[j]);
    configMaps := map[si := ConfigMap(map[DATA_KEY := "a"], []), sj := ConfigMap(map[DATA_KEY := "b"], [])];
    assert Content(configMaps, si) == Some("a") != Some("b") == Content(configMaps, sj);
  }

  lemma {:induction false} VisibleAreRefs(configMaps: map<Key, ConfigMap>, refs: seq<MountRef>, n: nat,
                                          hubNamespace: string)
    requires n <= |refs|
    ensures forall r :: r in Visible(configMaps, refs, n, hubNamespace) <==>
              exists i: nat :: i < n && r == refs[i] && IsVisible(configMaps, refs, i, hubNamespace)
  {
    if n > 0 {
      VisibleAreRefs(configMaps, refs, n - 1, hubNamespace);
    }
  }

  /** The references that are published keep their order, and none of them is repeated or left out: published
      reference `j` is reference `order[j]`. */
  lemma {:induction false} VisibleInOrder(configMaps: map<Key, ConfigMap>, refs: seq<MountRef>, n: nat,
                                          hubNamespace: string) returns (order: seq<nat>)
    requires n <= |refs|
    ensures var visible := Visible(configMaps, refs, n, hubNamespace);
            |order| == |visible| && forall j | 0 <= j < |order| :: order[j] < n && visible[j] == refs[order[j]]
    ensures forall i, j | 0 <= i < j < |order| :: order[i] < order[j]
    ensures forall i: nat | i < n :: i in order <==> IsVisible(configMaps, refs, i, hubNamespace)
  {
    order := [];
    if n > 0 {
      order := VisibleInOrder(configMaps, refs, n - 1, hubNamespace);
      if IsVisible(configMaps, refs, n - 1, hubNamespace) {
        order := order + [n - 1];
      }
    }
  }

  /** The URL of a visible reference leads to its own entry, and every entry it leads to has the content
      of the reference's source. */
  lemma UrlServes(configMaps: map<Key, ConfigMap>, refs: seq<MountRef>, hubNamespace: string, frontendURL: string,
                  a: MountRef, b: MountRef)
    requires Separated(refs, hubNamespace)
    requires a in Visible(configMaps, refs, |refs|, hubNamespace) &&
             b in Visible(configMaps, refs, |refs|, hubNamespace)
    ensures FileOf(a, frontendURL) == FileAt(ProjectionOf(Mounted(a, hubNamespace)))
    ensures FileOf(a, frontendURL) == FileAt(ProjectionOf(Mounted(b, hubNamespace))) ==>
              Content(configMaps + Copies(configMaps, refs, hubNamespace), SlotOf(b, hubNamespace)) ==
              Content(configMaps, SourceOf(a))
  {
    UrlIsMounted(a, frontendURL, hubNamespace);
    SameFileSamePath(PathOf(a), PathOf(b));
    VisibleAreRefs(configMaps, refs, |refs|, hubNamespace);
    SeparatedPublishes(configMaps, refs, hubNamespace);
    var m: nat :| m < |refs| && a == refs[m] && IsVisible(configMaps, refs, m, hubNamespace);
    var n: nat :| n < |refs| && b == refs[n] && IsVisible(configMaps, refs, n, hubNamespace);
  }

  /** Every URL has a file among the entries, and whatever entry has that file is mounted from a ConfigMap
      with the content of the URL's source. */
  ghost predicate ServesSources(before: map<Key, ConfigMap>, after: map<Key, ConfigMap>, refs: seq<MountRef>,
                                entries: seq<Projection>, frontendURL: string, hubNamespace: string) {
    forall ref | ref in refs ::
      && (exists e :: e in entries && FileAt(e) == FileOf(ref, frontendURL))
      && forall e | e in entries && FileAt(e) == FileOf(ref, frontendURL) ::
           Content(after, Key(hubNamespace, e.configMap)) == Content(before, SourceOf(ref))
  }

  /** With separated references the entries of the visible ones serve their sources. */
  lemma RefsServe(configMaps: map<Key, ConfigMap>, refs: seq<MountRef>, hubNamespace: string, frontendURL: string)
    requires Separated(refs, hubNamespace)
    ensures var visible := Visible(configMaps, refs, |refs|, hubNamespace);
            ServesSources(configMaps, configMaps + Copies(configMaps, refs, hubNamespace), visible,
                          Projections(Mounts(visible, hubNamespace)), frontendURL, hubNamespace)
  {
    var visible := Visible(configMaps, refs, |refs|, hubNamespace);
    var entries := Projections(Mounts(visible, hubNamespace));
    var after := configMaps + Copies(configMaps, refs, hubNamespace);
    forall ref | ref in visible
      ensures exists e :: e in entries && FileAt(e) == FileOf(ref, frontendURL)
      ensures forall e | e in entries && FileAt(e) == FileOf(ref, frontendURL) ::
                Content(after, Key(hubNamespace, e.configMap)) == Content(configMaps, SourceOf(ref))
    {
      UrlServes(configMaps, refs, hubNamespace, frontendURL, ref, ref);
      var i :| 0 <= i < |visible| && visible[i] == ref;
      assert entries[i] in entries && entries[i] == ProjectionOf(Mounted(ref, hubNamespace));
      forall e | e in entries && FileAt(e) == FileOf(ref, frontendURL)
        ensures Content(after, Key(hubNamespace, e.configMap)) == Content(configMaps, SourceOf(ref))
      {
        var j :| 0 <= j < |entries| && entries[j] == e;
        UrlServes(configMaps, refs, hubNamespace, frontendURL, ref, visible[j]);
      }
    }
  }

  lemma SameFileSamePath(p: string, q: string)
    ensures MOUNT_PATH + "/" + p == MOUNT_PATH + "/" + q ==> p == q
  {
    assert (MOUNT_PATH + "/" + p)[|MOUNT_PATH| + 1..] == p;
    assert (MOUNT_PATH + "/" + q)[|MOUNT_PATH| + 1..] == q;
  }

  /** Two definitions whose names and namespaces run together share one copy. */
  lemma CopiesCollide()
    ensures !Separated(Refs([Key("b-c", "a"), Key("c", "a-b")], []), "hub")
  {
    var refs := Refs([Key("b-c", "a"), Key("c", "a-b")], []);
    assert CopyName(refs[0]) == "swagger-definition-a-b-c" == CopyName(refs[1]);
    assert SourceOf(refs[0]) != SourceOf(refs[1]);
  }

  // ---- A second run ---------------------------------------------------------------------------

  /** A sorted list has no copy of a later entry on the ConfigMap of an earlier local one: the copy's
      name continues its source's name, so it names a definition that sorts after the source. */
  lemma CopyPrecedes(definitions: seq<Key>, specifications: seq<Key>, hubNamespace: string, i: int, j: int)
    requires IsSorted(definitions) && IsSorted(specifications)
    requires var refs := Refs(definitions, specifications);
             && 0 <= i < |refs| && 0 <= j < |refs| && !IsNative(refs[j], hubNamespace)
             && SlotOf(refs[j], hubNamespace) == SourceOf(refs[i])
    ensures j < i
  {
    var refs := Refs(definitions, specifications);
    var copy := CopyName(refs[j]);
    var d := |definitions|;
    if j < d {
      assert copy == DefinitionConfigMap(refs[j].name) + "-" + refs[j].namespace;
      if i < d {
        assert DefinitionConfigMap(refs[i].name) == DefinitionConfigMap(refs[j].name + "-" + refs[j].namespace);
        ConfigMapNamesInjective(refs[i].name, refs[j].name + "-" + refs[j].namespace);
        LongerNameLater(definitions, i, j);
      }
    } else {
      assert copy == SpecificationConfigMap(refs[j].name) + "-" + refs[j].namespace;
      if i < d {
        assert SpecificationConfigMap(refs[j].name + "-" + refs[j].namespace) == copy;
        ConfigMapKindsDiffer(refs[i].name, refs[j].name + "-" + refs[j].namespace);
      } else {
        assert SpecificationConfigMap(refs[i].name) == SpecificationConfigMap(refs[j].name + "-" + refs[j].namespace);
        ConfigMapNamesInjective(refs[i].name, refs[j].name + "-" + refs[j].namespace);
        LongerNameLater(specifications, i - d, j - d);
      }
    }
  }

  lemma ConfigMapNamesInjective(a: string, b: string)
    ensures DefinitionConfigMap(a) == DefinitionConfigMap(b) ==> a == b
    ensures SpecificationConfigMap(a) == SpecificationConfigMap(b) ==> a == b
  {
    assert DefinitionConfigMap(a)[|"swagger-definition-"|..] == a;
    assert DefinitionConfigMap(b)[|"swagger-definition-"|..] == b;
    assert SpecificationConfigMap(a)[|"swagger-specification-"|..] == a;
    assert SpecificationConfigMap(b)[|"swagger-specification-"|..] == b;
  }

  lemma ConfigMapKindsDiffer(a: string, b: string)
    ensures DefinitionConfigMap(a) != SpecificationConfigMap(b)
  {
    assert DefinitionConfigMap(a)[8] == 'd' && SpecificationConfigMap(b)[8] == 's';
  }

  lemma LongerNameLater(keys: seq<Key>, i: int, j: int)
    requires IsSorted(keys) && 0 <= i < |keys| && 0 <= j < |keys|
    requires keys[i].name == keys[j].name + "-" + keys[j].namespace
    ensures j < i
  {
    PrefixIsLess(keys[j].name, "-" + keys[j].namespace);
    assert keys[i].name == keys[j].name + ("-" + keys[j].namespace);
    assert KeyLess(keys[j], keys[i]);
    KeyLessTotal(keys[i], keys[i]);
    if i < j {
      KeyLessTransitive(keys[i], keys[j], keys[i]);
    }
  }

  lemma {:induction false} CopiesAgain(configMaps: map<Key, ConfigMap>, copies: map<Key, ConfigMap>,
                                       refs: seq<MountRef>, hubNamespace: string)
    requires forall k | k in copies :: k.namespace == hubNamespace
    ensures Copies(configMaps + copies, refs, hubNamespace) == Copies(configMaps, refs, hubNamespace)
  {
    if refs != [] {
      CopiesAgain(configMaps, copies, refs[..|refs| - 1], hubNamespace);
    }
  }

  lemma VisibleAgain(configMaps: map<Key, ConfigMap>, definitions: seq<Key>, specifications: seq<Key>, i: nat,
                     hubNamespace: string)
    requires IsSorted(definitions) && IsSorted(specifications) && i < |Refs(definitions, specifications)|
    ensures var refs := Refs(definitions, specifications);
            var after := configMaps + Copies(configMaps, refs, hubNamespace);
            IsVisible(after, refs, i, hubNamespace) <==> IsVisible(configMaps, refs, i, hubNamespace)
  {
    var refs := Refs(definitions, specifications);
    var copies := Copies(configMaps, refs, hubNamespace);
    CopiesAreLocal(configMaps, refs, hubNamespace);
    CopiesAgain(configMaps, copies, refs[..i], hubNamespace);
    if SourceOf(refs[i]) in copies {
      var j := CopyWriter(configMaps, refs, hubNamespace, SourceOf(refs[i]));
      CopyPrecedes(definitions, specifications, hubNamespace, i, j);
      assert refs[..i][j] == refs[j];
      CopyWritten(configMaps, refs[..i], hubNamespace, j);
    }
  }

  lemma {:induction false} SameVisible(a: map<Key, ConfigMap>, b: map<Key, ConfigMap>, refs: seq<MountRef>, n: nat,
                                       hubNamespace: string)
    requires n <= |refs|
    requires forall i: nat | i < n :: IsVisible(a, refs, i, hubNamespace) <==> IsVisible(b, refs, i, hubNamespace)
    ensures Visible(a, refs, n, hubNamespace) == Visible(b, refs, n, hubNamespace)
  {
    if n > 0 {
      SameVisible(a, b, refs, n - 1, hubNamespace);
    }
  }

  /** The requests that one turn needs. */
  function Cost(configMaps: map<Key, ConfigMap>, refs: seq<MountRef>, i: nat, hubNamespace: string): nat
    requires i < |refs|
  {
    if IsVisible(configMaps, refs, i, hubNamespace) && !IsNative(refs[i], hubNamespace) then 3 else 1
  }

  function Needed(configMaps: map<Key, ConfigMap>, refs: seq<MountRef>, n: nat, hubNamespace: string): nat
    requires n <= |refs|
  {
    if n == 0 then 0 else Needed(configMaps, refs, n - 1, hubNamespace) + Cost(configMaps, refs, n - 1, hubNamespace)
  }

  /** The loop fails exactly when it has fewer answers than it needs. */
  lemma {:induction false} LoopNeeds(configMaps: map<Key, ConfigMap>, calls: nat, refs: seq<MountRef>, n: nat,
                                     hubNamespace: string, frontendURL: string)
    requires n <= |refs|
    ensures var out := VisitAll(Start(configMaps, calls), refs[..n], hubNamespace, frontendURL);
            && (out.failed <==> calls < Needed(configMaps, refs, n, hubNamespace))
            && (!out.failed ==> out.calls == calls - Needed(configMaps, refs, n, hubNamespace))
  {
    if n > 0 {
      assert refs[..n][..n - 1] == refs[..n - 1] && refs[..n][n - 1] == refs[n - 1];
      LoopNeeds(configMaps, calls, refs, n - 1, hubNamespace, frontendURL);
      if !VisitAll(Start(configMaps, calls), refs[..n - 1], hubNamespace, frontendURL).failed {
        VisitAllIs(configMaps, calls, refs, n - 1, hubNamespace, frontendURL);
      }
    }
  }

  lemma {:induction false} FailureLasts(st: State, refs: seq<MountRef>, n: nat, hubNamespace: string,
                                        frontendURL: string)
    requires n <= |refs| && VisitAll(st, refs[..n], hubNamespace, frontendURL).failed
    ensures VisitAll(st, refs, hubNamespace, frontendURL) == VisitAll(st, refs[..n], hubNamespace, frontendURL)
    decreases |refs|
  {
    if n < |refs| {
      var m := |refs| - 1;
      assert refs[..m][..n] == refs[..n];
      FailureLasts(st, refs[..m], n, hubNamespace, frontendURL);
    } else {
      assert refs[..n] == refs;
    }
  }

  /** Where a loop stops: after all references, or in the turn of reference `m`. */
  lemma StoppingPoint(st: State, refs: seq<MountRef>, hubNamespace: string, frontendURL: string) returns (m: nat)
    requires !st.failed
    ensures m <= |refs| && !VisitAll(st, refs[..m], hubNamespace, frontendURL).failed
    ensures m < |refs| ==> VisitAll(st, refs[..m + 1], hubNamespace, frontendURL).failed
    ensures VisitAll(st, refs, hubNamespace, frontendURL).configMaps ==
            VisitAll(st, refs[..m], hubNamespace, frontendURL).configMaps
    ensures VisitAll(st, refs, hubNamespace, frontendURL).failed <==> m < |refs|
  {
    if VisitAll(st, refs, hubNamespace, frontendURL).failed {
      m := FirstFailure(st, refs, hubNamespace, frontendURL);
      StopsAt(st, refs, m, hubNamespace, frontendURL);
    } else {
      m := |refs|;
      assert refs[..m] == refs;
    }
  }

  lemma {:induction false} FirstFailure(st: State, refs: seq<MountRef>, hubNamespace: string, frontendURL: string)
    returns (m: nat)
    requires !st.failed && VisitAll(st, refs, hubNamespace, frontendURL).failed
    ensures m < |refs| && !VisitAll(st, refs[..m], hubNamespace, frontendURL).failed
    ensures VisitAll(st, refs[..m + 1], hubNamespace, frontendURL).failed
    decreases |refs|
  {
    m := |refs| - 1;
    if VisitAll(st, refs[..m], hubNamespace, frontendURL).failed {
      var before := refs[..m];
      m := FirstFailure(st, before, hubNamespace, frontendURL);
      assert before[..m] == refs[..m] && before[..m + 1] == refs[..m + 1];
    } else {
      assert refs[..m + 1] == refs;
    }
  }

  lemma RefsPrefix(definitions: seq<Key>, specifications: seq<Key>, m: nat)
    returns (first: seq<Key>, second: seq<Key>)
    requires IsSorted(definitions) && IsSorted(specifications) && m <= |Refs(definitions, specifications)|
    ensures IsSorted(first) && IsSorted(second)
    ensures Refs(first, second) == Refs(definitions, specifications)[..m]
  {
    if m <= |definitions| {
      first, second := definitions[..m], [];
    } else {
      first, second := definitions, specifications[..m - |definitions|];
    }
  }

  /** After the turns of the first `m` references, these and the next one are visible or not as before. */
  lemma VisibleAfterTurns(configMaps: map<Key, ConfigMap>, definitions: seq<Key>, specifications: seq<Key>,
                          m: nat, i: nat, hubNamespace: string)
    requires IsSorted(definitions) && IsSorted(specifications)
    requires i <= m <= |Refs(definitions, specifications)| && i < |Refs(definitions, specifications)|
    ensures var refs := Refs(definitions, specifications);
            var after := configMaps + Copies(configMaps, refs[..m], hubNamespace);
            IsVisible(after, refs, i, hubNamespace) <==> IsVisible(configMaps, refs, i, hubNamespace)
  {
    var refs := Refs(definitions, specifications);
    var copies := Copies(configMaps, refs[..m], hubNamespace);
    var first, second := RefsPrefix(definitions, specifications, m);
    CopiesAreLocal(configMaps, refs[..m], hubNamespace);
    if i < m {
      VisibleAgain(configMaps, first, second, i, hubNamespace);
      assert refs[..m][..i] == refs[..i] && refs[..m][i] == refs[i];
    } else {
      CopiesAgain(configMaps, copies, refs[..m], hubNamespace);
    }
  }

  lemma {:induction false} SameNeeded(a: map<Key, ConfigMap>, b: map<Key, ConfigMap>, refs: seq<MountRef>, n: nat,
                                      hubNamespace: string)
    requires n <= |refs|
    requires forall i: nat | i < n :: IsVisible(a, refs, i, hubNamespace) <==> IsVisible(b, refs, i, hubNamespace)
    ensures Needed(a, refs, n, hubNamespace) == Needed(b, refs, n, hubNamespace)
  {
    if n > 0 {
      SameNeeded(a, b, refs, n - 1, hubNamespace);
    }
  }

  /** A second loop from where the first one stopped: on the references of the finished turns it makes the
      same copies again, and lists the same URLs and mounts. */
  lemma TurnsAgain(configMaps: map<Key, ConfigMap>, calls: nat, definitions: seq<Key>, specifications: seq<Key>,
                   m: nat, hubNamespace: string, frontendURL: string)
    requires IsSorted(definitions) && IsSorted(specifications) && m <= |Refs(definitions, specifications)|
    requires var refs := Refs(definitions, specifications);
             !VisitAll(Start(configMaps, calls), refs[..m], hubNamespace, frontendURL).failed
    ensures var refs := Refs(definitions, specifications);
            var out := VisitAll(Start(configMaps, calls), refs[..m], hubNamespace, frontendURL);
            var again := VisitAll(Start(out.configMaps, calls), refs[..m], hubNamespace, frontendURL);
            !again.failed && again.configMaps == out.configMaps && again.urls == out.urls && again.mounts == out.mounts
  {
    var refs := Refs(definitions, specifications);
    VisitAllIs(configMaps, calls, refs, m, hubNamespace, frontendURL);
    var copies := Copies(configMaps, refs[..m], hubNamespace);
    var after := configMaps + copies;
    forall i: nat | i < m
      ensures IsVisible(after, refs, i, hubNamespace) <==> IsVisible(configMaps, refs, i, hubNamespace)
    {
      VisibleAfterTurns(configMaps, definitions, specifications, m, i, hubNamespace);
    }
    SameNeeded(after, configMaps, refs, m, hubNamespace);
    LoopNeeds(configMaps, calls, refs, m, hubNamespace, frontendURL);
    LoopNeeds(after, calls, refs, m, hubNamespace, frontendURL);
    VisitAllIs(after, calls, refs, m, hubNamespace, frontendURL);
    CopiesAreLocal(configMaps, refs[..m], hubNamespace);
    CopiesAgain(configMaps, copies, refs[..m], hubNamespace);
    assert after + copies == after;
    SameVisible(after, configMaps, refs, m, hubNamespace);
  }

  /** Running the loop again on its own result, with the same answers, fails or ends as before, changes no
      ConfigMap and lists the same URLs and mounts: for every cluster, colliding copies and loops that stop
      half way included, because the references come in sorted order. */
  lemma LoopIsStable(configMaps: map<Key, ConfigMap>, calls: nat, definitions: seq<Key>,
                     specifications: seq<Key>, hubNamespace: string, frontendURL: string)
    requires IsSorted(definitions) && IsSorted(specifications)
    ensures var refs := Refs(definitions, specifications);
            var out := VisitAll(Start(configMaps, calls), refs, hubNamespace, frontendURL);
            var again := VisitAll(Start(out.configMaps, calls), refs, hubNamespace, frontendURL);
            && again.failed == out.failed && again.configMaps == out.configMaps
            && (!out.failed ==> again.urls == out.urls && again.mounts == out.mounts)
  {
    var refs := Refs(definitions, specifications);
    var m := StoppingPoint(Start(configMaps, calls), refs, hubNamespace, frontendURL);
    TurnsAgain(configMaps, calls, definitions, specifications, m, hubNamespace, frontendURL);
    if m < |refs| {
      StoppedAgain(configMaps, calls, definitions, specifications, m, hubNamespace, frontendURL);
    } else {
      assert refs[..m] == refs;
    }
  }

  lemma StoppedAgain(configMaps: map<Key, ConfigMap>, calls: nat, definitions: seq<Key>, specifications: seq<Key>,
                     m: nat, hubNamespace: string, frontendURL: string)
    requires IsSorted(definitions) && IsSorted(specifications) && m < |Refs(definitions, specifications)|
    requires var refs := Refs(definitions, specifications);
             !VisitAll(Start(configMaps, calls), refs[..m], hubNamespace, frontendURL).failed &&
             VisitAll(Start(configMaps, calls), refs[..m + 1], hubNamespace, frontendURL).failed
    ensures var refs := Refs(definitions, specifications);
            var out := VisitAll(Start(configMaps, calls), refs[..m], hubNamespace, frontendURL);
            var again := VisitAll(Start(out.configMaps, calls), refs, hubNamespace, frontendURL);
            again.failed && again.configMaps == out.configMaps
  {
    var refs := Refs(definitions, specifications);
    var after := VisitAll(Start(configMaps, calls), refs[..m], hubNamespace, frontendURL).configMaps;
    VisitAllIs(configMaps, calls, refs, m, hubNamespace, frontendURL);
    TurnsAgain(configMaps, calls, definitions, specifications, m, hubNamespace, frontendURL);
    StopsAgain(configMaps, calls, definitions, specifications, m, hubNamespace, frontendURL);
    StopsAt(Start(after, calls), refs, m, hubNamespace, frontendURL);
  }

  lemma StopsAgain(configMaps: map<Key, ConfigMap>, calls: nat, definitions: seq<Key>, specifications: seq<Key>,
                   m: nat, hubNamespace: string, frontendURL: string)
    requires IsSorted(definitions) && IsSorted(specifications) && m < |Refs(definitions, specifications)|
    requires VisitAll(Start(configMaps, calls), Refs(definitions, specifications)[..m + 1], hubNamespace,
                      frontendURL).failed
    ensures var refs := Refs(definitions, specifications);
            var after := configMaps + Copies(configMaps, refs[..m], hubNamespace);
            VisitAll(Start(after, calls), refs[..m + 1], hubNamespace, frontendURL).failed
  {
    var refs := Refs(definitions, specifications);
    var after := configMaps + Copies(configMaps, refs[..m], hubNamespace);
    forall i: nat | i < m + 1
      ensures IsVisible(after, refs, i, hubNamespace) <==> IsVisible(configMaps, refs, i, hubNamespace)
    {
      VisibleAfterTurns(configMaps, definitions, specifications, m, i, hubNamespace);
    }
    SameNeeded(after, configMaps, refs, m + 1, hubNamespace);
    LoopNeeds(configMaps, calls, refs, m + 1, hubNamespace, frontendURL);
    LoopNeeds(after, calls, refs, m + 1, hubNamespace, frontendURL);
  }

  lemma StopsAt(st: State, refs: seq<MountRef>, m: nat, hubNamespace: string, frontendURL: string)
    requires m < |refs| && !VisitAll(st, refs[..m], hubNamespace, frontendURL).failed
    requires VisitAll(st, refs[..m + 1], hubNamespace, frontendURL).failed
    ensures VisitAll(st, refs, hubNamespace, frontendURL).failed
    ensures VisitAll(st, refs, hubNamespace, frontendURL).configMaps ==
            VisitAll(st, refs[..m], hubNamespace, frontendURL).configMaps
  {
    FailureLasts(st, refs, m + 1, hubNamespace, frontendURL);
    assert refs[..m + 1][..m] == refs[..m];
  }
}
