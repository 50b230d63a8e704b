/** `generateOpenAPI`: many rewritten definitions folded into one document. */
module Unification {
  import opened Wrappers
  import opened Text
  import opened JsonPointer
  import opened RefRewriting

  const PATHS := "paths"
  const SECURITY_SCHEMES := "securitySchemes"
  const TAGS := "tags"

  type JsonMap = map<string, Json>

  /** A definition that loaded: its name, its document before the rewriting, and its base path. */
  datatype Source = Source(name: string, doc: JsonMap, basePath: string)

  predicate AllObjects(m: JsonMap) {
    forall k | k in m :: m[k].Obj?
  }

  predicate NoStrings(m: JsonMap) {
    forall k | k in m :: !m[k].Str?
  }

  /** What the loader accepts: path items and security schemes are objects, no schema is a string. */
  predicate HasObjects(doc: JsonMap) {
    && NoStrings(MembersOf(MembersOf(doc, COMPONENTS), SCHEMAS))
    && AllObjects(PathsOf(doc))
    && AllObjects(SecuritySchemesOf(doc))
  }

  predicate IsSource(s: Source) {
    Rewritable(s.doc) && HasObjects(s.doc)
  }

  /** The parts of the merged document. */
  datatype Parts = Parts(schemas: JsonMap, securitySchemes: JsonMap, paths: JsonMap)

  const NOTHING := Parts(map[], map[], map[])

  function MembersOf(doc: JsonMap, key: string): JsonMap {
    if key in doc && doc[key].Obj? then doc[key].fields else map[]
  }

  /** The paths of a document; a member `x-...` is an extension. */
  function PathsOf(doc: JsonMap): JsonMap {
    var members := MembersOf(doc, PATHS);
    map p | p in members && !HasPrefix(p, "x-") :: members[p]
  }

  function SecuritySchemesOf(doc: JsonMap): JsonMap {
    MembersOf(MembersOf(doc, COMPONENTS), SECURITY_SCHEMES)
  }

  predicate IsObjectAt(doc: JsonMap, tokens: seq<string>) {
    Walk(Obj(doc), tokens).Some? && Walk(Obj(doc), tokens).value.Obj?
  }

  /** The paths and the security schemes of a document are what it has at those places. */
  lemma PartsRead(doc: JsonMap, k: string, v: Json)
    ensures (k in PathsOf(doc) && PathsOf(doc)[k] == v) <==>
            (!HasPrefix(k, "x-") && IsObjectAt(doc, ["paths"]) && Walk(Obj(doc), ["paths", k]) == Some(v))
    ensures (k in SecuritySchemesOf(doc) && SecuritySchemesOf(doc)[k] == v) <==>
            (IsObjectAt(doc, ["components", "securitySchemes"]) &&
             Walk(Obj(doc), ["components", "securitySchemes", k]) == Some(v))
  {
    MemberRead(doc, "paths", k, v);
    MemberOfMemberRead(doc, "components", "securitySchemes", k, v);
  }

  lemma MemberRead(doc: JsonMap, a: string, k: string, v: Json)
    ensures (k in MembersOf(doc, a) && MembersOf(doc, a)[k] == v) <==>
            (IsObjectAt(doc, [a]) && Walk(Obj(doc), [a, k]) == Some(v))
  {
    WalkOn(doc, a, []);
    WalkOn(doc, a, [k]);
    if a in doc && doc[a].Obj? {
      WalkOn(doc[a].fields, k, []);
    }
    assert [a] + [] == [a] && [a] + [k] == [a, k] && [k] + [] == [k];
  }

  lemma MemberOfMemberRead(doc: JsonMap, a: string, b: string, k: string, v: Json)
    requires forall i | 0 <= i < |b| :: !('0' <= b[i] <= '9')
    ensures (k in MembersOf(MembersOf(doc, a), b) && MembersOf(MembersOf(doc, a), b)[k] == v) <==>
            (IsObjectAt(doc, [a, b]) && Walk(Obj(doc), [a, b, k]) == Some(v))
  {
    MemberRead(MembersOf(doc, a), b, k, v);
    WalkOn(doc, a, [b]);
    WalkOn(doc, a, [b, k]);
    assert !IsIndex(b);
    assert [a] + [b] == [a, b] && [a] + [b, k] == [a, b, k];
  }

  // ---- Tags -----------------------------------------------------------------------------------

  /** The operations of a path item. */
  predicate IsMethod(k: string) {
    k in {"connect", "delete", "get", "head", "options", "patch", "post", "put", "trace"}
  }

  function TagsOf(name: string): Json {
    Arr([Str(name)])
  }

  function Tagged(op: Json, name: string): Json {
    if op.Obj? then Obj(op.fields[TAGS := TagsOf(name)]) else op
  }

  /** `op.Tags = []string{name}` on every operation of a path item. */
  function TaggedItem(item: Json, name: string): Json {
    if item.Obj?
    then Obj(map k | k in item.fields :: if IsMethod(k) then Tagged(item.fields[k], name) else item.fields[k])
    else item
  }

  function TaggedItems(paths: JsonMap, name: string): JsonMap {
    map p | p in paths :: TaggedItem(paths[p], name)
  }

  // ---- Base path ------------------------------------------------------------------------------

  function AtBase(basePath: string, path: string): string {
    if basePath == "/" then path else basePath + path
  }

  /** Every path moved below the base path; distinct paths stay distinct. */
  function MovedPaths(paths: JsonMap, basePath: string): (r: JsonMap)
    ensures forall p {:trigger AtBase(basePath, p)} :: p in paths <==> AtBase(basePath, p) in r
    ensures forall p {:trigger AtBase(basePath, p)} :: p in paths ==> r[AtBase(basePath, p)] == paths[p]
    ensures forall q :: q in r ==> exists p :: p in paths && q == AtBase(basePath, p)
  {
    AtBaseInjective(basePath);
    var keys := set p | p in paths :: AtBase(basePath, p);
    map q | q in keys :: paths[q[BaseLength(basePath)..]]
  }

  /** The path below the base path: put after it, unless that is "/". */
  predicate IsBelow(basePath: string, path: string, q: string) {
    (basePath == "/" ==> q == path) && (basePath != "/" ==> q == basePath + path)
  }

  /** The moved paths are the paths below the base path, with their items. */
  lemma MovedExactly(paths: JsonMap, basePath: string)
    ensures forall p, q | p in paths && IsBelow(basePath, p, q) ::
              q in MovedPaths(paths, basePath) && MovedPaths(paths, basePath)[q] == paths[p]
    ensures forall q | q in MovedPaths(paths, basePath) :: exists p :: p in paths && IsBelow(basePath, p, q)
  {
    assert forall p, q :: IsBelow(basePath, p, q) <==> q == AtBase(basePath, p);
  }

  lemma AtBaseInjective(basePath: string)
    ensures forall p {:trigger AtBase(basePath, p)} :: AtBase(basePath, p)[BaseLength(basePath)..] == p
  {}

  function BaseLength(basePath: string): nat {
    if basePath == "/" then 0 else |basePath|
  }

  // ---- The merge ------------------------------------------------------------------------------

  /** What one definition puts into the merged document. */
  function Contribution(s: Source): Parts
    requires IsSource(s)
  {
    RewrittenSchemas(s.doc, Prefixer(s.name), s.name);
    var doc := Rewritten(s.doc, s.name);
    Parts(SchemasOf(doc), SecuritySchemesOf(doc), MovedPaths(TaggedItems(PathsOf(doc), s.name), s.basePath))
  }

  /** Later entries replace earlier ones. */
  function Overlay(a: Parts, b: Parts): Parts {
    Parts(a.schemas + b.schemas, a.securitySchemes + b.securitySchemes, a.paths + b.paths)
  }

  predicate AreSources(sources: seq<Source>) {
    forall i | 0 <= i < |sources| :: IsSource(sources[i])
  }

  function MapSeq<A, B>(xs: seq<A>, f: A --> B): seq<B>
    requires forall i | 0 <= i < |xs| :: f.requires(xs[i])
  {
    seq(|xs|, i requires 0 <= i < |xs| => f(xs[i]))
  }

  lemma MapSeqAppend<A, B>(xs: seq<A>, x: A, f: A --> B)
    requires (forall i | 0 <= i < |xs| :: f.requires(xs[i])) && f.requires(x)
    ensures forall i | 0 <= i < |xs + [x]| :: f.requires((xs + [x])[i])
    ensures MapSeq(xs + [x], f) == MapSeq(xs, f) + [f(x)]
  {}

  function Contributions(sources: seq<Source>): seq<Parts>
    requires AreSources(sources)
  {
    MapSeq(sources, Contributor())
  }

  function Contributor(): Source --> Parts {
    s requires IsSource(s) => Contribution(s)
  }

  /** All contributions, the last writer of a key winning. */
  function Merge(parts: seq<Parts>): Parts {
    if parts == [] then NOTHING else Overlay(Merge(parts[..|parts| - 1]), parts[|parts| - 1])
  }

  /** The head of the merged document; none of it comes from the definitions. */
  datatype Head = Head(
    title: string, description: string, termsOfService: string, contact: Contact, license: License,
    servers: seq<Server>)
  datatype Contact = Contact(name: string, email: string, url: string)
  datatype License = License(name: string, url: string)
  datatype Server = Server(url: string, description: string)

  function InfoJson(h: Head): Json {
    Obj(map["title" := Str(h.title), "description" := Str(h.description),
            "termsOfService" := Str(h.termsOfService),
            "contact" := Obj(map["name" := Str(h.contact.name), "email" := Str(h.contact.email),
                                 "url" := Str(h.contact.url)]),
            "license" := Obj(map["name" := Str(h.license.name), "url" := Str(h.license.url)])])
  }

  function ServerJson(s: Server): Json {
    Obj(map["url" := Str(s.url), "description" := Str(s.description)])
  }

  function ServersJson(h: Head): Json {
    Arr(seq(|h.servers|, i requires 0 <= i < |h.servers| => ServerJson(h.servers[i])))
  }

  function ComponentsJson(parts: Parts): JsonMap {
    map[SCHEMAS := Obj(parts.schemas), SECURITY_SCHEMES := Obj(parts.securitySchemes)]
  }

  function Document(h: Head, parts: Parts): JsonMap {
    map["openapi" := Str("3.0.1"), "info" := InfoJson(h), "servers" := ServersJson(h),
        COMPONENTS := Obj(ComponentsJson(parts)), PATHS := Obj(parts.paths)]
  }

  lemma DocumentSchemas(h: Head, parts: Parts)
    ensures HasSchemaShape(Document(h, parts)) && SchemasOf(Document(h, parts)) == parts.schemas
  {
    assert SCHEMAS != SECURITY_SCHEMES && COMPONENTS != PATHS;
  }

  /** The merged document holds the merged schemas, security schemes and paths, and nothing but them and a head. */
  lemma DocumentParts(h: Head, parts: Parts)
    ensures var doc := Document(h, parts);
            && doc.Keys == {"openapi", "info", "servers", "components", "paths"}
            && MembersOf(doc, "paths") == parts.paths
            && MembersOf(doc, "components").Keys == {"schemas", "securitySchemes"}
            && MembersOf(MembersOf(doc, "components"), "schemas") == parts.schemas
            && MembersOf(MembersOf(doc, "components"), "securitySchemes") == parts.securitySchemes
            && SecuritySchemesOf(doc) == parts.securitySchemes
  {
    assert SCHEMAS != SECURITY_SCHEMES && COMPONENTS != PATHS;
  }

  // ---- Reading the head -----------------------------------------------------------------------

  /** What a reference to a place in the document denotes. */
  function At(doc: JsonMap, tokens: seq<string>): Option<Json> {
    Resolve(Obj(doc), PointerTo(tokens))
  }

  /** The texts of `info` are those of the specification, and there are no others. */
  lemma InfoRead(h: Head, parts: Parts)
    ensures var doc := Document(h, parts);
            var texts := map["title" := h.title, "description" := h.description,
                             "termsOfService" := h.termsOfService];
            && At(doc, ["openapi"]) == Some(Str("3.0.1"))
            && (forall k | k in texts :: At(doc, ["info", k]) == Some(Str(texts[k])))
            && MembersOf(doc, "info").Keys == texts.Keys + {"contact", "license"}
  {
    var doc := Document(h, parts);
    var texts := map["title" := h.title, "description" := h.description, "termsOfService" := h.termsOfService];
    HeadFields(h, parts);
    InfoFields(h);
    ReadField(doc, "openapi");
    forall k | k in texts ensures At(doc, ["info", k]) == Some(Str(texts[k])) {
      ReadBelow(doc, "info", k);
    }
  }

  /** So are those of `contact` and `license`. */
  lemma ContactRead(h: Head, parts: Parts)
    ensures var doc := Document(h, parts);
            var contact := map["name" := h.contact.name, "email" := h.contact.email, "url" := h.contact.url];
            && (forall k | k in contact :: At(doc, ["info", "contact", k]) == Some(Str(contact[k])))
            && MembersOf(MembersOf(doc, "info"), "contact").Keys == contact.Keys
  {
    var doc := Document(h, parts);
    var contact := map["name" := h.contact.name, "email" := h.contact.email, "url" := h.contact.url];
    HeadFields(h, parts);
    InfoFields(h);
    forall k | k in contact ensures At(doc, ["info", "contact", k]) == Some(Str(contact[k])) {
      ReadWithin(doc, "info", "contact", k);
    }
  }

  lemma LicenseRead(h: Head, parts: Parts)
    ensures var doc := Document(h, parts);
            var license := map["name" := h.license.name, "url" := h.license.url];
            && (forall k | k in license :: At(doc, ["info", "license", k]) == Some(Str(license[k])))
            && MembersOf(MembersOf(doc, "info"), "license").Keys == license.Keys
  {
    var doc := Document(h, parts);
    var license := map["name" := h.license.name, "url" := h.license.url];
    HeadFields(h, parts);
    InfoFields(h);
    forall k | k in license ensures At(doc, ["info", "license", k]) == Some(Str(license[k])) {
      ReadWithin(doc, "info", "license", k);
    }
  }

  /** The servers are those of the specification, each at its index, and there are no others. */
  lemma ServersRead(h: Head, parts: Parts, i: nat)
    ensures var doc := Document(h, parts);
            && (i < |h.servers| ==> At(doc, ["servers", Decimal(i), "url"]) == Some(Str(h.servers[i].url)))
            && (i < |h.servers| ==>
                  At(doc, ["servers", Decimal(i), "description"]) == Some(Str(h.servers[i].description)))
            && (i >= |h.servers| ==> At(doc, ["servers", Decimal(i)]) == None)
  {
    var doc := Document(h, parts);
    HeadFields(h, parts);
    if i < |h.servers| {
      ServerFields(h.servers[i]);
      ReadItem(doc, "servers", i, "url");
      ReadItem(doc, "servers", i, "description");
    } else {
      ReadNoItem(doc, "servers", i);
    }
  }

  lemma ServerFields(s: Server)
    ensures var fields := ServerJson(s).fields;
            && "url" in fields && fields["url"] == Str(s.url)
            && "description" in fields && fields["description"] == Str(s.description)
  {}

  lemma HeadFields(h: Head, parts: Parts)
    ensures var doc := Document(h, parts);
            && doc.Keys == {"openapi", "info", "servers", "components", "paths"}
            && doc["openapi"] == Str("3.0.1") && doc["info"] == InfoJson(h) && doc["servers"] == ServersJson(h)
  {}

  lemma InfoFields(h: Head)
    ensures var info := InfoJson(h).fields;
            && info.Keys == {"title", "description", "termsOfService", "contact", "license"}
            && info["contact"].Obj? && info["license"].Obj?
            && info["contact"].fields == map["name" := Str(h.contact.name), "email" := Str(h.contact.email),
                                             "url" := Str(h.contact.url)]
            && info["license"].fields == map["name" := Str(h.license.name), "url" := Str(h.license.url)]
            && info["title"] == Str(h.title) && info["description"] == Str(h.description)
            && info["termsOfService"] == Str(h.termsOfService)
  {}

  lemma ReadField(doc: JsonMap, a: string)
    requires a in doc
    ensures At(doc, [a]) == Some(doc[a])
  {
    PointerRoundTrip([a]);
    WalkOn(doc, a, []);
    assert [a] + [] == [a];
  }

  lemma ReadBelow(doc: JsonMap, a: string, b: string)
    requires a in doc && doc[a].Obj? && b in doc[a].fields
    ensures At(doc, [a, b]) == Some(doc[a].fields[b])
  {
    PointerRoundTrip([a, b]);
    WalkOn(doc, a, [b]);
    WalkOn(doc[a].fields, b, []);
    assert [a] + [b] == [a, b] && [b] + [] == [b];
  }

  lemma ReadWithin(doc: JsonMap, a: string, b: string, c: string)
    requires a in doc && doc[a].Obj? && b in doc[a].fields
    requires doc[a].fields[b].Obj? && c in doc[a].fields[b].fields
    ensures At(doc, [a, b, c]) == Some(doc[a].fields[b].fields[c])
  {
    PointerRoundTrip([a, b, c]);
    WalkOn(doc, a, [b, c]);
    WalkOn(doc[a].fields, b, [c]);
    WalkOn(doc[a].fields[b].fields, c, []);
    assert [a] + [b, c] == [a, b, c] && [b] + [c] == [b, c] && [c] + [] == [c];
  }

  lemma ReadItem(doc: JsonMap, a: string, i: nat, b: string)
    requires a in doc && doc[a].Arr? && i < |doc[a].items|
    requires doc[a].items[i].Obj? && b in doc[a].items[i].fields
    ensures At(doc, [a, Decimal(i), b]) == Some(doc[a].items[i].fields[b])
  {
    IndexRoundTrip(i);
    PointerRoundTrip([a, Decimal(i), b]);
    WalkOn(doc, a, [Decimal(i), b]);
    WalkItem(doc[a].items, i, [b]);
    WalkOn(doc[a].items[i].fields, b, []);
    assert [a] + [Decimal(i), b] == [a, Decimal(i), b] && [Decimal(i)] + [b] == [Decimal(i), b] && [b] + [] == [b];
  }

  lemma ReadNoItem(doc: JsonMap, a: string, i: nat)
    requires a in doc && doc[a].Arr? && i >= |doc[a].items|
    ensures At(doc, [a, Decimal(i)]) == None
  {
    IndexRoundTrip(i);
    PointerRoundTrip([a, Decimal(i)]);
    WalkOn(doc, a, [Decimal(i)]);
    WalkItem(doc[a].items, i, []);
    assert [a] + [Decimal(i)] == [a, Decimal(i)] && [Decimal(i)] + [] == [Decimal(i)];
  }

  /** The document unified from the sources, and its paths. */
  function Unified(h: Head, sources: seq<Source>): JsonMap
    requires AreSources(sources)
  {
    Document(h, Merge(Contributions(sources)))
  }

  function UnifiedPaths(h: Head, sources: seq<Source>): JsonMap
    requires AreSources(sources)
  {
    MembersOf(Unified(h, sources), PATHS)
  }

  // ---- Who wrote a key ------------------------------------------------------------------------

  /** The last definition that writes a key. */
  ghost predicate IsLastWriter(maps: seq<JsonMap>, i: int, k: string) {
    0 <= i < |maps| && k in maps[i] && forall j | i < j < |maps| :: k !in maps[j]
  }

  function SchemaMaps(parts: seq<Parts>): seq<JsonMap> {
    seq(|parts|, i requires 0 <= i < |parts| => parts[i].schemas)
  }

  function SecurityMaps(parts: seq<Parts>): seq<JsonMap> {
    seq(|parts|, i requires 0 <= i < |parts| => parts[i].securitySchemes)
  }

  function PathMaps(parts: seq<Parts>): seq<JsonMap> {
    seq(|parts|, i requires 0 <= i < |parts| => parts[i].paths)
  }

  function OverlayAll(maps: seq<JsonMap>): JsonMap {
    if maps == [] then map[] else OverlayAll(maps[..|maps| - 1]) + maps[|maps| - 1]
  }

  lemma {:induction false} MergeIsOverlay(parts: seq<Parts>)
    ensures Merge(parts).schemas == OverlayAll(SchemaMaps(parts))
    ensures Merge(parts).securitySchemes == OverlayAll(SecurityMaps(parts))
    ensures Merge(parts).paths == OverlayAll(PathMaps(parts))
  {
    if parts != [] {
      var n := |parts| - 1;
      MergeIsOverlay(parts[..n]);
      assert SchemaMaps(parts)[..n] == SchemaMaps(parts[..n]);
      assert SecurityMaps(parts)[..n] == SecurityMaps(parts[..n]);
      assert PathMaps(parts)[..n] == PathMaps(parts[..n]);
    }
  }

  lemma {:induction false} OverlaidBy(maps: seq<JsonMap>, k: string)
    ensures k in OverlayAll(maps) <==> exists i :: IsLastWriter(maps, i, k)
    ensures forall i :: IsLastWriter(maps, i, k) ==> OverlayAll(maps)[k] == maps[i][k]
  {
    if maps != [] {
      var n := |maps| - 1;
      var before := maps[..n];
      OverlaidBy(before, k);
      if k in maps[n] {
        assert IsLastWriter(maps, n, k);
      } else {
        assert forall i :: IsLastWriter(maps, i, k) <==> IsLastWriter(before, i, k);
      }
    }
  }

  /** A merged key is there exactly when some definition wrote it, and has the value its last writer gave
      it: schemas, security schemes and paths alike. */
  lemma LastWriterWins(parts: seq<Parts>, k: string)
    ensures k in Merge(parts).schemas <==> exists i :: IsLastWriter(SchemaMaps(parts), i, k)
    ensures k in Merge(parts).securitySchemes <==> exists i :: IsLastWriter(SecurityMaps(parts), i, k)
    ensures k in Merge(parts).paths <==> exists i :: IsLastWriter(PathMaps(parts), i, k)
    ensures forall i :: IsLastWriter(SchemaMaps(parts), i, k) ==> Merge(parts).schemas[k] == parts[i].schemas[k]
    ensures forall i :: IsLastWriter(SecurityMaps(parts), i, k) ==>
              Merge(parts).securitySchemes[k] == parts[i].securitySchemes[k]
    ensures forall i :: IsLastWriter(PathMaps(parts), i, k) ==> Merge(parts).paths[k] == parts[i].paths[k]
  {
    MergeIsOverlay(parts);
    OverlaidBy(SchemaMaps(parts), k);
    OverlaidBy(SecurityMaps(parts), k);
    OverlaidBy(PathMaps(parts), k);
  }
}
