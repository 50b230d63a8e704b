/** What the merged document keeps of its sources: schemas, meanings, resolved references, tags. */
module UnificationProperties {
  import opened Text
  import opened JsonPointer
  import opened References
  import opened RefRewriting
  import opened Unification

  // ---- Which names keep their schemas apart ---------------------------------------------------

  /** Neither name is the other one, nor the other one continued after a dot. */
  predicate Separate(a: string, b: string) {
    a != b && !HasPrefix(b, a + ".") && !HasPrefix(a, b + ".")
  }

  lemma QualifiedApart(a: string, ka: string, b: string, kb: string)
    requires |a| <= |b| && Qualified(a, ka) == Qualified(b, kb)
    ensures !Separate(a, b)
  {
    var q := Qualified(a, ka);
    assert q[..|a|] == a && q[|a|] == '.' && q == b + "." + kb;
    if |a| == |b| {
      assert q[..|b|] == b;
    } else {
      assert b == q[..|b|];
      assert b[..|a| + 1] == a + ".";
    }
  }

  /** Two definitions can write the same merged schema key exactly when their names are not separate. */
  lemma SeparateExactly(a: string, b: string)
    ensures Separate(a, b) <==> forall ka, kb :: Qualified(a, ka) != Qualified(b, kb)
  {
    if Separate(a, b) {
      forall ka, kb ensures Qualified(a, ka) != Qualified(b, kb) {
        if Qualified(a, ka) == Qualified(b, kb) {
          if |a| <= |b| { QualifiedApart(a, ka, b, kb); } else { QualifiedApart(b, kb, a, ka); }
        }
      }
    } else {
      var ka, kb := CollidingKeys(a, b);
    }
  }

  /** Schemas of definitions with names that are not separate, under one merged key. */
  lemma CollidingKeys(a: string, b: string) returns (ka: string, kb: string)
    requires !Separate(a, b)
    ensures Qualified(a, ka) == Qualified(b, kb)
    ensures ka != REF && kb != REF
    ensures IsObjectName(a) && IsObjectName(b) ==> IsObjectName(ka) && IsObjectName(kb)
  {
    ka, kb := "x", "x";
    assert "x"[0] == 'x' && "x" != REF;
    if a != b {
      if HasPrefix(b, a + ".") {
        ka := ContinuedKey(a, b);
      } else {
        kb := ContinuedKey(b, a);
      }
    }
  }

  lemma ContinuedKey(a: string, b: string) returns (k: string)
    requires HasPrefix(b, a + ".")
    ensures Qualified(a, k) == Qualified(b, "x") && k != REF
    ensures IsObjectName(b) ==> IsObjectName(k)
  {
    var rest := b[|a| + 1..];
    k := Qualified(rest, "x");
    assert b == a + "." + rest;
    assert Qualified(a, k) == a + "." + rest + "." + "x";
    QualifiedIsNotRef(rest, "x");
    if IsObjectName(b) {
      forall c | c in k ensures c in b || c == '.' || c == 'x' {
        var i :| 0 <= i < |k| && k[i] == c;
        if i < |rest| {
          assert c == b[|a| + 1 + i];
        }
      }
    }
  }

  predicate NamesSeparate(names: seq<string>) {
    forall i, j | 0 <= i < |names| && 0 <= j < |names| && i != j :: Separate(names[i], names[j])
  }

  function NamesOf(sources: seq<Source>): seq<string> {
    seq(|sources|, i requires 0 <= i < |sources| => sources[i].name)
  }

  // ---- Conservation of schemas ----------------------------------------------------------------

  lemma RefIsNoSchema(s: Source)
    requires IsSource(s)
    ensures REF !in SchemasOf(s.doc)
  {
    assert COMPONENTS != REF && SCHEMAS != REF;
    if COMPONENTS in s.doc && SCHEMAS in s.doc[COMPONENTS].fields {
      assert RefsAreStrings(s.doc[COMPONENTS]) && RefsAreStrings(s.doc[COMPONENTS].fields[SCHEMAS]);
      assert SchemasOf(s.doc) == MembersOf(MembersOf(s.doc, COMPONENTS), SCHEMAS);
    }
  }

  lemma ContributedSchemas(s: Source)
    requires IsSource(s)
    ensures |Contribution(s).schemas| == |SchemasOf(s.doc)|
    ensures forall key {:trigger Qualified(s.name, key)} ::
              key in SchemasOf(s.doc) <==> Qualified(s.name, key) in Contribution(s).schemas
    ensures forall key :: key in SchemasOf(s.doc) ==>
              Contribution(s).schemas[Qualified(s.name, key)] == Prefixed(SchemasOf(s.doc)[key], s.name)
    ensures forall q :: q in Contribution(s).schemas ==> exists key :: q == Qualified(s.name, key)
  {
    var f := Prefixer(s.name);
    RefIsNoSchema(s);
    MapRefsShape(s.doc, f);
    RewrittenSchemas(s.doc, f, s.name);
    assert Contribution(s).schemas == RenameKeys(MappedSchemas(s.doc, f), s.name);
  }

  /** Every schema of every definition is in the merged document, under its own key, rewritten. */
  ghost predicate SchemasKept(sources: seq<Source>)
    requires AreSources(sources)
  {
    forall i, key :: 0 <= i < |sources| && key in SchemasOf(sources[i].doc) ==>
      var q := Qualified(sources[i].name, key);
      var schemas := Merge(Contributions(sources)).schemas;
      q in schemas && schemas[q] == Prefixed(SchemasOf(sources[i].doc)[key], sources[i].name)
  }

  lemma WritersApart(sources: seq<Source>, i: int, j: int)
    requires AreSources(sources) && NamesSeparate(NamesOf(sources))
    requires 0 <= i < |sources| && 0 <= j < |sources| && i != j
    ensures Contribution(sources[i]).schemas.Keys !! Contribution(sources[j]).schemas.Keys
    ensures forall key {:trigger Qualified(sources[i].name, key)} ::
              Qualified(sources[i].name, key) !in Contribution(sources[j]).schemas
  {
    var a, b := NamesOf(sources)[i], NamesOf(sources)[j];
    SeparateExactly(a, b);
    ContributedSchemas(sources[i]);
    ContributedSchemas(sources[j]);
  }

  /** With separate names, a key of definition `i` is in the merged schemas exactly when `i` wrote it. */
  lemma OwnKeys(sources: seq<Source>, i: int, key: string)
    requires AreSources(sources) && NamesSeparate(NamesOf(sources)) && 0 <= i < |sources|
    ensures var q := Qualified(sources[i].name, key);
            var merged, own := Merge(Contributions(sources)).schemas, Contribution(sources[i]).schemas;
            (q in merged <==> q in own) && (q in own ==> merged[q] == own[q])
  {
    var parts := Contributions(sources);
    forall j | 0 <= j < |parts| && j != i ensures Qualified(sources[i].name, key) !in parts[j].schemas {
      WritersApart(sources, i, j);
    }
    SoleWriter(parts, i, Qualified(sources[i].name, key));
  }

  lemma SoleWriter(parts: seq<Parts>, i: int, q: string)
    requires 0 <= i < |parts|
    requires forall j | 0 <= j < |parts| && j != i :: q !in parts[j].schemas
    ensures q in Merge(parts).schemas <==> q in parts[i].schemas
    ensures q in parts[i].schemas ==> Merge(parts).schemas[q] == parts[i].schemas[q]
  {
    LastWriterWins(parts, q);
    if q in parts[i].schemas {
      assert IsLastWriter(SchemaMaps(parts), i, q);
    }
  }

  lemma SeparateKeeps(sources: seq<Source>)
    requires AreSources(sources) && NamesSeparate(NamesOf(sources))
    ensures SchemasKept(sources)
  {
    forall i, key | 0 <= i < |sources| && key in SchemasOf(sources[i].doc)
      ensures var q := Qualified(sources[i].name, key);
              var schemas := Merge(Contributions(sources)).schemas;
              q in schemas && schemas[q] == Prefixed(SchemasOf(sources[i].doc)[key], sources[i].name)
    {
      ContributedSchemas(sources[i]);
      OwnKeys(sources, i, key);
    }
  }

  /** A small document. */
  function SmallDocument(schemas: JsonMap, paths: JsonMap): JsonMap {
    map["openapi" := Str("3.0.1"), "info" := Obj(map["title" := Str("a"), "version" := Str("1")]), PATHS := Obj(paths),
        COMPONENTS := Obj(map[SCHEMAS := Obj(schemas)])]
  }

  /** A schema of that type. */
  function TypeSchema(kind: string): Json {
    Obj(map["type" := Str(kind)])
  }

  lemma SmallDocumentIsSource(schemas: JsonMap, paths: JsonMap)
    requires RefsAreStrings(Obj(schemas)) && AllObjects(schemas)
    requires RefsAreStrings(Obj(paths)) && AllObjects(paths) && forall p | p in paths :: !HasPrefix(p, "x-")
    ensures Rewritable(SmallDocument(schemas, paths)) && HasObjects(SmallDocument(schemas, paths))
    ensures SchemasOf(SmallDocument(schemas, paths)) == schemas && PathsOf(SmallDocument(schemas, paths)) == paths
  {
    SmallDocumentRefs(schemas, paths);
    SmallDocumentMembers(schemas, paths);
  }

  lemma SmallDocumentRefs(schemas: JsonMap, paths: JsonMap)
    requires RefsAreStrings(Obj(schemas)) && RefsAreStrings(Obj(paths))
    ensures RefsAreStrings(Obj(SmallDocument(schemas, paths)))
  {
    assert COMPONENTS != REF && SCHEMAS != REF && PATHS != REF;
    assert RefsAreStrings(Obj(map[SCHEMAS := Obj(schemas)]));
    assert RefsAreStrings(SmallDocument(schemas, paths)["info"]);
  }

  lemma SmallDocumentMembers(schemas: JsonMap, paths: JsonMap)
    requires AllObjects(schemas) && AllObjects(paths) && forall p | p in paths :: !HasPrefix(p, "x-")
    ensures HasSchemaShape(SmallDocument(schemas, paths)) && HasObjects(SmallDocument(schemas, paths))
    ensures SchemasOf(SmallDocument(schemas, paths)) == schemas && PathsOf(SmallDocument(schemas, paths)) == paths
  {
    var doc := SmallDocument(schemas, paths);
    assert PATHS != COMPONENTS && SCHEMAS != SECURITY_SCHEMES;
    assert MembersOf(doc, COMPONENTS) == map[SCHEMAS := Obj(schemas)];
    assert MembersOf(doc, PATHS) == paths && SecuritySchemesOf(doc) == map[];
  }

  function OneSchema(key: string, kind: string): JsonMap {
    SmallDocument(map[key := TypeSchema(kind)], map[])
  }

  lemma OneSchemaIsSource(key: string, kind: string)
    requires key != REF
    ensures Rewritable(OneSchema(key, kind)) && HasObjects(OneSchema(key, kind))
    ensures SchemasOf(OneSchema(key, kind)) == map[key := TypeSchema(kind)]
  {
    TypeHasNoRefs(key, kind);
    SmallDocumentIsSource(map[key := TypeSchema(kind)], map[]);
  }

  lemma TypeHasNoRefs(key: string, kind: string)
    requires key != REF
    ensures RefsAreStrings(Obj(map[key := TypeSchema(kind)]))
    ensures forall ok: string -> bool :: AllRefs(Obj(map[key := TypeSchema(kind)]), ok)
  {
    assert "type" != REF;
    assert RefsAreStrings(TypeSchema(kind));
    assert forall ok: string -> bool :: AllRefs(TypeSchema(kind), ok);
  }

  /** A type is no reference: the rewriting keeps it. */
  lemma TypesStay(kind: string, name: string)
    ensures Prefixed(TypeSchema(kind), name) == TypeSchema(kind)
  {
    var f := Prefixer(name);
    assert "type" != REF && MapRefs(Str(kind), f) == Str(kind);
    assert MapRefs(TypeSchema(kind), f).fields.Keys == {"type"};
    assert MapRefs(TypeSchema(kind), f).fields["type"] == Str(kind);
  }

  /** Every schema is an object, as the loader of OpenAPI 3.0 has it. */
  predicate HaveObjectSchemas(sources: seq<Source>)
    requires AreSources(sources)
  {
    forall i | 0 <= i < |sources| :: AllObjects(SchemasOf(sources[i].doc))
  }

  /** Whatever the documents, no schema is lost or overwritten if and only if the names of the
      definitions are separate. Distinct names are not enough: `a` and `a.b` collide. It makes no
      difference to ask only for documents whose schemas are objects. */
  lemma SchemasKeptExactly(names: seq<string>)
    ensures NamesSeparate(names) <==>
            forall sources | AreSources(sources) && NamesOf(sources) == names :: SchemasKept(sources)
    ensures NamesSeparate(names) <==>
            forall sources | AreSources(sources) && NamesOf(sources) == names && HaveObjectSchemas(sources) ::
              SchemasKept(sources)
  {
    if NamesSeparate(names) {
      forall sources | AreSources(sources) && NamesOf(sources) == names ensures SchemasKept(sources) {
        SeparateKeeps(sources);
      }
    } else {
      var i, j :| 0 <= i < |names| && 0 <= j < |names| && i != j && !Separate(names[i], names[j]);
      var sources := CollidingSources(names, i, j);
    }
  }

  lemma CollidingSources(names: seq<string>, i: int, j: int) returns (sources: seq<Source>)
    requires 0 <= i < |names| && 0 <= j < |names| && i != j && !Separate(names[i], names[j])
    ensures AreSources(sources) && NamesOf(sources) == names && HaveObjectSchemas(sources) && !SchemasKept(sources)
  {
    var ki, kj := CollidingKeys(names[i], names[j]);
    sources := seq(|names|, n requires 0 <= n < |names| =>
      Source(names[n], if n == i then OneSchema(ki, "string") else OneSchema(kj, "integer"), ""));
    OneSchemaIsSource(ki, "string");
    OneSchemaIsSource(kj, "integer");
    forall n | 0 <= n < |sources| ensures IsSource(sources[n]) && AllObjects(SchemasOf(sources[n].doc)) {
    }
    assert NamesOf(sources) == names;
    CollisionLoses(sources, i, j, ki, kj);
  }

  lemma CollisionLoses(sources: seq<Source>, i: int, j: int, ki: string, kj: string)
    requires AreSources(sources) && 0 <= i < |sources| && 0 <= j < |sources|
    requires Qualified(sources[i].name, ki) == Qualified(sources[j].name, kj)
    requires SchemasOf(sources[i].doc) == map[ki := TypeSchema("string")]
    requires SchemasOf(sources[j].doc) == map[kj := TypeSchema("integer")]
    ensures !SchemasKept(sources)
  {
    TypesStay("string", sources[i].name);
    TypesStay("integer", sources[j].name);
    assert ki in SchemasOf(sources[i].doc) && kj in SchemasOf(sources[j].doc);
    TypesDiffer();
  }

  lemma TypesDiffer()
    ensures TypeSchema("string") != TypeSchema("integer")
  {
    var s, i := TypeSchema("string").fields, TypeSchema("integer").fields;
    assert s["type"] != i["type"];
  }

  // ---- The number of schemas ------------------------------------------------------------------

  function TotalSize(maps: seq<JsonMap>): nat {
    if maps == [] then 0 else TotalSize(maps[..|maps| - 1]) + |maps[|maps| - 1]|
  }

  lemma {:induction false} DisjointSize(maps: seq<JsonMap>)
    requires forall i, j | 0 <= i < |maps| && 0 <= j < |maps| && i != j :: maps[i].Keys !! maps[j].Keys
    ensures |OverlayAll(maps)| == TotalSize(maps)
  {
    if maps != [] {
      var n := |maps| - 1;
      var before := maps[..n];
      DisjointSize(before);
      forall k | k in OverlayAll(before) ensures k !in maps[n] {
        OverlaidBy(before, k);
      }
      var union := OverlayAll(before) + maps[n];
      assert |union| == |union.Keys| && union.Keys == OverlayAll(before).Keys + maps[n].Keys;
    }
  }

  function SourceSchemas(sources: seq<Source>): seq<JsonMap>
    requires AreSources(sources)
  {
    seq(|sources|, i requires 0 <= i < |sources| => SchemasOf(sources[i].doc))
  }

  lemma {:induction false} SameSizes(a: seq<JsonMap>, b: seq<JsonMap>)
    requires |a| == |b| && forall i | 0 <= i < |a| :: |a[i]| == |b[i]|
    ensures TotalSize(a) == TotalSize(b)
  {
    if a != [] {
      SameSizes(a[..|a| - 1], b[..|b| - 1]);
    }
  }

  /** The merged document has as many schemas as its sources together. */
  lemma SchemasConserved(sources: seq<Source>)
    requires AreSources(sources) && NamesSeparate(NamesOf(sources))
    ensures |Merge(Contributions(sources)).schemas| == TotalSize(SourceSchemas(sources))
  {
    var parts := Contributions(sources);
    var maps := SchemaMaps(parts);
    MergeIsOverlay(parts);
    forall i, j | 0 <= i < |maps| && 0 <= j < |maps| && i != j ensures maps[i].Keys !! maps[j].Keys {
      WritersApart(sources, i, j);
    }
    DisjointSize(maps);
    forall i | 0 <= i < |maps| ensures |maps[i]| == |SourceSchemas(sources)[i]| {
      ContributedSchemas(sources[i]);
    }
    SameSizes(maps, SourceSchemas(sources));
  }

  // ---- Meaning --------------------------------------------------------------------------------

  /** What the merge is for: object names, and references to component schemas only. */
  predicate HasSchemaRefsOnly(s: Source) {
    IsObjectName(s.name) && AllRefs(Obj(s.doc), SchemaRefsOnly())
  }

  /** The merged document holds the schemas of each of its sources. */
  lemma MergedHoldsSchemas(h: Head, sources: seq<Source>, i: int)
    requires AreSources(sources) && NamesSeparate(NamesOf(sources)) && 0 <= i < |sources|
    ensures HoldsSchemas(Obj(sources[i].doc), Obj(Unified(h, sources)),
                         Prefixer(sources[i].name), sources[i].name)
  {
    var s, merged := sources[i], Merge(Contributions(sources));
    DocumentSchemas(h, merged);
    ContributedSchemas(s);
    forall key {:trigger Schema(Obj(s.doc), key)} | key != REF
      ensures Schema(Obj(Unified(h, sources)), Qualified(s.name, key)) ==
              MapRefsOption(Schema(Obj(s.doc), key), Prefixer(s.name))
    {
      SchemaLookup(s.doc, key);
      SchemaLookup(Unified(h, sources), Qualified(s.name, key));
      OwnKeys(sources, i, key);
    }
  }

  lemma MapRefsMembers(doc: JsonMap, f: string -> string, key: string)
    requires key != REF
    ensures MembersOf(MapRefs(Obj(doc), f).fields, key).Keys == MembersOf(doc, key).Keys
    ensures forall k | k in MembersOf(doc, key) && MembersOf(doc, key)[k].Obj? ::
              MembersOf(MapRefs(Obj(doc), f).fields, key)[k] == MapRefs(MembersOf(doc, key)[k], f)
  {
    var mapped := MapRefs(Obj(doc), f).fields;
    if key in doc {
      assert mapped[key] == MapRefs(doc[key], f);
    }
  }

  lemma RenameKeepsPaths(doc: JsonMap, name: string)
    requires HasSchemaShape(doc)
    ensures PathsOf(RenameSchemas(doc, name)) == PathsOf(doc)
  {
    assert PATHS != COMPONENTS;
    assert MembersOf(RenameSchemas(doc, name), PATHS) == MembersOf(doc, PATHS);
  }

  lemma RewrittenPaths(doc: JsonMap, f: string -> string, name: string)
    requires Rewritable(doc) && HasObjects(doc)
    ensures PathsOf(RewrittenBy(doc, f, name)) == map p | p in PathsOf(doc) :: MapRefs(PathsOf(doc)[p], f)
  {
    MapRefsShape(doc, f);
    RenameKeepsPaths(MapRefs(Obj(doc), f).fields, name);
    MappedPaths(doc, f);
  }

  lemma MappedPaths(doc: JsonMap, f: string -> string)
    requires forall p | p in PathsOf(doc) :: PathsOf(doc)[p].Obj?
    ensures PathsOf(MapRefs(Obj(doc), f).fields) == map p | p in PathsOf(doc) :: MapRefs(PathsOf(doc)[p], f)
  {
    assert PATHS != REF;
    MapRefsMembers(doc, f, PATHS);
    var members, mapped := MembersOf(doc, PATHS), MembersOf(MapRefs(Obj(doc), f).fields, PATHS);
    forall p | p in members && !HasPrefix(p, "x-") ensures mapped[p] == MapRefs(members[p], f) {
      assert p in PathsOf(doc) && PathsOf(doc)[p] == members[p];
    }
  }

  /** Setting tags and mapping references do not meet. */
  lemma TaggedMapped(item: Json, name: string, f: string -> string)
    requires item.Obj?
    ensures TaggedItem(MapRefs(item, f), name) == MapRefs(TaggedItem(item, name), f)
  {
    var m := item.fields;
    var left, right := TaggedItem(MapRefs(item, f), name).fields, MapRefs(TaggedItem(item, name), f).fields;
    forall k | k in m ensures left[k] == right[k] {
      if IsMethod(k) {
        assert k != REF;
        TaggedOperationMapped(m[k], name, f);
      }
    }
    assert left == right;
  }

  lemma TaggedOperationMapped(op: Json, name: string, f: string -> string)
    ensures Tagged(MapRefs(op, f), name) == MapRefs(Tagged(op, name), f)
  {
    assert TAGS != REF;
    assert MapRefs(TagsOf(name), f) == TagsOf(name) by {
      assert MapRefs(Arr([Str(name)]), f).items == [Str(name)];
    }
    if op.Obj? {
      assert Tagged(MapRefs(op, f), name).fields == MapRefs(Tagged(op, name), f).fields;
    }
  }

  lemma TaggedKeepsRefs(item: Json, name: string, ok: string -> bool)
    requires item.Obj? && RefsAreStrings(item) && AllRefs(item, ok)
    ensures RefsAreStrings(TaggedItem(item, name)) && AllRefs(TaggedItem(item, name), ok)
  {
    var m := item.fields;
    forall k | k in m && IsMethod(k)
      ensures RefsAreStrings(Tagged(m[k], name)) && AllRefs(Tagged(m[k], name), ok)
    {
      assert k != REF && TAGS != REF;
      assert AllRefs(TagsOf(name), ok) && RefsAreStrings(TagsOf(name));
    }
  }

  /** Path `p` of the definition is merged as `q`: below its base path, unless that is "/". */
  predicate PlacedAt(s: Source, p: string, q: string) {
    p in PathsOf(s.doc) && IsBelow(s.basePath, p, q)
  }

  /** What a definition contributes under a path: its own item, tagged and rewritten. */
  lemma ContributedPaths(s: Source)
    requires IsSource(s)
    ensures forall p, q | PlacedAt(s, p, q) ::
              q in Contribution(s).paths &&
              Contribution(s).paths[q] == Prefixed(TaggedItem(PathsOf(s.doc)[p], s.name), s.name)
    ensures forall q | q in Contribution(s).paths :: exists p :: PlacedAt(s, p, q)
  {
    ContributedItems(s);
    OwnItemsAre(s);
    ItemsPlaced(s, OwnItems(s));
  }

  lemma ItemsPlaced(s: Source, items: JsonMap)
    requires forall p :: p in items <==> p in PathsOf(s.doc)
    ensures forall p, q | PlacedAt(s, p, q) ::
              q in MovedPaths(items, s.basePath) && MovedPaths(items, s.basePath)[q] == items[p]
    ensures forall q | q in MovedPaths(items, s.basePath) :: exists p :: PlacedAt(s, p, q)
  {
    MovedExactly(items, s.basePath);
    forall p, q | PlacedAt(s, p, q)
      ensures q in MovedPaths(items, s.basePath) && MovedPaths(items, s.basePath)[q] == items[p]
    {
      assert p in items && IsBelow(s.basePath, p, q);
    }
    forall q | q in MovedPaths(items, s.basePath) ensures exists p :: PlacedAt(s, p, q) {
      var p :| p in items && IsBelow(s.basePath, p, q);
      assert PlacedAt(s, p, q);
    }
  }

  lemma OwnItemsAre(s: Source)
    ensures forall p :: p in OwnItems(s) <==> p in PathsOf(s.doc)
    ensures forall p | p in PathsOf(s.doc) ::
              OwnItems(s)[p] == Prefixed(TaggedItem(PathsOf(s.doc)[p], s.name), s.name)
  {}

  /** The path items of a definition, tagged and rewritten. */
  function OwnItems(s: Source): JsonMap {
    map p | p in PathsOf(s.doc) :: Prefixed(TaggedItem(PathsOf(s.doc)[p], s.name), s.name)
  }

  lemma ContributedItems(s: Source)
    requires IsSource(s)
    ensures Contribution(s).paths == MovedPaths(OwnItems(s), s.basePath)
  {
    RewrittenItems(s);
  }

  lemma RewrittenItems(s: Source)
    requires IsSource(s)
    ensures TaggedItems(PathsOf(Rewritten(s.doc, s.name)), s.name) == OwnItems(s)
  {
    var rewritten := PathsOf(Rewritten(s.doc, s.name));
    RewrittenPaths(s.doc, Prefixer(s.name), s.name);
    MappedItems(PathsOf(s.doc), rewritten, s.name, Prefixer(s.name));
    OwnItemsAre(s);
    SameItems(rewritten, s.name, OwnItems(s));
  }

  lemma SameItems(items: JsonMap, name: string, own: JsonMap)
    requires items.Keys == own.Keys && forall p | p in items :: TaggedItem(items[p], name) == own[p]
    ensures TaggedItems(items, name) == own
  {}

  lemma MappedItems(items: JsonMap, mapped: JsonMap, name: string, f: string -> string)
    requires AllObjects(items) && mapped.Keys == items.Keys
    requires forall p | p in items :: mapped[p] == MapRefs(items[p], f)
    ensures forall p | p in items :: TaggedItem(mapped[p], name) == MapRefs(TaggedItem(items[p], name), f)
  {
    forall p | p in items ensures TaggedItem(mapped[p], name) == MapRefs(TaggedItem(items[p], name), f) {
      TaggedMapped(items[p], name, f);
    }
  }

  /** `q` is path `p` of source `i`, and no path of a later one. */
  ghost predicate Survives(sources: seq<Source>, q: string, i: int, p: string) {
    0 <= i < |sources| && PlacedAt(sources[i], p, q) &&
    forall j, r | i < j < |sources| :: !PlacedAt(sources[j], r, q)
  }

  lemma SurvivingPath(h: Head, sources: seq<Source>, q: string) returns (i: int, p: string)
    requires AreSources(sources) && q in UnifiedPaths(h, sources)
    ensures Survives(sources, q, i, p)
    ensures UnifiedPaths(h, sources)[q] ==
            Prefixed(TaggedItem(PathsOf(sources[i].doc)[p], sources[i].name), sources[i].name)
  {
    var parts := Contributions(sources);
    DocumentParts(h, Merge(parts));
    LastWriterWins(parts, q);
    i :| IsLastWriter(PathMaps(parts), i, q);
    ContributedPaths(sources[i]);
    p :| PlacedAt(sources[i], p, q);
    forall j, r | i < j < |sources| ensures !PlacedAt(sources[j], r, q) {
      ContributedPaths(sources[j]);
      assert q !in PathMaps(parts)[j];
    }
  }

  /** The paths of the merged document are those of its sources. */
  lemma UnifiedPathsExactly(h: Head, sources: seq<Source>, q: string)
    requires AreSources(sources)
    ensures q in UnifiedPaths(h, sources) <==> exists i, p :: 0 <= i < |sources| && PlacedAt(sources[i], p, q)
  {
    if q in UnifiedPaths(h, sources) {
      var i, p := SurvivingPath(h, sources, q);
    }
    if exists i, p :: 0 <= i < |sources| && PlacedAt(sources[i], p, q) {
      var i, p :| 0 <= i < |sources| && PlacedAt(sources[i], p, q);
      ContributedPaths(sources[i]);
      DocumentParts(h, Merge(Contributions(sources)));
      WrittenPath(Contributions(sources), i, q);
    }
  }

  lemma {:induction false} WrittenPath(parts: seq<Parts>, i: int, q: string)
    requires 0 <= i < |parts| && q in parts[i].paths
    ensures q in Merge(parts).paths
  {
    if i < |parts| - 1 {
      WrittenPath(parts[..|parts| - 1], i, q);
    }
  }

  /** A reader of the merged document takes none of them for an extension, when base paths are empty or start
      with a slash. */
  lemma UnifiedPathsAreRead(h: Head, sources: seq<Source>)
    requires AreSources(sources)
    requires forall s | s in sources :: s.basePath == "" || s.basePath[0] == '/'
    ensures PathsOf(Unified(h, sources)) == UnifiedPaths(h, sources)
  {
    forall q | q in UnifiedPaths(h, sources) ensures !HasPrefix(q, "x-") {
      var i, p := SurvivingPath(h, sources, q);
      NoExtension(sources[i], p, q);
    }
  }

  lemma NoExtension(s: Source, p: string, q: string)
    requires PlacedAt(s, p, q) && (s.basePath == "" || s.basePath[0] == '/')
    ensures !HasPrefix(q, "x-")
  {
    assert "" + p == p && "x-"[0] == 'x';
    assert s.basePath != "" ==> (s.basePath + p)[0] == '/';
  }

  lemma PathItemRefs(doc: JsonMap, p: string, ok: string -> bool)
    requires RefsAreStrings(Obj(doc)) && AllRefs(Obj(doc), ok)
    requires p in PathsOf(doc) && PathsOf(doc)[p].Obj?
    ensures RefsAreStrings(PathsOf(doc)[p]) && AllRefs(PathsOf(doc)[p], ok)
  {
    assert PATHS != REF;
    assert RefsAreStrings(doc[PATHS]) && AllRefs(doc[PATHS], ok);
  }

  /** Every path item of the merged document means there, to any depth, what it meant in its own
      definition's document; only the tags of its operations are new. */
  lemma MergingPreservesMeaning(h: Head, sources: seq<Source>, q: string, depth: nat)
    returns (i: int, p: string)
    requires AreSources(sources) && NamesSeparate(NamesOf(sources))
    requires forall j | 0 <= j < |sources| :: HasSchemaRefsOnly(sources[j])
    requires q in UnifiedPaths(h, sources)
    ensures Survives(sources, q, i, p)
    ensures var s := sources[i];
            Expand(ResolverOf(Obj(Unified(h, sources))), UnifiedPaths(h, sources)[q], depth) ==
            Expand(ResolverOf(Obj(s.doc)), TaggedItem(PathsOf(s.doc)[p], s.name), depth)
  {
    i, p := SurvivingPath(h, sources, q);
    var s := sources[i];
    var item := PathsOf(s.doc)[p];
    PathItemRefs(s.doc, p, SchemaRefsOnly());
    TaggedKeepsRefs(item, s.name, SchemaRefsOnly());
    MergedHoldsSchemas(h, sources, i);
    PrefixingPreservesMeaning(Obj(s.doc), Obj(Unified(h, sources)), s.name, TaggedItem(item, s.name), depth);
  }

  /** The path item means in the merged document what it meant in its own. */
  ghost predicate PathKeepsMeaning(h: Head, sources: seq<Source>, q: string, depth: nat)
    requires AreSources(sources) && q in UnifiedPaths(h, sources)
  {
    exists i, p :: Survives(sources, q, i, p) &&
      Expand(ResolverOf(Obj(Unified(h, sources))), UnifiedPaths(h, sources)[q], depth) ==
      Expand(ResolverOf(Obj(sources[i].doc)), TaggedItem(PathsOf(sources[i].doc)[p], sources[i].name), depth)
  }

  /** All path items do, to every depth. */
  ghost predicate KeepsMeaning(h: Head, sources: seq<Source>)
    requires AreSources(sources)
  {
    forall q, depth: nat | q in UnifiedPaths(h, sources) :: PathKeepsMeaning(h, sources, q, depth)
  }

  lemma SeparateKeepsMeaning(h: Head, sources: seq<Source>)
    requires AreSources(sources) && NamesSeparate(NamesOf(sources))
    requires forall j | 0 <= j < |sources| :: HasSchemaRefsOnly(sources[j])
    ensures KeepsMeaning(h, sources)
  {
    forall q, depth: nat | q in UnifiedPaths(h, sources) ensures PathKeepsMeaning(h, sources, q, depth) {
      var i, p := MergingPreservesMeaning(h, sources, q, depth);
    }
  }

  /** The operations of a path item, by the names that OpenAPI gives them. */
  predicate IsOperation(k: string) {
    k == "get" || k == "put" || k == "post" || k == "delete" || k == "options" || k == "head" || k == "patch" ||
    k == "trace" || k == "connect"
  }

  /** Every operation of a path item has one tag, the name. */
  predicate OnlyTag(item: Json, name: string) {
    item.Obj? &&
    forall k | k in item.fields && IsOperation(k) && item.fields[k].Obj? ::
      "tags" in item.fields[k].fields && item.fields[k].fields["tags"] == Arr([Str(name)])
  }

  /** Two path items differ at most in the tags of their operations. */
  predicate SameButTags(a: Json, b: Json) {
    a.Obj? && b.Obj? && a.fields.Keys == b.fields.Keys &&
    forall k | k in a.fields ::
      a.fields[k] == b.fields[k] ||
      (IsOperation(k) && a.fields[k].Obj? && b.fields[k].Obj? &&
       a.fields[k].fields - {"tags"} == b.fields[k].fields - {"tags"})
  }

  /** Tagging replaces the tags of every operation by the name, and leaves everything else. */
  lemma TaggingExactly(item: Json, name: string)
    requires item.Obj?
    ensures OnlyTag(TaggedItem(item, name), name) && SameButTags(TaggedItem(item, name), item)
  {
    var tagged := TaggedItem(item, name).fields;
    assert forall k :: IsOperation(k) <==> IsMethod(k);
    forall k | k in item.fields && IsMethod(k) && item.fields[k].Obj?
      ensures tagged[k].fields - {"tags"} == item.fields[k].fields - {"tags"}
    {
      assert tagged[k] == Tagged(item.fields[k], name);
    }
  }

  /** Every operation of the merged document is tagged with the name of its definition, only. */
  lemma MergedTags(h: Head, sources: seq<Source>, q: string) returns (i: int, p: string)
    requires AreSources(sources) && q in UnifiedPaths(h, sources)
    ensures Survives(sources, q, i, p) && OnlyTag(UnifiedPaths(h, sources)[q], sources[i].name)
  {
    i, p := SurvivingPath(h, sources, q);
    ItemTags(PathsOf(sources[i].doc)[p], sources[i].name, Prefixer(sources[i].name));
  }

  lemma ItemTags(item: Json, name: string, f: string -> string)
    requires item.Obj?
    ensures OnlyTag(MapRefs(TaggedItem(item, name), f), name)
  {
    TaggedMapped(item, name, f);
    TaggingExactly(MapRefs(item, f), name);
  }

  // ---- References -----------------------------------------------------------------------------

  /** When every reference of every definition resolves in its own document, every reference of the
      merged document resolves in the merged document. */
  lemma MergedRefsResolve(h: Head, sources: seq<Source>)
    requires AreSources(sources) && NamesSeparate(NamesOf(sources))
    requires forall j | 0 <= j < |sources| :: HasSchemaRefsOnly(sources[j])
    requires forall j | 0 <= j < |sources| :: AllRefs(Obj(sources[j].doc), Resolves(Obj(sources[j].doc)))
    ensures var doc := Obj(Unified(h, sources));
            AllRefs(doc, Resolves(doc))
  {
    var parts := Contributions(sources);
    var merged := Merge(parts);
    var ok := Resolves(Obj(Unified(h, sources)));
    forall q | q in merged.schemas ensures AllRefs(merged.schemas[q], ok) && q != REF {
      MergedSchemaResolves(h, sources, q);
    }
    forall q | q in merged.securitySchemes
      ensures AllRefs(merged.securitySchemes[q], ok) && merged.securitySchemes[q].Obj?
    {
      MergedSecurityResolves(h, sources, q);
    }
    DocumentParts(h, merged);
    forall q | q in merged.paths ensures AllRefs(merged.paths[q], ok) && merged.paths[q].Obj? {
      MergedPathResolves(h, sources, q);
    }
    DocumentRefs(h, merged, ok);
  }

  /** A merged schema is some definition's schema, rewritten. */
  lemma SurvivingSchema(sources: seq<Source>, q: string) returns (i: int, key: string)
    requires AreSources(sources) && q in Merge(Contributions(sources)).schemas
    ensures 0 <= i < |sources| && key in SchemasOf(sources[i].doc) && q == Qualified(sources[i].name, key)
    ensures key != REF && q != REF
    ensures Merge(Contributions(sources)).schemas[q] == Prefixed(SchemasOf(sources[i].doc)[key], sources[i].name)
  {
    var parts := Contributions(sources);
    LastWriterWins(parts, q);
    i :| IsLastWriter(SchemaMaps(parts), i, q);
    ContributedSchemas(sources[i]);
    RefIsNoSchema(sources[i]);
    key :| q == Qualified(sources[i].name, key);
    QualifiedIsNotRef(sources[i].name, key);
  }

  lemma MergedSchemaResolves(h: Head, sources: seq<Source>, q: string)
    requires AreSources(sources) && NamesSeparate(NamesOf(sources))
    requires forall j | 0 <= j < |sources| :: HasSchemaRefsOnly(sources[j])
    requires forall j | 0 <= j < |sources| :: AllRefs(Obj(sources[j].doc), Resolves(Obj(sources[j].doc)))
    requires q in Merge(Contributions(sources)).schemas
    ensures var merged := Merge(Contributions(sources));
            AllRefs(merged.schemas[q], Resolves(Obj(Unified(h, sources)))) && q != REF
  {
    var i, key := SurvivingSchema(sources, q);
    var s := sources[i];
    SchemaRefsOf(s.doc, key, Resolves(Obj(s.doc)));
    SchemaRefsOf(s.doc, key, SchemaRefsOnly());
    MergedHoldsSchemas(h, sources, i);
    PrefixingPreservesResolution(Obj(s.doc), Obj(Unified(h, sources)), s.name,
                                 SchemasOf(s.doc)[key]);
  }

  lemma SchemaRefsOf(doc: JsonMap, key: string, ok: string -> bool)
    requires Rewritable(doc) && AllRefs(Obj(doc), ok) && key in SchemasOf(doc)
    ensures AllRefs(SchemasOf(doc)[key], ok)
    ensures key != REF ==> RefsAreStrings(SchemasOf(doc)[key])
  {
    assert COMPONENTS != REF && SCHEMAS != REF;
    var components := doc[COMPONENTS];
    assert AllRefs(components, ok) && RefsAreStrings(components);
    assert AllRefs(components.fields[SCHEMAS], ok) && RefsAreStrings(components.fields[SCHEMAS]);
  }

  lemma RewrittenSecurity(doc: JsonMap, f: string -> string, name: string)
    requires Rewritable(doc) && HasObjects(doc)
    ensures SecuritySchemesOf(RewrittenBy(doc, f, name)) ==
            map n | n in SecuritySchemesOf(doc) :: MapRefs(SecuritySchemesOf(doc)[n], f)
  {
    MapRefsShape(doc, f);
    RenameKeepsSecurity(MapRefs(Obj(doc), f).fields, name);
    MappedSecurity(doc, f);
  }

  lemma RenameKeepsSecurity(doc: JsonMap, name: string)
    requires HasSchemaShape(doc)
    ensures SecuritySchemesOf(RenameSchemas(doc, name)) == SecuritySchemesOf(doc)
  {
    assert SCHEMAS != SECURITY_SCHEMES;
  }

  lemma MappedSecurity(doc: JsonMap, f: string -> string)
    requires COMPONENTS in doc ==> doc[COMPONENTS].Obj?
    requires forall n | n in SecuritySchemesOf(doc) :: SecuritySchemesOf(doc)[n].Obj?
    ensures SecuritySchemesOf(MapRefs(Obj(doc), f).fields) ==
            map n | n in SecuritySchemesOf(doc) :: MapRefs(SecuritySchemesOf(doc)[n], f)
  {
    assert COMPONENTS != REF && SECURITY_SCHEMES != REF;
    var mapped := MapRefs(Obj(doc), f).fields;
    var components := MembersOf(doc, COMPONENTS);
    if COMPONENTS in doc {
      assert mapped[COMPONENTS] == MapRefs(Obj(components), f);
      MapRefsMembers(components, f, SECURITY_SCHEMES);
    }
  }

  lemma SecurityRefsOf(doc: JsonMap, n: string, ok: string -> bool)
    requires Rewritable(doc) && AllRefs(Obj(doc), ok)
    requires n in SecuritySchemesOf(doc) && SecuritySchemesOf(doc)[n].Obj?
    ensures AllRefs(SecuritySchemesOf(doc)[n], ok) && RefsAreStrings(SecuritySchemesOf(doc)[n])
  {
    assert COMPONENTS != REF && SECURITY_SCHEMES != REF;
    var components := doc[COMPONENTS];
    assert AllRefs(components, ok) && RefsAreStrings(components);
    assert AllRefs(components.fields[SECURITY_SCHEMES], ok) && RefsAreStrings(components.fields[SECURITY_SCHEMES]);
  }

  lemma MergedSecurityResolves(h: Head, sources: seq<Source>, q: string)
    requires AreSources(sources) && NamesSeparate(NamesOf(sources))
    requires forall j | 0 <= j < |sources| :: HasSchemaRefsOnly(sources[j])
    requires forall j | 0 <= j < |sources| :: AllRefs(Obj(sources[j].doc), Resolves(Obj(sources[j].doc)))
    requires q in Merge(Contributions(sources)).securitySchemes
    ensures var merged := Merge(Contributions(sources));
            AllRefs(merged.securitySchemes[q], Resolves(Obj(Unified(h, sources)))) &&
            merged.securitySchemes[q].Obj?
  {
    var parts := Contributions(sources);
    LastWriterWins(parts, q);
    var i :| IsLastWriter(SecurityMaps(parts), i, q);
    var s := sources[i];
    RewrittenSecurity(s.doc, Prefixer(s.name), s.name);
    assert q in SecuritySchemesOf(s.doc);
    SecurityRefsOf(s.doc, q, Resolves(Obj(s.doc)));
    SecurityRefsOf(s.doc, q, SchemaRefsOnly());
    MergedHoldsSchemas(h, sources, i);
    PrefixingPreservesResolution(Obj(s.doc), Obj(Unified(h, sources)), s.name, SecuritySchemesOf(s.doc)[q]);
  }

  lemma MergedPathResolves(h: Head, sources: seq<Source>, q: string)
    requires AreSources(sources) && NamesSeparate(NamesOf(sources))
    requires forall j | 0 <= j < |sources| :: HasSchemaRefsOnly(sources[j])
    requires forall j | 0 <= j < |sources| :: AllRefs(Obj(sources[j].doc), Resolves(Obj(sources[j].doc)))
    requires q in UnifiedPaths(h, sources)
    ensures var item := UnifiedPaths(h, sources)[q];
            AllRefs(item, Resolves(Obj(Unified(h, sources)))) && item.Obj?
  {
    var i, p := SurvivingPath(h, sources, q);
    var s := sources[i];
    var item := PathsOf(s.doc)[p];
    PathItemRefs(s.doc, p, Resolves(Obj(s.doc)));
    PathItemRefs(s.doc, p, SchemaRefsOnly());
    TaggedKeepsRefs(item, s.name, Resolves(Obj(s.doc)));
    TaggedKeepsRefs(item, s.name, SchemaRefsOnly());
    MergedHoldsSchemas(h, sources, i);
    PrefixingPreservesResolution(Obj(s.doc), Obj(Unified(h, sources)), s.name,
                                 TaggedItem(item, s.name));
  }

  /** The head of the document has no references. */
  lemma DocumentRefs(h: Head, parts: Parts, ok: string -> bool)
    requires forall q | q in parts.schemas :: AllRefs(parts.schemas[q], ok) && q != REF
    requires forall q | q in parts.securitySchemes ::
               AllRefs(parts.securitySchemes[q], ok) && parts.securitySchemes[q].Obj?
    requires forall q | q in parts.paths :: AllRefs(parts.paths[q], ok) && parts.paths[q].Obj?
    ensures AllRefs(Obj(Document(h, parts)), ok)
  {
    AllRefsOfMembers(parts.schemas, ok);
    AllRefsOfMembers(parts.securitySchemes, ok);
    AllRefsOfMembers(parts.paths, ok);
    HeadRefs(h, ok);
    ComponentsRefs(parts, ok);
    assert "openapi" != REF && "info" != REF && "servers" != REF && COMPONENTS != REF && PATHS != REF;
    FiveRefs("openapi", Str("3.0.1"), "info", InfoJson(h), "servers", ServersJson(h),
             COMPONENTS, Obj(ComponentsJson(parts)), PATHS, Obj(parts.paths), ok);
  }

  lemma FiveRefs(a: string, v: Json, b: string, w: Json, c: string, x: Json, d: string, y: Json, e: string, z: Json,
                 ok: string -> bool)
    requires a != REF && b != REF && c != REF && d != REF && e != REF
    requires AllRefs(v, ok) && AllRefs(w, ok) && AllRefs(x, ok) && AllRefs(y, ok) && AllRefs(z, ok)
    ensures AllRefs(Obj(map[a := v, b := w, c := x, d := y, e := z]), ok)
  {
    AllRefsOfMembers(map[a := v, b := w, c := x, d := y, e := z], ok);
  }

  lemma ComponentsRefs(parts: Parts, ok: string -> bool)
    requires AllRefs(Obj(parts.schemas), ok) && AllRefs(Obj(parts.securitySchemes), ok)
    ensures AllRefs(Obj(ComponentsJson(parts)), ok)
  {
    assert SCHEMAS != REF && SECURITY_SCHEMES != REF;
    AllRefsOfMembers(ComponentsJson(parts), ok);
  }

  lemma AllRefsOfMembers(m: JsonMap, ok: string -> bool)
    requires REF in m ==> !m[REF].Str?
    requires forall k | k in m :: AllRefs(m[k], ok)
    ensures AllRefs(Obj(m), ok)
  {}

  lemma HeadRefs(h: Head, ok: string -> bool)
    ensures AllRefs(InfoJson(h), ok) && AllRefs(ServersJson(h), ok)
  {
    AllRefsOfStrings(map["name" := Str(h.contact.name), "email" := Str(h.contact.email),
                         "url" := Str(h.contact.url)], ok);
    AllRefsOfStrings(map["name" := Str(h.license.name), "url" := Str(h.license.url)], ok);
    assert REF !in InfoJson(h).fields;
    forall i | 0 <= i < |h.servers| ensures AllRefs(ServerJson(h.servers[i]), ok) {
      AllRefsOfStrings(ServerJson(h.servers[i]).fields, ok);
    }
  }

  lemma AllRefsOfStrings(m: JsonMap, ok: string -> bool)
    requires REF !in m && forall k | k in m :: m[k].Str?
    ensures AllRefs(Obj(m), ok)
  {}
}
