/** The limits of the unification: exactly when every security scheme and every path is kept, and exactly
    for which names every path keeps its meaning. */
module UnificationLimits {
  import opened Wrappers
  import opened JsonPointer
  import opened References
  import opened RefRewriting
  import opened Unification
  import opened UnificationProperties

  // ---- When a merge keeps everything ----------------------------------------------------------

  /** Every entry of every map is in `merged`. */
  ghost predicate HasAll(merged: JsonMap, maps: seq<JsonMap>) {
    forall i, k | 0 <= i < |maps| && k in maps[i] :: k in merged && merged[k] == maps[i][k]
  }

  /** Maps that share a key have the same value there. */
  ghost predicate Agree(maps: seq<JsonMap>) {
    forall i, j, k | 0 <= i < |maps| && 0 <= j < |maps| && k in maps[i] && k in maps[j] :: maps[i][k] == maps[j][k]
  }

  lemma OverlayHasAllExactly(maps: seq<JsonMap>)
    ensures HasAll(OverlayAll(maps), maps) <==> Agree(maps)
  {
    if Agree(maps) {
      AgreeingOverlay(maps);
    } else {
      var i, j, k :| 0 <= i < |maps| && 0 <= j < |maps| && k in maps[i] && k in maps[j] && maps[i][k] != maps[j][k];
      DisagreeingLose(OverlayAll(maps), maps, i, j, k);
    }
  }

  lemma DisagreeingLose(merged: JsonMap, maps: seq<JsonMap>, i: int, j: int, k: string)
    requires 0 <= i < |maps| && 0 <= j < |maps| && k in maps[i] && k in maps[j] && maps[i][k] != maps[j][k]
    ensures !HasAll(merged, maps)
  {
    assert !(k in merged && merged[k] == maps[i][k] && merged[k] == maps[j][k]);
  }

  lemma AgreeingOverlay(maps: seq<JsonMap>)
    requires Agree(maps)
    ensures HasAll(OverlayAll(maps), maps)
  {
    forall i, k | 0 <= i < |maps| && k in maps[i] ensures k in OverlayAll(maps) && OverlayAll(maps)[k] == maps[i][k] {
      var last := LastWriter(maps, i, k);
      OverlaidBy(maps, k);
    }
  }

  lemma {:induction false} LastWriter(maps: seq<JsonMap>, i: int, k: string) returns (last: int)
    requires 0 <= i < |maps| && k in maps[i]
    ensures IsLastWriter(maps, last, k)
    decreases |maps| - i
  {
    if forall j | i < j < |maps| :: k !in maps[j] {
      last := i;
    } else {
      var j :| i < j < |maps| && k in maps[j];
      last := LastWriter(maps, j, k);
    }
  }

  // ---- Security schemes -----------------------------------------------------------------------

  /** The security schemes of a definition, rewritten. */
  function OwnSchemes(s: Source): JsonMap {
    map n | n in SecuritySchemesOf(s.doc) :: Prefixed(SecuritySchemesOf(s.doc)[n], s.name)
  }

  function SchemeMaps(sources: seq<Source>): seq<JsonMap> {
    seq(|sources|, i requires 0 <= i < |sources| => OwnSchemes(sources[i]))
  }

  lemma MergedSchemes(h: Head, sources: seq<Source>)
    requires AreSources(sources)
    ensures SecuritySchemesOf(Unified(h, sources)) == OverlayAll(SchemeMaps(sources))
  {
    DocumentParts(h, Merge(Contributions(sources)));
    var parts := Contributions(sources);
    MergeIsOverlay(parts);
    forall i | 0 <= i < |sources| ensures SecurityMaps(parts)[i] == SchemeMaps(sources)[i] {
      ContributedSchemes(sources[i]);
    }
    assert SecurityMaps(parts) == SchemeMaps(sources);
  }

  lemma ContributedSchemes(s: Source)
    requires IsSource(s)
    ensures Contribution(s).securitySchemes == OwnSchemes(s)
  {
    RewrittenSecurity(s.doc, Prefixer(s.name), s.name);
  }

  /** Security schemes are merged under their own names: every scheme of every definition is in the merged
      document, rewritten, if and only if definitions that share a name have the same scheme there. */
  lemma SchemesKeptExactly(h: Head, sources: seq<Source>)
    requires AreSources(sources)
    ensures HasAll(SecuritySchemesOf(Unified(h, sources)), SchemeMaps(sources)) <==> Agree(SchemeMaps(sources))
  {
    MergedSchemes(h, sources);
    OverlayHasAllExactly(SchemeMaps(sources));
  }

  // ---- Paths ----------------------------------------------------------------------------------

  /** The path items of a definition as they are merged: tagged, rewritten, below the base path. */
  function OwnPaths(s: Source): JsonMap {
    MovedPaths(OwnItems(s), s.basePath)
  }

  function OwnPathMaps(sources: seq<Source>): seq<JsonMap> {
    seq(|sources|, i requires 0 <= i < |sources| => OwnPaths(sources[i]))
  }

  lemma MergedPaths(h: Head, sources: seq<Source>)
    requires AreSources(sources)
    ensures UnifiedPaths(h, sources) == OverlayAll(OwnPathMaps(sources))
  {
    DocumentParts(h, Merge(Contributions(sources)));
    var parts := Contributions(sources);
    MergeIsOverlay(parts);
    forall i | 0 <= i < |sources| ensures PathMaps(parts)[i] == OwnPathMaps(sources)[i] {
      ContributedItems(sources[i]);
    }
    assert PathMaps(parts) == OwnPathMaps(sources);
  }

  /** Paths are merged below the base paths: every path item of every definition is in the merged document
      if and only if definitions that share a path there have one item. Tags differ with the names, so such
      an item has no operations, or the definitions have one name. */
  lemma PathsKeptExactly(h: Head, sources: seq<Source>)
    requires AreSources(sources)
    ensures HasAll(UnifiedPaths(h, sources), OwnPathMaps(sources)) <==> Agree(OwnPathMaps(sources))
  {
    MergedPaths(h, sources);
    OverlayHasAllExactly(OwnPathMaps(sources));
  }

  // ---- Meaning --------------------------------------------------------------------------------

  /** A path item with a parameter whose schema is a reference. */
  function ItemTo(ref: string): Json {
    Obj(map["parameters" := Arr([Obj(map["schema" := RefTo(ref)])])])
  }

  function RefTo(ref: string): Json {
    Obj(map[REF := Str(ref)])
  }

  function ItemMeaning(m: Meaning): Meaning {
    Record(map["parameters" := List([Record(map["schema" := m])])])
  }

  lemma ItemMeans(resolve: Resolver, ref: string, depth: nat)
    ensures Expand(resolve, ItemTo(ref), depth) == ItemMeaning(Expand(resolve, RefTo(ref), depth))
  {
    var parameter := Obj(map["schema" := RefTo(ref)]);
    assert "parameters" != REF && "schema" != REF;
    OneFieldMeans(resolve, "schema", RefTo(ref), depth);
    OneItemMeans(resolve, parameter, depth);
    OneFieldMeans(resolve, "parameters", Arr([parameter]), depth);
  }

  lemma OneFieldMeans(resolve: Resolver, k: string, v: Json, depth: nat)
    requires k != REF
    ensures Expand(resolve, Obj(map[k := v]), depth) == Record(map[k := Expand(resolve, v, depth)])
  {
    ExpandRecord(resolve, map[k := v], depth);
    assert Expand(resolve, Obj(map[k := v]), depth).fields == map[k := Expand(resolve, v, depth)];
  }

  lemma OneItemMeans(resolve: Resolver, v: Json, depth: nat)
    ensures Expand(resolve, Arr([v]), depth) == List([Expand(resolve, v, depth)])
  {
    assert Expand(resolve, Arr([v]), depth).items == [Expand(resolve, v, depth)];
  }

  lemma SameItemMeaning(a: Meaning, b: Meaning)
    ensures ItemMeaning(a) == ItemMeaning(b) ==> a == b
  {
    var x, y := ItemMeaning(a).fields["parameters"].items[0], ItemMeaning(b).fields["parameters"].items[0];
    assert x.fields["schema"] == a && y.fields["schema"] == b;
  }

  /** A reference to a schema that only has a type means that type. */
  lemma TypeMeans(resolve: Resolver, ref: string, kind: string)
    requires IsLocal(ref) && resolve(ref) == Some(TypeSchema(kind))
    ensures Expand(resolve, RefTo(ref), 1) == Record(map["type" := Leaf(Str(kind))])
  {
    assert "type" != REF;
    OneFieldMeans(resolve, "type", Str(kind), 0);
    assert Expand(resolve, RefTo(ref), 1) == Follow(resolve, RefTo(ref), 1);
  }

  lemma ItemMapped(ref: string, f: string -> string)
    ensures MapRefs(ItemTo(ref), f) == ItemTo(f(ref))
  {
    var parameter := Obj(map["schema" := RefTo(ref)]);
    assert "parameters" != REF && "schema" != REF;
    OneFieldMapped(REF, Str(ref), f);
    OneFieldMapped("schema", RefTo(ref), f);
    assert MapRefs(Arr([parameter]), f).items == [MapRefs(parameter, f)];
    OneFieldMapped("parameters", Arr([parameter]), f);
  }

  lemma OneFieldMapped(k: string, v: Json, f: string -> string)
    ensures MapRefs(Obj(map[k := v]), f) ==
            Obj(map[k := if k == REF && v.Str? then Str(f(v.s)) else MapRefs(v, f)])
  {
    assert k in map[k := v];
    assert MapRefs(Obj(map[k := v]), f).fields.Keys == {k};
  }

  lemma ItemUntagged(ref: string, name: string)
    ensures TaggedItem(ItemTo(ref), name) == ItemTo(ref)
  {
    assert !IsMethod("parameters");
    assert TaggedItem(ItemTo(ref), name).fields == ItemTo(ref).fields;
  }

  lemma ItemRefs(ref: string, ok: string -> bool)
    requires ok(ref)
    ensures RefsAreStrings(ItemTo(ref)) && AllRefs(ItemTo(ref), ok)
  {
    var parameter := Obj(map["schema" := RefTo(ref)]);
    assert "parameters" != REF && "schema" != REF;
    assert RefsAreStrings(RefTo(ref)) && AllRefs(RefTo(ref), ok);
    OneFieldRefs("schema", RefTo(ref), ok);
    assert RefsAreStrings(Arr([parameter])) && AllRefs(Arr([parameter]), ok);
    OneFieldRefs("parameters", Arr([parameter]), ok);
  }

  lemma OneFieldRefs(k: string, v: Json, ok: string -> bool)
    requires k != REF && RefsAreStrings(v) && AllRefs(v, ok)
    ensures RefsAreStrings(Obj(map[k := v])) && AllRefs(Obj(map[k := v]), ok)
  {}

  lemma PlainSegment(key: string)
    requires IsObjectName(key)
    ensures IsSchemaSegment(key) && SchemaKey(key) == Some(key)
  {
    PercentDecodePlain(key, "");
    UnescapePlain(key, "");
    assert key + "" == key;
    assert REF[0] == '$' && '$' in REF;
  }

  /** A plain name of a schema stands for itself in a reference. */
  lemma PlainSchemaRef(doc: JsonMap, key: string)
    requires HasSchemaShape(doc) && IsObjectName(key)
    ensures IsSchemaRef(SCHEMA_REF + key)
    ensures Resolve(Obj(doc), SCHEMA_REF + key) == if key in SchemasOf(doc) then Some(SchemasOf(doc)[key]) else None
  {
    PlainSegment(key);
    assert (SCHEMA_REF + key)[|SCHEMA_REF|..] == key;
    ResolveSchemaRef(Obj(doc), key);
    SchemaLookup(doc, key);
  }

  const PATH := "/a"

  /** Source `f` has a path that refers to its own schema `kf`, source `s` after it has a schema `ks` that
      is merged under the same key, and no other source has anything. */
  predicate Overwrites(sources: seq<Source>, f: int, s: int, kf: string, ks: string) {
    && 0 <= f < s < |sources|
    && (forall n | 0 <= n < |sources| :: sources[n].basePath == "" && HasSchemaShape(sources[n].doc))
    && SchemasOf(sources[f].doc) == map[kf := TypeSchema("string")]
    && PathsOf(sources[f].doc) == map[PATH := ItemTo(SCHEMA_REF + kf)]
    && SchemasOf(sources[s].doc) == map[ks := TypeSchema("integer")]
    && (forall n | 0 <= n < |sources| && n != f :: PathsOf(sources[n].doc) == map[])
    && (forall n | 0 <= n < |sources| && n != f && n != s :: SchemasOf(sources[n].doc) == map[])
    && Qualified(sources[f].name, kf) == Qualified(sources[s].name, ks)
  }

  lemma OverwrittenSchema(sources: seq<Source>, f: int, s: int, kf: string, ks: string)
    requires AreSources(sources) && Overwrites(sources, f, s, kf, ks)
    ensures var q, schemas := Qualified(sources[f].name, kf), Merge(Contributions(sources)).schemas;
            q in schemas && schemas[q] == TypeSchema("integer")
  {
    var parts := Contributions(sources);
    var q := Qualified(sources[s].name, ks);
    ContributesType(sources[s], ks, "integer");
    forall j | s < j < |parts| ensures q !in parts[j].schemas {
      ContributesNoSchema(sources[j], q);
    }
    LastSchema(parts, s, q);
  }

  lemma ContributesType(s: Source, key: string, kind: string)
    requires IsSource(s) && SchemasOf(s.doc) == map[key := TypeSchema(kind)]
    ensures Qualified(s.name, key) in Contribution(s).schemas
    ensures Contribution(s).schemas[Qualified(s.name, key)] == TypeSchema(kind)
  {
    ContributedSchemas(s);
    TypesStay(kind, s.name);
  }

  lemma ContributesNoSchema(s: Source, q: string)
    requires IsSource(s) && SchemasOf(s.doc) == map[]
    ensures q !in Contribution(s).schemas
  {
    ContributedSchemas(s);
  }

  lemma LastSchema(parts: seq<Parts>, s: int, q: string)
    requires 0 <= s < |parts| && q in parts[s].schemas && forall j | s < j < |parts| :: q !in parts[j].schemas
    ensures q in Merge(parts).schemas && Merge(parts).schemas[q] == parts[s].schemas[q]
  {
    assert IsLastWriter(SchemaMaps(parts), s, q);
    LastWriterWins(parts, q);
  }

  lemma SolePath(h: Head, sources: seq<Source>, f: int, s: int, kf: string, ks: string)
    requires AreSources(sources) && Overwrites(sources, f, s, kf, ks)
    ensures var paths := UnifiedPaths(h, sources);
            PATH in paths && paths[PATH] == ItemTo(PrefixRef(SCHEMA_REF + kf, sources[f].name))
    ensures forall i, p | Survives(sources, PATH, i, p) :: i == f && p == PATH
  {
    OnlyPlace(sources, f, s, kf, ks);
    assert PlacedAt(sources[f], PATH, PATH);
    UnifiedPathsExactly(h, sources, PATH);
    var i, p := SurvivingPath(h, sources, PATH);
    ItemUntagged(SCHEMA_REF + kf, sources[f].name);
    ItemMapped(SCHEMA_REF + kf, Prefixer(sources[f].name));
  }

  lemma OnlyPlace(sources: seq<Source>, f: int, s: int, kf: string, ks: string)
    requires AreSources(sources) && Overwrites(sources, f, s, kf, ks)
    ensures forall i, p | 0 <= i < |sources| :: PlacedAt(sources[i], p, PATH) <==> i == f && p == PATH
  {
    assert forall p: string :: "" + p == p;
    assert "" != "/";
  }

  lemma OverwritingLosesMeaning(h: Head, sources: seq<Source>, f: int, s: int, kf: string, ks: string)
    requires AreSources(sources) && Overwrites(sources, f, s, kf, ks)
    requires IsObjectName(sources[f].name) && IsObjectName(kf)
    ensures !KeepsMeaning(h, sources)
  {
    SolePath(h, sources, f, s, kf, ks);
    RefChangesMeaning(h, sources, f, s, kf, ks);
    assert !PathKeepsMeaning(h, sources, PATH, 1);
  }

  lemma RefChangesMeaning(h: Head, sources: seq<Source>, f: int, s: int, kf: string, ks: string)
    requires AreSources(sources) && Overwrites(sources, f, s, kf, ks)
    requires IsObjectName(sources[f].name) && IsObjectName(kf)
    ensures var merged := Unified(h, sources);
            var ref, name := SCHEMA_REF + kf, sources[f].name;
            Expand(ResolverOf(Obj(merged)), ItemTo(PrefixRef(ref, name)), 1) !=
            Expand(ResolverOf(Obj(sources[f].doc)), TaggedItem(ItemTo(ref), name), 1)
  {
    var merged := Unified(h, sources);
    var ref, name := SCHEMA_REF + kf, sources[f].name;
    MergedRefDenotes(h, sources, f, s, kf, ks);
    PlainSchemaRef(sources[f].doc, kf);
    ItemUntagged(ref, name);
    TypesMeanDifferent(ResolverOf(Obj(merged)), PrefixRef(ref, name), ResolverOf(Obj(sources[f].doc)), ref);
  }

  /** In the merged document the reference of source `f` denotes the schema of source `s`. */
  lemma MergedRefDenotes(h: Head, sources: seq<Source>, f: int, s: int, kf: string, ks: string)
    requires AreSources(sources) && Overwrites(sources, f, s, kf, ks)
    requires IsObjectName(sources[f].name) && IsObjectName(kf)
    ensures var ref := PrefixRef(SCHEMA_REF + kf, sources[f].name);
            IsLocal(ref) && Resolve(Obj(Unified(h, sources)), ref) == Some(TypeSchema("integer"))
  {
    OverwrittenSchema(sources, f, s, kf, ks);
    PrefixedDenotes(h, Merge(Contributions(sources)), kf, sources[f].name);
  }

  lemma PrefixedDenotes(h: Head, parts: Parts, key: string, name: string)
    requires IsObjectName(key) && IsObjectName(name) && Qualified(name, key) in parts.schemas
    ensures IsLocal(PrefixRef(SCHEMA_REF + key, name))
    ensures Resolve(Obj(Document(h, parts)), PrefixRef(SCHEMA_REF + key, name)) ==
        Some(parts.schemas[Qualified(name, key)])
  {
    DocumentSchemas(h, parts);
    PlainSegment(key);
    PrefixedSchemaRef(key, name);
    PlainSchemaRef(Document(h, parts), Qualified(name, key));
  }

  lemma TypesMeanDifferent(a: Resolver, refA: string, b: Resolver, refB: string)
    requires IsLocal(refA) && IsLocal(refB)
    requires a(refA) == Some(TypeSchema("integer")) && b(refB) == Some(TypeSchema("string"))
    ensures Expand(a, ItemTo(refA), 1) != Expand(b, ItemTo(refB), 1)
  {
    TypeMeans(a, refA, "integer");
    TypeMeans(b, refB, "string");
    ItemMeans(a, refA, 1);
    ItemMeans(b, refB, 1);
    SameItemMeaning(Expand(a, RefTo(refA), 1), Expand(b, RefTo(refB), 1));
    TypeMeaningsDiffer();
  }

  lemma TypeMeaningsDiffer()
    ensures Record(map["type" := Leaf(Str("integer"))]) != Record(map["type" := Leaf(Str("string"))])
  {
    var x, y := map["type" := Leaf(Str("integer"))], map["type" := Leaf(Str("string"))];
    assert x["type"] != y["type"];
  }

  /** For all documents with the references that the merge is for, every path item keeps its meaning if and
      only if the names of the definitions are separate. */
  lemma MeaningKeptExactly(h: Head, names: seq<string>)
    requires forall name | name in names :: IsObjectName(name)
    ensures NamesSeparate(names) <==>
            forall sources | AreSources(sources) && NamesOf(sources) == names && RefersToSchemas(sources) ::
              KeepsMeaning(h, sources)
  {
    if NamesSeparate(names) {
      forall sources | AreSources(sources) && NamesOf(sources) == names && RefersToSchemas(sources)
        ensures KeepsMeaning(h, sources)
      {
        SeparateKeepsMeaning(h, sources);
      }
    } else {
      var i, j :| 0 <= i < |names| && 0 <= j < |names| && i != j && !Separate(names[i], names[j]);
      var sources := OverwritingSources(h, names, if i < j then i else j, if i < j then j else i);
    }
  }

  predicate RefersToSchemas(sources: seq<Source>) {
    forall j | 0 <= j < |sources| :: HasSchemaRefsOnly(sources[j])
  }

  lemma OverwritingSources(h: Head, names: seq<string>, f: int, s: int) returns (sources: seq<Source>)
    requires 0 <= f < s < |names| && !Separate(names[f], names[s])
    requires forall name | name in names :: IsObjectName(name)
    ensures AreSources(sources) && NamesOf(sources) == names && RefersToSchemas(sources)
    ensures !KeepsMeaning(h, sources)
  {
    assert names[f] in names && names[s] in names;
    var kf, ks := CollidingKeys(names[f], names[s]);
    sources := WitnessSources(names, f, s, kf, ks);
    WitnessesOverwrite(names, f, s, kf, ks);
    OverwritingLosesMeaning(h, sources, f, s, kf, ks);
  }

  function WitnessSources(names: seq<string>, f: int, s: int, kf: string, ks: string): seq<Source> {
    seq(|names|, n requires 0 <= n < |names| => Source(names[n], WitnessDocument(n, f, s, kf, ks), ""))
  }

  lemma WitnessesOverwrite(names: seq<string>, f: int, s: int, kf: string, ks: string)
    requires 0 <= f < s < |names| && forall name | name in names :: IsObjectName(name)
    requires Qualified(names[f], kf) == Qualified(names[s], ks) && IsObjectName(kf) && kf != REF && ks != REF
    ensures var sources := WitnessSources(names, f, s, kf, ks);
            && AreSources(sources) && NamesOf(sources) == names && RefersToSchemas(sources)
            && Overwrites(sources, f, s, kf, ks)
  {
    forall n | 0 <= n < |names| {
      WitnessIsSource(n, f, s, kf, ks);
    }
    assert forall n | 0 <= n < |names| :: names[n] in names;
  }

  lemma WitnessIsSource(n: int, f: int, s: int, kf: string, ks: string)
    requires f != s && IsObjectName(kf) && kf != REF && ks != REF
    ensures var doc := WitnessDocument(n, f, s, kf, ks);
            && Rewritable(doc) && HasObjects(doc) && AllRefs(Obj(doc), SchemaRefsOnly())
            && SchemasOf(doc) == (if n == f then map[kf := TypeSchema("string")]
                                  else if n == s then map[ks := TypeSchema("integer")] else map[])
            && PathsOf(doc) == if n == f then map[PATH := ItemTo(SCHEMA_REF + kf)] else map[]
  {
    var schemas: JsonMap := if n == f then map[kf := TypeSchema("string")]
                            else if n == s then map[ks := TypeSchema("integer")] else map[];
    var paths: JsonMap := if n == f then map[PATH := ItemTo(SCHEMA_REF + kf)] else map[];
    TypeHasNoRefs(kf, "string");
    TypeHasNoRefs(ks, "integer");
    PlainSchemaRef(map[], kf);
    ItemRefs(SCHEMA_REF + kf, SchemaRefsOnly());
    assert PATH != REF && PATH[0] != 'x';
    assert RefsAreStrings(Obj(paths)) && AllRefs(Obj(paths), SchemaRefsOnly());
    SmallDocumentIsSource(schemas, paths);
    SmallDocumentAllRefs(schemas, paths, SchemaRefsOnly());
  }

  lemma SmallDocumentAllRefs(schemas: JsonMap, paths: JsonMap, ok: string -> bool)
    requires AllRefs(Obj(schemas), ok) && AllRefs(Obj(paths), ok)
    ensures AllRefs(Obj(SmallDocument(schemas, paths)), ok)
  {
    assert COMPONENTS != REF && SCHEMAS != REF && PATHS != REF;
    assert AllRefs(Obj(map[SCHEMAS := Obj(schemas)]), ok);
    assert AllRefs(SmallDocument(schemas, paths)["info"], ok);
  }

  function WitnessDocument(n: int, f: int, s: int, kf: string, ks: string): JsonMap {
    if n == f then SmallDocument(map[kf := TypeSchema("string")], map[PATH := ItemTo(SCHEMA_REF + kf)])
    else if n == s then SmallDocument(map[ks := TypeSchema("integer")], map[])
    else SmallDocument(map[], map[])
  }
}
