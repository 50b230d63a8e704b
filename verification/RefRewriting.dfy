/** Rewriting one OpenAPI document for a definition: `prefixRefs`, and the renaming of its component
    schemas. The rewriting preserves the meaning of every value of the document. */
module RefRewriting {
  import opened Wrappers
  import opened Text
  import opened JsonPointer
  import opened References

  const COMPONENTS := "components"
  const SCHEMAS := "schemas"
  const SCHEMA_REF := "#/" + COMPONENTS + "/" + SCHEMAS + "/"

  // ---- The code ------------------------------------------------------------------------------

  /** `prefixRef`. */
  function PrefixRef(ref: string, prefix: string): string {
    if !HasPrefix(ref, "#") then ref else ReplaceLast(ref, "/", "/" + prefix + ".")
  }

  function Prefixer(name: string): string -> string {
    r => PrefixRef(r, name)
  }

  /** What `prefixRefs` makes of a value on which it does not panic. */
  function Prefixed(v: Json, name: string): Json {
    MapRefs(v, Prefixer(name))
  }

  function Qualified(name: string, key: string): string {
    name + "." + key
  }

  /** `schemas[newName] = definitionSchema` over all schemas of a document. */
  function RenameKeys<T>(m: map<string, T>, name: string): (r: map<string, T>)
    ensures forall k {:trigger Qualified(name, k)} :: k in m <==> Qualified(name, k) in r
    ensures forall k {:trigger Qualified(name, k)} :: k in m ==> r[Qualified(name, k)] == m[k]
    ensures forall q :: q in r ==> exists k :: k in m && q == Qualified(name, k)
    ensures |r| == |m|
  {
    QualifiedSuffixes(name);
    var keys := set k | k in m :: Qualified(name, k);
    RenamedCount(m.Keys, name);
    var r := map q | q in keys :: m[q[|name| + 1..]];
    assert r.Keys == keys;
    r
  }

  /** The panics of lines 229 and 231: `components` and `components.schemas` must be objects. */
  predicate HasSchemaShape(doc: map<string, Json>) {
    COMPONENTS in doc ==>
      doc[COMPONENTS].Obj? &&
      (SCHEMAS in doc[COMPONENTS].fields ==> doc[COMPONENTS].fields[SCHEMAS].Obj?)
  }

  function RenameSchemas(doc: map<string, Json>, name: string): map<string, Json>
    requires HasSchemaShape(doc)
  {
    if COMPONENTS in doc && SCHEMAS in doc[COMPONENTS].fields then
      var components := doc[COMPONENTS].fields;
      doc[COMPONENTS := Obj(components[SCHEMAS := Obj(RenameKeys(components[SCHEMAS].fields, name))])]
    else doc
  }

  /** The document rewrites without a panic. */
  predicate Rewritable(doc: map<string, Json>) {
    RefsAreStrings(Obj(doc)) && HasSchemaShape(doc)
  }

  /** References mapped, then schemas renamed. */
  function RewrittenBy(doc: map<string, Json>, f: string -> string, name: string): map<string, Json>
    requires Rewritable(doc)
  {
    MapRefsShape(doc, f);
    RenameSchemas(MapRefs(Obj(doc), f).fields, name)
  }

  /** Lines 226-238 of the specification controller. */
  function Rewritten(doc: map<string, Json>, name: string): map<string, Json>
    requires Rewritable(doc)
  {
    RewrittenBy(doc, Prefixer(name), name)
  }

  /** `components.schemas`, empty when absent. */
  function SchemasOf(doc: map<string, Json>): map<string, Json>
    requires HasSchemaShape(doc)
  {
    if COMPONENTS in doc && SCHEMAS in doc[COMPONENTS].fields
    then doc[COMPONENTS].fields[SCHEMAS].fields
    else map[]
  }

  lemma QualifiedSuffixes(name: string)
    ensures forall k {:trigger Qualified(name, k)} :: Qualified(name, k)[|name| + 1..] == k
    ensures forall k {:trigger Qualified(name, k)} :: |Qualified(name, k)| == |name| + 1 + |k|
  {}

  lemma {:induction false} RenamedCount(keys: set<string>, name: string)
    ensures |set k | k in keys :: Qualified(name, k)| == |keys|
  {
    if keys != {} {
      var x :| x in keys;
      var rest := keys - {x};
      RenamedCount(rest, name);
      QualifiedSuffixes(name);
      assert (set k | k in keys :: Qualified(name, k)) ==
             (set k | k in rest :: Qualified(name, k)) + {Qualified(name, x)};
    }
  }

  /** Mapping references keeps `components` and `components.schemas` objects. */
  lemma MapRefsShape(doc: map<string, Json>, f: string -> string)
    requires Rewritable(doc)
    ensures HasSchemaShape(MapRefs(Obj(doc), f).fields)
    ensures SchemasOf(MapRefs(Obj(doc), f).fields).Keys == SchemasOf(doc).Keys
    ensures forall key | key in SchemasOf(doc) && key != REF ::
              SchemasOf(MapRefs(Obj(doc), f).fields)[key] == MapRefs(SchemasOf(doc)[key], f)
  {
    var mapped := MapRefs(Obj(doc), f).fields;
    if COMPONENTS in doc {
      var components := doc[COMPONENTS];
      assert mapped[COMPONENTS] == MapRefs(components, f);
      if SCHEMAS in components.fields {
        assert MapRefs(components, f).fields[SCHEMAS] == MapRefs(components.fields[SCHEMAS], f);
      }
    }
  }

  function MappedSchemas(doc: map<string, Json>, f: string -> string): map<string, Json>
    requires Rewritable(doc)
  {
    MapRefsShape(doc, f);
    SchemasOf(MapRefs(Obj(doc), f).fields)
  }

  /** The schemas of a rewritten document are the rewritten schemas under their qualified names. */
  lemma RewrittenSchemas(doc: map<string, Json>, f: string -> string, name: string)
    requires Rewritable(doc)
    ensures HasSchemaShape(RewrittenBy(doc, f, name))
    ensures SchemasOf(RewrittenBy(doc, f, name)) == RenameKeys(MappedSchemas(doc, f), name)
    ensures |SchemasOf(RewrittenBy(doc, f, name))| == |SchemasOf(doc)|
  {
    MapRefsShape(doc, f);
    var mapped := MapRefs(Obj(doc), f).fields;
    assert SchemasOf(mapped) == MappedSchemas(doc, f);
    assert |SchemasOf(mapped)| == |SchemasOf(mapped).Keys| == |SchemasOf(doc).Keys|;
    if !(COMPONENTS in mapped && SCHEMAS in mapped[COMPONENTS].fields) {
      assert RenameKeys<Json>(map[], name) == map[];
    }
  }

  /** If there is anything at that place, it is an object. */
  predicate IsObjectIfAny(doc: map<string, Json>, tokens: seq<string>) {
    Walk(Obj(doc), tokens).Some? ==> Walk(Obj(doc), tokens).value.Obj?
  }

  /** A document rewrites without a panic exactly when no `$ref` in it is anything but a string, and `components` and
      its `schemas` are objects where they are there. */
  lemma RewritableExactly(doc: map<string, Json>)
    ensures Rewritable(doc) <==>
            (forall tokens :: !IsBadRefAt(Obj(doc), tokens)) &&
            IsObjectIfAny(doc, ["components"]) && IsObjectIfAny(doc, ["components", "schemas"])
  {
    RefsAreStringsExactly(Obj(doc));
    WalkOn(doc, "components", []);
    WalkOn(doc, "components", ["schemas"]);
    assert ["components"] + [] == ["components"] && ["components"] + ["schemas"] == ["components", "schemas"];
    if COMPONENTS in doc && doc[COMPONENTS].Obj? {
      WalkOn(doc[COMPONENTS].fields, "schemas", []);
      assert ["schemas"] + [] == ["schemas"];
    }
  }

  /** Outside the schemas the rewritten document has the members it had, with their references prefixed. */
  lemma RestIsPrefixed(doc: map<string, Json>, name: string)
    requires Rewritable(doc)
    ensures Rewritten(doc, name).Keys == doc.Keys
    ensures forall k | k in doc && k != COMPONENTS && k != REF :: Rewritten(doc, name)[k] == Prefixed(doc[k], name)
    ensures COMPONENTS in doc ==>
              var before, after := doc[COMPONENTS].fields, Rewritten(doc, name)[COMPONENTS];
              after.Obj? && after.fields.Keys == before.Keys &&
              forall k | k in before && k != SCHEMAS && k != REF :: after.fields[k] == Prefixed(before[k], name)
  {
    var f := Prefixer(name);
    MapRefsShape(doc, f);
    var mapped := MapRefs(Obj(doc), f).fields;
    if COMPONENTS in doc {
      assert mapped[COMPONENTS] == MapRefs(doc[COMPONENTS], f);
    }
  }

  // ---- Which references the rewriting is for --------------------------------------------------

  /** A Kubernetes object name: lower-case letters, digits, dashes and dots (RFC 1123). */
  predicate IsObjectName(name: string) {
    forall c | c in name :: 'a' <= c <= 'z' || '0' <= c <= '9' || c == '-' || c == '.'
  }

  /** The schema a last reference segment names. */
  function SchemaKey(segment: string): Option<string> {
    var decoded :- PercentDecode(segment);
    Unescape(decoded)
  }

  /** One segment, also once decoded; `$ref` itself is no schema name. */
  predicate IsSchemaSegment(segment: string) {
    '/' !in segment && SchemaKey(segment) != Some(REF) &&
    (PercentDecode(segment).Some? ==> '/' !in PercentDecode(segment).value)
  }

  /** `#/components/schemas/<segment>`. */
  predicate IsSchemaRef(ref: string) {
    HasPrefix(ref, SCHEMA_REF) && IsSchemaSegment(ref[|SCHEMA_REF|..])
  }

  /** External, or to a component schema. */
  function SchemaRefsOnly(): string -> bool {
    r => IsLocal(r) ==> IsSchemaRef(r)
  }

  function ResolverOf(doc: Json): Resolver {
    r => Resolve(doc, r)
  }

  function Schema(doc: Json, key: string): Option<Json> {
    Walk(doc, [COMPONENTS, SCHEMAS, key])
  }

  lemma SchemaLookup(doc: map<string, Json>, key: string)
    requires HasSchemaShape(doc)
    ensures Schema(Obj(doc), key) ==
            if key in SchemasOf(doc) then Some(SchemasOf(doc)[key]) else None
  {
    var tokens := [COMPONENTS, SCHEMAS, key];
    assert tokens[1..] == [SCHEMAS, key] && [SCHEMAS, key][1..] == [key] && [key][1..] == [];
    if COMPONENTS in doc {
      assert Walk(Obj(doc), tokens) == Walk(doc[COMPONENTS], [SCHEMAS, key]);
      if SCHEMAS in doc[COMPONENTS].fields {
        assert Walk(doc[COMPONENTS], [SCHEMAS, key]) ==
               Walk(doc[COMPONENTS].fields[SCHEMAS], [key]);
      }
    }
  }

  lemma ResolveSchemaRef(doc: Json, segment: string)
    requires IsSchemaSegment(segment)
    ensures Resolve(doc, SCHEMA_REF + segment) ==
            match SchemaKey(segment) case None => None case Some(key) => Schema(doc, key)
  {
    ThreeTokens(COMPONENTS, SCHEMAS, segment);
    assert SCHEMA_REF + segment == "#/" + COMPONENTS + "/" + SCHEMAS + "/" + segment;
  }

  lemma PrefixedSegment(segment: string, name: string)
    requires IsSchemaSegment(segment) && IsObjectName(name)
    ensures SchemaKey(Qualified(name, segment)) ==
            match SchemaKey(segment) case None => None case Some(key) => Some(Qualified(name, key))
    ensures IsSchemaSegment(Qualified(name, segment))
  {
    PercentDecodePlain(name + ".", segment);
    if PercentDecode(segment).Some? {
      UnescapePlain(name + ".", PercentDecode(segment).value);
      if SchemaKey(segment).Some? {
        QualifiedIsNotRef(name, SchemaKey(segment).value);
      }
    }
  }

  lemma QualifiedIsNotRef(name: string, key: string)
    ensures Qualified(name, key) != REF
  {
    assert Qualified(name, key)[|name|] == '.';
    assert '.' in Qualified(name, key) && '.' !in REF;
  }

  /** The rewritten reference names the qualified schema, and is again a schema reference. */
  lemma PrefixedSchemaRef(segment: string, name: string)
    requires IsSchemaSegment(segment)
    ensures PrefixRef(SCHEMA_REF + segment, name) == SCHEMA_REF + Qualified(name, segment)
  {
    var head := "#/" + COMPONENTS + "/" + SCHEMAS;
    assert SCHEMA_REF + segment == head + "/" + segment;
    LastSlash(head, segment);
    assert (SCHEMA_REF + segment)[..|head|] == head;
    assert (SCHEMA_REF + segment)[|head| + 1..] == segment;
    assert head + ("/" + name + ".") + segment == SCHEMA_REF + Qualified(name, segment);
  }

  // ---- The rewriting preserves meaning --------------------------------------------------------

  /** `target` holds every schema of `source`, with references mapped, under its qualified name. */
  ghost predicate HoldsSchemas(source: Json, target: Json, f: string -> string, name: string) {
    forall key {:trigger Schema(source, key)} :: key != REF ==>
      Schema(target, Qualified(name, key)) == MapRefsOption(Schema(source, key), f)
  }

  lemma RefCarried(source: Json, target: Json, name: string, ref: string)
    requires IsObjectName(name) && HoldsSchemas(source, target, Prefixer(name), name)
    requires IsSchemaRef(ref)
    ensures IsSchemaRef(PrefixRef(ref, name)) && IsLocal(PrefixRef(ref, name))
    ensures Resolve(target, PrefixRef(ref, name)) == MapRefsOption(Resolve(source, ref), Prefixer(name))
  {
    var segment := ref[|SCHEMA_REF|..];
    assert ref == SCHEMA_REF + segment;
    PrefixedSchemaRef(segment, name);
    PrefixedSegment(segment, name);
    ResolveSchemaRef(source, segment);
    ResolveSchemaRef(target, Qualified(name, segment));
    if SchemaKey(segment).Some? {
      var _ := Schema(source, SchemaKey(segment).value);
    }
  }

  /** Every external reference stays, and every schema reference of the rewritten value denotes the
      rewritten target of the original reference. */
  lemma PrefixingCarries(source: Json, target: Json, name: string)
    requires IsObjectName(name) && HoldsSchemas(source, target, Prefixer(name), name)
    ensures Carries(ResolverOf(source), ResolverOf(target), Prefixer(name), SchemaRefsOnly())
  {
    var f, ok := Prefixer(name), SchemaRefsOnly();
    var s, t := ResolverOf(source), ResolverOf(target);
    forall r | ok(r)
      ensures IsLocal(f(r)) == IsLocal(r)
      ensures if IsLocal(r) then t(f(r)) == MapRefsOption(s(r), f) else f(r) == r
    {
      if IsLocal(r) {
        RefCarried(source, target, name, r);
      }
    }
  }

  lemma ResolverClosed(doc: Json, ok: string -> bool)
    requires RefsAreStrings(doc) && AllRefs(doc, ok)
    ensures Closed(ResolverOf(doc), ok)
  {
    forall r {:trigger Resolve(doc, r)} | Resolve(doc, r).Some?
      ensures RefsAreStrings(Resolve(doc, r).value) && AllRefs(Resolve(doc, r).value, ok)
    {
      WalkKeepsRefs(doc, Tokens(r).value, ok);
    }
  }

  lemma RewrittenHoldsSchemas(doc: map<string, Json>, f: string -> string, name: string)
    requires Rewritable(doc)
    ensures HoldsSchemas(Obj(doc), Obj(RewrittenBy(doc, f, name)), f, name)
  {
    RewrittenSchemas(doc, f, name);
    MapRefsShape(doc, f);
    forall key {:trigger Schema(Obj(doc), key)} | key != REF
      ensures Schema(Obj(RewrittenBy(doc, f, name)), Qualified(name, key)) ==
              MapRefsOption(Schema(Obj(doc), key), f)
    {
      SchemaLookup(doc, key);
      SchemaLookup(RewrittenBy(doc, f, name), Qualified(name, key));
    }
  }

  /** Expanding any rewritten value in a document that holds the rewritten schemas, to any depth, gives
      what the original value expands to in the original document. */
  lemma PrefixingPreservesMeaning(source: Json, target: Json, name: string, v: Json, depth: nat)
    requires IsObjectName(name) && HoldsSchemas(source, target, Prefixer(name), name)
    requires RefsAreStrings(source) && AllRefs(source, SchemaRefsOnly())
    requires RefsAreStrings(v) && AllRefs(v, SchemaRefsOnly())
    ensures Expand(ResolverOf(target), Prefixed(v, name), depth) == Expand(ResolverOf(source), v, depth)
  {
    PrefixingCarries(source, target, name);
    ResolverClosed(source, SchemaRefsOnly());
    ExpandMapped(ResolverOf(source), ResolverOf(target), Prefixer(name), SchemaRefsOnly(), v, depth);
  }

  /** The rewritten document means what the original one means, value by value and to any depth. */
  lemma RewritingPreservesMeaning(doc: map<string, Json>, name: string, v: Json, depth: nat)
    requires IsObjectName(name) && Rewritable(doc) && AllRefs(Obj(doc), SchemaRefsOnly())
    requires RefsAreStrings(v) && AllRefs(v, SchemaRefsOnly())
    ensures Expand(ResolverOf(Obj(Rewritten(doc, name))), Prefixed(v, name), depth) ==
            Expand(ResolverOf(Obj(doc)), v, depth)
  {
    RewrittenHoldsSchemas(doc, Prefixer(name), name);
    PrefixingPreservesMeaning(Obj(doc), Obj(Rewritten(doc, name)), name, v, depth);
  }

  /** Local references resolve. */
  function Resolves(doc: Json): string -> bool {
    r => IsLocal(r) ==> Resolve(doc, r).Some?
  }

  /** A rewritten value has a dangling reference exactly when the original value has one. */
  lemma PrefixingPreservesResolution(source: Json, target: Json, name: string, v: Json)
    requires IsObjectName(name) && HoldsSchemas(source, target, Prefixer(name), name)
    requires RefsAreStrings(v) && AllRefs(v, SchemaRefsOnly())
    ensures AllRefs(Prefixed(v, name), Resolves(target)) <==> AllRefs(v, Resolves(source))
  {
    PrefixingCarries(source, target, name);
    var f, ok, p, q := Prefixer(name), SchemaRefsOnly(), Resolves(source), Resolves(target);
    forall r | ok(r) ensures q(f(r)) <==> p(r) {
      assert IsLocal(f(r)) == IsLocal(r);
      if IsLocal(r) {
        assert ResolverOf(target)(f(r)) == MapRefsOption(ResolverOf(source)(r), f);
      }
    }
    AllRefsMapped(v, f, ok, p, q);
  }

  // ---- The rewriting can be undone ------------------------------------------------------------

  /** Drops `prefix.` after the last slash of a local reference. */
  function UnprefixRef(ref: string, prefix: string): string {
    var i := LastIndex(ref, "/");
    var inserted := prefix + ".";
    if HasPrefix(ref, "#") && i != -1 && HasPrefix(ref[i + 1..], inserted)
    then ref[..i + 1] + ref[i + 1 + |inserted|..]
    else ref
  }

  /** The prefix lands right after the last slash, once, and can be read off there again: a name
      without a slash does not move the last slash. */
  lemma PrefixRefRoundTrip(ref: string, prefix: string)
    requires '/' !in prefix
    ensures UnprefixRef(PrefixRef(ref, prefix), prefix) == ref
  {
    if HasPrefix(ref, "#") && LastIndex(ref, "/") != -1 {
      var i := LastIndex(ref, "/");
      var head, tail := ref[..i], ref[i + 1..];
      AfterLastSlash(ref);
      assert ref == head + "/" + tail;
      var prefixed := head + "/" + (prefix + "." + tail);
      assert PrefixRef(ref, prefix) == prefixed;
      LastSlash(head, prefix + "." + tail);
      assert prefixed[i + 1..] == prefix + "." + tail;
      assert prefixed[..i + 1] + tail == ref;
    }
  }

  /** `prefixRefs` changes nothing but reference strings, and those injectively. */
  lemma PrefixedRoundTrip(v: Json, name: string)
    requires '/' !in name
    ensures MapRefs(Prefixed(v, name), r => UnprefixRef(r, name)) == v
  {
    var f, g := Prefixer(name), r => UnprefixRef(r, name);
    forall r ensures g(f(r)) == r {
      PrefixRefRoundTrip(r, name);
    }
    MapRefsRoundTrip(v, f, g);
  }
}
