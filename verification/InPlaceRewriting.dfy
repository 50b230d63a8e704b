/** The rewriting as the code does it: in place, on the maps `json.Unmarshal` has just allocated. */
module InPlaceRewriting {
  import opened JsonPointer
  import opened References
  import opened RefRewriting

  /** An `interface{}` holding decoded JSON. A map is a reference; no slice is ever assigned to. */
  datatype Value =
    | VNull
    | VBool(b: bool)
    | VNum(literal: string)
    | VStr(s: string)
    | VSlice(items: seq<Value>)
    | VMap(node: MapObject)

  /** A `map[string]interface{}`. */
  class MapObject {
    var entries: map<string, Value>

    constructor (entries: map<string, Value>)
      ensures this.entries == entries
    {
      this.entries := entries;
    }
  }

  /** Where the maps of a value are; `maps` has them all. */
  datatype Shape =
    | Scalar
    | Slice(kids: seq<Shape>, maps: set<MapObject>)
    | Map(node: MapObject, fields: map<string, Shape>, maps: set<MapObject>)

  ghost function Footprint(sh: Shape): set<MapObject> {
    if sh.Scalar? then {} else sh.maps
  }

  /** A tree: no map is reachable twice. */
  ghost predicate Unshared(sh: Shape) {
    match sh
    case Scalar => true
    case Slice(kids, maps) =>
      && (forall i | 0 <= i < |kids| :: Unshared(kids[i]) && Footprint(kids[i]) <= maps)
      && (forall i, j | 0 <= i < |kids| && 0 <= j < |kids| && i != j :: Footprint(kids[i]) !! Footprint(kids[j]))
    case Map(node, fields, maps) =>
      && node in maps
      && (forall k | k in fields :: Unshared(fields[k]) && Footprint(fields[k]) <= maps - {node})
      && (forall j, k | j in fields && k in fields && j != k :: Footprint(fields[j]) !! Footprint(fields[k]))
  }

  /** In the current heap `v`, whose maps are where `sh` says, holds the JSON value `j`. */
  ghost predicate Holds(v: Value, sh: Shape, j: Json)
    requires Unshared(sh)
    reads Footprint(sh)
    decreases sh
  {
    match v
    case VNull => sh.Scalar? && j == Null
    case VBool(b) => sh.Scalar? && j == Bool(b)
    case VNum(literal) => sh.Scalar? && j == Num(literal)
    case VStr(s) => sh.Scalar? && j == Str(s)
    case VSlice(items) =>
      sh.Slice? && j.Arr? && |items| == |sh.kids| == |j.items| &&
      forall i | 0 <= i < |items| :: Holds(items[i], sh.kids[i], j.items[i])
    case VMap(node) =>
      sh.Map? && sh.node == node && j.Obj? && node.entries.Keys == sh.fields.Keys == j.fields.Keys &&
      forall k | k in sh.fields :: Holds(node.entries[k], sh.fields[k], j.fields[k])
  }

  // ---- Decoding and encoding ------------------------------------------------------------------

  /** `json.Unmarshal` of a decoded value: every map is a new one. */
  method Decode(j: Json) returns (v: Value, ghost sh: Shape)
    ensures Unshared(sh) && Holds(v, sh, j) && fresh(Footprint(sh))
    decreases j, 1
  {
    match j
    case Null => return VNull, Scalar;
    case Bool(b) => return VBool(b), Scalar;
    case Num(literal) => return VNum(literal), Scalar;
    case Str(s) => return VStr(s), Scalar;
    case Arr(items) => v, sh := DecodeSlice(j, items);
    case Obj(fields) => v, sh := DecodeMap(j, fields);
  }

  method DecodeSlice(ghost j: Json, items: seq<Json>) returns (v: Value, ghost sh: Shape)
    requires j == Arr(items)
    ensures Unshared(sh) && Holds(v, sh, j) && fresh(Footprint(sh))
    decreases j, 0
  {
    var values: seq<Value> := [];
    ghost var kids: seq<Shape>, maps: set<MapObject> := [], {};
    for i := 0 to |items|
      invariant |values| == |kids| == i && fresh(maps)
      invariant Unshared(Slice(kids, maps))
      invariant forall n | 0 <= n < i :: Holds(values[n], kids[n], items[n])
    {
      ghost var before := kids;
      var value, kid := Decode(items[i]);
      values := values + [value];
      kids, maps := kids + [kid], maps + Footprint(kid);
      assert forall n | 0 <= n < i :: kids[n] == before[n] && Footprint(kid) !! Footprint(before[n]);
    }
    v, sh := VSlice(values), Slice(kids, maps);
  }

  method DecodeMap(ghost j: Json, fields: map<string, Json>) returns (v: Value, ghost sh: Shape)
    requires j == Obj(fields)
    ensures Unshared(sh) && Holds(v, sh, j) && fresh(Footprint(sh))
    decreases j, 0
  {
    var node := new MapObject(map[]);
    var entries: map<string, Value> := map[];
    ghost var shapes: map<string, Shape>, maps: set<MapObject> := map[], {node};
    var todo := fields.Keys;
    while todo != {}
      invariant todo <= fields.Keys && entries.Keys == shapes.Keys == fields.Keys - todo
      invariant fresh(node) && fresh(maps) && Unshared(Map(node, shapes, maps))
      invariant forall k | k in entries :: Holds(entries[k], shapes[k], fields[k])
      decreases todo
    {
      var k :| k in todo;
      var value, shape := Decode(fields[k]);
      NewField(node, shapes, maps, k, shape);
      entries := entries[k := value];
      shapes, maps := shapes[k := shape], maps + Footprint(shape);
      todo := todo - {k};
    }
    node.entries := entries;
    v, sh := VMap(node), Map(node, shapes, maps);
    assert forall k | k in fields :: node !in Footprint(shapes[k]);
  }

  lemma NewField(node: MapObject, shapes: map<string, Shape>, maps: set<MapObject>, k: string, shape: Shape)
    requires Unshared(Map(node, shapes, maps)) && Unshared(shape) && k !in shapes && Footprint(shape) !! maps
    ensures Unshared(Map(node, shapes[k := shape], maps + Footprint(shape)))
  {
    var fields := shapes[k := shape];
    forall a, b | a in fields && b in fields && a != b ensures Footprint(fields[a]) !! Footprint(fields[b]) {
      assert a != k ==> Footprint(shapes[a]) <= maps;
      assert b != k ==> Footprint(shapes[b]) <= maps;
    }
  }

  /** `json.Marshal`: what the value holds. */
  method Encode(v: Value, ghost sh: Shape, ghost j: Json) returns (r: Json)
    requires Unshared(sh) && Holds(v, sh, j)
    ensures r == j
    decreases sh, 1
  {
    match v
    case VNull => r := Null;
    case VBool(b) => r := Bool(b);
    case VNum(literal) => r := Num(literal);
    case VStr(s) => r := Str(s);
    case VSlice(items) => r := EncodeSlice(items, sh, j);
    case VMap(node) => r := EncodeMap(node, sh, j);
  }

  method EncodeSlice(items: seq<Value>, ghost sh: Shape, ghost j: Json) returns (r: Json)
    requires Unshared(sh) && Holds(VSlice(items), sh, j)
    ensures r == j
    decreases sh, 0
  {
    var values: seq<Json> := [];
    for i := 0 to |items|
      invariant values == j.items[..i]
    {
      var value := Encode(items[i], sh.kids[i], j.items[i]);
      values := values + [value];
    }
    r := Arr(values);
  }

  method EncodeMap(node: MapObject, ghost sh: Shape, ghost j: Json) returns (r: Json)
    requires Unshared(sh) && Holds(VMap(node), sh, j)
    ensures r == j
    decreases sh, 0
  {
    var fields: map<string, Json> := map[];
    var todo := node.entries.Keys;
    while todo != {}
      invariant todo <= node.entries.Keys
      invariant fields.Keys == node.entries.Keys - todo
      invariant forall k | k in fields :: fields[k] == j.fields[k]
      decreases todo
    {
      var k :| k in todo;
      var value := Encode(node.entries[k], sh.fields[k], j.fields[k]);
      fields := fields[k := value];
      todo := todo - {k};
    }
    assert fields == j.fields;
    r := Obj(fields);
  }

  // ---- References prefixed --------------------------------------------------------------------

  /** `prefixRefs`. Panics exactly when some `$ref` is no string; otherwise every reference string is
      rewritten once, in the map that holds it, and nothing else changes. */
  method PrefixRefs(v: Value, name: string, ghost sh: Shape, ghost j: Json) returns (panicked: bool)
    requires Unshared(sh) && Holds(v, sh, j)
    modifies Footprint(sh)
    ensures panicked <==> !RefsAreStrings(j)
    ensures !panicked ==> Holds(v, sh, Prefixed(j, name))
    decreases sh, 3
  {
    panicked := false;
    match v
    case VSlice(items) => panicked := PrefixSlice(items, name, sh, j);
    case VMap(node) => panicked := PrefixMap(node, name, sh, j);
    case _ =>
  }

  method PrefixSlice(items: seq<Value>, name: string, ghost sh: Shape, ghost j: Json)
    returns (panicked: bool)
    requires Unshared(sh) && Holds(VSlice(items), sh, j)
    modifies Footprint(sh)
    ensures panicked <==> !RefsAreStrings(j)
    ensures !panicked ==> Holds(VSlice(items), sh, Prefixed(j, name))
    decreases sh, 0
  {
    for i := 0 to |items|
      invariant forall n | 0 <= n < i :: RefsAreStrings(j.items[n])
      invariant forall n | 0 <= n < i :: Holds(items[n], sh.kids[n], Prefixed(j.items[n], name))
      invariant forall n | i <= n < |items| :: Holds(items[n], sh.kids[n], j.items[n])
    {
      panicked := PrefixRefs(items[i], name, sh.kids[i], j.items[i]);
      if panicked {
        return;
      }
    }
    panicked := false;
  }

  ghost predicate IsMapOf(sh: Shape, node: MapObject) {
    Unshared(sh) && sh.Map? && sh.node == node
  }

  ghost predicate EntriesHold(node: MapObject, sh: Shape, m: map<string, Json>)
    requires IsMapOf(sh, node)
    reads Footprint(sh)
  {
    node.entries.Keys == sh.fields.Keys == m.Keys &&
    forall k | k in m :: Holds(node.entries[k], sh.fields[k], m[k])
  }

  /** The keys of a map are visited in any order; an entry is overwritten while the map is walked. */
  method PrefixMap(node: MapObject, name: string, ghost sh: Shape, ghost j: Json)
    returns (panicked: bool)
    requires Unshared(sh) && Holds(VMap(node), sh, j)
    modifies Footprint(sh)
    ensures panicked <==> !RefsAreStrings(j)
    ensures !panicked ==> Holds(VMap(node), sh, Prefixed(j, name))
    decreases sh, 2
  {
    ghost var m, now := j.fields, j.fields;
    var todo := node.entries.Keys;
    while todo != {}
      invariant EntriesHold(node, sh, now)
      invariant todo <= node.entries.Keys == m.Keys
      invariant PartlyMapped(m, now, todo, name)
      decreases todo
    {
      var k :| k in todo;
      panicked := PrefixEntry(node, k, name, sh, now);
      if panicked {
        NotAllStrings(m, k);
        return;
      }
      MappedStep(m, now, todo, name, k);
      now := now[k := MappedField(now, Prefixer(name), k)];
      todo := todo - {k};
    }
    panicked := false;
    FullyMapped(m, now, name);
  }

  /** All entries but those of `todo` are rewritten. */
  ghost predicate PartlyMapped(m: map<string, Json>, now: map<string, Json>, todo: set<string>, name: string) {
    && now.Keys == m.Keys
    && (forall k | k in m && k in todo :: now[k] == m[k])
    && (forall k | k in m && k !in todo :: StringAtRef(m, k) && now[k] == MappedField(m, Prefixer(name), k))
  }

  lemma MappedStep(m: map<string, Json>, now: map<string, Json>, todo: set<string>, name: string, k: string)
    requires PartlyMapped(m, now, todo, name) && k in todo && k in m && StringAtRef(m, k)
    ensures PartlyMapped(m, now[k := MappedField(now, Prefixer(name), k)], todo - {k}, name)
  {}

  lemma FullyMapped(m: map<string, Json>, now: map<string, Json>, name: string)
    requires PartlyMapped(m, now, {}, name)
    ensures RefsAreStrings(Obj(m)) && Obj(now) == Prefixed(Obj(m), name)
  {
    assert now == Prefixed(Obj(m), name).fields;
  }

  lemma NotAllStrings(m: map<string, Json>, k: string)
    requires k in m && !StringAtRef(m, k)
    ensures !RefsAreStrings(Obj(m))
  {}

  /** One turn of the loop over a map: this entry is rewritten, and no other. */
  method PrefixEntry(node: MapObject, k: string, name: string, ghost sh: Shape, ghost m: map<string, Json>)
    returns (panicked: bool)
    requires IsMapOf(sh, node) && EntriesHold(node, sh, m) && k in m
    modifies Footprint(sh)
    ensures panicked <==> !StringAtRef(m, k)
    ensures !panicked ==> EntriesHold(node, sh, m[k := MappedField(m, Prefixer(name), k)])
    decreases sh, 1
  {
    var vv := node.entries[k];
    if k == REF {
      panicked := !vv.VStr?;
      if !panicked {
        Overwrite(node, k, PrefixRef(vv.s, name), sh, m);
      }
    } else {
      panicked := PrefixBelow(node, k, name, sh, m);
    }
  }

  method PrefixBelow(node: MapObject, k: string, name: string, ghost sh: Shape, ghost m: map<string, Json>)
    returns (panicked: bool)
    requires IsMapOf(sh, node) && EntriesHold(node, sh, m) && k in m
    modifies Footprint(sh)
    ensures panicked <==> !RefsAreStrings(m[k])
    ensures !panicked ==> EntriesHold(node, sh, m[k := Prefixed(m[k], name)])
    decreases sh, 0
  {
    panicked := PrefixRefs(node.entries[k], name, sh.fields[k], m[k]);
    forall other | other in m && other != k
      ensures Holds(node.entries[other], sh.fields[other], m[other])
    {
      assert Footprint(sh.fields[other]) !! Footprint(sh.fields[k]);
    }
  }

  method Overwrite(node: MapObject, k: string, s: string, ghost sh: Shape, ghost m: map<string, Json>)
    requires IsMapOf(sh, node) && EntriesHold(node, sh, m) && k in m && sh.fields[k].Scalar?
    modifies node
    ensures EntriesHold(node, sh, m[k := Str(s)])
  {
    node.entries := node.entries[k := VStr(s)];
    forall other | other in m && other != k
      ensures Holds(node.entries[other], sh.fields[other], m[other])
    {
      assert node !in Footprint(sh.fields[other]);
    }
    assert Holds(VStr(s), sh.fields[k], Str(s));
  }

  predicate StringAtRef(m: map<string, Json>, k: string)
    requires k in m
  {
    if k == REF then m[k].Str? else RefsAreStrings(m[k])
  }

  function MappedField(m: map<string, Json>, f: string -> string, k: string): Json
    requires k in m
  {
    if k == REF && m[k].Str? then Str(f(m[k].s)) else MapRefs(m[k], f)
  }

  // ---- Schemas renamed ------------------------------------------------------------------------

  /** Lines 226-238: references prefixed, then the map of schemas replaced by a new one. Panics exactly
      when the pure rewriting does not apply; otherwise the document then held is the rewritten one. */
  method RewriteDocument(root: MapObject, name: string, ghost sh: Shape, ghost doc: map<string, Json>)
    returns (panicked: bool, ghost sh': Shape)
    requires IsMapOf(sh, root) && EntriesHold(root, sh, doc)
    modifies Footprint(sh)
    ensures panicked <==> !Rewritable(doc)
    ensures !panicked ==> IsMapOf(sh', root) && EntriesHold(root, sh', Rewritten(doc, name))
    ensures !panicked ==> fresh(Footprint(sh') - Footprint(sh))
  {
    sh' := sh;
    panicked := PrefixRefs(VMap(root), name, sh, Obj(doc));
    if panicked {
      return;
    }
    ShapeKept(doc, name);
    panicked, sh' := RenameInPlace(root, name, sh, Prefixed(Obj(doc), name).fields);
  }

  lemma ShapeKept(doc: map<string, Json>, name: string)
    requires RefsAreStrings(Obj(doc))
    ensures HasSchemaShape(Prefixed(Obj(doc), name).fields) <==> HasSchemaShape(doc)
    ensures HasSchemaShape(doc) ==>
              Rewritten(doc, name) == RenameSchemas(Prefixed(Obj(doc), name).fields, name)
  {
    if COMPONENTS in doc {
      var components := doc[COMPONENTS];
      assert Prefixed(Obj(doc), name).fields[COMPONENTS] == Prefixed(components, name);
      if components.Obj? && SCHEMAS in components.fields {
        assert Prefixed(components, name).fields[SCHEMAS] == Prefixed(components.fields[SCHEMAS], name);
      }
    }
  }

  lemma MapsHoldObjects(v: Value, sh: Shape, j: Json)
    requires Unshared(sh) && Holds(v, sh, j)
    ensures v.VMap? <==> j.Obj?
    ensures v.VMap? ==> IsMapOf(sh, v.node) && EntriesHold(v.node, sh, j.fields)
  {}

  method RenameInPlace(root: MapObject, name: string, ghost sh: Shape, ghost doc: map<string, Json>)
    returns (panicked: bool, ghost sh': Shape)
    requires IsMapOf(sh, root) && EntriesHold(root, sh, doc)
    modifies Footprint(sh)
    ensures panicked <==> !HasSchemaShape(doc)
    ensures !panicked ==> IsMapOf(sh', root) && EntriesHold(root, sh', RenameSchemas(doc, name))
    ensures !panicked ==> fresh(Footprint(sh') - Footprint(sh))
  {
    panicked, sh' := false, sh;
    if COMPONENTS in root.entries {
      var components := root.entries[COMPONENTS];
      ghost var below := sh.fields[COMPONENTS];
      MapsHoldObjects(components, below, doc[COMPONENTS]);
      if !components.VMap? {
        return true, sh;
      }
      if SCHEMAS in components.node.entries {
        var schemas := components.node.entries[SCHEMAS];
        MapsHoldObjects(schemas, below.fields[SCHEMAS], doc[COMPONENTS].fields[SCHEMAS]);
        if !schemas.VMap? {
          return true, sh;
        }
        sh' := ReplaceSchemas(root, COMPONENTS, name, sh, doc);
      }
    }
  }

  /** The shape with another one below `k`. */
  ghost function SetField(sh: Shape, k: string, shape: Shape): Shape
    requires sh.Map?
  {
    Map(sh.node, sh.fields[k := shape], sh.maps + Footprint(shape))
  }

  /** What is below `k` may be replaced by maps of its own and maps from outside the tree. */
  ghost predicate FitsBelow(sh: Shape, k: string, shape: Shape) {
    && sh.Map? && k in sh.fields && Unshared(shape)
    && forall o | o in Footprint(shape) :: o in Footprint(sh.fields[k]) || o !in Footprint(sh)
  }

  lemma SetFieldUnshared(sh: Shape, k: string, shape: Shape)
    requires Unshared(sh) && FitsBelow(sh, k, shape)
    ensures Unshared(SetField(sh, k, shape))
  {
    var fields := sh.fields[k := shape];
    forall i, j | i in fields && j in fields && i != j ensures Footprint(fields[i]) !! Footprint(fields[j]) {
      if i == k {
        assert Footprint(sh.fields[j]) !! Footprint(sh.fields[k]);
      } else if j == k {
        assert Footprint(sh.fields[i]) !! Footprint(sh.fields[k]);
      }
    }
  }

  /** All entries but `k` hold what they should; reads nothing below `k`. */
  ghost predicate OthersHold(node: MapObject, k: string, sh: Shape, m: map<string, Json>)
    requires IsMapOf(sh, node) && k in sh.fields
    reads Footprint(sh) - Footprint(sh.fields[k])
  {
    node.entries.Keys == sh.fields.Keys == m.Keys &&
    forall other | other in m && other != k ::
      Footprint(sh.fields[other]) !! Footprint(sh.fields[k]) && Holds(node.entries[other], sh.fields[other], m[other])
  }

  lemma ChildReplaced(node: MapObject, k: string, shape: Shape, j: Json, sh: Shape, m: map<string, Json>)
    requires IsMapOf(sh, node) && FitsBelow(sh, k, shape) && OthersHold(node, k, sh, m)
    requires Holds(node.entries[k], shape, j)
    ensures IsMapOf(SetField(sh, k, shape), node) && EntriesHold(node, SetField(sh, k, shape), m[k := j])
  {
    SetFieldUnshared(sh, k, shape);
  }

  lemma EntriesMakeMap(node: MapObject, sh: Shape, m: map<string, Json>)
    requires IsMapOf(sh, node) && EntriesHold(node, sh, m)
    ensures Holds(VMap(node), sh, Obj(m))
  {}

  /** Components with the schemas renamed. */
  function RenamedBelow(m: map<string, Json>, name: string): map<string, Json>
    requires SCHEMAS in m && m[SCHEMAS].Obj?
  {
    m[SCHEMAS := Obj(RenameKeys(m[SCHEMAS].fields, name))]
  }

  /** `schemas` replaced, in the components at `k` below `root`, by a new map with the qualified keys. */
  method ReplaceSchemas(root: MapObject, k: string, name: string, ghost sh: Shape, ghost doc: map<string, Json>)
    returns (ghost sh': Shape)
    requires IsMapOf(sh, root) && EntriesHold(root, sh, doc)
    requires k in doc && doc[k].Obj? && SCHEMAS in doc[k].fields && doc[k].fields[SCHEMAS].Obj?
    modifies Footprint(sh)
    ensures IsMapOf(sh', root) && EntriesHold(root, sh', doc[k := Obj(RenamedBelow(doc[k].fields, name))])
    ensures fresh(Footprint(sh') - Footprint(sh))
  {
    ghost var below' := ReplaceAt(root.entries[k], name, sh.fields[k], doc[k]);
    forall other | other in doc && other != k
      ensures Holds(root.entries[other], sh.fields[other], doc[other])
      ensures Footprint(sh.fields[other]) !! Footprint(sh.fields[k])
    {
      assert Footprint(sh.fields[other]) !! Footprint(sh.fields[k]);
    }
    sh' := SetField(sh, k, below');
    ChildReplaced(root, k, below', Obj(RenamedBelow(doc[k].fields, name)), sh, doc);
  }

  method ReplaceAt(components: Value, name: string, ghost sh: Shape, ghost j: Json) returns (ghost sh': Shape)
    requires Unshared(sh) && Holds(components, sh, j)
    requires j.Obj? && SCHEMAS in j.fields && j.fields[SCHEMAS].Obj?
    modifies Footprint(sh)
    ensures Unshared(sh') && Holds(components, sh', Obj(RenamedBelow(j.fields, name)))
    ensures fresh(Footprint(sh') - Footprint(sh))
  {
    MapsHoldObjects(components, sh, j);
    var node := components.node;
    MapsHoldObjects(node.entries[SCHEMAS], sh.fields[SCHEMAS], j.fields[SCHEMAS]);
    sh' := ReplaceBelow(node, node.entries[SCHEMAS].node, name, sh, j.fields);
    EntriesMakeMap(node, sh', RenamedBelow(j.fields, name));
  }

  method ReplaceBelow(components: MapObject, schemas: MapObject, name: string, ghost sh: Shape,
                      ghost m: map<string, Json>)
    returns (ghost sh': Shape)
    requires IsMapOf(sh, components) && EntriesHold(components, sh, m)
    requires SCHEMAS in m && m[SCHEMAS].Obj? && components.entries[SCHEMAS] == VMap(schemas)
    modifies components
    ensures IsMapOf(sh', components) && EntriesHold(components, sh', RenamedBelow(m, name))
    ensures fresh(Footprint(sh') - Footprint(sh))
  {
    MapsHoldObjects(VMap(schemas), sh.fields[SCHEMAS], m[SCHEMAS]);
    var renamed, shape := RenamedCopy(schemas, name, sh.fields[SCHEMAS], m[SCHEMAS].fields);
    PutBelow(components, SCHEMAS, VMap(renamed), shape, Obj(RenameKeys(m[SCHEMAS].fields, name)), sh, m);
    sh' := SetField(sh, SCHEMAS, shape);
  }

  method PutBelow(node: MapObject, k: string, v: Value, ghost shape: Shape, ghost j: Json, ghost sh: Shape,
                  ghost m: map<string, Json>)
    requires IsMapOf(sh, node) && EntriesHold(node, sh, m)
    requires FitsBelow(sh, k, shape) && Holds(v, shape, j)
    modifies node
    ensures IsMapOf(SetField(sh, k, shape), node) && EntriesHold(node, SetField(sh, k, shape), m[k := j])
  {
    node.entries := node.entries[k := v];
    forall other | other in m && other != k
      ensures Holds(node.entries[other], sh.fields[other], m[other])
      ensures Footprint(sh.fields[other]) !! Footprint(sh.fields[k])
    {
      assert node !in Footprint(sh.fields[other]);
    }
    assert node !in Footprint(sh.fields[k]) && node !in Footprint(shape);
    ChildReplaced(node, k, shape, j, sh, m);
  }

  /** The loop that fills the new map, over the old one in any order. */
  method RenamedCopy(schemas: MapObject, name: string, ghost sh: Shape, ghost m: map<string, Json>)
    returns (r: MapObject, ghost sh': Shape)
    requires IsMapOf(sh, schemas) && EntriesHold(schemas, sh, m)
    ensures fresh(r) && Footprint(sh') == Footprint(sh) - {schemas} + {r}
    ensures IsMapOf(sh', r) && EntriesHold(r, sh', RenameKeys(m, name))
  {
    var renamed := RenamedEntries(schemas.entries, name);
    r := new MapObject(renamed);
    sh' := RenamedShape(sh, r, name);
    RenamedHolds(schemas, r, name, sh, m);
  }

  method RenamedEntries(entries: map<string, Value>, name: string) returns (renamed: map<string, Value>)
    ensures renamed == RenameKeys(entries, name)
  {
    renamed := map[];
    var todo := entries.Keys;
    while todo != {}
      invariant todo <= entries.Keys
      invariant renamed == map q | q in RenameKeys(entries, name) && q[|name| + 1..] !in todo ::
                    RenameKeys(entries, name)[q]
      decreases todo
    {
      var k :| k in todo;
      QualifiedSuffixes(name);
      assert Qualified(name, k) in RenameKeys(entries, name);
      renamed := renamed[name + "." + k := entries[k]];
      todo := todo - {k};
    }
  }

  ghost function RenamedShape(sh: Shape, r: MapObject, name: string): Shape
    requires sh.Map?
  {
    Map(r, RenameKeys(sh.fields, name), sh.maps - {sh.node} + {r})
  }

  lemma RenamedUnshared(sh: Shape, r: MapObject, name: string)
    requires Unshared(sh) && sh.Map? && r !in sh.maps
    ensures Unshared(RenamedShape(sh, r, name))
  {
    var fields := RenameKeys(sh.fields, name);
    forall q | q in fields ensures exists k :: k in sh.fields && q == Qualified(name, k) && fields[q] == sh.fields[k] {
      var k :| k in sh.fields && q == Qualified(name, k);
    }
  }

  lemma RenamedHolds(schemas: MapObject, r: MapObject, name: string, sh: Shape, m: map<string, Json>)
    requires IsMapOf(sh, schemas) && EntriesHold(schemas, sh, m)
    requires r !in sh.maps && r.entries == RenameKeys(schemas.entries, name)
    ensures IsMapOf(RenamedShape(sh, r, name), r)
    ensures EntriesHold(r, RenamedShape(sh, r, name), RenameKeys(m, name))
  {
    RenamedUnshared(sh, r, name);
    var shape, n := RenamedShape(sh, r, name), RenameKeys(m, name);
    forall q | q in n ensures q in r.entries && q in shape.fields && Holds(r.entries[q], shape.fields[q], n[q]) {
      var k :| k in m && q == Qualified(name, k);
    }
    forall q | q in r.entries ensures q in n {
      var k :| k in schemas.entries && q == Qualified(name, k);
    }
    forall q | q in shape.fields ensures q in n {
      var k :| k in sh.fields && q == Qualified(name, k);
    }
  }
}
