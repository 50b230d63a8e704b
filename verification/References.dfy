/** JSON values with Reference Objects (OpenAPI 3.0.1): what a value means once its references are
    followed, and what a rewriting of all reference strings keeps of that meaning. */
module References {
  import opened Wrappers
  import opened JsonPointer

  const REF := "$ref"

  predicate IsLocal(ref: string) {
    |ref| > 0 && ref[0] == '#'
  }

  /** An object with a `$ref` string; the members beside `$ref` are ignored. */
  predicate IsReference(v: Json) {
    v.Obj? && REF in v.fields && v.fields[REF].Str?
  }

  /** No `$ref` with a value that is no string: where the type assertion of `prefixRefs` holds. */
  predicate RefsAreStrings(v: Json) {
    match v
    case Arr(items) => forall i | 0 <= i < |items| :: RefsAreStrings(items[i])
    case Obj(m) => forall k | k in m :: if k == REF then m[k].Str? else RefsAreStrings(m[k])
    case _ => true
  }

  /** At that place there is an object with a `$ref` that is no string. */
  predicate IsBadRefAt(v: Json, tokens: seq<string>) {
    var found := Walk(v, tokens);
    found.Some? && found.value.Obj? && REF in found.value.fields && !found.value.fields[REF].Str?
  }

  /** All references are strings exactly when there is no place with one that is not. */
  lemma RefsAreStringsExactly(v: Json)
    ensures RefsAreStrings(v) <==> forall tokens :: !IsBadRefAt(v, tokens)
  {
    if RefsAreStrings(v) {
      forall tokens ensures !IsBadRefAt(v, tokens) {
        WalkKeepsStrings(v, tokens);
      }
    } else {
      var tokens := BadRef(v);
    }
  }

  lemma {:induction false} WalkKeepsStrings(v: Json, tokens: seq<string>)
    requires RefsAreStrings(v)
    ensures Walk(v, tokens).Some? ==> RefsAreStrings(Walk(v, tokens).value)
    decreases |tokens|
  {
    if tokens != [] && Walk(v, tokens).Some? {
      match v
      case Obj(m) => WalkKeepsStrings(m[tokens[0]], tokens[1..]);
      case Arr(items) => WalkKeepsStrings(items[IndexValue(tokens[0])], tokens[1..]);
    }
  }

  lemma {:induction false} BadRef(v: Json) returns (tokens: seq<string>)
    requires !RefsAreStrings(v)
    ensures IsBadRefAt(v, tokens)
  {
    tokens := [];
    match v
    case Arr(items) =>
      var i :| 0 <= i < |items| && !RefsAreStrings(items[i]);
      var rest := BadRef(items[i]);
      WalkItem(items, i, rest);
      tokens := [Decimal(i)] + rest;
    case Obj(m) =>
      if REF !in m || m[REF].Str? {
        var k :| k in m && k != REF && !RefsAreStrings(m[k]);
        var rest := BadRef(m[k]);
        WalkOn(m, k, rest);
        tokens := [k] + rest;
      }
  }

  /** Every reference string inside `v` satisfies `p`. */
  predicate AllRefs(v: Json, p: string -> bool) {
    match v
    case Arr(items) => forall i | 0 <= i < |items| :: AllRefs(items[i], p)
    case Obj(m) => (IsReference(v) ==> p(m[REF].s)) && forall k | k in m :: AllRefs(m[k], p)
    case _ => true
  }

  /** `v` with every reference string replaced by its image under `f`, and nothing else changed. */
  function MapRefs(v: Json, f: string -> string): Json {
    match v
    case Arr(items) => Arr(seq(|items|, i requires 0 <= i < |items| => MapRefs(items[i], f)))
    case Obj(m) =>
      Obj(map k | k in m :: if k == REF && m[k].Str? then Str(f(m[k].s)) else MapRefs(m[k], f))
    case _ => v
  }

  function MapRefsOption(v: Option<Json>, f: string -> string): Option<Json> {
    match v case None => None case Some(j) => Some(MapRefs(j, f))
  }

  // ---- Meaning --------------------------------------------------------------------------------

  /** A value with its references followed. An external reference stands for itself. */
  datatype Meaning =
    | Cut
    | Dangling
    | External(ref: string)
    | Leaf(value: Json)
    | List(items: seq<Meaning>)
    | Record(fields: map<string, Meaning>)

  /** What a local reference of some document denotes. */
  type Resolver = string -> Option<Json>

  /** The meaning of `v`, with references followed `depth` levels deep. */
  function Expand(resolve: Resolver, v: Json, depth: nat): Meaning
    decreases depth, v, 1
  {
    if IsReference(v) then Follow(resolve, v, depth)
    else
      match v
      case Arr(items) => List(seq(|items|, i requires 0 <= i < |items| => Expand(resolve, items[i], depth)))
      case Obj(m) => Record(map k | k in m :: Expand(resolve, m[k], depth))
      case _ => Leaf(v)
  }

  function Follow(resolve: Resolver, v: Json, depth: nat): Meaning
    requires IsReference(v)
    decreases depth, v, 0
  {
    var ref := v.fields[REF].s;
    if !IsLocal(ref) then External(ref)
    else if depth == 0 then Cut
    else
      match resolve(ref)
      case None => Dangling
      case Some(target) => Expand(resolve, target, depth - 1)
  }

  /** Renaming references by `f` matches moving from the document behind `source` to the one behind
      `target`, for the references in `ok`. */
  ghost predicate Carries(source: Resolver, target: Resolver, f: string -> string, ok: string -> bool) {
    forall r :: ok(r) ==>
      && IsLocal(f(r)) == IsLocal(r)
      && (if IsLocal(r) then target(f(r)) == MapRefsOption(source(r), f) else f(r) == r)
  }

  /** What references in `ok` denote only holds references in `ok` again. */
  ghost predicate Closed(source: Resolver, ok: string -> bool) {
    forall r {:trigger source(r)} :: ok(r) && source(r).Some? ==>
      RefsAreStrings(source(r).value) && AllRefs(source(r).value, ok)
  }

  lemma {:induction false} ExpandMapped(source: Resolver, target: Resolver, f: string -> string, ok: string -> bool,
                                        v: Json, depth: nat)
    requires Carries(source, target, f, ok) && Closed(source, ok)
    requires RefsAreStrings(v) && AllRefs(v, ok)
    ensures Expand(target, MapRefs(v, f), depth) == Expand(source, v, depth)
    decreases depth, v, 1
  {
    match v
    case Arr(items) =>
      forall i | 0 <= i < |items|
        ensures Expand(target, MapRefs(items[i], f), depth) == Expand(source, items[i], depth)
      {
        ExpandMapped(source, target, f, ok, items[i], depth);
      }
      assert Expand(target, MapRefs(v, f), depth).items == Expand(source, v, depth).items;
    case Obj(m) =>
      if IsReference(v) {
        var r := m[REF].s;
        MapRefsReference(m, f);
        if IsLocal(r) && depth > 0 && source(r).Some? {
          ExpandMapped(source, target, f, ok, source(r).value, depth - 1);
        }
      } else {
        ExpandMappedFields(source, target, f, ok, m, depth);
        ExpandMappedRecord(source, target, f, m, depth);
      }
    case _ =>
  }

  lemma ExpandMappedFields(source: Resolver, target: Resolver, f: string -> string, ok: string -> bool,
                           m: map<string, Json>, depth: nat)
    requires Carries(source, target, f, ok) && Closed(source, ok)
    requires RefsAreStrings(Obj(m)) && AllRefs(Obj(m), ok) && !IsReference(Obj(m))
    ensures forall k | k in m :: Expand(target, MapRefs(m[k], f), depth) == Expand(source, m[k], depth)
    decreases depth, Obj(m), 0
  {
    RecordFields(m, ok);
    forall k | k in m
      ensures Expand(target, MapRefs(m[k], f), depth) == Expand(source, m[k], depth)
    {
      ExpandMapped(source, target, f, ok, m[k], depth);
    }
  }

  lemma RecordFields(m: map<string, Json>, ok: string -> bool)
    requires RefsAreStrings(Obj(m)) && AllRefs(Obj(m), ok)
    ensures forall k | k in m :: RefsAreStrings(m[k]) && AllRefs(m[k], ok)
  {}

  lemma ExpandMappedRecord(source: Resolver, target: Resolver, f: string -> string, m: map<string, Json>, depth: nat)
    requires !IsReference(Obj(m))
    requires forall k | k in m :: Expand(target, MapRefs(m[k], f), depth) == Expand(source, m[k], depth)
    ensures Expand(target, MapRefs(Obj(m), f), depth) == Expand(source, Obj(m), depth)
  {
    var mapped := MapRefsRecord(m, f);
    ExpandRecord(source, m, depth);
    ExpandRecord(target, mapped, depth);
  }

  lemma MapRefsRecord(m: map<string, Json>, f: string -> string) returns (mapped: map<string, Json>)
    requires !IsReference(Obj(m))
    ensures MapRefs(Obj(m), f) == Obj(mapped) && !IsReference(Obj(mapped))
    ensures mapped.Keys == m.Keys && forall k | k in m :: mapped[k] == MapRefs(m[k], f)
  {
    mapped := MapRefs(Obj(m), f).fields;
  }

  lemma ExpandRecord(resolve: Resolver, m: map<string, Json>, depth: nat)
    requires !IsReference(Obj(m))
    ensures Expand(resolve, Obj(m), depth).Record?
    ensures Expand(resolve, Obj(m), depth).fields == map k | k in m :: Expand(resolve, m[k], depth)
  {}

  lemma MapRefsReference(m: map<string, Json>, f: string -> string)
    ensures IsReference(MapRefs(Obj(m), f)) <==> IsReference(Obj(m))
    ensures IsReference(Obj(m)) ==> MapRefs(Obj(m), f).fields[REF].s == f(m[REF].s)
  {}

  /** A property of references that `f` maps onto another one holds throughout exactly when the other
      holds throughout the rewritten value. */
  lemma {:induction false} AllRefsMapped(v: Json, f: string -> string, ok: string -> bool, p: string -> bool,
                                         q: string -> bool)
    requires RefsAreStrings(v) && AllRefs(v, ok)
    requires forall r :: ok(r) ==> (q(f(r)) <==> p(r))
    ensures AllRefs(MapRefs(v, f), q) <==> AllRefs(v, p)
    decreases v
  {
    match v
    case Arr(items) =>
      var mapped := MapRefs(v, f).items;
      forall i | 0 <= i < |items| ensures AllRefs(mapped[i], q) <==> AllRefs(items[i], p) {
        AllRefsMapped(items[i], f, ok, p, q);
      }
    case Obj(m) =>
      var mapped := MapRefs(v, f).fields;
      MapRefsReference(m, f);
      forall k | k in m ensures AllRefs(mapped[k], q) <==> AllRefs(m[k], p) {
        if k != REF {
          AllRefsMapped(m[k], f, ok, p, q);
        }
      }
      assert mapped.Keys == m.Keys;
    case _ =>
  }

  /** Looking up a value below one with good references finds good references. */
  lemma {:induction false} WalkKeepsRefs(v: Json, tokens: seq<string>, ok: string -> bool)
    requires RefsAreStrings(v) && AllRefs(v, ok)
    ensures Walk(v, tokens).Some? ==>
              RefsAreStrings(Walk(v, tokens).value) && AllRefs(Walk(v, tokens).value, ok)
    decreases |tokens|
  {
    if tokens != [] && Walk(v, tokens).Some? {
      match v
      case Obj(m) => WalkKeepsRefs(m[tokens[0]], tokens[1..], ok);
      case Arr(items) => WalkKeepsRefs(items[IndexValue(tokens[0])], tokens[1..], ok);
    }
  }

  /** A rewriting of strings that can be undone gives a rewriting of values that can be undone. */
  lemma {:induction false} MapRefsRoundTrip(v: Json, f: string -> string, g: string -> string)
    requires forall r :: g(f(r)) == r
    ensures MapRefs(MapRefs(v, f), g) == v
    decreases v
  {
    match v
    case Arr(items) =>
      forall i | 0 <= i < |items| ensures MapRefs(MapRefs(items[i], f), g) == items[i] {
        MapRefsRoundTrip(items[i], f, g);
      }
      assert MapRefs(MapRefs(v, f), g).items == items;
    case Obj(m) =>
      var back := MapRefs(MapRefs(v, f), g).fields;
      forall k | k in m ensures back[k] == m[k] {
        if k == REF && m[k].Str? {
          assert g(f(m[k].s)) == m[k].s;
        } else {
          MapRefsRoundTrip(m[k], f, g);
          assert MapRefs(m[k], f).Str? <==> m[k].Str?;
        }
      }
      assert back == m;
    case _ =>
  }

  /** Nothing but references is rewritten. */
  lemma {:induction false} NoRefsNoChange(v: Json, f: string -> string)
    requires AllRefs(v, _ => false)
    ensures MapRefs(v, f) == v
    decreases v
  {
    match v
    case Arr(items) =>
      forall i | 0 <= i < |items| ensures MapRefs(items[i], f) == items[i] {
        NoRefsNoChange(items[i], f);
      }
      assert MapRefs(v, f).items == items;
    case Obj(m) =>
      forall k | k in m ensures MapRefs(v, f).fields[k] == m[k] {
        NoRefsNoChange(m[k], f);
      }
      assert MapRefs(v, f).fields == m;
    case _ =>
  }

  lemma {:induction false} MapRefsKeepsStrings(v: Json, f: string -> string)
    requires RefsAreStrings(v)
    ensures RefsAreStrings(MapRefs(v, f))
    decreases v
  {
    match v
    case Arr(items) =>
      forall i | 0 <= i < |items| ensures RefsAreStrings(MapRefs(items[i], f)) {
        MapRefsKeepsStrings(items[i], f);
      }
    case Obj(m) =>
      forall k | k in m && k != REF ensures RefsAreStrings(MapRefs(m[k], f)) {
        MapRefsKeepsStrings(m[k], f);
      }
    case _ =>
  }
}
