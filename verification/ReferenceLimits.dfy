/** The limits of the reference rewriting: exactly which local references keep their target, for
    every document at once. */
module ReferenceLimits {
  import opened Wrappers
  import opened Text
  import opened JsonPointer
  import opened References
  import opened RefRewriting

  /** The reference keeps its (rewritten) target in every document the code can rewrite. */
  ghost predicate KeepsTarget(ref: string, name: string) {
    forall doc: map<string, Json> :: Rewritable(doc) ==> KeepsTargetIn(doc, ref, name)
  }

  predicate KeepsTargetIn(doc: map<string, Json>, ref: string, name: string)
    requires Rewritable(doc)
  {
    Resolve(Obj(Rewritten(doc, name)), PrefixRef(ref, name)) == MapRefsOption(Resolve(Obj(doc), ref), Prefixer(name))
  }

  // ---- The condition --------------------------------------------------------------------------

  /** The token that gets the prefix: the one after the last literal slash of the reference. An escaped
      slash, `%2F`, separates tokens too, but does not count. */
  function PrefixedAt(ref: string): Option<nat>
    requires IsLocal(ref)
  {
    var i := LastIndex(ref, "/");
    if i == -1 then None
    else
      match PercentDecode(ref[1..i])
      case None => None
      case Some(head) => Some(|Split(head)| - 1)
  }

  function PrefixToken(tokens: seq<string>, at: Option<nat>, name: string): seq<string> {
    if at.Some? && at.value < |tokens| then tokens[at.value := Qualified(name, tokens[at.value])] else tokens
  }

  /** The path leads into the schemas. */
  predicate HoldsSchema(t: seq<string>) {
    |t| > 2 && t[0] == COMPONENTS && t[1] == SCHEMAS
  }

  /** Some member on the way is `$ref`, so that no document has anything at the end. */
  predicate GoesThroughRef(t: seq<string>) {
    |t| > 0 && REF in t[..|t| - 1]
  }

  /** No rewritten document has anything at the path: it goes through a `$ref`, or to a schema without the
      prefix, or below a schema named `$ref`, which can only be a string. */
  predicate NeverRewritten(t: seq<string>, name: string) {
    || GoesThroughRef(t)
    || (HoldsSchema(t) && !HasPrefix(t[2], name + "."))
    || (HoldsSchema(t) && |t| > 3 && t[2] == Qualified(name, REF))
  }

  /** When a reference with these tokens keeps its target. One that no document resolves must not start to
      resolve. Any other one must not denote a reference string, and either the prefix goes to the name of
      a schema, at any depth below it; or there is no prefix, and the path does not meet the schemas. */
  predicate Survives(t: seq<string>, at: Option<nat>, name: string) {
    if GoesThroughRef(t) then NeverRewritten(PrefixToken(t, at, name), name)
    else
      && t != [] && t[|t| - 1] != REF
      && match at
         case Some(i) => HoldsSchema(t) && i == 2
         case None => !HoldsSchema(t) && t != [COMPONENTS] && t != [COMPONENTS, SCHEMAS]
  }

  /** A local reference survives the rewriting in every document if and only if it is no JSON Pointer at
      all, or meets the condition. References to responses, parameters or into a schema do not. */
  lemma KeepsTargetExactly(ref: string, name: string)
    requires IsLocal(ref) && IsObjectName(name)
    ensures KeepsTarget(ref, name) <==> Tokens(ref).None? || Survives(Tokens(ref).value, PrefixedAt(ref), name)
  {
    PrefixedTokens(ref, name);
    if Tokens(ref).Some? {
      var t, at := Tokens(ref).value, PrefixedAt(ref);
      if GoesThroughRef(t) {
        if NeverRewritten(PrefixToken(t, at, name), name) {
          UnresolvedKept(ref, t, name);
        } else {
          UnresolvedLost(ref, t, at, name);
        }
      } else if Survives(t, at, name) {
        ResolvedKept(ref, t, at, name);
      } else {
        ResolvedLost(ref, t, at, name);
      }
    }
  }

  // ---- Where the prefix goes ------------------------------------------------------------------

  /** The rewriting prefixes that token, and only that. */
  lemma PrefixedTokens(ref: string, name: string)
    requires IsLocal(ref) && IsObjectName(name)
    ensures Tokens(PrefixRef(ref, name)) ==
            match Tokens(ref)
            case None => None
            case Some(t) => Some(PrefixToken(t, PrefixedAt(ref), name))
    ensures Tokens(ref).Some? && PrefixedAt(ref).Some? ==> PrefixedAt(ref).value < |Tokens(ref).value|
    ensures Tokens(ref).Some? ==> (PrefixedAt(ref).Some? <==> LastIndex(ref, "/") != -1)
  {
    if LastIndex(ref, "/") != -1 {
      var i := LastIndex(ref, "/");
      AroundLastSlash(ref, name);
      SlashedTokens(ref[1..i], ref[i + 1..], name);
    }
  }

  lemma AroundLastSlash(ref: string, name: string)
    requires IsLocal(ref) && LastIndex(ref, "/") != -1
    ensures var i := LastIndex(ref, "/");
            && i > 0 && ref == "#" + ref[1..i] + "/" + ref[i + 1..]
            && PrefixRef(ref, name) == "#" + ref[1..i] + "/" + Qualified(name, ref[i + 1..])
  {
    var i := LastIndex(ref, "/");
    AfterLastSlash(ref);
    assert ref[..i] == "#" + ref[1..i];
    assert ref == ref[..i] + "/" + ref[i + 1..];
    assert ref[..i] + ("/" + name + ".") + ref[i + 1..] == ref[..i] + "/" + Qualified(name, ref[i + 1..]);
  }

  lemma SlashedTokens(head: string, tail: string, name: string)
    requires IsObjectName(name)
    ensures var t := Tokens("#" + head + "/" + tail);
            var at := match PercentDecode(head) case None => None case Some(h) => Some(|Split(h)| - 1);
            && Tokens("#" + head + "/" + Qualified(name, tail)) ==
               (match t case None => None case Some(tokens) => Some(PrefixToken(tokens, at, name)))
            && (t.Some? ==> at.Some? && at.value < |t.value|)
  {
    TokensAtSlash(head, tail);
    TokensAtSlash(head, Qualified(name, tail));
    DecodeQualified(name, tail);
    DecodedTokens("#" + head + "/" + tail, "#" + head + "/" + Qualified(name, tail), PercentDecode(head),
                  PercentDecode(tail), name);
  }

  lemma DecodedTokens(ref: string, prefixed: string, head: Option<string>, tail: Option<string>, name: string)
    requires IsObjectName(name)
    requires Tokens(ref) == match (head, tail) case (Some(h), Some(t)) => PointerTokens(h + "/" + t) case _ => None
    requires Tokens(prefixed) ==
             match (head, tail) case (Some(h), Some(t)) => PointerTokens(h + "/" + Qualified(name, t)) case _ => None
    ensures var at := match head case None => None case Some(h) => Some(|Split(h)| - 1);
            && Tokens(prefixed) ==
               (match Tokens(ref) case None => None case Some(tokens) => Some(PrefixToken(tokens, at, name)))
            && (Tokens(ref).Some? ==> at.Some? && at.value < |Tokens(ref).value|)
  {
    if head.Some? && tail.Some? {
      PointerAtSlash(head.value, tail.value, name);
    }
  }

  lemma DecodeQualified(name: string, tail: string)
    requires IsObjectName(name)
    ensures PercentDecode(Qualified(name, tail)) ==
            match PercentDecode(tail) case None => None case Some(t) => Some(Qualified(name, t))
  {
    PercentDecodePlain(name + ".", tail);
    assert (name + ".") + tail == Qualified(name, tail);
    if PercentDecode(tail).Some? {
      assert (name + ".") + PercentDecode(tail).value == Qualified(name, PercentDecode(tail).value);
    }
  }

  lemma TokensAtSlash(head: string, tail: string)
    ensures Tokens("#" + head + "/" + tail) ==
            match (PercentDecode(head), PercentDecode(tail))
            case (Some(h), Some(t)) => PointerTokens(h + "/" + t)
            case _ => None
  {
    LocalTokens(head + "/" + tail);
    assert "#" + head + "/" + tail == "#" + (head + "/" + tail);
    DecodeAtSlash(head, tail);
  }

  lemma LocalTokens(fragment: string)
    ensures Tokens("#" + fragment) ==
            match PercentDecode(fragment) case None => None case Some(pointer) => PointerTokens(pointer)
  {
    var ref := "#" + fragment;
    assert ref[0] == '#' && ref[1..] == fragment;
  }

  /** A literal slash is no part of an escape. */
  lemma {:induction false} DecodeAtSlash(head: string, tail: string)
    ensures PercentDecode(head + "/" + tail) ==
            match (PercentDecode(head), PercentDecode(tail))
            case (Some(h), Some(t)) => Some(h + "/" + t)
            case _ => None
  {
    var s := head + "/" + tail;
    if head == "" {
      assert s == "/" + tail && s[1..] == tail;
    } else if head[0] != '%' {
      assert s[1..] == head[1..] + "/" + tail;
      DecodeAtSlash(head[1..], tail);
      JoinedAtSlash([head[0]], PercentDecode(head[1..]), PercentDecode(tail));
    } else if |head| >= 3 {
      assert s[3..] == head[3..] + "/" + tail && s[1] == head[1] && s[2] == head[2];
      DecodeAtSlash(head[3..], tail);
      if HexDigit(head[1]).Some? && HexDigit(head[2]).Some? {
        var c := (16 * HexDigit(head[1]).value + HexDigit(head[2]).value) as char;
        JoinedAtSlash([c], PercentDecode(head[3..]), PercentDecode(tail));
      }
    } else {
      BrokenEscape(head, tail);
    }
  }

  lemma JoinedAtSlash(c: string, h: Option<string>, t: Option<string>)
    ensures h.Some? && t.Some? ==> c + (h.value + "/" + t.value) == (c + h.value) + "/" + t.value
  {}

  lemma BrokenEscape(head: string, tail: string)
    requires 0 < |head| < 3 && head[0] == '%'
    ensures PercentDecode(head) == None == PercentDecode(head + "/" + tail)
  {
    var s := head + "/" + tail;
    assert s[0] == '%' && s[|head|] == '/';
    assert HexDigit('/') == None;
  }

  lemma PointerAtSlash(head: string, tail: string, name: string)
    requires IsObjectName(name)
    ensures var t := PointerTokens(head + "/" + tail);
            && PointerTokens(head + "/" + Qualified(name, tail)) ==
               (match t case None => None case Some(tokens) => Some(PrefixToken(tokens, Some(|Split(head)| - 1), name)))
            && (t.Some? ==> |Split(head)| - 1 < |t.value|)
  {
    if head == "" {
      assert head + "/" + tail == "/" + tail && head + "/" + Qualified(name, tail) == "/" + Qualified(name, tail);
      SplitQualified(tail, name);
      UnescapedAtSlash(tail, Qualified(name, tail), 0, name);
    } else if head[0] == '/' {
      var rest := head[1..];
      assert head + "/" + tail == "/" + (rest + "/" + tail);
      assert head + "/" + Qualified(name, tail) == "/" + (rest + "/" + Qualified(name, tail));
      assert head == "/" + rest;
      SplitAtSlash(rest, tail, name);
      UnescapedAtSlash(rest + "/" + tail, rest + "/" + Qualified(name, tail), |Split(rest)|, name);
    }
  }

  lemma UnescapedAtSlash(s: string, q: string, i: nat, name: string)
    requires IsObjectName(name) && i < |Split(s)| && Split(q) == Split(s)[i := Qualified(name, Split(s)[i])]
    ensures PointerTokens("/" + q) ==
            match PointerTokens("/" + s) case None => None case Some(t) => Some(PrefixToken(t, Some(i), name))
    ensures PointerTokens("/" + s).Some? ==> i < |PointerTokens("/" + s).value|
  {
    assert ("/" + s)[1..] == s && ("/" + q)[1..] == q;
    UnescapeAllAt(Split(s), i, name);
  }

  lemma SplitQualified(s: string, name: string)
    requires IsObjectName(name)
    ensures Split(Qualified(name, s)) == Split(s)[0 := Qualified(name, Split(s)[0])]
  {
    SplitPlain(name + ".", s);
    assert (name + ".") + Split(s)[0] == Qualified(name, Split(s)[0]);
    assert (name + ".") + s == Qualified(name, s);
  }

  lemma SplitAtSlash(a: string, b: string, name: string)
    requires IsObjectName(name)
    ensures var s, i := Split(a + "/" + b), |Split(a)|;
            i < |s| && Split(a + "/" + Qualified(name, b)) == s[i := Qualified(name, s[i])]
  {
    SplitConcat(a, b);
    SplitConcat(a, Qualified(name, b));
    SplitQualified(b, name);
  }

  lemma {:induction false} SplitConcat(a: string, b: string)
    ensures Split(a + "/" + b) == Split(a) + Split(b)
  {
    var s := a + "/" + b;
    if a == "" {
      assert s[1..] == b;
    } else {
      assert s[1..] == a[1..] + "/" + b;
      SplitConcat(a[1..], b);
    }
  }

  lemma {:induction false} SplitPlain(a: string, b: string)
    requires '/' !in a
    ensures Split(a + b) == [a + Split(b)[0]] + Split(b)[1..]
  {
    if a == "" {
      assert a + b == b && a + Split(b)[0] == Split(b)[0];
    } else {
      assert (a + b)[1..] == a[1..] + b;
      SplitPlain(a[1..], b);
      assert [a[0]] + (a[1..] + Split(b)[0]) == a + Split(b)[0];
    }
  }

  lemma {:induction false} UnescapeAllAt(ts: seq<string>, i: nat, name: string)
    requires IsObjectName(name) && i < |ts|
    ensures UnescapeAll(ts[i := Qualified(name, ts[i])]) ==
            match UnescapeAll(ts) case None => None case Some(us) => Some(PrefixToken(us, Some(i), name))
    ensures UnescapeAll(ts).Some? ==> |UnescapeAll(ts).value| == |ts|
    decreases |ts|
  {
    var q := ts[i := Qualified(name, ts[i])];
    UnescapeAllLength(ts);
    if i == 0 {
      UnescapePlain(name + ".", ts[0]);
      assert q[1..] == ts[1..] && (name + ".") + ts[0] == q[0];
      if UnescapeAll(ts).Some? {
        var u, us := Unescape(ts[0]).value, UnescapeAll(ts[1..]).value;
        assert (name + ".") + u == Qualified(name, u);
        assert ([u] + us)[0 := Qualified(name, u)] == [Qualified(name, u)] + us;
      }
    } else {
      assert q[1..] == ts[1..][i - 1 := Qualified(name, ts[1..][i - 1])];
      UnescapeAllAt(ts[1..], i - 1, name);
      if UnescapeAll(ts).Some? {
        var u, us := Unescape(ts[0]).value, UnescapeAll(ts[1..]).value;
        assert q[0] == ts[0] && ([u] + us)[i] == us[i - 1];
        assert ([u] + us)[i := Qualified(name, us[i - 1])] == [u] + us[i - 1 := Qualified(name, us[i - 1])];
      }
    }
  }

  lemma {:induction false} UnescapeAllLength(ts: seq<string>)
    ensures UnescapeAll(ts).Some? ==> |UnescapeAll(ts).value| == |ts|
  {
    if ts != [] {
      UnescapeAllLength(ts[1..]);
    }
  }

  // ---- Surviving references -------------------------------------------------------------------

  /** References that no document resolves, before or after. */
  lemma UnresolvedKept(ref: string, t: seq<string>, name: string)
    requires IsLocal(ref) && IsObjectName(name) && Tokens(ref) == Some(t) && GoesThroughRef(t)
    requires NeverRewritten(PrefixToken(t, PrefixedAt(ref), name), name)
    ensures KeepsTarget(ref, name)
  {
    PrefixedTokens(ref, name);
    forall doc: map<string, Json> | Rewritable(doc) ensures KeepsTargetIn(doc, ref, name) {
      NoWalkThroughRef(Obj(doc), t);
      NothingRewritten(doc, Prefixer(name), PrefixToken(t, PrefixedAt(ref), name), name);
    }
  }

  lemma NothingRewritten(doc: map<string, Json>, f: string -> string, t: seq<string>, name: string)
    requires Rewritable(doc) && NeverRewritten(t, name)
    ensures Walk(Obj(RewrittenBy(doc, f, name)), t).None?
  {
    var rewritten := RewrittenBy(doc, f, name);
    if GoesThroughRef(t) {
      RewrittenRefsAreStrings(doc, f, name);
      NoWalkThroughRef(Obj(rewritten), t);
    } else {
      RewrittenSchemas(doc, f, name);
      SchemaLookup(rewritten, t[2]);
      WalkBelowSchema(Obj(rewritten), t);
      if t[2] in SchemasOf(rewritten) {
        var k :| k in MappedSchemas(doc, f) && t[2] == Qualified(name, k);
        assert t[2][..|name + "."|] == name + ".";
        QualifiedSuffixes(name);
        assert k == REF;
        RefSchemaIsString(doc, f);
      }
    }
  }

  /** A schema named `$ref` is a string. */
  lemma RefSchemaIsString(doc: map<string, Json>, f: string -> string)
    requires Rewritable(doc) && REF in MappedSchemas(doc, f)
    ensures MappedSchemas(doc, f)[REF].Str?
  {
    MapRefsKeepsStrings(Obj(doc), f);
    var mapped := MapRefs(Obj(doc), f).fields;
    MapRefsShape(doc, f);
    assert COMPONENTS != REF && SCHEMAS != REF;
    assert RefsAreStrings(mapped[COMPONENTS]);
    assert RefsAreStrings(mapped[COMPONENTS].fields[SCHEMAS]);
  }

  lemma WalkBelowSchema(doc: Json, t: seq<string>)
    requires HoldsSchema(t)
    ensures Walk(doc, t) == match Schema(doc, t[2]) case None => None case Some(v) => Walk(v, t[3..])
  {
    assert t == [COMPONENTS, SCHEMAS, t[2]] + t[3..];
    WalkConcat(doc, [COMPONENTS, SCHEMAS, t[2]], t[3..]);
  }

  lemma {:induction false} WalkConcat(v: Json, a: seq<string>, b: seq<string>)
    ensures Walk(v, a + b) == match Walk(v, a) case None => None case Some(u) => Walk(u, b)
    decreases |a|
  {
    if a == [] {
      assert a + b == b;
    } else {
      assert (a + b)[1..] == a[1..] + b && (a + b)[0] == a[0];
      match v
      case Obj(m) => if a[0] in m { WalkConcat(m[a[0]], a[1..], b); }
      case Arr(items) =>
        if IsIndex(a[0]) && IndexValue(a[0]) < |items| { WalkConcat(items[IndexValue(a[0])], a[1..], b); }
      case _ =>
    }
  }

  /** Off the `$ref` members, mapping references and looking up commute. */
  lemma {:induction false} WalkMapped(v: Json, t: seq<string>, f: string -> string)
    requires REF !in t
    ensures Walk(MapRefs(v, f), t) == MapRefsOption(Walk(v, t), f)
    decreases |t|
  {
    if t != [] {
      match v
      case Obj(m) =>
        if t[0] in m {
          WalkMapped(m[t[0]], t[1..], f);
        }
      case Arr(items) =>
        if IsIndex(t[0]) && IndexValue(t[0]) < |items| {
          WalkMapped(items[IndexValue(t[0])], t[1..], f);
        }
      case _ =>
    }
  }

  lemma ResolvedKept(ref: string, t: seq<string>, at: Option<nat>, name: string)
    requires IsLocal(ref) && IsObjectName(name) && Tokens(ref) == Some(t) && at == PrefixedAt(ref)
    requires !GoesThroughRef(t) && Survives(t, at, name)
    ensures KeepsTarget(ref, name)
  {
    PrefixedTokens(ref, name);
    assert t == t[..|t| - 1] + [t[|t| - 1]];
    assert REF !in t;
    forall doc: map<string, Json> | Rewritable(doc) ensures KeepsTargetIn(doc, ref, name) {
      if at.Some? {
        SchemaPathKept(doc, Prefixer(name), t, name);
      } else {
        OtherPathKept(doc, Prefixer(name), t, name);
      }
    }
  }

  lemma SchemaPathKept(doc: map<string, Json>, f: string -> string, t: seq<string>, name: string)
    requires Rewritable(doc) && HoldsSchema(t) && REF !in t
    ensures Walk(Obj(RewrittenBy(doc, f, name)), PrefixToken(t, Some(2), name)) == MapRefsOption(Walk(Obj(doc), t), f)
  {
    var u := PrefixToken(t, Some(2), name);
    assert u[3..] == t[3..] && t[2] in t;
    WalkBelowSchema(Obj(doc), t);
    WalkBelowSchema(Obj(RewrittenBy(doc, f, name)), u);
    RewrittenHoldsSchemas(doc, f, name);
    if Schema(Obj(doc), t[2]).Some? {
      WalkMapped(Schema(Obj(doc), t[2]).value, t[3..], f);
    }
  }

  lemma OtherPathKept(doc: map<string, Json>, f: string -> string, t: seq<string>, name: string)
    requires Rewritable(doc) && t != [] && REF !in t
    requires !HoldsSchema(t) && t != [COMPONENTS] && t != [COMPONENTS, SCHEMAS]
    ensures Walk(Obj(RewrittenBy(doc, f, name)), t) == MapRefsOption(Walk(Obj(doc), t), f)
  {
    WalkMapped(Obj(doc), t, f);
    MapRefsShape(doc, f);
    RenamedElsewhere(MapRefs(Obj(doc), f).fields, t, name);
  }

  /** The renaming is not seen from paths that do not meet the schemas. */
  lemma RenamedElsewhere(doc: map<string, Json>, t: seq<string>, name: string)
    requires HasSchemaShape(doc) && t != []
    requires !HoldsSchema(t) && t != [COMPONENTS] && t != [COMPONENTS, SCHEMAS]
    ensures Walk(Obj(RenameSchemas(doc, name)), t) == Walk(Obj(doc), t)
  {
    if t[0] == COMPONENTS && COMPONENTS in doc {
      assert t == [COMPONENTS] + t[1..];
      assert |t| > 1;
      assert |t| == 2 ==> t == [COMPONENTS, t[1]];
      assert t[1..][0] == t[1] != SCHEMAS;
    }
  }

  lemma {:induction false} NoWalkThroughRef(v: Json, t: seq<string>)
    requires GoesThroughRef(t) && RefsAreStrings(v)
    ensures Walk(v, t).None?
    decreases |t|
  {
    match v
    case Obj(m) =>
      if t[0] in m && t[0] != REF {
        assert t[..|t| - 1] == [t[0]] + t[1..][..|t[1..]| - 1];
        NoWalkThroughRef(m[t[0]], t[1..]);
      }
    case Arr(items) =>
      if IsIndex(t[0]) && IndexValue(t[0]) < |items| {
        assert t[..|t| - 1] == [t[0]] + t[1..][..|t[1..]| - 1];
        NoWalkThroughRef(items[IndexValue(t[0])], t[1..]);
      }
    case _ =>
  }

  lemma RenamedRefsAreStrings(m: map<string, Json>, name: string)
    requires RefsAreStrings(Obj(m))
    ensures RefsAreStrings(Obj(RenameKeys(m, name)))
  {
    var r := RenameKeys(m, name);
    forall q | q in r ensures q != REF && RefsAreStrings(r[q]) {
      var k :| k in m && q == Qualified(name, k);
      QualifiedIsNotRef(name, k);
    }
  }

  lemma RewrittenRefsAreStrings(doc: map<string, Json>, f: string -> string, name: string)
    requires Rewritable(doc)
    ensures RefsAreStrings(Obj(RewrittenBy(doc, f, name)))
  {
    MapRefsKeepsStrings(Obj(doc), f);
    MapRefsShape(doc, f);
    var mapped := MapRefs(Obj(doc), f).fields;
    if COMPONENTS in mapped && SCHEMAS in mapped[COMPONENTS].fields {
      var components := mapped[COMPONENTS].fields;
      assert RefsAreStrings(Obj(components)) && RefsAreStrings(components[SCHEMAS]);
      RenamedRefsAreStrings(components[SCHEMAS].fields, name);
      assert RefsAreStrings(Obj(components[SCHEMAS := Obj(RenameKeys(components[SCHEMAS].fields, name))]));
    }
  }

  // ---- Lost references ------------------------------------------------------------------------

  /** The smallest document in which `tokens` leads to `leaf`. */
  function Nest(tokens: seq<string>, leaf: Json): Json {
    if tokens == [] then leaf else Obj(map[tokens[0] := Nest(tokens[1..], leaf)])
  }

  lemma {:induction false} WalkNest(tokens: seq<string>, leaf: Json, path: seq<string>)
    requires |path| == |tokens|
    ensures Walk(Nest(tokens, leaf), path) == if path == tokens then Some(leaf) else None
    decreases |tokens|
  {
    if tokens != [] {
      WalkNest(tokens[1..], leaf, path[1..]);
      assert tokens == [tokens[0]] + tokens[1..] && path == [path[0]] + path[1..];
    }
  }

  /** A leaf that keeps `Nest` rewritable: below `$ref` only a string may stand. */
  function NestLeaf(tokens: seq<string>, ref: string): Json
    requires |tokens| > 0
  {
    if tokens[|tokens| - 1] == REF then Str(ref) else Obj(map[])
  }

  lemma {:induction false} MappedNest(tokens: seq<string>, ref: string, f: string -> string)
    requires |tokens| > 0 && REF !in tokens[..|tokens| - 1]
    ensures RefsAreStrings(Nest(tokens, NestLeaf(tokens, ref)))
    ensures MapRefs(Nest(tokens, NestLeaf(tokens, ref)), f) == Nest(tokens, NestLeaf(tokens, f(ref)))
    decreases |tokens|
  {
    var rest := tokens[1..];
    NestStep(tokens, NestLeaf(tokens, ref));
    NestStep(tokens, NestLeaf(tokens, f(ref)));
    MapRefsOne(tokens[0], Nest(rest, NestLeaf(tokens, ref)), f);
    if |tokens| == 1 {
      assert rest == [];
    } else {
      assert tokens[0] in tokens[..|tokens| - 1];
      assert tokens[..|tokens| - 1] == [tokens[0]] + rest[..|rest| - 1];
      MappedNest(rest, ref, f);
    }
  }

  lemma NestStep(tokens: seq<string>, leaf: Json)
    requires |tokens| > 0
    ensures Nest(tokens, leaf) == Obj(map[tokens[0] := Nest(tokens[1..], leaf)])
  {}

  lemma MapRefsOne(key: string, v: Json, f: string -> string)
    ensures MapRefs(Obj(map[key := v]), f) ==
            Obj(map[key := if key == REF && v.Str? then Str(f(v.s)) else MapRefs(v, f)])
    ensures RefsAreStrings(Obj(map[key := v])) <==> if key == REF then v.Str? else RefsAreStrings(v)
  {
    assert MapRefs(Obj(map[key := v]), f).fields.Keys == {key};
    assert key in map[key := v];
  }

  lemma NestSchemaShape(t: seq<string>, ref: string)
    requires |t| > 0
    ensures HasSchemaShape(Nest(t, NestLeaf(t, ref)).fields)
    ensures !HoldsSchema(t) ==> SchemasOf(Nest(t, NestLeaf(t, ref)).fields) == map[]
  {
    var leaf := NestLeaf(t, ref);
    NestStep(t, leaf);
    if t[0] == COMPONENTS {
      assert COMPONENTS != REF && SCHEMAS != REF;
      if |t| == 1 {
        assert t[1..] == [];
      } else {
        assert t[1..][0] == t[1] && t[1..][1..] == t[2..];
        NestStep(t[1..], leaf);
        if |t| == 2 {
          assert t[2..] == [];
        } else {
          NestStep(t[2..], leaf);
        }
      }
    }
  }

  /** References that some document resolves. */
  lemma ResolvedLost(ref: string, t: seq<string>, at: Option<nat>, name: string)
    requires IsLocal(ref) && IsObjectName(name) && Tokens(ref) == Some(t) && at == PrefixedAt(ref)
    requires !GoesThroughRef(t) && !Survives(t, at, name)
    ensures !KeepsTarget(ref, name)
  {
    PrefixedTokens(ref, name);
    var u := PrefixToken(t, at, name);
    PrefixedDiffers(t, at, name);
    if t == [] || (u == t && (t == [COMPONENTS] || t == [COMPONENTS, SCHEMAS])) {
      AroundSchemasLost(ref, t, name);
    } else {
      PrefixChangesProbe(name);
      NestLost(t, u, PROBE, Prefixer(name), name);
      assert !KeepsTargetIn(Nest(t, NestLeaf(t, PROBE)).fields, ref, name);
    }
  }

  /** The prefix goes where the schema on the path has been renamed exactly when it goes to its name. */
  lemma PrefixedDiffers(t: seq<string>, at: Option<nat>, name: string)
    requires at.Some? ==> at.value < |t|
    ensures at.Some? ==> PrefixToken(t, at, name) != t
    ensures PrefixToken(t, at, name) == Renamed(t, name) <==>
            match at case Some(i) => HoldsSchema(t) && i == 2 case None => !HoldsSchema(t)
  {
    QualifiedSuffixes(name);
    if at.Some? {
      assert PrefixToken(t, at, name)[at.value] != t[at.value];
    }
    if HoldsSchema(t) {
      assert Renamed(t, name)[2] != t[2];
    }
  }

  /** A reference that the rewriting changes. */
  const PROBE := "#" + "/" + "a"

  lemma PrefixChangesProbe(name: string)
    ensures Prefixer(name)(PROBE) != PROBE
  {
    LastSlash("#", "a");
  }

  /** The tokens lead to the leaf of `Nest`; the prefixed tokens lead nowhere in the rewritten `Nest`,
      or to a string that has been rewritten. */
  lemma NestLost(t: seq<string>, u: seq<string>, ref: string, f: string -> string, name: string)
    requires |t| > 0 && !GoesThroughRef(t) && f(ref) != ref && |u| == |t|
    requires u == Renamed(t, name) ==> t[|t| - 1] == REF
    ensures Rewritable(Nest(t, NestLeaf(t, ref)).fields)
    ensures Walk(Obj(RewrittenBy(Nest(t, NestLeaf(t, ref)).fields, f, name)), u) !=
            MapRefsOption(Walk(Nest(t, NestLeaf(t, ref)), t), f)
  {
    RewrittenNest(t, ref, f, name);
    WalkNest(t, NestLeaf(t, ref), t);
    WalkNest(Renamed(t, name), NestLeaf(t, f(ref)), u);
  }

  /** The path of the leaf once the schema on it is renamed. */
  function Renamed(t: seq<string>, name: string): seq<string> {
    if HoldsSchema(t) then t[2 := Qualified(name, t[2])] else t
  }

  lemma RewrittenNest(t: seq<string>, ref: string, f: string -> string, name: string)
    requires |t| > 0 && REF !in t[..|t| - 1]
    ensures Rewritable(Nest(t, NestLeaf(t, ref)).fields)
    ensures Obj(RewrittenBy(Nest(t, NestLeaf(t, ref)).fields, f, name)) ==
            Nest(Renamed(t, name), NestLeaf(t, f(ref)))
  {
    MappedNest(t, ref, f);
    NestSchemaShape(t, ref);
    NestSchemaShape(t, f(ref));
    RenamedNest(t, NestLeaf(t, f(ref)), name);
  }

  lemma RenamedNest(t: seq<string>, leaf: Json, name: string)
    requires |t| > 0 && HasSchemaShape(Nest(t, leaf).fields)
    requires !HoldsSchema(t) ==> SchemasOf(Nest(t, leaf).fields) == map[]
    ensures Obj(RenameSchemas(Nest(t, leaf).fields, name)) == Nest(Renamed(t, name), leaf)
  {
    if HoldsSchema(t) {
      var u := Renamed(t, name);
      NestSchemas(t, leaf);
      NestSchemas(u, leaf);
      assert t[3..] == u[3..];
      RenameOne(t[2], Nest(t[3..], leaf), name);
    } else {
      NothingToRename(Nest(t, leaf).fields, name);
    }
  }

  lemma NothingToRename(doc: map<string, Json>, name: string)
    requires HasSchemaShape(doc) && SchemasOf(doc) == map[]
    ensures RenameSchemas(doc, name) == doc
  {
    assert RenameKeys<Json>(map[], name) == map[];
    if COMPONENTS in doc && SCHEMAS in doc[COMPONENTS].fields {
      var components := doc[COMPONENTS].fields;
      assert components[SCHEMAS := Obj(map[])] == components;
    }
  }

  lemma RenameOne(key: string, v: Json, name: string)
    ensures RenameSchemas(map[COMPONENTS := Obj(map[SCHEMAS := Obj(map[key := v])])], name) ==
            map[COMPONENTS := Obj(map[SCHEMAS := Obj(map[Qualified(name, key) := v])])]
  {
    var r := RenameKeys(map[key := v], name);
    assert key in map[key := v];
    assert r.Keys == {Qualified(name, key)};
    assert r == map[Qualified(name, key) := v];
    assert map[SCHEMAS := Obj(map[key := v])][SCHEMAS := Obj(r)] == map[SCHEMAS := Obj(r)];
  }

  lemma NestSchemas(t: seq<string>, leaf: Json)
    requires HoldsSchema(t)
    ensures Nest(t, leaf) ==
            Obj(map[COMPONENTS := Obj(map[SCHEMAS := Obj(map[t[2] := Nest(t[3..], leaf)])])])
  {
    assert t[1..][0] == SCHEMAS && t[1..][1..] == t[2..] && t[2..][0] == t[2] && t[2..][1..] == t[3..];
    NestStep(t, leaf);
    NestStep(t[1..], leaf);
    NestStep(t[2..], leaf);
  }

  /** The values around the schemas are not those of before. */
  lemma AroundSchemasLost(ref: string, t: seq<string>, name: string)
    requires Tokens(ref) == Some(t) == Tokens(PrefixRef(ref, name))
    requires t == [] || t == [COMPONENTS] || t == [COMPONENTS, SCHEMAS]
    ensures !KeepsTarget(ref, name)
  {
    var full := [COMPONENTS, SCHEMAS, "x"];
    assert full == t + full[|t|..] && full[..2] == [COMPONENTS, SCHEMAS];
    SchemaMoved(t, full[|t|..], Prefixer(name), name);
    assert !KeepsTargetIn(Nest(full, Obj(map[])).fields, ref, name);
  }

  lemma SchemaMoved(t: seq<string>, rest: seq<string>, f: string -> string, name: string)
    requires |t + rest| == 3 && HoldsSchema(t + rest) && (t + rest)[2] == "x" && REF !in (t + rest)[..2]
    ensures Rewritable(Nest(t + rest, Obj(map[])).fields)
    ensures Walk(Obj(RewrittenBy(Nest(t + rest, Obj(map[])).fields, f, name)), t) !=
            MapRefsOption(Walk(Nest(t + rest, Obj(map[])), t), f)
  {
    var full := t + rest;
    var before, after := Nest(full, Obj(map[])), Nest(Renamed(full, name), Obj(map[]));
    RewrittenNest(full, "", f, name);
    WalkNest(full, Obj(map[]), full);
    WalkNest(Renamed(full, name), Obj(map[]), full);
    QualifiedSuffixes(name);
    assert Renamed(full, name)[2] != full[2];
    WalkConcat(before, t, rest);
    WalkConcat(after, t, rest);
    assert forall token | token in rest :: token in full;
    assert full == full[..2] + [full[2]];
    WalkMapped(Walk(before, t).value, rest, f);
  }

  /** References that no document resolves, but some rewritten one does. */
  lemma UnresolvedLost(ref: string, t: seq<string>, at: Option<nat>, name: string)
    requires IsLocal(ref) && IsObjectName(name) && Tokens(ref) == Some(t) && at == PrefixedAt(ref)
    requires GoesThroughRef(t) && !NeverRewritten(PrefixToken(t, at, name), name)
    ensures !KeepsTarget(ref, name)
  {
    PrefixedTokens(ref, name);
    var u := PrefixToken(t, at, name);
    var s := Unrenamed(u, name);
    UnrenamedRenames(u, name);
    RewrittenNest(s, "", Prefixer(name), name);
    WalkNest(u, NestLeaf(s, Prefixer(name)("")), u);
    var doc := Nest(s, NestLeaf(s, "")).fields;
    NoWalkThroughRef(Obj(doc), t);
    assert !KeepsTargetIn(doc, ref, name);
  }

  /** The path that the renaming takes to `u`. */
  function Unrenamed(u: seq<string>, name: string): seq<string> {
    if HoldsSchema(u) && HasPrefix(u[2], name + ".") then u[2 := u[2][|name + "."|..]] else u
  }

  lemma UnrenamedRenames(u: seq<string>, name: string)
    requires |u| > 0 && !NeverRewritten(u, name)
    ensures var s := Unrenamed(u, name);
            |s| == |u| && Renamed(s, name) == u && REF !in s[..|s| - 1]
  {
    var s := Unrenamed(u, name);
    if HoldsSchema(u) {
      assert Qualified(name, s[2]) == u[2];
      assert Renamed(s, name) == u;
      assert forall i | 0 <= i < |s| - 1 :: i != 2 ==> s[i] == u[..|u| - 1][i];
    }
  }

  /** For example: no reference to another kind of component (`responses`, `parameters`, ...) survives
      in every document. */
  lemma OtherComponentsLost(kind: string, key: string, name: string)
    requires IsPlain(kind) && IsPlain(key) && kind != SCHEMAS && kind != REF && IsObjectName(name)
    ensures !KeepsTarget("#/" + COMPONENTS + "/" + kind + "/" + key, name)
  {
    var ref := "#/" + COMPONENTS + "/" + kind + "/" + key;
    Undecoded(key);
    UnescapedPlain(key);
    ThreeTokens(COMPONENTS, kind, key);
    var t := [COMPONENTS, kind, key];
    assert t[..2] == [COMPONENTS, kind] && COMPONENTS != REF;
    assert ref == ("#/" + COMPONENTS + "/" + kind) + "/" + key;
    LastSlash("#/" + COMPONENTS + "/" + kind, key);
    PrefixedTokens(ref, name);
    KeepsTargetExactly(ref, name);
  }

  /** An escaped slash is no place for the prefix: it goes to `schemas`, and the reference is lost. */
  lemma EscapedSlashLost(key: string, name: string)
    requires IsPlain(key) && key != REF && IsObjectName(name)
    ensures Tokens("#/" + COMPONENTS + "/" + (SCHEMAS + "%2F" + key)) == Some([COMPONENTS, SCHEMAS, key])
    ensures !KeepsTarget("#/" + COMPONENTS + "/" + (SCHEMAS + "%2F" + key), name)
  {
    EscapedThird(COMPONENTS, SCHEMAS, key);
    PrefixElsewhereLost("#/" + COMPONENTS + "/" + (SCHEMAS + "%2F" + key), [COMPONENTS, SCHEMAS, key], name);
  }

  /** A reference below a schema survives when its last literal slash is before the schema's name. */
  lemma EscapedSlashKept(key: string, member: string, name: string)
    requires IsPlain(key) && IsPlain(member) && key != REF && member != REF && IsObjectName(name)
    ensures Tokens("#/" + COMPONENTS + "/" + SCHEMAS + "/" + (key + "%2F" + member)) ==
            Some([COMPONENTS, SCHEMAS, key, member])
    ensures KeepsTarget("#/" + COMPONENTS + "/" + SCHEMAS + "/" + (key + "%2F" + member), name)
  {
    EscapedFourth(COMPONENTS, SCHEMAS, key, member);
    PrefixAtNameKept("#/" + COMPONENTS + "/" + SCHEMAS + "/" + (key + "%2F" + member),
                     [COMPONENTS, SCHEMAS, key, member], name);
  }

  lemma PrefixElsewhereLost(ref: string, t: seq<string>, name: string)
    requires IsLocal(ref) && IsObjectName(name) && Tokens(ref) == Some(t) && REF !in t
    requires PrefixedAt(ref).Some? && PrefixedAt(ref) != Some(2)
    ensures !KeepsTarget(ref, name)
  {
    KeepsTargetExactly(ref, name);
  }

  lemma PrefixAtNameKept(ref: string, t: seq<string>, name: string)
    requires IsLocal(ref) && IsObjectName(name) && Tokens(ref) == Some(t) && REF !in t
    requires PrefixedAt(ref) == Some(2) && HoldsSchema(t)
    ensures KeepsTarget(ref, name)
  {
    KeepsTargetExactly(ref, name);
  }

  lemma EscapedThird(a: string, b: string, key: string)
    requires IsPlain(a) && IsPlain(b) && IsPlain(key)
    ensures Tokens("#/" + a + "/" + (b + "%2F" + key)) == Some([a, b, key])
    ensures PrefixedAt("#/" + a + "/" + (b + "%2F" + key)) == Some(1)
  {
    var tail := b + "%2F" + key;
    EscapedSlash(b, key);
    assert "#/" + a + "/" + tail == "#" + ("/" + a) + "/" + tail;
    TwoParts("/" + a, tail);
    assert "/" + a + "/" + (b + "/" + key) == "/" + a + "/" + b + "/" + key;
    UnescapedPlain(key);
    PlainPointer(a, b, key);
    SplitTwo(a);
  }

  lemma SplitTwo(a: string)
    requires '/' !in a
    ensures |Split("/" + a)| == 2
  {
    SplitSegment(a);
    assert ("/" + a)[1..] == a;
  }

  lemma UnescapedPlain(s: string)
    requires '~' !in s
    ensures Unescape(s) == Some(s)
  {
    UnescapePlain(s, "");
    assert s + "" == s;
  }

  lemma EscapedFourth(a: string, b: string, key: string, member: string)
    requires IsPlain(a) && IsPlain(b) && IsPlain(key) && IsPlain(member)
    ensures Tokens("#/" + a + "/" + b + "/" + (key + "%2F" + member)) == Some([a, b, key, member])
    ensures PrefixedAt("#/" + a + "/" + b + "/" + (key + "%2F" + member)) == Some(2)
  {
    var head := "/" + a + "/" + b;
    EscapedSlash(key, member);
    TwoParts(head, key + "%2F" + member);
    assert "#/" + a + "/" + b + "/" + (key + "%2F" + member) == "#" + head + "/" + (key + "%2F" + member);
    FourTokens(a, b, key, member);
    SplitHead(a, b);
  }

  lemma SplitHead(a: string, b: string)
    requires '/' !in a && '/' !in b
    ensures |Split("/" + a + "/" + b)| == 3
  {
    assert ("/" + a + "/" + b)[1..] == a + "/" + b;
    SplitLast(a, b);
    SplitSegment(a);
  }

  lemma FourTokens(a: string, b: string, c: string, d: string)
    requires IsPlain(a) && IsPlain(b) && IsPlain(c) && IsPlain(d)
    ensures PointerTokens("/" + a + "/" + b + "/" + (c + "/" + d)) == Some([a, b, c, d])
  {
    var pointer := "/" + a + "/" + b + "/" + (c + "/" + d);
    assert pointer[1..] == (a + "/" + b + "/" + c) + "/" + d;
    SplitThree(a, b, c);
    SplitLast(a + "/" + b + "/" + c, d);
    assert [a, b, c] + [d] == [a, b, c, d];
    UnescapePlain(c, "");
    UnescapePlain(d, "");
    assert c + "" == c && d + "" == d;
    UnescapeThree(a, b, c);
    UnescapeAllLast([a, b, c], d);
  }

  lemma EscapedSlash(a: string, b: string)
    requires IsPlain(a) && IsPlain(b)
    ensures PercentDecode(a + "%2F" + b) == Some(a + "/" + b) && '/' !in a + "%2F" + b
  {
    LeadingEscape(b);
    PercentDecodePlain(a, "%2F" + b);
    assert a + "%2F" + b == a + ("%2F" + b);
    assert a + ("/" + b) == a + "/" + b;
  }

  lemma LeadingEscape(b: string)
    requires '%' !in b
    ensures PercentDecode("%2F" + b) == Some("/" + b)
  {
    var s := "%2F" + b;
    Undecoded(b);
    assert s[0] == '%' && s[1] == '2' && s[2] == 'F' && s[3..] == b;
    assert HexDigit('2') == Some(2) && HexDigit('F') == Some(15) && (47 as char) == '/';
  }

  /** The tokens of a reference, and where it gets the prefix, from the parts around its last slash. */
  lemma TwoParts(head: string, tail: string)
    requires '%' !in head && '/' !in tail
    ensures PrefixedAt("#" + head + "/" + tail) == Some(|Split(head)| - 1)
    ensures Tokens("#" + head + "/" + tail) ==
            match PercentDecode(tail) case None => None case Some(t) => PointerTokens(head + "/" + t)
  {
    PrefixedAtTail(head, tail);
    TailTokens(head, tail);
  }

  lemma Undecoded(s: string)
    requires '%' !in s
    ensures PercentDecode(s) == Some(s)
  {
    PercentDecodePlain(s, "");
    assert s + "" == s;
  }

  lemma PrefixedAtTail(head: string, tail: string)
    requires '%' !in head && '/' !in tail
    ensures PrefixedAt("#" + head + "/" + tail) == Some(|Split(head)| - 1)
  {
    Undecoded(head);
    LastPart(head, tail);
  }

  lemma TailTokens(head: string, tail: string)
    requires '%' !in head
    ensures Tokens("#" + head + "/" + tail) ==
            match PercentDecode(tail) case None => None case Some(t) => PointerTokens(head + "/" + t)
  {
    Undecoded(head);
    TokensAtSlash(head, tail);
  }

  lemma LastPart(head: string, tail: string)
    requires '/' !in tail
    ensures var ref := "#" + head + "/" + tail;
            LastIndex(ref, "/") == |head| + 1 && ref[1..|head| + 1] == head
  {
    var ref := "#" + head + "/" + tail;
    assert ref == ("#" + head) + "/" + tail;
    LastSlash("#" + head, tail);
    assert ref[1..|head| + 1] == head;
  }
}
