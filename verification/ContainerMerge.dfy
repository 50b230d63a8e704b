/** `MergePatchContainers`: the user's containers merged into the controller's, by name. */
module ContainerMerge {
  import opened Wrappers
  import opened Objects

  /** Strategic merge of a patch into a container, which may fail. */
  type Merger = (Container, Container) -> Result<Container>

  function Names(cs: seq<Container>): set<string> {
    set c | c in cs :: c.name
  }

  /** The last container of that name: later patches replace earlier ones. */
  function LastNamed(cs: seq<Container>, name: string): (c: Container)
    requires name in Names(cs)
    ensures c in cs && c.name == name
  {
    var last := cs[|cs| - 1];
    if last.name == name then last else LastNamed(cs[..|cs| - 1], name)
  }

  /** What becomes of `base[i]`: only the first container of a name is merged. */
  function Patched(base: seq<Container>, patches: seq<Container>, i: nat, merge: Merger): Result<Container>
    requires i < |base|
  {
    var name := base[i].name;
    if name in Names(patches) && name !in Names(base[..i])
    then merge(base[i], LastNamed(patches, name))
    else Ok(base[i])
  }

  /** One container for each patch of `todo` that names none of `base`; its content is the last patch of
      that name. */
  function Added(base: seq<Container>, patches: seq<Container>, todo: seq<Container>): seq<Container>
    requires Names(todo) <= Names(patches)
  {
    if todo == [] then []
    else
      var c := todo[|todo| - 1];
      var before := todo[..|todo| - 1];
      assert c in todo && forall d | d in before :: d in todo;
      Added(base, patches, before) +
      (if c.name in Names(base) then [] else [LastNamed(patches, c.name)])
  }

  /** The first `n` base containers, up to the first merge that fails. */
  function PatchedUpTo(base: seq<Container>, patches: seq<Container>, merge: Merger, n: nat): Result<seq<Container>>
    requires n <= |base|
  {
    if n == 0 then Ok([])
    else
      match PatchedUpTo(base, patches, merge, n - 1)
      case Err(e) => Err(e)
      case Ok(out) =>
        match Patched(base, patches, n - 1, merge)
        case Err(e) => Err(e)
        case Ok(c) => Ok(out + [c])
  }

  function MergeResult(base: seq<Container>, patches: seq<Container>, merge: Merger): Result<seq<Container>> {
    match PatchedUpTo(base, patches, merge, |base|)
    case Err(e) => Err(e)
    case Ok(out) => Ok(out + Added(base, patches, patches))
  }

  method MergePatchContainers(base: seq<Container>, patches: seq<Container>, merge: Merger)
    returns (r: Result<seq<Container>>)
    ensures r == MergeResult(base, patches, merge)
  {
    var byName := IndexByName(patches);
    var patched, left := PatchBase(base, patches, byName, merge);
    if patched.Err? {
      return patched;
    }
    var out := AppendLeft(base, patches, left, patched.value);
    r := Ok(out);
  }

  /** Lines 70-76. */
  method AppendLeft(ghost base: seq<Container>, patches: seq<Container>, left: map<string, Container>,
                    patched: seq<Container>)
    returns (out: seq<Container>)
    requires left.Keys == Names(patches) - Names(base)
    requires forall n | n in left :: left[n] == LastNamed(patches, n)
    ensures out == patched + Added(base, patches, patches)
  {
    out := patched;
    for i := 0 to |patches|
      invariant Names(patches[..i]) <= Names(patches)
      invariant out == patched + Added(base, patches, patches[..i])
    {
      NamesPrefix(patches, i);
      AddedStep(base, patches, i);
      if patches[i].name in left {
        out := out + [left[patches[i].name]];
      }
    }
    assert patches[..|patches|] == patches;
  }

  lemma AddedStep(base: seq<Container>, patches: seq<Container>, i: nat)
    requires i < |patches| && Names(patches[..i]) <= Names(patches) && Names(patches[..i + 1]) <= Names(patches)
    ensures Added(base, patches, patches[..i + 1]) ==
            Added(base, patches, patches[..i]) +
            (if patches[i].name in Names(base) then [] else [LastNamed(patches, patches[i].name)])
  {
    assert patches[..i + 1][..i] == patches[..i] && patches[..i + 1][i] == patches[i];
  }

  /** Lines 30-33. */
  method IndexByName(patches: seq<Container>) returns (byName: map<string, Container>)
    ensures byName.Keys == Names(patches)
    ensures forall n | n in byName :: byName[n] == LastNamed(patches, n)
  {
    byName := map[];
    for i := 0 to |patches|
      invariant byName.Keys == Names(patches[..i])
      invariant forall n | n in byName :: byName[n] == LastNamed(patches[..i], n)
    {
      NamesPrefix(patches, i);
      byName := byName[patches[i].name := patches[i]];
    }
    assert patches[..|patches|] == patches;
  }

  /** Lines 36-68: a name is looked up until its first container is merged, then struck off. */
  method PatchBase(base: seq<Container>, patches: seq<Container>, byName: map<string, Container>, merge: Merger)
    returns (r: Result<seq<Container>>, left: map<string, Container>)
    requires byName.Keys == Names(patches)
    requires forall n | n in byName :: byName[n] == LastNamed(patches, n)
    ensures r == PatchedUpTo(base, patches, merge, |base|)
    ensures r.Ok? ==> left == byName - Names(base)
  {
    var out: seq<Container> := [];
    left := byName;
    for i := 0 to |base|
      invariant PatchedUpTo(base, patches, merge, i) == Ok(out)
      invariant left == byName - Names(base[..i])
    {
      NamesPrefix(base, i);
      var container := base[i];
      if container.name !in left {
        out := out + [container];
      } else {
        var merged := merge(container, left[container.name]);
        assert merged == Patched(base, patches, i, merge);
        if merged.Err? {
          PatchedStops(base, patches, merge, i, |base|);
          return Err(merged.error), left;
        }
        out := out + [merged.value];
        left := left - {container.name};
      }
    }
    assert base[..|base|] == base;
    r := Ok(out);
  }

  lemma {:induction false} PatchedStops(base: seq<Container>, patches: seq<Container>, merge: Merger, i: nat, n: nat)
    requires i < n <= |base|
    requires PatchedUpTo(base, patches, merge, i).Ok? && Patched(base, patches, i, merge).Err?
    ensures PatchedUpTo(base, patches, merge, n) == Err(Patched(base, patches, i, merge).error)
    decreases n
  {
    if i + 1 < n {
      PatchedStops(base, patches, merge, i, n - 1);
    }
  }

  lemma NamesPrefix(cs: seq<Container>, i: nat)
    requires i < |cs|
    ensures Names(cs[..i + 1]) == Names(cs[..i]) + {cs[i].name} <= Names(cs)
    ensures forall n | n in Names(cs[..i]) && n != cs[i].name ::
              LastNamed(cs[..i + 1], n) == LastNamed(cs[..i], n)
  {
    assert cs[..i + 1] == cs[..i] + [cs[i]];
    assert forall c | c in cs[..i + 1] :: c in cs[..i] || c == cs[i];
    assert forall c | c in cs[..i] :: c in cs[..i + 1];
    assert cs[..i + 1][..i] == cs[..i];
  }

  // ---- Consequences ---------------------------------------------------------------------------

  /** The result of a successful merge, as one sequence. */
  ghost predicate IsMerge(base: seq<Container>, patches: seq<Container>, merge: Merger, out: seq<Container>) {
    |out| >= |base| && out[|base|..] == Added(base, patches, patches) &&
    forall i | 0 <= i < |base| :: Ok(out[i]) == Patched(base, patches, i, merge)
  }

  lemma {:induction false} PatchedElements(base: seq<Container>, patches: seq<Container>, merge: Merger, n: nat)
    requires n <= |base|
    ensures var r := PatchedUpTo(base, patches, merge, n);
            && (r.Err? <==> exists i | 0 <= i < n :: Patched(base, patches, i, merge).Err?)
            && (r.Ok? ==> |r.value| == n &&
                          forall i | 0 <= i < n :: Patched(base, patches, i, merge) == Ok(r.value[i]))
  {
    if n > 0 {
      PatchedElements(base, patches, merge, n - 1);
    }
  }

  /** The merge fails exactly when some merge it needs fails. Otherwise: the base containers in their
      order, the first of each patched name merged with the last patch of that name, then one container
      for each patch that names none of the base. */
  lemma MergeExactly(base: seq<Container>, patches: seq<Container>, merge: Merger)
    ensures MergeResult(base, patches, merge).Err? <==>
            exists i | 0 <= i < |base| :: Patched(base, patches, i, merge).Err?
    ensures MergeResult(base, patches, merge).Ok? ==>
              IsMerge(base, patches, merge, MergeResult(base, patches, merge).value)
  {
    PatchedElements(base, patches, merge, |base|);
  }

  ghost predicate KeepsName(merge: Merger) {
    forall c, p :: merge(c, p).Ok? && c.name == p.name ==> merge(c, p).value.name == c.name
  }

  lemma {:induction false} AddedAreNew(base: seq<Container>, patches: seq<Container>, todo: seq<Container>)
    requires Names(todo) <= Names(patches)
    ensures Names(Added(base, patches, todo)) == Names(todo) - Names(base)
    decreases |todo|
  {
    if todo != [] {
      var n := |todo| - 1;
      NamesPrefix(todo, n);
      assert todo[..n + 1] == todo;
      AddedAreNew(base, patches, todo[..n]);
      if todo[n].name !in Names(base) {
        NamesAppend(Added(base, patches, todo[..n]), LastNamed(patches, todo[n].name));
      } else {
        assert Added(base, patches, todo[..n]) + [] == Added(base, patches, todo[..n]);
      }
    }
  }

  lemma NamesAppend(cs: seq<Container>, c: Container)
    ensures Names(cs + [c]) == Names(cs) + {c.name}
  {
    NamesPrefix(cs + [c], |cs|);
    assert (cs + [c])[..|cs|] == cs && (cs + [c])[..|cs| + 1] == cs + [c];
  }

  /** No container is lost: the result has the names of the base and of the patches, no other. */
  lemma MergeNames(base: seq<Container>, patches: seq<Container>, merge: Merger, out: seq<Container>)
    requires IsMerge(base, patches, merge, out) && KeepsName(merge)
    ensures Names(out) == Names(base) + Names(patches)
  {
    AddedAreNew(base, patches, patches);
    assert out == out[..|base|] + out[|base|..];
    NamesConcat(out[..|base|], out[|base|..]);
    forall i | 0 <= i < |base| ensures out[i].name == base[i].name {
      assert Ok(out[i]) == Patched(base, patches, i, merge);
    }
    SameNames(out[..|base|], base);
  }

  lemma NamesConcat(a: seq<Container>, b: seq<Container>)
    ensures Names(a + b) == Names(a) + Names(b)
  {
    assert forall c | c in a + b :: c in a || c in b;
    assert forall c | c in a || c in b :: c in a + b;
  }

  lemma SameNames(a: seq<Container>, b: seq<Container>)
    requires |a| == |b| && forall i | 0 <= i < |a| :: a[i].name == b[i].name
    ensures Names(a) == Names(b)
  {
    forall n | n in Names(a) ensures n in Names(b) {
      var i :| 0 <= i < |a| && a[i].name == n;
      assert b[i] in b;
    }
    forall n | n in Names(b) ensures n in Names(a) {
      var i :| 0 <= i < |b| && b[i].name == n;
      assert a[i] in a;
    }
  }

  /** A base with one container keeps it first, and no other container gets its name. */
  lemma SingleBaseStaysFirst(c: Container, patches: seq<Container>, merge: Merger, out: seq<Container>)
    requires IsMerge([c], patches, merge, out) && KeepsName(merge)
    ensures |out| > 0 && out[0].name == c.name
    ensures forall i | 0 < i < |out| :: out[i].name != c.name
  {
    AddedAreNew([c], patches, patches);
    assert [c][0] in [c] && c.name in Names([c]);
    assert Ok(out[0]) == Patched([c], patches, 0, merge);
    forall i | 0 < i < |out| ensures out[i].name != c.name {
      assert out[i] == out[1..][i - 1] && out[1..][i - 1] in out[1..];
    }
  }

  /** The container is the one at `i`, and none after it has its name. */
  predicate IsLastAt(cs: seq<Container>, i: int, c: Container) {
    0 <= i < |cs| && cs[i] == c && forall j | i < j < |cs| :: cs[j].name != c.name
  }

  lemma {:induction false} LastNamedExactly(cs: seq<Container>, name: string) returns (i: int)
    requires name in Names(cs)
    ensures IsLastAt(cs, i, LastNamed(cs, name)) && LastNamed(cs, name).name == name
  {
    i := |cs| - 1;
    if cs[i].name != name {
      NamesPrefix(cs, i);
      assert cs[..i + 1] == cs;
      i := LastNamedExactly(cs[..i], name);
    }
  }

  /** The first base container of a name is merged with the last patch of that name; one without a patch, or behind
      another one of its name, stays as it is. */
  lemma PatchedExactly(base: seq<Container>, patches: seq<Container>, i: nat, merge: Merger)
    requires i < |base|
    ensures var stays := (exists j :: 0 <= j < i && base[j].name == base[i].name) ||
                         (forall p | p in patches :: p.name != base[i].name);
            && (stays ==> Patched(base, patches, i, merge) == Ok(base[i]))
            && (!stays ==>
                  exists last, c ::
                    IsLastAt(patches, last, c) && c.name == base[i].name &&
                    Patched(base, patches, i, merge) == merge(base[i], c))
  {
    var name := base[i].name;
    assert name in Names(base[..i]) <==> exists j :: 0 <= j < i && base[j].name == name by {
      if exists j :: 0 <= j < i && base[j].name == name {
        var j :| 0 <= j < i && base[j].name == name;
        assert base[..i][j] in base[..i];
      }
    }
    if name in Names(patches) {
      var last := LastNamedExactly(patches, name);
    }
  }

  /** Each patch outside the base stands behind as many added ones as there are such patches before it, with the
      content of the last patch of its name. */
  lemma AddedExactly(base: seq<Container>, patches: seq<Container>, todo: seq<Container>, i: nat)
    requires Names(todo) <= Names(patches) && i < |todo| && todo[i].name !in Names(base)
    ensures var added, at := Added(base, patches, todo), Count(todo[..i], Names(base));
            at < |added| && added[at].name == todo[i].name && exists last :: IsLastAt(patches, last, added[at])
  {
    AddedAt(base, patches, todo, i);
    assert todo[i] in todo;
    var last := LastNamedExactly(patches, todo[i].name);
  }

  lemma {:induction false} AddedAt(base: seq<Container>, patches: seq<Container>, todo: seq<Container>, i: nat)
    requires Names(todo) <= Names(patches) && i < |todo| && todo[i].name in Names(patches) - Names(base)
    ensures var added, at := Added(base, patches, todo), Count(todo[..i], Names(base));
            at < |added| && added[at] == LastNamed(patches, todo[i].name)
  {
    var n := |todo| - 1;
    NamesPrefix(todo, n);
    assert todo[..n + 1] == todo;
    if i < n {
      AddedAt(base, patches, todo[..n], i);
      assert todo[..n][..i] == todo[..i] && todo[..n][i] == todo[i];
      assert Added(base, patches, todo[..n]) <= Added(base, patches, todo);
    } else {
      AddedLength(base, patches, todo[..n]);
    }
  }

  /** One container is added for each patch, repetitions included, that names none of the base. */
  lemma {:induction false} AddedLength(base: seq<Container>, patches: seq<Container>, todo: seq<Container>)
    requires Names(todo) <= Names(patches)
    ensures |Added(base, patches, todo)| == Count(todo, Names(base))
  {
    if todo != [] {
      NamesPrefix(todo, |todo| - 1);
      assert todo[..|todo|] == todo;
      AddedLength(base, patches, todo[..|todo| - 1]);
    }
  }

  /** How many containers have a name outside `names`, repetitions included. */
  function Count(cs: seq<Container>, names: set<string>): nat {
    if cs == [] then 0
    else Count(cs[..|cs| - 1], names) + (if cs[|cs| - 1].name in names then 0 else 1)
  }
}
