/** Go byte strings, one `char` a byte: substring search, and the order of `cmp.Compare`. */
module Text {

  /** `strings.HasPrefix`. */
  predicate HasPrefix(s: string, prefix: string) {
    prefix <= s
  }

  predicate Occurs(x: string, y: string, i: int) {
    0 <= i <= |x| - |y| && x[i..i + |y|] == y
  }

  /** `strings.LastIndex`: the start of the last occurrence of `y` in `x`, or -1. */
  function LastIndex(x: string, y: string): (i: int)
    ensures i == -1 || Occurs(x, y, i)
    ensures forall j :: i < j ==> !Occurs(x, y, j)
  {
    LastIndexFrom(x, y, |x| - |y|)
  }

  function LastIndexFrom(x: string, y: string, top: int): (i: int)
    requires top <= |x| - |y|
    ensures i == -1 || (i <= top && Occurs(x, y, i))
    ensures forall j :: i < j <= top ==> !Occurs(x, y, j)
    decreases top + 1
  {
    if top < 0 then -1
    else if x[top..top + |y|] == y then top
    else LastIndexFrom(x, y, top - 1)
  }

  /** `replaceLast`: swaps the last occurrence of `y` for `z`. */
  function ReplaceLast(x: string, y: string, z: string): string {
    var i := LastIndex(x, y);
    if i == -1 then x else x[..i] + z + x[i + |y|..]
  }

  /** The last "/" of `head + "/" + tail` is the one written out when `tail` has none. */
  lemma LastSlash(head: string, tail: string)
    requires '/' !in tail
    ensures LastIndex(head + "/" + tail, "/") == |head|
  {
    var x := head + "/" + tail;
    assert Occurs(x, "/", |head|);
    SlashesIn(x);
  }

  lemma SlashesIn(x: string)
    ensures forall i :: Occurs(x, "/", i) ==> x[i] == '/'
  {
    forall i | Occurs(x, "/", i) ensures x[i] == '/' {
      assert x[i] == x[i..i + 1][0];
    }
  }

  lemma AfterLastSlash(x: string)
    requires LastIndex(x, "/") != -1
    ensures '/' !in x[LastIndex(x, "/") + 1..]
    ensures x[LastIndex(x, "/")] == '/'
  {
    var i := LastIndex(x, "/");
    SlashesIn(x);
    forall j | i < j < |x| ensures x[j] != '/' {
      assert !Occurs(x, "/", j);
      assert x[j..j + 1] == [x[j]];
    }
  }

  // ---- cmp.Compare on strings ---------------------------------------------------------------

  /** Bytewise lexicographic order. */
  predicate Less(a: string, b: string) {
    |b| > 0 && (|a| == 0 || a[0] < b[0] || (a[0] == b[0] && Less(a[1..], b[1..])))
  }

  /** `cmp.Compare`. */
  function Compare(a: string, b: string): int {
    if Less(a, b) then -1 else if a == b then 0 else 1
  }

  /** The strings agree up to `i`, and there the first one ends or has the smaller byte. */
  predicate DecidedAt(a: string, b: string, i: int) {
    0 <= i <= |a| && i < |b| && a[..i] == b[..i] && (i == |a| || a[i] < b[i])
  }

  /** The first byte in which two strings differ decides, and the end of a string comes before any byte. */
  lemma {:induction false} LessExactly(a: string, b: string)
    ensures Less(a, b) <==> exists i :: DecidedAt(a, b, i)
  {
    if |a| > 0 && |b| > 0 && a[0] == b[0] {
      LessExactly(a[1..], b[1..]);
      forall i | DecidedAt(a[1..], b[1..], i) ensures DecidedAt(a, b, i + 1) {
        assert a[..i + 1] == [a[0]] + a[1..][..i] && b[..i + 1] == [b[0]] + b[1..][..i];
      }
      forall i | DecidedAt(a, b, i) ensures DecidedAt(a[1..], b[1..], i - 1) {
        assert i > 0 && a[1..][..i - 1] == a[..i][1..] && b[1..][..i - 1] == b[..i][1..];
      }
    } else {
      assert a[..0] == b[..0];
      forall i | 0 < i <= |a| && i < |b| ensures !DecidedAt(a, b, i) {
        assert a[..i][0] != b[..i][0];
      }
      assert Less(a, b) <==> DecidedAt(a, b, 0);
    }
  }

  lemma {:induction false} LessIrreflexive(a: string)
    ensures !Less(a, a)
  {
    if |a| > 0 {
      LessIrreflexive(a[1..]);
    }
  }

  lemma {:induction false} LessTransitive(a: string, b: string, c: string)
    requires Less(a, b) && Less(b, c)
    ensures Less(a, c)
  {
    if |a| > 0 && a[0] == b[0] == c[0] {
      LessTransitive(a[1..], b[1..], c[1..]);
    }
  }

  lemma {:induction false} LessTotal(a: string, b: string)
    ensures Less(a, b) || a == b || Less(b, a)
  {
    if |a| > 0 && |b| > 0 && a[0] == b[0] {
      LessTotal(a[1..], b[1..]);
      assert a == [a[0]] + a[1..] && b == [b[0]] + b[1..];
    }
  }

  /** A proper prefix comes first: what makes a copy's name sort after its source's name. */
  lemma {:induction false} PrefixIsLess(a: string, suffix: string)
    requires |suffix| > 0
    ensures Less(a, a + suffix)
  {
    if |a| > 0 {
      assert (a + suffix)[1..] == a[1..] + suffix;
      PrefixIsLess(a[1..], suffix);
    }
  }
}
