/** JSON values, and the lookup of a fragment reference in one (RFC 6901, sections 4 and 6). */
module JsonPointer {
  import opened Wrappers

  /** A decoded JSON value; a number is kept as its literal. */
  datatype Json =
    | Null
    | Bool(b: bool)
    | Num(literal: string)
    | Str(s: string)
    | Arr(items: seq<Json>)
    | Obj(fields: map<string, Json>)

  // ---- Decoding a reference into its tokens --------------------------------------------------

  function HexDigit(c: char): Option<nat> {
    if '0' <= c <= '9' then Some((c as int) - ('0' as int))
    else if 'A' <= c <= 'F' then Some((c as int) - ('A' as int) + 10)
    else if 'a' <= c <= 'f' then Some((c as int) - ('a' as int) + 10)
    else None
  }

  /** Percent-decoding of the fragment, RFC 6901 section 6; `None` for a malformed escape. */
  function PercentDecode(s: string): Option<string> {
    if s == "" then Some("")
    else if s[0] != '%' then
      var rest :- PercentDecode(s[1..]);
      Some([s[0]] + rest)
    else if |s| < 3 then None
    else
      var hi :- HexDigit(s[1]);
      var lo :- HexDigit(s[2]);
      var rest :- PercentDecode(s[3..]);
      Some([(16 * hi + lo) as char] + rest)
  }

  /** The segments of `s` between its slashes. */
  function Split(s: string): (parts: seq<string>)
    ensures |parts| > 0
  {
    if s == "" then [""]
    else
      var rest := Split(s[1..]);
      if s[0] == '/' then [""] + rest else [[s[0]] + rest[0]] + rest[1..]
  }

  /** `~1` is a slash and `~0` a tilde, RFC 6901 section 4; any other tilde is an error. */
  function Unescape(t: string): Option<string> {
    if t == "" then Some("")
    else if t[0] != '~' then
      var rest :- Unescape(t[1..]);
      Some([t[0]] + rest)
    else if |t| < 2 || (t[1] != '0' && t[1] != '1') then None
    else
      var rest :- Unescape(t[2..]);
      Some([if t[1] == '0' then '~' else '/'] + rest)
  }

  function UnescapeAll(ts: seq<string>): Option<seq<string>> {
    if ts == [] then Some([])
    else
      var first :- Unescape(ts[0]);
      var rest :- UnescapeAll(ts[1..]);
      Some([first] + rest)
  }

  /** The reference tokens of a local reference; `None` when it is not a JSON Pointer. */
  function Tokens(ref: string): Option<seq<string>> {
    if ref == "" || ref[0] != '#' then None
    else
      var pointer :- PercentDecode(ref[1..]);
      PointerTokens(pointer)
  }

  function PointerTokens(pointer: string): Option<seq<string>> {
    if pointer == "" then Some([])
    else if pointer[0] != '/' then None
    else UnescapeAll(Split(pointer[1..]))
  }

  // ---- Evaluating the tokens -----------------------------------------------------------------

  predicate IsIndex(t: string) {
    t == "0" || (|t| > 0 && t[0] != '0' && forall i | 0 <= i < |t| :: '0' <= t[i] <= '9')
  }

  function IndexValue(t: string): nat
    requires forall i | 0 <= i < |t| :: '0' <= t[i] <= '9'
  {
    if t == "" then 0
    else 10 * IndexValue(t[..|t| - 1]) + ((t[|t| - 1] as int) - ('0' as int))
  }

  function Walk(v: Json, tokens: seq<string>): Option<Json>
    decreases |tokens|
  {
    if tokens == [] then Some(v)
    else
      match v
      case Obj(m) => if tokens[0] in m then Walk(m[tokens[0]], tokens[1..]) else None
      case Arr(items) =>
        if IsIndex(tokens[0]) && IndexValue(tokens[0]) < |items|
        then Walk(items[IndexValue(tokens[0])], tokens[1..])
        else None
      case _ => None
  }

  /** The value a local reference of `doc` denotes. */
  function Resolve(doc: Json, ref: string): Option<Json> {
    var tokens :- Tokens(ref);
    Walk(doc, tokens)
  }

  // ---- Decoding laws -------------------------------------------------------------------------

  /** Percent-decoding leaves a prefix without `%` alone. */
  lemma {:induction false} PercentDecodePlain(a: string, b: string)
    requires '%' !in a
    ensures PercentDecode(a + b) ==
            match PercentDecode(b) case None => None case Some(d) => Some(a + d)
  {
    if a == "" {
      assert a + b == b;
      if PercentDecode(b).Some? { assert a + PercentDecode(b).value == PercentDecode(b).value; }
    } else {
      assert (a + b)[1..] == a[1..] + b;
      PercentDecodePlain(a[1..], b);
      if PercentDecode(b).Some? {
        var d := PercentDecode(b).value;
        assert [a[0]] + (a[1..] + d) == a + d;
      }
    }
  }

  /** Unescaping leaves a prefix without `~` alone. */
  lemma {:induction false} UnescapePlain(a: string, b: string)
    requires '~' !in a
    ensures Unescape(a + b) ==
            match Unescape(b) case None => None case Some(d) => Some(a + d)
  {
    if a == "" {
      assert a + b == b;
      if Unescape(b).Some? { assert a + Unescape(b).value == Unescape(b).value; }
    } else {
      assert (a + b)[1..] == a[1..] + b;
      UnescapePlain(a[1..], b);
      if Unescape(b).Some? {
        var d := Unescape(b).value;
        assert [a[0]] + (a[1..] + d) == a + d;
      }
    }
  }

  /** A last segment without a slash is split off whole. */
  lemma {:induction false} SplitLast(head: string, tail: string)
    requires '/' !in tail
    ensures Split(tail) == [tail]
    ensures Split(head + "/" + tail) == Split(head) + [tail]
  {
    SplitSegment(tail);
    var s := head + "/" + tail;
    if head == "" {
      assert s == "/" + tail && s[1..] == tail;
    } else {
      assert s[1..] == head[1..] + "/" + tail;
      SplitLast(head[1..], tail);
    }
  }

  lemma {:induction false} SplitSegment(t: string)
    requires '/' !in t
    ensures Split(t) == [t]
  {
    if t != "" {
      SplitSegment(t[1..]);
      assert [t[0]] + t[1..] == t;
    }
  }

  lemma {:induction false} UnescapeAllLast(ts: seq<string>, t: string)
    ensures UnescapeAll(ts + [t]) ==
            match (UnescapeAll(ts), Unescape(t))
            case (Some(us), Some(u)) => Some(us + [u])
            case _ => None
  {
    if ts == [] {
      assert ts + [t] == [t] && [t][1..] == [];
      if Unescape(t).Some? { assert [Unescape(t).value] + [] == [] + [Unescape(t).value]; }
    } else {
      assert (ts + [t])[1..] == ts[1..] + [t];
      UnescapeAllLast(ts[1..], t);
      assert (ts + [t])[0] == ts[0];
      if UnescapeAll(ts).Some? && Unescape(t).Some? {
        var us, u := UnescapeAll(ts[1..]).value, Unescape(t).value;
        assert [Unescape(ts[0]).value] + (us + [u]) == [Unescape(ts[0]).value] + us + [u];
      }
    }
  }

  predicate IsPlain(s: string) {
    '/' !in s && '~' !in s && '%' !in s
  }

  /** The tokens of `#/a/b/<segment>`: two plain ones, and what the segment decodes to. */
  lemma ThreeTokens(a: string, b: string, segment: string)
    requires IsPlain(a) && IsPlain(b)
    requires '/' !in segment
    requires PercentDecode(segment).Some? ==> '/' !in PercentDecode(segment).value
    ensures Tokens("#/" + a + "/" + b + "/" + segment) ==
            match PercentDecode(segment)
            case None => None
            case Some(d) => (match Unescape(d) case None => None case Some(t) => Some([a, b, t]))
  {
    var head := "/" + a + "/" + b + "/";
    var ref := "#/" + a + "/" + b + "/" + segment;
    assert ref[0] == '#' && ref[1..] == head + segment;
    assert '%' !in head;
    PercentDecodePlain(head, segment);
    if PercentDecode(segment).Some? {
      PlainPointer(a, b, PercentDecode(segment).value);
    }
  }

  lemma PlainPointer(a: string, b: string, d: string)
    requires IsPlain(a) && IsPlain(b) && '/' !in d
    ensures PointerTokens("/" + a + "/" + b + "/" + d) ==
            match Unescape(d) case None => None case Some(t) => Some([a, b, t])
  {
    var pointer := "/" + a + "/" + b + "/" + d;
    assert pointer[0] == '/' && pointer[1..] == a + "/" + b + "/" + d;
    SplitThree(a, b, d);
    UnescapeThree(a, b, d);
  }

  lemma SplitThree(a: string, b: string, d: string)
    requires '/' !in a && '/' !in b && '/' !in d
    ensures Split(a + "/" + b + "/" + d) == [a, b, d]
  {
    SplitLast(a + "/" + b, d);
    SplitLast(a, b);
    SplitSegment(a);
  }

  lemma UnescapeThree(a: string, b: string, d: string)
    requires '~' !in a && '~' !in b
    ensures UnescapeAll([a, b, d]) ==
            match Unescape(d) case None => None case Some(t) => Some([a, b, t])
  {
    UnescapePlain(a, "");
    UnescapePlain(b, "");
    assert a + "" == a && b + "" == b;
    UnescapeCons(a, [b, d]);
    UnescapeCons(b, [d]);
    assert [a] + [b, d] == [a, b, d] && [b] + [d] == [b, d] && [d][1..] == [];
    if Unescape(d).Some? {
      var t := Unescape(d).value;
      assert [t] + [] == [t] && [b] + [t] == [b, t] && [a] + [b, t] == [a, b, t];
      assert UnescapeAll([d]) == Some([t]);
    }
  }

  // ---- Referring to a place --------------------------------------------------------------------

  /** A token as RFC 6901 section 3 writes it in a pointer. */
  function Escape(t: string): string {
    if t == "" then ""
    else (if t[0] == '~' then "~0" else if t[0] == '/' then "~1" else [t[0]]) + Escape(t[1..])
  }

  /** The same in a fragment, where a percent sign is an escape itself. */
  function PercentEncode(s: string): string {
    if s == "" then "" else (if s[0] == '%' then "%25" else [s[0]]) + PercentEncode(s[1..])
  }

  function EscapeAll(tokens: seq<string>): seq<string> {
    seq(|tokens|, i requires 0 <= i < |tokens| => Escape(tokens[i]))
  }

  function Slashed(segments: seq<string>): string {
    if segments == [] then "" else "/" + segments[0] + Slashed(segments[1..])
  }

  /** The reference with these tokens. */
  function PointerTo(tokens: seq<string>): string {
    "#" + PercentEncode(Slashed(EscapeAll(tokens)))
  }

  /** Every place has a reference: the tokens it is made of are read back. */
  lemma PointerRoundTrip(tokens: seq<string>)
    ensures Tokens(PointerTo(tokens)) == Some(tokens)
  {
    var pointer := Slashed(EscapeAll(tokens));
    assert PointerTo(tokens)[1..] == PercentEncode(pointer);
    PercentRoundTrip(pointer);
    if tokens != [] {
      forall i | 0 <= i < |tokens| ensures '/' !in EscapeAll(tokens)[i] {
        EscapeRoundTrip(tokens[i]);
      }
      SlashedSplits(EscapeAll(tokens));
      EscapeAllRoundTrip(tokens);
    }
  }

  lemma {:induction false} PercentRoundTrip(s: string)
    ensures PercentDecode(PercentEncode(s)) == Some(s)
  {
    if s != "" {
      PercentRoundTrip(s[1..]);
      var rest := PercentEncode(s[1..]);
      assert [s[0]] + s[1..] == s;
      if s[0] == '%' {
        assert ("%25" + rest)[3..] == rest;
        assert HexDigit('2') == Some(2) && HexDigit('5') == Some(5) && (16 * 2 + 5) as char == '%';
      } else {
        assert ([s[0]] + rest)[1..] == rest;
      }
    }
  }

  lemma {:induction false} EscapeRoundTrip(t: string)
    ensures Unescape(Escape(t)) == Some(t) && '/' !in Escape(t)
  {
    if t != "" {
      EscapeRoundTrip(t[1..]);
      var rest := Escape(t[1..]);
      assert [t[0]] + t[1..] == t;
      assert ("~0" + rest)[2..] == rest && ("~1" + rest)[2..] == rest && ([t[0]] + rest)[1..] == rest;
    }
  }

  lemma {:induction false} EscapeAllRoundTrip(tokens: seq<string>)
    ensures UnescapeAll(EscapeAll(tokens)) == Some(tokens)
  {
    if tokens != [] {
      EscapeRoundTrip(tokens[0]);
      EscapeAllRoundTrip(tokens[1..]);
      assert EscapeAll(tokens)[1..] == EscapeAll(tokens[1..]);
      assert [tokens[0]] + tokens[1..] == tokens;
    }
  }

  lemma {:induction false} SlashedSplits(segments: seq<string>)
    requires segments != [] && forall i | 0 <= i < |segments| :: '/' !in segments[i]
    ensures Slashed(segments)[0] == '/' && Split(Slashed(segments)[1..]) == segments
  {
    var rest := segments[1..];
    assert Slashed(segments)[1..] == segments[0] + Slashed(rest);
    assert segments == [segments[0]] + rest;
    if rest == [] {
      assert segments[0] + "" == segments[0];
      SplitSegment(segments[0]);
    } else {
      SlashedSplits(rest);
      SplitBefore(segments[0], Slashed(rest));
    }
  }

  lemma SplitBefore(head: string, tail: string)
    requires '/' !in head && tail != "" && tail[0] == '/'
    ensures Split(head + tail) == [head] + Split(tail[1..])
  {
    SplitFirst(head, tail[1..]);
    assert tail == "/" + tail[1..];
    assert head + "/" + tail[1..] == head + tail;
  }

  lemma {:induction false} SplitFirst(head: string, tail: string)
    requires '/' !in head
    ensures Split(head + "/" + tail) == [head] + Split(tail)
  {
    var s := head + "/" + tail;
    if head == "" {
      assert s[0] == '/' && s[1..] == tail;
    } else {
      SplitFirst(head[1..], tail);
      assert s[0] == head[0] && s[1..] == head[1..] + "/" + tail;
      assert [head[0]] + head[1..] == head;
      assert ([head[1..]] + Split(tail))[1..] == Split(tail);
    }
  }

  // ---- Indices ---------------------------------------------------------------------------------

  /** An index in decimal. */
  function Decimal(n: nat): string {
    if n < 10 then [Digit(n)] else Decimal(n / 10) + [Digit(n % 10)]
  }

  function Digit(d: nat): char
    requires d < 10
  {
    ('0' as int + d) as char
  }

  /** An index written in decimal is read back. */
  lemma {:induction false} IndexRoundTrip(n: nat)
    ensures IsIndex(Decimal(n)) && IndexValue(Decimal(n)) == n
    ensures n > 0 ==> Decimal(n)[0] != '0'
  {
    if n < 10 {
      assert [Digit(n)][..0] == "";
    } else {
      IndexRoundTrip(n / 10);
      var tens, units := Decimal(n / 10), [Digit(n % 10)];
      assert (tens + units)[..|tens|] == tens && (tens + units)[0] == tens[0];
    }
  }

  lemma WalkOn(m: map<string, Json>, k: string, rest: seq<string>)
    ensures Walk(Obj(m), [k] + rest) == if k in m then Walk(m[k], rest) else None
  {
    assert ([k] + rest)[1..] == rest;
  }

  lemma WalkItem(items: seq<Json>, i: nat, rest: seq<string>)
    ensures Walk(Arr(items), [Decimal(i)] + rest) == if i < |items| then Walk(items[i], rest) else None
  {
    IndexRoundTrip(i);
    assert ([Decimal(i)] + rest)[1..] == rest;
  }

  lemma UnescapeCons(t: string, ts: seq<string>)
    requires '~' !in t
    ensures UnescapeAll([t] + ts) ==
            match UnescapeAll(ts) case None => None case Some(us) => Some([t] + us)
  {
    UnescapePlain(t, "");
    assert t + "" == t && ([t] + ts)[1..] == ts;
  }
}
