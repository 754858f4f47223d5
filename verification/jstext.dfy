/** The slice of JavaScript's string semantics the rest of the model relies
    on: the `\s` / `trim()` whitespace class, the line terminators that `.`
    does not match, `startsWith`, `Array.prototype.join` and
    `String.prototype.split` with a one-character separator, and the
    truthiness of an optional string. */
module JsText {
  import opened Options

  /** The characters JavaScript's `.` refuses to match (LineTerminator). */
  predicate IsLineTerminator(c: char) {
    c == '\n' || c == '\r' || c == '\U{2028}' || c == '\U{2029}'
  }

  /** WhiteSpace plus LineTerminator: the class matched by `\s` and removed
      by `String.prototype.trim`. */
  predicate IsJsSpace(c: char) {
    || c == '\t' || c == '\U{000B}' || c == '\U{000C}' || c == ' '
    || c == '\U{00A0}' || c == '\U{1680}' || ('\U{2000}' <= c <= '\U{200A}')
    || c == '\U{202F}' || c == '\U{205F}' || c == '\U{3000}' || c == '\U{FEFF}'
    || IsLineTerminator(c)
  }

  predicate AllSpace(s: string) {
    forall i :: 0 <= i < |s| ==> IsJsSpace(s[i])
  }

  predicate StartsWith(s: string, prefix: string) {
    |prefix| <= |s| && s[..|prefix|] == prefix
  }

  /** Concatenation regrouped, for proofs that build a string or a list
      of pieces one step at a time. */
  lemma AppendAssoc<T>(a: seq<T>, b: seq<T>, c: seq<T>)
    ensures a + (b + c) == (a + b) + c
  {
  }

  /** Whether an optional string is truthy: present and not `""`. */
  predicate Truthy(v: Option<string>) {
    v.Some? && v.value != ""
  }

  /** `s.trimStart()`: the suffix left after dropping every leading space. */
  function TrimStart(s: string): (r: string)
    ensures |r| <= |s| && r == s[|s| - |r|..]
    ensures AllSpace(s[..|s| - |r|])
    ensures r == [] || !IsJsSpace(r[0])
  {
    if s == [] || !IsJsSpace(s[0]) then s else TrimStart(s[1..])
  }

  /** `s.trimEnd()`: the prefix left after dropping every trailing space. */
  function TrimEnd(s: string): (r: string)
    ensures |r| <= |s| && r == s[..|r|]
    ensures AllSpace(s[|r|..])
    ensures r == [] || !IsJsSpace(r[|r| - 1])
  {
    if s == [] || !IsJsSpace(s[|s| - 1]) then s else TrimEnd(s[..|s| - 1])
  }

  /** `s.trim()`: the longest slice of `s` that neither starts nor ends with
      a space, once the spaces around it are dropped. */
  function Trim(s: string): (r: string)
    ensures exists i, j :: 0 <= i <= j <= |s| && r == s[i..j] && AllSpace(s[..i]) && AllSpace(s[j..])
    ensures r == [] || (!IsJsSpace(r[0]) && !IsJsSpace(r[|r| - 1]))
  {
    var t := TrimStart(s);
    var r := TrimEnd(t);
    TrimSlices(s, t, r);
    r
  }

  lemma TrimIsEnds(s: string)
    ensures Trim(s) == TrimEnd(TrimStart(s))
  {
  }

  lemma TrimSlices(s: string, t: string, r: string)
    requires |t| <= |s| && t == s[|s| - |t|..] && AllSpace(s[..|s| - |t|])
    requires |r| <= |t| && r == t[..|r|] && AllSpace(t[|r|..])
    ensures var i := |s| - |t|; var j := i + |r|;
      0 <= i <= j <= |s| && r == s[i..j] && AllSpace(s[..i]) && AllSpace(s[j..])
  {
    var i := |s| - |t|;
    assert s[i + |r|..] == t[|r|..];
  }

  /** Leading spaces make no difference to `trimStart`. */
  lemma {:induction false} TrimStartSpaces(w: string, y: string)
    requires AllSpace(w)
    ensures TrimStart(w + y) == TrimStart(y)
    decreases |w|
  {
    if w != [] {
      assert (w + y)[1..] == w[1..] + y;
      TrimStartSpaces(w[1..], y);
    } else {
      assert w + y == y;
    }
  }

  /** Text that starts with a non-space is its own `trimStart`. */
  lemma TrimFirstNonSpace(y: string)
    requires |y| > 0 && !IsJsSpace(y[0])
    ensures TrimStart(y) == y
  {
  }

  /** A `trimEnd` that starts with `* ` has more than spaces after the
      marker. */
  lemma TrimEndBullet(x: string)
    requires StartsWith(TrimEnd(x), "* ")
    ensures StartsWith(x, "* ") && !AllSpace(x[2..])
  {
    var t := TrimEnd(x);
    assert x[..2] == t[..2];
    assert |t| > 2;
    assert x[2..][|t| - 3] == t[|t| - 1];
  }

  /** `trimEnd` only reaches into the last part when that part is all
      spaces. */
  lemma {:induction false} TrimEndKeeps(p: string, x: string)
    requires !AllSpace(x)
    ensures TrimEnd(p + x) == p + TrimEnd(x)
    decreases |x|
  {
    var s := p + x;
    assert s[|s| - 1] == x[|x| - 1];
    if IsJsSpace(x[|x| - 1]) {
      var x' := x[..|x| - 1];
      assert !AllSpace(x') by {
        var i :| 0 <= i < |x| && !IsJsSpace(x[i]);
        assert x'[i] == x[i];
      }
      assert s[..|s| - 1] == p + x';
      TrimEndKeeps(p, x');
    }
  }

  /** `xs.join(sep)`. */
  function Join(xs: seq<string>, sep: string): string {
    if |xs| == 0 then ""
    else if |xs| == 1 then xs[0]
    else xs[0] + sep + Join(xs[1..], sep)
  }

  /** A character that occurs neither in the pieces nor in the separator
      does not occur in their join. */
  lemma {:induction false} JoinFree(xs: seq<string>, sep: string, c: char)
    requires c !in sep
    requires forall i :: 0 <= i < |xs| ==> c !in xs[i]
    ensures c !in Join(xs, sep)
    decreases |xs|
  {
    if |xs| > 1 {
      JoinFree(xs[1..], sep, c);
    }
  }

  /** `s.indexOf(c)` for a single character, with `-1` as `None`. */
  function IndexOf(s: string, c: char): (r: Option<nat>)
    ensures r.Some? ==> r.value < |s| && s[r.value] == c && c !in s[..r.value]
    ensures r.None? ==> c !in s
  {
    if |s| == 0 then None
    else if s[0] == c then Some(0)
    else
      match IndexOf(s[1..], c)
      case None => None
      case Some(k) =>
        assert s[..k + 1] == [s[0]] + s[1..][..k];
        Some(k + 1)
  }

  /** `s.split(c)` for a one-character separator: the pieces between
      successive occurrences of `c`, always at least one. */
  function Split(s: string, c: char): (r: seq<string>)
    ensures |r| > 0
    ensures forall i :: 0 <= i < |r| ==> c !in r[i]
    decreases |s|
  {
    match IndexOf(s, c)
    case None => [s]
    case Some(k) => [s[..k]] + Split(s[k + 1..], c)
  }

  /** One step of `Split` where the first separator is at `k`. */
  lemma SplitStep(s: string, c: char, k: nat)
    requires IndexOf(s, c) == Some(k)
    ensures Split(s, c) == [s[..k]] + Split(s[k + 1..], c)
  {
  }

  /** A piece without the separator splits into itself. */
  lemma SplitPlain(s: string, c: char)
    requires c !in s
    ensures Split(s, c) == [s]
  {
  }

  /** Splitting and re-joining gives the original string back. */
  lemma {:induction false} JoinSplit(s: string, c: char)
    ensures Join(Split(s, c), [c]) == s
    decreases |s|
  {
    match IndexOf(s, c)
    case None =>
    case Some(k) =>
      var rest := s[k + 1..];
      JoinSplit(rest, c);
      assert Split(s, c) == [s[..k]] + Split(rest, c);
      assert s == s[..k] + [c] + rest;
  }

  /** `IndexOf` is fixed by its contract. */
  lemma {:induction false} IndexOfUnique(s: string, c: char, k: nat)
    requires k < |s| && s[k] == c && c !in s[..k]
    ensures IndexOf(s, c) == Some(k)
  {
    if k > 0 {
      assert s[0] == s[..k][0];
      assert s[1..][..k - 1] == s[1..k];
      assert s[1..k] == s[..k][1..];
      IndexOfUnique(s[1..], c, k - 1);
    }
  }

  /** Where `a` has no separator, the first one in `a + [c] + b` is the
      one in between. */
  lemma IndexOfAfterPlain(a: string, b: string, c: char)
    requires c !in a
    ensures IndexOf(a + [c] + b, c) == Some(|a|)
  {
    var s := a + [c] + b;
    assert s[..|a|] == a;
    IndexOfUnique(s, c, |a|);
  }

  /** Where `a` has a separator, the first one in `a + b` is `a`'s. */
  lemma IndexOfInPrefix(a: string, b: string, c: char)
    requires IndexOf(a, c).Some?
    ensures IndexOf(a + b, c) == IndexOf(a, c)
  {
    var k := IndexOf(a, c).value;
    var s := a + b;
    assert s[..k] == a[..k];
    IndexOfUnique(s, c, k);
  }

  /** Joining separator-free pieces and splitting gives the pieces back. */
  lemma {:induction false} SplitJoin(xs: seq<string>, c: char)
    requires |xs| > 0
    requires forall i :: 0 <= i < |xs| ==> c !in xs[i]
    ensures Split(Join(xs, [c]), c) == xs
    decreases |xs|
  {
    if |xs| > 1 {
      var rest := Join(xs[1..], [c]);
      IndexOfAfterPlain(xs[0], rest, c);
      var s := xs[0] + [c] + rest;
      assert s[..|xs[0]|] == xs[0];
      assert s[|xs[0]| + 1..] == rest;
      SplitJoin(xs[1..], c);
      assert Split(s, c) == [xs[0]] + Split(rest, c);
    }
  }

  /** The first cut of `a + [c] + b` when `a` has no separator. */
  lemma SplitConcatPlain(a: string, b: string, c: char)
    requires IndexOf(a, c).None?
    ensures Split(a + [c] + b, c) == Split(a, c) + Split(b, c)
  {
    var s := a + [c] + b;
    IndexOfAfterPlain(a, b, c);
    assert s[..|a|] == a;
    assert s[|a| + 1..] == b;
    SplitStep(s, c, |a|);
  }

  /** A separator found in `a` is still the first one of `a + [c] + b`. */
  lemma IndexOfConcat(a: string, b: string, c: char, k: nat)
    requires IndexOf(a, c) == Some(k)
    ensures IndexOf(a + [c] + b, c) == Some(k)
    ensures (a + [c] + b)[..k] == a[..k]
    ensures (a + [c] + b)[k + 1..] == a[k + 1..] + [c] + b
  {
    var s := a + [c] + b;
    assert s[..k] == a[..k];
    assert s[k] == a[k];
    IndexOfUnique(s, c, k);
    assert s[k + 1..] == a[k + 1..] + [c] + b;
  }

  /** The first cut of `a + [c] + b` when `a` has a separator at `k`. */
  lemma SplitConcatAt(a: string, b: string, c: char, k: nat)
    requires IndexOf(a, c) == Some(k)
    requires Split(a[k + 1..] + [c] + b, c) == Split(a[k + 1..], c) + Split(b, c)
    ensures Split(a + [c] + b, c) == Split(a, c) + Split(b, c)
  {
    var head := a[..k];
    var r1 := Split(a[k + 1..], c);
    var r2 := Split(b, c);
    IndexOfConcat(a, b, c, k);
    SplitStep(a + [c] + b, c, k);
    SplitStep(a, c, k);
    AppendAssoc([head], r1, r2);
  }

  /** Splitting distributes over a separator that joins two strings. */
  lemma {:induction false} SplitConcat(a: string, b: string, c: char)
    ensures Split(a + [c] + b, c) == Split(a, c) + Split(b, c)
    decreases |a|
  {
    match IndexOf(a, c)
    case None =>
      SplitConcatPlain(a, b, c);
    case Some(k) =>
      SplitConcat(a[k + 1..], b, c);
      SplitConcatAt(a, b, c, k);
  }

  /** A separator-free prefix followed by a join of separator-free lines
      fuses with the first line. */
  lemma SplitPrefixedJoin(p: string, lines: seq<string>, c: char)
    requires c !in p && |lines| > 0
    requires forall i :: 0 <= i < |lines| ==> c !in lines[i]
    ensures Split(p + Join(lines, [c]), c) == [p + lines[0]] + lines[1..]
  {
    var h := p + lines[0];
    assert c !in h;
    if |lines| > 1 {
      var tail := lines[1..];
      var rest := Join(tail, [c]);
      assert p + Join(lines, [c]) == h + [c] + rest;
      SplitConcat(h, rest, c);
      SplitJoin(tail, c);
    } else {
      assert p + Join(lines, [c]) == h;
    }
  }
}
