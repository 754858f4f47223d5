// The bold rewrite of components/AIChat.tsx:10, a global replace of the
// pattern `\*\*(.*?)\*\*` by `<strong>$1</strong>`.
//
// The regular expression is scanned left to right: at each position where a
// match can start, the lazy `(.*?)` takes the shortest span that is followed
// by `**` and contains no line terminator (JavaScript's `.` refuses those);
// where no match starts, the character is copied. The scan is modelled as a
// decomposition of the line into segments, which is then rendered.
module Bold {
  import opened Options
  import opened JsText

  datatype Seg = Lit(c: char) | Strong(inner: string)

  /** A `**` starts at index `i` of `t`. */
  predicate PairAt(t: string, i: int) {
    0 <= i && i + 1 < |t| && t[i] == '*' && t[i + 1] == '*'
  }

  /** A line terminator occurs in `t` before index `i`. */
  predicate TerminatorBefore(t: string, i: int) {
    exists j :: 0 <= j < i && j < |t| && IsLineTerminator(t[j])
  }

  /** Where the lazy `(.*?)` followed by `**` closes in `t`, the text after
      an opening `**`: the first `**` reachable without crossing a line
      terminator. */
  function Close(t: string): (r: Option<nat>)
    ensures r.Some? ==> PairAt(t, r.value) && !TerminatorBefore(t, r.value)
    ensures r.Some? ==> forall i :: 0 <= i < r.value ==> !PairAt(t, i)
    ensures r.None? ==> forall i :: PairAt(t, i) ==> TerminatorBefore(t, i)
    decreases |t|
  {
    if |t| < 2 || IsLineTerminator(t[0]) then None
    else if t[0] == '*' && t[1] == '*' then Some(0)
    else
      var rest := Close(t[1..]);
      assert !PairAt(t, 0);
      assert forall i :: 0 <= i ==> (PairAt(t, i + 1) <==> PairAt(t[1..], i));
      assert forall i :: 0 <= i ==> (TerminatorBefore(t[1..], i) ==> TerminatorBefore(t, i + 1)) by {
        forall i | 0 <= i && TerminatorBefore(t[1..], i) ensures TerminatorBefore(t, i + 1) {
          var j :| 0 <= j < i && j < |t[1..]| && IsLineTerminator(t[1..][j]);
          assert IsLineTerminator(t[j + 1]);
        }
      }
      assert forall i :: 0 < i ==> (TerminatorBefore(t, i) ==> TerminatorBefore(t[1..], i - 1)) by {
        forall i | 0 < i && TerminatorBefore(t, i) ensures TerminatorBefore(t[1..], i - 1) {
          var j :| 0 <= j < i && j < |t| && IsLineTerminator(t[j]);
          assert j != 0;
          assert IsLineTerminator(t[1..][j - 1]);
        }
      }
      if rest.None? then
        assert forall i :: PairAt(t, i) ==> TerminatorBefore(t, i) by {
          forall i | PairAt(t, i) ensures TerminatorBefore(t, i) {
            assert PairAt(t[1..], i - 1);
          }
        }
        None
      else
        assert forall i :: 0 <= i < rest.value + 1 ==> !PairAt(t, i) by {
          forall i | 0 < i < rest.value + 1 ensures !PairAt(t, i) {
            assert !PairAt(t[1..], i - 1);
          }
        }
        Some(rest.value + 1)
  }

  /** The segments the global replace sees, left to right. */
  function Parse(s: string): seq<Seg>
    decreases |s|
  {
    if |s| == 0 then []
    else
      var (g, n) := Head(s);
      [g] + Parse(s[n..])
  }

  /** The source text a segment list stands for. */
  function Unparse(segs: seq<Seg>): string {
    if segs == [] then ""
    else match segs[0]
      case Lit(c) => [c] + Unparse(segs[1..])
      case Strong(x) => "**" + x + "**" + Unparse(segs[1..])
  }

  /** The replacement text of a segment list. */
  function Render(segs: seq<Seg>): string {
    if segs == [] then ""
    else match segs[0]
      case Lit(c) => [c] + Render(segs[1..])
      case Strong(x) => "<strong>" + x + "</strong>" + Render(segs[1..])
  }

  /** The global replace of `\*\*(.*?)\*\*` by `<strong>$1</strong>`. */
  function BoldLine(s: string): string {
    Render(Parse(s))
  }

  /** `x` is what the lazy group captures between two `**`: it holds no line
      terminator and the first `**` in `x + "**"` is the closing one. */
  predicate Lazy(x: string) {
    Close(x + "**") == Some(|x|)
  }

  /** A segment list is one the left-to-right scan could produce: every
      Strong is lazy, and a literal `*` is never the opening of a `**` that
      has a reachable closer. */
  predicate WellFormed(segs: seq<Seg>) {
    if segs == [] then true
    else match segs[0]
      case Strong(x) => Lazy(x) && WellFormed(segs[1..])
      case Lit(c) =>
        var rest := Unparse(segs[1..]);
        (c == '*' && |rest| > 0 && rest[0] == '*' ==> Close(rest[1..]).None?)
        && WellFormed(segs[1..])
  }

  /** `Close` is fixed by its contract: the first `**` with no line
      terminator before it. */
  lemma CloseUnique(t: string, k: nat)
    requires PairAt(t, k) && !TerminatorBefore(t, k)
    requires forall i :: 0 <= i < k ==> !PairAt(t, i)
    ensures Close(t) == Some(k)
  {
    var r := Close(t);
    assert r.None? ==> TerminatorBefore(t, k);
    assert r.Some?;
  }

  /** The closer found depends only on the text up to and including it. */
  lemma CloseExtends(t: string, u: string)
    requires Close(t).Some?
    ensures Close(t + u) == Close(t)
  {
    var k := Close(t).value;
    var s := t + u;
    assert forall i :: 0 <= i <= k ==> (PairAt(s, i) <==> PairAt(t, i));
    assert forall j :: 0 <= j < k ==> s[j] == t[j];
    CloseUnique(s, k);
  }

  lemma CloseOfPrefix(t: string)
    requires Close(t).Some?
    ensures Close(t[..Close(t).value + 2]) == Close(t)
  {
    var k := Close(t).value;
    var p := t[..k + 2];
    assert forall i :: 0 <= i <= k ==> (PairAt(p, i) <==> PairAt(t, i));
    assert forall j :: 0 <= j < k ==> p[j] == t[j];
    CloseUnique(p, k);
  }

  lemma UnparseCons(g: Seg, segs: seq<Seg>)
    ensures Unparse([g] + segs) == Unparse([g]) + Unparse(segs)
  {
    assert ([g] + segs)[1..] == segs;
  }

  /** A match of the pattern starts at the beginning of `s`. */
  predicate Opens(s: string) {
    |s| >= 2 && s[0] == '*' && s[1] == '*' && Close(s[2..]).Some?
  }

  /** The scan step at the start of `s`: the segment it yields and how many
      characters that segment spans. */
  function Head(s: string): (r: (Seg, nat))
    requires |s| > 0
    ensures 0 < r.1 <= |s|
  {
    if Opens(s) then
      var k := Close(s[2..]).value;
      (Strong(s[2..2 + k]), k + 4)
    else (Lit(s[0]), 1)
  }

  lemma HeadSpells(s: string)
    requires |s| > 0
    ensures Unparse([Head(s).0]) == s[..Head(s).1]
  {
  }

  lemma RenderCons(g: Seg, segs: seq<Seg>)
    ensures Render([g] + segs) == Render([g]) + Render(segs)
  {
    assert ([g] + segs)[1..] == segs;
  }

  /** Parsing loses nothing: the segments spell the original line. */
  lemma {:induction false} ParseUnparse(s: string)
    ensures Unparse(Parse(s)) == s
    decreases |s|
  {
    if |s| > 0 {
      var (g, n) := Head(s);
      var rest := Parse(s[n..]);
      assert Parse(s) == [g] + rest;
      UnparseCons(g, rest);
      HeadSpells(s);
      ParseUnparse(s[n..]);
      SpellsSplit(s, n, Unparse([g]), Unparse(rest));
    }
  }

  lemma SpellsSplit(s: string, n: nat, a: string, b: string)
    requires n <= |s| && a == s[..n] && b == s[n..]
    ensures a + b == s
  {
  }

  /** Parsing yields a well-formed segment list. */
  lemma {:induction false} ParseWellFormed(s: string)
    ensures WellFormed(Parse(s))
    decreases |s|
  {
    if |s| == 0 {
    } else if |s| >= 2 && s[0] == '*' && s[1] == '*' && Close(s[2..]).Some? {
      var k := Close(s[2..]).value;
      CloseOfPrefix(s[2..]);
      assert s[2..][..k + 2] == s[2..2 + k] + "**";
      ParseWellFormed(s[2 + k + 2..]);
    } else {
      ParseUnparse(s[1..]);
      ParseWellFormed(s[1..]);
      assert |s| >= 2 ==> s[1..][1..] == s[2..];
    }
  }

  /** One scan step over a lazy pair. */
  lemma ParseStrongHead(x: string, rest: string)
    requires Lazy(x)
    ensures Parse("**" + x + "**" + rest) == [Strong(x)] + Parse(rest)
  {
    var s := "**" + x + "**" + rest;
    assert s[2..] == (x + "**") + rest;
    CloseExtends(x + "**", rest);
    assert s[2..2 + |x|] == x;
    assert s[2 + |x| + 2..] == rest;
  }

  /** One scan step over a character that opens no match. */
  lemma ParseLitHead(c: char, rest: string)
    requires c == '*' && |rest| > 0 && rest[0] == '*' ==> Close(rest[1..]).None?
    ensures Parse([c] + rest) == [Lit(c)] + Parse(rest)
  {
    var s := [c] + rest;
    assert s[1..] == rest;
    assert |s| >= 2 ==> s[2..] == rest[1..];
  }

  /** Well-formed segments are exactly what parsing their text yields, so
      the scan is the unique well-formed reading of a line. */
  lemma {:induction false} ParseUnique(segs: seq<Seg>)
    requires WellFormed(segs)
    ensures Parse(Unparse(segs)) == segs
    decreases |segs|
  {
    if segs != [] {
      var rest := Unparse(segs[1..]);
      UnparseCons(segs[0], segs[1..]);
      assert [segs[0]] + segs[1..] == segs;
      ParseUnique(segs[1..]);
      match segs[0]
      case Strong(x) =>
        assert Unparse([Strong(x)]) == "**" + x + "**";
        ParseStrongHead(x, rest);
      case Lit(c) =>
        assert Unparse([Lit(c)]) == [c];
        ParseLitHead(c, rest);
    }
  }

  /** A prefix whose every `*` is followed, inside it, by a character other
      than `*` is copied unchanged. */
  predicate NoOpener(p: string) {
    forall i :: 0 <= i < |p| && p[i] == '*' ==> i + 1 < |p| && p[i + 1] != '*'
  }

  lemma {:induction false} BoldLiteralPrefix(p: string, r: string)
    requires NoOpener(p)
    ensures BoldLine(p + r) == p + BoldLine(r)
    decreases |p|
  {
    if p != [] {
      var s := p + r;
      assert s[0] == p[0];
      assert p[0] == '*' ==> s[1] == p[1] != '*';
      BoldStepLit(s);
      assert s[1..] == p[1..] + r;
      assert NoOpener(p[1..]) by {
        forall i | 0 <= i < |p[1..]| && p[1..][i] == '*' ensures i + 1 < |p[1..]| && p[1..][i + 1] != '*' {
          assert p[i + 1] == '*';
        }
      }
      BoldLiteralPrefix(p[1..], r);
      assert p == [p[0]] + p[1..];
    } else {
      assert p + r == r;
    }
  }

  /** A line with no `*` is left as it is. */
  lemma BoldPlain(s: string)
    requires '*' !in s
    ensures BoldLine(s) == s
  {
    BoldLiteralPrefix(s, "");
    assert s + "" == s;
  }

  /** A lazy pair after a plain prefix becomes one `<strong>` element and the
      scan resumes after the closing `**`. */
  lemma BoldPair(p: string, x: string, r: string)
    requires NoOpener(p) && Lazy(x)
    ensures BoldLine(p + "**" + x + "**" + r) == p + "<strong>" + x + "</strong>" + BoldLine(r)
  {
    var s := "**" + x + "**" + r;
    BoldLiteralPrefix(p, s);
    assert p + "**" + x + "**" + r == p + s;
    ParseStrongHead(x, r);
  }

  /** An opening `**` that no `**` closes, because none follows it or
      every one that does lies past a line terminator, stays literal; the
      rest of the line is rewritten on its own. */
  lemma BoldUnmatched(p: string, t: string)
    requires NoOpener(p) && Close(t).None?
    ensures BoldLine(p + "**" + t) == p + "**" + BoldLine(t)
  {
    BoldDoubleStar(t);
    BoldLiteralPrefix(p, "**" + t);
    assert p + "**" + t == p + ("**" + t);
    AppendAssoc(p, "**", BoldLine(t));
  }

  /** A `**` that nothing on its line closes is copied as two literal
      stars. */
  lemma BoldDoubleStar(t: string)
    requires Close(t).None?
    ensures BoldLine("**" + t) == "**" + BoldLine(t)
  {
    StarNoPair(t);
    var one := "*" + t;
    assert ("**" + t)[1..] == one;
    BoldLitStar("**" + t);
    assert one[1..] == t;
    BoldLitStar(one);
  }

  /** A `*` that starts no match is copied. */
  lemma BoldLitStar(s: string)
    requires |s| > 0 && s[0] == '*' && !Opens(s)
    ensures BoldLine(s) == "*" + BoldLine(s[1..])
  {
    BoldStepLit(s);
  }

  /** With no closer in `t`, neither `**` nor `*` in front of `t` opens a
      match. */
  lemma StarNoPair(t: string)
    requires Close(t).None?
    ensures !Opens("**" + t) && !Opens("*" + t)
  {
    assert ("**" + t)[2..] == t;
    if |t| > 0 && t[0] == '*' {
      assert ("*" + t)[2..] == t[1..];
      assert !(|t| >= 2 && t[1] == '*');
    }
  }

  lemma BoldStepStrong(s: string)
    requires |s| > 0 && Opens(s)
    ensures StartsWith(BoldLine(s), "<strong>") && BoldLine(s)[0] == '<' && BoldLine(s)[1] == 's'
  {
    var (g, n) := Head(s);
    RenderCons(g, Parse(s[n..]));
    var x := g.inner;
    assert Render([g]) == "<strong>" + x + "</strong>";
    assert BoldLine(s) == "<strong>" + (x + "</strong>" + BoldLine(s[n..]));
    assert BoldLine(s)[..8] == "<strong>";
  }

  lemma BoldStepLit(s: string)
    requires |s| > 0 && !Opens(s)
    ensures BoldLine(s) == [s[0]] + BoldLine(s[1..])
  {
    RenderCons(Lit(s[0]), Parse(s[1..]));
  }

  /** One step of the rewrite: a match becomes a `<strong>` element, any
      other first character is copied. */
  lemma BoldStep(s: string)
    requires |s| > 0
    ensures !Opens(s) ==> BoldLine(s) == [s[0]] + BoldLine(s[1..])
    ensures Opens(s) ==> StartsWith(BoldLine(s), "<strong>") && BoldLine(s)[0] == '<' && BoldLine(s)[1] == 's'
  {
    if Opens(s) {
      BoldStepStrong(s);
    } else {
      BoldStepLit(s);
    }
  }

  /** Only the empty line renders as the empty string. */
  lemma BoldEmpty(s: string)
    ensures BoldLine(s) == "" <==> s == ""
  {
    if s != "" {
      BoldStep(s);
    }
  }

  /** A line with a character other than a space keeps one. */
  lemma {:induction false} BoldKeepsNonSpace(s: string)
    requires !AllSpace(s)
    ensures !AllSpace(BoldLine(s))
    decreases |s|
  {
    BoldStep(s);
    var b := BoldLine(s);
    if Opens(s) {
    } else if IsJsSpace(s[0]) {
      var i :| 0 <= i < |s| && !IsJsSpace(s[i]);
      assert s[1..][i - 1] == s[i];
      BoldKeepsNonSpace(s[1..]);
      var j :| 0 <= j < |BoldLine(s[1..])| && !IsJsSpace(BoldLine(s[1..])[j]);
      assert b[j + 1] == BoldLine(s[1..])[j];
    } else {
      assert b[0] == s[0];
    }
  }

  /** Output that starts with text free of `*` and `<` comes from input that
      starts with the same text. */
  lemma {:induction false} BoldStartsPlain(s: string, p: string)
    requires '*' !in p && '<' !in p
    ensures StartsWith(BoldLine(s), p) ==> StartsWith(s, p)
    decreases |p|
  {
    if p != [] && StartsWith(BoldLine(s), p) {
      BoldEmpty(s);
      BoldStep(s);
      var b := BoldLine(s);
      assert b[0] == p[0];
      assert b[1..][..|p| - 1] == p[1..];
      BoldStartsPlain(s[1..], p[1..]);
      assert s[..|p|] == [s[0]] + s[1..][..|p| - 1];
    }
  }
}
