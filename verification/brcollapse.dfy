// The final rewrite of the rendered chat markup (components/AIChat.tsx:43):
// a global replace of `(<br\s*\/?>\s*){2,}` by `<br/>`.
//
// The replace runs over the whole markup string, so it also rewrites `<br>`
// runs that arrived inside the model's own text. At each position the greedy
// group takes as many tag-and-trailing-space units as it can; when it takes
// at least two, they are replaced by one `<br/>` and the scan resumes after
// them, otherwise the character is copied.
module BrCollapse {
  import opened Options
  import opened JsText

  /** The number of leading `\s` characters of `t`. */
  function WsLen(t: string): (r: nat)
    ensures r <= |t| && AllSpace(t[..r])
    ensures r == |t| || !IsJsSpace(t[r])
  {
    if t == [] || !IsJsSpace(t[0]) then 0
    else
      var n := WsLen(t[1..]);
      assert t[..n + 1] == [t[0]] + t[1..][..n];
      n + 1
  }

  /** `x` is exactly one `<br\s*\/?>` tag: `<br`, whitespace, an optional
      `/`, then `>`. */
  predicate IsBrTag(x: string) {
    && |x| >= 4 && x[..3] == "<br" && x[|x| - 1] == '>'
    && var m := x[3..|x| - 1];
       AllSpace(m) || (|m| > 0 && m[|m| - 1] == '/' && AllSpace(m[..|m| - 1]))
  }

  /** The first `n` characters of `t` are one tag. */
  predicate TagAt(t: string, n: nat) {
    n <= |t| && IsBrTag(t[..n])
  }

  /** The length of a `<br\s*\/?>` tag at the start of `t`, if there is
      one. The tag never holds a second `<`. */
  function BrTagLen(t: string): (r: Option<nat>)
    ensures r.Some? ==> 4 <= r.value <= |t| && t[0] == '<'
    ensures r.Some? ==> forall i :: 1 <= i < r.value ==> t[i] != '<'
  {
    if StartsWith(t, "<br") then
      var w := WsLen(t[3..]);
      if 3 + w < |t| && t[3 + w] == '>' then
        TagSound(t, w, w + 4);
        Some(w + 4)
      else if 4 + w < |t| && t[3 + w] == '/' && t[4 + w] == '>' then
        TagSound(t, w, w + 5);
        Some(w + 5)
      else None
    else None
  }

  /** `BrTagLen` finds a tag exactly when `t` starts with one, and then
      gives its length. */
  lemma BrTagLenExact(t: string)
    ensures forall n: nat :: BrTagLen(t) == Some(n) <==> TagAt(t, n)
  {
    if StartsWith(t, "<br") {
      var w := WsLen(t[3..]);
      TagFound(t, w);
      if 3 + w < |t| && t[3 + w] == '>' {
        TagSound(t, w, w + 4);
      } else if 4 + w < |t| && t[3 + w] == '/' && t[4 + w] == '>' {
        TagSound(t, w, w + 5);
      }
    } else {
      TagStart(t);
    }
  }

  /** What `BrTagLen` finds is a tag. */
  lemma TagSound(t: string, w: nat, n: nat)
    requires StartsWith(t, "<br") && w == WsLen(t[3..]) && n <= |t|
    requires || (n == w + 4 && t[w + 3] == '>')
             || (n == w + 5 && t[w + 3] == '/' && t[w + 4] == '>')
    ensures TagAt(t, n) && 4 <= n && t[0] == '<'
    ensures forall i :: 1 <= i < n ==> t[i] != '<'
  {
    var x := t[..n];
    assert x[..3] == t[..3];
    var m := x[3..n - 1];
    assert m == t[3..n - 1];
    var sp := t[3..][..w];
    assert sp == t[3..3 + w];
    if n == w + 4 {
      assert m == sp;
    } else {
      assert m[..|m| - 1] == sp;
    }
  }

  /** A tag at the start of `t` needs `t` to start with `<br`. */
  lemma TagStart(t: string)
    ensures forall n: nat :: TagAt(t, n) ==> StartsWith(t, "<br")
  {
    forall n: nat | TagAt(t, n) ensures StartsWith(t, "<br") {
      assert t[..3] == t[..n][..3];
    }
  }

  /** Where the whitespace after `<br` ends in front of index `j`. */
  lemma WsLenAt(t: string, j: nat)
    requires 3 <= j <= |t| && AllSpace(t[3..j]) && (j == |t| || !IsJsSpace(t[j]))
    ensures WsLen(t[3..]) == j - 3
  {
    assert t[3..] == t[3..j] + t[j..];
    WsLenSpacesThen(t[3..j], t[j..]);
  }

  /** One tag at the start of `t` ends where `\s*` after `<br` stops. */
  lemma TagEnds(t: string, w: nat, n: nat)
    requires StartsWith(t, "<br") && w == WsLen(t[3..])
    requires TagAt(t, n)
    ensures || (n == w + 4 && t[w + 3] == '>')
            || (n == w + 5 && t[w + 3] == '/' && t[w + 4] == '>')
  {
    var x := t[..n];
    var m := x[3..n - 1];
    assert m == t[3..n - 1];
    assert |x| == n && x[n - 1] == '>';
    assert t[n - 1] == x[n - 1];
    if AllSpace(m) {
      WsLenAt(t, n - 1);
    } else {
      assert m[..|m| - 1] == t[3..n - 2];
      assert t[n - 2] == m[|m| - 1] == '/';
      WsLenAt(t, n - 2);
    }
  }

  /** Any tag at the start of `t` ends where `\s*` after `<br` stops, at a
      `>` or at `/>`. */
  lemma TagFound(t: string, w: nat)
    requires StartsWith(t, "<br") && w == WsLen(t[3..])
    ensures forall n: nat :: TagAt(t, n) ==>
      || (n == w + 4 && t[w + 3] == '>')
      || (n == w + 5 && t[w + 3] == '/' && t[w + 4] == '>')
  {
    forall n: nat | TagAt(t, n)
      ensures || (n == w + 4 && t[w + 3] == '>')
              || (n == w + 5 && t[w + 3] == '/' && t[w + 4] == '>')
    {
      TagEnds(t, w, n);
    }
  }

  /** How many tag-and-space units the greedy group takes at the start of
      `t`. */
  function Run(t: string): nat
    decreases |t|
  {
    match BrTagLen(t)
    case None => 0
    case Some(n) =>
      var k := n + WsLen(t[n..]);
      1 + Run(t[k..])
  }

  /** Where the greedy group's match ends. */
  function RunEnd(t: string): (r: nat)
    ensures r <= |t|
    ensures Run(t) > 0 ==> r >= 4
    decreases |t|
  {
    match BrTagLen(t)
    case None => 0
    case Some(n) =>
      var k := n + WsLen(t[n..]);
      k + RunEnd(t[k..])
  }

  /** `html.replace(/(<br\s*\/?>\s*){2,}/g, '<br/>')`. */
  function Collapse(s: string): string
    decreases |s|
  {
    if |s| == 0 then ""
    else if Run(s) >= 2 then "<br/>" + Collapse(s[RunEnd(s)..])
    else [s[0]] + Collapse(s[1..])
  }

  /** No two `<br>` tags stand next to each other, whitespace aside. */
  predicate NoDoubleBr(o: string) {
    forall k :: 0 <= k <= |o| ==> Run(o[k..]) <= 1
  }

  /** The first `<` at or after index `i`, or `|s|`. */
  function LtFrom(s: string, i: nat): (r: nat)
    requires i <= |s|
    ensures i <= r <= |s|
    ensures forall j :: i <= j < r ==> s[j] != '<'
    ensures r < |s| ==> s[r] == '<'
    decreases |s| - i
  {
    if i == |s| || s[i] == '<' then i else LtFrom(s, i + 1)
  }

  /** The greedy match stops in front of neither a space nor a tag. */
  lemma {:induction false} RunEndStops(t: string)
    requires Run(t) > 0
    ensures WsLen(t[RunEnd(t)..]) == 0 && BrTagLen(t[RunEnd(t)..]).None?
    decreases |t|
  {
    var n := BrTagLen(t).value;
    var k := n + WsLen(t[n..]);
    var u := t[k..];
    if Run(u) > 0 {
      RunEndStops(u);
      assert t[RunEnd(t)..] == u[RunEnd(u)..];
    } else {
      assert RunEnd(t) == k;
      assert t[n..][WsLen(t[n..])..] == u;
    }
  }

  lemma CollapseHead(s: string)
    requires |s| > 0
    ensures |Collapse(s)| > 0 && Collapse(s)[0] == s[0]
  {
  }

  /** Characters up to the next `<` are copied as they are. */
  lemma {:induction false} CollapseCopies(s: string, k: nat)
    requires 0 < k <= |s| && Run(s) < 2
    requires forall i :: 1 <= i < k ==> s[i] != '<'
    ensures Collapse(s) == s[..k] + Collapse(s[k..])
    decreases k
  {
    var t := s[1..];
    CollapseLit(s);
    if k > 1 {
      NoLtShift(s, k);
      NoTagNoRun(t);
      CollapseCopies(t, k - 1);
      ConsShift(s, k, Collapse(t), Collapse(s[k..]));
    } else {
      assert s[..k] == [s[0]];
    }
  }

  /** Copying the first character, then `k - 1` more, copies `k`. */
  lemma ConsShift(s: string, k: nat, ct: string, r: string)
    requires 1 < k <= |s| && ct == s[1..][..k - 1] + r
    ensures [s[0]] + ct == s[..k] + r
  {
    assert s[..k] == [s[0]] + s[1..][..k - 1];
  }

  lemma NoLtShift(s: string, k: nat)
    requires 1 < k <= |s| && forall i :: 1 <= i < k ==> s[i] != '<'
    ensures s[1..][0] != '<' && forall i :: 1 <= i < k - 1 ==> s[1..][i] != '<'
  {
  }

  /** Outside a run of two or more, the first character is copied. */
  lemma CollapseLit(s: string)
    requires |s| > 0 && Run(s) < 2
    ensures Collapse(s) == [s[0]] + Collapse(s[1..])
  {
  }

  /** Text that does not start with `<` starts no run. */
  lemma NoTagNoRun(t: string)
    requires |t| > 0 && t[0] != '<'
    ensures Run(t) == 0
  {
    assert BrTagLen(t).None?;
  }

  lemma {:induction false} WsIgnoresAfterLt(q: string, x: string, y: string)
    requires forall i :: 0 <= i < |q| ==> q[i] != '<'
    ensures WsLen(q + "<" + x) == WsLen(q + "<" + y) <= |q|
    decreases |q|
  {
    if q != [] {
      WsIgnoresAfterLt(q[1..], x, y);
      assert (q + "<" + x)[1..] == q[1..] + "<" + x;
      assert (q + "<" + y)[1..] == q[1..] + "<" + y;
    }
  }

  /** Reading a tag never looks past the first `<` after its start. */
  lemma TagIgnoresAfterLt(p: string, x: string, y: string)
    requires |p| > 0
    requires forall i :: 1 <= i < |p| ==> p[i] != '<'
    ensures BrTagLen(p + "<" + x) == BrTagLen(p + "<" + y)
  {
    var a := p + "<" + x;
    var b := p + "<" + y;
    assert forall i :: 0 <= i <= |p| ==> a[i] == b[i];
    assert a[|p|] == '<' && b[|p|] == '<';
    if |p| >= 3 {
      assert a[..3] == p[..3] == b[..3];
      if p[..3] == "<br" {
        assert a[3..] == p[3..] + "<" + x;
        assert b[3..] == p[3..] + "<" + y;
        WsIgnoresAfterLt(p[3..], x, y);
        var j := 3 + WsLen(a[3..]);
        assert j == 3 + WsLen(b[3..]);
        assert j <= |p|;
        assert a[j] == b[j];
        assert a[j] == '/' ==> j < |p| && a[j + 1] == b[j + 1];
      }
    } else {
      if |a| >= 3 { assert a[..3][|p|] == '<'; }
      if |b| >= 3 { assert b[..3][|p|] == '<'; }
    }
  }

  lemma {:induction false} WsLenSpacesThen(q: string, u: string)
    requires AllSpace(q) && (u == [] || !IsJsSpace(u[0]))
    ensures WsLen(q + u) == |q|
    decreases |q|
  {
    if q != [] {
      WsLenSpacesThen(q[1..], u);
      assert (q + u)[1..] == q[1..] + u;
    }
  }

  /** A tag is recognised from its own characters. */
  lemma TagOfPrefix(t: string, u: string)
    requires BrTagLen(t).Some?
    ensures BrTagLen(t[..BrTagLen(t).value] + u) == BrTagLen(t)
  {
    var n := BrTagLen(t).value;
    var o := t[..n] + u;
    BrTagLenExact(t);
    assert o[..n] == t[..n];
    assert TagAt(o, n);
    BrTagLenExact(o);
  }

  /** One `<br/>` in front of text that neither starts with a space nor
      starts a tag is a run of one. */
  lemma RunOfBrThen(c: string)
    requires Run(c) == 0 && (c == [] || !IsJsSpace(c[0]))
    ensures Run("<br/>" + c) == 1
  {
    var o := "<br/>" + c;
    assert StartsWith(o, "<br") by {
      assert o[..3] == "<br";
    }
    assert o[3..][0] == '/';
    assert WsLen(o[3..]) == 0;
    assert o[3] == '/' && o[4] == '>';
    assert BrTagLen(o) == Some(5);
    assert o[5..] == c;
    assert WsLen(c) == 0;
    assert c[0..] == c;
  }

  /** Where the input starts with a run of two or more tags, the output
      starts with a run of exactly one. */
  lemma RunOfCollapseMany(s: string)
    requires Run(s) >= 2
    requires Run(Collapse(s[RunEnd(s)..])) == 0
    ensures Run(Collapse(s)) == 1
  {
    var rest := s[RunEnd(s)..];
    RunEndStops(s);
    assert Collapse(s) == "<br/>" + Collapse(rest);
    if rest != [] { CollapseHead(rest); }
    RunOfBrThen(Collapse(rest));
  }

  /** A string that agrees with `s` up to and including the first `<` after
      its start reads the same (absent) tag. */
  lemma TagNoneTransfer(s: string, o: string, k: nat)
    requires BrTagLen(s).None?
    requires 0 < k < |s| && k < |o| && forall i :: 1 <= i < k ==> s[i] != '<'
    requires s[k] == '<' && o[k] == '<' && o[..k] == s[..k]
    ensures BrTagLen(o).None?
  {
    var p := s[..k];
    TagIgnoresAfterLt(p, s[k + 1..], o[k + 1..]);
    assert p + "<" + s[k + 1..] == s;
    assert p + "<" + o[k + 1..] == o;
  }

  /** The copied prefix, stated by index rather than as a concatenation. */
  lemma CollapseCopiesSplit(s: string, k: nat)
    requires 0 < k <= |s| && Run(s) < 2
    requires forall i :: 1 <= i < k ==> s[i] != '<'
    ensures |Collapse(s)| >= k && Collapse(s)[..k] == s[..k] && Collapse(s)[k..] == Collapse(s[k..])
  {
    CollapseCopies(s, k);
  }

  /** Output that starts with `<` and meets another `<` reads no tag. */
  lemma TagOfCollapseLt(s: string, k: nat)
    requires |s| > 0 && BrTagLen(s).None? && s[0] == '<' && k == LtFrom(s, 1) && k < |s|
    ensures BrTagLen(Collapse(s)).None?
  {
    CollapseCopiesSplit(s, k);
    var o := Collapse(s);
    CollapseHead(s[k..]);
    assert |o[k..]| > 0;
    assert o[k] == o[k..][0];
    TagNoneTransfer(s, o, k);
  }

  /** Output that starts with `<` and has no other `<` is the input itself. */
  lemma {:induction false} CollapseOneLt(s: string)
    requires |s| > 0 && Run(s) < 2 && forall i :: 1 <= i < |s| ==> s[i] != '<'
    ensures Collapse(s) == s
    decreases |s|
  {
    var t := s[1..];
    if t != [] {
      assert t[0] != '<';
      assert BrTagLen(t).None?;
      CollapseOneLt(t);
    }
    assert s == [s[0]] + t;
  }

  /** Where the input starts with no tag, neither does the output. */
  lemma TagOfCollapseNone(s: string)
    requires |s| > 0 && BrTagLen(s).None?
    ensures BrTagLen(Collapse(s)).None?
  {
    if s[0] == '<' {
      var k := LtFrom(s, 1);
      if k < |s| {
        TagOfCollapseLt(s, k);
      } else {
        CollapseOneLt(s);
      }
    } else {
      CollapseHead(s);
    }
  }

  lemma RunOfCollapseNone(s: string)
    requires |s| > 0 && BrTagLen(s).None?
    ensures Run(Collapse(s)) == 0
  {
    TagOfCollapseNone(s);
  }

  /** Copying a tag and its trailing spaces in front of text that does not
      start with a space keeps the same tag and the same run step. */
  lemma TagOneTransfer(s: string, o: string, c: string, k: nat)
    requires BrTagLen(s).Some?
    requires var n := BrTagLen(s).value; k == n + WsLen(s[n..])
    requires o == s[..k] + c && (c == [] || !IsJsSpace(c[0]))
    ensures var n := BrTagLen(s).value; BrTagLen(o) == Some(n) && n + WsLen(o[n..]) == k && o[k..] == c
  {
    var n := BrTagLen(s).value;
    var gap := s[n..k];
    assert s[..k] == s[..n] + gap;
    assert o == s[..n] + (gap + c);
    TagOfPrefix(s, gap + c);
    assert o[n..] == gap + c;
    assert gap == s[n..][..WsLen(s[n..])];
    WsLenSpacesThen(gap, c);
  }

  /** A tag and the spaces after it hold no `<` past the first character. */
  lemma TagSpacesNoLt(s: string)
    requires BrTagLen(s).Some?
    ensures var n := BrTagLen(s).value; var k := n + WsLen(s[n..]);
      k <= |s| && forall i :: 1 <= i < k ==> s[i] != '<'
  {
    var n := BrTagLen(s).value;
    var w := WsLen(s[n..]);
    forall i | n <= i < n + w
      ensures s[i] != '<'
    {
      assert s[i] == s[n..][..w][i - n];
    }
  }

  /** A run of one tag is copied as it is, up to where the run ends. */
  lemma CollapseOneShape(s: string, k: nat)
    requires Run(s) == 1
    requires var n := BrTagLen(s).value; k == n + WsLen(s[n..])
    ensures k <= |s| && Collapse(s) == s[..k] + Collapse(s[k..])
  {
    TagSpacesNoLt(s);
    CollapseCopies(s, k);
  }

  /** Text placed after a one-tag run that neither starts with a space nor
      starts a tag leaves the run at one. */
  lemma RunOneTransfer(s: string, o: string, c: string, k: nat)
    requires Run(s) == 1
    requires var n := BrTagLen(s).value; k == n + WsLen(s[n..])
    requires o == s[..k] + c && (c == [] || !IsJsSpace(c[0])) && Run(c) == 0
    ensures Run(o) == 1
  {
    TagOneTransfer(s, o, c, k);
  }

  /** A tag and the spaces after it end at the end of the text or in front
      of a character that is not a space. */
  lemma StepStops(s: string, k: nat)
    requires BrTagLen(s).Some?
    requires var n := BrTagLen(s).value; k == n + WsLen(s[n..])
    ensures k <= |s| && (k == |s| || !IsJsSpace(s[k]))
  {
    var n := BrTagLen(s).value;
    var w := WsLen(s[n..]);
    if k < |s| {
      assert s[k] == s[n..][w];
    }
  }

  /** Where the input starts with a run of one tag, so does the output. */
  lemma RunOfCollapseOne(s: string, k: nat)
    requires Run(s) == 1
    requires var n := BrTagLen(s).value; k == n + WsLen(s[n..])
    requires k <= |s| && Run(Collapse(s[k..])) == 0
    ensures Run(Collapse(s)) == 1
  {
    CollapseOneShape(s, k);
    StepStops(s, k);
    if k < |s| {
      CollapseHead(s[k..]);
    }
    RunOneTransfer(s, Collapse(s), Collapse(s[k..]), k);
  }

  /** The output starts with a run of at most one tag, and exactly one where
      the input starts with a run. */
  lemma {:induction false} RunOfCollapse(s: string)
    ensures Run(Collapse(s)) == if Run(s) >= 2 then 1 else Run(s)
    decreases |s|
  {
    if |s| == 0 {
    } else if Run(s) >= 2 {
      RunEndStops(s);
      RunOfCollapse(s[RunEnd(s)..]);
      RunOfCollapseMany(s);
    } else if Run(s) == 0 {
      RunOfCollapseNone(s);
    } else {
      var n := BrTagLen(s).value;
      var k := n + WsLen(s[n..]);
      RunOfCollapse(s[k..]);
      RunOfCollapseOne(s, k);
    }
  }

  lemma NoDoubleBrCons(x: char, c: string)
    requires NoDoubleBr(c) && Run([x] + c) <= 1
    ensures NoDoubleBr([x] + c)
  {
    var o := [x] + c;
    forall k | 0 <= k <= |o| ensures Run(o[k..]) <= 1 {
      if k == 0 {
        assert o[0..] == o;
      } else {
        TailRun(x, c, k);
      }
    }
  }

  lemma TailRun(x: char, c: string, k: nat)
    requires NoDoubleBr(c) && 1 <= k <= |c| + 1
    ensures Run(([x] + c)[k..]) <= 1
  {
    assert ([x] + c)[k..] == c[k - 1..];
  }

  lemma NoDoubleBrAfterBr(c: string)
    requires NoDoubleBr(c) && Run("<br/>" + c) <= 1
    ensures NoDoubleBr("<br/>" + c)
  {
    var o := "<br/>" + c;
    forall k | 0 <= k <= |o| ensures Run(o[k..]) <= 1 {
      if k == 0 {
        assert o[0..] == o;
      } else if k < 5 {
        assert o[k..][0] != '<';
      } else {
        assert o[k..] == c[k - 5..];
      }
    }
  }

  /** The rewrite leaves no two `<br>` tags side by side. */
  lemma {:induction false} CollapseNoDoubleBr(s: string)
    ensures NoDoubleBr(Collapse(s))
    decreases |s|
  {
    if |s| == 0 {
      assert Run(Collapse(s)[0..]) == 0;
    } else if Run(s) >= 2 {
      var rest := s[RunEnd(s)..];
      CollapseNoDoubleBr(rest);
      RunOfCollapse(s);
      assert Collapse(s) == "<br/>" + Collapse(rest);
      NoDoubleBrAfterBr(Collapse(rest));
    } else {
      CollapseNoDoubleBr(s[1..]);
      RunOfCollapse(s);
      assert Collapse(s) == [s[0]] + Collapse(s[1..]);
      NoDoubleBrCons(s[0], Collapse(s[1..]));
    }
  }

  /** Markup with no adjacent `<br>` tags is left alone. */
  lemma {:induction false} CollapseFixes(s: string)
    requires NoDoubleBr(s)
    ensures Collapse(s) == s
    decreases |s|
  {
    if |s| > 0 {
      assert s[0..] == s;
      assert NoDoubleBr(s[1..]) by {
        forall k | 0 <= k <= |s[1..]| ensures Run(s[1..][k..]) <= 1 {
          assert s[1..][k..] == s[k + 1..];
        }
      }
      CollapseFixes(s[1..]);
    }
  }

  /** Rewriting twice is rewriting once. */
  lemma CollapseIdempotent(s: string)
    ensures Collapse(Collapse(s)) == Collapse(s)
  {
    CollapseNoDoubleBr(s);
    CollapseFixes(Collapse(s));
  }
}
