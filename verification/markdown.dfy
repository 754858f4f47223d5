// The chat's markdown renderer, MarkdownContent in components/AIChat.tsx
// (lines 8-46): each line of a reply gets the bold rewrite and, when it
// reads as a bullet, becomes an `<li>`; runs of items are wrapped in one
// `<ul>`, other lines become paragraphs or `<br/>`, and the whole markup
// then has its runs of `<br>` tags collapsed.
module Markdown {
  import opened JsText
  import opened Bold
  import opened BrCollapse

  /** What one processed line contributes. */
  datatype Block = Item(html: string) | Para(html: string) | Br

  /** The markup pieces the render loop emits, in order. */
  datatype Piece = Open | Close | Emit(b: Block)

  /** `processLine`: bold first, then a trimmed line starting with `* `
      becomes a list item holding the rest of the trimmed line. */
  function ProcessLine(line: string): string {
    var b := BoldLine(line);
    var t := Trim(b);
    if StartsWith(t, "* ") then "<li>" + t[2..] + "</li>" else b
  }

  /** How the loop treats a processed line. */
  function Classify(pl: string): Block {
    if StartsWith(pl, "<li>") then Item(pl)
    else if pl != "" then Para(pl)
    else Br
  }

  function BlockHtml(b: Block): string {
    match b
    case Item(h) => h
    case Para(h) => "<p>" + h + "</p>"
    case Br => "<br/>"
  }

  function PieceHtml(p: Piece): string {
    match p
    case Open => "<ul>"
    case Close => "</ul>"
    case Emit(b) => BlockHtml(b)
  }

  function Html(ps: seq<Piece>): string {
    if ps == [] then "" else PieceHtml(ps[0]) + Html(ps[1..])
  }

  /** The pieces emitted for blocks `bs` when a list is or is not open:
      an item opens a list if none is open, anything else closes an open
      one, and a list still open at the end is closed. */
  function Layout(bs: seq<Block>, inList: bool): seq<Piece>
    decreases |bs|
  {
    if bs == [] then (if inList then [Close] else [])
    else if bs[0].Item? then
      (if inList then [] else [Open]) + [Emit(bs[0])] + Layout(bs[1..], true)
    else
      (if inList then [Close] else []) + [Emit(bs[0])] + Layout(bs[1..], false)
  }

  /** The blocks a piece sequence emits, in order. */
  function Emitted(ps: seq<Piece>): seq<Block> {
    if ps == [] then []
    else (if ps[0].Emit? then [ps[0].b] else []) + Emitted(ps[1..])
  }

  /** Well-nested list markup: items appear exactly inside a list, a list is
      never empty, and it is closed only in front of a non-item or at the
      end, so adjacent items share one list. */
  predicate WellNested(ps: seq<Piece>, inside: bool) {
    if ps == [] then !inside
    else match ps[0]
      case Open => !inside && |ps| > 1 && ps[1].Emit? && ps[1].b.Item? && WellNested(ps[1..], true)
      case Close => inside && (|ps| == 1 || (ps[1].Emit? && !ps[1].b.Item?)) && WellNested(ps[1..], false)
      case Emit(b) => b.Item? == inside && WellNested(ps[1..], inside)
  }

  function CountOf(ps: seq<Piece>, p: Piece): nat {
    if ps == [] then 0 else (if ps[0] == p then 1 else 0) + CountOf(ps[1..], p)
  }

  /** The blocks of a reply, one per `\n`-separated line. */
  function LineBlocks(content: string): (r: seq<Block>)
    ensures |r| == |Split(content, '\n')|
  {
    var lines := Split(content, '\n');
    seq(|lines|, i requires 0 <= i < |lines| => Classify(ProcessLine(lines[i])))
  }

  /** The markup before the final `<br>` rewrite. */
  function Markup(content: string): string {
    Html(Layout(LineBlocks(content), false))
  }

  /** The markup the component renders. */
  function Render(content: string): string {
    Collapse(Markup(content))
  }

  // ---------------------------------------------------------------------
  // Lines

  /** A bullet line: spaces, then `* `, then text that is not all spaces. */
  predicate ListSyntax(line: string) {
    var y := TrimStart(line);
    StartsWith(y, "* ") && !AllSpace(y[2..])
  }

  lemma SpacesNoOpener(w: string)
    requires AllSpace(w)
    ensures NoOpener(w) && '*' !in w
  {
  }

  /** The bold rewrite copies leading spaces and the `* ` marker. */
  lemma BoldBullet(w: string, r: string)
    requires AllSpace(w)
    ensures BoldLine(w + "* " + r) == w + "* " + BoldLine(r)
  {
    var q := w + "* ";
    SpacesNoOpener(w);
    assert forall i :: 0 <= i < |w| ==> q[i] == w[i];
    assert q[|w|] == '*' && q[|w| + 1] == ' ';
    BoldLiteralPrefix(q, r);
  }

  /** A bullet line becomes an item holding the bold rendering of its text,
      with trailing spaces dropped. */
  lemma ListLine(w: string, r: string)
    requires AllSpace(w) && !AllSpace(r)
    ensures ProcessLine(w + "* " + r) == "<li>" + TrimEnd(BoldLine(r)) + "</li>"
  {
    var line := w + "* " + r;
    BoldBullet(w, r);
    BoldKeepsNonSpace(r);
    var x := BoldLine(r);
    var y := "* " + x;
    assert BoldLine(line) == w + y;
    TrimStartSpaces(w, y);
    TrimFirstNonSpace(y);
    TrimEndKeeps("* ", x);
    TrimIsEnds(w + y);
    var t := "* " + TrimEnd(x);
    assert Trim(BoldLine(line)) == t;
    assert StartsWith(t, "* ") && t[2..] == TrimEnd(x);
  }

  /** Bold text after the leading spaces of a line. */
  lemma BoldAfterSpaces(l: string)
    ensures var y := TrimStart(l);
      TrimStart(BoldLine(l)) == TrimStart(BoldLine(y))
  {
    var y := TrimStart(l);
    var w := l[..|l| - |y|];
    assert l == w + y;
    SpacesNoOpener(w);
    BoldLiteralPrefix(w, y);
    TrimStartSpaces(w, BoldLine(y));
  }

  /** Spaces are left alone by the bold rewrite. */
  lemma BoldOfSpaces(r: string)
    ensures AllSpace(r) ==> BoldLine(r) == r
  {
    if AllSpace(r) {
      SpacesNoOpener(r);
      BoldPlain(r);
    }
  }

  /** A line is treated as a bullet only when it is one. */
  lemma ListConverse(l: string)
    ensures StartsWith(Trim(BoldLine(l)), "* ") ==> ListSyntax(l)
  {
    if StartsWith(Trim(BoldLine(l)), "* ") {
      var y := TrimStart(l);
      BoldAfterSpaces(l);
      BoldEmpty(y);
      BulletShape(y);
    }
  }

  /** The bold rendering of a line starting with a non-space starts with a
      non-space. */
  lemma BoldNoLeadingSpace(y: string)
    requires y == [] || !IsJsSpace(y[0])
    ensures TrimStart(BoldLine(y)) == BoldLine(y)
  {
    BoldEmpty(y);
    if y != [] {
      BoldStep(y);
      TrimFirstNonSpace(BoldLine(y));
    }
  }

  /** Rendered text starting with `* ` comes from a line starting with
      `* `. */
  lemma BoldBulletConverse(y: string)
    requires StartsWith(BoldLine(y), "* ")
    ensures StartsWith(y, "* ") && BoldLine(y) == "* " + BoldLine(y[2..])
  {
    var x := BoldLine(y);
    BoldEmpty(y);
    BoldStep(y);
    var y1 := y[1..];
    assert BoldLine(y1) == x[1..];
    assert BoldLine(y1)[0] == ' ';
    BoldEmpty(y1);
    BoldStep(y1);
    assert y1[1..] == y[2..];
    assert y[..2] == [y[0], y1[0]];
  }

  /** A line with no leading space whose bold rendering trims to a bullet
      is itself a bullet. */
  lemma BulletShape(y: string)
    requires y == [] || !IsJsSpace(y[0])
    requires StartsWith(TrimEnd(TrimStart(BoldLine(y))), "* ")
    ensures StartsWith(y, "* ") && !AllSpace(y[2..])
  {
    BoldNoLeadingSpace(y);
    var x := BoldLine(y);
    TrimEndBullet(x);
    BoldBulletConverse(y);
    BoldOfSpaces(y[2..]);
  }

  lemma BoldLiForward(l: string)
    requires StartsWith(l, "<li>")
    ensures StartsWith(BoldLine(l), "<li>")
  {
    assert NoOpener("<li>");
    BoldLiteralPrefix("<li>", l[4..]);
    assert l == "<li>" + l[4..];
  }

  lemma BoldLiBackward(l: string)
    requires StartsWith(BoldLine(l), "<li>")
    ensures StartsWith(l, "<li>")
  {
    var b := BoldLine(l);
    BoldEmpty(l);
    BoldStep(l);
    assert b[1] == 'l';
    BoldStartsPlain(l[1..], "li>");
    assert BoldLine(l[1..]) == b[1..];
    assert b[1..][..3] == "li>";
    assert l[..4] == [l[0]] + l[1..][..3];
  }

  /** The bold rendering starts with `<li>` exactly when the line does. */
  lemma BoldLi(l: string)
    ensures StartsWith(BoldLine(l), "<li>") <==> StartsWith(l, "<li>")
  {
    if StartsWith(l, "<li>") {
      BoldLiForward(l);
    }
    if StartsWith(BoldLine(l), "<li>") {
      BoldLiBackward(l);
    }
  }

  /** A bullet line becomes an item. */
  lemma BulletLine(l: string)
    requires ListSyntax(l)
    ensures ProcessLine(l) == "<li>" + TrimEnd(BoldLine(TrimStart(l)[2..])) + "</li>"
  {
    var y := TrimStart(l);
    var w := l[..|l| - |y|];
    assert l == w + "* " + y[2..];
    ListLine(w, y[2..]);
  }

  /** Any other line is only bolded. */
  lemma PlainLine(l: string)
    requires !ListSyntax(l)
    ensures ProcessLine(l) == BoldLine(l)
  {
    ListConverse(l);
  }

  lemma BulletKind(l: string)
    requires ListSyntax(l)
    ensures l != ""
    ensures Classify(ProcessLine(l)) == Item("<li>" + TrimEnd(BoldLine(TrimStart(l)[2..])) + "</li>")
  {
    BulletLine(l);
    var h := ProcessLine(l);
    assert h[..4] == "<li>";
  }

  lemma PlainKind(l: string)
    requires !ListSyntax(l)
    ensures Classify(ProcessLine(l)) ==
      if l == "" then Br
      else if StartsWith(l, "<li>") then Item(BoldLine(l))
      else Para(BoldLine(l))
  {
    PlainLine(l);
    BoldEmpty(l);
    BoldLi(l);
  }

  /** What every line of a reply becomes. */
  lemma LineKind(l: string)
    ensures Classify(ProcessLine(l)) ==
      if l == "" then Br
      else if ListSyntax(l) then Item("<li>" + TrimEnd(BoldLine(TrimStart(l)[2..])) + "</li>")
      else if StartsWith(l, "<li>") then Item(BoldLine(l))
      else Para(BoldLine(l))
  {
    if ListSyntax(l) {
      BulletKind(l);
    } else {
      PlainKind(l);
    }
  }

  /** Exactly the empty lines become `<br/>`. */
  lemma EmptyLineIsBr(l: string)
    ensures Classify(ProcessLine(l)) == Br <==> l == ""
  {
    LineKind(l);
  }

  /** A line of spaces only is kept as a paragraph of those spaces. */
  lemma BlankLineIsPara(l: string)
    requires l != "" && AllSpace(l)
    ensures Classify(ProcessLine(l)) == Para(l)
  {
    LineKind(l);
    BoldOfSpaces(l);
    assert TrimStart(l) == [];
  }

  // ---------------------------------------------------------------------
  // Lists

  lemma {:induction false} HtmlAppend(a: seq<Piece>, b: seq<Piece>)
    ensures Html(a + b) == Html(a) + Html(b)
    decreases |a|
  {
    if a != [] {
      assert (a + b)[1..] == a[1..] + b;
      HtmlAppend(a[1..], b);
    } else {
      assert a + b == b;
    }
  }

  lemma {:induction false} EmittedAppend(a: seq<Piece>, b: seq<Piece>)
    ensures Emitted(a + b) == Emitted(a) + Emitted(b)
    decreases |a|
  {
    if a != [] {
      assert (a + b)[1..] == a[1..] + b;
      EmittedAppend(a[1..], b);
    } else {
      assert a + b == b;
    }
  }

  /** The loop's output is well nested. */
  lemma {:induction false} LayoutNested(bs: seq<Block>, inList: bool)
    ensures WellNested(Layout(bs, inList), inList)
    decreases |bs|
  {
    if bs != [] {
      var b := bs[0];
      var rest := Layout(bs[1..], b.Item?);
      LayoutNested(bs[1..], b.Item?);
      var e := [Emit(b)] + rest;
      assert e[1..] == rest;
      if b.Item? && !inList {
        assert ([Open] + e)[1..] == e;
      } else if !b.Item? && inList {
        assert ([Close] + e)[1..] == e;
      }
    }
  }

  /** The loop emits every block, in order, and nothing else. */
  lemma {:induction false} LayoutEmitted(bs: seq<Block>, inList: bool)
    ensures Emitted(Layout(bs, inList)) == bs
    decreases |bs|
  {
    if bs != [] {
      var b := bs[0];
      var pre := if b.Item? then (if inList then [] else [Open]) else (if inList then [Close] else []);
      LayoutEmitted(bs[1..], b.Item?);
      EmittedAppend(pre + [Emit(b)], Layout(bs[1..], b.Item?));
      EmittedAppend(pre, [Emit(b)]);
      assert Emitted([Emit(b)]) == [b];
      assert Emitted(pre) == [];
      assert bs == [b] + bs[1..];
    }
  }

  /** Well-nested markup is determined by the blocks it emits: the loop's
      output is the only well-nested arrangement of its blocks. */
  lemma {:induction false} LayoutUnique(ps: seq<Piece>, inList: bool)
    requires WellNested(ps, inList)
    ensures ps == Layout(Emitted(ps), inList)
    decreases |ps|
  {
    if ps != [] {
      var next := if ps[0].Open? then true else if ps[0].Close? then false else inList;
      LayoutUnique(ps[1..], next);
      var e := Emitted(ps[1..]);
      assert ps == [ps[0]] + ps[1..];
      match ps[0]
      case Open =>
        EmittedHead(ps[1..]);
        assert Emitted(ps) == e;
        LayoutOpens(e);
      case Close =>
        assert Emitted(ps) == e;
        if |ps| > 1 {
          EmittedHead(ps[1..]);
        }
        LayoutCloses(e);
      case Emit(b) =>
        assert Emitted(ps) == [b] + e;
        assert ([b] + e)[1..] == e;
    }
  }

  /** Outside a list, a leading item opens one. */
  lemma LayoutOpens(e: seq<Block>)
    requires |e| > 0 && e[0].Item?
    ensures Layout(e, false) == [Open] + Layout(e, true)
  {
    var r := Layout(e[1..], true);
    var head: seq<Piece> := [Emit(e[0])];
    assert Layout(e, true) == [] + head + r;
    assert [] + head == head;
    assert Layout(e, false) == [Open] + head + r;
    AppendAssoc([Open], head, r);
  }

  /** Inside a list, the end or a leading non-item closes it. */
  lemma LayoutCloses(e: seq<Block>)
    requires e == [] || !e[0].Item?
    ensures Layout(e, true) == [Close] + Layout(e, false)
  {
    if e == [] {
      assert [Close] + [] == [Close];
    } else {
      var r := Layout(e[1..], false);
      var head: seq<Piece> := [Emit(e[0])];
      assert Layout(e, false) == [] + head + r;
      assert [] + head == head;
      assert Layout(e, true) == [Close] + head + r;
      AppendAssoc([Close], head, r);
    }
  }

  lemma EmittedHead(ps: seq<Piece>)
    requires |ps| > 0 && ps[0].Emit?
    ensures Emitted(ps) == [ps[0].b] + Emitted(ps[1..])
    ensures Emitted(ps)[0] == ps[0].b && Emitted(ps)[1..] == Emitted(ps[1..])
  {
  }

  /** Every `<ul>` is matched by a `</ul>`. */
  lemma {:induction false} NestedBalanced(ps: seq<Piece>, inside: bool)
    requires WellNested(ps, inside)
    ensures CountOf(ps, Open) + (if inside then 1 else 0) == CountOf(ps, Close)
    decreases |ps|
  {
    if ps != [] {
      match ps[0]
      case Open => NestedBalanced(ps[1..], true);
      case Close => NestedBalanced(ps[1..], false);
      case Emit(_) => NestedBalanced(ps[1..], inside);
    }
  }

  // ---------------------------------------------------------------------
  // The whole reply

  /** A reply built by joining lines that hold no `\n` renders from exactly
      those lines. */
  lemma LineBlocksOfJoin(ls: seq<string>)
    requires |ls| > 0 && forall i :: 0 <= i < |ls| ==> '\n' !in ls[i]
    ensures LineBlocks(Join(ls, "\n")) == seq(|ls|, i requires 0 <= i < |ls| => Classify(ProcessLine(ls[i])))
  {
    SplitJoin(ls, '\n');
    assert "\n" == ['\n'];
  }

  /** The rendered markup never has two `<br>` tags side by side. */
  lemma RenderNoDoubleBr(content: string)
    ensures NoDoubleBr(Render(content))
  {
    CollapseNoDoubleBr(Markup(content));
  }

  /** The final rewrite has nothing left to do on its own output. */
  lemma RenderStable(content: string)
    ensures Collapse(Render(content)) == Render(content)
  {
    CollapseIdempotent(Markup(content));
  }

  /** The markup the loop writes for one block, given whether a list is
      open. */
  function StepHtml(b: Block, inList: bool): string {
    (if b.Item? then (if inList then "" else "<ul>") else (if inList then "</ul>" else ""))
    + BlockHtml(b)
  }

  /** The markup of a block sequence is the markup of its first step
      followed by that of the rest. */
  lemma LayoutStep(bs: seq<Block>, inList: bool)
    requires |bs| > 0
    ensures Html(Layout(bs, inList)) == StepHtml(bs[0], inList) + Html(Layout(bs[1..], bs[0].Item?))
  {
    var b := bs[0];
    var rest := Layout(bs[1..], b.Item?);
    var pre: seq<Piece> := if b.Item? then (if inList then [] else [Open]) else (if inList then [Close] else []);
    assert Layout(bs, inList) == pre + [Emit(b)] + rest;
    assert Html(pre) + BlockHtml(b) == StepHtml(b, inList) by {
      assert Html([]) == "";
      assert Html([Open]) == "<ul>";
      assert Html([Close]) == "</ul>";
    }
    EmitHtml(pre, b, rest);
  }

  /** The markup of pieces around one emitted block. */
  lemma EmitHtml(pre: seq<Piece>, b: Block, rest: seq<Piece>)
    ensures Html(pre + [Emit(b)] + rest) == Html(pre) + BlockHtml(b) + Html(rest)
  {
    HtmlAppend(pre + [Emit(b)], rest);
    HtmlAppend(pre, [Emit(b)]);
    assert Html([Emit(b)]) == BlockHtml(b);
  }

  /** The markup a block stands for, read off the processed line. */
  lemma ClassifyHtml(pl: string)
    ensures Classify(pl).Item? <==> StartsWith(pl, "<li>")
    ensures BlockHtml(Classify(pl)) ==
      if StartsWith(pl, "<li>") then pl else if pl != "" then "<p>" + pl + "</p>" else "<br/>"
  {
  }

  lemma SliceTail<T>(s: seq<T>, i: nat)
    requires i < |s|
    ensures s[i..][1..] == s[i + 1..]
  {
  }

  lemma SliceAll<T>(s: seq<T>)
    ensures s[0..] == s
  {
  }

  lemma SliceEnd<T>(s: seq<T>, i: nat)
    requires i == |s|
    ensures s[i..] == []
  {
  }

  /** One pass of the loop body, lines 22-35: open or close the list as
      needed and write the line's markup. */
  method AppendLine(html: string, inList: bool, processed: string) returns (html': string, inList': bool)
    ensures inList' == Classify(processed).Item?
    ensures html' == html + StepHtml(Classify(processed), inList)
  {
    ClassifyHtml(processed);
    html' := html;
    inList' := inList;
    if StartsWith(processed, "<li>") {
      if !inList' {
        html' := html' + "<ul>";
        inList' := true;
      }
      html' := html' + processed;
    } else {
      if inList' {
        html' := html' + "</ul>";
        inList' := false;
      }
      html' := html' + (if processed != "" then "<p>" + processed + "</p>" else "<br/>");
    }
  }

  /** The loop over the lines, lines 21-36, and the closing of a list left
      open, lines 38-40: the html it builds is that of the block layout. */
  method Assemble(lines: seq<string>, ghost bs: seq<Block>) returns (html: string)
    requires |bs| == |lines|
    requires forall i :: 0 <= i < |lines| ==> bs[i] == Classify(ProcessLine(lines[i]))
    ensures html == Html(Layout(bs, false))
  {
    html := "";
    var inList := false;
    var i := 0;
    SliceAll(bs);
    while i < |lines|
      invariant 0 <= i <= |lines|
      invariant html + Html(Layout(bs[i..], inList)) == Html(Layout(bs, false))
    {
      ghost var before := html;
      ghost var wasInList := inList;
      var processed := ProcessLine(lines[i]);
      html, inList := AppendLine(html, inList, processed);
      LayoutStep(bs[i..], wasInList);
      SliceTail(bs, i);
      AppendAssoc(before, StepHtml(bs[i], wasInList), Html(Layout(bs[i + 1..], inList)));
      i := i + 1;
    }
    SliceEnd(bs, i);
    if inList {
      assert Html(Layout([], true)) == "</ul>";
      html := html + "</ul>";
    } else {
      assert Html(Layout([], false)) == "";
    }
  }

  /** MarkdownContent, lines 8-46: split, render each line, then collapse
      the runs of breaks. */
  method RenderContent(content: string) returns (html: string)
    ensures html == Render(content)
    ensures NoDoubleBr(html)
  {
    var lines := Split(content, '\n');
    html := Assemble(lines, LineBlocks(content));
    RenderNoDoubleBr(content);
    html := Collapse(html);
  }
}
