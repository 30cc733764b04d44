/** What the streaming render cache joins: `appendRendered` and
    `trailingNewlines` of cmd/chat_viewport_render.go, and exactly when the
    joined pieces are the render of the whole text, whatever the painter. */
module StreamTail {
  import opened Text
  import opened MarkdownBlocks
  import opened StreamBoundary
  import Spacing

  // ----- the separator that is put back between pieces -----

  predicate IsPlain(c: char) {
    c == ' ' || c == '\t' || c == '\r'
  }

  predicate PlainBlank(l: string) {
    forall i :: 0 <= i < |l| ==> IsPlain(l[i])
  }

  /** Newlines in the trailing run of newlines, spaces, tabs and returns. */
  function Trailing(s: string): nat {
    if s == "" then 0
    else
      var c := s[|s| - 1];
      if c == '\n' then 1 + Trailing(s[..|s| - 1])
      else if IsPlain(c) then Trailing(s[..|s| - 1])
      else 0
  }

  function CountNewlines(s: string): nat {
    if s == "" then 0 else CountNewlines(s[..|s| - 1]) + if s[|s| - 1] == '\n' then 1 else 0
  }

  /** The newlines of the longest end of `s` that has only blanks, tabs, returns and
      newlines on it. */
  lemma {:induction false} TrailingMeans(s: string) returns (k: nat)
    ensures k <= |s| && (forall i :: k <= i < |s| ==> s[i] in {' ', '\t', '\r', '\n'})
    ensures k > 0 ==> s[k - 1] !in {' ', '\t', '\r', '\n'}
    ensures Trailing(s) == CountNewlines(s[k..])
    decreases |s|
  {
    k := |s|;
    if s != "" && (s[|s| - 1] == '\n' || IsPlain(s[|s| - 1])) {
      var t := s[..|s| - 1];
      k := TrailingMeans(t);
      assert s[k..][..|s| - 1 - k] == t[k..];
    } else {
      assert s[k..] == "";
    }
  }

  method TrailingNewlines(s: string) returns (r: string)
    ensures r == Newlines(Trailing(s))
  {
    var n := 0;
    var i := |s|;
    assert s[..i] == s;
    while i > 0
      invariant 0 <= i <= |s|
      invariant n + Trailing(s[..i]) == Trailing(s)
    {
      assert s[..i][..i - 1] == s[..i - 1];
      i := i - 1;
      if s[i] == '\n' {
        n := n + 1;
      } else if !IsPlain(s[i]) {
        return Newlines(n);
      }
    }
    return Newlines(n);
  }

  /** The same count, by lines. */
  function TrailingLines(lines: seq<string>): nat {
    if lines == [] then 0
    else if PlainBlank(lines[|lines| - 1]) then 1 + TrailingLines(lines[..|lines| - 1])
    else 1
  }

  lemma {:induction false} TrailingLine(u: string, l: string)
    requires forall i :: 0 <= i < |l| ==> l[i] != '\n'
    ensures Trailing(u + l) == if PlainBlank(l) then Trailing(u) else 0
    decreases |l|
  {
    if l == "" {
      assert u + l == u;
    } else {
      var init := l[..|l| - 1];
      assert (u + l)[..|u + l| - 1] == u + init;
      TrailingLine(u, init);
      assert PlainBlank(l) <==> PlainBlank(init) && IsPlain(l[|l| - 1]);
    }
  }

  lemma SplitLastLine(s: string) returns (u: string, l: string)
    requires EndsLine(s) && s != ""
    ensures s == u + (l + "\n") && EndsLine(u) && |u| < |s|
    ensures forall i :: 0 <= i < |l| ==> l[i] != '\n'
  {
    var k := |s| - 1;
    while k > 0 && s[k - 1] != '\n'
      invariant 0 <= k < |s|
      invariant forall i :: k <= i < |s| - 1 ==> s[i] != '\n'
    {
      k := k - 1;
    }
    u, l := s[..k], s[k..|s| - 1];
  }

  lemma {:induction false} TrailingByLines(s: string)
    requires EndsLine(s)
    ensures Trailing(s) == TrailingLines(Complete(s))
    decreases |s|
  {
    if s != "" {
      var u, l := SplitLastLine(s);
      TrailingByLines(u);
      TrailingLine(u, l);
      OneLine(l);
      CompleteConcat(u, l + "\n");
      assert s[..|s| - 1] == u + l;
      assert Complete(s)[..|Complete(s)| - 1] == Complete(u);
    }
  }

  /** The silent lines at the end hold only spaces, tabs and returns (the first
      line of all ends in one newline whatever it holds). */
  predicate PlainEnd(p: Painter, lines: seq<string>) {
    |lines| <= 1 || !Silent(p, lines[|lines| - 1])
    || (PlainBlank(lines[|lines| - 1]) && PlainEnd(p, lines[..|lines| - 1]))
  }

  lemma {:induction false} TrailingVersusGap(p: Painter, lines: seq<string>)
    ensures TrailingLines(lines) <= GapLines(p, lines)
    ensures TrailingLines(lines) == GapLines(p, lines) <==> PlainEnd(p, lines)
    ensures lines != [] ==> TrailingLines(lines) > 0
    decreases |lines|
  {
    if lines != [] {
      var init, l := lines[..|lines| - 1], lines[|lines| - 1];
      TrailingVersusGap(p, init);
      if PlainBlank(l) {
        AllSpaceIsBlank(l);
      }
    }
  }

  // ----- joining rendered pieces -----

  function AppendRendered(out: string, rendered: string, prevRaw: string): string {
    if out == "" then rendered else out + Newlines(Trailing(prevRaw)) + rendered
  }

  function Concat(xs: seq<string>): string {
    if xs == [] then "" else Concat(xs[..|xs| - 1]) + xs[|xs| - 1]
  }

  lemma {:induction false} ConcatSplits(xs: seq<string>, k: nat)
    requires k <= |xs|
    ensures Concat(xs) == Concat(xs[..k]) + Concat(xs[k..])
    decreases |xs| - k
  {
    if k == |xs| {
      assert xs[..k] == xs;
    } else {
      ConcatSplits(xs, k + 1);
      assert xs[..k + 1][..k] == xs[..k];
      ConcatHead(xs[k..]);
      assert xs[k..][1..] == xs[k + 1..];
      Reassociate(Concat(xs[..k]), xs[k], Concat(xs[k + 1..]));
    }
  }

  lemma {:induction false} ConcatHead(xs: seq<string>)
    requires xs != []
    ensures Concat(xs) == xs[0] + Concat(xs[1..])
    decreases |xs|
  {
    if |xs| > 1 {
      var init := xs[..|xs| - 1];
      ConcatHead(init);
      assert xs[1..][..|xs| - 2] == init[1..];
      Reassociate(xs[0], Concat(init[1..]), xs[|xs| - 1]);
    } else {
      assert xs[..0] == [] && xs[1..] == [];
    }
  }

  /** The pieces, each drawn on its own and joined. */
  function Joined(draw: string -> string, xs: seq<string>): string {
    if xs == [] then ""
    else
      var init := xs[..|xs| - 1];
      AppendRendered(Joined(draw, init), draw(xs[|xs| - 1]), Concat(init))
  }

  ghost predicate CutAtEnd(s: string) {
    IsBoundary(s, |s|)
  }

  /** Every join of pieces is at a boundary, and no piece is empty. */
  ghost predicate WellCut(xs: seq<string>) {
    && (forall k :: 0 < k < |xs| ==> CutAtEnd(Concat(xs[..k])))
    && (forall k :: 0 <= k < |xs| ==> xs[k] != "")
  }

  /** The renderer has no code block open at any join. */
  ghost predicate SettledSeams(p: Painter, xs: seq<string>) {
    forall k :: 0 < k < |xs| ==> Settled(p, Complete(Concat(xs[..k])))
  }

  /** Newlines that the render of a cut text lost to the final trim. */
  function GapAfter(p: Painter, pre: string): nat {
    Gap(p, Complete(pre))
  }

  predicate Inky(p: Painter, x: string) {
    Render(p, x) != ""
  }

  ghost predicate AllInky(p: Painter, xs: seq<string>) {
    forall k :: 0 <= k < |xs| ==> Inky(p, xs[k])
  }

  ghost predicate NoneInky(p: Painter, xs: seq<string>) {
    forall k :: 0 <= k < |xs| ==> !Inky(p, xs[k])
  }

  /** At every join the newlines put back are those that were trimmed. */
  ghost predicate EvenSeams(p: Painter, xs: seq<string>) {
    forall k :: 0 < k < |xs| ==> Trailing(Concat(xs[..k])) == GapAfter(p, Concat(xs[..k]))
  }

  /** A text has ink exactly when one of its lines is not silent. */
  lemma InkyIff(p: Painter, x: string)
    requires Visible(p)
    ensures Inky(p, x) <==> !AllSilent(p, Lines(x))
  {
    InkIff(p, Lines(x));
  }

  /** A prefix that ends at a boundary: its complete lines make its render. */
  lemma RenderPrefix(p: Painter, pre: string)
    requires Settled(p, Complete(pre)) && (pre == "" || CutAtEnd(pre))
    ensures EndsLine(pre) && (Complete(pre) == [] || Blank(Complete(pre)[|Complete(pre)| - 1]))
    ensures Render(p, pre) == TrimNewlines(Body(p, Complete(pre)))
  {
    var c := Complete(pre);
    if pre == "" {
      assert c == [];
    } else {
      BoundaryClosed(pre, |pre|);
      assert pre[..|pre|] == pre;
    }
    LinesOfComplete(pre);
    BodyConcat(p, c, [""]);
    BlankBody(p, "");
    assert Newlines(1) == "\n";
    TrimAfterNewlines(Body(p, c), 1);
  }

  /** The whole render across one cut. */
  lemma RenderAcross(p: Painter, pre: string, t: string)
    requires Settled(p, Complete(pre)) && (pre == "" || CutAtEnd(pre))
    ensures Render(p, pre + t) ==
            if Render(p, t) == "" then Render(p, pre)
            else Render(p, pre) + Newlines(GapAfter(p, pre)) + Render(p, t)
  {
    var c, lines := Complete(pre), Lines(t);
    RenderPrefix(p, pre);
    LinesConcat(pre, t);
    BodyConcat(p, c, lines);
    TrimNewlinesConcat(Body(p, c), Body(p, lines));
    TrimmedSplits(Body(p, c));
  }

  // ----- exactly when the joined pieces are the whole render -----

  ghost function SpacesOf(p: Painter, xs: seq<string>): Spacing.Spaces {
    Spacing.Spaces(seq(|xs|, k requires 0 <= k < |xs| => Render(p, xs[k])),
                   seq(|xs|, k requires 0 <= k < |xs| => Trailing(Concat(xs[..k]))),
                   seq(|xs|, k requires 0 <= k < |xs| => GapAfter(p, Concat(xs[..k]))))
  }

  lemma SolidRender(p: Painter, x: string)
    ensures Render(p, x) == "" || Solid(Render(p, x))
  {
    TrimmedSplits(Body(p, Lines(x)));
  }

  lemma SeamSpaces(p: Painter, pre: string)
    requires CutAtEnd(pre)
    ensures Trailing(pre) > 0 && GapAfter(p, pre) > 0
  {
    BoundaryClosed(pre, |pre|);
    assert pre[..|pre|] == pre;
    BodyEndsLine(p, Complete(pre));
  }

  lemma SpacesAreProper(p: Painter, xs: seq<string>)
    requires WellCut(xs)
    ensures Spacing.Proper(SpacesOf(p, xs))
  {
    var r := SpacesOf(p, xs);
    forall k | 0 <= k < |xs| ensures r.inks[k] == "" || Solid(r.inks[k]) {
      SolidRender(p, xs[k]);
    }
    forall k | 0 < k < |xs| ensures r.put[k] > 0 && r.gap[k] > 0 {
      SeamSpaces(p, Concat(xs[..k]));
    }
    if xs != [] {
      assert xs[..0] == [] && Complete("") == [];
    }
  }

  /** What each piece draws, the newlines put back before it, and those trimmed. */
  ghost function RowOf(p: Painter, xs: seq<string>): Spacing.Row
    requires WellCut(xs)
  {
    SpacesAreProper(p, xs);
    SpacesOf(p, xs)
  }

  lemma ConcatTo(xs: seq<string>, n: nat)
    requires n < |xs|
    ensures xs[..n + 1][..n] == xs[..n] && Concat(xs[..n + 1]) == Concat(xs[..n]) + xs[n]
  {
    assert xs[..n + 1][..n] == xs[..n];
  }

  lemma EmptyRender(p: Painter)
    ensures Render(p, "") == ""
  {
    assert Lines("") == [""];
    BlankBody(p, "");
    TrimNewlinesOf("", 1);
    assert "" + Newlines(1) == "\n";
  }

  lemma RowAt(p: Painter, xs: seq<string>, r: Spacing.Row, n: nat)
    requires WellCut(xs) && n < |xs| && r == RowOf(p, xs)
    ensures |r.inks| == |r.put| == |r.gap| == |xs| && r.inks[n] == Render(p, xs[n])
    ensures r.put[n] == Trailing(Concat(xs[..n])) && r.gap[n] == GapAfter(p, Concat(xs[..n]))
  {
  }

  lemma JoinedStep(draw: string -> string, xs: seq<string>, n: nat)
    requires n < |xs|
    ensures Joined(draw, xs[..n + 1]) == AppendRendered(Joined(draw, xs[..n]), draw(xs[n]), Concat(xs[..n]))
  {
    ConcatTo(xs, n);
  }

  /** The joined pieces are the one side of the row. */
  lemma PutSide(p: Painter, xs: seq<string>, r: Spacing.Row)
    requires WellCut(xs) && r == RowOf(p, xs)
    ensures Joined(x => Render(p, x), xs) == Spacing.Put(r, |xs|)
  {
    var draw := (x: string) => Render(p, x);
    var joined := seq(|xs| + 1, n requires 0 <= n <= |xs| => Joined(draw, xs[..n]));
    forall k | 0 <= k < |xs|
      ensures joined[k + 1] == if joined[k] == "" then r.inks[k] else joined[k] + Newlines(r.put[k]) + r.inks[k]
    {
      JoinedStep(draw, xs, k);
      RowAt(p, xs, r, k);
    }
    assert xs[..|xs|] == xs;
    Spacing.PutIs(r, joined, |xs|);
  }

  lemma WholeStep(p: Painter, xs: seq<string>, n: nat)
    requires WellCut(xs) && SettledSeams(p, xs) && n < |xs|
    ensures var pre, ink := Concat(xs[..n]), Render(p, xs[n]);
            Render(p, Concat(xs[..n + 1])) ==
            if ink == "" then Render(p, pre) else Render(p, pre) + Newlines(GapAfter(p, pre)) + ink
  {
    ConcatTo(xs, n);
    if n == 0 {
      assert xs[..0] == [] && Complete("") == [];
    }
    RenderAcross(p, Concat(xs[..n]), xs[n]);
  }

  /** The whole render is the other. */
  lemma LeftSide(p: Painter, xs: seq<string>, r: Spacing.Row)
    requires WellCut(xs) && SettledSeams(p, xs) && r == RowOf(p, xs)
    ensures Render(p, Concat(xs)) == Spacing.Left(r, |xs|)
  {
    var whole := seq(|xs| + 1, n requires 0 <= n <= |xs| => Render(p, Concat(xs[..n])));
    forall k | 0 <= k < |xs|
      ensures whole[k + 1] == if r.inks[k] == "" then whole[k] else whole[k] + Newlines(r.gap[k]) + r.inks[k]
    {
      WholeStep(p, xs, k);
      RowAt(p, xs, r, k);
    }
    EmptyRender(p);
    assert xs[..|xs|] == xs;
    Spacing.LeftIs(r, whole, |xs|);
  }

  /** The joined pieces are the whole render if and only if no piece has ink, or
      the first and the last have and, between every two neighbours with ink, the
      newlines put back add up to those the renderer left. */
  lemma JoinedIsRenderIff(p: Painter, xs: seq<string>)
    requires WellCut(xs) && SettledSeams(p, xs)
    ensures Joined(x => Render(p, x), xs) == Render(p, Concat(xs)) <==> Spacing.Level(RowOf(p, xs))
  {
    PutSide(p, xs, RowOf(p, xs));
    LeftSide(p, xs, RowOf(p, xs));
    Spacing.SameIffLevel(RowOf(p, xs));
  }

  /** What the row says of the pieces. */
  lemma ReadRow(p: Painter, xs: seq<string>, r: Spacing.Row)
    requires WellCut(xs) && r == RowOf(p, xs)
    ensures |r.inks| == |xs| && (Spacing.NoInk(r, |xs|) <==> NoneInky(p, xs))
    ensures AllInky(p, xs) <==> forall k :: 0 <= k < |xs| ==> r.inks[k] != ""
    ensures EvenSeams(p, xs) <==> forall k :: 0 < k < |xs| ==> r.put[k] == r.gap[k]
  {
    forall k | 0 <= k < |xs|
      ensures r.inks[k] != "" <==> Inky(p, xs[k])
      ensures r.put[k] == Trailing(Concat(xs[..k])) && r.gap[k] == GapAfter(p, Concat(xs[..k]))
    {}
  }

  /** With even seams: if and only if all pieces have ink, or none has. */
  lemma EvenJoinedIsRenderIff(p: Painter, xs: seq<string>)
    requires WellCut(xs) && SettledSeams(p, xs) && EvenSeams(p, xs)
    ensures Joined(x => Render(p, x), xs) == Render(p, Concat(xs)) <==> AllInky(p, xs) || NoneInky(p, xs)
  {
    JoinedIsRenderIff(p, xs);
    var r := RowOf(p, xs);
    ReadRow(p, xs, r);
    Spacing.EvenPutIffAllInk(r);
  }

  /** With ink in every piece: if and only if the seams are even. */
  lemma InkyJoinedIsRenderIff(p: Painter, xs: seq<string>)
    requires WellCut(xs) && SettledSeams(p, xs) && AllInky(p, xs)
    ensures Joined(x => Render(p, x), xs) == Render(p, Concat(xs)) <==> EvenSeams(p, xs)
  {
    JoinedIsRenderIff(p, xs);
    var r := RowOf(p, xs);
    ReadRow(p, xs, r);
    Spacing.AllInkIffEvenPut(r);
  }

  /** A seam is even exactly when the silent lines before it are plain. */
  lemma EvenSeamIff(p: Painter, pre: string)
    requires Visible(p) && EndsLine(pre) && Settled(p, Complete(pre))
    ensures Trailing(pre) <= GapAfter(p, pre)
    ensures Trailing(pre) == GapAfter(p, pre) <==> PlainEnd(p, Complete(pre))
  {
    TrailingByLines(pre);
    TrailingVersusGap(p, Complete(pre));
    BodyGap(p, Complete(pre));
  }
}
