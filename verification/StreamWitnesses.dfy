/** Runs of ticks whose last frame is not the whole render. */
module StreamWitnesses {
  import opened Text
  import opened MarkdownBlocks
  import opened StreamBoundary
  import opened StreamTail
  import opened StreamCache
  import opened StreamFidelity

  // ----- from a cut to a run -----

  /** The last frame of the ticks for `xs` is the whole render exactly when the
      pieces join to it. */
  lemma LastFrameIff(paint: int -> Painter, sanitize: string -> string, width: int, xs: seq<string>)
    requires Reachable(xs) && Untouched(sanitize, xs)
    ensures var draw, ticks := Drawing(paint, sanitize), TicksFor(xs, width);
            var p := paint(width - 3);
            FrameOf(draw, ticks, |xs| - 1) == WholeFrame(draw, ticks[|xs| - 1])
            <==> Joined(x => Render(p, x), xs) == Render(p, Concat(xs))
  {
    var draw, n := Drawing(paint, sanitize), |xs| - 1;
    CutIsReached(draw, xs, width);
    HeadOf(xs, n + 1);
    assert xs[..n + 1] == xs;
    JoinedDrawing(paint, sanitize, width, xs);
    DrawingOf(paint, sanitize, width, Concat(xs));
    FramedInjective(Joined(draw(width), xs), draw(width)(Concat(xs)));
  }

  /** A tail of one character leaves the scan where it is. */
  lemma ShortTail(xs: seq<string>)
    requires Paced(xs) && |xs[|xs| - 1]| == 1
    ensures Reachable(xs)
  {
    var n := |xs| - 1;
    ConcatTo(xs, n);
    assert xs[..n + 1] == xs;
    var from := |Concat(xs[..n])|;
    assert Found(Concat(xs), from, from);
  }

  lemma ConcatTwo(s: string, t: string)
    ensures var xs := [s, t]; xs[..1] == [s] && Concat([s]) == s && Concat(xs) == s + t
  {
    assert [s, t][..1] == [s] && [s][..0] == [];
  }

  lemma PairIsPaced(s: string, t: string)
    requires CutAtEnd(s) && t != "" && s[0] != '\n' && s[0] != '\r'
    ensures Paced([s, t])
  {
    ConcatTwo(s, t);
  }

  // ----- a tail that draws nothing -----

  /** Whatever is cut off with nothing to show is preceded by newlines all the same. */
  lemma SilentTailBreaks(p: Painter, s: string, t: string)
    requires CutAtEnd(s) && Settled(p, Complete(s)) && Inky(p, s) && !Inky(p, t)
    ensures Joined(x => Render(p, x), [s, t]) == Render(p, s) + Newlines(Trailing(s))
    ensures Joined(x => Render(p, x), [s, t]) != Render(p, Concat([s, t]))
  {
    ConcatTwo(s, t);
    JoinedPair(x => Render(p, x), s, t);
    RenderAcross(p, s, t);
    SeamSpaces(p, s);
  }

  /** One letter and a blank line. */
  const A := "a\n\n"

  lemma LetterFacts()
    ensures !Blank("a") && !BareHeading("a") && !Opens("a") && Blank("") && PlainBlank("")
  {
    assert TrimSpace("a") == "a";
  }

  lemma LetterLines()
    ensures EndsLine(A) && Complete(A) == ["a", ""] && Lines(A) == ["a", "", ""]
  {
    OneLine("a");
    OneLine("");
    assert A == ("a" + "\n") + ("" + "\n");
    CompleteConcat("a" + "\n", "" + "\n");
    assert ["a"] + [""] == ["a", ""];
    LinesOfComplete(A);
  }

  lemma LetterLine()
    ensures CutAtEnd(A) && Complete(A) == ["a", ""] && Lines(A) == ["a", "", ""]
    ensures !Blank("a") && !BareHeading("a") && !Opens("a") && Blank("") && PlainBlank("")
  {
    LetterFacts();
    LetterLines();
    OneLine("a");
    assert A[..2] == "a" + "\n";
    FenceAfterSnoc([], "a", false);
    assert [] + ["a"] == ["a"];
  }

  lemma LetterIsSettled(p: Painter)
    requires Visible(p)
    ensures Settled(p, Complete(A)) && Inky(p, A) && Trailing(A) == GapAfter(p, A)
  {
    LetterLine();
    var c := ["a", ""];
    assert Unpiped(c);
    assert A[..|A|] == A;
    BoundaryClosed(A, |A|);
    ClosedIsSettled(p, c);
    assert !Silent(p, Lines(A)[0]);
    InkyIff(p, A);
    assert c[..1] == ["a"];
    EvenSeamIff(p, A);
  }

  lemma HashIsSilent(p: Painter)
    requires p.line("#") == ""
    ensures !Inky(p, "#")
  {
    OneLine("#");
    assert TrimSpace("#") == "#";
    assert ["#"][1..] == [] && Body(p, ["#"]) == "" + "\n" + "";
    assert "" + "\n" + "" == "" + Newlines(1);
    TrimNewlinesOf("", 1);
  }

  /** A tick that lands just after the hash of a heading: a text and a blank line,
      then the hash. Where a heading without text draws as nothing, the frame has
      two newlines that the whole render has not. */
  lemma HashBreaks(paint: int -> Painter, sanitize: string -> string, width: int)
    requires Visible(paint(width - 3)) && paint(width - 3).line("#") == "" && Untouched(sanitize, [A, "#"])
    ensures var draw, ticks := Drawing(paint, sanitize), [Show(A, width, ""), Show(A + "#", width, "")];
            FrameOf(draw, ticks, 1) != WholeFrame(draw, ticks[1])
  {
    var p := paint(width - 3);
    LetterLine();
    LetterIsSettled(p);
    HashIsSilent(p);
    SilentTailBreaks(p, A, "#");
    PairRun(paint, sanitize, width, A, "#");
  }

  /** The ticks of a two-piece run. */
  lemma PairRun(paint: int -> Painter, sanitize: string -> string, width: int, s: string, t: string)
    requires CutAtEnd(s) && |t| == 1 && s[0] != '\n' && s[0] != '\r' && Untouched(sanitize, [s, t])
    ensures var draw, ticks := Drawing(paint, sanitize), [Show(s, width, ""), Show(s + t, width, "")];
            var p := paint(width - 3);
            FrameOf(draw, ticks, 1) == WholeFrame(draw, ticks[1])
            <==> Joined(x => Render(p, x), [s, t]) == Render(p, Concat([s, t]))
  {
    var xs := [s, t];
    PairIsPaced(s, t);
    ShortTail(xs);
    LastFrameIff(paint, sanitize, width, xs);
    PairTicks(s, t, width);
  }

  lemma PairTicks(s: string, t: string, width: int)
    ensures TicksFor([s, t], width) == [Show(s, width, ""), Show(s + t, width, "")]
  {
    ConcatTwo(s, t);
    assert [s, t][..2] == [s, t];
  }

  // ----- a piece of blank lines -----

  lemma {:induction false} SettledConcat(p: Painter, a: seq<string>, b: seq<string>)
    requires Settled(p, a) && Settled(p, b) && CleanCut(a, b)
    ensures Settled(p, a + b)
    decreases |a|
  {
    if a == [] {
      assert a + b == b;
    } else {
      var n := BlockLength(p, a);
      FirstBlockStays(p, a, b);
      CloseStays(a, b, 1);
      RestIsCut(a, b, n);
      SettledConcat(p, a[n..], b);
    }
  }

  /** After a boundary, one more newline is a boundary too. */
  lemma CutThenNewline(s: string)
    requires CutAtEnd(s)
    ensures CutAtEnd(s + "\n") && Complete(s + "\n") == Complete(s) + [""]
  {
    BoundaryClosed(s, |s|);
    assert s[..|s|] == s;
    OneLine("");
    assert "" + "\n" == "\n";
    CompleteConcat(s, "\n");
    assert (s + "\n")[..|s|] == s;
  }

  lemma BlankLineAdds(p: Painter, c: seq<string>)
    requires Settled(p, c)
    ensures Settled(p, c + [""]) && Gap(p, c + [""]) == Gap(p, c) + 1
  {
    BlankIsOffTable("");
    assert [""][1..] == [];
    SettledConcat(p, c, [""]);
    BodyConcat(p, c, [""]);
    BlankBody(p, "");
    EndNewlinesGrow(Body(p, c));
  }

  lemma TrailingGrows(s: string)
    ensures Trailing(s + "\n") == Trailing(s) + 1
  {
    assert (s + "\n")[..|s|] == s;
  }

  /** A boundary where nothing is open and the right newlines are put back. */
  ghost predicate GoodSeam(p: Painter, s: string) {
    CutAtEnd(s) && Settled(p, Complete(s)) && Trailing(s) == GapAfter(p, s)
  }

  lemma BoundaryThenNewline(p: Painter, s: string)
    requires GoodSeam(p, s)
    ensures GoodSeam(p, s + "\n")
  {
    CutThenNewline(s);
    BlankLineAdds(p, Complete(s));
    TrailingGrows(s);
  }

  lemma TwoNewlines(p: Painter)
    ensures !Inky(p, "\n\n")
  {
    OneLine("");
    assert "" + "\n" == "\n" && "\n" + "\n" == "\n\n";
    CompleteConcat("\n", "\n");
    LinesOfComplete("\n\n");
    assert Lines("\n\n") == [""] + [""] + [""];
    assert Lines("\n\n") == ["", "", ""];
    ThreeBlanks(p);
  }

  lemma ThreeBlanks(p: Painter)
    ensures TrimNewlines(Body(p, ["", "", ""])) == ""
  {
    BlankIsOffTable("");
    assert ["", "", ""][1..] == ["", ""] && ["", ""][1..] == [""];
    BlankBody(p, "");
    BodyUnfold(p, ["", ""], 1, "");
    BodyUnfold(p, ["", "", ""], 1, "");
    assert "" + "\n" + ("" + "\n" + "\n") == "" + Newlines(3);
    TrimNewlinesOf("", 3);
  }

  /** A tick that lands just when two newlines have arrived after a boundary
      folds them as a piece of their own. */
  lemma TwoNewlinesAreFolded(s: string)
    requires CutAtEnd(s)
    ensures Found(s + "\n\n", |s|, |s| + 2)
  {
    var raw := s + "\n\n";
    BoundaryClosed(s, |s|);
    assert s[..|s|] == s;
    FenceByLine(raw, |s|, 0);
    assert raw[..|s|] == s && raw[|s|..|s|] == "";
    assert !Opens("");
  }

  lemma ConcatThree(s: string, u: string, t: string)
    ensures var xs := [s, u, t];
            xs[..1] == [s] && xs[..2] == [s, u] && xs[..3] == xs &&
            Concat([s]) == s && Concat([s, u]) == s + u && Concat(xs) == s + u + t
  {
    ConcatTwo(s, u);
    assert [s, u, t][..2] == [s, u];
  }

  /** The seams of `s`, two newlines and `t`. */
  lemma BlankPieceSeams(p: Painter, s: string, t: string)
    requires GoodSeam(p, s) && t != ""
    ensures var xs := [s, "\n\n", t]; WellCut(xs) && SettledSeams(p, xs) && EvenSeams(p, xs)
  {
    TwoNewlinesLater(p, s);
    SeamsOfThree(p, s, "\n\n", t);
  }

  lemma TwoNewlinesLater(p: Painter, s: string)
    requires GoodSeam(p, s)
    ensures GoodSeam(p, s + "\n\n")
  {
    BoundaryThenNewline(p, s);
    BoundaryThenNewline(p, s + "\n");
    assert s + "\n\n" == s + "\n" + "\n";
  }

  lemma SeamsOfThree(p: Painter, s: string, u: string, t: string)
    requires GoodSeam(p, s) && GoodSeam(p, s + u) && u != "" && t != ""
    ensures var xs := [s, u, t]; WellCut(xs) && SettledSeams(p, xs) && EvenSeams(p, xs)
  {
    ConcatThree(s, u, t);
    GoodSeams(p, [s, u, t]);
  }

  lemma GoodSeams(p: Painter, xs: seq<string>)
    requires |xs| == 3 && xs[0] != "" && xs[1] != "" && xs[2] != ""
    requires GoodSeam(p, Concat(xs[..1])) && GoodSeam(p, Concat(xs[..2]))
    ensures WellCut(xs) && SettledSeams(p, xs) && EvenSeams(p, xs)
  {
    forall k | 0 < k < 3 ensures GoodSeam(p, Concat(xs[..k])) {
      assert k == 1 || k == 2;
    }
  }

  /** Joining a piece of two newlines shows them twice. */
  lemma BlankPieceBreaks(p: Painter, s: string, t: string)
    requires GoodSeam(p, s) && Inky(p, s) && t != ""
    ensures var xs := [s, "\n\n", t]; Joined(x => Render(p, x), xs) != Render(p, Concat(xs))
  {
    var xs := [s, "\n\n", t];
    BlankPieceSeams(p, s, t);
    TwoNewlines(p);
    EvenJoinedIsRenderIff(p, xs);
    assert Inky(p, xs[0]) && !Inky(p, xs[1]);
  }

  lemma ThreeTicks(s: string, u: string, t: string, width: int)
    ensures TicksFor([s, u, t], width) == [Show(s, width, ""), Show(s + u, width, ""), Show(s + u + t, width, "")]
  {
    ConcatThree(s, u, t);
  }

  /** A text and a blank line, then two more newlines, then a letter, with a tick
      after each: the last frame has more blank lines than the whole render. */
  lemma BlankPieceRun(paint: int -> Painter, sanitize: string -> string, width: int)
    requires Visible(paint(width - 3)) && Untouched(sanitize, [A, "\n\n", "b"])
    ensures var draw := Drawing(paint, sanitize);
            var ticks := [Show(A, width, ""), Show(A + "\n\n", width, ""), Show(A + "\n\n" + "b", width, "")];
            FrameOf(draw, ticks, 2) != WholeFrame(draw, ticks[2])
  {
    var p := paint(width - 3);
    LetterLine();
    LetterIsSettled(p);
    BlankPieceSeams(p, A, "b");
    BlankPieceBreaks(p, A, "b");
    TripleRun(paint, sanitize, width, A, "\n\n", "b");
  }

  /** The ticks of a three-piece run. */
  lemma TripleRun(paint: int -> Painter, sanitize: string -> string, width: int, s: string, u: string, t: string)
    requires WellCut([s, u, t]) && |s| >= 2 && |u| >= 2 && |t| == 1 && s[0] != '\n' && s[0] != '\r'
    requires Untouched(sanitize, [s, u, t])
    ensures var draw := Drawing(paint, sanitize);
            var ticks := [Show(s, width, ""), Show(s + u, width, ""), Show(s + u + t, width, "")];
            var p := paint(width - 3);
            FrameOf(draw, ticks, 2) == WholeFrame(draw, ticks[2])
            <==> Joined(x => Render(p, x), [s, u, t]) == Render(p, Concat([s, u, t]))
  {
    var xs := [s, u, t];
    ShortTail(xs);
    LastFrameIff(paint, sanitize, width, xs);
    ThreeTicks(s, u, t, width);
  }

  // ----- a fence line inside a table -----

  const TABLE: seq<string> := ["a|b", "-|-", "```|", ""]
  const CODE: seq<string> := ["```", "c", ""]

  lemma LineFacts()
    ensures !Opens("a|b") && !Opens("-|-") && Opens("```|") && Opens("```") && Closes("```")
    ensures !Opens("c") && !Closes("c") && !Opens("") && !Closes("") && !Opens("d") && !Closes("d")
    ensures HasPipe("a|b") && HasPipe("```|") && !HasPipe("") && !HasPipe("d")
    ensures Blank("") && !Blank("d") && !Blank("c") && PlainBlank("") && !PlainBlank("c")
  {
    assert "a|b"[1] == '|' && "```|"[3] == '|';
    assert TrimSpace("a|b") == "a|b" && TrimSpace("-|-") == "-|-" && TrimSpace("```|") == "```|";
    assert TrimSpace("c") == "c" && TrimSpace("d") == "d" && TrimSpace("```") == "```";
    assert "c"[0] == 'c';
  }

  lemma DashesSeparate()
    ensures Separator("-|-")
  {
    var s := "-|-";
    assert TrimSpace(s) == s && s[0] == '-' && Unbordered(s) == s;
    assert FirstPipe(s[1..]) == 0 && FirstPipe(s) == 1;
    assert s[..1] == "-" && s[2..] == "-";
    assert FirstPipe("-"[1..]) == 0 && FirstPipe("-") == 1;
    assert Cells("-") == ["-"] && Cells(s) == ["-"] + ["-"];
    assert TrimSpace("-") == "-" && SeparatorCell("-");
  }

  lemma {:induction false} NeverCloses(lines: seq<string>, k: nat)
    requires 0 < k <= |lines| && forall i :: k <= i < |lines| ==> !Closes(lines[i])
    ensures CloseFrom(lines, k) == |lines| - 1
    decreases |lines| - k
  {
    if k < |lines| {
      NeverCloses(lines, k + 1);
    }
  }

  lemma UnclosedBody(p: Painter, lines: seq<string>)
    requires lines != [] && Opens(lines[0]) && forall i :: 1 <= i < |lines| ==> !Closes(lines[i])
    ensures Body(p, lines) == p.code(lines) + "\n"
  {
    NeverCloses(lines, 1);
    assert lines[..|lines|] == lines && lines[|lines|..] == [];
    BodyUnfold(p, lines, |lines|, p.code(lines));
    assert p.code(lines) + "\n" + "" == p.code(lines) + "\n";
  }

  function TableText(p: Painter): string {
    p.table(TABLE[..3]) + "\n" + "\n"
  }

  lemma BlankThen(p: Painter, rest: seq<string>)
    ensures Body(p, [""] + rest) == "\n" + Body(p, rest)
  {
    var lines := [""] + rest;
    BlankIsOffTable("");
    assert lines[1..] == rest;
    BodyUnfold(p, lines, 1, "");
    assert "" + "\n" == "\n";
  }

  /** The table takes the fence line as a row and ends at the blank line. */
  lemma TableBody(p: Painter, rest: seq<string>)
    requires !p.special("a|b")
    ensures Body(p, TABLE + rest) == TableText(p) + Body(p, rest)
  {
    LineFacts();
    DashesSeparate();
    var all := TABLE + rest;
    assert all[0] == "a|b" && all[1] == "-|-" && all[2] == "```|" && all[3] == "";
    assert RowsEnd(all, 2) == RowsEnd(all, 3) == 3;
    assert all[..3] == TABLE[..3] && all[3..] == [""] + rest;
    BodyUnfold(p, all, 3, p.table(TABLE[..3]));
    BlankThen(p, rest);
    Reassociate(p.table(TABLE[..3]) + "\n", "\n", Body(p, rest));
  }

  lemma TrimBehind(x: string, y: string)
    requires Solid(y)
    ensures TrimNewlines(x + (y + "\n")) == x + y
  {
    assert Newlines(1) == "\n";
    Reassociate(x, y, "\n");
    TrimNewlinesOf(x + y, 1);
  }

  lemma CodeBody(p: Painter, last: string)
    requires !Closes(last)
    ensures Body(p, CODE + [last]) == p.code(CODE + [last]) + "\n"
  {
    LineFacts();
    var rest := CODE + [last];
    assert rest[0] == "```" && rest[1] == "c" && rest[2] == "" && rest[3] == last;
    UnclosedBody(p, rest);
  }

  /** The code block that starts at the bare fence is never closed. */
  lemma OpenRender(p: Painter, last: string)
    requires Visible(p) && !p.special("a|b") && !Closes(last)
    ensures TrimNewlines(Body(p, TABLE + (CODE + [last]))) == TableText(p) + p.code(CODE + [last])
  {
    CodeBody(p, last);
    TableBody(p, CODE + [last]);
    TrimBehind(TableText(p), p.code(CODE + [last]));
  }

  /** A table with a fence line for a row, a blank line, and a fenced block: the
      scanner sees a fence opened in the table and closed at the bare one; the
      renderer sees that line open one. */
  const FENCED := Unlines(TABLE + CODE)

  lemma FencedState()
    ensures !FenceAfter(TABLE + ["```", "c"], false)
  {
    LineFacts();
    FenceAfterSnoc([], "a|b", false);
    assert [] + ["a|b"] == ["a|b"];
    FenceAfterSnoc(["a|b"], "-|-", false);
    assert ["a|b"] + ["-|-"] == ["a|b", "-|-"];
    FenceAfterSnoc(["a|b", "-|-"], "```|", false);
    assert ["a|b", "-|-"] + ["```|"] == ["a|b", "-|-", "```|"];
    FenceAfterSnoc(["a|b", "-|-", "```|"], "", false);
    assert ["a|b", "-|-", "```|"] + [""] == TABLE;
    FenceAfterSnoc(TABLE, "```", false);
    FenceAfterSnoc(TABLE + ["```"], "c", false);
    assert TABLE + ["```"] + ["c"] == TABLE + ["```", "c"];
  }

  lemma FencedLines()
    ensures forall i :: 0 <= i < |TABLE + CODE| ==> NoNewline((TABLE + CODE)[i])
    ensures forall i :: 0 <= i < 6 ==> NoNewline((TABLE + ["```", "c"])[i])
  {
    assert NoNewline("a|b") && NoNewline("-|-") && NoNewline("```|") && NoNewline("");
    assert NoNewline("```") && NoNewline("c");
  }

  /** It is the same text without its last line, and a newline. */
  lemma FencedInit() returns (init: seq<string>)
    ensures init == TABLE + ["```", "c"] && TABLE + CODE == init + [""]
    ensures EndsLine(Unlines(init)) && Unlines(init) != "" && Complete(Unlines(init)) == init
    ensures FENCED == Unlines(init) + "\n"
  {
    init := TABLE + ["```", "c"];
    FencedLines();
    assert init + [""] == TABLE + CODE;
    CompleteUnlines(init);
    assert (init + [""])[..|init|] == init;
    assert "" + "\n" == "\n";
  }

  lemma FencedIsCut()
    ensures CutAtEnd(FENCED) && Complete(FENCED) == TABLE + CODE
  {
    var init := FencedInit();
    FencedState();
    assert FENCED[..|FENCED| - 1] == Unlines(init);
    assert CutAtEnd(FENCED);
    FencedLines();
    CompleteUnlines(TABLE + CODE);
  }

  lemma FencedTrailing()
    ensures Trailing(FENCED) == 2
  {
    var init := FencedInit();
    LineFacts();
    TrailingByLines(Unlines(init));
    assert init[|init| - 1] == "c";
    TrailingGrows(Unlines(init));
  }

  lemma {:induction false} HeadOfUnlines(lines: seq<string>)
    requires lines != [] && lines[0] != ""
    ensures Unlines(lines) != "" && Unlines(lines)[0] == lines[0][0]
    decreases |lines|
  {
    if |lines| > 1 {
      HeadOfUnlines(lines[..|lines| - 1]);
    }
  }

  lemma FencedRender(p: Painter)
    requires Visible(p) && !p.special("a|b")
    ensures Render(p, FENCED) == TableText(p) + p.code(CODE + [""])
  {
    FencedIsCut();
    LineFacts();
    LinesOfComplete(FENCED);
    assert TABLE + CODE + [""] == TABLE + (CODE + [""]);
    OpenRender(p, "");
  }

  lemma FencedThenRender(p: Painter)
    requires Visible(p) && !p.special("a|b")
    ensures Render(p, FENCED + "d") == TableText(p) + p.code(CODE + ["d"])
  {
    FencedIsCut();
    LineFacts();
    OneLine("d");
    LinesConcat(FENCED, "d");
    assert TABLE + CODE + ["d"] == TABLE + (CODE + ["d"]);
    OpenRender(p, "d");
  }

  lemma LetterRender(p: Painter)
    requires Visible(p)
    ensures Render(p, "d") == p.line("d")
  {
    LineFacts();
    OneLine("d");
    assert TrimSpace("d") == "d" && !BareHeading("d");
    assert ["d"][1..] == [];
    BodyUnfold(p, ["d"], 1, p.line("d"));
    assert p.line("d") + "\n" + "" == p.line("d") + Newlines(1);
    TrimNewlinesOf(p.line("d"), 1);
  }

  lemma SameBehind(x: string, a: string, b: string)
    ensures x + a == x + b <==> a == b
  {
    if x + a == x + b {
      assert (x + a)[|x|..] == a && (x + b)[|x|..] == b;
    }
  }

  /** Cut there, the joined pieces are the whole render only if an open block
      with a line more draws as the block, two newlines and that line. */
  lemma PipedFenceBreaks(p: Painter)
    requires Visible(p) && !p.special("a|b")
    ensures Joined(x => Render(p, x), [FENCED, "d"]) == Render(p, Concat([FENCED, "d"]))
            <==> p.code(CODE + ["d"]) == p.code(CODE + [""]) + Newlines(2) + p.line("d")
  {
    FencedJoined(p);
    FencedThenRender(p);
    ConcatTwo(FENCED, "d");
    BehindTable(TableText(p), p.code(CODE + [""]), p.line("d"), p.code(CODE + ["d"]));
  }

  lemma FencedJoined(p: Painter)
    requires Visible(p) && !p.special("a|b")
    ensures p.code(CODE + [""]) != ""
    ensures Joined(x => Render(p, x), [FENCED, "d"]) == TableText(p) + p.code(CODE + [""]) + Newlines(2) + p.line("d")
  {
    FencedTrailing();
    FencedRender(p);
    LetterRender(p);
    JoinedPair(x => Render(p, x), FENCED, "d");
    assert Solid(p.code(CODE + [""]));
  }

  lemma JoinedPair(draw: string -> string, s: string, t: string)
    ensures Joined(draw, [s, t]) == if draw(s) == "" then draw(t) else draw(s) + Newlines(Trailing(s)) + draw(t)
  {
    ConcatTwo(s, t);
    assert [s][..0] == [];
    assert Joined(draw, [s]) == draw(s);
  }

  lemma BehindTable(x: string, code: string, line: string, whole: string)
    requires code != ""
    ensures x + code != "" && (x + code + Newlines(2) + line == x + whole <==> whole == code + Newlines(2) + line)
  {
    assert x + code + Newlines(2) + line == x + (code + Newlines(2) + line);
    SameBehind(x, whole, code + Newlines(2) + line);
  }

  /** A tick at the end of that text and one with a letter more. */
  lemma PipedFenceRun(paint: int -> Painter, sanitize: string -> string, width: int)
    requires Visible(paint(width - 3)) && !paint(width - 3).special("a|b") && Untouched(sanitize, [FENCED, "d"])
    ensures var draw, ticks := Drawing(paint, sanitize), [Show(FENCED, width, ""), Show(FENCED + "d", width, "")];
            var p := paint(width - 3);
            FrameOf(draw, ticks, 1) == WholeFrame(draw, ticks[1])
            <==> p.code(CODE + ["d"]) == p.code(CODE + [""]) + Newlines(2) + p.line("d")
  {
    FencedIsCut();
    HeadOfUnlines(TABLE + CODE);
    assert (TABLE + CODE)[0] == "a|b";
    PairRun(paint, sanitize, width, FENCED, "d");
    PipedFenceBreaks(paint(width - 3));
  }
}
