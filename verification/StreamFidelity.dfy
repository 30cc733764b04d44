/** What a run of ticks shows against rendering the whole text at once. */
module StreamFidelity {
  import opened Text
  import opened MarkdownBlocks
  import opened StreamBoundary
  import opened StreamTail
  import opened StreamCache
  import Spacing

  // ----- frames and cuts, whatever the drawing -----

  /** The frame that draws the whole text of a tick at once. */
  function WholeFrame(draw: int -> string -> string, t: Tick): string
    requires t.Show?
  {
    Framed(draw(t.width)(TrimLeftNewlines(t.partial)))
  }

  /** The pieces drawn one by one and joined are the text drawn at once. */
  ghost predicate ExactCut(draw: string -> string, xs: seq<string>) {
    Joined(draw, xs) == draw(Concat(xs))
  }

  lemma FramedInjective(a: string, b: string)
    ensures Framed(a) == Framed(b) <==> a == b
  {
    if Framed(a) == Framed(b) {
      assert |a| == |b|;
      forall i | 0 <= i < |a| ensures a[i] == b[i] {
        assert Framed(a)[|ROBOT| + i] == a[i] && Framed(b)[|ROBOT| + i] == b[i];
      }
    }
  }

  /** A tick shows the whole drawing exactly when its cut is exact. */
  lemma FrameIsWholeIff(draw: int -> string -> string, s: Stage, t: Tick)
    requires Foldable(s.pieces) && t.Show? && TrimLeftNewlines(t.partial) != ""
    ensures FrameAt(draw, s, t) == WholeFrame(draw, t) <==> ExactCut(draw(t.width), PiecesAt(s, t))
  {
    var xs := PiecesAt(s, t);
    FramedInjective(Joined(draw(t.width), xs), draw(t.width)(Concat(xs)));
  }

  // ----- which cuts a run can show -----

  ghost predicate Paced(xs: seq<string>) {
    && xs != [] && WellCut(xs) && xs[0][0] != '\n' && xs[0][0] != '\r'
    && (forall k :: 0 <= k < |xs| - 1 ==> |xs[k]| >= 2)
  }

  /** The cuts of a text that some run of ticks arrives at: between joins lie two
      characters or more, and the tail after the last join has no boundary that
      the scan would still find. */
  ghost predicate Reachable(xs: seq<string>) {
    && Paced(xs)
    && var from := |Concat(xs[..|xs| - 1])|; Boundary(Concat(xs), from) in {from, |Concat(xs)|}
  }

  /** A tick for each join, and one for the whole. */
  function TicksFor(xs: seq<string>, width: int): seq<Tick> {
    seq(|xs|, k requires 0 <= k < |xs| => Show(Concat(xs[..k + 1]), width, ""))
  }

  lemma FoldsWhole(init: seq<string>, x: string)
    requires CutAtEnd(Concat(init) + x) && |x| >= 2
    ensures Folded(init, Concat(init) + x) == init + [x]
  {
    var raw, from := Concat(init) + x, |Concat(init)|;
    assert Found(raw, from, |raw|);
    assert raw[from..|raw|] == x;
  }

  lemma HeadOf(xs: seq<string>, k: nat)
    requires Paced(xs) && 0 < k <= |xs|
    ensures TrimLeftNewlines(Concat(xs[..k])) == Concat(xs[..k]) != ""
  {
    ConcatHead(xs[..k]);
    assert xs[..k][0] == xs[0] && Concat(xs[..k])[0] == xs[0][0];
  }

  /** A tick that ends at a boundary folds what is new as one piece. */
  lemma TickFolds(s: Stage, t: Tick, x: string)
    requires t.Show? && TrimLeftNewlines(t.partial) == Concat(s.pieces) + x && (s.pieces == [] || s.width == t.width)
    requires CutAtEnd(Concat(s.pieces) + x) && |x| >= 2
    ensures After(s, t) == Stage(s.pieces + [x], t.width)
  {
    FoldsWhole(s.pieces, x);
  }

  lemma PieceFolds(xs: seq<string>, k: nat, s: Stage, t: Tick)
    requires t.Show? && Paced(xs) && k + 1 < |xs| && t.partial == Concat(xs[..k + 1])
    requires s.pieces == xs[..k] && (k > 0 ==> s.width == t.width)
    ensures After(s, t) == Stage(xs[..k + 1], t.width)
  {
    ConcatTo(xs, k);
    HeadOf(xs, k + 1);
    assert CutAtEnd(Concat(xs[..k + 1]));
    assert xs[..k + 1] == xs[..k] + [xs[k]];
    TickFolds(s, t, xs[k]);
  }

  lemma {:induction false} StageReached(xs: seq<string>, width: int, ticks: seq<Tick>, k: nat)
    requires Paced(xs) && k < |xs| && ticks == TicksFor(xs, width)
    ensures var s := StageAfter(ticks[..k]); s.pieces == xs[..k] && (k > 0 ==> s.width == width)
    decreases k
  {
    if k > 0 {
      StageReached(xs, width, ticks, k - 1);
      StageStep(ticks, k - 1);
      PieceFolds(xs, k - 1, StageAfter(ticks[..k - 1]), ticks[k - 1]);
    }
  }

  /** What is shown of the pieces and a last one, folded or not. */
  lemma ShownWithLast(pieces: seq<string>, x: string, raw: string)
    requires raw == Concat(pieces) + x && x != ""
    ensures Concat(pieces) <= raw && Shown(pieces, raw) == pieces + [x]
    ensures Concat(pieces + [x]) == raw && Shown(pieces + [x], raw) == pieces + [x]
  {
    assert raw[|Concat(pieces)|..] == x && raw[|raw|..] == "";
    PiecePushed(pieces, x);
  }

  lemma FoldedOrNot(pieces: seq<string>, x: string, raw: string)
    requires raw == Concat(pieces) + x && Boundary(raw, |Concat(pieces)|) in {|Concat(pieces)|, |raw|}
    ensures Folded(pieces, raw) in {pieces, pieces + [x]}
  {
    assert raw[|Concat(pieces)|..|raw|] == x;
  }

  /** The last tick shows the pieces so far and the last one. */
  lemma TickShows(s: Stage, t: Tick, x: string, raw: string)
    requires Foldable(s.pieces) && t.Show? && (s.pieces == [] || s.width == t.width) && x != ""
    requires raw == TrimLeftNewlines(t.partial) == Concat(s.pieces) + x
    requires Boundary(raw, |Concat(s.pieces)|) in {|Concat(s.pieces)|, |raw|}
    ensures PiecesAt(s, t) == s.pieces + [x]
  {
    ShownWithLast(s.pieces, x, raw);
    FoldedOrNot(s.pieces, x, raw);
    assert Carried(s, raw, t.width) == s.pieces;
  }

  /** Every such cut is shown by its ticks. */
  lemma CutIsReached(draw: int -> string -> string, xs: seq<string>, width: int)
    requires Reachable(xs)
    ensures FrameOf(draw, TicksFor(xs, width), |xs| - 1) == Framed(Joined(draw(width), xs))
  {
    var ticks, n := TicksFor(xs, width), |xs| - 1;
    StageReached(xs, width, ticks, n);
    LastPieceShown(xs, StageAfter(ticks[..n]), ticks[n]);
  }

  lemma LastPieceShown(xs: seq<string>, s: Stage, t: Tick)
    requires t.Show? && Reachable(xs) && t.partial == Concat(xs[..|xs|])
    requires Foldable(s.pieces) && s.pieces == xs[..|xs| - 1] && (|xs| > 1 ==> s.width == t.width)
    ensures TrimLeftNewlines(t.partial) != "" && PiecesAt(s, t) == xs
  {
    var n := |xs| - 1;
    var init, x := LastPiece(xs);
    HeadOf(xs, n + 1);
    TickShows(s, t, x, Concat(xs));
  }

  lemma LastPiece(xs: seq<string>) returns (init: seq<string>, x: string)
    requires xs != []
    ensures init == xs[..|xs| - 1] && x == xs[|xs| - 1] && xs == init + [x] && xs[..|xs|] == xs
    ensures Concat(xs) == Concat(init) + x
  {
    init, x := xs[..|xs| - 1], xs[|xs| - 1];
  }

  // ----- and only those -----

  ghost predicate Spaced(pieces: seq<string>) {
    forall k :: 0 <= k < |pieces| ==> |pieces[k]| >= 2
  }

  lemma FoldedIsSpaced(pieces: seq<string>, raw: string)
    requires Spaced(pieces) && Concat(pieces) <= raw
    ensures Spaced(Folded(pieces, raw))
  {
    assert Found(raw, |Concat(pieces)|, Boundary(raw, |Concat(pieces)|));
  }

  lemma AfterIsSpaced(s: Stage, t: Tick)
    requires Spaced(s.pieces)
    ensures Spaced(After(s, t).pieces)
  {
    if t.Show? && TrimLeftNewlines(t.partial) != "" {
      var raw := TrimLeftNewlines(t.partial);
      FoldedIsSpaced(Carried(s, raw, t.width), raw);
    }
  }

  lemma {:induction false} StageIsSpaced(ticks: seq<Tick>)
    ensures Spaced(StageAfter(ticks).pieces)
    decreases |ticks|
  {
    if ticks != [] {
      StageIsSpaced(ticks[..|ticks| - 1]);
      AfterIsSpaced(StageAfter(ticks[..|ticks| - 1]), ticks[|ticks| - 1]);
    }
  }

  lemma TrimmedHead(s: string)
    ensures var t := TrimLeftNewlines(s); t != "" ==> t[0] != '\n' && t[0] != '\r'
  {
  }

  /** After a fold no boundary is left for the scan. */
  lemma FoldedIsDone(pieces: seq<string>, raw: string)
    requires Foldable(pieces) && Concat(pieces) <= raw
    ensures var b := |Concat(Folded(pieces, raw))|; Boundary(raw, b) == b
  {
    var from := |Concat(pieces)|;
    var b := Boundary(raw, from);
    FoldedIsFoldable(pieces, raw);
    assert Found(raw, from, b);
    assert Found(raw, b, b);
  }

  /** With a tail: the scan stops at the last join. */
  lemma ReachableWithTail(pieces: seq<string>, raw: string)
    requires Foldable(pieces) && Spaced(pieces) && Concat(pieces) < raw
    requires raw[0] != '\n' && raw[0] != '\r' && Boundary(raw, |Concat(pieces)|) == |Concat(pieces)|
    ensures Reachable(Shown(pieces, raw))
  {
    var xs := Shown(pieces, raw);
    ShownIsWellCut(pieces, raw);
    ConcatHead(xs);
    assert xs[..|xs| - 1] == pieces;
  }

  /** Without one: the last piece goes up to the end. */
  lemma ReachableWithoutTail(pieces: seq<string>, raw: string)
    requires Foldable(pieces) && Spaced(pieces) && Concat(pieces) == raw != ""
    requires raw[0] != '\n' && raw[0] != '\r'
    ensures Shown(pieces, raw) == pieces && Reachable(pieces)
  {
    ConcatHead(pieces);
    var init := pieces[..|pieces| - 1];
    assert Found(raw, |Concat(init)|, |raw|);
  }

  lemma ShownFrom(pieces: seq<string>, raw: string)
    requires Foldable(pieces) && Spaced(pieces) && Concat(pieces) <= raw != "" && raw[0] != '\n' && raw[0] != '\r'
    requires Boundary(raw, |Concat(pieces)|) == |Concat(pieces)|
    ensures Reachable(Shown(pieces, raw))
  {
    if Concat(pieces) == raw {
      ReachableWithoutTail(pieces, raw);
    } else {
      ReachableWithTail(pieces, raw);
    }
  }

  /** A run shows its text in no other cuts. */
  lemma ShownIsReachable(ticks: seq<Tick>, t: Tick)
    requires t.Show? && TrimLeftNewlines(t.partial) != ""
    ensures Reachable(PiecesAt(StageAfter(ticks), t))
  {
    StageIsSpaced(ticks);
    TickIsReachable(StageAfter(ticks), t, TrimLeftNewlines(t.partial));
  }

  lemma TickIsReachable(s: Stage, t: Tick, raw: string)
    requires Foldable(s.pieces) && Spaced(s.pieces) && t.Show? && raw == TrimLeftNewlines(t.partial) != ""
    ensures Reachable(PiecesAt(s, t))
  {
    AfterIsSpaced(s, t);
    AfterIsFoldable(s, t);
    FoldedIsDone(Carried(s, raw, t.width), raw);
    TrimmedHead(t.partial);
    ShownFrom(After(s, t).pieces, raw);
  }

  // ----- texts that every run shows exactly -----

  /** A tick of a run shows `raw`. */
  ghost predicate Shows(ticks: seq<Tick>, i: nat, raw: string, width: int) {
    i < |ticks| && ticks[i].Show? && TrimLeftNewlines(ticks[i].partial) == raw && ticks[i].width == width
  }

  ghost predicate AlwaysWhole(draw: int -> string -> string, raw: string, width: int) {
    forall ticks: seq<Tick>, i: nat | Shows(ticks, i, raw, width) ::
      FrameOf(draw, ticks, i) == WholeFrame(draw, ticks[i])
  }

  lemma ReachedCutIsExact(draw: int -> string -> string, raw: string, width: int, xs: seq<string>)
    requires Reachable(xs) && Concat(xs) == raw && AlwaysWhole(draw, raw, width)
    ensures ExactCut(draw(width), xs)
  {
    var ticks, n := TicksFor(xs, width), |xs| - 1;
    HeadOf(xs, n + 1);
    assert xs[..n + 1] == xs;
    assert Shows(ticks, n, raw, width);
    CutIsReached(draw, xs, width);
    FramedInjective(Joined(draw(width), xs), draw(width)(raw));
  }

  /** Every run, whatever its chunks, widths, restarts and invalidations, shows a
      text as if it were drawn at once if and only if every cut of the text that
      the scan can arrive at is exact. */
  lemma AlwaysWholeIff(draw: int -> string -> string, raw: string, width: int)
    requires raw != ""
    ensures AlwaysWhole(draw, raw, width) <==>
            forall xs :: Reachable(xs) && Concat(xs) == raw ==> ExactCut(draw(width), xs)
  {
    if AlwaysWhole(draw, raw, width) {
      forall xs | Reachable(xs) && Concat(xs) == raw ensures ExactCut(draw(width), xs) {
        ReachedCutIsExact(draw, raw, width, xs);
      }
    }
    if forall xs :: Reachable(xs) && Concat(xs) == raw ==> ExactCut(draw(width), xs) {
      forall ticks: seq<Tick>, i: nat | Shows(ticks, i, raw, width)
        ensures FrameOf(draw, ticks, i) == WholeFrame(draw, ticks[i])
      {
        ShownIsReachable(ticks[..i], ticks[i]);
        FrameIsWholeIff(draw, StageAfter(ticks[..i]), ticks[i]);
      }
    }
  }

  // ----- the source's drawing -----

  /** How the source draws a text: sanitized, then rendered three columns narrower. */
  function Drawing(paint: int -> Painter, sanitize: string -> string): int -> string -> string {
    width => text => Render(paint(width - 3), sanitize(text))
  }

  /** The sanitizers change neither the whole nor a piece. */
  ghost predicate Untouched(sanitize: string -> string, xs: seq<string>) {
    sanitize(Concat(xs)) == Concat(xs) && forall k :: 0 <= k < |xs| ==> sanitize(xs[k]) == xs[k]
  }

  lemma {:induction false} JoinedCongruent(f: string -> string, g: string -> string, xs: seq<string>)
    requires forall k :: 0 <= k < |xs| ==> f(xs[k]) == g(xs[k])
    ensures Joined(f, xs) == Joined(g, xs)
    decreases |xs|
  {
    if xs != [] {
      var init := xs[..|xs| - 1];
      forall k | 0 <= k < |init| ensures f(init[k]) == g(init[k]) {
        assert init[k] == xs[k];
      }
      JoinedCongruent(f, g, init);
    }
  }

  lemma DrawingOf(paint: int -> Painter, sanitize: string -> string, width: int, x: string)
    requires sanitize(x) == x
    ensures Drawing(paint, sanitize)(width)(x) == Render(paint(width - 3), x)
  {
  }

  lemma JoinedDrawing(paint: int -> Painter, sanitize: string -> string, width: int, xs: seq<string>)
    requires Untouched(sanitize, xs)
    ensures Joined(Drawing(paint, sanitize)(width), xs) == Joined(x => Render(paint(width - 3), x), xs)
  {
    var f, g := Drawing(paint, sanitize)(width), x => Render(paint(width - 3), x);
    forall k | 0 <= k < |xs| ensures f(xs[k]) == g(xs[k]) {
      DrawingOf(paint, sanitize, width, xs[k]);
    }
    JoinedCongruent(f, g, xs);
  }

  /** A cut of a text is exact if and only if the row of its pieces is level,
      whatever the painter. */
  lemma CutExactIff(paint: int -> Painter, sanitize: string -> string, width: int, xs: seq<string>)
    requires WellCut(xs) && Untouched(sanitize, xs) && SettledSeams(paint(width - 3), xs)
    ensures ExactCut(Drawing(paint, sanitize)(width), xs) <==> Spacing.Level(RowOf(paint(width - 3), xs))
  {
    var p := paint(width - 3);
    JoinedDrawing(paint, sanitize, width, xs);
    DrawingOf(paint, sanitize, width, Concat(xs));
    JoinedIsRenderIff(p, xs);
  }

  // ----- hypotheses on the text -----

  ghost predicate IsEnd(raw: string, j: nat) {
    j == |raw| || IsBoundary(raw, j)
  }

  /** The sanitizers have nothing to change in the text between any two boundaries. */
  ghost predicate Clean(sanitize: string -> string, raw: string) {
    forall i, j :: 0 <= i <= j <= |raw| && IsStart(raw, i) && IsEnd(raw, j) ==> sanitize(raw[i..j]) == raw[i..j]
  }

  /** A join is at a boundary of the whole text. */
  lemma JoinIsBoundary(xs: seq<string>, k: nat)
    requires WellCut(xs) && 0 < k < |xs|
    ensures |Concat(xs[..k])| <= |Concat(xs)| && IsBoundary(Concat(xs), |Concat(xs[..k])|)
    ensures Concat(xs)[..|Concat(xs[..k])|] == Concat(xs[..k])
  {
    ConcatSplits(xs, k);
    var raw, b := Concat(xs), |Concat(xs[..k])|;
    assert raw[..b] == Concat(xs[..k]);
    BoundaryOfPrefix(raw, b);
  }

  lemma PieceIsPart(xs: seq<string>, k: nat)
    requires WellCut(xs) && k < |xs|
    ensures var i, j := |Concat(xs[..k])|, |Concat(xs[..k + 1])|;
            0 <= i <= j <= |Concat(xs)| && IsStart(Concat(xs), i) && IsEnd(Concat(xs), j) && Concat(xs)[i..j] == xs[k]
  {
    AroundPiece(xs, k);
    if k > 0 {
      JoinIsBoundary(xs, k);
    }
    if k + 1 < |xs| {
      JoinIsBoundary(xs, k + 1);
    } else {
      assert xs[..k + 1] == xs;
    }
  }

  lemma CleanPieces(sanitize: string -> string, xs: seq<string>)
    requires WellCut(xs) && Clean(sanitize, Concat(xs))
    ensures Untouched(sanitize, xs)
  {
    var raw := Concat(xs);
    assert raw[0..|raw|] == raw;
    forall k | 0 <= k < |xs| ensures sanitize(xs[k]) == xs[k] {
      PieceIsPart(xs, k);
    }
  }

  /** At no boundary the renderer has a code block open. */
  ghost predicate SettledText(p: Painter, raw: string) {
    forall b :: 0 <= b <= |raw| && IsBoundary(raw, b) ==> Settled(p, Complete(raw[..b]))
  }

  lemma SettledCut(p: Painter, xs: seq<string>)
    requires WellCut(xs) && SettledText(p, Concat(xs))
    ensures SettledSeams(p, xs)
  {
    forall k | 0 < k < |xs| ensures Settled(p, Complete(Concat(xs[..k]))) {
      JoinIsBoundary(xs, k);
    }
  }

  /** A text in which no fence line has a pipe is settled. */
  lemma UnpipedIsSettled(p: Painter, raw: string)
    requires Unpiped(Lines(raw))
    ensures SettledText(p, raw)
  {
    forall b | 0 <= b <= |raw| && IsBoundary(raw, b) ensures Settled(p, Complete(raw[..b])) {
      var pre, rest := raw[..b], raw[b..];
      BoundaryClosed(raw, b);
      assert raw == pre + rest;
      LinesConcat(pre, rest);
      var c, lines := Complete(pre), Lines(raw);
      forall i | 0 <= i < |c| && Opens(c[i]) ensures !HasPipe(c[i]) {
        assert c[i] == lines[i];
      }
      ClosedIsSettled(p, c);
    }
  }

  // ----- a condition on the lines alone -----

  /** The lines of a text, without the empty fragment after a final newline. */
  function RealLines(raw: string): seq<string> {
    if EndsLine(raw) then Complete(raw) else Lines(raw)
  }

  /** It starts with a line that is seen, has no two silent lines in a row, and
      its blank lines are plain. */
  ghost predicate Tidy(p: Painter, raw: string) {
    var lines := RealLines(raw);
    && lines != [] && !Silent(p, lines[0])
    && (forall i :: 0 < i < |lines| ==> !Silent(p, lines[i - 1]) || !Silent(p, lines[i]))
    && (forall i :: 0 <= i < |lines| && Blank(lines[i]) ==> PlainBlank(lines[i]))
  }

  /** A text and what follows it share their first line, if a newline ends it. */
  lemma FirstLineStays(x: string, rest: string)
    requires x != "" && (rest == "" || EndsLine(x))
    ensures Lines(x + rest)[0] == Lines(x)[0]
    ensures RealLines(x + rest) != [] && RealLines(x + rest)[0] == Lines(x)[0]
  {
    var n := FirstNewline(x);
    if n == |x| {
      assert x + rest == x;
    } else {
      FirstNewlineUnique(x + rest, n);
      assert (x + rest)[..n] == x[..n];
      assert |Lines(x + rest)| > 1;
    }
    if EndsLine(x + rest) {
      EndsLineHasNewline(x + rest);
    }
  }

  lemma RealLinesConcat(pre: string, t: string)
    requires EndsLine(pre) && t != ""
    ensures RealLines(pre + t) == Complete(pre) + RealLines(t)
  {
    LinesConcat(pre, t);
    CompleteConcat(pre, t);
    assert (pre + t)[|pre + t| - 1] == t[|t| - 1];
  }

  lemma AroundPiece(xs: seq<string>, k: nat)
    requires k < |xs|
    ensures Concat(xs) == Concat(xs[..k]) + (xs[k] + Concat(xs[k + 1..]))
    ensures Concat(xs[..k + 1]) == Concat(xs[..k]) + xs[k]
  {
    ConcatSplits(xs, k);
    ConcatHead(xs[k..]);
    assert xs[k..][1..] == xs[k + 1..];
    assert xs[..k + 1][..k] == xs[..k];
  }

  /** Everything before a piece ends in a blank line. */
  lemma BeforePiece(xs: seq<string>, k: nat)
    requires WellCut(xs) && k < |xs|
    ensures var pre := Concat(xs[..k]);
            EndsLine(pre) && (k > 0 ==> Complete(pre) != [] && Blank(Complete(pre)[|Complete(pre)| - 1]))
  {
    if k > 0 {
      var pre := Concat(xs[..k]);
      BoundaryClosed(pre, |pre|);
      assert pre[..|pre|] == pre;
    }
  }

  /** A newline ends every piece but the last. */
  lemma PieceEndsLine(xs: seq<string>, k: nat)
    requires WellCut(xs) && k < |xs|
    ensures Concat(xs[k + 1..]) == "" || EndsLine(xs[k])
  {
    if k + 1 < |xs| {
      AroundPiece(xs, k);
      var next := Concat(xs[..k + 1]);
      assert CutAtEnd(next);
      assert next[|next| - 1] == xs[k][|xs[k]| - 1];
    } else {
      assert xs[k + 1..] == [];
    }
  }

  /** Piece `k` starts with the line that follows everything before it. */
  lemma PieceStarts(xs: seq<string>, k: nat)
    requires WellCut(xs) && k < |xs|
    ensures var c, lines := Complete(Concat(xs[..k])), RealLines(Concat(xs));
            |c| < |lines| && c <= lines && lines[|c|] == Lines(xs[k])[0]
            && (k > 0 ==> c != [] && Blank(c[|c| - 1]))
  {
    var pre, rest := Concat(xs[..k]), Concat(xs[k + 1..]);
    BeforePiece(xs, k);
    PieceEndsLine(xs, k);
    AroundPiece(xs, k);
    FirstLineStays(xs[k], rest);
    RealLinesConcat(pre, xs[k] + rest);
  }

  /** Wherever a tidy text is cut, every piece starts with a line that is seen. */
  lemma TidyPieceIsInky(p: Painter, xs: seq<string>, k: nat)
    requires Visible(p) && WellCut(xs) && Tidy(p, Concat(xs)) && k < |xs|
    ensures Inky(p, xs[k])
  {
    PieceStarts(xs, k);
    if k == 0 {
      assert xs[..0] == [];
    }
    assert !Silent(p, Lines(xs[k])[0]);
    InkyIff(p, xs[k]);
  }

  /** And the one silent line before each join is plain. */
  lemma TidySeamIsEven(p: Painter, xs: seq<string>, k: nat)
    requires Visible(p) && WellCut(xs) && Tidy(p, Concat(xs)) && SettledSeams(p, xs) && 0 < k < |xs|
    ensures Trailing(Concat(xs[..k])) == GapAfter(p, Concat(xs[..k]))
  {
    var pre := Concat(xs[..k]);
    var c := Complete(pre);
    PieceStarts(xs, k);
    BeforePiece(xs, k);
    if |c| > 1 {
      assert Silent(p, c[|c| - 1]) && !Silent(p, c[|c| - 2]);
    }
    EvenSeamIff(p, pre);
  }

  lemma TidyCutIsExact(p: Painter, xs: seq<string>)
    requires Visible(p) && WellCut(xs) && Tidy(p, Concat(xs)) && SettledSeams(p, xs)
    ensures Joined(x => Render(p, x), xs) == Render(p, Concat(xs))
  {
    forall k | 0 <= k < |xs| ensures Inky(p, xs[k]) {
      TidyPieceIsInky(p, xs, k);
    }
    forall k | 0 < k < |xs| ensures Trailing(Concat(xs[..k])) == GapAfter(p, Concat(xs[..k])) {
      TidySeamIsEven(p, xs, k);
    }
    InkyJoinedIsRenderIff(p, xs);
  }

  lemma TidyDrawnExactly(paint: int -> Painter, sanitize: string -> string, width: int, xs: seq<string>)
    requires var p, raw := paint(width - 3), Concat(xs);
             Visible(p) && Clean(sanitize, raw) && SettledText(p, raw) && Tidy(p, raw)
    requires WellCut(xs)
    ensures ExactCut(Drawing(paint, sanitize)(width), xs)
  {
    CleanPieces(sanitize, xs);
    SettledCut(paint(width - 3), xs);
    TidyCutIsExact(paint(width - 3), xs);
    JoinedDrawing(paint, sanitize, width, xs);
    DrawingOf(paint, sanitize, width, Concat(xs));
  }

  lemma TidyIsNotEmpty(p: Painter, raw: string)
    requires Tidy(p, raw)
    ensures raw != ""
  {
  }

  /** Whatever chunks, widths, restarts and invalidations came before, a frame of
      a tidy text is the whole text rendered at once. */
  lemma TidyIsAlwaysWhole(paint: int -> Painter, sanitize: string -> string, raw: string, width: int)
    requires var p := paint(width - 3);
             Visible(p) && Clean(sanitize, raw) && SettledText(p, raw) && Tidy(p, raw)
    ensures AlwaysWhole(Drawing(paint, sanitize), raw, width)
  {
    TidyIsNotEmpty(paint(width - 3), raw);
    forall xs | Reachable(xs) && Concat(xs) == raw ensures ExactCut(Drawing(paint, sanitize)(width), xs) {
      TidyDrawnExactly(paint, sanitize, width, xs);
    }
    AlwaysWholeIff(Drawing(paint, sanitize), raw, width);
  }
}
