/** The block loop of `renderMarkdown` (cmd/markdown.go): which lines form a
    fenced code block, a table or a block of their own, and how the blocks'
    outputs are joined. Styling one block is left to a painter. */
module MarkdownBlocks {
  import opened Text

  /** How one block is drawn, at some width: a single line, a fenced block and a
      table. `special` holds of horizontal rules, headings and quotes, which are
      tried before tables. Nothing is asked of what is drawn. */
  datatype Painter = Painter(
    line: string -> string,
    code: seq<string> -> string,
    table: seq<string> -> string,
    special: string -> bool)

  predicate Opens(l: string) {
    "```" <= TrimSpace(l)
  }

  predicate Closes(l: string) {
    TrimSpace(l) == "```"
  }

  predicate HasPipe(l: string) {
    '|' in l
  }

  // ----- separator rows of tables -----

  function FirstPipe(s: string): (n: nat)
    ensures n <= |s| && (s != "" && s[0] != '|' ==> n > 0)
  {
    if s == "" || s[0] == '|' then 0 else 1 + FirstPipe(s[1..])
  }

  /** `strings.Split(s, "|")`. */
  function Cells(s: string): seq<string>
    decreases |s|
  {
    var n := FirstPipe(s);
    if n == |s| then [s] else [s[..n]] + Cells(s[n + 1..])
  }

  /** A trimmed row without the pipes at its ends. */
  function Unbordered(t: string): string {
    var a := if t != "" && t[0] == '|' then t[1..] else t;
    if a != "" && a[|a| - 1] == '|' then a[..|a| - 1] else a
  }

  function Uncoloned(c: string): string {
    var a := if c != "" && c[0] == ':' then c[1..] else c;
    if a != "" && a[|a| - 1] == ':' then a[..|a| - 1] else a
  }

  /** Dashes with an optional colon at each end. */
  predicate SeparatorCell(c: string) {
    var b := Uncoloned(c);
    b != "" && forall i :: 0 <= i < |b| ==> b[i] == '-'
  }

  predicate Separator(l: string) {
    var t := TrimSpace(l);
    t != "" && '-' in t
    && var cells := Cells(Unbordered(t)); forall i :: 0 <= i < |cells| ==> SeparatorCell(TrimSpace(cells[i]))
  }

  lemma TrimKeepsHead(s: string)
    requires s != "" && !IsSpace(s[0])
    ensures TrimSpace(s) != "" && TrimSpace(s)[0] == s[0]
    decreases |s|
  {
    if |s| > 1 && IsSpace(s[|s| - 1]) {
      TrimKeepsHead(s[..|s| - 1]);
    }
  }

  /** The cells with pipes between them. */
  function Piped(cells: seq<string>): string
    requires cells != []
  {
    if |cells| == 1 then cells[0] else cells[0] + "|" + Piped(cells[1..])
  }

  /** The cells of a row put together again are the row, and none has a pipe. */
  lemma {:induction false} CellsMean(s: string)
    ensures Piped(Cells(s)) == s && forall i :: 0 <= i < |Cells(s)| ==> '|' !in Cells(s)[i]
    decreases |s|
  {
    var n := FirstPipe(s);
    FirstPipeMeans(s);
    if n < |s| {
      CellsMean(s[n + 1..]);
      assert s == s[..n] + "|" + s[n + 1..];
      assert Cells(s)[1..] == Cells(s[n + 1..]);
    }
  }

  lemma {:induction false} FirstPipeMeans(s: string)
    ensures var n := FirstPipe(s); (n < |s| ==> s[n] == '|') && '|' !in s[..n]
    decreases |s|
  {
    if s != "" && s[0] != '|' {
      FirstPipeMeans(s[1..]);
      var n := FirstPipe(s);
      assert s[..n] == [s[0]] + s[1..][..n - 1];
    }
  }

  lemma {:induction false} FirstPipeBehind(c: string, rest: string)
    requires '|' !in c
    ensures FirstPipe(c + "|" + rest) == |c| && FirstPipe(c) == |c|
    decreases |c|
  {
    if c != "" {
      assert (c + "|" + rest)[1..] == c[1..] + "|" + rest;
      FirstPipeBehind(c[1..], rest);
    }
  }

  /** And there are no other cells. */
  lemma {:induction false} CellsOfPiped(cells: seq<string>)
    requires cells != [] && forall i :: 0 <= i < |cells| ==> '|' !in cells[i]
    ensures Cells(Piped(cells)) == cells
    decreases |cells|
  {
    if |cells| == 1 {
      FirstPipeBehind(cells[0], "");
    } else {
      var c, rest := cells[0], Piped(cells[1..]);
      CellsOfPiped(cells[1..]);
      FirstPipeBehind(c, rest);
      var s := c + "|" + rest;
      assert s[..|c|] == c && s[|c| + 1..] == rest;
      assert cells == [c] + cells[1..];
    }
  }

  /** A separator row: cells between pipes, with or without a pipe at either end, and
      all of them dashes with their colons. */
  lemma SeparatorMeans(l: string, cells: seq<string>)
    requires cells != [] && (forall i :: 0 <= i < |cells| ==> '|' !in cells[i]) && Piped(cells) == Unbordered(TrimSpace(l))
    ensures Separator(l) <==>
            '-' in TrimSpace(l) && forall i :: 0 <= i < |cells| ==> SeparatorCell(TrimSpace(cells[i]))
  {
    CellsOfPiped(cells);
  }

  /** What is between the pipes at the ends of a trimmed row. */
  lemma UnborderedMeans(t: string)
    ensures var u := Unbordered(t); t in {u, "|" + u, u + "|", "|" + u + "|"}
  {
    var a := if t != "" && t[0] == '|' then t[1..] else t;
    var b := Unbordered(t);
    assert t == a || t == "|" + a;
    assert a == b || a == b + "|";
    assert "|" + (b + "|") == "|" + b + "|";
  }

  /** Pipes at the ends make no difference. */
  lemma BordersGo(u: string)
    requires u != "" && u[0] != '|' && u[|u| - 1] != '|'
    ensures Unbordered(u) == Unbordered("|" + u) == u
    ensures Unbordered(u + "|") == Unbordered("|" + (u + "|")) == u
  {
    var t := u + "|";
    assert t[..|t| - 1] == u && ("|" + u)[1..] == u && ("|" + t)[1..] == t;
  }

  function Dashes(n: nat): (s: string)
    ensures |s| == n && forall i :: 0 <= i < n ==> s[i] == '-'
  {
    seq(n, _ => '-')
  }

  lemma ColonsAround(c: string)
    ensures var b := Uncoloned(c); c in {b, ":" + b, b + ":", ":" + b + ":"}
  {
    var a := if c != "" && c[0] == ':' then c[1..] else c;
    var b := Uncoloned(c);
    assert c == a || c == ":" + a;
    assert a == b || a == b + ":";
    assert ":" + (b + ":") == ":" + b + ":";
  }

  /** One dash or more, with a colon before, behind, on both sides or on none. */
  lemma SeparatorCellMeans(c: string)
    ensures SeparatorCell(c) <==>
            exists n: nat :: n > 0 && c in {Dashes(n), ":" + Dashes(n), Dashes(n) + ":", ":" + Dashes(n) + ":"}
  {
    if SeparatorCell(c) {
      var n := |Uncoloned(c)|;
      ColonsAround(c);
      assert Uncoloned(c) == Dashes(n);
      assert c in {Dashes(n), ":" + Dashes(n), Dashes(n) + ":", ":" + Dashes(n) + ":"};
    }
    if exists n: nat :: n > 0 && c in {Dashes(n), ":" + Dashes(n), Dashes(n) + ":", ":" + Dashes(n) + ":"} {
      var n: nat :| n > 0 && c in {Dashes(n), ":" + Dashes(n), Dashes(n) + ":", ":" + Dashes(n) + ":"};
      assert Uncoloned(c) == Dashes(n);
    }
  }

  lemma NoSeparatorCell(c: string)
    requires c != "" && c[0] == '`'
    ensures !SeparatorCell(c)
  {
    assert Uncoloned(c)[0] == c[0];
  }

  lemma SeparatorIsNoFence(l: string)
    requires Separator(l)
    ensures !Blank(l) && !Opens(l)
  {
    var t := TrimSpace(l);
    if Opens(l) {
      assert t[..3] == "```";
      assert t[0] == '`' && t[1] == '`';
      var cell := Cells(Unbordered(t))[0];
      assert cell != "" && cell[0] == '`';
      TrimKeepsHead(cell);
      NoSeparatorCell(TrimSpace(cell));
    }
  }

  // ----- the block loop -----

  /** First closing fence after the opener, or the last line. */
  function CloseFrom(lines: seq<string>, k: nat): (e: nat)
    requires 0 < k <= |lines|
    ensures k - 1 <= e < |lines|
    ensures e < |lines| - 1 ==> Closes(lines[e])
    decreases |lines| - k
  {
    if k == |lines| then |lines| - 1
    else if Closes(lines[k]) then k
    else CloseFrom(lines, k + 1)
  }

  /** First line from `k` on without a pipe, or the end. */
  function RowsEnd(lines: seq<string>, k: nat): (e: nat)
    requires k <= |lines|
    ensures k <= e <= |lines|
    ensures forall i :: k <= i < e ==> HasPipe(lines[i])
    decreases |lines| - k
  {
    if k < |lines| && HasPipe(lines[k]) then RowsEnd(lines, k + 1) else k
  }

  predicate StartsTable(p: Painter, lines: seq<string>)
    requires lines != []
  {
    !p.special(lines[0]) && HasPipe(lines[0]) && |lines| > 1 && Separator(lines[1])
  }

  /** Number of lines in the first block. */
  function BlockLength(p: Painter, lines: seq<string>): (n: nat)
    requires lines != []
    ensures 0 < n <= |lines|
  {
    if Opens(lines[0]) then CloseFrom(lines, 1) + 1
    else if StartsTable(p, lines) then RowsEnd(lines, 2)
    else 1
  }

  /** How the first block, of `n` lines, is drawn. */
  function BlockText(p: Painter, lines: seq<string>): string
    requires lines != []
  {
    var block := lines[..BlockLength(p, lines)];
    if Opens(lines[0]) then p.code(block)
    else if StartsTable(p, lines) then p.table(block)
    else if Blank(lines[0]) then ""
    else p.line(lines[0])
  }

  /** Everything the loop writes, before the final trim. */
  function Body(p: Painter, lines: seq<string>): string
    decreases |lines|
  {
    if lines == [] then ""
    else BlockText(p, lines) + "\n" + Body(p, lines[BlockLength(p, lines)..])
  }

  function Render(p: Painter, raw: string): string {
    TrimNewlines(Body(p, Lines(raw)))
  }

  /** One round of the loop: the block at `i` is written; `todo` is what is left. */
  method WriteBlock(p: Painter, lines: seq<string>, i: nat, result0: string, ghost todo0: string)
    returns (result: string, next: nat, ghost todo: string)
    requires i < |lines| && todo0 == Body(p, lines[i..])
    ensures i < next <= |lines| && todo == Body(p, lines[next..]) && result + todo == result0 + todo0
  {
    var text;
    next, text, todo := FirstBlock(p, lines, i, todo0);
    var written := text + "\n";
    result := result0 + written;
    Advance(result0, written, todo, todo0, result);
  }

  lemma Advance(result0: string, written: string, todo: string, todo0: string, result: string)
    requires todo0 == written + todo && result == result0 + written
    ensures result + todo == result0 + todo0
  {
    Reassociate(result0, written, todo);
  }

  /** The drawing of the first block from line `i` on, and the line after it. */
  method FirstBlock(p: Painter, lines: seq<string>, i: nat, ghost todo0: string)
    returns (next: nat, text: string, ghost todo: string)
    requires i < |lines| && todo0 == Body(p, lines[i..])
    ensures i < next <= |lines| && todo == Body(p, lines[next..]) && todo0 == (text + "\n") + todo
  {
    var rest := lines[i..];
    var n := BlockLength(p, rest);
    next, text := i + n, BlockText(p, rest);
    SliceTwice(lines, i, n);
    BodyHead(p, rest, lines[next..], text);
    todo := Body(p, lines[next..]);
  }

  lemma BodyHead(p: Painter, lines: seq<string>, tail: seq<string>, text: string)
    requires lines != [] && text == BlockText(p, lines) && tail == lines[BlockLength(p, lines)..]
    ensures Body(p, lines) == text + "\n" + Body(p, tail)
  {
  }

  lemma SliceTwice(lines: seq<string>, i: nat, n: nat)
    requires i + n <= |lines|
    ensures lines[i..][n..] == lines[i + n..]
  {
  }

  /** The loop itself. */
  method RenderMarkdown(p: Painter, raw: string) returns (out: string)
    ensures out == Render(p, raw)
  {
    var lines := Lines(raw);
    ghost var body := Body(p, lines);
    var result, i := "", 0;
    ghost var todo := body;
    assert lines[0..] == lines && "" + body == body;
    while i < |lines|
      invariant i <= |lines| && todo == Body(p, lines[i..])
      invariant result + todo == body
    {
      result, i, todo := WriteBlock(p, lines, i, result, todo);
    }
    assert lines[|lines|..] == [] && result + "" == result;
    out := TrimNewlines(result);
  }

  // ----- fences -----

  /** Whether a fence is open after one more line, by the scanner's rule. */
  predicate Toggle(open: bool, l: string) {
    if open then !Closes(l) else Opens(l)
  }

  predicate FenceAfter(lines: seq<string>, open: bool)
    decreases |lines|
  {
    if lines == [] then open else FenceAfter(lines[1..], Toggle(open, lines[0]))
  }

  lemma {:induction false} FenceAfterConcat(a: seq<string>, b: seq<string>, open: bool)
    ensures FenceAfter(a + b, open) == FenceAfter(b, FenceAfter(a, open))
    decreases |a|
  {
    if a == [] {
      assert a + b == b;
    } else {
      assert (a + b)[1..] == a[1..] + b;
      FenceAfterConcat(a[1..], b, Toggle(open, a[0]));
    }
  }

  lemma FenceAfterSnoc(a: seq<string>, l: string, open: bool)
    ensures FenceAfter(a + [l], open) == Toggle(FenceAfter(a, open), l)
  {
    FenceAfterConcat(a, [l], open);
    assert [l][1..] == [];
  }

  // ----- what the loop has settled -----

  /** The code block that `lines` starts with is closed. */
  predicate CodeCloses(lines: seq<string>)
    requires lines != []
  {
    var e := CloseFrom(lines, 1);
    e > 0 && Closes(lines[e])
  }

  /** The block loop reaches the end of `lines` with no code block open. */
  predicate Settled(p: Painter, lines: seq<string>)
    decreases |lines|
  {
    lines == [] || ((Opens(lines[0]) ==> CodeCloses(lines)) && Settled(p, lines[BlockLength(p, lines)..]))
  }

  /** No fence line looks like a table row. */
  ghost predicate Unpiped(lines: seq<string>) {
    forall i :: 0 <= i < |lines| && Opens(lines[i]) ==> !HasPipe(lines[i])
  }

  /** A fence that is open at `k` and closed at the end is closed in between,
      and nothing is open after it. */
  lemma {:induction false} FenceCloses(a: seq<string>, k: nat)
    requires 0 < k <= |a| && !FenceAfter(a[k..], true)
    ensures k <= CloseFrom(a, k) && Closes(a[CloseFrom(a, k)])
    ensures !FenceAfter(a[CloseFrom(a, k) + 1..], false)
    decreases |a| - k
  {
    if k < |a| {
      assert a[k..][1..] == a[k + 1..];
      if !Closes(a[k]) {
        FenceCloses(a, k + 1);
      }
    }
  }

  lemma {:induction false} RowsKeepFence(lines: seq<string>, k: nat)
    requires k <= |lines| && Unpiped(lines)
    ensures FenceAfter(lines[k..], false) == FenceAfter(lines[RowsEnd(lines, k)..], false)
    decreases |lines| - k
  {
    if k < |lines| && HasPipe(lines[k]) {
      RowsKeepFence(lines, k + 1);
      assert lines[k..][1..] == lines[k + 1..];
    }
  }

  /** The scanner's fence state says what the loop has open, unless a table
      swallows a fence line. */
  lemma {:induction false} ClosedIsSettled(p: Painter, lines: seq<string>)
    requires Unpiped(lines) && !FenceAfter(lines, false)
    ensures Settled(p, lines)
    decreases |lines|
  {
    if lines != [] {
      var n := BlockLength(p, lines);
      assert lines[0..] == lines;
      if Opens(lines[0]) {
        FenceCloses(lines, 1);
      } else if StartsTable(p, lines) {
        SeparatorIsNoFence(lines[1]);
        RowsKeepFence(lines, 2);
        assert lines[1..][1..] == lines[2..];
      }
      ClosedIsSettled(p, lines[n..]);
    }
  }

  lemma {:induction false} CloseStays(a: seq<string>, b: seq<string>, k: nat)
    requires 0 < k <= |a|
    ensures k <= CloseFrom(a, k) && Closes(a[CloseFrom(a, k)]) ==> CloseFrom(a + b, k) == CloseFrom(a, k)
    ensures k <= CloseFrom(a + b, k) < |a| ==> CloseFrom(a, k) == CloseFrom(a + b, k)
    decreases |a| - k
  {
    if k < |a| && !Closes(a[k]) {
      CloseStays(a, b, k + 1);
    }
  }

  lemma {:induction false} RowsEndConcat(a: seq<string>, b: seq<string>, k: nat)
    requires k <= |a|
    requires b == [] || !HasPipe(b[0]) || RowsEnd(a, k) < |a|
    ensures RowsEnd(a + b, k) == RowsEnd(a, k)
    decreases |a| - k
  {
    if k < |a| && HasPipe(a[k]) {
      RowsEndConcat(a, b, k + 1);
    }
  }

  lemma {:induction false} NonSpaceSurvives(s: string, c: char)
    requires c in s && !IsSpace(c)
    ensures c in TrimLeft(s) && c in TrimRight(s)
    decreases |s|
  {
    if IsSpace(s[0]) {
      NonSpaceSurvives(s[1..], c);
    }
    if IsSpace(s[|s| - 1]) {
      NonSpaceSurvives(s[..|s| - 1], c);
    }
  }

  lemma PipeSurvives(l: string)
    requires HasPipe(l)
    ensures '|' in TrimSpace(l)
  {
    NonSpaceSurvives(l, '|');
    NonSpaceSurvives(TrimLeft(l), '|');
  }

  /** A line that no table takes as its row or its separator. */
  predicate OffTable(l: string) {
    !HasPipe(l) && !Separator(l)
  }

  lemma BlankIsOffTable(l: string)
    requires Blank(l)
    ensures OffTable(l) && !Opens(l)
  {
    if HasPipe(l) {
      PipeSurvives(l);
    }
  }

  // ----- cutting a text where no block spans the cut -----

  /** No table goes on across the cut. */
  ghost predicate CleanCut(a: seq<string>, b: seq<string>) {
    a == [] || b == [] || Blank(a[|a| - 1]) || OffTable(b[0])
  }

  /** The first block is the same. */
  lemma FirstBlockStays(p: Painter, a: seq<string>, b: seq<string>)
    requires a != [] && (Opens(a[0]) ==> CodeCloses(a)) && CleanCut(a, b)
    ensures BlockLength(p, a + b) == BlockLength(p, a)
    ensures BlockText(p, a + b) == BlockText(p, a)
  {
    var ab := a + b;
    if Blank(a[|a| - 1]) {
      BlankIsOffTable(a[|a| - 1]);
    }
    CloseStays(a, b, 1);
    if StartsTable(p, a) {
      RowsEndConcat(a, b, 2);
    }
    assert ab[..BlockLength(p, a)] == a[..BlockLength(p, a)];
  }

  /** What is left after the first block is still cut cleanly. */
  lemma RestIsCut(a: seq<string>, b: seq<string>, n: nat)
    requires CleanCut(a, b) && n <= |a|
    ensures CleanCut(a[n..], b)
    ensures (a + b)[n..] == a[n..] + b
  {
  }

  lemma BodyUnfold(p: Painter, lines: seq<string>, n: nat, text: string)
    requires lines != [] && n == BlockLength(p, lines) && text == BlockText(p, lines)
    ensures Body(p, lines) == text + "\n" + Body(p, lines[n..])
  {
  }

  lemma {:induction false} BodyConcat(p: Painter, a: seq<string>, b: seq<string>)
    requires Settled(p, a) && CleanCut(a, b)
    ensures Body(p, a + b) == Body(p, a) + Body(p, b)
    decreases |a|
  {
    if a == [] {
      assert a + b == b;
    } else {
      var n, text := BlockLength(p, a), BlockText(p, a);
      FirstBlockStays(p, a, b);
      RestIsCut(a, b, n);
      BodyConcat(p, a[n..], b);
      BodyUnfold(p, a, n, text);
      BodyUnfold(p, a + b, n, text);
      Reassociate(text + "\n", Body(p, a[n..]), Body(p, b));
    }
  }

  /** Newlines that the loop's output for `lines` ends in, before the final trim. */
  function Gap(p: Painter, lines: seq<string>): nat {
    EndNewlines(Body(p, lines))
  }

  lemma {:induction false} BodyEndsLine(p: Painter, lines: seq<string>)
    requires lines != []
    ensures Body(p, lines) != "" && EndsLine(Body(p, lines))
    ensures Gap(p, lines) > 0
    decreases |lines|
  {
    var n := BlockLength(p, lines);
    if n < |lines| {
      BodyEndsLine(p, lines[n..]);
    }
    BodyUnfold(p, lines, n, BlockText(p, lines));
  }

  // ----- which lines are seen -----

  /** A heading without text: up to six hashes. */
  predicate BareHeading(l: string) {
    var t := TrimSpace(l);
    1 <= |t| <= 6 && forall i :: 0 <= i < |t| ==> t[i] == '#'
  }

  /** What the source's drawing grants: every block that is drawn ends in
      something other than a newline, except that a heading without text may be
      drawn as nothing. */
  ghost predicate Visible(p: Painter) {
    && (forall l :: !Blank(l) ==> Solid(p.line(l)) || (BareHeading(l) && p.line(l) == ""))
    && (forall ls: seq<string> :: ls != [] ==> Solid(p.code(ls)) && Solid(p.table(ls)))
  }

  /** Drawn as an empty line. */
  predicate Silent(p: Painter, l: string) {
    Blank(l) || (!Opens(l) && p.line(l) == "")
  }

  lemma BareHeadingIsOffTable(l: string)
    requires BareHeading(l)
    ensures OffTable(l) && !Opens(l)
  {
    assert '-' !in TrimSpace(l) && '|' !in TrimSpace(l) && TrimSpace(l)[0] != '`';
    if HasPipe(l) {
      PipeSurvives(l);
    }
  }

  lemma SilentIsOffTable(p: Painter, l: string)
    requires Visible(p) && Silent(p, l)
    ensures OffTable(l) && !Opens(l) && !Closes(l)
  {
    if Blank(l) {
      BlankIsOffTable(l);
    } else {
      BareHeadingIsOffTable(l);
    }
  }

  lemma FirstBlockSeen(p: Painter, lines: seq<string>)
    requires Visible(p) && lines != []
    ensures Silent(p, lines[0]) ==> BlockText(p, lines) == "" && BlockLength(p, lines) == 1
    ensures !Silent(p, lines[0]) ==> Solid(BlockText(p, lines))
  {
    if Silent(p, lines[0]) {
      SilentIsOffTable(p, lines[0]);
    }
  }

  ghost predicate AllSilent(p: Painter, lines: seq<string>) {
    forall i :: 0 <= i < |lines| ==> Silent(p, lines[i])
  }

  lemma TrimBlock(x: string, rest: string)
    requires x == "" || Solid(x)
    ensures TrimNewlines(x + "\n" + rest) ==
            if TrimNewlines(rest) == "" then x else x + "\n" + TrimNewlines(rest)
  {
    TrimNewlinesConcat(x + "\n", rest);
    TrimNewlinesOf(x, 1);
    assert Newlines(1) == "\n";
  }

  /** A text renders to nothing exactly when all its lines are silent. */
  lemma {:induction false} InkIff(p: Painter, lines: seq<string>)
    requires Visible(p)
    ensures TrimNewlines(Body(p, lines)) == "" <==> AllSilent(p, lines)
    decreases |lines|
  {
    if lines != [] {
      var n := BlockLength(p, lines);
      FirstBlockSeen(p, lines);
      TrimBlock(BlockText(p, lines), Body(p, lines[n..]));
      InkIff(p, lines[n..]);
      if Silent(p, lines[0]) {
        assert lines == [lines[0]] + lines[1..];
      }
    }
  }

  /** The gap counted by lines: one newline for the last line that is seen and
      one for each silent line after it. */
  function GapLines(p: Painter, lines: seq<string>): nat {
    if lines == [] then 0
    else if Silent(p, lines[|lines| - 1]) then 1 + GapLines(p, lines[..|lines| - 1])
    else 1
  }

  /** A settled text stays settled without a last line that belongs to no block. */
  lemma {:induction false} SettledInit(p: Painter, init: seq<string>, l: string)
    requires Settled(p, init + [l]) && OffTable(l) && !Closes(l)
    ensures Settled(p, init)
    decreases |init|
  {
    if init != [] {
      var lines := init + [l];
      var n := BlockLength(p, lines);
      CloseStays(init, [l], 1);
      if StartsTable(p, init) {
        RowsEndConcat(init, [l], 2);
      }
      assert n == BlockLength(p, init);
      assert lines[n..] == init[n..] + [l];
      SettledInit(p, init[n..], l);
    }
  }

  lemma SilentBody(p: Painter, l: string)
    requires Visible(p) && Silent(p, l)
    ensures Body(p, [l]) == "\n"
  {
    FirstBlockSeen(p, [l]);
    assert [l][1..] == [];
    assert "" + "\n" + "" == "\n";
  }

  lemma BlankBody(p: Painter, l: string)
    requires Blank(l)
    ensures Body(p, [l]) == "\n"
  {
    BlankIsOffTable(l);
    assert [l][1..] == [];
    assert "" + "\n" + "" == "\n";
  }

  /** A text that ends in one newline, behind a block. */
  lemma OneNewlineBehind(x: string, rest: string)
    requires (x == "" || Solid(x)) && TrimNewlines(rest) != "" && rest == TrimNewlines(rest) + "\n"
    ensures x + "\n" + rest == TrimNewlines(x + "\n" + rest) + "\n"
  {
    TrimBlock(x, rest);
    Reassociate(x + "\n", TrimNewlines(rest), "\n");
  }

  lemma OneNewlineAfter(x: string)
    requires Solid(x)
    ensures x + "\n" + "" == TrimNewlines(x + "\n" + "") + "\n"
  {
    TrimBlock(x, "");
    assert x + "\n" + "" == x + "\n";
  }

  lemma {:induction false} BodyEndsSolid(p: Painter, lines: seq<string>)
    requires Visible(p) && lines != [] && !Silent(p, lines[|lines| - 1])
    ensures Body(p, lines) == TrimNewlines(Body(p, lines)) + "\n"
    decreases |lines|
  {
    var n, x := BlockLength(p, lines), BlockText(p, lines);
    FirstBlockSeen(p, lines);
    if n == |lines| {
      assert lines[n..] == [];
      OneNewlineAfter(x);
    } else {
      var rest := lines[n..];
      assert rest[|rest| - 1] == lines[|lines| - 1];
      InkIff(p, rest);
      BodyEndsSolid(p, rest);
      OneNewlineBehind(x, Body(p, rest));
    }
    BodyUnfold(p, lines, n, x);
  }

  /** The newlines that the output ends in, read off the lines. */
  lemma {:induction false} BodyGap(p: Painter, lines: seq<string>)
    requires Visible(p) && Settled(p, lines)
    ensures Gap(p, lines) == GapLines(p, lines)
    decreases |lines|
  {
    if lines == [] {
    } else if Silent(p, lines[|lines| - 1]) {
      var init, l := lines[..|lines| - 1], lines[|lines| - 1];
      assert lines == init + [l];
      SilentGap(p, init, l);
      BodyGap(p, init);
    } else {
      SeenGap(p, lines);
    }
  }

  lemma SilentGap(p: Painter, init: seq<string>, l: string)
    requires Visible(p) && Settled(p, init + [l]) && Silent(p, l)
    ensures Settled(p, init) && Gap(p, init + [l]) == Gap(p, init) + 1
  {
    SilentIsOffTable(p, l);
    SettledInit(p, init, l);
    BodyConcat(p, init, [l]);
    SilentBody(p, l);
    EndNewlinesGrow(Body(p, init));
  }

  lemma SeenGap(p: Painter, lines: seq<string>)
    requires Visible(p) && lines != [] && !Silent(p, lines[|lines| - 1])
    ensures Gap(p, lines) == 1
  {
    BodyEndsSolid(p, lines);
    assert Newlines(1) == "\n";
    TrimmedSplits(Body(p, lines));
    EndNewlinesOf(TrimNewlines(Body(p, lines)), 1);
  }
}
