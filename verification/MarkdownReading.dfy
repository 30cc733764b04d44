/** What the block loop makes of a text, told without the loop: its lines fall
    into blocks in one way only, and each block reaches the painter whole. */
module MarkdownReading {
  import opened Text
  import opened MarkdownBlocks

  // ----- the blocks of a text -----

  /** `b` is a block when `rest` follows it. A fence goes from its opener to the
      first line that closes it, or to the end of the text; a table from its header
      and separator to the last row; any other line is a block of its own. */
  ghost predicate IsBlock(p: Painter, b: seq<string>, rest: seq<string>) {
    b != [] &&
    if "```" <= TrimSpace(b[0]) then
      && (forall i :: 0 < i < |b| - 1 ==> TrimSpace(b[i]) != "```")
      && (rest == [] || (|b| > 1 && TrimSpace(b[|b| - 1]) == "```"))
    else if !p.special(b[0]) && '|' in b[0] && |b| + |rest| > 1 && Separator((b + rest)[1]) then
      && |b| >= 2 && (forall i :: 2 <= i < |b| ==> '|' in b[i])
      && (rest == [] || '|' !in rest[0])
    else |b| == 1
  }

  /** What is drawn of a block: the painter gets all its lines; a blank line is nothing. */
  function Drawn(p: Painter, b: seq<string>): string
    requires b != []
  {
    if "```" <= TrimSpace(b[0]) then p.code(b)
    else if |b| > 1 then p.table(b)
    else if TrimSpace(b[0]) == "" then ""
    else p.line(b[0])
  }

  /** `blocks` are the lines, in order, cut into blocks. */
  ghost predicate Reads(p: Painter, blocks: seq<seq<string>>, lines: seq<string>)
    decreases |blocks|
  {
    if blocks == [] then lines == []
    else
      var b := blocks[0];
      b <= lines && IsBlock(p, b, lines[|b|..]) && Reads(p, blocks[1..], lines[|b|..])
  }

  /** Every block drawn, each with its newline. */
  ghost function DrawnAll(p: Painter, blocks: seq<seq<string>>): string
    requires forall k :: 0 <= k < |blocks| ==> blocks[k] != []
    decreases |blocks|
  {
    if blocks == [] then "" else Drawn(p, blocks[0]) + "\n" + DrawnAll(p, blocks[1..])
  }

  lemma {:induction false} CloseFromMeans(lines: seq<string>, k: nat)
    requires 0 < k <= |lines|
    ensures var e := CloseFrom(lines, k);
            (forall i :: k <= i < e ==> !Closes(lines[i])) && (e + 1 < |lines| ==> e >= k && Closes(lines[e]))
    decreases |lines| - k
  {
    if k < |lines| && !Closes(lines[k]) {
      CloseFromMeans(lines, k + 1);
    }
  }

  lemma {:induction false} RowsEndMeans(lines: seq<string>, k: nat)
    requires k <= |lines|
    ensures RowsEnd(lines, k) < |lines| ==> !HasPipe(lines[RowsEnd(lines, k)])
    decreases |lines| - k
  {
    if k < |lines| && HasPipe(lines[k]) {
      RowsEndMeans(lines, k + 1);
    }
  }

  /** The loop's first block is one, and is drawn whole. */
  lemma FirstBlockReads(p: Painter, lines: seq<string>, b: seq<string>, rest: seq<string>)
    requires lines != [] && b == lines[..BlockLength(p, lines)] && rest == lines[BlockLength(p, lines)..]
    ensures IsBlock(p, b, rest) && BlockText(p, lines) == Drawn(p, b)
  {
    assert b + rest == lines && b[0] == lines[0];
    CloseFromMeans(lines, 1);
    if StartsTable(p, lines) {
      RowsEndMeans(lines, 2);
    }
  }

  /** For every text there are blocks, and the loop's output is their drawings. */
  lemma {:induction false} BodyReads(p: Painter, lines: seq<string>) returns (blocks: seq<seq<string>>)
    ensures Reads(p, blocks, lines) && (forall k :: 0 <= k < |blocks| ==> blocks[k] != [])
    ensures Body(p, lines) == DrawnAll(p, blocks)
    decreases |lines|
  {
    if lines == [] {
      blocks := [];
    } else {
      var n := BlockLength(p, lines);
      var b, rest := lines[..n], lines[n..];
      FirstBlockReads(p, lines, b, rest);
      var more := BodyReads(p, rest);
      blocks := [b] + more;
      assert blocks[1..] == more;
      BodyUnfold(p, lines, n, Drawn(p, b));
    }
  }

  /** The render of every text: its blocks drawn whole, the last newlines trimmed. */
  lemma RenderReads(p: Painter, raw: string) returns (blocks: seq<seq<string>>)
    ensures Reads(p, blocks, Lines(raw)) && (forall k :: 0 <= k < |blocks| ==> blocks[k] != [])
    ensures Render(p, raw) == TrimNewlines(DrawnAll(p, blocks))
  {
    blocks := BodyReads(p, Lines(raw));
  }

  /** Two blocks at the head of the same lines are the same. */
  lemma FirstBlockUnique(p: Painter, lines: seq<string>, m: nat, n: nat)
    requires m <= |lines| && n <= |lines|
    requires IsBlock(p, lines[..m], lines[m..]) && IsBlock(p, lines[..n], lines[n..])
    ensures m == n
  {
    assert lines[..m] + lines[m..] == lines && lines[..n] + lines[n..] == lines;
    if m < n {
      ShorterIsNone(p, lines, m, n);
    } else if n < m {
      ShorterIsNone(p, lines, n, m);
    }
  }

  lemma ShorterIsNone(p: Painter, lines: seq<string>, m: nat, n: nat)
    requires m < n <= |lines| && lines[..m] + lines[m..] == lines && lines[..n] + lines[n..] == lines
    requires IsBlock(p, lines[..n], lines[n..])
    ensures !IsBlock(p, lines[..m], lines[m..])
  {
    if m > 0 {
      assert lines[..m][0] == lines[0] == lines[..n][0];
      assert lines[m..][0] == lines[m] == lines[..n][m];
      assert lines[..m][m - 1] == lines[m - 1] == lines[..n][m - 1];
    }
  }

  /** A text has only one reading. */
  lemma {:induction false} ReadsOnce(p: Painter, x: seq<seq<string>>, y: seq<seq<string>>, lines: seq<string>)
    requires Reads(p, x, lines) && Reads(p, y, lines)
    ensures x == y
    decreases |x|
  {
    if x != [] && y != [] {
      FirstBlockUnique(p, lines, |x[0]|, |y[0]|);
      assert x[0] == lines[..|x[0]|] && y[0] == lines[..|y[0]|];
      ReadsOnce(p, x[1..], y[1..], lines[|x[0]|..]);
      assert x == [x[0]] + x[1..] && y == [y[0]] + y[1..];
    }
  }

  /** A fence, from its opener to its first closer, is drawn from exactly those lines. */
  lemma FenceIsDrawnWhole(p: Painter, lines: seq<string>, e: nat)
    requires 0 < e < |lines| && "```" <= TrimSpace(lines[0]) && TrimSpace(lines[e]) == "```"
    requires forall i :: 0 < i < e ==> TrimSpace(lines[i]) != "```"
    ensures Body(p, lines) == p.code(lines[..e + 1]) + "\n" + Body(p, lines[e + 1..])
  {
    var n := BlockLength(p, lines);
    FirstBlockReads(p, lines, lines[..n], lines[n..]);
    assert lines[..e + 1][e] == lines[e] && IsBlock(p, lines[..e + 1], lines[e + 1..]);
    FirstBlockUnique(p, lines, n, e + 1);
    BodyUnfold(p, lines, n, p.code(lines[..n]));
  }

  // ----- a painter that shows what it is given -----

  function Emptied(l: string): string {
    if TrimSpace(l) == "" then "" else l
  }

  function AllEmptied(lines: seq<string>): seq<string> {
    seq(|lines|, i requires 0 <= i < |lines| => Emptied(lines[i]))
  }

  /** The lines with newlines between them, blank ones emptied. */
  function Joint(lines: seq<string>): string {
    var u := Unlines(AllEmptied(lines));
    if u == "" then "" else u[..|u| - 1]
  }

  /** Draws every line as it is. */
  function Echo(special: string -> bool): Painter {
    Painter(l => l, lines => Joint(lines), lines => Joint(lines), special)
  }

  lemma JointIs(lines: seq<string>)
    requires lines != []
    ensures Joint(lines) + "\n" == Unlines(AllEmptied(lines))
  {
    var all := AllEmptied(lines);
    var init, l := all[..|all| - 1], all[|all| - 1];
    assert all == init + [l];
    UnlinesSnoc(init, l);
  }

  lemma {:induction false} UnlinesConcat(a: seq<string>, b: seq<string>)
    ensures Unlines(a + b) == Unlines(a) + Unlines(b)
    decreases |b|
  {
    if b == [] {
      assert a + b == a && Unlines(a) + "" == Unlines(a);
    } else {
      var init, l := b[..|b| - 1], b[|b| - 1];
      assert b == init + [l] && a + b == a + init + [l];
      UnlinesConcat(a, init);
      UnlinesSnoc(a + init, l);
      UnlinesSnoc(init, l);
      Reassociate(Unlines(a), Unlines(init), l + "\n");
    }
  }

  lemma EmptiedSplits(lines: seq<string>, n: nat)
    requires n <= |lines|
    ensures Unlines(AllEmptied(lines)) == Unlines(AllEmptied(lines[..n])) + Unlines(AllEmptied(lines[n..]))
  {
    assert AllEmptied(lines) == AllEmptied(lines[..n]) + AllEmptied(lines[n..]);
    UnlinesConcat(AllEmptied(lines[..n]), AllEmptied(lines[n..]));
  }

  lemma EchoBlock(special: string -> bool, b: seq<string>, rest: seq<string>)
    requires IsBlock(Echo(special), b, rest)
    ensures Drawn(Echo(special), b) + "\n" == Unlines(AllEmptied(b))
  {
    JointIs(b);
    if |b| == 1 {
      assert AllEmptied(b) == [] + [Emptied(b[0])];
      UnlinesSnoc([], Emptied(b[0]));
      assert "" + (Emptied(b[0]) + "\n") == Emptied(b[0]) + "\n";
    }
  }

  /** What the painter draws of a block is its lines. */
  ghost predicate Echoes(p: Painter) {
    forall b, rest :: IsBlock(p, b, rest) ==> Drawn(p, b) + "\n" == Unlines(AllEmptied(b))
  }

  lemma ReadsHead(p: Painter, blocks: seq<seq<string>>, lines: seq<string>, b: seq<string>, rest: seq<string>)
    requires Reads(p, blocks, lines) && blocks != [] && b == blocks[0] && b <= lines && rest == lines[|b|..]
    ensures IsBlock(p, b, rest) && Reads(p, blocks[1..], rest) && lines[..|b|] == b
  {
  }

  lemma {:induction false} EchoAll(p: Painter, blocks: seq<seq<string>>, lines: seq<string>)
    requires Echoes(p) && Reads(p, blocks, lines) && forall k :: 0 <= k < |blocks| ==> blocks[k] != []
    ensures DrawnAll(p, blocks) == Unlines(AllEmptied(lines))
    decreases |blocks|
  {
    if blocks != [] {
      var b := blocks[0];
      var rest := lines[|b|..];
      ReadsHead(p, blocks, lines, b, rest);
      EchoAll(p, blocks[1..], rest);
      EmptiedSplits(lines, |b|);
      DrawnHead(p, blocks, Unlines(AllEmptied(b)));
    }
  }

  lemma DrawnHead(p: Painter, blocks: seq<seq<string>>, head: string)
    requires blocks != [] && forall k :: 0 <= k < |blocks| ==> blocks[k] != []
    requires Drawn(p, blocks[0]) + "\n" == head
    ensures DrawnAll(p, blocks) == head + DrawnAll(p, blocks[1..])
  {
  }

  /** So no line is lost, added, moved or given to the painter twice: drawn as it
      is, every text comes back, its blank lines emptied and its last newlines
      trimmed. */
  lemma EchoRender(special: string -> bool, raw: string)
    ensures Render(Echo(special), raw) == TrimNewlines(Unlines(AllEmptied(Lines(raw))))
  {
    var p := Echo(special);
    forall b, rest | IsBlock(p, b, rest) ensures Drawn(p, b) + "\n" == Unlines(AllEmptied(b)) {
      EchoBlock(special, b, rest);
    }
    var blocks := RenderReads(p, raw);
    EchoAll(p, blocks, Lines(raw));
  }

  /** Without blanks on its blank lines, the text itself. */
  lemma EchoIsText(special: string -> bool, raw: string)
    requires forall i :: 0 <= i < |Lines(raw)| ==> Lines(raw)[i] == "" || TrimSpace(Lines(raw)[i]) != ""
    ensures Render(Echo(special), raw) == TrimNewlines(raw)
  {
    EchoRender(special, raw);
    assert AllEmptied(Lines(raw)) == Lines(raw);
    UnlinesOfLines(raw);
    assert Newlines(1) == "\n";
    TrimAfterNewlines(raw, 1);
  }
}
