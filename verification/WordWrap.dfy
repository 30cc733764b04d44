/** `wrapText` of cmd/chat_view.go. */
module WordWrap {
  import opened Text
  import opened Words
  import opened LineFlow

  // ----- how one line is laid out -----

  /** The widths a call works with. */
  datatype Setup = Setup(width: int, first: int, prefix: nat, cont: int)

  function SetupFor(width0: int, prefix: nat): Setup {
    var width := if width0 < 20 then 80 else width0;
    var first := if width - prefix >= 1 then width - prefix else width - 1;
    var cont := if width - prefix < 10 then width else width - prefix;
    Setup(width, first, prefix, cont)
  }

  /** Number of leading blanks and tabs. */
  function LeadCount(line: string): (n: nat)
    ensures n <= |line| && Blanks(line[..n])
  {
    if line == "" || !(line[0] == ' ' || line[0] == '\t') then 0
    else
      var n := LeadCount(line[1..]);
      assert line[1..][..n] == line[1..1 + n];
      1 + n
  }

  function Lead(line: string): string {
    line[..LeadCount(line)]
  }

  /** Place of the first ". ", or -1. */
  function DotSpace(s: string): int {
    if |s| < 2 then -1
    else if s[0] == '.' && s[1] == ' ' then 0
    else var k := DotSpace(s[1..]); if k < 0 then -1 else k + 1
  }

  /** Extra indent past a bullet or a number. */
  function BulletExtra(trimmed: string): (s: string)
    ensures Blanks(s)
  {
    if |trimmed| >= 2 && (trimmed[0] == '*' || trimmed[0] == '-' || trimmed[0] == '+') && trimmed[1] == ' ' then
      Spaces(2)
    else
      var k := DotSpace(trimmed);
      if 0 < k <= 3 && k <= |trimmed| && forall i :: 0 <= i < k ==> '0' <= trimmed[i] <= '9'
      then Spaces(k + 2) else ""
  }

  /** Indent of a wrapped continuation, and the room after it. */
  datatype Layout = Layout(indent: string, room: int)

  function LayoutFor(w: char -> nat, st: Setup, line: string): (lay: Layout)
    ensures Blanks(lay.indent)
  {
    var indent, lead := Spaces(st.prefix), Lead(line);
    var extra := BulletExtra(line[|lead|..]);
    var room := st.width - (st.prefix + Width(w, lead) + Width(w, extra));
    if room < 10 then Layout(indent, st.cont) else Layout(indent + lead + extra, room)
  }

  /** Room for a line that is not wrapped. */
  function LineRoom(w: char -> nat, st: Setup, line: string, isFirst: bool): int {
    if isFirst then st.first else st.cont - Width(w, Lead(line))
  }

  function IndentOf(st: Setup, isFirst: bool): string {
    if isFirst then "" else Spaces(st.prefix)
  }

  // ----- the layout, in the source's terms -----

  /** The text after the leading blanks starts with a number of `k` digits and ". ". */
  ghost predicate Numbered(body: string, k: nat) {
    && 1 <= k <= 3 && k + 2 <= |body| && (forall i :: 0 <= i < k ==> '0' <= body[i] <= '9')
    && body[k] == '.' && body[k + 1] == ' '
  }

  ghost predicate Bulleted(body: string) {
    "* " <= body || "- " <= body || "+ " <= body
  }

  /** How far a continuation hangs past the leading blanks: two for a bullet, the
      width of the number and its ". ", or nothing. */
  ghost predicate Hangs(body: string, n: nat) {
    if Bulleted(body) then n == 2
    else (exists k: nat :: Numbered(body, k) && n == k + 2) || (n == 0 && forall k: nat :: !Numbered(body, k))
  }

  lemma {:induction false} LeadIs(lead: string, body: string)
    requires Blanks(lead) && (body != "" ==> body[0] != ' ' && body[0] != '\t')
    ensures Lead(lead + body) == lead && (lead + body)[|lead|..] == body
    decreases |lead|
  {
    var line := lead + body;
    if lead != "" {
      assert line[1..] == lead[1..] + body;
      LeadIs(lead[1..], body);
      assert LeadCount(line) == |lead|;
    }
  }

  lemma {:induction false} DotSpaceMeans(s: string)
    ensures var k := DotSpace(s);
            && -1 <= k && (k >= 0 ==> k + 2 <= |s| && s[k] == '.' && s[k + 1] == ' ')
            && (forall i :: 0 <= i < |s| - 1 && (k < 0 || i < k) ==> !(s[i] == '.' && s[i + 1] == ' '))
    decreases |s|
  {
    if |s| >= 2 && !(s[0] == '.' && s[1] == ' ') {
      DotSpaceMeans(s[1..]);
      var k := DotSpace(s);
      forall i | 0 <= i < |s| - 1 && (k < 0 || i < k) ensures !(s[i] == '.' && s[i + 1] == ' ') {
        if i > 0 {
          assert s[1..][i - 1] == s[i] && s[1..][i - 1 + 1] == s[i + 1];
        }
      }
    }
  }

  lemma HangIs(body: string)
    ensures BulletExtra(body) == Spaces(|BulletExtra(body)|) && Hangs(body, |BulletExtra(body)|)
  {
    BulletIs(body);
    NumberIs(body);
    assert "" == Spaces(0);
    if !Bulleted(body) && BulletExtra(body) != "" {
      assert Numbered(body, DotSpace(body));
    }
  }

  lemma BulletIs(body: string)
    ensures Bulleted(body) <==> |body| >= 2 && body[0] in {'*', '-', '+'} && body[1] == ' '
  {
    if |body| >= 2 {
      assert body[..2] == [body[0], body[1]];
    }
  }

  lemma NumberIs(body: string)
    ensures forall k: nat :: Numbered(body, k) ==> DotSpace(body) == k
    ensures var k := DotSpace(body);
            0 < k <= 3 && (forall i :: 0 <= i < k && i < |body| ==> '0' <= body[i] <= '9') ==> Numbered(body, k)
  {
    DotSpaceMeans(body);
    forall k: nat | Numbered(body, k) ensures DotSpace(body) == k {
      assert forall i :: 0 <= i < k ==> body[i] != '.';
    }
  }

  lemma HangUnique(body: string, m: nat, n: nat)
    requires Hangs(body, m) && Hangs(body, n)
    ensures m == n
  {
    NumberIs(body);
  }

  /** A continuation begins with the prefix in blanks, the line's own leading blanks
      and the hang of its bullet or number, while that leaves ten columns; otherwise
      with the prefix alone. A line is let alone when it fits the width less the
      prefix, and less its leading blanks unless it is the first. */
  lemma LayoutMeans(w: char -> nat, width0: int, prefix: nat, lead: string, body: string, hang: nat)
    requires w(' ') == 1 && Blanks(lead) && (body != "" ==> body[0] != ' ' && body[0] != '\t') && Hangs(body, hang)
    ensures var st, width := SetupFor(width0, prefix), if width0 < 20 then 80 else width0;
            var lay, taken := LayoutFor(w, st, lead + body), prefix + Width(w, lead) + hang;
            var rest := if width - prefix < 10 then width else width - prefix;
            && lay.indent == (if width - taken >= 10 then Spaces(prefix) + lead + Spaces(hang) else Spaces(prefix))
            && lay.room == (if width - taken >= 10 then width - taken else rest)
            && LineRoom(w, st, lead + body, true) == (if width - prefix >= 1 then width - prefix else width - 1)
            && LineRoom(w, st, lead + body, false) == rest - Width(w, lead)
            && IndentOf(st, true) == "" && IndentOf(st, false) == Spaces(prefix)
  {
    LeadIs(lead, body);
    HangIs(body);
    HangUnique(body, hang, |BulletExtra(body)|);
    WidthOfSpaces(w, hang);
  }

  // ----- the output lines of one line -----

  /** What of a line is on each of its output lines, their indents removed: all of
      it when it fits, otherwise its words as they flow. */
  function Segments(w: char -> nat, st: Setup, line: string, isFirst: bool): seq<string> {
    var maxW := LineRoom(w, st, line, isFirst);
    if Width(w, line) <= maxW then [line] else Flow(w, Fields(line), "", 0, maxW, LayoutFor(w, st, line).room)
  }

  /** Every segment but the first behind the indent. */
  function Hung(ls: seq<string>, indent: string): seq<string> {
    seq(|ls|, j requires 0 <= j < |ls| => if j == 0 then ls[0] else indent + ls[j])
  }

  lemma HungSnoc(ls: seq<string>, l: string, indent: string)
    ensures Hung(ls + [l], indent) == Hung(ls, indent) + [if ls == [] then l else indent + l]
  {
  }

  // ----- the output being written -----

  /** What is written, the line being built with its width, and the room it has. */
  datatype Pen = Pen(result: string, cur: string, curW: nat, maxW: int)

  function Margin(done: seq<string>, lay: Layout): string {
    if done == [] then "" else lay.indent
  }

  /** The pen has written the segments `done` behind `before`, and the margin of
      the next; what is on its line and the words left are to become the rest of
      `total`. */
  ghost predicate Holds(w: char -> nat, before: string, done: seq<string>, pen: Pen, lay: Layout,
                        rest: seq<string>, total: seq<string>) {
    && pen.result == before + Unlines(Hung(done, lay.indent)) + Margin(done, lay)
    && total == done + Flow(w, rest, pen.cur, pen.curW, pen.maxW, lay.room)
  }

  /** The line being built is written out and a continuation begins. */
  function Broken(pen: Pen, lay: Layout): Pen {
    Pen(pen.result + pen.cur + "\n" + lay.indent, "", 0, lay.room)
  }

  lemma BrokenText(before: string, done: seq<string>, cur: string, lay: Layout)
    ensures before + Unlines(Hung(done, lay.indent)) + Margin(done, lay) + cur + "\n"
            == before + Unlines(Hung(done + [cur], lay.indent))
  {
    HungSnoc(done, cur, lay.indent);
    var l := if done == [] then cur else lay.indent + cur;
    assert "" + cur == cur && Margin(done, lay) + cur == l;
    UnlinesSnoc(Hung(done, lay.indent), l);
    LineGlue(before, Unlines(Hung(done, lay.indent)), Margin(done, lay), cur);
  }

  lemma LineGlue(before: string, text: string, margin: string, cur: string)
    ensures before + text + margin + cur + "\n" == before + (text + (margin + cur + "\n"))
  {
  }

  /** Ends the line, with `cur` on it; `more` is what is then to come. */
  method Break(w: char -> nat, pen0: Pen, lay: Layout, ghost before: string, ghost done0: seq<string>,
               ghost rest: seq<string>, ghost total: seq<string>)
    returns (pen: Pen, ghost done: seq<string>)
    requires pen0.result == before + Unlines(Hung(done0, lay.indent)) + Margin(done0, lay)
    requires total == done0 + [pen0.cur] + Flow(w, rest, "", 0, lay.room, lay.room)
    ensures pen == Broken(pen0, lay) && done == done0 + [pen0.cur]
    ensures Holds(w, before, done, pen, lay, rest, total)
  {
    BrokenText(before, done0, pen0.cur, lay);
    pen, done := Broken(pen0, lay), done0 + [pen0.cur];
  }

  // ----- placing words -----

  /** As many runes as fit, at least one. */
  method Chunk(w: char -> nat, runes: string, maxW: int) returns (chunk: nat, chunkW: nat)
    requires runes != ""
    ensures chunk == ChunkLength(w, runes, maxW) && chunkW == Width(w, runes[..chunk])
  {
    chunk, chunkW := 0, 0;
    while chunk < |runes| && chunkW + w(runes[chunk]) <= maxW
      invariant chunk <= |runes| && chunkW == Width(w, runes[..chunk])
      invariant Fill(w, runes, maxW, chunk) == Fill(w, runes, maxW, 0)
    {
      WidthStep(w, runes, chunk);
      chunkW := chunkW + w(runes[chunk]);
      chunk := chunk + 1;
    }
    if chunk == 0 {
      WidthStep(w, runes, 0);
      chunk, chunkW := 1, w(runes[0]);
    }
  }

  /** Where the cutting stands: some of the word is left for an empty line, or the
      line has something on it but no width and the word is too wide; or all is placed. */
  ghost predicate Cutting(w: char -> nat, pen: Pen, runes: string) {
    runes != "" ==> pen.curW == 0 && (pen.cur == "" || Width(w, runes) > pen.maxW)
  }

  function Left(runes: string, rest: seq<string>): seq<string> {
    if runes == "" then rest else [runes] + rest
  }

  /** A word too wide for its line is cut into chunks. */
  method BreakWord(w: char -> nat, pen0: Pen, word: string, lay: Layout, ghost before: string,
                   ghost done0: seq<string>, ghost rest: seq<string>, ghost total: seq<string>)
    returns (pen: Pen, ghost done: seq<string>)
    requires word != "" && Width(w, word) > pen0.maxW && pen0.curW == 0
    requires Holds(w, before, done0, pen0, lay, [word] + rest, total)
    ensures Holds(w, before, done, pen, lay, rest, total) && pen.cur != ""
  {
    pen, done := pen0, done0;
    var runes := word;
    while |runes| > 0
      invariant Cutting(w, pen, runes) && Holds(w, before, done, pen, lay, Left(runes, rest), total)
      invariant runes == "" ==> pen.cur != ""
    {
      pen, runes, done := CutOnce(w, pen, runes, lay, before, done, rest, total);
    }
  }

  /** One round of the cutting, as the flow has it. */
  lemma CutFlows(w: char -> nat, pen: Pen, runes: string, rest: seq<string>, room: int)
    requires runes != "" && Cutting(w, pen, runes)
    ensures var n := ChunkLength(w, runes, pen.maxW);
            var first, maxW := if pen.cur == "" then [] else [pen.cur], if pen.cur == "" then pen.maxW else room;
            Flow(w, [runes] + rest, pen.cur, pen.curW, pen.maxW, room) ==
            if n < |runes| then first + [runes[..n]] + Flow(w, [runes[n..]] + rest, "", 0, room, room)
            else first + Flow(w, rest, runes, Width(w, runes), maxW, room)
  {
    FlowUnfold(w, runes, rest, pen.cur, pen.curW, pen.maxW, room);
    if Width(w, runes) <= pen.maxW {
      FittingIsOneChunk(w, runes, pen.maxW);
      assert "" + runes == runes;
      var more := Flow(w, rest, runes, Width(w, runes), pen.maxW, room);
      assert [] + more == more;
    }
  }

  method CutOnce(w: char -> nat, pen1: Pen, runes1: string, lay: Layout, ghost before: string,
                 ghost done1: seq<string>, ghost rest: seq<string>, ghost total: seq<string>)
    returns (pen: Pen, runes: string, ghost done: seq<string>)
    requires runes1 != "" && Cutting(w, pen1, runes1)
    requires Holds(w, before, done1, pen1, lay, [runes1] + rest, total)
    ensures |runes| < |runes1| && Cutting(w, pen, runes) && Holds(w, before, done, pen, lay, Left(runes, rest), total)
    ensures runes == "" ==> pen.cur != ""
  {
    CutFlows(w, pen1, runes1, rest, lay.room);
    var chunk, chunkW := Chunk(w, runes1, pen1.maxW);
    pen, done := pen1, done1;
    if |pen.cur| > 0 {
      BrokenText(before, done, pen.cur, lay);
      pen, done := Broken(pen, lay), done + [pen.cur];
    }
    pen := pen.(cur := runes1[..chunk], curW := chunkW);
    runes := runes1[chunk..];
    if |runes| > 0 {
      CutRest(total, done1, pen1.cur, done, runes1[..chunk], Flow(w, [runes] + rest, "", 0, lay.room, lay.room));
      pen, done := Break(w, pen, lay, before, done, [runes] + rest, total);
    } else {
      assert runes1[..chunk] == runes1;
      CutAll(total, done1, pen1.cur, done, Flow(w, rest, pen.cur, pen.curW, pen.maxW, lay.room));
    }
  }

  lemma CutRest(total: seq<string>, done1: seq<string>, cur: string, done: seq<string>, chunk: string, more: seq<string>)
    requires total == done1 + ((if cur == "" then [] else [cur]) + [chunk] + more)
    requires done == if cur == "" then done1 else done1 + [cur]
    ensures total == done + [chunk] + more
  {
  }

  lemma CutAll(total: seq<string>, done1: seq<string>, cur: string, done: seq<string>, more: seq<string>)
    requires total == done1 + ((if cur == "" then [] else [cur]) + more)
    requires done == if cur == "" then done1 else done1 + [cur]
    ensures total == done + more
  {
  }

  /** One word: cut, on a new line, after a space, or first on the line. */
  method PlaceWord(w: char -> nat, pen0: Pen, word: string, lay: Layout, ghost before: string,
                   ghost done0: seq<string>, ghost rest: seq<string>, ghost total: seq<string>)
    returns (pen: Pen, ghost done: seq<string>)
    requires word != "" && Holds(w, before, done0, pen0, lay, [word] + rest, total)
    ensures Holds(w, before, done, pen, lay, rest, total) && pen.cur != ""
  {
    var wordW := Width(w, word);
    FlowUnfold(w, word, rest, pen0.cur, pen0.curW, pen0.maxW, lay.room);
    done := done0;
    if wordW > pen0.maxW && pen0.curW == 0 {
      pen, done := BreakWord(w, pen0, word, lay, before, done0, rest, total);
    } else if pen0.curW > 0 && pen0.curW + 1 + wordW > pen0.maxW {
      BrokenText(before, done0, pen0.cur, lay);
      pen, done := Broken(pen0, lay).(cur := word, curW := wordW), done0 + [pen0.cur];
      Regroup(done0, pen0.cur, Flow(w, rest, word, wordW, lay.room, lay.room));
    } else if pen0.curW > 0 {
      pen := pen0.(cur := pen0.cur + " " + word, curW := pen0.curW + 1 + wordW);
    } else {
      pen := pen0.(cur := pen0.cur + word, curW := wordW);
    }
  }

  lemma Regroup(done: seq<string>, l: string, more: seq<string>)
    ensures done + ([l] + more) == done + [l] + more
  {
  }

  /** The words of a line that does not fit, and the line they end on. */
  method WrapWords(w: char -> nat, before: string, words: seq<string>, maxW: int, lay: Layout)
    returns (result: string)
    requires forall k :: 0 <= k < |words| ==> words[k] != ""
    ensures result == before + Unlines(Hung(Flow(w, words, "", 0, maxW, lay.room), lay.indent))
  {
    ghost var total := Flow(w, words, "", 0, maxW, lay.room);
    var pen := Pen(before, "", 0, maxW);
    ghost var done: seq<string> := [];
    assert before + "" + "" == before && [] + total == total && words[0..] == words;
    for k := 0 to |words|
      invariant Holds(w, before, done, pen, lay, words[k..], total)
      invariant if k == 0 then done == [] else pen.cur != ""
    {
      assert words[k..] == [words[k]] + words[k + 1..];
      pen, done := PlaceWord(w, pen, words[k], lay, before, done, words[k + 1..], total);
    }
    assert words[|words|..] == [];
    result := pen.result;
    if |pen.cur| > 0 {
      BrokenText(before, done, pen.cur, lay);
      result := result + pen.cur + "\n";
    } else {
      assert done == [] && before + "" + "" == before + "";
    }
  }

  lemma EachIsSomething(words: seq<string>)
    requires AllWords(words)
    ensures forall k :: 0 <= k < |words| ==> words[k] != ""
  {
  }

  /** What a line adds to the output. */
  function LineOut(w: char -> nat, st: Setup, line: string, isFirst: bool): string {
    IndentOf(st, isFirst) + Unlines(Hung(Segments(w, st, line, isFirst), LayoutFor(w, st, line).indent))
  }

  lemma OneUnline(before: string, line: string)
    ensures before + line + "\n" == before + Unlines([line])
  {
    UnlinesSnoc([], line);
    assert [] + [line] == [line] && "" + (line + "\n") == line + "\n";
  }

  lemma HungOne(line: string, indent: string)
    ensures Hung([line], indent) == [line]
  {
  }

  /** One line of the input, written after `result0`. */
  method WrapLine(w: char -> nat, st: Setup, result0: string, line: string, isFirst: bool) returns (result: string)
    ensures result == result0 + LineOut(w, st, line, isFirst)
  {
    result := result0 + IndentOf(st, isFirst);
    var lay := LayoutFor(w, st, line);
    var maxW := LineRoom(w, st, line, isFirst);
    FieldsAreWords(line);
    EachIsSomething(Fields(line));
    if Width(w, line) <= maxW {
      OneUnline(result, line);
      HungOne(line, lay.indent);
      Reassociate(result0, IndentOf(st, isFirst), Unlines([line]));
      result := result + line + "\n";
    } else {
      result := WrapWords(w, result, Fields(line), maxW, lay);
      Reassociate(result0, IndentOf(st, isFirst), Unlines(Hung(Segments(w, st, line, isFirst), lay.indent)));
    }
  }

  /** What the lines make together, before the last newlines are trimmed. */
  function Output(w: char -> nat, st: Setup, lines: seq<string>): string {
    if lines == [] then ""
    else Output(w, st, lines[..|lines| - 1]) + LineOut(w, st, lines[|lines| - 1], |lines| == 1)
  }

  lemma OutputStep(w: char -> nat, st: Setup, lines: seq<string>, i: nat)
    requires i < |lines|
    ensures Output(w, st, lines[..i + 1]) == Output(w, st, lines[..i]) + LineOut(w, st, lines[i], i == 0)
  {
    assert lines[..i + 1][..i] == lines[..i];
  }

  // ----- nothing is lost -----

  lemma {:induction false} HungInk(ls: seq<string>, indent: string)
    requires Blanks(indent)
    ensures Ink(Unlines(Hung(ls, indent))) == Ink(Joined(ls))
    decreases |ls|
  {
    if ls != [] {
      var init, l := ls[..|ls| - 1], ls[|ls| - 1];
      assert ls == init + [l];
      HungInk(init, indent);
      HungSnoc(init, l, indent);
      var hung := if init == [] then l else indent + l;
      UnlinesSnoc(Hung(init, indent), hung);
      InkOfBlanks(indent);
      InkConcat(indent, l);
      assert "" + Ink(l) == Ink(l);
      InkConcat(Unlines(Hung(init, indent)), hung + "\n");
      InkConcat(hung, "\n");
      InkOfSpace("\n");
      assert Ink(hung) + "" == Ink(hung);
      JoinedSnoc(init, l);
      InkConcat(Joined(init), l);
    }
  }

  lemma SegmentsInk(w: char -> nat, st: Setup, line: string, isFirst: bool)
    ensures Ink(Joined(Segments(w, st, line, isFirst))) == Ink(line)
  {
    var maxW := LineRoom(w, st, line, isFirst);
    if Width(w, line) <= maxW {
      JoinedCons(line, []);
      assert [line] + [] == [line] && line + "" == line;
    } else {
      FieldsAreWords(line);
      FieldsKeepInk(line);
      FlowInk(w, Fields(line), "", 0, maxW, LayoutFor(w, st, line).room);
      assert Ink("") + Ink(line) == Ink(line);
    }
  }

  lemma LineOutInk(w: char -> nat, st: Setup, line: string, isFirst: bool)
    ensures Ink(LineOut(w, st, line, isFirst)) == Ink(line)
  {
    var ls, lay := Segments(w, st, line, isFirst), LayoutFor(w, st, line);
    HungInk(ls, lay.indent);
    SegmentsInk(w, st, line, isFirst);
    InkOfBlanks(IndentOf(st, isFirst));
    InkConcat(IndentOf(st, isFirst), Unlines(Hung(ls, lay.indent)));
    assert "" + Ink(line) == Ink(line);
  }

  lemma {:induction false} OutputInk(w: char -> nat, st: Setup, lines: seq<string>)
    ensures Ink(Output(w, st, lines)) == Ink(Joined(lines))
    decreases |lines|
  {
    if lines != [] {
      var init, l := lines[..|lines| - 1], lines[|lines| - 1];
      assert lines == init + [l];
      OutputInk(w, st, init);
      LineOutInk(w, st, l, |lines| == 1);
      InkConcat(Output(w, st, init), LineOut(w, st, l, |lines| == 1));
      JoinedSnoc(init, l);
      InkConcat(Joined(init), l);
    }
  }

  // ----- lines that are only indented -----

  /** A line that fits its room, or that has no word on it. */
  predicate KeptWhole(w: char -> nat, st: Setup, line: string, isFirst: bool) {
    Width(w, line) <= LineRoom(w, st, line, isFirst) || Fields(line) == []
  }

  /** What becomes of such a line: its indent and itself, or its indent alone. */
  function WholeLine(w: char -> nat, st: Setup, line: string, isFirst: bool): string {
    IndentOf(st, isFirst) + if Width(w, line) <= LineRoom(w, st, line, isFirst) then line + "\n" else ""
  }

  function WholeLines(w: char -> nat, st: Setup, lines: seq<string>): string {
    if lines == [] then ""
    else WholeLines(w, st, lines[..|lines| - 1]) + WholeLine(w, st, lines[|lines| - 1], |lines| == 1)
  }

  ghost predicate AllKept(w: char -> nat, st: Setup, lines: seq<string>) {
    forall i :: 0 <= i < |lines| ==> KeptWhole(w, st, lines[i], i == 0)
  }

  lemma KeptLineOut(w: char -> nat, st: Setup, line: string, isFirst: bool)
    requires KeptWhole(w, st, line, isFirst)
    ensures LineOut(w, st, line, isFirst) == WholeLine(w, st, line, isFirst)
  {
    if Width(w, line) <= LineRoom(w, st, line, isFirst) {
      HungOne(line, LayoutFor(w, st, line).indent);
      OneUnline("", line);
      assert "" + line + "\n" == line + "\n" && "" + Unlines([line]) == Unlines([line]);
    } else {
      assert Segments(w, st, line, isFirst) == [];
    }
  }

  lemma {:induction false} OutputOfKept(w: char -> nat, st: Setup, lines: seq<string>)
    requires AllKept(w, st, lines)
    ensures Output(w, st, lines) == WholeLines(w, st, lines)
    decreases |lines|
  {
    if lines != [] {
      var init := lines[..|lines| - 1];
      forall i | 0 <= i < |init| ensures KeptWhole(w, st, init[i], i == 0) {
        assert init[i] == lines[i];
      }
      OutputOfKept(w, st, init);
      KeptLineOut(w, st, lines[|lines| - 1], |lines| == 1);
    }
  }

  // ----- segments of a line -----

  /** A line without a word on it that is wider than its room; its newline is lost. */
  predicate Dropped(w: char -> nat, st: Setup, line: string, isFirst: bool) {
    Fields(line) == [] && Width(w, line) > LineRoom(w, st, line, isFirst)
  }

  /** What of a line is written where the line starts. */
  function FirstSegment(w: char -> nat, st: Setup, line: string, isFirst: bool): string {
    var ls := Segments(w, st, line, isFirst);
    if ls == [] then "" else ls[0]
  }

  ghost predicate NoWideWord(w: char -> nat, line: string) {
    NoWider(w, Fields(line), 10)
  }

  lemma SegmentsAreLines(w: char -> nat, st: Setup, line: string, isFirst: bool)
    requires NoNewline(line)
    ensures var ls := Segments(w, st, line, isFirst);
            (ls == [] <==> Dropped(w, st, line, isFirst)) && forall j :: 0 <= j < |ls| ==> NoNewline(ls[j])
  {
    FieldsAreWords(line);
    FlowLines(w, Fields(line), "", 0, LineRoom(w, st, line, isFirst), LayoutFor(w, st, line).room);
  }

  /** The segments of a line that does not fit, unless its first word is too wide: its
      words in order, one blank apart, as many on each line as fit. */
  lemma SegmentsAreGreedy(w: char -> nat, st: Setup, line: string, isFirst: bool)
    requires w(' ') == 1 && AllSeen(w, Fields(line)) && Fields(line) != []
    requires var maxW := LineRoom(w, st, line, isFirst);
             Width(w, line) > maxW && (Width(w, Fields(line)[0]) <= maxW || |Fields(line)[0]| == 1)
    ensures Greedy(w, Fields(line), Segments(w, st, line, isFirst),
                   LineRoom(w, st, line, isFirst), LayoutFor(w, st, line).room)
  {
    FieldsAreWords(line);
    WholeWordsFlow(w, Fields(line), LineRoom(w, st, line, isFirst), LayoutFor(w, st, line).room);
  }

  lemma LayoutForFits(w: char -> nat, st: Setup, line: string)
    requires w(' ') == 1 && st.prefix <= st.width - 10 && st.cont == st.width - st.prefix
    ensures var lay := LayoutFor(w, st, line); Width(w, lay.indent) + lay.room <= st.width && 10 <= lay.room
  {
    var indent, lead := Spaces(st.prefix), Lead(line);
    var extra := BulletExtra(line[|lead|..]);
    WidthOfSpaces(w, st.prefix);
    WidthConcat(w, indent + lead, extra);
    WidthConcat(w, indent, lead);
  }

  lemma WiderRoom(w: char -> nat, words: seq<string>, a: int, b: int)
    requires NoWider(w, words, a) && a <= b
    ensures NoWider(w, words, b)
  {
  }

  /** Every continuation fits the width, indent and all. */
  lemma ContinuationsFit(w: char -> nat, st: Setup, line: string, isFirst: bool, ls: seq<string>)
    requires w(' ') == 1 && st.prefix <= st.width - 10 && st.cont == st.width - st.prefix && NoWideWord(w, line)
    requires ls == Hung(Segments(w, st, line, isFirst), LayoutFor(w, st, line).indent)
    ensures forall j :: 0 < j < |ls| ==> Width(w, ls[j]) <= st.width
  {
    var lay, maxW := LayoutFor(w, st, line), LineRoom(w, st, line, isFirst);
    var segs := Segments(w, st, line, isFirst);
    LayoutForFits(w, st, line);
    var head := if maxW > lay.room then maxW else lay.room;
    WiderRoom(w, Fields(line), 10, lay.room);
    WiderRoom(w, Fields(line), 10, head);
    FlowWithin(w, Fields(line), "", 0, maxW, lay.room, head);
    forall j | 0 < j < |ls| ensures Width(w, ls[j]) <= st.width {
      WidthConcat(w, lay.indent, segs[j]);
    }
  }

  // ----- which output lines overflow -----

  /** Room on the first line of the output and on the others. */
  datatype Limits = Limits(first: int, width: int)

  function Room(lim: Limits, i: int): int {
    if i == 0 then lim.first else lim.width
  }

  ghost predicate FitLines(w: char -> nat, ls: seq<string>, lim: Limits) {
    forall i :: 0 <= i < |ls| ==> Width(w, ls[i]) <= Room(lim, i)
  }

  ghost predicate Fit(w: char -> nat, s: string, lim: Limits) {
    FitLines(w, Lines(s), lim)
  }

  lemma {:induction false} FitTrimmed(w: char -> nat, s: string, lim: Limits)
    requires lim.first >= 0 && lim.width >= 0
    ensures Fit(w, TrimNewlines(s), lim) <==> Fit(w, s, lim)
    decreases |s|
  {
    if s != "" && s[|s| - 1] == '\n' {
      var t := s[..|s| - 1];
      assert s == t + "\n";
      LinesNewline(t);
      FitSnoc(w, Lines(t), "", lim);
      FitTrimmed(w, t, lim);
    }
  }

  lemma FitSnoc(w: char -> nat, ls: seq<string>, l: string, lim: Limits)
    ensures FitLines(w, ls + [l], lim) <==> FitLines(w, ls, lim) && Width(w, l) <= Room(lim, |ls|)
  {
    var all := ls + [l];
    assert all[|ls|] == l;
    forall i | 0 <= i < |ls| ensures all[i] == ls[i] {}
  }

  predicate DroppedAt(w: char -> nat, st: Setup, lines: seq<string>, i: nat)
    requires i < |lines|
  {
    Dropped(w, st, lines[i], i == 0)
  }

  function IndentWidth(st: Setup, i: nat): nat {
    if i == 0 then 0 else st.prefix
  }

  /** Columns of indent that the dropped lines just before line `i` have left. */
  function Carry(w: char -> nat, st: Setup, lines: seq<string>, i: nat): nat
    requires i <= |lines|
  {
    if i == 0 || !DroppedAt(w, st, lines, i - 1) then 0
    else Carry(w, st, lines, i - 1) + IndentWidth(st, i - 1)
  }

  /** Line `i` is still on the first line of the output. */
  predicate Unbegun(w: char -> nat, st: Setup, lines: seq<string>, i: nat)
    requires i <= |lines|
  {
    i == 0 || (DroppedAt(w, st, lines, i - 1) && Unbegun(w, st, lines, i - 1))
  }

  function RoomAt(w: char -> nat, st: Setup, lines: seq<string>, i: nat): int
    requires i <= |lines|
  {
    if Unbegun(w, st, lines, i) then st.width - st.prefix else st.width
  }

  /** The output line on which line `i` starts has room for the carried indents,
      the line's own indent and its first segment. */
  predicate StartFits(w: char -> nat, st: Setup, lines: seq<string>, i: nat)
    requires i < |lines|
  {
    Carry(w, st, lines, i) + IndentWidth(st, i) + Width(w, FirstSegment(w, st, lines[i], i == 0))
    <= RoomAt(w, st, lines, i)
  }

  ghost predicate StartsFit(w: char -> nat, st: Setup, lines: seq<string>, n: nat)
    requires n <= |lines|
  {
    forall i :: 0 <= i < n && !DroppedAt(w, st, lines, i) ==> StartFits(w, st, lines, i)
  }

  /** Every line that is written starts with enough room, and so does what is
      left when the text ends in dropped lines. */
  ghost predicate AllStartsFit(w: char -> nat, st: Setup, lines: seq<string>) {
    StartsFit(w, st, lines, |lines|) && Carry(w, st, lines, |lines|) <= RoomAt(w, st, lines, |lines|)
  }

  /** The prefix leaves ten columns and no word is wider than ten. */
  ghost predicate Modest(w: char -> nat, st: Setup, lines: seq<string>) {
    st.prefix <= st.width - 10 && forall i :: 0 <= i < |lines| ==> NoWideWord(w, lines[i])
  }

  /** With ten columns left, first lines and continuations have the same room. */
  ghost predicate Roomy(st: Setup) {
    st.first == st.cont == st.width - st.prefix
  }

  function LimitsOf(st: Setup): Limits {
    Limits(st.width - st.prefix, st.width)
  }

  /** The output after `i` lines: complete lines, and the indents of dropped
      lines behind them. */
  ghost predicate Written(w: char -> nat, st: Setup, lines: seq<string>, i: nat, s: string, all: seq<string>)
    requires i <= |lines|
  {
    && s == Unlines(all) + Spaces(Carry(w, st, lines, i))
    && (forall j :: 0 <= j < |all| ==> NoNewline(all[j]))
    && (all == [] <==> Unbegun(w, st, lines, i))
  }

  ghost predicate Judged(w: char -> nat, st: Setup, lines: seq<string>, i: nat, all: seq<string>)
    requires i <= |lines|
  {
    FitLines(w, all, LimitsOf(st)) <==> StartsFit(w, st, lines, i)
  }

  /** A dropped line leaves its indent. */
  lemma DropWrites(w: char -> nat, st: Setup, lines: seq<string>, i: nat, s: string, all: seq<string>, t: string)
    requires i < |lines| && Written(w, st, lines, i, s, all) && DroppedAt(w, st, lines, i)
    requires t == s + IndentOf(st, i == 0) + Unlines([])
    ensures Written(w, st, lines, i + 1, t, all)
    ensures Judged(w, st, lines, i, all) ==> Judged(w, st, lines, i + 1, all)
  {
    DropText(all, Carry(w, st, lines, i), IndentWidth(st, i));
    assert IndentOf(st, i == 0) == Spaces(IndentWidth(st, i));
    StartsFitGrows(w, st, lines, i);
  }

  lemma DropText(all: seq<string>, c: nat, k: nat)
    ensures Unlines(all) + Spaces(c) + Spaces(k) + Unlines([]) == Unlines(all) + Spaces(c + k)
  {
    SpacesAdd(c, k);
    Reassociate(Unlines(all), Spaces(c), Spaces(k));
  }

  /** The lines of `ls`, behind a margin. */
  function Placed(all: seq<string>, margin: string, ls: seq<string>): seq<string>
    requires ls != []
  {
    all + [margin + ls[0]] + ls[1..]
  }

  lemma {:induction false} UnlinesPlaced(all: seq<string>, margin: string, ls: seq<string>)
    requires ls != []
    ensures Unlines(all) + margin + Unlines(ls) == Unlines(Placed(all, margin, ls))
    decreases |ls|
  {
    var init, l := ls[..|ls| - 1], ls[|ls| - 1];
    if init == [] {
      assert ls[1..] == [];
      assert Placed(all, margin, ls) == all + [margin + l];
      UnlinesSnoc(all, margin + l);
      OneUnline("", l);
      assert ls == [l] && "" + Unlines(ls) == Unlines(ls);
      assert Unlines(all) + margin + (l + "\n") == Unlines(all) + (margin + l + "\n");
    } else {
      UnlinesPlaced(all, margin, init);
      assert ls[1..] == init[1..] + [l];
      assert Placed(all, margin, ls) == Placed(all, margin, init) + [l];
      UnlinesSnoc(Placed(all, margin, init), l);
      Reassociate(Unlines(all) + margin, Unlines(init), l + "\n");
    }
  }

  lemma {:induction false} FitPlaced(w: char -> nat, all: seq<string>, start: string, more: seq<string>, lim: Limits)
    requires forall j :: 0 <= j < |more| ==> Width(w, more[j]) <= lim.width
    ensures FitLines(w, all + [start] + more, lim) <==> FitLines(w, all, lim) && Width(w, start) <= Room(lim, |all|)
    decreases |more|
  {
    if more == [] {
      assert all + [start] + more == all + [start];
      FitSnoc(w, all, start, lim);
    } else {
      var init, l := more[..|more| - 1], more[|more| - 1];
      FitPlaced(w, all, start, init, lim);
      assert all + [start] + more == all + [start] + init + [l];
      FitSnoc(w, all + [start] + init, l, lim);
    }
  }

  /** A line that is written starts behind the carried indents. */
  lemma LineWrites(w: char -> nat, st: Setup, lines: seq<string>, i: nat, s: string, all: seq<string>,
                   ls: seq<string>, t: string, margin: nat)
    requires i < |lines| && Written(w, st, lines, i, s, all) && !DroppedAt(w, st, lines, i)
    requires ls != [] && (forall j :: 0 <= j < |ls| ==> NoNewline(ls[j]))
    requires t == s + IndentOf(st, i == 0) + Unlines(ls)
    requires margin == Carry(w, st, lines, i) + IndentWidth(st, i)
    ensures Written(w, st, lines, i + 1, t, Placed(all, Spaces(margin), ls))
  {
    PlacedText(all, Carry(w, st, lines, i), IndentWidth(st, i), ls);
    assert IndentOf(st, i == 0) == Spaces(IndentWidth(st, i));
    InkOfBlanks(Spaces(margin));
    PlacedLines(all, Spaces(margin), ls);
  }

  lemma PlacedText(all: seq<string>, c: nat, k: nat, ls: seq<string>)
    requires ls != []
    ensures Unlines(all) + Spaces(c) + Spaces(k) + Unlines(ls) == Unlines(Placed(all, Spaces(c + k), ls)) + Spaces(0)
  {
    SpacesAdd(c, k);
    Reassociate(Unlines(all), Spaces(c), Spaces(k));
    UnlinesPlaced(all, Spaces(c + k), ls);
  }

  lemma PlacedLines(all: seq<string>, margin: string, ls: seq<string>)
    requires ls != [] && NoNewline(margin)
    requires (forall j :: 0 <= j < |all| ==> NoNewline(all[j])) && forall j :: 0 <= j < |ls| ==> NoNewline(ls[j])
    ensures forall j :: 0 <= j < |Placed(all, margin, ls)| ==> NoNewline(Placed(all, margin, ls)[j])
  {
    var more := ls[1..];
    forall j | 0 <= j < |more| ensures NoNewline(more[j]) {
      assert more[j] == ls[j + 1];
    }
    assert NoNewline(margin + ls[0]);
  }

  lemma LineJudged(w: char -> nat, st: Setup, lines: seq<string>, i: nat, all: seq<string>,
                   ls: seq<string>, margin: nat)
    requires w(' ') == 1 && i < |lines| && !DroppedAt(w, st, lines, i) && Judged(w, st, lines, i, all)
    requires all == [] <==> Unbegun(w, st, lines, i)
    requires ls != [] && ls[0] == FirstSegment(w, st, lines[i], i == 0)
    requires forall j :: 0 < j < |ls| ==> Width(w, ls[j]) <= st.width
    requires margin == Carry(w, st, lines, i) + IndentWidth(st, i)
    ensures Judged(w, st, lines, i + 1, Placed(all, Spaces(margin), ls))
  {
    FitOfPlaced(w, all, margin, ls, LimitsOf(st));
    StartsFitGrows(w, st, lines, i);
  }

  lemma FitOfPlaced(w: char -> nat, all: seq<string>, margin: nat, ls: seq<string>, lim: Limits)
    requires w(' ') == 1 && ls != [] && forall j :: 0 < j < |ls| ==> Width(w, ls[j]) <= lim.width
    ensures FitLines(w, Placed(all, Spaces(margin), ls), lim) <==>
            FitLines(w, all, lim) && margin + Width(w, ls[0]) <= Room(lim, |all|)
  {
    WidthOfSpaces(w, margin);
    WidthConcat(w, Spaces(margin), ls[0]);
    var more := ls[1..];
    forall j | 0 <= j < |more| ensures Width(w, more[j]) <= lim.width {
      assert more[j] == ls[j + 1];
    }
    FitPlaced(w, all, Spaces(margin) + ls[0], more, lim);
  }

  lemma StartsFitGrows(w: char -> nat, st: Setup, lines: seq<string>, i: nat)
    requires i < |lines|
    ensures StartsFit(w, st, lines, i + 1) <==>
            StartsFit(w, st, lines, i) && (DroppedAt(w, st, lines, i) || StartFits(w, st, lines, i))
  {
  }

  /** The output after `n` lines, and which of its lines fit. */
  lemma {:induction false} OutputWritten(w: char -> nat, st: Setup, lines: seq<string>, n: nat, fits: bool)
    returns (all: seq<string>)
    requires w(' ') == 1 && n <= |lines| && forall i :: 0 <= i < |lines| ==> NoNewline(lines[i])
    requires fits ==> Modest(w, st, lines) && Roomy(st)
    ensures Written(w, st, lines, n, Output(w, st, lines[..n]), all) && (fits ==> Judged(w, st, lines, n, all))
    decreases n
  {
    if n == 0 {
      all := [];
      assert Unlines([]) + Spaces(0) == "";
    } else {
      var before := OutputWritten(w, st, lines, n - 1, fits);
      OutputStep(w, st, lines, n - 1);
      all := NextWritten(w, st, lines, n - 1, Output(w, st, lines[..n - 1]), before, fits);
    }
  }

  lemma NextWritten(w: char -> nat, st: Setup, lines: seq<string>, i: nat, s0: string, all0: seq<string>, fits: bool)
    returns (all: seq<string>)
    requires w(' ') == 1 && i < |lines| && NoNewline(lines[i]) && Written(w, st, lines, i, s0, all0)
    requires fits ==> Modest(w, st, lines) && Roomy(st) && Judged(w, st, lines, i, all0)
    ensures var s := s0 + LineOut(w, st, lines[i], i == 0);
            Written(w, st, lines, i + 1, s, all) && (fits ==> Judged(w, st, lines, i + 1, all))
  {
    var line, isFirst := lines[i], i == 0;
    var segs, indent := Segments(w, st, line, isFirst), LayoutFor(w, st, line).indent;
    var ls, s := Hung(segs, indent), s0 + LineOut(w, st, line, isFirst);
    SegmentsAreLines(w, st, line, isFirst);
    Reassociate(s0, IndentOf(st, isFirst), Unlines(ls));
    if DroppedAt(w, st, lines, i) {
      DropWrites(w, st, lines, i, s0, all0, s);
      all := all0;
    } else {
      var margin := Carry(w, st, lines, i) + IndentWidth(st, i);
      HungLines(segs, indent);
      LineWrites(w, st, lines, i, s0, all0, ls, s, margin);
      if fits {
        ContinuationsFit(w, st, line, isFirst, ls);
        LineJudged(w, st, lines, i, all0, ls, margin);
      }
      all := Placed(all0, Spaces(margin), ls);
    }
  }

  lemma HungLines(segs: seq<string>, indent: string)
    requires Blanks(indent) && segs != [] && forall j :: 0 <= j < |segs| ==> NoNewline(segs[j])
    ensures Hung(segs, indent) != [] && Hung(segs, indent)[0] == segs[0]
    ensures forall j :: 0 <= j < |segs| ==> NoNewline(Hung(segs, indent)[j])
  {
    InkOfBlanks(indent);
    forall j | 0 <= j < |segs| ensures NoNewline(Hung(segs, indent)[j]) {
      assert NoNewline(segs[j]);
    }
  }

  lemma UnlinesThen(all: seq<string>, b: string)
    requires NoNewline(b) && forall j :: 0 <= j < |all| ==> NoNewline(all[j])
    ensures Lines(Unlines(all) + b) == all + [b]
  {
    CompleteUnlines(all);
    LinesConcat(Unlines(all), b);
    OneLine(b);
  }

  lemma WrittenFits(w: char -> nat, st: Setup, lines: seq<string>, s: string, all: seq<string>)
    requires w(' ') == 1 && Written(w, st, lines, |lines|, s, all) && Judged(w, st, lines, |lines|, all)
    ensures Fit(w, s, LimitsOf(st)) <==> AllStartsFit(w, st, lines)
  {
    var c := Carry(w, st, lines, |lines|);
    UnlinesThen(all, Spaces(c));
    WidthOfSpaces(w, c);
    FitSnoc(w, all, Spaces(c), LimitsOf(st));
  }

  /** The output fits if and only if every line has room where it starts. */
  lemma OutputFitsIff(w: char -> nat, st: Setup, lines: seq<string>)
    requires w(' ') == 1 && Modest(w, st, lines) && Roomy(st)
    requires forall i :: 0 <= i < |lines| ==> NoNewline(lines[i])
    ensures Fit(w, TrimNewlines(Output(w, st, lines)), LimitsOf(st)) <==> AllStartsFit(w, st, lines)
  {
    var all := OutputWritten(w, st, lines, |lines|, true);
    assert lines[..|lines|] == lines;
    WrittenFits(w, st, lines, Output(w, st, lines), all);
    FitTrimmed(w, Output(w, st, lines), LimitsOf(st));
  }

  // ----- the whole text -----

  lemma {:induction false} LinesHaveNoNewline(s: string)
    ensures forall i :: 0 <= i < |Lines(s)| ==> NoNewline(Lines(s)[i])
    decreases |s|
  {
    var n := FirstNewline(s);
    if n < |s| {
      LinesHaveNoNewline(s[n + 1..]);
    }
  }

  method WrapLines(w: char -> nat, st: Setup, lines: seq<string>) returns (result: string)
    ensures result == Output(w, st, lines)
  {
    result := "";
    for i := 0 to |lines|
      invariant result == Output(w, st, lines[..i])
    {
      OutputStep(w, st, lines, i);
      result := WrapLine(w, st, result, lines[i], i == 0);
    }
    assert lines[..|lines|] == lines;
  }

  /** The output is that of the lines, one after the other. No ink is lost, added
      or moved, whatever the text and the widths. Lines that fit are only indented.
      And when the prefix leaves ten columns and no word is wider than ten, the
      output fits if and only if every line that is written has room, where it
      starts, for the indents of the dropped lines before it, its own and its first
      segment. */
  method WrapText(w: char -> nat, text: string, width: int, prefix: nat) returns (out: string)
    requires w(' ') == 1
    ensures out == TrimNewlines(Output(w, SetupFor(width, prefix), Lines(text)))
    ensures Ink(out) == Ink(text)
    ensures var st := SetupFor(width, prefix);
            AllKept(w, st, Lines(text)) ==> out == TrimNewlines(WholeLines(w, st, Lines(text)))
    ensures var total := if width < 20 then 80 else width;
            prefix <= total - 10 && (forall i :: 0 <= i < |Lines(text)| ==> NoWideWord(w, Lines(text)[i])) ==>
            (Fit(w, out, Limits(total - prefix, total)) <==> AllStartsFit(w, SetupFor(width, prefix), Lines(text)))
  {
    var st := SetupFor(width, prefix);
    var lines := Lines(text);
    var result := WrapLines(w, st, lines);
    TextInk(w, st, text);
    TextKept(w, st, lines);
    TextFits(w, text, width, prefix);
    out := TrimNewlines(result);
  }

  lemma TextInk(w: char -> nat, st: Setup, text: string)
    ensures Ink(TrimNewlines(Output(w, st, Lines(text)))) == Ink(text)
  {
    OutputInk(w, st, Lines(text));
    InkOfLines(text);
    InkTrimmed(Output(w, st, Lines(text)));
  }

  lemma TextKept(w: char -> nat, st: Setup, lines: seq<string>)
    ensures AllKept(w, st, lines) ==> TrimNewlines(Output(w, st, lines)) == TrimNewlines(WholeLines(w, st, lines))
  {
    if AllKept(w, st, lines) {
      OutputOfKept(w, st, lines);
    }
  }

  lemma TextFits(w: char -> nat, text: string, width: int, prefix: nat)
    requires w(' ') == 1
    ensures var st, total := SetupFor(width, prefix), if width < 20 then 80 else width;
            prefix <= total - 10 && (forall i :: 0 <= i < |Lines(text)| ==> NoWideWord(w, Lines(text)[i])) ==>
            (Fit(w, TrimNewlines(Output(w, st, Lines(text))), Limits(total - prefix, total))
             <==> AllStartsFit(w, st, Lines(text)))
  {
    var st := SetupFor(width, prefix);
    if Modest(w, st, Lines(text)) {
      LinesHaveNoNewline(text);
      OutputFitsIff(w, st, Lines(text));
    }
  }

  // ----- texts that always fit -----

  lemma SegmentFits(w: char -> nat, st: Setup, line: string, isFirst: bool)
    requires w(' ') == 1 && Roomy(st) && st.cont >= 10 && NoWideWord(w, line)
    ensures Width(w, FirstSegment(w, st, line, isFirst)) <= st.cont
  {
    var maxW, lay := LineRoom(w, st, line, isFirst), LayoutFor(w, st, line);
    LayoutForFits(w, st, line);
    WiderRoom(w, Fields(line), 10, lay.room);
    WiderRoom(w, Fields(line), 10, st.cont);
    FlowWithin(w, Fields(line), "", 0, maxW, lay.room, st.cont);
  }

  /** A line without carried indents that does not start on the first line of the
      output, or is the first itself, has room. */
  lemma FreshStartFits(w: char -> nat, st: Setup, lines: seq<string>, i: nat)
    requires w(' ') == 1 && i < |lines| && Modest(w, st, lines) && Roomy(st)
    requires Carry(w, st, lines, i) == 0 && (i == 0 || st.prefix == 0 || !Unbegun(w, st, lines, i))
    ensures StartFits(w, st, lines, i)
  {
    SegmentFits(w, st, lines[i], i == 0);
  }

  /** Without a dropped line everything fits. */
  lemma NothingDroppedFits(w: char -> nat, width: int, prefix: nat, lines: seq<string>)
    requires var st := SetupFor(width, prefix);
             w(' ') == 1 && Modest(w, st, lines) && forall i :: 0 <= i < |lines| ==> !DroppedAt(w, st, lines, i)
    ensures AllStartsFit(w, SetupFor(width, prefix), lines)
  {
    var st := SetupFor(width, prefix);
    forall i | 0 <= i < |lines| ensures StartFits(w, st, lines, i) {
      FreshStartFits(w, st, lines, i);
    }
  }

  lemma {:induction false} NoPrefixNoCarry(w: char -> nat, st: Setup, lines: seq<string>, i: nat)
    requires st.prefix == 0 && i <= |lines|
    ensures Carry(w, st, lines, i) == 0
    decreases i
  {
    if i > 0 {
      NoPrefixNoCarry(w, st, lines, i - 1);
    }
  }

  /** With prefix 0 everything fits, dropped lines or not. */
  lemma NoPrefixFits(w: char -> nat, width: int, lines: seq<string>)
    requires w(' ') == 1 && Modest(w, SetupFor(width, 0), lines)
    ensures AllStartsFit(w, SetupFor(width, 0), lines)
  {
    var st := SetupFor(width, 0);
    NoPrefixNoCarry(w, st, lines, |lines|);
    forall i | 0 <= i < |lines| ensures StartFits(w, st, lines, i) {
      NoPrefixNoCarry(w, st, lines, i);
      FreshStartFits(w, st, lines, i);
    }
  }

  // ----- a line of blanks that is too wide -----

  lemma {:induction false} SpacesAreWordless(n: nat)
    ensures Fields(Spaces(n)) == [] && LeadCount(Spaces(n)) == n
    decreases n
  {
    if n > 0 {
      assert Spaces(n)[1..] == Spaces(n - 1);
      SpacesAreWordless(n - 1);
    }
  }

  lemma WordIsItsField(u: string)
    requires IsWord(u)
    ensures Fields(u) == [u] && Lead(u) == ""
  {
    WordEndOf(u);
    assert u[..|u|] == u && u[|u|..] == "";
    assert !IsSpace(u[0]);
  }

  lemma {:induction false} WordEndOf(u: string)
    requires forall i :: 0 <= i < |u| ==> !IsSpace(u[i])
    ensures WordEnd(u) == |u|
    decreases |u|
  {
    if u != "" {
      WordEndOf(u[1..]);
    }
  }

  /** Six blanks between an empty line and a word of ten columns, at width 20
      with a prefix of 10: the blanks are dropped with their newline, the next
      indent lands behind theirs, and that line of the output is 30 wide. */
  lemma WideBlankLineOverflows(w: char -> nat, u: string)
    requires w(' ') == 1 && IsWord(u) && Width(w, u) == 10
    ensures var st, lines := SetupFor(20, 10), ["", Spaces(6), u];
            Modest(w, st, lines) && Carry(w, st, lines, 2) == 10 && !AllStartsFit(w, st, lines)
  {
    var st, lines := SetupFor(20, 10), ["", Spaces(6), u];
    SpacesAreWordless(6);
    WidthOfSpaces(w, 6);
    assert Lead(Spaces(6)) == Spaces(6);
    WordIsItsField(u);
    assert !DroppedAt(w, st, lines, 0) && DroppedAt(w, st, lines, 1) && !DroppedAt(w, st, lines, 2);
    assert Carry(w, st, lines, 1) == 0;
    assert FirstSegment(w, st, u, false) == u;
    assert !StartFits(w, st, lines, 2);
  }
}
