/** How the words of a line that does not fit flow over several lines: the rule of
    the word loop in `wrapText` (cmd/chat_view.go), and what it amounts to. */
module LineFlow {
  import opened Text
  import opened Words

  /** How many runes of `s` from `k` on still go into `room`. */
  function Fill(w: char -> nat, s: string, room: int, k: nat): (n: nat)
    requires k <= |s|
    ensures k <= n <= |s|
    decreases |s| - k
  {
    if k < |s| && Width(w, s[..k]) + w(s[k]) <= room then Fill(w, s, room, k + 1) else k
  }

  /** As many runes as go into `room`, at least one. */
  function ChunkLength(w: char -> nat, s: string, room: int): (n: nat)
    ensures s != "" ==> 0 < n <= |s|
  {
    var n := Fill(w, s, room, 0);
    if n == 0 then 1 else n
  }

  /** The chunk is the longest that fits, or a single rune. */
  lemma ChunkMeans(w: char -> nat, s: string, room: int)
    requires s != ""
    ensures var n := ChunkLength(w, s, room);
            && (Width(w, s[..n]) <= room || n == 1)
            && (n < |s| ==> Width(w, s[..n + 1]) > room)
  {
    FillMeans(w, s, room, 0);
    WidthStep(w, s, 0);
    if |s| > 1 {
      WidthStep(w, s, 1);
    }
  }

  lemma WidthStep(w: char -> nat, s: string, k: nat)
    requires k < |s|
    ensures Width(w, s[..k + 1]) == Width(w, s[..k]) + w(s[k])
  {
    assert s[..k + 1][..k] == s[..k];
  }

  lemma {:induction false} FillMeans(w: char -> nat, s: string, room: int, k: nat)
    requires k <= |s| && (k > 0 ==> Width(w, s[..k]) <= room)
    ensures var n := Fill(w, s, room, k);
            && (n > 0 ==> Width(w, s[..n]) <= room) && (n < |s| ==> Width(w, s[..n + 1]) > room)
    decreases |s| - k
  {
    if k < |s| {
      WidthStep(w, s, k);
      if Width(w, s[..k]) + w(s[k]) <= room {
        FillMeans(w, s, room, k + 1);
      }
    }
  }

  /** A text that fits is one chunk. */
  lemma FittingIsOneChunk(w: char -> nat, s: string, room: int)
    requires s != "" && Width(w, s) <= room
    ensures ChunkLength(w, s, room) == |s|
  {
    var n := ChunkLength(w, s, room);
    ChunkMeans(w, s, room);
    if n < |s| {
      WidthSplit(w, s, n + 1);
    }
  }

  // ----- the rule -----

  /** The lines that come of `cur`, which is on the line being built, and the words
      after it. The line has room for `maxW`, the ones after it for `room`. */
  function Flow(w: char -> nat, words: seq<string>, cur: string, curW: nat, maxW: int, room: int): seq<string>
    decreases |Joined(words)|, |words|
  {
    if words == [] then if cur == "" then [] else [cur]
    else
      var word, rest := words[0], words[1..];
      var wordW, n := Width(w, word), ChunkLength(w, word, maxW);
      if wordW > maxW && curW == 0 then
        // Cut, on a new line if there is something on this one.
        var before := if cur == "" then [] else [cur];
        JoinedCons(word[if n < |word| then n else |word|..], rest);
        if n < |word| then before + [word[..n]] + Flow(w, [word[n..]] + rest, "", 0, room, room)
        else before + Flow(w, rest, word, wordW, if cur == "" then maxW else room, room)
      else if curW > 0 && curW + 1 + wordW > maxW then [cur] + Flow(w, rest, word, wordW, room, room)
      else if curW > 0 then Flow(w, rest, cur + " " + word, curW + 1 + wordW, maxW, room)
      else Flow(w, rest, cur + word, wordW, maxW, room)
  }

  lemma FlowUnfold(w: char -> nat, word: string, rest: seq<string>, cur: string, curW: nat, maxW: int, room: int)
    ensures var wordW, n := Width(w, word), ChunkLength(w, word, maxW);
            var before := if cur == "" then [] else [cur];
            Flow(w, [word] + rest, cur, curW, maxW, room) ==
            if wordW > maxW && curW == 0 then
              (if n < |word| then before + [word[..n]] + Flow(w, [word[n..]] + rest, "", 0, room, room)
               else before + Flow(w, rest, word, wordW, if cur == "" then maxW else room, room))
            else if curW > 0 && curW + 1 + wordW > maxW then [cur] + Flow(w, rest, word, wordW, room, room)
            else if curW > 0 then Flow(w, rest, cur + " " + word, curW + 1 + wordW, maxW, room)
            else Flow(w, rest, cur + word, wordW, maxW, room)
  {
    assert ([word] + rest)[1..] == rest;
  }

  /** A word that starts a line and fits it. */
  lemma FlowFirst(w: char -> nat, word: string, rest: seq<string>, maxW: int, room: int)
    requires word != "" && (Width(w, word) <= maxW || |word| == 1)
    ensures Flow(w, [word] + rest, "", 0, maxW, room) == Flow(w, rest, word, Width(w, word), maxW, room)
  {
    FlowUnfold(w, word, rest, "", 0, maxW, room);
    assert "" + word == word;
    var more := Flow(w, rest, word, Width(w, word), maxW, room);
    assert [] + more == more;
  }

  // ----- nothing is lost -----

  ghost predicate AllWords(words: seq<string>) {
    forall k :: 0 <= k < |words| ==> IsWord(words[k])
  }

  lemma AllWordsCons(word: string, rest: seq<string>)
    requires IsWord(word) && AllWords(rest)
    ensures AllWords([word] + rest)
  {
  }

  /** The ink of `cur` and of the words, line after line. */
  lemma {:induction false} FlowInk(w: char -> nat, words: seq<string>, cur: string, curW: nat, maxW: int, room: int)
    requires AllWords(words)
    ensures Ink(Joined(Flow(w, words, cur, curW, maxW, room))) == Ink(cur) + Joined(words)
    decreases |Joined(words)|, |words|
  {
    if words == [] {
      JoinedCons(cur, []);
      assert [cur] + [] == [cur] && cur + "" == cur && Ink(cur) + "" == Ink(cur);
    } else {
      var word, rest := words[0], words[1..];
      var wordW, n := Width(w, word), ChunkLength(w, word, maxW);
      assert words == [word] + rest;
      FlowUnfold(w, word, rest, cur, curW, maxW, room);
      JoinedCons(word, rest);
      if wordW > maxW && curW == 0 {
        if n < |word| {
          SubWord(word, n);
          AllWordsCons(word[n..], rest);
          JoinedCons(word[n..], rest);
          FlowInk(w, [word[n..]] + rest, "", 0, room, room);
          CutInk(cur, word, n, Joined(rest), Flow(w, [word[n..]] + rest, "", 0, room, room));
        } else {
          var more := Flow(w, rest, word, wordW, if cur == "" then maxW else room, room);
          FlowInk(w, rest, word, wordW, if cur == "" then maxW else room, room);
          InkOfWord(word);
          BeforeInk(cur, more, word + Joined(rest));
        }
      } else if curW > 0 && curW + 1 + wordW > maxW {
        FlowInk(w, rest, word, wordW, room, room);
        InkOfWord(word);
        LineInk(cur, Flow(w, rest, word, wordW, room, room), word + Joined(rest));
      } else {
        var next := if curW > 0 then cur + " " + word else cur + word;
        FlowInk(w, rest, next, if curW > 0 then curW + 1 + wordW else wordW, maxW, room);
        NextInk(cur, word, next, curW > 0);
        Reassociate(Ink(cur), word, Joined(rest));
      }
    }
  }

  lemma LineInk(l: string, more: seq<string>, ink: string)
    requires Ink(Joined(more)) == ink
    ensures Ink(Joined([l] + more)) == Ink(l) + ink
  {
    JoinedCons(l, more);
    InkConcat(l, Joined(more));
  }

  lemma BeforeInk(cur: string, more: seq<string>, ink: string)
    requires Ink(Joined(more)) == ink
    ensures Ink(Joined((if cur == "" then [] else [cur]) + more)) == Ink(cur) + ink
  {
    if cur == "" {
      assert [] + more == more && "" + ink == ink;
    } else {
      LineInk(cur, more, ink);
    }
  }

  lemma CutInk(cur: string, word: string, n: nat, rest: string, more: seq<string>)
    requires IsWord(word) && 0 < n < |word| && Ink(Joined(more)) == Ink("") + (word[n..] + rest)
    ensures Ink(Joined((if cur == "" then [] else [cur]) + [word[..n]] + more)) == Ink(cur) + (word + rest)
  {
    var before, chunk := if cur == "" then [] else [cur], word[..n];
    SubWord(word, n);
    InkOfWord(chunk);
    assert Ink("") + (word[n..] + rest) == word[n..] + rest;
    LineInk(chunk, more, word[n..] + rest);
    CutJoins(word, n, rest);
    BeforeInk(cur, [chunk] + more, word + rest);
    LineBetween(before, chunk, more);
  }

  lemma CutJoins(word: string, n: nat, rest: string)
    requires n <= |word|
    ensures word[..n] + (word[n..] + rest) == word + rest
  {
    assert word == word[..n] + word[n..];
  }

  lemma LineBetween(before: seq<string>, l: string, more: seq<string>)
    ensures before + [l] + more == before + ([l] + more)
  {
  }

  lemma NextInk(cur: string, word: string, next: string, spaced: bool)
    requires IsWord(word) && next == if spaced then cur + " " + word else cur + word
    ensures Ink(next) == Ink(cur) + word
  {
    InkOfWord(word);
    InkConcat(if spaced then cur + " " else cur, word);
    InkConcat(cur, " ");
    InkOfSpace(" ");
    assert Ink(cur) + "" == Ink(cur);
  }

  /** Every line has something on it and no newline. */
  ghost predicate RealLines(ls: seq<string>) {
    forall j :: 0 <= j < |ls| ==> ls[j] != "" && NoNewline(ls[j])
  }

  lemma RealLinesConcat(a: seq<string>, b: seq<string>)
    requires RealLines(a) && RealLines(b)
    ensures RealLines(a + b)
  {
  }

  lemma {:induction false} FlowLines(w: char -> nat, words: seq<string>, cur: string, curW: nat, maxW: int, room: int)
    requires AllWords(words) && NoNewline(cur) && (curW > 0 ==> cur != "")
    ensures RealLines(Flow(w, words, cur, curW, maxW, room))
    ensures words != [] || cur != "" ==> Flow(w, words, cur, curW, maxW, room) != []
    decreases |Joined(words)|, |words|
  {
    if words != [] {
      var word, rest := words[0], words[1..];
      var wordW, n := Width(w, word), ChunkLength(w, word, maxW);
      assert words == [word] + rest;
      FlowUnfold(w, word, rest, cur, curW, maxW, room);
      WordHasNoNewline(word);
      if wordW > maxW && curW == 0 {
        var before := if cur == "" then [] else [cur];
        if n < |word| {
          SubWord(word, n);
          WordHasNoNewline(word[..n]);
          AllWordsCons(word[n..], rest);
          JoinedCons(word[n..], rest);
          FlowLines(w, [word[n..]] + rest, "", 0, room, room);
          RealLinesConcat(before + [word[..n]], Flow(w, [word[n..]] + rest, "", 0, room, room));
        } else {
          FlowLines(w, rest, word, wordW, if cur == "" then maxW else room, room);
          RealLinesConcat(before, Flow(w, rest, word, wordW, if cur == "" then maxW else room, room));
        }
      } else if curW > 0 && curW + 1 + wordW > maxW {
        FlowLines(w, rest, word, wordW, room, room);
      } else if curW > 0 {
        assert NoNewline(cur + " " + word);
        FlowLines(w, rest, cur + " " + word, curW + 1 + wordW, maxW, room);
      } else {
        FlowLines(w, rest, cur + word, wordW, maxW, room);
      }
    }
  }

  // ----- widths -----

  ghost predicate NoWider(w: char -> nat, words: seq<string>, bound: int) {
    forall k :: 0 <= k < |words| ==> Width(w, words[k]) <= bound
  }

  lemma NoWiderCons(w: char -> nat, word: string, rest: seq<string>, bound: int)
    requires Width(w, word) <= bound && NoWider(w, rest, bound)
    ensures NoWider(w, [word] + rest, bound)
  {
  }

  /** The first line is within `head` and the others within their room. */
  ghost predicate FlowFits(w: char -> nat, ls: seq<string>, head: int, room: int) {
    forall j :: 0 <= j < |ls| ==> Width(w, ls[j]) <= if j == 0 then head else room
  }

  lemma FlowFitsCons(w: char -> nat, l: string, ls: seq<string>, head: int, room: int)
    requires Width(w, l) <= head && FlowFits(w, ls, room, room)
    ensures FlowFits(w, [l] + ls, head, room)
  {
  }

  /** With no word wider than the room of a line, every line after the first fits
      its room, and the first does if it can hold the widest word. */
  lemma {:induction false} FlowWithin(w: char -> nat, words: seq<string>, cur: string, curW: nat, maxW: int, room: int, head: int)
    requires w(' ') == 1 && curW == Width(w, cur) && curW <= head && maxW <= head
    requires NoWider(w, words, room) && NoWider(w, words, head)
    ensures FlowFits(w, Flow(w, words, cur, curW, maxW, room), head, room)
    decreases |Joined(words)|, |words|
  {
    if words != [] {
      var word, rest := words[0], words[1..];
      var wordW, n := Width(w, word), ChunkLength(w, word, maxW);
      assert words == [word] + rest;
      FlowUnfold(w, word, rest, cur, curW, maxW, room);
      assert NoWider(w, rest, room) && NoWider(w, rest, head);
      if wordW > maxW && curW == 0 {
        if n < |word| {
          WidthSplit(w, word, n);
          NoWiderCons(w, word[n..], rest, room);
          JoinedCons(word[n..], rest);
          FlowWithin(w, [word[n..]] + rest, "", 0, room, room, room);
          var more := Flow(w, [word[n..]] + rest, "", 0, room, room);
          CutFits(w, cur, word[..n], more, head, room);
        } else if cur == "" {
          FlowWithin(w, rest, word, wordW, maxW, room, head);
          var more := Flow(w, rest, word, wordW, maxW, room);
          assert [] + more == more;
        } else {
          FlowWithin(w, rest, word, wordW, room, room, room);
          FlowFitsCons(w, cur, Flow(w, rest, word, wordW, room, room), head, room);
        }
      } else if curW > 0 && curW + 1 + wordW > maxW {
        FlowWithin(w, rest, word, wordW, room, room, room);
        FlowFitsCons(w, cur, Flow(w, rest, word, wordW, room, room), head, room);
      } else if curW > 0 {
        SpaceWidth(w, cur, word);
        FlowWithin(w, rest, cur + " " + word, curW + 1 + wordW, maxW, room, head);
      } else {
        WidthConcat(w, cur, word);
        FlowWithin(w, rest, cur + word, wordW, maxW, room, head);
      }
    }
  }

  lemma CutFits(w: char -> nat, cur: string, chunk: string, more: seq<string>, head: int, room: int)
    requires Width(w, cur) <= head && Width(w, chunk) <= head && Width(w, chunk) <= room && FlowFits(w, more, room, room)
    ensures FlowFits(w, (if cur == "" then [] else [cur]) + [chunk] + more, head, room)
  {
    if cur == "" {
      assert [] + [chunk] + more == [chunk] + more;
      FlowFitsCons(w, chunk, more, head, room);
    } else {
      assert [cur] + [chunk] + more == [cur] + ([chunk] + more);
      FlowFitsCons(w, chunk, more, room, room);
      FlowFitsCons(w, cur, [chunk] + more, head, room);
    }
  }

  lemma SpaceWidth(w: char -> nat, cur: string, word: string)
    requires w(' ') == 1
    ensures Width(w, cur + " " + word) == Width(w, cur) + 1 + Width(w, word)
  {
    WidthConcat(w, cur + " ", word);
    WidthConcat(w, cur, " ");
    WidthOfOne(w, ' ');
  }

  // ----- which words are on which line -----

  /** The words with single blanks between them. */
  function Spaced(words: seq<string>): string {
    if words == [] then ""
    else if |words| == 1 then words[0]
    else Spaced(words[..|words| - 1]) + " " + words[|words| - 1]
  }

  /** A line of room `maxW` takes the first `n` words, one blank apart: it is within
      its room unless it has only one word, and the next word would not have fitted. */
  ghost predicate Takes(w: char -> nat, words: seq<string>, l: string, n: nat, maxW: int) {
    && 0 < n <= |words| && l == Spaced(words[..n])
    && (n > 1 ==> Width(w, l) <= maxW)
    && (n < |words| ==> Width(w, l) + 1 + Width(w, words[n]) > maxW)
  }

  /** Every line takes as many of the words that are left as fit. */
  ghost predicate Greedy(w: char -> nat, words: seq<string>, ls: seq<string>, maxW: int, room: int)
    decreases |ls|
  {
    if ls == [] then words == []
    else exists n: nat :: Takes(w, words, ls[0], n, maxW) && Greedy(w, words[n..], ls[1..], room, room)
  }

  ghost predicate AllSeen(w: char -> nat, words: seq<string>) {
    forall k :: 0 <= k < |words| ==> Width(w, words[k]) > 0
  }

  lemma GreedyCons(w: char -> nat, words: seq<string>, l: string, n: nat, ls: seq<string>, maxW: int, room: int)
    requires Takes(w, words, l, n, maxW) && Greedy(w, words[n..], ls, room, room)
    ensures Greedy(w, words, [l] + ls, maxW, room)
  {
    assert ([l] + ls)[1..] == ls;
  }

  /** With the first `k` words on the line being built. */
  lemma {:induction false} FlowTakes(w: char -> nat, words: seq<string>, k: nat, cur: string, maxW: int, room: int)
    requires w(' ') == 1 && AllWords(words) && AllSeen(w, words) && 0 < k <= |words| && cur == Spaced(words[..k])
    requires Width(w, cur) > 0 && (k > 1 ==> Width(w, cur) <= maxW)
    ensures Greedy(w, words, Flow(w, words[k..], cur, Width(w, cur), maxW, room), maxW, room)
    decreases |words|, |words| - k
  {
    if k == |words| {
      LastLineTakes(w, words, k, cur, maxW, room);
    } else {
      var word := words[k];
      if Width(w, cur) + 1 + Width(w, word) > maxW {
        RestKeeps(w, words, k);
        FlowTakes(w, words[k..], 1, word, room, room);
        BreakTakes(w, words, k, cur, maxW, room);
      } else {
        var next := cur + " " + word;
        SpaceWidth(w, cur, word);
        SpacedSnoc(words, k);
        FlowTakes(w, words, k + 1, next, maxW, room);
        FlowAt(w, words, k, cur, Width(w, cur), maxW, room);
      }
    }
  }

  lemma RestKeeps(w: char -> nat, words: seq<string>, k: nat)
    requires AllWords(words) && AllSeen(w, words) && k < |words|
    ensures AllWords(words[k..]) && AllSeen(w, words[k..]) && Width(w, words[k]) > 0
    ensures Spaced(words[k..][..1]) == words[k] && words[k..][1..] == words[k + 1..]
  {
    assert words[k..][..1] == [words[k]];
  }

  lemma BreakTakes(w: char -> nat, words: seq<string>, k: nat, cur: string, maxW: int, room: int)
    requires 0 < k < |words| && cur == Spaced(words[..k]) && Width(w, cur) > 0 && (k > 1 ==> Width(w, cur) <= maxW)
    requires Width(w, cur) + 1 + Width(w, words[k]) > maxW
    requires Greedy(w, words[k..], Flow(w, words[k..][1..], words[k], Width(w, words[k]), room, room), room, room)
    ensures Greedy(w, words, Flow(w, words[k..], cur, Width(w, cur), maxW, room), maxW, room)
  {
    FlowAt(w, words, k, cur, Width(w, cur), maxW, room);
    assert words[k..][1..] == words[k + 1..];
    GreedyCons(w, words, cur, k, Flow(w, words[k + 1..], words[k], Width(w, words[k]), room, room), maxW, room);
  }

  lemma LastLineTakes(w: char -> nat, words: seq<string>, k: nat, cur: string, maxW: int, room: int)
    requires AllWords(words) && 0 < k == |words| && cur == Spaced(words[..k])
    requires k > 1 ==> Width(w, cur) <= maxW
    ensures Greedy(w, words, Flow(w, words[k..], cur, Width(w, cur), maxW, room), maxW, room)
  {
    assert words[..k] == words && words[k..] == [];
    SpacedIsSomething(words);
    assert [cur] + [] == [cur];
    GreedyCons(w, words, cur, k, [], maxW, room);
  }

  lemma FlowAt(w: char -> nat, words: seq<string>, k: nat, cur: string, curW: nat, maxW: int, room: int)
    requires k < |words| && curW > 0
    ensures var wordW := Width(w, words[k]);
            Flow(w, words[k..], cur, curW, maxW, room) ==
            if curW + 1 + wordW > maxW then [cur] + Flow(w, words[k + 1..], words[k], wordW, room, room)
            else Flow(w, words[k + 1..], cur + " " + words[k], curW + 1 + wordW, maxW, room)
  {
    assert words[k..] == [words[k]] + words[k + 1..];
    FlowUnfold(w, words[k], words[k + 1..], cur, curW, maxW, room);
  }

  lemma SpacedSnoc(words: seq<string>, k: nat)
    requires 0 < k < |words|
    ensures Spaced(words[..k + 1]) == Spaced(words[..k]) + " " + words[k]
  {
    assert words[..k + 1][..k] == words[..k];
  }

  lemma SpacedIsSomething(words: seq<string>)
    requires words != [] && AllWords(words)
    ensures Spaced(words) != ""
  {
  }

  /** A line whose first word fits, or cannot be cut: the words in order, as many on
      each line as fit, one blank between them. */
  lemma WholeWordsFlow(w: char -> nat, words: seq<string>, maxW: int, room: int)
    requires w(' ') == 1 && AllWords(words) && AllSeen(w, words) && words != []
    requires Width(w, words[0]) <= maxW || |words[0]| == 1
    ensures Greedy(w, words, Flow(w, words, "", 0, maxW, room), maxW, room)
  {
    assert words == [words[0]] + words[1..] && words[..1] == [words[0]];
    FlowFirst(w, words[0], words[1..], maxW, room);
    FlowTakes(w, words, 1, words[0], maxW, room);
  }

  /** A line whose first word is too wide: the longest part of it that fits, or one
      rune, and then what is left of it with the other words, on the next line. */
  lemma WideWordFlows(w: char -> nat, words: seq<string>, maxW: int, room: int)
    requires AllWords(words) && words != [] && Width(w, words[0]) > maxW && |words[0]| > 1
    ensures var ls, word := Flow(w, words, "", 0, maxW, room), words[0];
            exists n :: && 0 < n < |word| && (Width(w, word[..n]) <= maxW || n == 1) && Width(w, word[..n + 1]) > maxW
                        && ls == [word[..n]] + Flow(w, [word[n..]] + words[1..], "", 0, room, room)
  {
    var word := words[0];
    assert words == [word] + words[1..];
    WideWordCut(w, word, words[1..], maxW, room, ChunkLength(w, word, maxW));
  }

  lemma WideWordCut(w: char -> nat, word: string, rest: seq<string>, maxW: int, room: int, n: nat)
    requires Width(w, word) > maxW && |word| > 1 && n == ChunkLength(w, word, maxW)
    ensures 0 < n < |word| && (Width(w, word[..n]) <= maxW || n == 1) && Width(w, word[..n + 1]) > maxW
    ensures Flow(w, [word] + rest, "", 0, maxW, room)
            == [word[..n]] + Flow(w, [word[n..]] + rest, "", 0, room, room)
  {
    FlowUnfold(w, word, rest, "", 0, maxW, room);
    ChunkMeans(w, word, maxW);
    assert word[..|word|] == word;
    assert [] + [word[..n]] == [word[..n]];
  }

  /** A word without width is not set apart: the next word follows it directly. */
  lemma UnseenWordGlues(w: char -> nat, u: string, v: string, maxW: int, room: int)
    requires u != "" && Width(w, u) == 0 && maxW >= 0 && 0 < Width(w, v) <= maxW
    ensures Flow(w, [u, v], "", 0, maxW, room) == [u + v]
  {
    assert [u, v] == [u] + [v] && [v] == [v] + [];
    FlowUnfold(w, u, [v], "", 0, maxW, room);
    assert "" + u == u;
    FlowUnfold(w, v, [], u, 0, maxW, room);
  }
}
