/** Lines and white space, as Go's `strings` package sees them. */
module Text {

  /** Unicode White_Space, which `strings.TrimSpace` and `strings.Fields` use. */
  predicate IsSpace(c: char) {
    || c == ' ' || '\t' <= c <= '\r' || c == '\U{85}' || c == '\U{A0}' || c == '\U{1680}'
    || '\U{2000}' <= c <= '\U{200A}' || c == '\U{2028}' || c == '\U{2029}'
    || c == '\U{202F}' || c == '\U{205F}' || c == '\U{3000}'
  }

  function TrimLeft(s: string): string {
    if s != [] && IsSpace(s[0]) then TrimLeft(s[1..]) else s
  }

  function TrimRight(s: string): string {
    if s != [] && IsSpace(s[|s| - 1]) then TrimRight(s[..|s| - 1]) else s
  }

  function TrimSpace(s: string): string {
    TrimRight(TrimLeft(s))
  }

  predicate Blank(s: string) {
    TrimSpace(s) == ""
  }

  lemma {:induction false} AllSpaceIsBlank(s: string)
    requires forall i :: 0 <= i < |s| ==> IsSpace(s[i])
    ensures Blank(s) && TrimLeft(s) == ""
    decreases |s|
  {
    if s != [] {
      AllSpaceIsBlank(s[1..]);
    }
  }

  /** Of the ASCII characters, the blank and the five controls from tab to return. */
  lemma AsciiSpaces(c: char)
    requires c as int < 128
    ensures IsSpace(c) <==> c in {' ', '\t', '\n', '\U{0B}', '\U{0C}', '\r'}
  {
  }

  lemma {:induction false} TrimLeftMeans(s: string) returns (n: nat)
    ensures n <= |s| && TrimLeft(s) == s[n..] && (forall i :: 0 <= i < n ==> IsSpace(s[i]))
    ensures n < |s| ==> !IsSpace(s[n])
    decreases |s|
  {
    n := 0;
    if s != [] && IsSpace(s[0]) {
      var m := TrimLeftMeans(s[1..]);
      n := m + 1;
    }
  }

  lemma {:induction false} TrimRightMeans(s: string) returns (n: nat)
    ensures n <= |s| && TrimRight(s) == s[..n] && (forall i :: n <= i < |s| ==> IsSpace(s[i]))
    ensures n > 0 ==> !IsSpace(s[n - 1])
    decreases |s|
  {
    n := |s|;
    if s != [] && IsSpace(s[|s| - 1]) {
      n := TrimRightMeans(s[..|s| - 1]);
    }
  }

  /** What is left of `s` has no white space at its ends, and what is gone is all
      white space. */
  lemma TrimSpaceMeans(s: string) returns (i: nat, j: nat)
    ensures i <= j <= |s| && TrimSpace(s) == s[i..j]
    ensures forall k :: 0 <= k < i || j <= k < |s| ==> IsSpace(s[k])
    ensures i < j ==> !IsSpace(s[i]) && !IsSpace(s[j - 1])
  {
    i := TrimLeftMeans(s);
    var t := s[i..];
    var n := TrimRightMeans(t);
    j := i + n;
    forall k | j <= k < |s| ensures IsSpace(s[k]) {
      assert t[k - i] == s[k];
    }
    if i < j {
      assert t[n - 1] == s[j - 1];
    }
  }

  lemma BlankMeans(s: string)
    ensures Blank(s) <==> forall i :: 0 <= i < |s| ==> IsSpace(s[i])
  {
    var i, j := TrimSpaceMeans(s);
  }

  /** Place of the first newline, or the length. */
  function FirstNewline(s: string): (n: nat)
    ensures n <= |s|
    ensures n < |s| ==> s[n] == '\n'
    ensures forall i :: 0 <= i < n ==> s[i] != '\n'
  {
    if s == [] || s[0] == '\n' then 0 else 1 + FirstNewline(s[1..])
  }

  /** `strings.Split(s, "\n")`. */
  function Lines(s: string): (r: seq<string>)
    ensures r != []
    decreases |s|
  {
    var n := FirstNewline(s);
    if n == |s| then [s] else [s[..n]] + Lines(s[n + 1..])
  }

  /** The lines of `s` that a newline ends: all but the last fragment. */
  function Complete(s: string): seq<string> {
    Lines(s)[..|Lines(s)| - 1]
  }

  predicate EndsLine(s: string) {
    s == "" || s[|s| - 1] == '\n'
  }

  lemma FirstNewlineUnique(s: string, n: nat)
    requires n < |s| && s[n] == '\n'
    requires forall i :: 0 <= i < n ==> s[i] != '\n'
    ensures FirstNewline(s) == n
  {
  }

  lemma EndsLineHasNewline(p: string)
    requires EndsLine(p) && p != ""
    ensures FirstNewline(p) < |p|
    ensures EndsLine(p[FirstNewline(p) + 1..])
  {
  }

  /** The first line and the rest. */
  lemma LinesUnfold(s: string, n: nat)
    requires n == FirstNewline(s) < |s|
    ensures Lines(s) == [s[..n]] + Lines(s[n + 1..])
  {
  }

  lemma CompleteUnfold(s: string, n: nat)
    requires n == FirstNewline(s) < |s|
    ensures Complete(s) == [s[..n]] + Complete(s[n + 1..])
  {
  }

  /** The first newline of `p` is the first of `p + t`. */
  lemma FirstNewlineStays(p: string, t: string)
    requires FirstNewline(p) < |p|
    ensures var n := FirstNewline(p);
            FirstNewline(p + t) == n && (p + t)[..n] == p[..n] && (p + t)[n + 1..] == p[n + 1..] + t
  {
    FirstNewlineUnique(p + t, FirstNewline(p));
  }

  lemma Glue<T>(h: T, rest: seq<T>, c: seq<T>, l: seq<T>)
    requires rest == c + l
    ensures [h] + rest == [h] + c + l
  {
  }

  /** Splitting a text after a newline splits its lines there. */
  lemma {:induction false} LinesConcat(p: string, t: string)
    requires EndsLine(p)
    ensures Lines(p + t) == Complete(p) + Lines(t)
    decreases |p|
  {
    if p == "" {
      assert p + t == t;
    } else {
      EndsLineHasNewline(p);
      var n := FirstNewline(p);
      var q := p[n + 1..];
      LinesConcat(q, t);
      CompleteUnfold(p, n);
      FirstNewlineStays(p, t);
      LinesUnfold(p + t, n);
      Glue(p[..n], Lines(q + t), Complete(q), Lines(t));
    }
  }

  lemma CompleteConcat(p: string, t: string)
    requires EndsLine(p)
    ensures Complete(p + t) == Complete(p) + Complete(t)
  {
    LinesConcat(p, t);
  }

  lemma LinesOfComplete(p: string)
    requires EndsLine(p)
    ensures Lines(p) == Complete(p) + [""]
  {
  }

  /** One line and its newline. */
  lemma OneLine(l: string)
    requires forall i :: 0 <= i < |l| ==> l[i] != '\n'
    ensures Complete(l + "\n") == [l] && Lines(l) == [l]
  {
    var s := l + "\n";
    FirstNewlineUnique(s, |l|);
    assert s[..|l|] == l && s[|l| + 1..] == "";
    assert Lines("") == [""];
    assert Lines(s) == [l] + [""];
    assert FirstNewline(l) == |l|;
  }

  /** `n` newlines. */
  function Newlines(n: nat): (r: string)
    ensures |r| == n && forall i :: 0 <= i < n ==> r[i] == '\n'
  {
    seq(n, _ => '\n')
  }

  /** `strings.TrimRight(s, "\n")`. */
  function TrimNewlines(s: string): string {
    if s != [] && s[|s| - 1] == '\n' then TrimNewlines(s[..|s| - 1]) else s
  }

  /** Ends in something other than a newline. */
  predicate Solid(s: string) {
    s != "" && s[|s| - 1] != '\n'
  }

  lemma {:induction false} TrimNewlinesOf(x: string, n: nat)
    requires x == "" || Solid(x)
    ensures TrimNewlines(x + Newlines(n)) == x
    decreases n
  {
    if n == 0 {
      assert x + Newlines(0) == x;
    } else {
      assert (x + Newlines(n))[..|x| + n - 1] == x + Newlines(n - 1);
      TrimNewlinesOf(x, n - 1);
    }
  }

  lemma {:induction false} TrimNewlinesSplits(s: string) returns (n: nat)
    ensures s == TrimNewlines(s) + Newlines(n)
    ensures TrimNewlines(s) == "" || Solid(TrimNewlines(s))
    decreases |s|
  {
    n := 0;
    if s != [] && s[|s| - 1] == '\n' {
      var m := TrimNewlinesSplits(s[..|s| - 1]);
      n := m + 1;
    }
  }

  /** Newlines at the end of `s`. */
  function EndNewlines(s: string): nat {
    if s != [] && s[|s| - 1] == '\n' then 1 + EndNewlines(s[..|s| - 1]) else 0
  }

  lemma {:induction false} EndNewlinesOf(x: string, n: nat)
    requires x == "" || Solid(x)
    ensures EndNewlines(x + Newlines(n)) == n
    decreases n
  {
    if n == 0 {
      assert x + Newlines(0) == x;
    } else {
      assert (x + Newlines(n))[..|x| + n - 1] == x + Newlines(n - 1);
      EndNewlinesOf(x, n - 1);
    }
  }

  lemma TrimmedSplits(s: string)
    ensures s == TrimNewlines(s) + Newlines(EndNewlines(s))
    ensures TrimNewlines(s) == "" || Solid(TrimNewlines(s))
  {
    var n := TrimNewlinesSplits(s);
    EndNewlinesOf(TrimNewlines(s), n);
  }

  lemma EndNewlinesGrow(s: string)
    ensures EndNewlines(s + "\n") == EndNewlines(s) + 1
  {
    assert (s + "\n")[..|s|] == s;
  }

  lemma NewlinesAdd(m: nat, n: nat)
    ensures Newlines(m) + Newlines(n) == Newlines(m + n)
  {
  }

  /** Trimming a concatenation: only the right part is trimmed, unless it is all newlines. */
  lemma TrimNewlinesConcat(a: string, b: string)
    ensures TrimNewlines(a + b) == if TrimNewlines(b) == "" then TrimNewlines(a) else a + TrimNewlines(b)
  {
    var x := TrimNewlines(b);
    var n := TrimNewlinesSplits(b);
    if x == "" {
      TrimAfterNewlines(a, n);
      assert b == Newlines(n);
    } else {
      Reassociate(a, x, Newlines(n));
      TrimNewlinesOf(a + x, n);
    }
  }

  lemma TrimAfterNewlines(a: string, n: nat)
    ensures TrimNewlines(a + Newlines(n)) == TrimNewlines(a)
  {
    var x := TrimNewlines(a);
    var m := TrimNewlinesSplits(a);
    Reassociate(x, Newlines(m), Newlines(n));
    NewlinesAdd(m, n);
    TrimNewlinesOf(x, m + n);
  }

  lemma Reassociate(a: string, b: string, c: string)
    ensures a + (b + c) == a + b + c
  {
  }

  // ----- growing a text at its end -----

  predicate NoNewline(s: string) {
    forall i :: 0 <= i < |s| ==> s[i] != '\n'
  }

  lemma {:induction false} LinesNewline(s: string)
    ensures Lines(s + "\n") == Lines(s) + [""]
    decreases |s|
  {
    var n := FirstNewline(s);
    if n == |s| {
      OneLine(s);
      LinesOfComplete(s + "\n");
    } else {
      var q := s[n + 1..];
      LinesNewline(q);
      LinesUnfold(s, n);
      FirstNewlineStays(s, "\n");
      LinesUnfold(s + "\n", n);
      Glue(s[..n], Lines(q + "\n"), Lines(q), [""]);
    }
  }

  /** The lines, each with its newline. */
  function Unlines(lines: seq<string>): string {
    if lines == [] then "" else Unlines(lines[..|lines| - 1]) + (lines[|lines| - 1] + "\n")
  }

  lemma {:induction false} CompleteUnlines(lines: seq<string>)
    requires forall i :: 0 <= i < |lines| ==> NoNewline(lines[i])
    ensures EndsLine(Unlines(lines)) && Complete(Unlines(lines)) == lines
    ensures lines != [] ==> Unlines(lines) != ""
    decreases |lines|
  {
    if lines != [] {
      var init, l := lines[..|lines| - 1], lines[|lines| - 1];
      CompleteUnlines(init);
      OneLine(l);
      CompleteConcat(Unlines(init), l + "\n");
      assert init + [l] == lines;
    }
  }

  lemma UnlinesSnoc(lines: seq<string>, l: string)
    ensures Unlines(lines + [l]) == Unlines(lines) + (l + "\n")
  {
    assert (lines + [l])[..|lines|] == lines;
  }

  lemma {:induction false} UnlinesCons(l: string, lines: seq<string>)
    ensures Unlines([l] + lines) == (l + "\n") + Unlines(lines)
    decreases |lines|
  {
    if lines == [] {
      assert [l] + lines == [] + [l];
      UnlinesSnoc([], l);
      assert "" + (l + "\n") == (l + "\n") + "";
    } else {
      var init, x := lines[..|lines| - 1], lines[|lines| - 1];
      assert lines == init + [x] && [l] + lines == [l] + init + [x];
      UnlinesCons(l, init);
      UnlinesSnoc([l] + init, x);
      UnlinesSnoc(init, x);
      Reassociate(l + "\n", Unlines(init), x + "\n");
    }
  }

  /** The lines of a text, put together again, are the text. */
  lemma {:induction false} UnlinesOfLines(s: string)
    ensures Unlines(Lines(s)) == s + "\n"
    decreases |s|
  {
    var n := FirstNewline(s);
    if n == |s| {
      UnlinesSnoc([], s);
      assert [] + [s] == [s] && "" + (s + "\n") == s + "\n";
    } else {
      UnlinesOfLines(s[n + 1..]);
      UnlinesCons(s[..n], Lines(s[n + 1..]));
      assert s == s[..n] + "\n" + s[n + 1..];
      Reassociate(s[..n] + "\n", s[n + 1..], "\n");
    }
  }
}
