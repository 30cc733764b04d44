/** Words, blanks and widths of a line, as Go's `strings` and the rune widths see
    them. The width of a rune is a parameter; a string's width is the sum of its
    runes' widths. */
module Words {
  import opened Text

  // ----- ink: the characters that are not white space -----

  function Ink(s: string): string {
    if s == "" then ""
    else Ink(s[..|s| - 1]) + if IsSpace(s[|s| - 1]) then "" else [s[|s| - 1]]
  }

  lemma {:induction false} InkConcat(a: string, b: string)
    ensures Ink(a + b) == Ink(a) + Ink(b)
    decreases |b|
  {
    if b == "" {
      assert a + b == a;
    } else {
      assert (a + b)[..|a + b| - 1] == a + b[..|b| - 1];
      InkConcat(a, b[..|b| - 1]);
    }
  }

  lemma {:induction false} InkOfSpace(s: string)
    requires forall i :: 0 <= i < |s| ==> IsSpace(s[i])
    ensures Ink(s) == ""
    decreases |s|
  {
    if s != "" {
      InkOfSpace(s[..|s| - 1]);
    }
  }

  lemma {:induction false} InkOfWord(s: string)
    requires forall i :: 0 <= i < |s| ==> !IsSpace(s[i])
    ensures Ink(s) == s
    decreases |s|
  {
    if s != "" {
      InkOfWord(s[..|s| - 1]);
    }
  }

  function Joined(ss: seq<string>): string {
    if ss == [] then "" else ss[0] + Joined(ss[1..])
  }

  lemma JoinedCons(s: string, ss: seq<string>)
    ensures Joined([s] + ss) == s + Joined(ss)
  {
  }

  lemma {:induction false} JoinedSnoc(ss: seq<string>, s: string)
    ensures Joined(ss + [s]) == Joined(ss) + s
    decreases |ss|
  {
    if ss == [] {
      JoinedCons(s, []);
      assert ss + [s] == [s] + [];
      assert s + "" == s == "" + s;
    } else {
      assert (ss + [s])[1..] == ss[1..] + [s];
      JoinedSnoc(ss[1..], s);
      Reassociate(ss[0], Joined(ss[1..]), s);
    }
  }

  lemma InkOfNewline(l: string, q: string)
    ensures Ink(l + ("\n" + q)) == Ink(l) + Ink(q)
  {
    InkConcat(l, "\n" + q);
    InkConcat("\n", q);
    InkOfSpace("\n");
    assert "" + Ink(q) == Ink(q);
  }

  /** Splitting into lines loses only newlines. */
  lemma {:induction false} InkOfLines(s: string)
    ensures Ink(s) == Ink(Joined(Lines(s)))
    decreases |s|
  {
    var n := FirstNewline(s);
    if n == |s| {
      JoinedCons(s, []);
      assert [s] + [] == [s] && s + "" == s;
    } else {
      var l, q := s[..n], s[n + 1..];
      InkOfLines(q);
      assert s == l + ("\n" + q);
      InkOfNewline(l, q);
      JoinedCons(l, Lines(q));
      InkConcat(l, Joined(Lines(q)));
    }
  }

  // ----- words -----

  function WordEnd(s: string): (n: nat)
    ensures n <= |s|
    ensures forall i :: 0 <= i < n ==> !IsSpace(s[i])
    ensures s != "" && !IsSpace(s[0]) ==> n > 0
  {
    if s == "" || IsSpace(s[0]) then 0 else 1 + WordEnd(s[1..])
  }

  /** `strings.Fields`. */
  function Fields(s: string): seq<string>
    decreases |s|
  {
    if s == "" then []
    else if IsSpace(s[0]) then Fields(s[1..])
    else [s[..WordEnd(s)]] + Fields(s[WordEnd(s)..])
  }

  predicate IsWord(s: string) {
    s != "" && forall i :: 0 <= i < |s| ==> !IsSpace(s[i])
  }

  lemma {:induction false} FieldsAreWords(s: string)
    ensures forall k :: 0 <= k < |Fields(s)| ==> IsWord(Fields(s)[k])
    decreases |s|
  {
    if s != "" {
      FieldsAreWords(if IsSpace(s[0]) then s[1..] else s[WordEnd(s)..]);
    }
  }

  lemma InkAfterSpace(s: string)
    requires s != "" && IsSpace(s[0])
    ensures Ink(s) == Ink(s[1..])
  {
    assert s == [s[0]] + s[1..];
    InkConcat([s[0]], s[1..]);
    InkOfSpace([s[0]]);
    assert "" + Ink(s[1..]) == Ink(s[1..]);
  }

  /** The words of a line are its ink, in order. */
  lemma {:induction false} FieldsKeepInk(s: string)
    ensures Joined(Fields(s)) == Ink(s)
    decreases |s|
  {
    if s == "" {
    } else if IsSpace(s[0]) {
      FieldsKeepInk(s[1..]);
      InkAfterSpace(s);
    } else {
      var n := WordEnd(s);
      var word, rest := s[..n], s[n..];
      FieldsKeepInk(rest);
      assert s == word + rest;
      InkConcat(word, rest);
      InkOfWord(word);
      JoinedCons(word, Fields(rest));
    }
  }

  // ----- where the words are -----

  ghost predicate AllSpace(s: string) {
    forall i :: 0 <= i < |s| ==> IsSpace(s[i])
  }

  /** Gaps and words in turn, a gap first and last. */
  function Woven(gaps: seq<string>, words: seq<string>): string
    requires |gaps| == |words| + 1
    decreases |words|
  {
    if words == [] then gaps[0] else gaps[0] + words[0] + Woven(gaps[1..], words[1..])
  }

  /** White space around the words and between every two of them. */
  ghost predicate Gaps(gaps: seq<string>, n: nat) {
    && |gaps| == n + 1 && (forall k :: 0 <= k <= n ==> AllSpace(gaps[k]))
    && (forall k :: 0 < k < n ==> gaps[k] != "")
  }

  lemma {:induction false} WordEndStops(s: string)
    ensures WordEnd(s) < |s| ==> IsSpace(s[WordEnd(s)])
    decreases |s|
  {
    if s != "" && !IsSpace(s[0]) {
      WordEndStops(s[1..]);
    }
  }

  /** The words of a line are what stands between its white space. */
  lemma {:induction false} FieldsAreBetweenGaps(s: string) returns (gaps: seq<string>)
    ensures Gaps(gaps, |Fields(s)|) && s == Woven(gaps, Fields(s))
    ensures s != "" && IsSpace(s[0]) ==> gaps[0] != ""
    decreases |s|
  {
    if s == "" {
      gaps := [""];
    } else if IsSpace(s[0]) {
      var g := FieldsAreBetweenGaps(s[1..]);
      gaps := [[s[0]] + g[0]] + g[1..];
      WovenHead([s[0]], g, Fields(s[1..]));
      assert s == [s[0]] + s[1..];
    } else {
      var n := WordEnd(s);
      WordEndStops(s);
      var g := FieldsAreBetweenGaps(s[n..]);
      gaps := [""] + g;
      var rest := Fields(s[n..]);
      assert Fields(s) == [s[..n]] + rest;
      assert gaps[1..] == g && ([s[..n]] + rest)[1..] == rest;
      assert s == "" + s[..n] + s[n..];
    }
  }

  lemma WovenHead(x: string, g: seq<string>, words: seq<string>)
    requires |g| == |words| + 1
    ensures Woven([x + g[0]] + g[1..], words) == x + Woven(g, words)
  {
    var h := [x + g[0]] + g[1..];
    if words != [] {
      assert h[1..] == g[1..];
      assert x + g[0] + words[0] + Woven(g[1..], words[1..]) == x + (g[0] + words[0] + Woven(g[1..], words[1..]));
    }
  }

  // ----- widths -----

  function Width(w: char -> nat, s: string): nat {
    if s == "" then 0 else Width(w, s[..|s| - 1]) + w(s[|s| - 1])
  }

  lemma {:induction false} WidthConcat(w: char -> nat, a: string, b: string)
    ensures Width(w, a + b) == Width(w, a) + Width(w, b)
    decreases |b|
  {
    if b == "" {
      assert a + b == a;
    } else {
      assert (a + b)[..|a + b| - 1] == a + b[..|b| - 1];
      WidthConcat(w, a, b[..|b| - 1]);
    }
  }

  lemma WidthOfOne(w: char -> nat, c: char)
    ensures Width(w, [c]) == w(c)
  {
    assert [c][..0] == "";
  }

  lemma WidthSplit(w: char -> nat, s: string, k: nat)
    requires k <= |s|
    ensures Width(w, s) == Width(w, s[..k]) + Width(w, s[k..])
  {
    assert s == s[..k] + s[k..];
    WidthConcat(w, s[..k], s[k..]);
  }

  lemma WordHasNoNewline(s: string)
    requires IsWord(s)
    ensures NoNewline(s)
  {
  }

  lemma SubWord(s: string, k: nat)
    requires 0 < k <= |s| && IsWord(s)
    ensures IsWord(s[..k])
    ensures k < |s| ==> IsWord(s[k..])
  {
  }

  lemma {:induction false} InkTrimmed(s: string)
    ensures Ink(TrimNewlines(s)) == Ink(s)
    decreases |s|
  {
    if s != "" && s[|s| - 1] == '\n' {
      InkTrimmed(s[..|s| - 1]);
    }
  }

  predicate Blanks(s: string) {
    forall i :: 0 <= i < |s| ==> s[i] == ' ' || s[i] == '\t'
  }

  lemma InkOfBlanks(s: string)
    requires Blanks(s)
    ensures Ink(s) == "" && NoNewline(s)
  {
  }

  function Spaces(n: nat): (s: string)
    ensures |s| == n && Blanks(s)
  {
    seq(n, _ => ' ')
  }

  lemma {:induction false} WidthOfSpaces(w: char -> nat, n: nat)
    requires w(' ') == 1
    ensures Width(w, Spaces(n)) == n
    decreases n
  {
    if n > 0 {
      assert Spaces(n)[..n - 1] == Spaces(n - 1);
      WidthOfSpaces(w, n - 1);
    }
  }

  lemma SpacesAdd(m: nat, n: nat)
    ensures Spaces(m) + Spaces(n) == Spaces(m + n)
  {
  }
}
