/** Inks set apart by newlines, by two counts that need not agree: what joining
    rendered pieces writes, what rendering the whole writes, and exactly when
    the two are the same text. */
module Spacing {
  import opened Text

  /** Before ink `k` the one side puts back `put[k]` newlines, and the other
      leaves `gap[k]`. */
  datatype Spaces = Spaces(inks: seq<string>, put: seq<nat>, gap: seq<nat>)

  /** An ink is empty or ends in something visible; only the first has nothing
      before it. */
  ghost predicate Proper(r: Spaces) {
    && |r.put| == |r.gap| == |r.inks|
    && (forall k :: 0 <= k < |r.inks| ==> r.inks[k] == "" || Solid(r.inks[k]))
    && (forall k :: 0 < k < |r.inks| ==> r.put[k] > 0 && r.gap[k] > 0)
    && (r.gap != [] ==> r.gap[0] == 0)
  }

  type Row = r: Spaces | Proper(r) ghost witness Spaces([], [], [])

  /** The first `n` inks joined: nothing is put before the first ink, and
      newlines are put for an empty ink too. */
  function Put(r: Row, n: nat): string
    requires n <= |r.inks|
  {
    if n == 0 then ""
    else if Put(r, n - 1) == "" then r.inks[n - 1]
    else Put(r, n - 1) + Newlines(r.put[n - 1]) + r.inks[n - 1]
  }

  /** The first `n` inks with their gaps: an empty ink adds nothing. */
  function Left(r: Row, n: nat): string
    requires n <= |r.inks|
  {
    if n == 0 then ""
    else if r.inks[n - 1] == "" then Left(r, n - 1)
    else Left(r, n - 1) + Newlines(r.gap[n - 1]) + r.inks[n - 1]
  }

  /** A text that grows ink by ink as `Put` does is `Put`. */
  lemma {:induction false} PutIs(r: Row, joined: seq<string>, n: nat)
    requires |joined| == |r.inks| + 1 && joined[0] == "" && n <= |r.inks|
    requires forall k :: 0 <= k < |r.inks| ==>
               joined[k + 1] == if joined[k] == "" then r.inks[k] else joined[k] + Newlines(r.put[k]) + r.inks[k]
    ensures joined[n] == Put(r, n)
    decreases n
  {
    if n > 0 {
      PutIs(r, joined, n - 1);
    }
  }

  lemma {:induction false} LeftIs(r: Row, whole: seq<string>, n: nat)
    requires |whole| == |r.inks| + 1 && whole[0] == "" && n <= |r.inks|
    requires forall k :: 0 <= k < |r.inks| ==>
               whole[k + 1] == if r.inks[k] == "" then whole[k] else whole[k] + Newlines(r.gap[k]) + r.inks[k]
    ensures whole[n] == Left(r, n)
    decreases n
  {
    if n > 0 {
      LeftIs(r, whole, n - 1);
    }
  }

  /** `xs[i]` to `xs[j - 1]`. */
  function Sum(xs: seq<nat>, i: nat, j: nat): (s: nat)
    requires i <= j <= |xs|
    ensures i == j ==> s == 0
    ensures i < j ==> s >= xs[j - 1]
  {
    if i == j then 0 else Sum(xs, i, j - 1) + xs[j - 1]
  }

  /** Inks `j` and `k` with only empty ones between them. */
  ghost predicate Adjacent(inks: seq<string>, j: nat, k: nat)
    requires j < k < |inks|
  {
    inks[j] != "" && inks[k] != "" && forall i :: j < i < k ==> inks[i] == ""
  }

  /** Between neighbouring inks both sides have the same number of newlines. */
  ghost predicate Even(r: Row, n: nat)
    requires n <= |r.inks|
  {
    forall j: nat, k: nat | j < k < n :: Adjacent(r.inks, j, k) ==> Sum(r.put, j + 1, k + 1) == r.gap[k]
  }

  ghost predicate NoInk(r: Row, n: nat)
    requires n <= |r.inks|
  {
    forall k :: 0 <= k < n ==> r.inks[k] == ""
  }

  /** No ink at all, or ink first and last and even spaces between. */
  ghost predicate Level(r: Row)
  {
    var n := |r.inks|;
    NoInk(r, n) || (r.inks[0] != "" && r.inks[n - 1] != "" && Even(r, n))
  }

  /** Place of the last ink, or -1. */
  function LastInk(r: Row, n: nat): (l: int)
    requires n <= |r.inks|
    ensures -1 <= l < n
    ensures l >= 0 ==> r.inks[l] != ""
    ensures forall k :: l < k < n ==> r.inks[k] == ""
  {
    if n == 0 then -1 else if r.inks[n - 1] != "" then n - 1 else LastInk(r, n - 1)
  }

  // ----- texts that differ at some place -----

  ghost predicate Differ(a: string, b: string) {
    exists i :: 0 <= i < |a| && i < |b| && a[i] != b[i]
  }

  lemma DifferGrows(a: string, b: string, a': string, b': string)
    requires Differ(a, b) && a <= a' && b <= b'
    ensures Differ(a', b')
  {
    var i :| 0 <= i < |a| && i < |b| && a[i] != b[i];
    assert a'[i] == a[i] && b'[i] == b[i];
  }

  lemma FirstSolid(x: string) returns (j: nat)
    requires Solid(x)
    ensures j < |x| && x[j] != '\n' && forall i :: 0 <= i < j ==> x[i] == '\n'
  {
    j := 0;
    while x[j] == '\n'
      invariant j < |x| && forall i :: 0 <= i < j ==> x[i] == '\n'
      decreases |x| - j
    {
      j := j + 1;
    }
  }

  /** The same ink behind fewer newlines, after the same text. */
  lemma FewerDiffer(pre: string, m: nat, n: nat, x: string)
    requires Solid(x) && m < n
    ensures Differ(pre + Newlines(m) + x, pre + Newlines(n) + x)
    ensures Differ(pre + Newlines(n) + x, pre + Newlines(m) + x)
  {
    var j := FirstSolid(x);
    var a, b := pre + Newlines(m) + x, pre + Newlines(n) + x;
    var i := |pre| + m + j;
    assert a[i] == x[j];
    assert b[i] == '\n' by {
      if m + j >= n {
        assert b[i] == x[m + j - n];
      } else {
        assert b[i] == Newlines(n)[m + j];
      }
    }
    assert i < |b|;
  }

  // ----- both sides, ink by ink -----

  /** Where the two sides stand after `n` inks: nothing yet; the same up to
      newlines that only the one side has put; or different for good. */
  ghost predicate Stands(r: Row, n: nat)
    requires n <= |r.inks|
  {
    var l := LastInk(r, n);
    if l < 0 then Put(r, n) == "" && Left(r, n) == ""
    else && Put(r, n) != ""
         && if r.inks[0] != "" && Even(r, n)
            then Put(r, n) == Left(r, n) + Newlines(Sum(r.put, l + 1, n))
            else Differ(Put(r, n), Left(r, n))
  }

  /** One more ink is even with the ones before it if its own space is. */
  lemma EvenGrows(r: Row, n: nat)
    requires n < |r.inks|
    ensures var l := LastInk(r, n);
            Even(r, n + 1) <==>
            Even(r, n) && (l >= 0 && r.inks[n] != "" ==> Sum(r.put, l + 1, n + 1) == r.gap[n])
  {
    var l := LastInk(r, n);
    if l >= 0 && r.inks[n] != "" {
      assert Adjacent(r.inks, l, n);
    }
    forall j: nat | j < n && Adjacent(r.inks, j, n) ensures j == l {
    }
  }

  lemma EmptyInk(r: Row, n: nat)
    requires n < |r.inks| && Stands(r, n) && r.inks[n] == ""
    ensures Stands(r, n + 1)
  {
    var l := LastInk(r, n);
    EvenGrows(r, n);
    if l >= 0 {
      var a, b, k := Put(r, n), Left(r, n), r.put[n];
      assert Put(r, n + 1) == a + Newlines(k);
      if r.inks[0] != "" && Even(r, n) {
        var m := Sum(r.put, l + 1, n);
        NewlinesAdd(m, k);
        Reassociate(b, Newlines(m), Newlines(k));
      } else {
        DifferGrows(a, b, a + Newlines(k), b);
      }
    }
  }

  lemma FirstInk(r: Row, n: nat)
    requires n < |r.inks| && Stands(r, n) && r.inks[n] != "" && LastInk(r, n) < 0
    ensures Stands(r, n + 1)
  {
    var x, g := r.inks[n], r.gap[n];
    EvenGrows(r, n);
    assert Left(r, n + 1) == "" + Newlines(g) + x;
    assert "" + Newlines(0) + x == x == x + Newlines(0);
    if n > 0 {
      FewerDiffer("", 0, g, x);
    } else {
      assert Even(r, 1);
    }
  }

  lemma NextInk(r: Row, n: nat)
    requires n < |r.inks| && Stands(r, n) && r.inks[n] != "" && LastInk(r, n) >= 0
    ensures Stands(r, n + 1)
  {
    var l, x, k, g := LastInk(r, n), r.inks[n], r.put[n], r.gap[n];
    var a, b := Put(r, n), Left(r, n);
    EvenGrows(r, n);
    assert Put(r, n + 1) == a + Newlines(k) + x && Left(r, n + 1) == b + Newlines(g) + x;
    if r.inks[0] != "" && Even(r, n) {
      var m := Sum(r.put, l + 1, n);
      NewlinesAdd(m, k);
      Reassociate(b, Newlines(m), Newlines(k));
      SpacesDecide(b, m + k, g, x);
    } else {
      DifferGrows(a, b, a + Newlines(k) + x, b + Newlines(g) + x);
    }
  }

  /** After the same text: equal spaces make equal texts, others differing ones. */
  lemma SpacesDecide(pre: string, m: nat, n: nat, x: string)
    requires Solid(x)
    ensures var a, b := pre + Newlines(m) + x, pre + Newlines(n) + x;
            if m == n then a == b + Newlines(0) else Differ(a, b)
  {
    if m < n {
      FewerDiffer(pre, m, n, x);
    } else if n < m {
      FewerDiffer(pre, n, m, x);
    }
  }

  lemma {:induction false} AlwaysStands(r: Row, n: nat)
    requires n <= |r.inks|
    ensures Stands(r, n)
    decreases n
  {
    if n > 0 {
      AlwaysStands(r, n - 1);
      if r.inks[n - 1] == "" {
        EmptyInk(r, n - 1);
      } else if LastInk(r, n - 1) < 0 {
        FirstInk(r, n - 1);
      } else {
        NextInk(r, n - 1);
      }
    }
  }

  /** Both sides are the same text if and only if the row is level. */
  lemma SameIffLevel(r: Row)
    ensures Put(r, |r.inks|) == Left(r, |r.inks|) <==> Level(r)
  {
    var n := |r.inks|;
    AlwaysStands(r, n);
    var l := LastInk(r, n);
    if l >= 0 {
      assert !NoInk(r, n);
      var a, b, k := Put(r, n), Left(r, n), Sum(r.put, l + 1, n);
      if r.inks[0] != "" && Even(r, n) {
        assert |a| == |b| + k;
        assert b + Newlines(0) == b;
      }
    } else {
      assert NoInk(r, n);
    }
  }

  // ----- two kinds of rows -----

  /** Where what is put back is always the gap: all inks, or none. */
  lemma EvenPutIffAllInk(r: Row)
    requires forall k :: 0 < k < |r.inks| ==> r.put[k] == r.gap[k]
    ensures Level(r) <==> NoInk(r, |r.inks|) || forall k :: 0 <= k < |r.inks| ==> r.inks[k] != ""
  {
    var n := |r.inks|;
    if forall k :: 0 <= k < n ==> r.inks[k] != "" {
      forall j: nat, k: nat | j < k < n && Adjacent(r.inks, j, k) ensures Sum(r.put, j + 1, k + 1) == r.gap[k] {
        assert r.inks[j + 1] != "";
      }
    } else if r.inks[0] != "" && r.inks[n - 1] != "" {
      var i := FirstEmpty(r);
      var k := NextSeen(r, i);
      assert Sum(r.put, i, k + 1) == Sum(r.put, i, k) + r.put[k];
      assert Sum(r.put, i, k) >= r.put[k - 1] > 0;
      assert Adjacent(r.inks, i - 1, k);
    }
  }

  lemma FirstEmpty(r: Row) returns (i: nat)
    requires exists k :: 0 <= k < |r.inks| && r.inks[k] == ""
    requires r.inks[0] != ""
    ensures 0 < i < |r.inks| && r.inks[i] == "" && r.inks[i - 1] != ""
  {
    i := 1;
    while r.inks[i] != ""
      invariant 0 < i < |r.inks| && forall k :: 0 <= k < i ==> r.inks[k] != ""
      decreases |r.inks| - i
    {
      i := i + 1;
    }
  }

  lemma NextSeen(r: Row, i: nat) returns (k: nat)
    requires i < |r.inks| && r.inks[i] == "" && r.inks[|r.inks| - 1] != ""
    ensures i < k < |r.inks| && r.inks[k] != "" && forall j :: i <= j < k ==> r.inks[j] == ""
  {
    k := i;
    while r.inks[k] == ""
      invariant i <= k < |r.inks| && forall j :: i <= j < k ==> r.inks[j] == ""
      decreases |r.inks| - k
    {
      k := k + 1;
    }
  }

  /** Where every ink is seen: exactly when what is put back is always the gap. */
  lemma AllInkIffEvenPut(r: Row)
    requires forall k :: 0 <= k < |r.inks| ==> r.inks[k] != ""
    ensures Level(r) <==> forall k :: 0 < k < |r.inks| ==> r.put[k] == r.gap[k]
  {
    if forall k :: 0 < k < |r.inks| ==> r.put[k] == r.gap[k] {
      EvenPutIffAllInk(r);
    } else if Level(r) {
      forall k | 0 < k < |r.inks| ensures r.put[k] == r.gap[k] {
        assert Adjacent(r.inks, k - 1, k);
        assert Sum(r.put, k, k + 1) == Sum(r.put, k, k) + r.put[k];
      }
    }
  }
}
