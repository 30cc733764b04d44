/** Edit distance: the two-row `levenshtein` of cmd/chat_commands.go against
    the least number of single-character edits. A `char` here is one byte of
    the source's string. */
module EditDistance {

  /** One edit of a string: put a character in, take one out, or change one. */
  datatype Edit = Insert(pos: nat, ch: char) | Delete(pos: nat) | Replace(pos: nat, ch: char)

  predicate Fits(e: Edit, s: string) {
    if e.Insert? then e.pos <= |s| else e.pos < |s|
  }

  function Apply(e: Edit, s: string): string
    requires Fits(e, s)
  {
    match e
    case Insert(k, c) => s[..k] + [c] + s[k..]
    case Delete(k) => s[..k] + s[k + 1..]
    case Replace(k, c) => s[..k] + [c] + s[k + 1..]
  }

  /** The edits of `script`, applied one after the other, turn `a` into `b`. */
  ghost predicate Turns(script: seq<Edit>, a: string, b: string)
    decreases |script|
  {
    if script == [] then a == b
    else Fits(script[0], a) && Turns(script[1..], Apply(script[0], a), b)
  }

  function Min(x: int, y: int): int { if x <= y then x else y }

  function Init(s: string): string
    requires s != []
  {
    s[..|s| - 1]
  }

  function Last(s: string): char
    requires s != []
  {
    s[|s| - 1]
  }

  /** The recursive edit distance, on last characters. */
  function Distance(a: string, b: string): nat
    decreases |a| + |b|
  {
    if a == [] then |b|
    else if b == [] then |a|
    else
      Min(Distance(Init(a), b) + 1,
          Min(Distance(a, Init(b)) + 1,
              Distance(Init(a), Init(b)) + if Last(a) == Last(b) then 0 else 1))
  }

  lemma {:induction false} DistanceSymmetric(a: string, b: string)
    ensures Distance(a, b) == Distance(b, a)
    decreases |a| + |b|
  {
    if a != [] && b != [] {
      DistanceSymmetric(Init(a), b);
      DistanceSymmetric(a, Init(b));
      DistanceSymmetric(Init(a), Init(b));
    }
  }

  lemma {:induction false} DistanceToSelf(a: string)
    ensures Distance(a, a) == 0
    decreases |a|
  {
    if a != [] {
      DistanceToSelf(Init(a));
    }
  }

  /** Every edit distance is at least the difference of the lengths. */
  lemma {:induction false} DistanceAtLeastLengthGap(a: string, b: string)
    ensures Distance(a, b) >= |a| - |b|
    ensures Distance(a, b) >= |b| - |a|
    decreases |a| + |b|
  {
    if a != [] && b != [] {
      DistanceAtLeastLengthGap(Init(a), b);
      DistanceAtLeastLengthGap(a, Init(b));
      DistanceAtLeastLengthGap(Init(a), Init(b));
    }
  }

  lemma {:induction false} DistanceZeroMeansEqual(a: string, b: string)
    requires Distance(a, b) == 0
    ensures a == b
    decreases |a| + |b|
  {
    if a != [] && b != [] {
      DistanceZeroMeansEqual(Init(a), Init(b));
      assert a == Init(a) + [Last(a)];
      assert b == Init(b) + [Last(b)];
    }
  }

  // ----- edits at the end and before it -----

  lemma EditAtEnd(a: string, c: char)
    ensures Apply(Insert(|a|, c), a) == a + [c]
    ensures a != [] ==> Apply(Delete(|a| - 1), a) == Init(a)
    ensures a != [] ==> Apply(Replace(|a| - 1, c), a) == Init(a) + [c]
    ensures a != [] ==> a == Init(a) + [Last(a)]
  {
  }

  lemma ApplyExtended(e: Edit, a: string, c: char)
    requires Fits(e, a)
    ensures Fits(e, a + [c])
    ensures Apply(e, a + [c]) == Apply(e, a) + [c]
  {
    var k := e.pos;
    assert (a + [c])[..k] == a[..k];
    if e.Insert? {
      assert (a + [c])[k..] == a[k..] + [c];
    } else {
      assert (a + [c])[k + 1..] == a[k + 1..] + [c];
    }
  }

  // ----- one edit moves the distance by at most one -----

  /** Dropping the last character costs at most one edit either way. */
  lemma {:induction false} DropLastNear(a: string, b: string)
    requires a != []
    ensures Distance(Init(a), b) <= Distance(a, b) + 1
    ensures Distance(a, b) <= Distance(Init(a), b) + 1
    decreases |b|
  {
    if b != [] {
      DropLastNear(a, Init(b));
      if Init(a) == [] {
        DistanceAtLeastLengthGap(a, b);
      }
    }
  }

  lemma {:induction false} ReplaceLastNear(a: string, a': string, b: string)
    requires a != [] && a' != [] && Init(a) == Init(a')
    ensures Distance(a', b) <= Distance(a, b) + 1
    decreases |b|
  {
    if b != [] {
      ReplaceLastNear(a, a', Init(b));
    }
  }

  /** If two prefixes are near every string, so are their extensions by one
      common character. */
  lemma {:induction false} ExtendNear(x: string, x': string, c: char, b: string)
    requires forall d :: Distance(x', d) <= Distance(x, d) + 1
    ensures Distance(x' + [c], b) <= Distance(x + [c], b) + 1
    decreases |b|
  {
    var y, y' := x + [c], x' + [c];
    assert Init(y) == x && Init(y') == x';
    if b == [] {
      assert Distance(x', []) <= Distance(x, []) + 1;
    } else {
      ExtendNear(x, x', c, Init(b));
      assert Distance(x', b) <= Distance(x, b) + 1;
      assert Distance(x', Init(b)) <= Distance(x, Init(b)) + 1;
    }
  }

  /** An edit before the last character leaves the last character alone. */
  lemma ApplyBeforeLast(e: Edit, a: string)
    requires a != [] && Fits(e, Init(a))
    ensures Fits(e, a)
    ensures Apply(e, a) == Apply(e, Init(a)) + [Last(a)]
  {
    EditAtEnd(a, Last(a));
    ApplyExtended(e, Init(a), Last(a));
  }

  lemma {:induction false} EditNear(e: Edit, a: string, b: string)
    requires Fits(e, a)
    ensures Distance(a, b) <= Distance(Apply(e, a), b) + 1
    decreases |a|
  {
    if e.Insert? && e.pos == |a| {
      EditAtEnd(a, e.ch);
      DropLastNear(a + [e.ch], b);
    } else if !e.Insert? && e.pos == |a| - 1 {
      EditAtEnd(a, if e.Replace? then e.ch else Last(a));
      if e.Delete? {
        DropLastNear(a, b);
      } else {
        ReplaceLastNear(Init(a) + [e.ch], a, b);
      }
    } else {
      var x := Init(a);
      forall d ensures Distance(x, d) <= Distance(Apply(e, x), d) + 1 {
        EditNear(e, x, d);
      }
      ExtendNear(Apply(e, x), x, Last(a), b);
      ApplyBeforeLast(e, a);
      EditAtEnd(a, Last(a));
    }
  }

  /** No script is shorter than the distance. */
  lemma {:induction false} NoShorterScript(script: seq<Edit>, a: string, b: string)
    requires Turns(script, a, b)
    ensures |script| >= Distance(a, b)
    decreases |script|
  {
    if script == [] {
      DistanceToSelf(a);
    } else {
      NoShorterScript(script[1..], Apply(script[0], a), b);
      EditNear(script[0], a, b);
    }
  }

  // ----- and some script is exactly that long -----

  /** A shortest script; its edits run from the right end to the left. */
  function BestScript(a: string, b: string): seq<Edit>
    decreases |a| + |b|
  {
    if a == [] then (if b == [] then [] else [Insert(0, Last(b))] + BestScript([], Init(b)))
    else if b == [] then [Delete(|a| - 1)] + BestScript(Init(a), [])
    else if Distance(a, b) == Distance(Init(a), b) + 1 then
      [Delete(|a| - 1)] + BestScript(Init(a), b)
    else if Distance(a, b) == Distance(a, Init(b)) + 1 then
      [Insert(|a|, Last(b))] + BestScript(a, Init(b))
    else if Last(a) == Last(b) then BestScript(Init(a), Init(b))
    else [Replace(|a| - 1, Last(b))] + BestScript(Init(a), Init(b))
  }

  /** A script keeps working when a common character is added on the right. */
  lemma {:induction false} TurnsExtended(script: seq<Edit>, a: string, b: string, c: char)
    requires Turns(script, a, b)
    ensures Turns(script, a + [c], b + [c])
    decreases |script|
  {
    if script != [] {
      TurnsExtended(script[1..], Apply(script[0], a), b, c);
      ApplyExtended(script[0], a, c);
    }
  }

  /** Prepending one edit to a script for the edited string. */
  lemma TurnsCons(e: Edit, rest: seq<Edit>, a: string, b: string)
    requires Fits(e, a) && Turns(rest, Apply(e, a), b)
    ensures Turns([e] + rest, a, b)
  {
  }

  lemma EndsInInsert(inner: seq<Edit>, a: string, b: string)
    requires b != [] && Turns(inner, a, Init(b))
    ensures Turns([Insert(|a|, Last(b))] + inner, a, b)
  {
    TurnsExtended(inner, a, Init(b), Last(b));
    EditAtEnd(a, Last(b));
    EditAtEnd(b, Last(b));
    TurnsCons(Insert(|a|, Last(b)), inner, a, b);
  }

  lemma EndsInDelete(inner: seq<Edit>, a: string, b: string)
    requires a != [] && Turns(inner, Init(a), b)
    ensures Turns([Delete(|a| - 1)] + inner, a, b)
  {
    EditAtEnd(a, Last(a));
    TurnsCons(Delete(|a| - 1), inner, a, b);
  }

  lemma EndsAligned(inner: seq<Edit>, a: string, b: string)
    requires a != [] && b != [] && Turns(inner, Init(a), Init(b))
    ensures Last(a) == Last(b) ==> Turns(inner, a, b)
    ensures Turns([Replace(|a| - 1, Last(b))] + inner, a, b)
  {
    TurnsExtended(inner, Init(a), Init(b), Last(b));
    EditAtEnd(a, Last(b));
    EditAtEnd(b, Last(b));
    TurnsCons(Replace(|a| - 1, Last(b)), inner, a, b);
  }

  lemma {:induction false} BestScriptWorks(a: string, b: string)
    ensures Turns(BestScript(a, b), a, b)
    ensures |BestScript(a, b)| == Distance(a, b)
    decreases |a| + |b|
  {
    if a == [] && b == [] {
    } else if a == [] || (b != [] && Distance(a, b) != Distance(Init(a), b) + 1
                          && Distance(a, b) == Distance(a, Init(b)) + 1) {
      BestScriptWorks(a, Init(b));
      EndsInInsert(BestScript(a, Init(b)), a, b);
    } else if b == [] || Distance(a, b) == Distance(Init(a), b) + 1 {
      BestScriptWorks(Init(a), b);
      EndsInDelete(BestScript(Init(a), b), a, b);
    } else {
      BestScriptWorks(Init(a), Init(b));
      EndsAligned(BestScript(Init(a), Init(b)), a, b);
    }
  }

  /** `d` is the least number of single-character edits from `a` to `b`. */
  ghost predicate LeastEdits(d: nat, a: string, b: string) {
    && (exists script :: Turns(script, a, b) && |script| == d)
    && (forall script :: Turns(script, a, b) ==> |script| >= d)
  }

  lemma DistanceIsLeastEdits(a: string, b: string)
    ensures LeastEdits(Distance(a, b), a, b)
  {
    BestScriptWorks(a, b);
    forall script | Turns(script, a, b) ensures |script| >= Distance(a, b) {
      NoShorterScript(script, a, b);
    }
  }

  // ----- the two-row algorithm -----

  /** Cell `j` of the row below `prev`, for the character `c` of the longer string. */
  function NextCell(prev: seq<int>, c: char, b: string, i: nat, j: nat): int
    requires j <= |b| < |prev|
  {
    if j == 0 then i
    else Min(prev[j] + 1,
             Min(NextCell(prev, c, b, i, j - 1) + 1,
                 prev[j - 1] + if c == b[j - 1] then 0 else 1))
  }

  /** Fills `curr` with the row below `prev`. */
  method FillRow(c: char, b: string, i: nat, prev: array<int>, curr: array<int>)
    requires prev != curr && prev.Length == |b| + 1 == curr.Length
    modifies curr
    ensures forall j :: 0 <= j <= |b| ==> curr[j] == NextCell(prev[..], c, b, i, j)
  {
    curr[0] := i;
    ghost var above := prev[..];
    for j := 1 to |b| + 1
      invariant prev[..] == above
      invariant forall k :: 0 <= k < j ==> curr[k] == NextCell(above, c, b, i, k)
    {
      var cost := 1;
      if c == b[j - 1] {
        cost := 0;
      }
      curr[j] := Min(prev[j] + 1, Min(curr[j - 1] + 1, prev[j - 1] + cost));
    }
  }

  /** `row` holds the distances of `a` to every prefix of `b`. */
  ghost predicate IsRow(row: seq<int>, a: string, b: string) {
    |row| == |b| + 1 && forall j :: 0 <= j <= |b| ==> row[j] == Distance(a, b[..j])
  }

  lemma {:induction false} NextCellIsDistance(prev: seq<int>, a: string, b: string, j: nat)
    requires a != [] && IsRow(prev, Init(a), b) && j <= |b|
    ensures NextCell(prev, Last(a), b, |a|, j) == Distance(a, b[..j])
    decreases j
  {
    if j > 0 {
      NextCellIsDistance(prev, a, b, j - 1);
      assert Init(b[..j]) == b[..j - 1];
      assert prev[j] == Distance(Init(a), b[..j]);
      assert prev[j - 1] == Distance(Init(a), b[..j - 1]);
    }
  }

  lemma NextRowIsRow(prev: seq<int>, next: seq<int>, a: string, b: string, i: nat)
    requires 0 < i <= |a| && IsRow(prev, a[..i - 1], b) && |next| == |b| + 1
    requires forall j :: 0 <= j <= |b| ==> next[j] == NextCell(prev, a[i - 1], b, i, j)
    ensures IsRow(next, a[..i], b)
  {
    assert Init(a[..i]) == a[..i - 1];
    forall j | 0 <= j <= |b| ensures next[j] == Distance(a[..i], b[..j]) {
      NextCellIsDistance(prev, a[..i], b, j);
    }
  }

  lemma FirstRowIsRow(row: seq<int>, b: string)
    requires |row| == |b| + 1 && forall k :: 0 <= k <= |b| ==> row[k] == k
    ensures IsRow(row, [], b)
  {
  }

  /** The table, two rows at a time, swapped after each. */
  method TwoRows(a: string, b: string) returns (d: int)
    ensures d == Distance(a, b)
  {
    var prev := new int[|b| + 1];
    var curr := new int[|b| + 1];
    for j := 0 to |b| + 1
      invariant forall k :: 0 <= k < j ==> prev[k] == k
    {
      prev[j] := j;
    }
    FirstRowIsRow(prev[..], b);
    assert a[..0] == [];
    for i := 1 to |a| + 1
      invariant fresh(prev) && fresh(curr) && prev != curr
      invariant prev.Length == |b| + 1 == curr.Length
      invariant IsRow(prev[..], a[..i - 1], b)
    {
      FillRow(a[i - 1], b, i, prev, curr);
      NextRowIsRow(prev[..], curr[..], a, b, i);
      prev, curr := curr, prev;
    }
    d := prev[|b|];
    assert d == prev[..][|b|];
    assert a[..|a|] == a && b[..|b|] == b;
  }

  method Levenshtein(a: string, b: string) returns (d: int)
    ensures d == Distance(a, b) == Distance(b, a)
  {
    DistanceSymmetric(a, b);
    if a == b {
      DistanceToSelf(a);
      return 0;
    }
    if |a| == 0 {
      return |b|;
    }
    if |b| == 0 {
      return |a|;
    }
    if |b| > |a| {
      d := TwoRows(b, a);
    } else {
      d := TwoRows(a, b);
    }
  }
}
