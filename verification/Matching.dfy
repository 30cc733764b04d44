/** Greedy subsequence matching: `subsequenceMatch` (cmd/chat_history_search.go)
    and `FuzzyMatch` (cmd/autocomplete.go), scores over the reals. */
module Matching {

  /** `e` gives each character of the query its place in the target, in order. */
  ghost predicate Embeds(e: seq<nat>, query: string, target: string) {
    && |e| == |query|
    && (forall k :: 0 <= k < |e| ==> e[k] < |target| && target[e[k]] == query[k])
    && (forall j, k :: 0 <= j < k < |e| ==> e[j] < e[k])
  }

  ghost predicate IsSubsequence(query: string, target: string) {
    exists e :: Embeds(e, query, target)
  }

  /** How many query characters the greedy scan has found in `target[..t]`. */
  function Greedy(target: string, query: string, t: nat): (q: nat)
    requires t <= |target|
    ensures q <= |query| && q <= t
  {
    if t == 0 then 0
    else
      var q := Greedy(target, query, t - 1);
      if q < |query| && target[t - 1] == query[q] then q + 1 else q
  }

  lemma {:induction false} GreedyFinds(target: string, query: string, t: nat) returns (e: seq<nat>)
    requires t <= |target|
    ensures Embeds(e, query[..Greedy(target, query, t)], target[..t])
    decreases t
  {
    e := [];
    if t > 0 {
      var q := Greedy(target, query, t - 1);
      e := GreedyFinds(target, query, t - 1);
      if q < |query| && target[t - 1] == query[q] {
        e := e + [t - 1];
      }
    }
  }

  lemma {:induction false} GreedyIsBest(target: string, query: string, t: nat, e: seq<nat>)
    requires t <= |target| && |e| <= |query| && Embeds(e, query[..|e|], target[..t])
    ensures |e| <= Greedy(target, query, t)
    decreases t
  {
    if |e| > 0 {
      var n := |e| - 1;
      assert e[n] < |target[..t]|;
      var init := e[..n];
      assert Embeds(init, query[..n], target[..t - 1]) by {
        forall k | 0 <= k < n ensures init[k] < t - 1 && target[..t - 1][init[k]] == query[..n][k] {
          assert e[k] < e[n];
        }
      }
      GreedyIsBest(target, query, t - 1, init);
      if e[n] < t - 1 {
        assert Embeds(e, query[..|e|], target[..t - 1]);
        GreedyIsBest(target, query, t - 1, e);
      } else {
        assert target[t - 1] == query[n];
      }
    }
  }

  /** The greedy scan finds the whole query exactly when it can be embedded at all. */
  lemma GreedyDecides(target: string, query: string)
    ensures Greedy(target, query, |target|) == |query| <==> IsSubsequence(query, target)
  {
    assert target[..|target|] == target && query[..|query|] == query;
    if Greedy(target, query, |target|) == |query| {
      var e := GreedyFinds(target, query, |target|);
    }
    if IsSubsequence(query, target) {
      var e :| Embeds(e, query, target);
      GreedyIsBest(target, query, |target|, e);
    }
  }

  /** Once the query is found, the rest of the target changes nothing. */
  lemma {:induction false} GreedySettles(target: string, query: string, s: nat, t: nat)
    requires s <= t <= |target| && Greedy(target, query, s) == |query|
    ensures Greedy(target, query, t) == |query|
    decreases t
  {
    if s < t {
      GreedySettles(target, query, s, t - 1);
    }
  }

  method SubsequenceMatch(target: string, query: string) returns (found: bool)
    ensures found <==> IsSubsequence(query, target)
  {
    GreedyDecides(target, query);
    if |query| == 0 {
      assert Embeds([], query, target);
      return true;
    }
    if |target| == 0 {
      return false;
    }
    var q, t := 0, 0;
    while t < |target| && q < |query|
      invariant t <= |target| && q == Greedy(target, query, t)
    {
      if target[t] == query[q] {
        q := q + 1;
      }
      t := t + 1;
    }
    if q == |query| {
      GreedySettles(target, query, t, |target|);
    }
    return q == |query|;
  }

  predicate StartsWord(prev: char) {
    prev == '/' || prev == '-' || prev == '_' || prev == ' ' || prev == '.'
  }

  /** The scoring scan: characters found, place of the last one, length of the
      run that ends there, and points. */
  datatype Tally = Tally(found: nat, last: int, run: nat, points: real)

  function StartBonus(target: string, i: nat): real
    requires i < |target|
  {
    if i == 0 then 1.5 else if StartsWord(target[i - 1]) then 1.0 else 0.0
  }

  /** The tally after `target[..t]`: a character found is worth one point, half
      a point more for each step of an unbroken run, and a bonus at a word start. */
  function TallyAt(target: string, query: string, t: nat): Tally
    requires t <= |target|
  {
    if t == 0 then Tally(0, -1, 0, 0.0)
    else
      var s := TallyAt(target, query, t - 1);
      var i := t - 1;
      if s.found < |query| && target[i] == query[s.found] then
        var run := if s.last == i - 1 then s.run + 1 else 0;
        Tally(s.found + 1, i, run, s.points + 1.0 + run as real * 0.5 + StartBonus(target, i))
      else s
  }

  lemma {:induction false} TallyFollowsGreedy(target: string, query: string, t: nat)
    requires t <= |target|
    ensures TallyAt(target, query, t).found == Greedy(target, query, t)
    ensures TallyAt(target, query, t).points >= TallyAt(target, query, t).found as real
    decreases t
  {
    if t > 0 {
      TallyFollowsGreedy(target, query, t - 1);
    }
  }

  lemma {:induction false} TallySettles(target: string, query: string, s: nat, t: nat)
    requires s <= t <= |target| && TallyAt(target, query, s).found == |query|
    ensures TallyAt(target, query, t) == TallyAt(target, query, s)
    decreases t
  {
    if s < t {
      TallySettles(target, query, s, t - 1);
    }
  }

  // ----- what the points are for -----

  /** How long the run of neighbouring places is that ends with place `k`; the very
      start of the target counts as a neighbour of the first. */
  function RunAt(e: seq<nat>, k: nat): nat
    requires k < |e|
  {
    if k == 0 then (if e[0] == 0 then 1 else 0)
    else if e[k] == e[k - 1] + 1 then RunAt(e, k - 1) + 1 else 0
  }

  /** The points of a character found at place `i`, with a run of `run` behind it. */
  function Worth(target: string, i: nat, run: nat): real
    requires i < |target|
  {
    1.0 + run as real * 0.5
    + if i == 0 then 1.5
      else if target[i - 1] in {'/', '-', '_', ' ', '.'} then 1.0 else 0.0
  }

  function WorthOf(target: string, e: seq<nat>, n: nat): real
    requires n <= |e| && forall k :: 0 <= k < |e| ==> e[k] < |target|
  {
    if n == 0 then 0.0 else WorthOf(target, e, n - 1) + Worth(target, e[n - 1], RunAt(e, n - 1))
  }

  lemma {:induction false} RunStays(e: seq<nat>, i: nat, k: nat)
    requires k < |e|
    ensures RunAt(e + [i], k) == RunAt(e, k)
    decreases k
  {
    if k > 0 {
      RunStays(e, i, k - 1);
    }
  }

  lemma {:induction false} WorthStays(target: string, e: seq<nat>, i: nat, n: nat)
    requires n <= |e| && i < |target| && forall k :: 0 <= k < |e| ==> e[k] < |target|
    ensures WorthOf(target, e + [i], n) == WorthOf(target, e, n)
    decreases n
  {
    if n > 0 {
      WorthStays(target, e, i, n - 1);
      RunStays(e, i, n - 1);
    }
  }

  /** Where the tally stands: places found, the last of them, its run, and the points
      all of them are worth. */
  ghost predicate Tallies(target: string, e: seq<nat>, s: Tally)
    requires forall k :: 0 <= k < |e| ==> e[k] < |target|
  {
    && s.found == |e| && s.last == (if e == [] then -1 else e[|e| - 1])
    && s.run == (if e == [] then 0 else RunAt(e, |e| - 1)) && s.points == WorthOf(target, e, |e|)
  }

  lemma TallyGrows(target: string, e: seq<nat>, i: nat, s: Tally)
    requires (forall k :: 0 <= k < |e| ==> e[k] < i) && i < |target| && Tallies(target, e, s)
    ensures var run := if s.last == i - 1 then s.run + 1 else 0;
            Tallies(target, e + [i], Tally(s.found + 1, i, run, s.points + 1.0 + run as real * 0.5 + StartBonus(target, i)))
  {
    WorthStays(target, e, i, |e|);
    if e != [] {
      RunStays(e, i, |e| - 1);
    }
  }

  lemma EmbedsOneMore(e: seq<nat>, query: string, target: string, i: nat)
    requires |e| < |query| && i < |target| && Embeds(e, query[..|e|], target[..i]) && target[i] == query[|e|]
    ensures Embeds(e + [i], query[..|e| + 1], target[..i + 1])
  {
  }

  lemma EmbedsStays(e: seq<nat>, query: string, target: string, i: nat)
    requires |e| <= |query| && i < |target| && Embeds(e, query[..|e|], target[..i])
    ensures Embeds(e, query[..|e|], target[..i + 1])
  {
  }

  /** The tally is the worth of the places the greedy scan finds. */
  lemma {:induction false} TallyMeans(target: string, query: string, t: nat) returns (e: seq<nat>)
    requires t <= |target|
    ensures |e| == Greedy(target, query, t) && Embeds(e, query[..|e|], target[..t])
    ensures forall k :: 0 <= k < |e| ==> e[k] < |target|
    ensures Tallies(target, e, TallyAt(target, query, t))
    decreases t
  {
    e := [];
    if t > 0 {
      var s := TallyAt(target, query, t - 1);
      e := TallyMeans(target, query, t - 1);
      if s.found < |query| && target[t - 1] == query[s.found] {
        TallyGrows(target, e, t - 1, s);
        EmbedsOneMore(e, query, target, t - 1);
        e := e + [t - 1];
      } else {
        EmbedsStays(e, query, target, t - 1);
      }
    }
  }

  method ScorePoints(query: string, target: string, bonus: real) returns (score: real)
    requires query != "" && Greedy(target, query, |target|) == |query|
    ensures score == bonus + TallyAt(target, query, |target|).points
  {
    score := bonus;
    var qi, ci, lastMatch, consecutive := 0, 0, -1, 0;
    while ci < |target| && qi < |query|
      invariant ci <= |target| && TallyAt(target, query, ci) == Tally(qi, lastMatch, consecutive, score - bonus)
      invariant consecutive >= 0 && qi <= |query|
    {
      if target[ci] == query[qi] {
        var points := 1.0;
        if lastMatch == ci - 1 {
          consecutive := consecutive + 1;
          points := points + consecutive as real * 0.5;
        } else {
          consecutive := 0;
        }
        if ci == 0 {
          points := points + 1.5;
        } else if StartsWord(target[ci - 1]) {
          points := points + 1.0;
        }
        score := score + points;
        lastMatch := ci;
        qi := qi + 1;
      }
      ci := ci + 1;
    }
    if qi == |query| {
      TallySettles(target, query, ci, |target|);
    }
  }

  lemma RatioBounds(a: real, b: real)
    requires a > 0.0 && b > 0.0
    ensures a / b > 0.0 && (a <= b ==> a / b <= 1.0)
  {
  }

  /** Three quarters for the points against four a character, capped at one,
      and one quarter for the share of the target that the query covers. */
  function Quality(points: real, queryLen: nat, targetLen: nat): (score: real)
    requires 0 < queryLen <= targetLen && points > 0.0
    ensures 0.0 < score <= 1.0
  {
    var share := points / (queryLen as real * 4.0);
    RatioBounds(points, queryLen as real * 4.0);
    RatioBounds(queryLen as real, targetLen as real);
    (if share > 1.0 then 1.0 else share) * 0.75 + (queryLen as real / targetLen as real) * 0.25
  }

  /** Of two candidates with the same points the shorter one scores higher, and of
      two of the same length the one with more points, up to four a character. */
  lemma ShorterScoresHigher(points: real, queryLen: nat, short: nat, long: nat)
    requires 0 < queryLen <= short < long && points > 0.0
    ensures Quality(points, queryLen, short) > Quality(points, queryLen, long)
  {
    FractionFalls(queryLen as real, short as real, long as real);
  }

  lemma FractionFalls(a: real, b: real, c: real)
    requires a > 0.0 && 0.0 < b < c
    ensures a / b > a / c
  {
    assert a / b - a / c == a * (c - b) / (b * c);
    RatioBounds(a * (c - b), b * c);
  }

  lemma RatioAgainst(a: real, max: real)
    requires max > 0.0
    ensures a / max < 1.0 <==> a < max
    ensures a / max > 1.0 <==> a > max
  {
    var x := a / max;
    assert x * max == a;
    assert a - max == (x - 1.0) * max;
  }

  lemma MorePointsScoreHigher(few: real, many: real, queryLen: nat, targetLen: nat)
    requires 0 < queryLen <= targetLen && 0.0 < few < many
    ensures few < queryLen as real * 4.0 ==> Quality(few, queryLen, targetLen) < Quality(many, queryLen, targetLen)
    ensures few >= queryLen as real * 4.0 ==> Quality(few, queryLen, targetLen) == Quality(many, queryLen, targetLen)
  {
    var max := queryLen as real * 4.0;
    RatioAgainst(few, max);
    RatioAgainst(many, max);
    assert many / max - few / max == (many - few) / max;
    RatioBounds(many - few, max);
  }

  /** Full points make three quarters of the score, and covering the whole target
      the fourth. */
  lemma QualityAtEnds(points: real, queryLen: nat, targetLen: nat)
    requires 0 < queryLen <= targetLen && points > 0.0
    ensures points >= queryLen as real * 4.0 && targetLen == queryLen ==> Quality(points, queryLen, targetLen) == 1.0
    ensures points >= queryLen as real * 4.0 ==>
              Quality(points, queryLen, targetLen) == 0.75 + 0.25 * (queryLen as real / targetLen as real)
    ensures points <= queryLen as real * 4.0 ==>
              Quality(points, queryLen, targetLen)
              == 0.75 * (points / (queryLen as real * 4.0)) + 0.25 * (queryLen as real / targetLen as real)
  {
    RatioAgainst(points, queryLen as real * 4.0);
    RatioAgainst(queryLen as real, targetLen as real);
  }

  /** The score of a match: the worth of what the greedy scan finds, and two points
      for a prefix. */
  function ScoreOf(query: string, target: string): real
    requires query != "" && Greedy(target, query, |target|) == |query|
  {
    TallyFollowsGreedy(target, query, |target|);
    Quality(TallyAt(target, query, |target|).points + if query <= target then 2.0 else 0.0, |query|, |target|)
  }

  /** A match exactly when the lower-cased input can be embedded in the
      lower-cased candidate, with a score above 0 and at most 1. */
  method FuzzyMatch(lower: string -> string, input: string, candidate: string) returns (found: bool, score: real)
    ensures input == "" ==> found && score == 0.0
    ensures input != "" ==> (found <==> candidate != "" && IsSubsequence(lower(input), lower(candidate)))
    ensures found && input != "" && lower(input) != "" ==> 0.0 < score <= 1.0
    ensures found && input != "" && lower(input) != "" ==>
              Greedy(lower(candidate), lower(input), |lower(candidate)|) == |lower(input)|
              && score == ScoreOf(lower(input), lower(candidate))
    ensures !found ==> score == 0.0
  {
    if input == "" {
      return true, 0.0;
    }
    if candidate == "" {
      return false, 0.0;
    }
    var query, target := lower(input), lower(candidate);
    found := ScanFinds(query, target);
    score := 0.0;
    if found && query != "" {
      score := MatchScore(query, target);
    }
  }

  /** The first scan: does it reach the end of the query? */
  method ScanFinds(query: string, target: string) returns (found: bool)
    ensures found <==> IsSubsequence(query, target)
    ensures found ==> Greedy(target, query, |target|) == |query|
  {
    GreedyDecides(target, query);
    var qi, ci := 0, 0;
    while ci < |target| && qi < |query|
      invariant ci <= |target| && qi == Greedy(target, query, ci)
    {
      if target[ci] == query[qi] {
        qi := qi + 1;
      }
      ci := ci + 1;
    }
    if qi == |query| {
      GreedySettles(target, query, ci, |target|);
    }
    return qi == |query|;
  }

  method MatchScore(query: string, target: string) returns (score: real)
    requires query != "" && Greedy(target, query, |target|) == |query|
    ensures var points := TallyAt(target, query, |target|).points + if query <= target then 2.0 else 0.0;
            points > 0.0 && score == Quality(points, |query|, |target|)
  {
    TallyFollowsGreedy(target, query, |target|);
    var points := ScorePoints(query, target, if query <= target then 2.0 else 0.0);
    score := FinalScore(points, |query|, |target|);
  }

  method FinalScore(points: real, queryLen: nat, targetLen: nat) returns (score: real)
    requires 0 < queryLen <= targetLen && points > 0.0
    ensures score == Quality(points, queryLen, targetLen)
  {
    var maxPossible := queryLen as real * 4.0;
    var normalized := points / maxPossible;
    if normalized > 1.0 {
      normalized := 1.0;
    }
    RatioBounds(queryLen as real, targetLen as real);
    var ratio := queryLen as real / targetLen as real;
    if ratio > 1.0 {
      ratio := 1.0;
    }
    score := normalized * 0.75 + ratio * 0.25;
  }
}
