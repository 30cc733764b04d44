/** The input-history search of cmd/chat_history_search.go: scoring, the
    exchange sort in place, and the order the result is meant to have. */
module HistorySearch {
  import opened Arithmetic
  import opened Matching

  predicate OccursAt(s: string, q: string, i: nat) {
    i + |q| <= |s| && s[i..i + |q|] == q
  }

  predicate Contains(s: string, q: string) {
    exists i :: 0 <= i <= |s| && OccursAt(s, q, i)
  }

  const EXACT := 1000
  const PREFIX := 800
  const SUBSTRING := 600
  const SUBSEQUENCE := 400

  /** How well a lower-cased entry matches the query; 0 is no match. */
  ghost function Tier(entry: string, query: string): nat {
    if entry == query then EXACT
    else if query <= entry then PREFIX
    else if Contains(entry, query) then SUBSTRING
    else if IsSubsequence(query, entry) then SUBSEQUENCE
    else 0
  }

  datatype Scored = Scored(entry: string, score: int, idx: nat)

  /** Ranks strictly before: a higher score, or the same and more recent. */
  predicate Before(x: Scored, y: Scored) {
    x.score > y.score || (x.score == y.score && x.idx > y.idx)
  }

  ghost predicate Ranked(s: seq<Scored>) {
    forall i, j :: 0 <= i < j < |s| ==> Before(s[i], s[j])
  }

  ghost predicate DistinctIdx(s: seq<Scored>) {
    forall i, j :: 0 <= i < j < |s| ==> s[i].idx != s[j].idx
  }

  // ----- the sort -----

  method Swap(a: array<Scored>, i: nat, j: nat)
    requires i < j < a.Length && DistinctIdx(a[..])
    modifies a
    ensures a[i] == old(a[j]) && a[j] == old(a[i])
    ensures forall k :: 0 <= k < a.Length && k != i && k != j ==> a[k] == old(a[k])
    ensures multiset(a[..]) == old(multiset(a[..])) && DistinctIdx(a[..])
  {
    a[i], a[j] := a[j], a[i];
  }

  /** Place `i` gets the first in rank among those from `i` on. */
  method SelectInto(a: array<Scored>, i: nat)
    requires i < a.Length && DistinctIdx(a[..])
    requires forall p, q :: 0 <= p < i <= q < a.Length ==> Before(a[p], a[q])
    modifies a
    ensures forall k :: 0 <= k < i ==> a[k] == old(a[k])
    ensures forall p, q :: 0 <= p < i <= q < a.Length ==> Before(a[p], a[q])
    ensures forall q :: i < q < a.Length ==> Before(a[i], a[q])
    ensures multiset(a[..]) == old(multiset(a[..])) && DistinctIdx(a[..])
  {
    for j := i + 1 to a.Length
      invariant forall k :: 0 <= k < i ==> a[k] == old(a[k])
      invariant forall p, q :: 0 <= p < i <= q < a.Length ==> Before(a[p], a[q])
      invariant forall q :: i < q < j ==> Before(a[i], a[q])
      invariant multiset(a[..]) == old(multiset(a[..])) && DistinctIdx(a[..])
    {
      assert a[..][i].idx != a[..][j].idx;
      if Before(a[j], a[i]) {
        Swap(a, i, j);
      }
    }
  }

  method ExchangeSort(a: array<Scored>)
    requires DistinctIdx(a[..])
    modifies a
    ensures Ranked(a[..]) && multiset(a[..]) == old(multiset(a[..]))
  {
    for i := 0 to a.Length
      invariant forall p, q :: 0 <= p < i && p < q < a.Length ==> Before(a[p], a[q])
      invariant multiset(a[..]) == old(multiset(a[..])) && DistinctIdx(a[..])
    {
      SelectInto(a, i);
    }
  }

  lemma MembersAgree(x: seq<Scored>, y: seq<Scored>, i: nat) returns (k: nat)
    requires multiset(x) == multiset(y) && i < |x|
    ensures k < |y| && y[k] == x[i]
  {
    assert x[i] in multiset(y);
    k :| k < |y| && y[k] == x[i];
  }

  lemma HeadsAgree(x: seq<Scored>, y: seq<Scored>)
    requires Ranked(x) && Ranked(y) && multiset(x) == multiset(y) && x != [] && y != []
    ensures x[0] == y[0]
  {
    var k := MembersAgree(x, y, 0);
    var m := MembersAgree(y, x, 0);
    if k > 0 {
      assert Before(y[0], y[k]);
      assert m > 0 ==> Before(x[0], x[m]);
    }
  }

  lemma TailsAgree(x: seq<Scored>, y: seq<Scored>)
    requires multiset(x) == multiset(y) && x != [] && y != [] && x[0] == y[0]
    ensures multiset(x[1..]) == multiset(y[1..])
  {
    assert x == [x[0]] + x[1..] && y == [y[0]] + y[1..];
    assert multiset(x) == multiset{x[0]} + multiset(x[1..]);
    assert multiset(y) == multiset{y[0]} + multiset(y[1..]);
    assert multiset(x[1..]) == multiset(x) - multiset{x[0]};
    assert multiset(y[1..]) == multiset(y) - multiset{y[0]};
  }

  /** There is only one ranked order of a collection. */
  lemma {:induction false} RankedUnique(x: seq<Scored>, y: seq<Scored>)
    requires Ranked(x) && Ranked(y) && multiset(x) == multiset(y)
    ensures x == y
    decreases |x|
  {
    assert |multiset(x)| == |x| && |multiset(y)| == |y|;
    if x != [] {
      HeadsAgree(x, y);
      TailsAgree(x, y);
      RankedUnique(x[1..], y[1..]);
      assert x == [x[0]] + x[1..] && y == [y[0]] + y[1..];
    }
  }

  // ----- the order that is meant: tier by tier, each most recent first -----

  /** The recency boost. */
  function Boost(i: nat, n: nat): nat {
    i * 10 / if n == 0 then 1 else n
  }

  lemma BoostBounds(i: nat, j: nat, n: nat)
    requires i <= j < n
    ensures 0 <= Boost(i, n) <= Boost(j, n) < 10
  {
    DivMonotone(i * 10, j * 10, n);
    DivBelow(j * 10, n, 10);
  }

  lemma DivBelow(x: nat, n: nat, k: nat)
    requires n > 0 && x < k * n
    ensures x / n < k
  {
  }

  /** A history and how well each of its entries matches. */
  datatype Board = Board(history: seq<string>, tiers: seq<nat>)

  predicate IsTier(t: nat) {
    t == 0 || t == SUBSEQUENCE || t == SUBSTRING || t == PREFIX || t == EXACT
  }

  type Search = b: Board | |b.tiers| == |b.history| && (forall i :: 0 <= i < |b.tiers| ==> IsTier(b.tiers[i]))
    witness Board([], [])

  function TierAt(s: Search, i: nat): nat
    requires i < |s.history|
  {
    s.tiers[i]
  }

  /** The search for `query` in `history`. */
  ghost function SearchFor(lower: string -> string, history: seq<string>, query: string): (s: Search)
    ensures s.history == history
    ensures forall i :: 0 <= i < |history| ==> TierAt(s, i) == Tier(lower(history[i]), query)
  {
    Board(history, seq(|history|, i requires 0 <= i < |history| => Tier(lower(history[i]), query)))
  }

  ghost function ItemAt(s: Search, i: nat): Scored
    requires i < |s.history|
  {
    Scored(s.history[i], TierAt(s, i) + Boost(i, |s.history|), i)
  }

  /** The matching entries among the first `n`, oldest first. */
  ghost function Matches(s: Search, n: nat): seq<Scored>
    requires n <= |s.history|
  {
    if n == 0 then []
    else Matches(s, n - 1) + if TierAt(s, n - 1) > 0 then [ItemAt(s, n - 1)] else []
  }

  /** The entries of one tier among the first `n`, most recent first. */
  ghost function OfTier(s: Search, n: nat, tier: nat): seq<Scored>
    requires n <= |s.history|
  {
    if n == 0 then []
    else (if TierAt(s, n - 1) == tier then [ItemAt(s, n - 1)] else []) + OfTier(s, n - 1, tier)
  }

  /** What the search is for. */
  ghost function Ranking(s: Search, n: nat): seq<Scored>
    requires n <= |s.history|
  {
    OfTier(s, n, EXACT) + OfTier(s, n, PREFIX) + OfTier(s, n, SUBSTRING) + OfTier(s, n, SUBSEQUENCE)
  }

  function Entries(xs: seq<Scored>): seq<string> {
    seq(|xs|, i requires 0 <= i < |xs| => xs[i].entry)
  }

  /** The four tiers taken together, as a collection. */
  ghost function Tiers(s: Search, n: nat): multiset<Scored>
    requires n <= |s.history|
  {
    multiset(OfTier(s, n, EXACT)) + multiset(OfTier(s, n, PREFIX))
    + multiset(OfTier(s, n, SUBSTRING)) + multiset(OfTier(s, n, SUBSEQUENCE))
  }

  /** What entry `n - 1` adds to the matches. */
  ghost function Added(s: Search, n: nat): multiset<Scored>
    requires 0 < n <= |s.history|
  {
    if TierAt(s, n - 1) > 0 then multiset{ItemAt(s, n - 1)} else multiset{}
  }

  lemma TiersGrow(s: Search, n: nat)
    requires 0 < n <= |s.history|
    ensures Tiers(s, n) == Tiers(s, n - 1) + Added(s, n)
  {
    OfTierGrows(s, n, EXACT);
    OfTierGrows(s, n, PREFIX);
    OfTierGrows(s, n, SUBSTRING);
    OfTierGrows(s, n, SUBSEQUENCE);
  }

  lemma OfTierGrows(s: Search, n: nat, tier: nat)
    requires 0 < n <= |s.history|
    ensures multiset(OfTier(s, n, tier)) ==
            multiset(OfTier(s, n - 1, tier)) + if TierAt(s, n - 1) == tier then multiset{ItemAt(s, n - 1)} else multiset{}
  {
  }

  /** The matches among the first `n` as a collection. */
  ghost function Bag(s: Search, n: nat): multiset<Scored>
    requires n <= |s.history|
  {
    if n == 0 then multiset{} else Bag(s, n - 1) + Added(s, n)
  }

  lemma {:induction false} MatchesBag(s: Search, n: nat)
    requires n <= |s.history|
    ensures multiset(Matches(s, n)) == Bag(s, n)
    decreases n
  {
    if n == 0 {
      NoMatches(s);
    } else {
      var k := n - 1;
      MatchesBag(s, k);
      MatchesGrow(s, k, multiset(Matches(s, k)));
    }
  }

  lemma NoMatches(s: Search)
    ensures multiset(Matches(s, 0)) == Bag(s, 0)
  {
  }

  lemma MatchesGrow(s: Search, k: nat, bag: multiset<Scored>)
    requires k < |s.history| && multiset(Matches(s, k)) == bag && bag == Bag(s, k)
    ensures multiset(Matches(s, k + 1)) == Bag(s, k + 1)
  {
    var before := Matches(s, k);
    if TierAt(s, k) > 0 {
      var x := ItemAt(s, k);
      assert Matches(s, k + 1) == before + [x];
      assert multiset(before + [x]) == multiset(before) + multiset{x};
    } else {
      assert Matches(s, k + 1) == before + [] == before;
    }
  }

  lemma NoTiers(s: Search)
    ensures Tiers(s, 0) == multiset{}
  {
  }

  lemma {:induction false} TiersBag(s: Search, n: nat)
    requires n <= |s.history|
    ensures Tiers(s, n) == Bag(s, n)
    decreases n
  {
    if n == 0 {
      NoTiers(s);
    } else {
      TiersBag(s, n - 1);
      TiersGrow(s, n);
    }
  }

  lemma RankingBag(s: Search, n: nat)
    requires n <= |s.history|
    ensures multiset(Ranking(s, n)) == Tiers(s, n)
  {
  }

  lemma RankingHasMatches(s: Search, n: nat)
    requires n <= |s.history|
    ensures multiset(Ranking(s, n)) == multiset(Matches(s, n))
  {
    RankingBag(s, n);
    TiersBag(s, n);
    MatchesBag(s, n);
  }

  /** Indices below `n` and falling, scores the tier and the boost. */
  ghost predicate Falls(xs: seq<Scored>, n: nat, tier: nat, total: nat) {
    && (forall k :: 0 <= k < |xs| ==> xs[k].idx < n)
    && (forall k :: 0 <= k < |xs| ==> xs[k].score == tier + Boost(xs[k].idx, total))
    && (forall j, k :: 0 <= j < k < |xs| ==> xs[j].idx > xs[k].idx)
  }

  lemma FallsCons(x: Scored, xs: seq<Scored>, n: nat, tier: nat, total: nat)
    requires Falls(xs, n, tier, total) && x.idx == n && x.score == tier + Boost(n, total)
    ensures Falls([x] + xs, n + 1, tier, total)
  {
  }

  lemma {:induction false} OfTierFalls(s: Search, n: nat, tier: nat)
    requires n <= |s.history|
    ensures Falls(OfTier(s, n, tier), n, tier, |s.history|)
    decreases n
  {
    if n > 0 {
      OfTierFalls(s, n - 1, tier);
      if TierAt(s, n - 1) == tier {
        FallsCons(ItemAt(s, n - 1), OfTier(s, n - 1, tier), n - 1, tier, |s.history|);
      }
    }
  }

  lemma FallsIsRanked(xs: seq<Scored>, n: nat, tier: nat, total: nat)
    requires Falls(xs, n, tier, total) && n <= total
    ensures Ranked(xs) && forall k :: 0 <= k < |xs| ==> tier <= xs[k].score < tier + 10
  {
    forall k | 0 <= k < |xs| ensures tier <= xs[k].score < tier + 10 {
      BoostBounds(xs[k].idx, xs[k].idx, total);
    }
    forall j, k | 0 <= j < k < |xs| ensures Before(xs[j], xs[k]) {
      BoostBounds(xs[k].idx, xs[j].idx, total);
    }
  }

  lemma OfTierRanked(s: Search, n: nat, tier: nat)
    requires n <= |s.history|
    ensures var xs := OfTier(s, n, tier);
            Ranked(xs) && forall k :: 0 <= k < |xs| ==> tier <= xs[k].score < tier + 10
  {
    OfTierFalls(s, n, tier);
    FallsIsRanked(OfTier(s, n, tier), n, tier, |s.history|);
  }

  lemma RankingRanked(s: Search, n: nat)
    requires n <= |s.history|
    ensures Ranked(Ranking(s, n))
  {
    OfTierRanked(s, n, EXACT);
    OfTierRanked(s, n, PREFIX);
    OfTierRanked(s, n, SUBSTRING);
    OfTierRanked(s, n, SUBSEQUENCE);
  }

  /** The ranking lists exactly the matching entries, once each, by tier and
      then most recent first; scores never cross a tier. */
  lemma {:induction false} RankingMeans(s: Search, i: nat, j: nat)
    requires var xs := Ranking(s, |s.history|); i < j < |xs|
    ensures var xs := Ranking(s, |s.history|);
            xs[i].idx < |s.history| && xs[j].idx < |s.history| &&
            var ti, tj := TierAt(s, xs[i].idx), TierAt(s, xs[j].idx);
            ti > tj > 0 || (ti == tj > 0 && xs[i].idx > xs[j].idx)
  {
    var n := |s.history|;
    var xs := Ranking(s, n);
    RankingRanked(s, n);
    RankingHasMatches(s, n);
    MatchesMeans(s, n);
    assert xs[i] in multiset(Matches(s, n)) && xs[j] in multiset(Matches(s, n));
    var a, b := xs[i].idx, xs[j].idx;
    assert IsTier(TierAt(s, a)) && IsTier(TierAt(s, b));
    if a <= b {
      BoostBounds(a, b, n);
    } else {
      BoostBounds(b, a, n);
    }
    assert Before(xs[i], xs[j]);
  }

  lemma {:induction false} MatchesMeans(s: Search, n: nat)
    requires n <= |s.history|
    ensures forall x :: x in Matches(s, n) <==> x.idx < n && x == ItemAt(s, x.idx) && TierAt(s, x.idx) > 0
    ensures DistinctIdx(Matches(s, n))
    decreases n
  {
    if n > 0 {
      MatchesMeans(s, n - 1);
      var init := Matches(s, n - 1);
      forall k | 0 <= k < |init| ensures init[k].idx < n - 1 {
        assert init[k] in init;
      }
    }
  }

  // ----- what the list holds, without scores -----

  /** `a` matches the query better than `b`: it is the query and `b` is not, or
      starts with it, or contains it, and `b` does not. */
  ghost predicate Better(a: string, b: string, query: string) {
    || (a == query && b != query)
    || (query <= a && !(query <= b))
    || (IsWithin(query, a) && !IsWithin(query, b))
  }

  ghost predicate IsWithin(query: string, s: string) {
    exists x, y :: s == x + query + y
  }

  lemma ContainsMeans(s: string, query: string)
    ensures Contains(s, query) <==> IsWithin(query, s)
  {
    if Contains(s, query) {
      var i :| 0 <= i <= |s| && OccursAt(s, query, i);
      assert s == s[..i] + query + s[i + |query|..];
    }
    if IsWithin(query, s) {
      var x, y :| s == x + query + y;
      assert OccursAt(s, query, |x|);
    }
  }

  /** Place `k` of the list shows entry `idx[k]` of the history. The entries shown
      are exactly those that hold the query's characters in order; a better match
      comes first, and of equally good ones the more recent. */
  ghost predicate Lists(lower: string -> string, history: seq<string>, query: string,
                        filtered: seq<string>, idx: seq<nat>) {
    && |idx| == |filtered|
    && (forall k :: 0 <= k < |idx| ==> idx[k] < |history| && filtered[k] == history[idx[k]])
    && (forall i: nat :: i in idx <==> i < |history| && IsSubsequence(query, lower(history[i])))
    && (forall j, k :: 0 <= j < k < |idx| ==>
          var a, b := lower(history[idx[j]]), lower(history[idx[k]]);
          Better(a, b, query) || (!Better(b, a, query) && idx[j] > idx[k]))
  }

  lemma ContainedIsSubsequence(s: string, q: string, i: nat)
    requires OccursAt(s, q, i)
    ensures IsSubsequence(q, s)
  {
    var e := seq(|q|, k requires 0 <= k < |q| => i + k);
    forall k | 0 <= k < |q| ensures s[e[k]] == q[k] {
      assert s[i..i + |q|][k] == q[k];
    }
    assert Embeds(e, q, s);
  }

  lemma PrefixIsContained(s: string, q: string)
    requires q <= s
    ensures Contains(s, q)
  {
    assert OccursAt(s, q, 0);
  }

  /** A tier is positive exactly for a subsequence, and orders matches as `Better` does. */
  lemma TierMeans(e: string, q: string)
    ensures Tier(e, q) > 0 <==> IsSubsequence(q, e)
    ensures Tier(e, q) >= 600 <==> Contains(e, q)
    ensures Tier(e, q) >= 800 <==> q <= e
    ensures Tier(e, q) >= 1000 <==> e == q
  {
    if q <= e {
      PrefixIsContained(e, q);
    }
    if Contains(e, q) {
      var i :| 0 <= i <= |e| && OccursAt(e, q, i);
      ContainedIsSubsequence(e, q, i);
    }
  }

  lemma TierOrders(a: string, b: string, q: string)
    requires Tier(a, q) > 0 && Tier(b, q) > 0
    ensures Better(a, b, q) <==> Tier(a, q) > Tier(b, q)
  {
    TierMeans(a, q);
    TierMeans(b, q);
    ContainsMeans(a, q);
    ContainsMeans(b, q);
  }

  function Places(xs: seq<Scored>): seq<nat> {
    seq(|xs|, i requires 0 <= i < |xs| => xs[i].idx)
  }

  /** What is in the ranking. */
  lemma RankedItem(s: Search, k: nat)
    requires k < |Ranking(s, |s.history|)|
    ensures var x := Ranking(s, |s.history|)[k];
            x.idx < |s.history| && x.entry == s.history[x.idx] && TierAt(s, x.idx) > 0
  {
    var n := |s.history|;
    RankingHasMatches(s, n);
    MatchesMeans(s, n);
    assert Ranking(s, n)[k] in multiset(Matches(s, n));
  }

  lemma MatchIsRanked(s: Search, i: nat)
    requires i < |s.history| && TierAt(s, i) > 0
    ensures i in Places(Ranking(s, |s.history|))
  {
    var n := |s.history|;
    RankingHasMatches(s, n);
    MatchesMeans(s, n);
    var xs := Ranking(s, n);
    assert ItemAt(s, i) in multiset(Matches(s, n));
    assert ItemAt(s, i) in multiset(xs);
    var k :| 0 <= k < |xs| && xs[k] == ItemAt(s, i);
    assert Places(xs)[k] == i;
  }

  lemma RankingOrders(lower: string -> string, history: seq<string>, query: string, j: nat, k: nat)
    requires j < k < |Ranking(SearchFor(lower, history, query), |history|)|
    ensures var idx := Places(Ranking(SearchFor(lower, history, query), |history|));
            && idx[j] < |history| && idx[k] < |history|
            && var a, b := lower(history[idx[j]]), lower(history[idx[k]]);
               Better(a, b, query) || (!Better(b, a, query) && idx[j] > idx[k])
  {
    var s := SearchFor(lower, history, query);
    RankingMeans(s, j, k);
    var idx := Places(Ranking(s, |history|));
    TierOrders(lower(history[idx[j]]), lower(history[idx[k]]), query);
    TierOrders(lower(history[idx[k]]), lower(history[idx[j]]), query);
  }

  /** The ranking lists the matches as it should. */
  lemma RankingLists(lower: string -> string, history: seq<string>, query: string)
    ensures var xs := Ranking(SearchFor(lower, history, query), |history|);
            Lists(lower, history, query, Entries(xs), Places(xs))
  {
    var s := SearchFor(lower, history, query);
    var xs := Ranking(s, |history|);
    var idx := Places(xs);
    forall k | 0 <= k < |xs|
      ensures idx[k] < |history| && xs[k].entry == history[idx[k]] && IsSubsequence(query, lower(history[idx[k]]))
    {
      RankedItem(s, k);
      TierMeans(lower(history[idx[k]]), query);
    }
    forall i: nat | i < |history| && IsSubsequence(query, lower(history[i])) ensures i in idx {
      TierMeans(lower(history[i]), query);
      MatchIsRanked(s, i);
    }
    forall j, k | 0 <= j < k < |xs|
      ensures var a, b := lower(history[idx[j]]), lower(history[idx[k]]);
              Better(a, b, query) || (!Better(b, a, query) && idx[j] > idx[k])
    {
      RankingOrders(lower, history, query, j, k);
    }
  }

  method NewestFirst(history: seq<string>) returns (r: seq<string>)
    ensures |r| == |history| && forall i :: 0 <= i < |r| ==> r[i] == history[|history| - 1 - i]
  {
    r := [];
    var i := |history|;
    while i > 0
      invariant 0 <= i <= |history| && |r| == |history| - i
      invariant forall k :: 0 <= k < |r| ==> r[k] == history[|history| - 1 - k]
    {
      i := i - 1;
      r := r + [history[i]];
    }
  }

  /** The score of one entry. */
  method Score(lower: string, query: string) returns (score: nat)
    ensures score == Tier(lower, query)
  {
    if lower == query {
      return EXACT;
    }
    if query <= lower {
      return PREFIX;
    }
    if Contains(lower, query) {
      return SUBSTRING;
    }
    var found := SubsequenceMatch(lower, query);
    return if found then SUBSEQUENCE else 0;
  }

  method ScoreAt(lower: string -> string, history: seq<string>, query: string, i: nat) returns (score: nat)
    requires i < |history|
    ensures score == TierAt(SearchFor(lower, history, query), i)
  {
    score := Score(lower(history[i]), query);
  }

  method Collect(lower: string -> string, history: seq<string>, query: string, ghost s: Search)
    returns (results: seq<Scored>)
    requires s == SearchFor(lower, history, query)
    ensures results == Matches(s, |history|)
  {
    results := [];
    for i := 0 to |history|
      invariant results == Matches(s, i)
    {
      var score := ScoreAt(lower, history, query, i);
      if score > 0 {
        results := results + [Scored(history[i], score + Boost(i, |history|), i)];
      }
    }
  }

  method SortMatches(ghost s: Search, results: seq<Scored>) returns (sorted: seq<Scored>)
    requires results == Matches(s, |s.history|)
    ensures sorted == Ranking(s, |s.history|)
  {
    var a := new Scored[|results|](i requires 0 <= i < |results| => results[i]);
    assert a[..] == results;
    MatchesMeans(s, |s.history|);
    ExchangeSort(a);
    RankingHasMatches(s, |s.history|);
    RankingRanked(s, |s.history|);
    RankedUnique(a[..], Ranking(s, |s.history|));
    sorted := a[..];
  }

  class Overlay {
    const lower: string -> string
    var history: seq<string>
    var input: string
    var filtered: seq<string>
    var sel: nat

    constructor (lower: string -> string, history: seq<string>)
      ensures this.lower == lower && this.history == history && input == "" && filtered == [] && sel == 0
    {
      this.lower, this.history, input, filtered, sel := lower, history, "", [], 0;
    }

    /** For an empty query the whole history, newest first; otherwise the matches. */
    method ApplyFilter()
      modifies this`filtered, this`sel
      ensures sel == 0
      ensures lower(input) == "" ==> |filtered| == |history|
      ensures lower(input) == "" ==>
                forall i :: 0 <= i < |filtered| ==> filtered[i] == history[|history| - 1 - i]
      ensures lower(input) != "" ==> exists idx :: Lists(lower, history, lower(input), filtered, idx)
      ensures lower(input) != "" ==>
                filtered == Entries(Ranking(SearchFor(lower, history, lower(input)), |history|))
    {
      var query := lower(input);
      if query == "" {
        filtered := NewestFirst(history);
        sel := 0;
        return;
      }
      ghost var s := SearchFor(lower, history, query);
      var results := Collect(lower, history, query, s);
      var sorted := SortMatches(s, results);
      RankingLists(lower, history, query);
      filtered := Entries(sorted);
      sel := 0;
    }
  }
}
