/** The "did you mean" search of cmd/chat_commands.go. The command table and
    the case folding (`strings.ToLower`) are parameters. */
module CommandSuggestion {
  import opened EditDistance

  function TrimSlash(s: string): string {
    if s != [] && s[0] == '/' then s[1..] else s
  }

  /** What a name is compared as: no leading slash, lower case. */
  function Folded(lower: string -> string, name: string): string {
    lower(TrimSlash(name))
  }

  lemma TrimSlashMeans(s: string)
    ensures TrimSlash("/" + s) == s
    ensures !("/" <= s) ==> TrimSlash(s) == s
  {
    if s != "" {
      assert s[..1] == [s[0]];
    }
  }

  /** How far `clean` is from each command. */
  ghost function Distances(lower: string -> string, commands: seq<string>, clean: string): seq<nat> {
    seq(|commands|, i requires 0 <= i < |commands| => Distance(clean, Folded(lower, commands[i])))
  }

  /** `k` is the first place of the least number in `ds`. */
  ghost predicate FirstLeast(ds: seq<nat>, k: nat) {
    && k < |ds|
    && (forall i :: 0 <= i < |ds| ==> ds[k] <= ds[i])
    && (forall i :: 0 <= i < k ==> ds[k] < ds[i])
  }

  lemma {:induction false} FirstLeastExists(ds: seq<nat>) returns (k: nat)
    requires ds != []
    ensures FirstLeast(ds, k)
    decreases |ds|
  {
    k := 0;
    if |ds| > 1 {
      var last := |ds| - 1;
      var m := FirstLeastExists(ds[..last]);
      forall i | 0 <= i < last ensures ds[..last][i] == ds[i] {}
      k := if ds[last] < ds[m] then last else m;
    }
  }

  /** What the search is for: nothing for a short or bare input, otherwise the
      first nearest command when it is one edit away, or two and its name is
      longer than five. There is no guard on lengths here. */
  ghost predicate Suggested(lower: string -> string, commands: seq<string>, typo: string, r: string) {
    var clean := Folded(lower, typo);
    if |typo| < 2 || clean == "" || commands == [] then r == ""
    else
      var ds := Distances(lower, commands, clean);
      forall k: nat :: FirstLeast(ds, k) ==>
        r == if ds[k] == 1 || (ds[k] == 2 && |Folded(lower, commands[k])| > 5) then commands[k] else ""
  }

  /** At most one answer satisfies `Suggested`, and there is one. */
  lemma SuggestedDecides(lower: string -> string, commands: seq<string>, typo: string, r: string, s: string)
    requires Suggested(lower, commands, typo, r) && Suggested(lower, commands, typo, s)
    ensures r == s
  {
    if commands != [] {
      var k := FirstLeastExists(Distances(lower, commands, Folded(lower, typo)));
    }
  }

  lemma FirstLeastUnique(ds: seq<nat>, j: nat)
    requires FirstLeast(ds, j)
    ensures forall k: nat :: FirstLeast(ds, k) ==> k == j
  {
    forall k: nat | FirstLeast(ds, k) ensures k == j {
      assert ds[k] <= ds[j] <= ds[k];
    }
  }

  /** What the scan leaves in `best` and `bestDist` for the distances `ds`. */
  ghost predicate Scanned(commands: seq<string>, ds: seq<nat>, best: string, bestDist: nat)
    requires |commands| == |ds|
  {
    forall k: nat :: FirstLeast(ds, k) ==>
      if ds[k] < 999 then best == commands[k] && bestDist == ds[k] else best == "" && bestDist == 999
  }

  /** The scan: the first nearest command, when its distance is below 999. */
  method Nearest(lower: string -> string, commands: seq<string>, clean: string)
    returns (best: string, bestDist: nat)
    ensures commands == [] ==> best == ""
    ensures Scanned(commands, Distances(lower, commands, clean), best, bestDist)
  {
    ghost var ds := Distances(lower, commands, clean);
    best, bestDist := "", 999;
    ghost var at := -1;
    for i := 0 to |commands|
      invariant -1 <= at < i && bestDist <= 999
      invariant if at < 0 then best == "" && bestDist == 999
                else best == commands[at] && bestDist == ds[at] < 999
      invariant forall k :: 0 <= k < i ==> bestDist <= ds[k]
      invariant forall k :: 0 <= k < at ==> bestDist < ds[k]
    {
      var target := Folded(lower, commands[i]);
      var d := Levenshtein(clean, target);
      assert d == ds[i];
      if d < bestDist {
        best, bestDist, at := commands[i], d, i;
      }
    }
    if at >= 0 {
      FirstLeastUnique(ds, at);
    }
  }

  method SuggestCommand(lower: string -> string, commands: seq<string>, typo: string) returns (r: string)
    ensures Suggested(lower, commands, typo, r)
  {
    if |typo| < 2 {
      return "";
    }
    var clean := Folded(lower, typo);
    if clean == "" {
      return "";
    }
    var best, bestDist := Nearest(lower, commands, clean);
    if best == "" {
      return "";
    }
    var target := Folded(lower, best);
    var maxDist := 1;
    if |target| > 5 {
      maxDist := 2;
    }
    // The guard changes nothing: the distance is at least the length gap.
    DistanceAtLeastLengthGap(clean, target);
    if |clean| > |target| + maxDist {
      return "";
    }
    if bestDist <= maxDist && bestDist > 0 {
      return best;
    }
    return "";
  }
}
