/** The recently-used commands of cmd/command_history.go: a most-recent-first
    list, cut to twelve entries each time it is stored. The file is a field and
    the clock a parameter. */
module CommandHistory {

  const MAX_RECENT := 12

  datatype Entry = Entry(command: string, usedAt: int, useCount: nat)

  function Names(entries: seq<Entry>): seq<string> {
    seq(|entries|, i requires 0 <= i < |entries| => entries[i].command)
  }

  predicate IsCommand(cmd: string) {
    cmd != "" && cmd[0] == '/'
  }

  function Take<T>(xs: seq<T>, n: nat): seq<T> {
    if |xs| > n then xs[..n] else xs
  }

  /** Place of the first `c`, or the length. */
  function Find(names: seq<string>, c: string): (k: nat)
    ensures k <= |names| && (k < |names| ==> names[k] == c)
    ensures forall i :: 0 <= i < k ==> names[i] != c
  {
    if names == [] || names[0] == c then 0 else 1 + Find(names[1..], c)
  }

  /** `c` in front, and out of where it was. */
  function ToFront(names: seq<string>, c: string): seq<string> {
    var k := Find(names, c);
    if k < |names| then [c] + names[..k] + names[k + 1..] else [c] + names
  }

  /** One use of a command: its entry counted and in front, then the cut. */
  function Recorded(entries: seq<Entry>, c: string, now: int): seq<Entry> {
    var k := Find(Names(entries), c);
    Take(if k < |entries|
         then [Entry(c, now, entries[k].useCount + 1)] + entries[..k] + entries[k + 1..]
         else [Entry(c, now, 1)] + entries,
         MAX_RECENT)
  }

  lemma NamesRecorded(entries: seq<Entry>, c: string, now: int)
    ensures Names(Recorded(entries, c, now)) == Take(ToFront(Names(entries), c), MAX_RECENT)
  {
    var k := Find(Names(entries), c);
    var e := if k < |entries| then [Entry(c, now, entries[k].useCount + 1)] + entries[..k] + entries[k + 1..]
             else [Entry(c, now, 1)] + entries;
    assert Names(e) == ToFront(Names(entries), c);
    assert |e| > MAX_RECENT ==> Names(e[..MAX_RECENT]) == Names(e)[..MAX_RECENT];
  }

  // ----- the list without a cut -----

  datatype Use = Use(command: string, now: int)

  /** Every command used so far, the last used first, each once. */
  function Recent(uses: seq<Use>): seq<string> {
    if uses == [] then []
    else
      var u := uses[|uses| - 1];
      var before := Recent(uses[..|uses| - 1]);
      if IsCommand(u.command) then ToFront(before, u.command) else before
  }

  /** What is stored after the same uses. */
  function Stored(uses: seq<Use>): seq<Entry> {
    if uses == [] then []
    else
      var u := uses[|uses| - 1];
      var before := Stored(uses[..|uses| - 1]);
      if IsCommand(u.command) then Recorded(before, u.command, u.now) else before
  }

  ghost predicate NoDup(names: seq<string>) {
    forall i, j :: 0 <= i < j < |names| ==> names[i] != names[j]
  }

  /** Place of the last use of `c`, or -1. */
  function LastUse(uses: seq<Use>, c: string): int {
    if uses == [] then -1
    else if IsCommand(c) && uses[|uses| - 1].command == c then |uses| - 1
    else LastUse(uses[..|uses| - 1], c)
  }

  lemma {:induction false} LastUseBound(uses: seq<Use>, c: string)
    ensures -1 <= LastUse(uses, c) < |uses|
    decreases |uses|
  {
    if uses != [] {
      LastUseBound(uses[..|uses| - 1], c);
    }
  }

  lemma ToFrontMeans(names: seq<string>, c: string)
    requires NoDup(names)
    ensures NoDup(ToFront(names, c))
    ensures forall x :: x in ToFront(names, c) <==> x == c || x in names
    ensures |ToFront(names, c)| == |names| + if c in names then 0 else 1
  {
    var k := Find(names, c);
    if k < |names| {
      assert names == names[..k] + [c] + names[k + 1..];
    } else {
      assert c !in names;
    }
  }

  /** `Recent` is what its name says: no command twice, exactly the commands
      used, and ordered by their last use. */
  ghost predicate ByLastUse(names: seq<string>, uses: seq<Use>) {
    && NoDup(names)
    && (forall c :: c in names <==> LastUse(uses, c) >= 0)
    && (forall i, j :: 0 <= i < j < |names| ==> LastUse(uses, names[i]) > LastUse(uses, names[j]))
  }

  lemma {:induction false} RecentMeans(uses: seq<Use>)
    ensures ByLastUse(Recent(uses), uses)
    decreases |uses|
  {
    if uses != [] {
      var init, u := uses[..|uses| - 1], uses[|uses| - 1];
      RecentMeans(init);
      if IsCommand(u.command) {
        ToFrontByLastUse(Recent(init), init, u);
        assert uses == init + [u];
      } else {
        forall c ensures LastUse(uses, c) == LastUse(init, c) {}
      }
    }
  }

  ghost predicate Falling(names: seq<string>, rank: string -> int) {
    forall i, j :: 0 <= i < j < |names| ==> rank(names[i]) > rank(names[j])
  }

  /** A list that falls in rank still does when the front one outranks all. */
  lemma FallingToFront(names: seq<string>, c: string, rank: string -> int, rank': string -> int)
    requires NoDup(names) && Falling(names, rank)
    requires forall x :: x != c ==> rank'(x) == rank(x)
    requires forall x :: x != c ==> rank'(c) > rank(x)
    ensures Falling(ToFront(names, c), rank')
  {
  }

  lemma LastUseSnoc(init: seq<Use>, u: Use, x: string)
    requires IsCommand(u.command)
    ensures LastUse(init + [u], x) == if x == u.command then |init| else LastUse(init, x)
  {
  }

  lemma ToFrontByLastUse(names: seq<string>, init: seq<Use>, u: Use)
    requires ByLastUse(names, init) && IsCommand(u.command)
    ensures ByLastUse(ToFront(names, u.command), init + [u])
  {
    var c, uses := u.command, init + [u];
    forall x ensures LastUse(uses, x) == if x == c then |init| else LastUse(init, x) {
      LastUseSnoc(init, u, x);
    }
    forall x ensures LastUse(init, x) < |init| {
      LastUseBound(init, x);
    }
    ToFrontMeans(names, c);
    FallingToFront(names, c, x => LastUse(init, x), x => LastUse(uses, x));
    var front := ToFront(names, c);
    forall i, j | 0 <= i < j < |front| ensures LastUse(uses, front[i]) > LastUse(uses, front[j]) {
      assert (x => LastUse(uses, x))(front[i]) > (x => LastUse(uses, x))(front[j]);
    }
  }

  // ----- stack inclusion -----

  lemma CutKeepsHit(names: seq<string>, c: string, n: nat)
    requires Find(names, c) < n < |names|
    ensures ToFront(names[..n], c) == ToFront(names, c)[..n]
  {
    FindInCut(names, c, n);
    CutOfMove(names, c, Find(names, c), n);
  }

  lemma CutOfMove(names: seq<string>, c: string, k: nat, n: nat)
    requires k < n < |names|
    ensures [c] + names[..n][..k] + names[..n][k + 1..] == ([c] + names[..k] + names[k + 1..])[..n]
  {
    assert names[..n][..k] == names[..k];
    assert names[..n][k + 1..] == names[k + 1..][..n - k - 1];
  }

  lemma CutKeepsMiss(names: seq<string>, c: string, n: nat)
    requires 0 < n < |names| && n <= Find(names, c)
    ensures ToFront(names[..n], c)[..n] == ToFront(names, c)[..n] == [c] + names[..n - 1]
  {
    FindInCut(names, c, n);
    assert ([c] + names[..n])[..n] == [c] + names[..n - 1];
  }

  /** Cutting before the move changes nothing that the cut after it keeps. */
  lemma ToFrontOfCut(names: seq<string>, c: string, n: nat)
    requires n > 0
    ensures Take(ToFront(Take(names, n), c), n) == Take(ToFront(names, c), n)
  {
    if |names| > n {
      FindInCut(names, c, n);
      if Find(names, c) < n {
        CutKeepsHit(names, c, n);
      } else {
        CutKeepsMiss(names, c, n);
      }
    }
  }

  lemma FindInCut(names: seq<string>, c: string, n: nat)
    requires n <= |names|
    ensures Find(names[..n], c) == if Find(names, c) < n then Find(names, c) else n
    decreases n
  {
  }

  /** What is stored is always the first twelve of the list without a cut. */
  lemma {:induction false} StoredIsCutOfRecent(uses: seq<Use>)
    ensures Names(Stored(uses)) == if |Recent(uses)| > 12 then Recent(uses)[..12] else Recent(uses)
    decreases |uses|
  {
    if uses != [] {
      var init, u := uses[..|uses| - 1], uses[|uses| - 1];
      StoredIsCutOfRecent(init);
      if IsCommand(u.command) {
        NamesRecorded(Stored(init), u.command, u.now);
        ToFrontOfCut(Recent(init), u.command, MAX_RECENT);
      }
    }
  }

  lemma StoredHasNoDuplicates(uses: seq<Use>)
    ensures NoDup(Names(Stored(uses))) && |Stored(uses)| <= 12
  {
    StoredIsCutOfRecent(uses);
    RecentMeans(uses);
  }

  // ----- use counts -----

  function Count(uses: seq<Use>, c: string): nat {
    if uses == [] then 0
    else Count(uses[..|uses| - 1], c) + if uses[|uses| - 1].command == c then 1 else 0
  }

  lemma {:induction false} UnusedCountsZero(uses: seq<Use>, c: string)
    requires IsCommand(c) && LastUse(uses, c) < 0
    ensures Count(uses, c) == 0
    decreases |uses|
  {
    if uses != [] {
      UnusedCountsZero(uses[..|uses| - 1], c);
    }
  }

  ghost predicate CountsRight(entries: seq<Entry>, uses: seq<Use>) {
    forall i :: 0 <= i < |entries| ==>
      IsCommand(entries[i].command) && entries[i].useCount == Count(uses, entries[i].command)
  }

  /** As long as no more than twelve commands have ever been used, every count
      is the number of uses. */
  lemma {:induction false} CountsAreUses(uses: seq<Use>)
    requires |Recent(uses)| <= MAX_RECENT
    ensures CountsRight(Stored(uses), uses)
    decreases |uses|
  {
    if uses != [] {
      var init, u := uses[..|uses| - 1], uses[|uses| - 1];
      RecentMeans(init);
      if IsCommand(u.command) {
        ToFrontMeans(Recent(init), u.command);
        CountsAreUses(init);
        StoredIsCutOfRecent(init);
        RecordCounts(Stored(init), init, u);
        assert uses == init + [u];
      } else {
        CountsAreUses(init);
      }
    }
  }

  lemma RecordCounts(entries: seq<Entry>, init: seq<Use>, u: Use)
    requires CountsRight(entries, init) && IsCommand(u.command)
    requires ByLastUse(Names(entries), init) && |ToFront(Names(entries), u.command)| <= MAX_RECENT
    ensures CountsRight(Recorded(entries, u.command, u.now), init + [u])
  {
    var c, uses := u.command, init + [u];
    assert uses[..|init|] == init;
    var k := Find(Names(entries), c);
    var t := Recorded(entries, c, u.now);
    if k == |entries| {
      assert c !in Names(entries);
      UnusedCountsZero(init, c);
    }
    forall i | 0 <= i < |t| ensures IsCommand(t[i].command) && t[i].useCount == Count(uses, t[i].command) {
      if i > 0 {
        var j := if i <= k || k == |entries| then i - 1 else i;
        assert t[i] == entries[j];
        assert Names(entries)[j] != c;
      }
    }
  }

  /** Where `c` last came into the stored list: a use of it while it was not
      among the twelve kept. */
  function LastEntry(uses: seq<Use>, c: string): nat {
    if uses == [] then 0
    else
      var n := |uses| - 1;
      if uses[n].command == c && c !in Names(Stored(uses[..n])) then n else LastEntry(uses[..n], c)
  }

  /** `e` is the last use of `c` that found it missing. */
  ghost predicate EntersAt(uses: seq<Use>, c: string, e: nat) {
    && e < |uses| && uses[e].command == c && c !in Names(Stored(uses[..e]))
    && forall j :: e < j < |uses| && uses[j].command == c ==> c in Names(Stored(uses[..j]))
  }

  lemma EntersLater(init: seq<Use>, u: Use, c: string, e: nat)
    requires EntersAt(init, c, e) && (u.command == c ==> c in Names(Stored(init)))
    ensures EntersAt(init + [u], c, e)
  {
    var uses := init + [u];
    forall j | 0 <= j < |uses| ensures uses[..j] == init[..j] {}
    assert init[..|init|] == init;
  }

  lemma CountSince(init: seq<Use>, u: Use, c: string, e: nat)
    requires e <= |init|
    ensures Count((init + [u])[e..], c) == Count(init[e..], c) + if u.command == c then 1 else 0
  {
    var since := (init + [u])[e..];
    assert since[..|since| - 1] == init[e..];
  }

  /** A stored entry counts the uses since its command last came into the list. */
  ghost predicate CountsSinceEntry(entry: Entry, uses: seq<Use>) {
    var e := LastEntry(uses, entry.command);
    EntersAt(uses, entry.command, e) && entry.useCount == Count(uses[e..], entry.command)
  }

  lemma EntryKeeps(entry: Entry, init: seq<Use>, u: Use)
    requires CountsSinceEntry(entry, init) && u.command != entry.command
    ensures CountsSinceEntry(entry, init + [u])
  {
    var c := entry.command;
    assert (init + [u])[..|init|] == init;
    EntersLater(init, u, c, LastEntry(init, c));
    CountSince(init, u, c, LastEntry(init, c));
  }

  /** One more use of a command that is in the list. */
  lemma EntryGrows(entry: Entry, init: seq<Use>, u: Use)
    requires CountsSinceEntry(entry, init) && u.command == entry.command && u.command in Names(Stored(init))
    ensures CountsSinceEntry(Entry(u.command, u.now, entry.useCount + 1), init + [u])
  {
    var c := entry.command;
    assert (init + [u])[..|init|] == init;
    EntersLater(init, u, c, LastEntry(init, c));
    CountSince(init, u, c, LastEntry(init, c));
  }

  lemma EntryBegins(init: seq<Use>, u: Use)
    requires u.command !in Names(Stored(init))
    ensures CountsSinceEntry(Entry(u.command, u.now, 1), init + [u])
  {
    var uses := init + [u];
    assert uses[..|init|] == init;
    CountSince(init, u, u.command, |init|);
    assert init[|init|..] == [];
  }

  /** The first entry is the command's; every other one was there before, for
      another command. */
  lemma RecordedAt(entries: seq<Entry>, c: string, now: int, i: nat) returns (j: nat)
    requires NoDup(Names(entries)) && i < |Recorded(entries, c, now)|
    ensures var t, k := Recorded(entries, c, now), Find(Names(entries), c);
            if i > 0 then j < |entries| && t[i] == entries[j] && entries[j].command != c
            else if k < |entries| then entries[k].command == c && t[0] == Entry(c, now, entries[k].useCount + 1)
            else c !in Names(entries) && t[0] == Entry(c, now, 1)
  {
    var names := Names(entries);
    var k := Find(names, c);
    j := if i > 0 && (i <= k || k == |entries|) then i - 1 else i;
    if i > 0 {
      assert Recorded(entries, c, now)[i] == entries[j] && names[j] != c;
    }
  }

  lemma RecordCountsSince(entries: seq<Entry>, init: seq<Use>, u: Use, i: nat)
    requires entries == Stored(init) && NoDup(Names(entries))
    requires forall k :: 0 <= k < |entries| ==> CountsSinceEntry(entries[k], init)
    requires i < |Recorded(entries, u.command, u.now)|
    ensures CountsSinceEntry(Recorded(entries, u.command, u.now)[i], init + [u])
  {
    var c, k := u.command, Find(Names(entries), u.command);
    var t := Recorded(entries, c, u.now);
    var j := RecordedAt(entries, c, u.now, i);
    if i > 0 {
      EntryKeeps(entries[j], init, u);
    } else if k < |entries| {
      assert Names(entries)[k] == c;
      EntryGrows(entries[k], init, u);
    } else {
      EntryBegins(init, u);
    }
  }

  /** For every sequence of uses. */
  lemma {:induction false} StoredCountsSinceEntry(uses: seq<Use>)
    ensures forall i :: 0 <= i < |Stored(uses)| ==> CountsSinceEntry(Stored(uses)[i], uses)
    decreases |uses|
  {
    if uses != [] {
      var init, u := uses[..|uses| - 1], uses[|uses| - 1];
      assert uses == init + [u];
      StoredCountsSinceEntry(init);
      StoredHasNoDuplicates(init);
      if IsCommand(u.command) {
        forall i | 0 <= i < |Stored(uses)| ensures CountsSinceEntry(Stored(uses)[i], uses) {
          RecordCountsSince(Stored(init), init, u, i);
        }
      } else {
        forall i | 0 <= i < |Stored(init)| ensures CountsSinceEntry(Stored(init)[i], uses) {
          StoredIsCommands(init, i);
          EntryKeeps(Stored(init)[i], init, u);
        }
      }
    }
  }

  lemma StoredIsCommands(uses: seq<Use>, i: nat)
    requires i < |Stored(uses)|
    ensures var c := Stored(uses)[i].command; c != "" && c[0] == '/'
  {
    StoredIsCutOfRecent(uses);
    RecentMeans(uses);
    var c := Names(Stored(uses))[i];
    assert c in Recent(uses);
    UsedIsCommand(uses, c);
  }

  lemma {:induction false} UsedIsCommand(uses: seq<Use>, c: string)
    requires LastUse(uses, c) >= 0
    ensures IsCommand(c)
    decreases |uses|
  {
    if uses != [] && !(IsCommand(c) && uses[|uses| - 1].command == c) {
      UsedIsCommand(uses[..|uses| - 1], c);
    }
  }

  /** A use of anything but a slash command changes nothing; one of a slash command
      puts it in front, used now. */
  lemma UseIsRecorded(init: seq<Use>, u: Use)
    ensures var t := Stored(init + [u]);
            if "/" <= u.command then t != [] && t[0].command == u.command && t[0].usedAt == u.now
            else t == Stored(init)
  {
    assert (init + [u])[..|init|] == init;
    if u.command != "" {
      assert u.command[..1] == [u.command[0]];
    }
  }

  /** Every stored time is that of the command's last use. */
  lemma {:induction false} StoredAtLastUse(uses: seq<Use>, i: nat)
    requires i < |Stored(uses)|
    ensures var e, k := Stored(uses)[i], LastUse(uses, Stored(uses)[i].command);
            0 <= k < |uses| && uses[k].command == e.command && e.usedAt == uses[k].now
    decreases |uses|
  {
    var init, u := uses[..|uses| - 1], uses[|uses| - 1];
    assert uses == init + [u];
    if IsCommand(u.command) {
      StoredHasNoDuplicates(init);
      var j := RecordedAt(Stored(init), u.command, u.now, i);
      LastUseSnoc(init, u, Stored(uses)[i].command);
      if i > 0 {
        StoredAtLastUse(init, j);
      }
    } else {
      StoredAtLastUse(init, i);
      StoredIsCommands(init, i);
    }
  }

  // ----- the code -----

  class Store {
    var entries: seq<Entry>

    constructor ()
      ensures entries == Stored([])
    {
      entries := [];
    }

    method Save(h: seq<Entry>)
      modifies this
      ensures entries == Take(h, MAX_RECENT)
    {
      entries := if |h| > MAX_RECENT then h[..MAX_RECENT] else h;
    }

    method RecordCommandUsed(cmd: string, now: int)
      modifies this
      ensures entries == if IsCommand(cmd) then Recorded(old(entries), cmd, now) else old(entries)
    {
      if cmd == "" || cmd[0] != '/' {
        return;
      }
      var h := entries;
      var found := -1;
      var i := 0;
      while i < |h| && found < 0
        invariant 0 <= i <= |h|
        invariant found < 0 ==> forall k :: 0 <= k < i ==> h[k].command != cmd
        invariant found >= 0 ==> found < |h| && found == Find(Names(h), cmd)
        decreases |h| - i, -found
      {
        if h[i].command == cmd {
          found := i;
          FoundAt(Names(h), cmd, i);
        }
        i := i + 1;
      }
      if found >= 0 {
        var entry := h[found].(usedAt := now, useCount := h[found].useCount + 1);
        h := h[..found] + h[found + 1..];
        assert [entry] + h == [entry] + old(entries)[..found] + old(entries)[found + 1..];
        h := [entry] + h;
      } else {
        FoundAt(Names(h), cmd, |h|);
        h := [Entry(cmd, now, 1)] + h;
      }
      Save(h);
    }

    /** The names in order, later duplicates skipped. */
    method RecentCommands() returns (result: seq<string>)
      ensures NoDup(result) && forall c :: c in result <==> c in Names(entries)
      ensures NoDup(Names(entries)) ==> result == Names(entries)
    {
      var seen: set<string> := {};
      result := [];
      var names := Names(entries);
      for i := 0 to |entries|
        invariant NoDup(result) && forall c :: c in seen <==> c in result
        invariant forall c :: c in result <==> c in names[..i]
        invariant NoDup(names) ==> result == names[..i]
      {
        var c := entries[i].command;
        assert names[..i + 1] == names[..i] + [c];
        if c !in seen {
          seen := seen + {c};
          result := result + [c];
        } else {
          assert !NoDup(names) by {
            var j :| 0 <= j < i && names[..i][j] == c;
            assert names[j] == names[i];
          }
        }
      }
      assert names[..|entries|] == names;
    }
  }

  lemma FoundAt(names: seq<string>, c: string, k: nat)
    requires k <= |names| && (k < |names| ==> names[k] == c)
    requires forall i :: 0 <= i < k ==> names[i] != c
    ensures Find(names, c) == k
    decreases |names|
  {
  }
}
