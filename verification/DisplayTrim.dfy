/** `trimOldMessages` and `reindexExpandedMap` of cmd/chat_model.go, over runs of
    appends, toggles and trims. */
module DisplayTrim {
  import opened Wrappers

  datatype Msg = Text(role: string, content: string) | Hint(count: nat) {
    predicate IsWelcome() { Text? && role == "welcome" }
  }

  const MAX_DISPLAY := 500
  const TRIM_THRESHOLD := 450

  datatype Display = Display(messages: seq<Msg>, expanded: map<nat, bool>)

  /** Where the message at place `i` was before a trim. */
  function Source(start: nat, trim: nat, i: nat): nat
    requires trim > 0
  {
    if i < start then i else i + trim - 1
  }

  function KeysAfter(expanded: map<nat, bool>, start: nat, trim: nat): (r: set<nat>)
    requires trim > 0
    ensures forall i: nat :: i in r <==> i != start && Source(start, trim, i) in expanded
  {
    var low := set i: nat | i in expanded && i < start;
    var high := set i: nat | i in expanded && i >= start + trim :: i - trim + 1;
    assert forall i: nat :: i > start && Source(start, trim, i) in expanded ==> i in high by {
      forall i: nat | i > start && Source(start, trim, i) in expanded ensures i in high {
        var k: nat := i + trim - 1;
        assert k in expanded && k >= start + trim && k - trim + 1 == i;
      }
    }
    low + high
  }

  /** Expansion flags after a trim: untouched below `start`, pruned where
      messages went, and shifted down past the one slot of the hint. */
  function Reindexed(expanded: map<nat, bool>, start: nat, trim: nat): map<nat, bool>
    requires trim > 0
  {
    map i: nat | i in KeysAfter(expanded, start, trim) :: expanded[Source(start, trim, i)]
  }

  function StartIdx(messages: seq<Msg>): nat {
    if messages != [] && messages[0].IsWelcome() then 1 else 0
  }

  function Trimmed(d: Display): Display {
    var n := |d.messages|;
    if n <= TRIM_THRESHOLD || n <= MAX_DISPLAY then d
    else
      var trim, start := n - MAX_DISPLAY, StartIdx(d.messages);
      Display(d.messages[..start] + [Hint(trim)] + d.messages[start + trim..],
              Reindexed(d.expanded, start, trim))
  }

  // ----- what a display stands for -----

  /** A display as a window on the whole history: an optional welcome, an
      optional hint, and the history from `cut` on with its own flags. */
  datatype Window = Window(welcome: Option<Msg>, hint: Option<nat>, cut: nat,
                           full: seq<Msg>, flags: map<nat, bool>)

  function Head(w: Window): seq<Msg> {
    (if w.welcome.Some? then [w.welcome.value] else []) + (if w.hint.Some? then [Hint(w.hint.value)] else [])
  }

  /** Only the welcome has the welcome role. */
  ghost predicate Proper(w: Window) {
    && (w.welcome.Some? ==> w.welcome.value.Text? && w.welcome.value.role == "welcome")
    && (forall i :: 0 <= i < |w.full| ==> !(w.full[i].Text? && w.full[i].role == "welcome"))
    && w.cut <= |w.full| && (w.hint.None? ==> w.cut == 0)
  }

  /** Place `p` carries the flag of message `h`, or both carry none. */
  predicate SameFlag(expanded: map<nat, bool>, p: nat, flags: map<nat, bool>, h: nat) {
    (p in expanded <==> h in flags) && (p in expanded ==> expanded[p] == flags[h])
  }

  /** The message shown at place `p`. */
  function Behind(w: Window, p: nat): nat
    requires p >= |Head(w)|
  {
    p - |Head(w)| + w.cut
  }

  ghost predicate FlagsShow(expanded: map<nat, bool>, w: Window) {
    && (forall p: nat :: p >= |Head(w)| ==> SameFlag(expanded, p, w.flags, Behind(w, p)))
    && (w.hint.Some? ==> |Head(w)| - 1 !in expanded)
  }

  /** `d` shows `w`: the messages in order, and at each shown message's place
      exactly its own flag; the hint carries none. */
  ghost predicate Shows(d: Display, w: Window) {
    Proper(w) && d.messages == Head(w) + w.full[w.cut..] && FlagsShow(d.expanded, w)
  }

  function Appended(d: Display, m: Msg): Display {
    d.(messages := d.messages + [m])
  }

  lemma AppendShows(d: Display, w: Window, m: Msg)
    requires Shows(d, w) && !m.IsWelcome()
    ensures Shows(Appended(d, m), w.(full := w.full + [m]))
  {
    assert (w.full + [m])[w.cut..] == w.full[w.cut..] + [m];
    assert Head(w) + (w.full[w.cut..] + [m]) == Head(w) + w.full[w.cut..] + [m];
    var v := w.(full := w.full + [m]);
    forall p: nat | p >= |Head(v)| ensures SameFlag(d.expanded, p, v.flags, Behind(v, p)) {
      assert SameFlag(d.expanded, p, w.flags, Behind(w, p));
    }
  }

  /** Enter on message `p`. */
  function Toggled(d: Display, p: nat): Display {
    d.(expanded := d.expanded[p := !(p in d.expanded && d.expanded[p])])
  }

  /** The flag of message `h` is flipped, one that was never set counting as off,
      and no other changes. */
  lemma FlagFlips(w: Window, h: nat)
    ensures var f, g := w.flags, FlagToggled(w, h).flags;
            && h in g && (g[h] <==> !(h in f && f[h]))
            && (forall i: nat :: i != h ==> (i in g <==> i in f) && (i in f ==> g[i] == f[i]))
    ensures FlagToggled(w, h).(flags := w.flags) == w
  {
  }

  function FlagToggled(w: Window, h: nat): Window {
    w.(flags := w.flags[h := !(h in w.flags && w.flags[h])])
  }

  lemma ToggleShows(d: Display, w: Window, p: nat)
    requires Shows(d, w) && p >= |Head(w)|
    ensures Shows(Toggled(d, p), FlagToggled(w, Behind(w, p)))
  {
    var v, t := FlagToggled(w, Behind(w, p)), Toggled(d, p);
    forall q: nat | q >= |Head(v)| ensures SameFlag(t.expanded, q, v.flags, Behind(v, q)) {
      assert SameFlag(d.expanded, q, w.flags, Behind(w, q));
    }
  }

  /** The window after a trim: the oldest shown messages are gone with their flags. */
  function TrimmedWindow(w: Window): Window {
    var n := |Head(w)| + |w.full| - w.cut;
    if w.cut > |w.full| || n <= MAX_DISPLAY then w
    else
      var trim := n - MAX_DISPLAY;
      w.(hint := Some(trim), cut := w.cut + trim - if w.hint.Some? then 1 else 0)
  }

  /** A trim shows a window that only lost its oldest messages, and the display
      then has at most 501 entries. */
  lemma TrimShows(d: Display, w: Window)
    requires Shows(d, w)
    ensures Shows(Trimmed(d), TrimmedWindow(w))
    ensures if |d.messages| <= 500 then Trimmed(d) == d else |Trimmed(d).messages| == 501
    ensures TrimmedWindow(w).full == w.full && TrimmedWindow(w).flags == w.flags
    ensures TrimmedWindow(w).welcome == w.welcome && TrimmedWindow(w).cut >= w.cut
  {
    var n := |d.messages|;
    assert n == |Head(w)| + |w.full| - w.cut;
    if n > MAX_DISPLAY {
      StartOfWindow(d, w);
      TrimMessages(d, w);
      TrimFlags(d, w);
    }
  }

  lemma StartOfWindow(d: Display, w: Window)
    requires Shows(d, w) && d.messages != []
    ensures StartIdx(d.messages) == if w.welcome.Some? then 1 else 0
  {
  }

  lemma TrimMessages(d: Display, w: Window)
    requires Shows(d, w) && |d.messages| > MAX_DISPLAY
    requires StartIdx(d.messages) == if w.welcome.Some? then 1 else 0
    ensures var v := TrimmedWindow(w); Proper(v) && Trimmed(d).messages == Head(v) + v.full[v.cut..]
    ensures |Trimmed(d).messages| == MAX_DISPLAY + 1
  {
    var v := TrimmedWindow(w);
    var start, trim := StartIdx(d.messages), |d.messages| - MAX_DISPLAY;
    TrimHead(d, w, start, trim);
    TrimLength(d.messages, start, trim);
    TrimTail(d, w, start, trim);
    TrimmedIs(d, start, trim);
  }

  lemma TrimmedIs(d: Display, start: nat, trim: nat)
    requires |d.messages| > MAX_DISPLAY && start == StartIdx(d.messages) && trim == |d.messages| - MAX_DISPLAY
    ensures Trimmed(d).messages == d.messages[..start] + [Hint(trim)] + d.messages[start + trim..]
  {
  }

  lemma TrimTail(d: Display, w: Window, start: nat, trim: nat)
    requires Shows(d, w) && |d.messages| > MAX_DISPLAY
    requires start == (if w.welcome.Some? then 1 else 0) && trim == |d.messages| - MAX_DISPLAY
    ensures var v := TrimmedWindow(w); Proper(v) && d.messages[start + trim..] == v.full[v.cut..]
  {
    TailOf(Head(w), w.full, w.cut, start + trim);
    assert start + trim - |Head(w)| + w.cut == TrimmedWindow(w).cut;
  }

  lemma TrimLength(messages: seq<Msg>, start: nat, trim: nat)
    requires start <= 1 && |messages| == trim + MAX_DISPLAY
    ensures |messages[..start] + [Hint(trim)] + messages[start + trim..]| == MAX_DISPLAY + 1
  {
  }

  lemma TrimHead(d: Display, w: Window, start: nat, trim: nat)
    requires Shows(d, w) && |d.messages| > MAX_DISPLAY
    requires start == (if w.welcome.Some? then 1 else 0) && trim == |d.messages| - MAX_DISPLAY
    ensures Head(TrimmedWindow(w)) == d.messages[..start] + [Hint(trim)]
  {
    assert d.messages[..start] == (if w.welcome.Some? then [w.welcome.value] else []);
  }

  lemma TailOf(head: seq<Msg>, full: seq<Msg>, cut: nat, k: nat)
    requires cut <= |full| && |head| <= k <= |head| + |full| - cut
    ensures (head + full[cut..])[k..] == full[k - |head| + cut..]
  {
  }

  lemma TrimFlags(d: Display, w: Window)
    requires Shows(d, w) && |d.messages| > MAX_DISPLAY
    requires StartIdx(d.messages) == if w.welcome.Some? then 1 else 0
    ensures FlagsShow(Trimmed(d).expanded, TrimmedWindow(w))
  {
    var v, t := TrimmedWindow(w), Trimmed(d);
    var start, trim := StartIdx(d.messages), |d.messages| - MAX_DISPLAY;
    assert |Head(v)| == start + 1;
    forall p: nat | p >= |Head(v)| ensures SameFlag(t.expanded, p, v.flags, Behind(v, p)) {
      var q := Source(start, trim, p);
      assert q >= |Head(w)| && Behind(w, q) == Behind(v, p);
      assert SameFlag(d.expanded, q, w.flags, Behind(w, q));
    }
  }

  // ----- runs -----

  datatype Event = Append(m: Msg) | Toggle(p: nat) | Trim

  function Step(d: Display, e: Event): Display {
    match e
    case Append(m) => Appended(d, m)
    case Toggle(p) => Toggled(d, p)
    case Trim => Trimmed(d)
  }

  function WindowStep(w: Window, e: Event): Window {
    match e
    case Append(m) => w.(full := w.full + [m])
    case Toggle(p) =>
      if p < |Head(w)| then w else FlagToggled(w, Behind(w, p))
    case Trim => TrimmedWindow(w)
  }

  function Run(d: Display, es: seq<Event>): Display
    decreases |es|
  {
    if es == [] then d else Run(Step(d, es[0]), es[1..])
  }

  function WindowRun(w: Window, es: seq<Event>): Window
    decreases |es|
  {
    if es == [] then w else WindowRun(WindowStep(w, es[0]), es[1..])
  }

  /** The welcome is not appended, and messages, not the head, are toggled. */
  ghost predicate Usual(w: Window, e: Event) {
    match e
    case Append(m) => !m.IsWelcome()
    case Toggle(p) => p >= |Head(w)|
    case Trim => true
  }

  ghost predicate AllUsual(w: Window, es: seq<Event>)
    decreases |es|
  {
    es == [] || (Usual(w, es[0]) && AllUsual(WindowStep(w, es[0]), es[1..]))
  }

  lemma StepShows(d: Display, w: Window, e: Event)
    requires Shows(d, w) && Usual(w, e)
    ensures Shows(Step(d, e), WindowStep(w, e))
  {
    match e
    case Append(m) => AppendShows(d, w, m);
    case Toggle(p) => ToggleShows(d, w, p);
    case Trim => TrimShows(d, w);
  }

  /** In every run the display is the welcome, a hint if anything was trimmed,
      and a suffix of the history in order, with every message's own flag. */
  lemma {:induction false} RunShows(d: Display, w: Window, es: seq<Event>)
    requires Shows(d, w) && AllUsual(w, es)
    ensures Shows(Run(d, es), WindowRun(w, es))
    decreases |es|
  {
    if es != [] {
      StepShows(d, w, es[0]);
      RunShows(Step(d, es[0]), WindowStep(w, es[0]), es[1..]);
    }
  }

  /** What the hint says: all that is gone on a first trim; after that one less
      than what was gone before is left out of the count. */
  lemma HintCounts(w: Window)
    requires Proper(w) && |Head(w)| + |w.full| - w.cut > 500
    ensures var v := TrimmedWindow(w);
            v.hint == Some(v.cut - w.cut + if w.hint.Some? then 1 else 0)
            && (v.hint.value == v.cut <==> w.hint.None? || w.cut == 1)
  {
  }

  // ----- the code -----

  class Model {
    var messages: seq<Msg>
    var expanded: map<nat, bool>

    ghost function Now(): Display
      reads this
    {
      Display(messages, expanded)
    }

    method TrimOldMessages()
      modifies this
      ensures Now() == Trimmed(old(Now()))
    {
      if |messages| <= TRIM_THRESHOLD {
        return;
      }
      var trimCount := |messages| - MAX_DISPLAY;
      if trimCount <= 0 {
        return;
      }
      var startIdx := 0;
      if messages[0].IsWelcome() {
        startIdx := 1;
      }
      if startIdx + trimCount >= |messages| {
        return;
      }
      var kept := messages[..startIdx];
      kept := kept + [Hint(trimCount)];
      kept := kept + messages[startIdx + trimCount..];
      messages := kept;
      expanded := ReindexExpandedMap(expanded, startIdx, trimCount);
    }
  }

  method ReindexExpandedMap(expanded: map<nat, bool>, startIdx: nat, trimCount: nat)
    returns (reindexed: map<nat, bool>)
    requires trimCount > 0
    ensures reindexed == Reindexed(expanded, startIdx, trimCount)
  {
    reindexed := map[];
    var todo := expanded.Keys;
    while todo != {}
      invariant todo <= expanded.Keys
      invariant forall i: nat :: i in reindexed <==>
                  i != startIdx && Source(startIdx, trimCount, i) in expanded.Keys - todo
      invariant forall i: nat :: i in reindexed ==> reindexed[i] == expanded[Source(startIdx, trimCount, i)]
      decreases |todo|
    {
      var idx :| idx in todo;
      todo := todo - {idx};
      if idx < startIdx {
        reindexed := reindexed[idx := expanded[idx]];
      } else if idx >= startIdx + trimCount {
        reindexed := reindexed[idx - trimCount + 1 := expanded[idx]];
      }
    }
  }
}
