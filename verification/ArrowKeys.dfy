/** The arrow-key coalescer of cmd/chat_update.go: a first arrow waits for a
    tick, a fast one goes through at once. Handling a key is abstracted to its
    place in the list of dispatched keys. */
module ArrowKeys {
  import opened Wrappers

  /** A key press; `nth` numbers presses in order of arrival. */
  datatype Key = Key(name: string, nth: nat) {
    predicate IsArrow() { name == "up" || name == "down" }
  }

  const BURST_MS := 30

  datatype State = State(
    arrowSeq: nat, pending: Option<Key>, last: Option<int>, burst: bool,
    dispatched: seq<Key>, ticked: bool)  // ticked: the newest arrow's tick has come

  const START := State(0, None, None, false, [], true)

  datatype Event = Press(key: Key, now: int) | Tick(seqNo: nat)

  /** Less than 30 ms after the previous arrow; the first arrow never is. */
  predicate Fast(s: State, now: int) {
    s.last.Some? && now - s.last.value < BURST_MS
  }

  function Waiting(s: State): seq<Key> {
    if s.pending.Some? then [s.pending.value] else []
  }

  function Step(s: State, e: Event): State {
    match e
    case Press(key, now) =>
      if key.IsArrow() then
        var t := s.(arrowSeq := s.arrowSeq + 1, last := Some(now), ticked := false);
        if Fast(s, now) then t.(burst := true, pending := None, dispatched := s.dispatched + Waiting(s) + [key])
        else t.(burst := false, pending := Some(key))
      else
        s.(burst := s.burst && s.pending.None?, pending := None, dispatched := s.dispatched + Waiting(s) + [key])
    case Tick(n) =>
      if n != s.arrowSeq then s
      else s.(burst := false, pending := None, dispatched := s.dispatched + Waiting(s), ticked := true)
  }

  function Run(s: State, es: seq<Event>): State {
    if es == [] then s else Step(Run(s, es[..|es| - 1]), es[|es| - 1])
  }

  function Pressed(es: seq<Event>): seq<Key> {
    if es == [] then []
    else Pressed(es[..|es| - 1]) + if es[|es| - 1].Press? then [es[|es| - 1].key] else []
  }

  /** Presses are numbered as they arrive. */
  ghost predicate Numbered(es: seq<Event>) {
    forall i :: 0 <= i < |Pressed(es)| ==> Pressed(es)[i].nth == i
  }

  /** A slow arrow that finds another one still waiting takes its place. */
  predicate Overwrites(s: State, e: Event) {
    e.Press? && e.key.IsArrow() && !Fast(s, e.now) && s.pending.Some?
  }

  function Losses(es: seq<Event>): nat {
    if es == [] then 0
    else
      var init := es[..|es| - 1];
      Losses(init) + if Overwrites(Run(START, init), es[|es| - 1]) then 1 else 0
  }

  /** Keys dispatched so far and the one still waiting. */
  function Handled(s: State): seq<Key> {
    s.dispatched + Waiting(s)
  }

  ghost predicate InArrivalOrder(ks: seq<Key>) {
    forall i, j :: 0 <= i < j < |ks| ==> ks[i].nth < ks[j].nth
  }

  lemma PressedInit(es: seq<Event>)
    requires es != [] && Numbered(es)
    ensures Numbered(es[..|es| - 1])
    ensures es[|es| - 1].Press? ==> es[|es| - 1].key.nth == |Pressed(es[..|es| - 1])|
  {
    var p, q := Pressed(es), Pressed(es[..|es| - 1]);
    forall i | 0 <= i < |q| ensures q[i].nth == i {
      assert p[i] == q[i];
    }
    if es[|es| - 1].Press? {
      assert p[|q|] == es[|es| - 1].key;
    }
  }

  /** How one event changes what has been handled. */
  lemma HandledStep(s: State, e: Event)
    ensures Handled(Step(s, e)) ==
            if e.Tick? then Handled(s)
            else if Overwrites(s, e) then s.dispatched + [e.key]
            else Handled(s) + [e.key]
  {
  }

  /** `h` holds keys of `p`, each at most once and in the order of arrival. */
  ghost predicate Placed(h: seq<Key>, p: seq<Key>) {
    InArrivalOrder(h) && forall i :: 0 <= i < |h| ==> h[i].nth < |p| && p[h[i].nth] == h[i]
  }

  lemma PlacedPush(h: seq<Key>, p: seq<Key>, k: Key)
    requires Placed(h, p) && k.nth == |p|
    ensures Placed(h + [k], p + [k])
  {
  }

  lemma PlacedPrefix(h: seq<Key>, w: seq<Key>, p: seq<Key>)
    requires Placed(h + w, p)
    ensures Placed(h, p)
  {
    forall i | 0 <= i < |h| ensures (h + w)[i] == h[i] {}
  }

  /** The keys handled, with the number lost, account for the keys pressed. */
  ghost predicate Accounts(h: seq<Key>, losses: nat, p: seq<Key>) {
    Placed(h, p) && |h| + losses == |p| && (h == p <==> losses == 0)
  }

  lemma AccountsPush(h: seq<Key>, losses: nat, p: seq<Key>, k: Key)
    requires Accounts(h, losses, p) && k.nth == |p|
    ensures Accounts(h + [k], losses, p + [k])
  {
  }

  lemma AccountsOverwrite(h: seq<Key>, w: Key, losses: nat, p: seq<Key>, k: Key)
    requires Accounts(h + [w], losses, p) && k.nth == |p|
    ensures Accounts(h + [k], losses + 1, p + [k])
  {
    PlacedPrefix(h, [w], p);
    PlacedPush(h, p, k);
    assert |h + [k]| != |p + [k]|;
  }

  /** In every run each key is handled at most once and in the order of arrival,
      and the keys that are not are exactly the overwritten arrows; so nothing
      is lost exactly when no slow arrow finds another one waiting. */
  lemma {:induction false} KeysInOrder(es: seq<Event>)
    requires Numbered(es)
    ensures Accounts(Handled(Run(START, es)), Losses(es), Pressed(es))
    decreases |es|
  {
    if es != [] {
      var init, e := es[..|es| - 1], es[|es| - 1];
      var s := Run(START, init);
      PressedInit(es);
      KeysInOrder(init);
      HandledStep(s, e);
      if e.Tick? {
        assert Pressed(init) + [] == Pressed(init);
      } else if Overwrites(s, e) {
        AccountsOverwrite(s.dispatched, s.pending.value, Losses(init), Pressed(init), e.key);
      } else {
        AccountsPush(Handled(s), Losses(init), Pressed(init), e.key);
      }
    }
  }

  /** While an arrow waits its tick has not come, so a run in which every slow
      arrow comes after the tick of the arrow before it loses nothing. */
  ghost predicate TicksInTime(es: seq<Event>) {
    forall i :: 0 <= i < |es| && es[i].Press? && es[i].key.IsArrow() && !Fast(Run(START, es[..i]), es[i].now)
      ==> Run(START, es[..i]).ticked
  }

  lemma {:induction false} TickedMeansQuiet(es: seq<Event>)
    ensures var s := Run(START, es); s.ticked ==> s.pending.None? && !s.burst
    decreases |es|
  {
    if es != [] {
      TickedMeansQuiet(es[..|es| - 1]);
    }
  }

  lemma {:induction false} TimelyRunsLoseNothing(es: seq<Event>)
    requires TicksInTime(es)
    ensures Losses(es) == 0
    decreases |es|
  {
    if es != [] {
      var n := |es| - 1;
      var init := es[..n];
      forall i | 0 <= i < n ensures init[i] == es[i] && init[..i] == es[..i] {}
      TimelyRunsLoseNothing(init);
      TickedMeansQuiet(init);
    }
  }

  /** A tick for any arrow but the newest changes nothing; the newest one's ends
      the burst and lets the waiting arrow through. */
  lemma StaleTick(s: State, n: nat)
    ensures n != s.arrowSeq ==> Step(s, Tick(n)) == s
    ensures n == s.arrowSeq ==> var t := Step(s, Tick(n));
              !t.burst && t.pending.None? && t.dispatched == Handled(s)
  {
  }

  /** An arrow 30 ms or more after the one before, or the first of all, waits;
      nothing is handled. Any other key lets a waiting arrow through and follows it. */
  lemma SlowArrowWaits(s: State, key: Key, now: int)
    ensures key.name in {"up", "down"} && (s.last.None? || now - s.last.value >= 30) ==>
              var t := Step(s, Press(key, now));
              t.dispatched == s.dispatched && t.pending == Some(key) && t.last == Some(now) && !t.burst
    ensures key.name !in {"up", "down"} ==>
              var t := Step(s, Press(key, now));
              && t.dispatched == s.dispatched + Waiting(s) + [key] && t.pending == None && t.last == s.last
              && t.burst == (s.burst && s.pending == None) && t.arrowSeq == s.arrowSeq
  {
  }

  /** Arrows of which each comes less than 30 ms after the one before it. */
  ghost predicate Burst(last: int, es: seq<Event>)
    decreases |es|
  {
    es == [] ||
    (var e := es[|es| - 1];
     && Burst(last, es[..|es| - 1]) && e.Press? && e.key.name in {"up", "down"}
     && e.now - LastPress(last, es[..|es| - 1]) < 30)
  }

  /** When the last press was, or `last`. */
  function LastPress(last: int, es: seq<Event>): int {
    if es == [] || es[|es| - 1].Tick? then last else es[|es| - 1].now
  }

  /** All arrows of a burst are handled at once, after the one that waited, and
      without any tick. */
  lemma {:induction false} BurstGoesThrough(s: State, es: seq<Event>)
    requires s.last.Some? && Burst(s.last.value, es) && es != []
    ensures var t := Run(s, es);
            && t.dispatched == Handled(s) + Pressed(es) && t.pending == None && t.burst
            && t.last == Some(LastPress(s.last.value, es))
    decreases |es|
  {
    var init, e := es[..|es| - 1], es[|es| - 1];
    if init == [] {
      assert Pressed(es) == [] + [e.key] == [e.key];
    } else {
      BurstGoesThrough(s, init);
      assert Handled(s) + Pressed(init) + [] + [e.key] == Handled(s) + (Pressed(init) + [e.key]);
    }
  }

  /** Two slow arrows with no tick between them: the first is lost. */
  lemma LateTickLoses()
    ensures var es := [Press(Key("up", 0), 0), Press(Key("down", 1), 40), Tick(1), Tick(2)];
            Numbered(es) && Run(START, es).dispatched == [Key("down", 1)]
  {
    var up, down := Key("up", 0), Key("down", 1);
    var e0: seq<Event> := [];
    var e1 := [Press(up, 0)];
    var e2 := [Press(up, 0), Press(down, 40)];
    var e3 := [Press(up, 0), Press(down, 40), Tick(1)];
    var e4 := [Press(up, 0), Press(down, 40), Tick(1), Tick(2)];
    assert e1[..0] == e0 && e2[..1] == e1 && e3[..2] == e2 && e4[..3] == e3;
    assert Run(START, e0) == START && Pressed(e0) == [];
    assert Run(START, e1) == Step(START, Press(up, 0)) && Pressed(e1) == [up];
    assert Run(START, e2) == Step(Run(START, e1), Press(down, 40)) && Pressed(e2) == [up, down];
    assert Run(START, e3) == Run(START, e2) && Pressed(e3) == [up, down];
    assert Run(START, e4) == Step(Run(START, e3), Tick(2)) && Pressed(e4) == [up, down];
  }

  class Model {
    var arrowSeq: nat
    var pending: Option<Key>
    var last: Option<int>
    var burst: bool
    var processingGenuine: bool
    var dispatched: seq<Key>
    ghost var ticked: bool

    ghost function Now(): State
      reads this
    {
      State(arrowSeq, pending, last, burst, dispatched, ticked)
    }

    constructor ()
      ensures Now() == START && !processingGenuine
    {
      arrowSeq, pending, last, burst, processingGenuine := 0, None, None, false, false;
      dispatched, ticked := [], true;
    }

    /** A key that has been let through: `Update` with the genuine flag set
        skips the coalescer and handles the key. */
    method Handle(key: Key)
      modifies this`dispatched
      ensures dispatched == old(dispatched) + [key]
    {
      dispatched := dispatched + [key];
    }

    /** Lets the waiting arrow through, if there is one. */
    method Release()
      requires !processingGenuine
      modifies this`pending, this`processingGenuine, this`dispatched
      ensures pending == None && !processingGenuine && dispatched == old(Handled(Now()))
    {
      if pending.Some? {
        var key := pending.value;
        pending := None;
        processingGenuine := true;
        Handle(key);
        processingGenuine := false;
      }
    }

    method OnTick(n: nat)
      requires !processingGenuine
      modifies this
      ensures !processingGenuine && Now() == Step(old(Now()), Tick(n))
    {
      if arrowSeq == n {
        burst := false;
        ticked := true;
      }
      if pending.Some? && arrowSeq == n {
        Release();
        burst := false;
      }
    }

    method OnKey(key: Key, now: int)
      requires !processingGenuine
      modifies this
      ensures !processingGenuine && Now() == Step(old(Now()), Press(key, now))
    {
      if key.IsArrow() {
        var fast := last.Some? && now - last.value < BURST_MS;
        last := Some(now);
        arrowSeq := arrowSeq + 1;
        ticked := false;
        if fast {
          burst := true;
          Release();
        } else {
          burst := false;
          pending := Some(key);
          return;
        }
      } else if pending.Some? {
        burst := false;
        Release();
      }
      Handle(key);
    }
  }
}
