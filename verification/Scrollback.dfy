/** The scrollback cache: `assembleViewportContent`, `renderMessagesRange` and
    the separator rules of `renderDisplayMessage` (cmd/chat_viewport_render.go).
    The body text of a message is left to a view. */
module Scrollback {

  datatype Role = User | Assistant | ToolUse | ToolResult | Usage | Welcome | NoRole | Other(name: string)

  datatype Msg = Msg(role: Role, content: string)

  /** How a message's own text is drawn (by index, width and expansion), and
      which contents are blank once sanitized. */
  datatype View = View(body: (Msg, nat, int, bool) -> string, blank: string -> bool)

  /** A message whose neighbour below reads as its continuation. */
  predicate Tight(role: Role, next: Role) {
    || (role == User && next == ToolUse)
    || (role == ToolUse && next == ToolResult)
    || (role == ToolResult && next == ToolUse)
  }

  /** What follows a message when nothing comes after it. */
  function Tail(role: Role): string {
    match role
    case Usage => "\n"
    case Welcome => ""
    case NoRole => ""
    case _ => "\n\n"
  }

  /** What follows a message when `next` comes after it. */
  function Between(role: Role, next: Role): string {
    if Tight(role, next) then "\n" else Tail(role)
  }

  /** An assistant message without text is skipped, separator and all. */
  predicate Skipped(v: View, m: Msg) {
    m.role == Assistant && v.blank(m.content)
  }

  /** Message `i` of `ms`, drawn as if it were the last when `asLast`. */
  function DrawAs(v: View, ms: seq<Msg>, i: nat, width: int, expanded: set<nat>, asLast: bool): string
    requires i < |ms|
  {
    if Skipped(v, ms[i]) then ""
    else v.body(ms[i], i, width, i in expanded)
         + if asLast || i + 1 == |ms| then Tail(ms[i].role) else Between(ms[i].role, ms[i + 1].role)
  }

  /** `renderDisplayMessage`: a message in its place. */
  function Draw(v: View, ms: seq<Msg>, i: nat, width: int, expanded: set<nat>): string
    requires i < |ms|
  {
    DrawAs(v, ms, i, width, expanded, false)
  }

  /** The first `n` messages, those in `seams` drawn as if they were the last. */
  function Patched(v: View, ms: seq<Msg>, n: nat, width: int, expanded: set<nat>, seams: set<nat>): string
    requires n <= |ms|
  {
    if n == 0 then ""
    else Patched(v, ms, n - 1, width, expanded, seams)
         + DrawAs(v, ms, n - 1, width, expanded, n - 1 in seams)
  }

  /** The plain computation: every message in its place. */
  function Full(v: View, ms: seq<Msg>, width: int, expanded: set<nat>): string {
    Patched(v, ms, |ms|, width, expanded, {})
  }

  /** What a message is drawn as: nothing for an assistant's blank one; otherwise its
      body and, depending on its role and on what follows it, two newlines, one or
      none. */
  lemma DrawnMeans(v: View, ms: seq<Msg>, i: nat, width: int, expanded: set<nat>)
    requires i < |ms|
    ensures var m := ms[i];
            var next := if i + 1 < |ms| then ms[i + 1].role else NoRole;
            var tight := || (m.role == User && next == ToolUse)
                         || (m.role == ToolUse && next == ToolResult)
                         || (m.role == ToolResult && next == ToolUse);
            Draw(v, ms, i, width, expanded) ==
            if m.role == Assistant && v.blank(m.content) then ""
            else v.body(m, i, width, i in expanded)
                 + if m.role == Welcome || m.role == NoRole then ""
                   else if m.role == Usage || tight then "\n" else "\n\n"
  {
  }

  /** The whole is its messages drawn one after the other. */
  lemma FullSnoc(v: View, ms: seq<Msg>, n: nat, width: int, expanded: set<nat>)
    requires n < |ms|
    ensures Patched(v, ms, 0, width, expanded, {}) == ""
    ensures Patched(v, ms, n + 1, width, expanded, {})
            == Patched(v, ms, n, width, expanded, {}) + Draw(v, ms, n, width, expanded)
    ensures Full(v, ms, width, expanded) == Patched(v, ms, |ms|, width, expanded, {})
  {
  }

  // ----- what seams cost -----

  predicate LooseAt(ms: seq<Msg>, i: nat, seams: set<nat>)
    requires i < |ms|
  {
    i in seams && i + 1 < |ms| && Tight(ms[i].role, ms[i + 1].role)
  }

  /** How many of the seams below `n` have a tight neighbour. */
  function Loose(ms: seq<Msg>, n: nat, seams: set<nat>): nat
    requires n <= |ms|
  {
    if n == 0 then 0 else Loose(ms, n - 1, seams) + if LooseAt(ms, n - 1, seams) then 1 else 0
  }

  /** A message drawn as the last has exactly one newline too many, and only
      before a tight neighbour. */
  lemma SeamCost(v: View, ms: seq<Msg>, i: nat, width: int, expanded: set<nat>, seams: set<nat>)
    requires i < |ms|
    ensures DrawAs(v, ms, i, width, expanded, i in seams) ==
            Draw(v, ms, i, width, expanded) + if LooseAt(ms, i, seams) then "\n" else ""
  {
  }

  /** The incremental scrollback is longer than the full one by exactly the
      number of loose seams, so it is the full one exactly when there are none. */
  lemma {:induction false} PatchedVersusFull(v: View, ms: seq<Msg>, n: nat, width: int, expanded: set<nat>,
                                             seams: set<nat>)
    requires n <= |ms|
    ensures var p, f := Patched(v, ms, n, width, expanded, seams), Patched(v, ms, n, width, expanded, {});
            |p| == |f| + Loose(ms, n, seams) && (p == f <==> Loose(ms, n, seams) == 0)
    decreases n
  {
    if n > 0 {
      PatchedVersusFull(v, ms, n - 1, width, expanded, seams);
      OneMoreDrawn(v, ms, n - 1, width, expanded, seams,
                   Patched(v, ms, n - 1, width, expanded, seams), Patched(v, ms, n - 1, width, expanded, {}));
    }
  }

  /** Both drawings with one message more. */
  lemma OneMoreDrawn(v: View, ms: seq<Msg>, n: nat, width: int, expanded: set<nat>, seams: set<nat>, p: string, f: string)
    requires n < |ms| && p == Patched(v, ms, n, width, expanded, seams) && f == Patched(v, ms, n, width, expanded, {})
    requires |p| >= |f|
    ensures var p', f' := Patched(v, ms, n + 1, width, expanded, seams), Patched(v, ms, n + 1, width, expanded, {});
            var loose := LooseAt(ms, n, seams);
            |p'| - |f'| == |p| - |f| + (if loose then 1 else 0) && (p' == f' <==> p == f && !loose)
  {
    SeamCost(v, ms, n, width, expanded, seams);
    LongerByExtra(p, f, Draw(v, ms, n, width, expanded), LooseAt(ms, n, seams));
  }

  lemma LongerByExtra(p: string, f: string, d: string, loose: bool)
    requires |p| >= |f|
    ensures var e := if loose then "\n" else "";
            |p + (d + e)| == |p| + |d| + (if loose then 1 else 0) &&
            (p + (d + e) == f + d <==> p == f && !loose)
  {
    assert d + "" == d;
    var e := if loose then "\n" else "";
    if p + (d + e) == f + d {
      assert |p| == |f|;
      assert p == (p + (d + e))[..|p|] == (f + d)[..|f|] == f;
    }
  }

  // ----- the drawn prefix when the list around it changes -----

  lemma {:induction false} PatchedSame(v: View, a: seq<Msg>, b: seq<Msg>, n: nat, width: int,
                                       expanded: set<nat>, s: set<nat>, t: set<nat>)
    requires n <= |a| && n <= |b| && a[..n] == b[..n]
    requires forall i :: 0 <= i < n ==> (i in s <==> i in t)
    requires n > 0 ==> n - 1 in s || n == |a| == |b|
    ensures Patched(v, a, n, width, expanded, s) == Patched(v, b, n, width, expanded, t)
    decreases n
  {
    if n > 0 {
      assert a[n - 1] == a[..n][n - 1] == b[..n][n - 1] == b[n - 1];
      PatchedInside(v, a, b, n - 1, n, width, expanded, s, t);
      assert DrawAs(v, a, n - 1, width, expanded, n - 1 in s) == DrawAs(v, b, n - 1, width, expanded, n - 1 in t);
    }
  }

  /** Below the end of the common prefix the neighbours agree as well. */
  lemma {:induction false} PatchedInside(v: View, a: seq<Msg>, b: seq<Msg>, k: nat, n: nat, width: int,
                                         expanded: set<nat>, s: set<nat>, t: set<nat>)
    requires k < n <= |a| && n <= |b| && a[..n] == b[..n]
    requires forall i :: 0 <= i < k ==> (i in s <==> i in t)
    ensures Patched(v, a, k, width, expanded, s) == Patched(v, b, k, width, expanded, t)
    decreases k
  {
    if k > 0 {
      assert a[k - 1] == a[..n][k - 1] == b[..n][k - 1] == b[k - 1];
      assert a[k] == a[..n][k] == b[..n][k] == b[k];
      PatchedInside(v, a, b, k - 1, n, width, expanded, s, t);
    }
  }

  class Cache {
    const view: View
    var messages: seq<Msg>
    var expanded: set<nat>
    var stable: string
    var rendered: nat
    var renderWidth: int
    var lastLen: nat
    ghost var drawn: seq<Msg>     // the messages as they were when drawn
    ghost var seams: set<nat>     // those that were the last one when drawn

    ghost predicate Valid()
      reads this
    {
      && |drawn| == rendered
      && stable == Patched(view, drawn, rendered, renderWidth, expanded, seams)
      && (rendered > 0 ==> rendered - 1 in seams && lastLen == |drawn[rendered - 1].content|)
      && (forall i :: i in seams ==> i < rendered)
    }

    /** The messages drawn so far are still there; only the last of all may
        differ, and then in length. */
    ghost predicate Current()
      requires |drawn| == rendered
      reads this
    {
      && rendered <= |messages|
      && (drawn == messages[..rendered]
          || (rendered == |messages| > 0 && drawn[..rendered - 1] == messages[..rendered - 1]
              && |messages[rendered - 1].content| != lastLen))
    }

    constructor (view: View)
      ensures Valid() && Current() && this.view == view && messages == []
    {
      this.view := view;
      messages, expanded := [], {};
      stable, rendered, renderWidth, lastLen := "", 0, 0, 0;
      drawn, seams := [], {};
    }

    method Append(m: Msg)
      requires Valid() && drawn <= messages
      modifies this`messages
      ensures Valid() && Current() && drawn <= messages && messages == old(messages) + [m]
    {
      messages := messages + [m];
    }

    /** The last message gets another text, of another length than was drawn. */
    method ReplaceLast(content: string)
      requires Valid() && drawn == messages != [] && |content| != lastLen
      modifies this`messages
      ensures Valid() && Current() && messages == old(messages)[|old(messages)| - 1 := Msg(old(messages)[|old(messages)| - 1].role, content)]
    {
      var n := |messages| - 1;
      messages := messages[n := Msg(messages[n].role, content)];
    }

    /** `invalidateViewportCache`, its part on these fields. */
    method Invalidate()
      modifies this`stable, this`rendered, this`renderWidth, this`lastLen, this`drawn, this`seams
      ensures Valid() && Current() && stable == ""
    {
      stable, rendered, renderWidth, lastLen := "", 0, 0, 0;
      drawn, seams := [], {};
    }

    /** Enter on a tool result: flips its expansion and drops the cache. */
    method Toggle(i: nat)
      modifies this
      ensures Valid() && Current() && stable == "" && messages == old(messages)
      ensures forall k :: k in expanded <==> (if k == i then k !in old(expanded) else k in old(expanded))
    {
      expanded := if i in expanded then expanded - {i} else expanded + {i};
      Invalidate();
    }

    /** `renderMessagesRange` from 0. */
    method RenderRange(end: nat, viewWidth: int) returns (s: string)
      requires end <= |messages|
      ensures s == Patched(view, messages, end, viewWidth, expanded, {})
    {
      s := "";
      for i := 0 to end
        invariant s == Patched(view, messages, i, viewWidth, expanded, {})
      {
        s := s + Draw(view, messages, i, viewWidth, expanded);
      }
    }

    /** Draws the messages that are new since the last call, below what was drawn. */
    method DrawNew(viewWidth: int, ghost all: seq<Msg>) returns (s: string)
      requires Valid() && rendered < |messages| && renderWidth == viewWidth
      requires all == drawn + messages[rendered..]
      ensures s == Patched(view, all, |messages|, viewWidth, expanded, seams)
    {
      s := stable;
      DrawnStays(view, drawn, messages, viewWidth, expanded, seams);
      for i := rendered to |messages|
        invariant s == Patched(view, all, i, viewWidth, expanded, seams)
      {
        DrawnBelow(view, drawn, messages, i, viewWidth, expanded, seams);
        s := s + Draw(view, messages, i, viewWidth, expanded);
      }
    }

    ghost predicate Rebuilds(viewWidth: int)
      reads this
    {
      || renderWidth != viewWidth || rendered > |messages| || stable == ""
      || (rendered == |messages| > 0 && |messages[rendered - 1].content| != lastLen)
    }

    /** Stores a drawing of as many messages as there are; its last one is a seam. */
    method Store(s: string, viewWidth: int, ghost of: seq<Msg>, ghost inner: set<nat>)
      requires |of| == |messages| && (messages != [] ==> |of[|of| - 1].content| == |messages[|of| - 1].content|)
      requires s == Patched(view, of, |of|, viewWidth, expanded, inner) && forall i :: i in inner ==> i < |of|
      modifies this`stable, this`rendered, this`renderWidth, this`lastLen, this`drawn, this`seams
      ensures Valid() && rendered == |messages| && renderWidth == viewWidth && stable == s && drawn == of
      ensures seams == if of == [] then {} else inner + {|of| - 1}
    {
      LastSeamFree(view, of, viewWidth, expanded, inner);
      stable, rendered, renderWidth := s, |messages|, viewWidth;
      lastLen := if rendered > 0 then |messages[rendered - 1].content| else 0;
      drawn, seams := of, if of == [] then {} else inner + {|of| - 1};
    }

    /** Draws every message again. */
    method Rebuild(viewWidth: int)
      modifies this`stable, this`rendered, this`renderWidth, this`lastLen, this`drawn, this`seams
      ensures Valid() && rendered == |messages| && renderWidth == viewWidth
      ensures drawn == messages && stable == Full(view, messages, viewWidth, expanded)
    {
      var s := RenderRange(|messages|, viewWidth);
      Store(s, viewWidth, messages, {});
    }

    /** The cached text with the new messages below it. */
    method Extend(viewWidth: int)
      requires Valid() && rendered < |messages| && renderWidth == viewWidth
      modifies this`stable, this`rendered, this`renderWidth, this`lastLen, this`drawn, this`seams
      ensures Valid() && rendered == |messages| && renderWidth == viewWidth
      ensures drawn == old(drawn) + messages[old(rendered)..]
      ensures seams == old(seams) + {|messages| - 1}
    {
      ghost var all := drawn + messages[rendered..];
      LastOfAll(drawn, messages);
      var s := DrawNew(viewWidth, all);
      Store(s, viewWidth, all, seams);
    }

    /** The last message changed: the ones before it and it are drawn again. */
    method RedrawLast(viewWidth: int)
      requires rendered == |messages| > 0
      modifies this`stable, this`rendered, this`renderWidth, this`lastLen, this`drawn, this`seams
      ensures Valid() && rendered == |messages| && renderWidth == viewWidth
      ensures drawn == messages && stable == Full(view, messages, viewWidth, expanded)
    {
      var prefix := RenderRange(rendered - 1, viewWidth);
      Store(prefix + Draw(view, messages, rendered - 1, viewWidth, expanded), viewWidth, messages, {});
    }

    /** Without any demand on how the messages changed, the text is a drawing of
        what was drawn before with the new messages below it; `drawn` is the
        messages themselves after a rebuild and whenever they were current. */
    method Assemble(viewWidth: int)
      requires Valid()
      modifies this`stable, this`rendered, this`renderWidth, this`lastLen, this`drawn, this`seams
      ensures Valid() && rendered == |messages| && renderWidth == viewWidth
      ensures old(Rebuilds(viewWidth)) ==>
                drawn == messages && stable == Full(view, messages, viewWidth, expanded)
      ensures !old(Rebuilds(viewWidth)) ==>
                drawn == old(drawn) + messages[old(rendered)..] && seams <= old(seams) + {|messages| - 1}
      ensures old(Current()) ==> drawn == messages
    {
      if drawn <= messages {
        CurrentIsAll(drawn, messages);
      }
      var fullRebuild := renderWidth != viewWidth || rendered > |messages| || stable == "";
      if !fullRebuild && rendered < |messages| {
        Extend(viewWidth);
      } else if !fullRebuild && rendered == |messages| && rendered > 0 {
        if |messages[rendered - 1].content| != lastLen {
          RedrawLast(viewWidth);
        } else {
          assert drawn + messages[rendered..] == drawn;
        }
      } else if fullRebuild {
        Rebuild(viewWidth);
      }
    }
  }

  /** When what was drawn is still there, drawing the rest below it draws it all. */
  lemma CurrentIsAll(drawn: seq<Msg>, messages: seq<Msg>)
    requires drawn <= messages
    ensures drawn + messages[|drawn|..] == messages
  {
  }

  lemma LastOfAll(drawn: seq<Msg>, messages: seq<Msg>)
    requires |drawn| < |messages|
    ensures var all := drawn + messages[|drawn|..];
            |all| == |messages| && all[|all| - 1] == messages[|all| - 1]
  {
  }

  /** What was drawn is drawn the same with the new messages below it. */
  lemma DrawnStays(v: View, drawn: seq<Msg>, messages: seq<Msg>, width: int, expanded: set<nat>, seams: set<nat>)
    requires |drawn| < |messages| && (drawn != [] ==> |drawn| - 1 in seams)
    ensures Patched(v, drawn, |drawn|, width, expanded, seams)
            == Patched(v, drawn + messages[|drawn|..], |drawn|, width, expanded, seams)
  {
    var all := drawn + messages[|drawn|..];
    assert all[..|drawn|] == drawn[..|drawn|];
    PatchedSame(v, drawn, all, |drawn|, width, expanded, seams, seams);
  }

  /** A new message is drawn the same below what was drawn. */
  lemma DrawnBelow(v: View, drawn: seq<Msg>, messages: seq<Msg>, i: nat, width: int, expanded: set<nat>,
                   seams: set<nat>)
    requires |drawn| <= i < |messages| && i !in seams
    ensures var all := drawn + messages[|drawn|..];
            Patched(v, all, i + 1, width, expanded, seams)
            == Patched(v, all, i, width, expanded, seams) + Draw(v, messages, i, width, expanded)
  {
    var all := drawn + messages[|drawn|..];
    assert all[i] == messages[i] && (i + 1 < |all| ==> all[i + 1] == messages[i + 1]);
  }

  /** Whether the last message of all counts as a seam makes no difference. */
  lemma LastSeamFree(v: View, ms: seq<Msg>, width: int, expanded: set<nat>, seams: set<nat>)
    ensures ms != [] ==> Patched(v, ms, |ms|, width, expanded, seams)
                         == Patched(v, ms, |ms|, width, expanded, seams + {|ms| - 1})
  {
    if ms != [] {
      PatchedInside(v, ms, ms, |ms| - 1, |ms|, width, expanded, seams, seams + {|ms| - 1});
    }
  }
}
