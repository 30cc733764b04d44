/** The cache fields of the chat model that `renderStreamTail` updates
    (cmd/chat_viewport_render.go), and what each tick makes of them. */
module StreamCache {
  import opened Text
  import opened MarkdownBlocks
  import opened StreamBoundary
  import opened StreamTail

  const ROBOT := "\U{25C8} "

  function Framed(body: string): string {
    ROBOT + body + "\n\n"
  }

  function TrimLeftNewlines(s: string): string {
    if s != [] && (s[0] == '\n' || s[0] == '\r') then TrimLeftNewlines(s[1..]) else s
  }

  // ----- a tick on the pieces -----

  /** Folded pieces: cut at boundaries, and the whole ends at one. */
  ghost predicate Foldable(pieces: seq<string>) {
    WellCut(pieces) && (Concat(pieces) == "" || CutAtEnd(Concat(pieces)))
  }

  /** The pieces folded so far and the width they were drawn at. */
  datatype Stage = Stage(pieces: seq<string>, width: int)

  /** What of a stage serves a text at a width. */
  function Carried(s: Stage, raw: string, width: int): (r: seq<string>)
    ensures Concat(r) <= raw
  {
    if s.width == width && Concat(s.pieces) <= raw then s.pieces else []
  }

  /** The blocks completed since are folded as one more piece. */
  ghost function Folded(pieces: seq<string>, raw: string): seq<string>
    requires Concat(pieces) <= raw
  {
    var from := |Concat(pieces)|;
    var b := Boundary(raw, from);
    if b > from then pieces + [raw[from..b]] else pieces
  }

  /** The pieces and the tail after them, as shown. */
  function Shown(pieces: seq<string>, raw: string): (xs: seq<string>)
    requires Concat(pieces) <= raw
  {
    var tail := raw[|Concat(pieces)|..];
    if tail == "" then pieces else pieces + [tail]
  }

  lemma PiecePushed(pieces: seq<string>, x: string)
    ensures Concat(pieces + [x]) == Concat(pieces) + x
    ensures forall draw: string -> string ::
              Joined(draw, pieces + [x]) == AppendRendered(Joined(draw, pieces), draw(x), Concat(pieces))
  {
    assert (pieces + [x])[..|pieces|] == pieces;
  }

  lemma PushedWellCut(pieces: seq<string>, x: string)
    requires Foldable(pieces) && x != ""
    ensures WellCut(pieces + [x])
  {
    var ys := pieces + [x];
    forall k | 0 < k < |ys| ensures CutAtEnd(Concat(ys[..k])) {
      assert ys[..k] == pieces[..k];
      if k == |pieces| {
        assert pieces[..k] == pieces && pieces[|pieces| - 1] != "";
      }
    }
  }

  lemma CutsAtBoundary(raw: string, from: nat, b: nat)
    requires from <= b && IsBoundary(raw, b)
    ensures raw[..b] == raw[..from] + raw[from..b] && CutAtEnd(raw[..b])
  {
    BoundaryOfPrefix(raw, b);
  }

  lemma FoldedIsFoldable(pieces: seq<string>, raw: string)
    requires Foldable(pieces) && Concat(pieces) <= raw
    ensures var next := Folded(pieces, raw);
            Foldable(next) && Concat(next) == raw[..Boundary(raw, |Concat(pieces)|)]
  {
    var from := |Concat(pieces)|;
    var b := Boundary(raw, from);
    assert Found(raw, from, b);
    assert raw[..from] == Concat(pieces);
    if b > from {
      CutsAtBoundary(raw, from, b);
      PiecePushed(pieces, raw[from..b]);
      PushedWellCut(pieces, raw[from..b]);
    }
  }

  lemma ShownIsWellCut(pieces: seq<string>, raw: string)
    requires Foldable(pieces) && Concat(pieces) <= raw
    ensures WellCut(Shown(pieces, raw)) && Concat(Shown(pieces, raw)) == raw
  {
    var tail := raw[|Concat(pieces)|..];
    assert raw == Concat(pieces) + tail;
    if tail != "" {
      PiecePushed(pieces, tail);
      PushedWellCut(pieces, tail);
    } else {
      assert raw == Concat(pieces);
    }
  }

  lemma StartsAtPrefix(prefix: string, raw: string)
    requires prefix <= raw && (prefix == "" || CutAtEnd(prefix))
    ensures IsStart(raw, |prefix|) && raw[..|prefix|] == prefix
  {
    if prefix != "" {
      assert raw[..|prefix|] == prefix;
      BoundaryOfPrefix(raw, |prefix|);
    }
  }

  // ----- the fields -----

  class Cache {
    const draw: int -> string -> string  // sanitizing and rendering one text at a width
    var prefixRaw: string
    var prefixOut: string
    var width: int
    ghost var pieces: seq<string>  // what was folded into the prefix, call by call

    /** The cached output is the cached raw text, drawn piece by piece. */
    ghost predicate Valid()
      reads this
    {
      prefixRaw == Concat(pieces) && prefixOut == Joined(draw(width), pieces) && Foldable(pieces)
    }

    ghost function Now(): Stage
      reads this
    {
      Stage(pieces, width)
    }

    constructor (draw: int -> string -> string)
      ensures Valid() && this.draw == draw && Now() == Stage([], 0)
    {
      this.draw := draw;
      prefixRaw, prefixOut, width, pieces := "", "", 0, [];
    }

    /** `invalidateViewportCache`, its part on these fields. */
    method Invalidate()
      modifies this
      ensures Valid() && Now() == Stage([], 0)
    {
      prefixRaw, prefixOut, width, pieces := "", "", 0, [];
    }

    /** Drops a prefix drawn at another width or for another text. */
    method Revalidate(raw: string, viewWidth: int)
      requires Valid()
      modifies this
      ensures Valid() && Now() == Stage(Carried(old(Now()), raw, viewWidth), viewWidth)
    {
      if width != viewWidth || !(prefixRaw <= raw) {
        prefixRaw, prefixOut, pieces := "", "", [];
        width := viewWidth;
      }
    }

    /** Draws `x` and joins it onto `out`, the drawn form of `xs`. */
    method JoinPiece(out: string, x: string, ghost xs: seq<string>, raw: string) returns (r: string)
      requires raw == Concat(xs) && out == Joined(draw(width), xs)
      ensures r == Joined(draw(width), xs + [x])
    {
      var rendered := draw(width)(x);
      var separator := TrailingNewlines(raw);
      r := if out == "" then rendered else out + separator + rendered;
      PiecePushed(xs, x);
    }

    /** Folds the blocks completed since the last call into the prefix. */
    method Fold(raw: string)
      requires Valid() && prefixRaw <= raw
      modifies this`prefixRaw, this`prefixOut, this`pieces
      ensures Valid() && prefixRaw <= raw && pieces == Folded(old(pieces), raw)
    {
      StartsAtPrefix(prefixRaw, raw);
      FoldedIsFoldable(pieces, raw);
      var boundary := StreamStableBoundary(raw, |prefixRaw|);
      if boundary > |prefixRaw| {
        var newBlocks := raw[|prefixRaw|..boundary];
        prefixOut := JoinPiece(prefixOut, newBlocks, pieces, prefixRaw);
        prefixRaw, pieces := raw[..boundary], pieces + [newBlocks];
      }
    }

    /** The prefix and the tail after it. */
    method WithTail(raw: string) returns (body: string)
      requires Valid() && prefixRaw <= raw
      ensures body == Joined(draw(width), Shown(pieces, raw))
    {
      body := prefixOut;
      var tail := raw[|prefixRaw|..];
      if tail != "" {
        body := JoinPiece(body, tail, pieces, prefixRaw);
      }
    }

    /** One tick: which pieces are folded after it, up to which boundary, and that
        it shows them with the tail, each drawn on its own. */
    method RenderStreamTail(partial: string, viewWidth: int, spinner: string) returns (out: string)
      requires Valid()
      modifies this
      ensures Valid()
      ensures Now() == After(old(Now()), Show(partial, viewWidth, spinner))
      ensures out == FrameAt(draw, old(Now()), Show(partial, viewWidth, spinner))
      ensures TrimLeftNewlines(partial) == "" ==> out == spinner + "\n\n"
      ensures TrimLeftNewlines(partial) != "" ==>
                out == "\U{25C8} " + Joined(draw(viewWidth), Shown(pieces, TrimLeftNewlines(partial))) + "\n\n"
      ensures var raw := TrimLeftNewlines(partial);
              raw != "" ==> prefixRaw <= raw
                            && Found(raw, |Concat(Carried(old(Now()), raw, viewWidth))|, |prefixRaw|)
    {
      var raw := TrimLeftNewlines(partial);
      if raw == "" {
        return spinner + "\n\n";
      }
      Revalidate(raw, viewWidth);
      FoldedIsFoldable(pieces, raw);
      Fold(raw);
      var body := WithTail(raw);
      out := ROBOT + body + "\n\n";
    }

    method OnTick(t: Tick) returns (frame: string)
      requires Valid()
      modifies this
      ensures Valid() && Now() == After(old(Now()), t) && frame == FrameAt(draw, old(Now()), t)
    {
      match t {
        case Show(partial, width, spinner) => frame := RenderStreamTail(partial, width, spinner);
        case Drop =>
          frame := "";
          Invalidate();
      }
    }
  }

  // ----- runs -----

  /** What the model does with the cache: show a partial text, or drop the cache. */
  datatype Tick = Show(partial: string, width: int, spinner: string) | Drop

  ghost function After(s: Stage, t: Tick): Stage {
    match t
    case Drop => Stage([], 0)
    case Show(partial, width, _) =>
      var raw := TrimLeftNewlines(partial);
      if raw == "" then s else Stage(Folded(Carried(s, raw, width), raw), width)
  }

  lemma AfterIsFoldable(s: Stage, t: Tick)
    requires Foldable(s.pieces)
    ensures Foldable(After(s, t).pieces)
    ensures t.Show? && TrimLeftNewlines(t.partial) != "" ==>
              Concat(After(s, t).pieces) <= TrimLeftNewlines(t.partial)
  {
    if t.Show? {
      var raw := TrimLeftNewlines(t.partial);
      if raw != "" {
        FoldedIsFoldable(Carried(s, raw, t.width), raw);
      }
    }
  }

  /** The pieces in which a tick shows its text. */
  ghost function PiecesAt(s: Stage, t: Tick): (xs: seq<string>)
    requires Foldable(s.pieces) && t.Show? && TrimLeftNewlines(t.partial) != ""
    ensures WellCut(xs) && Concat(xs) == TrimLeftNewlines(t.partial)
  {
    AfterIsFoldable(s, t);
    ShownIsWellCut(After(s, t).pieces, TrimLeftNewlines(t.partial));
    Shown(After(s, t).pieces, TrimLeftNewlines(t.partial))
  }

  /** What a tick shows; dropping the cache shows nothing. */
  ghost function FrameAt(draw: int -> string -> string, s: Stage, t: Tick): string
    requires Foldable(s.pieces)
  {
    if t.Drop? then ""
    else if TrimLeftNewlines(t.partial) == "" then t.spinner + "\n\n"
    else Framed(Joined(draw(t.width), PiecesAt(s, t)))
  }

  ghost function StageAfter(ticks: seq<Tick>): (s: Stage)
    ensures Foldable(s.pieces)
  {
    if ticks == [] then Stage([], 0)
    else
      var s := StageAfter(ticks[..|ticks| - 1]);
      AfterIsFoldable(s, ticks[|ticks| - 1]);
      After(s, ticks[|ticks| - 1])
  }

  lemma StageStep(ticks: seq<Tick>, k: nat)
    requires k < |ticks|
    ensures StageAfter(ticks[..k + 1]) == After(StageAfter(ticks[..k]), ticks[k])
  {
    assert ticks[..k + 1][..k] == ticks[..k];
  }

  /** What tick `i` of a run from an empty cache shows. */
  ghost function FrameOf(draw: int -> string -> string, ticks: seq<Tick>, i: nat): string
    requires i < |ticks|
  {
    FrameAt(draw, StageAfter(ticks[..i]), ticks[i])
  }

  /** The first `|frames|` frames of a run. */
  ghost predicate FramesOf(draw: int -> string -> string, ticks: seq<Tick>, frames: seq<string>) {
    |frames| <= |ticks| && forall i :: 0 <= i < |frames| ==> frames[i] == FrameOf(draw, ticks, i)
  }

  lemma FramesGrow(draw: int -> string -> string, ticks: seq<Tick>, frames: seq<string>, frame: string)
    requires FramesOf(draw, ticks, frames) && |frames| < |ticks| && frame == FrameOf(draw, ticks, |frames|)
    ensures FramesOf(draw, ticks, frames + [frame])
  {
  }

  /** Any run of the cache, from an empty one. */
  method Replay(draw: int -> string -> string, ticks: seq<Tick>) returns (frames: seq<string>)
    ensures |frames| == |ticks| && FramesOf(draw, ticks, frames)
  {
    var cache := new Cache(draw);
    frames := [];
    for i := 0 to |ticks|
      invariant cache.Valid() && cache.draw == draw && fresh(cache)
      invariant cache.Now() == StageAfter(ticks[..i])
      invariant |frames| == i && FramesOf(draw, ticks, frames)
    {
      StageStep(ticks, i);
      var frame := cache.OnTick(ticks[i]);
      FramesGrow(draw, ticks, frames, frame);
      frames := frames + [frame];
    }
  }
}
