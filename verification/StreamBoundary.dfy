/** Where a growing text may be cut: `streamStableBoundary` of
    cmd/chat_viewport_render.go. */
module StreamBoundary {
  import opened Text
  import opened MarkdownBlocks

  /** A fence is open after the complete lines of `s`. */
  predicate InFence(s: string) {
    FenceAfter(Complete(s), false)
  }

  /** `b` is just past a blank line that lies outside every fence. */
  ghost predicate IsBoundary(raw: string, b: nat) {
    2 <= b <= |raw| && raw[b - 2] == '\n' && raw[b - 1] == '\n' && !InFence(raw[..b - 1])
  }

  /** Where a scan may start. */
  ghost predicate IsStart(raw: string, from: nat) {
    from == 0 || IsBoundary(raw, from)
  }

  /** What a scan from `from` finds: the last boundary two or more past `from`, else `from`. */
  ghost predicate Found(raw: string, from: nat, r: nat) {
    && (r == from || (from + 2 <= r && IsBoundary(raw, r)))
    && (forall b :: from + 2 <= b && IsBoundary(raw, b) ==> b <= r)
  }

  ghost function LastBoundary(raw: string, from: nat, n: nat): (b: nat)
    ensures b == from || (from + 2 <= b <= n && IsBoundary(raw, b))
    ensures forall c :: from + 2 <= c <= n && IsBoundary(raw, c) ==> c <= b
  {
    if n < from + 2 then from else if IsBoundary(raw, n) then n else LastBoundary(raw, from, n - 1)
  }

  /** The only answer of a scan from `from`. */
  ghost function Boundary(raw: string, from: nat): (b: nat)
    ensures forall r :: Found(raw, from, r) <==> r == b
  {
    LastBoundary(raw, from, |raw|)
  }

  /** A boundary stays one whatever is appended to the text. */
  lemma BoundaryExtends(raw: string, more: string, b: nat)
    requires IsBoundary(raw, b)
    ensures IsBoundary(raw + more, b)
  {
    assert (raw + more)[..b - 1] == raw[..b - 1];
  }

  lemma BoundaryOfPrefix(raw: string, b: nat)
    requires b <= |raw|
    ensures IsBoundary(raw, b) <==> IsBoundary(raw[..b], b)
  {
    if b > 0 {
      assert raw[..b][..b - 1] == raw[..b - 1];
    }
  }

  /** A line read from its start: the fence state moves by that line. */
  lemma FenceByLine(raw: string, pos: nat, nl: nat)
    requires pos + nl < |raw| && raw[pos + nl] == '\n' && EndsLine(raw[..pos])
    requires forall i :: pos <= i < pos + nl ==> raw[i] != '\n'
    ensures EndsLine(raw[..pos + nl + 1])
    ensures Complete(raw[..pos + nl + 1]) == Complete(raw[..pos]) + [raw[pos..pos + nl]]
    ensures InFence(raw[..pos + nl + 1]) == Toggle(InFence(raw[..pos]), raw[pos..pos + nl])
  {
    var head, l := raw[..pos], raw[pos..pos + nl];
    assert raw[..pos + nl + 1] == head + (l + "\n");
    forall i | 0 <= i < |l| ensures l[i] != '\n' {
      assert l[i] == raw[pos + i];
    }
    OneLine(l);
    CompleteConcat(head, l + "\n");
    FenceAfterSnoc(Complete(head), l, false);
  }

  /** The text up to a boundary ends in a blank line and leaves no fence open. */
  lemma BoundaryClosed(raw: string, b: nat)
    requires IsBoundary(raw, b)
    ensures EndsLine(raw[..b]) && !InFence(raw[..b])
    ensures Complete(raw[..b]) != [] && Blank(Complete(raw[..b])[|Complete(raw[..b])| - 1])
  {
    assert raw[b - 1..b - 1] == "";
    FenceByLine(raw, b - 1, 0);
  }

  /** `r` is the best boundary among those up to `limit`. */
  ghost predicate BestUpTo(raw: string, from: nat, r: nat, limit: nat) {
    && (r == from || (from + 2 <= r && IsBoundary(raw, r)))
    && (forall b :: from + 2 <= b <= limit && IsBoundary(raw, b) ==> b <= r)
  }

  /** Whether the line that ends just before `lineEnd` is followed by a cut. */
  predicate CutAfter(raw: string, lineEnd: nat)
    requires lineEnd <= |raw|
  {
    !InFence(raw[..lineEnd]) && lineEnd < |raw| && raw[lineEnd] == '\n'
  }

  lemma BestAdvances(raw: string, from: nat, r: nat, pos: nat, lineEnd: nat)
    requires from <= pos < lineEnd <= |raw| && raw[lineEnd - 1] == '\n'
    requires forall i :: pos <= i < lineEnd - 1 ==> raw[i] != '\n'
    requires BestUpTo(raw, from, r, pos + 1)
    ensures BestUpTo(raw, from, if CutAfter(raw, lineEnd) then lineEnd + 1 else r, lineEnd + 1)
  {
  }

  lemma BestIsFound(raw: string, from: nat, r: nat, pos: nat)
    requires pos <= |raw| && BestUpTo(raw, from, r, pos + 1)
    requires forall i :: pos <= i < |raw| ==> raw[i] != '\n'
    ensures Found(raw, from, r)
  {
  }

  method NextFence(inFence: bool, line: string) returns (open: bool)
    ensures open == Toggle(inFence, line)
  {
    open := inFence;
    var trimmed := TrimSpace(line);
    if !inFence && "```" <= trimmed {
      open := true;
    } else if inFence && trimmed == "```" {
      open := false;
    }
  }

  /** The next newline from `pos` on, or -1. */
  method IndexNewline(raw: string, pos: nat) returns (nl: int)
    requires pos <= |raw|
    ensures nl < 0 ==> forall i :: pos <= i < |raw| ==> raw[i] != '\n'
    ensures nl >= 0 ==> pos + nl < |raw| && raw[pos + nl] == '\n'
    ensures nl >= 0 ==> forall i :: pos <= i < pos + nl ==> raw[i] != '\n'
  {
    nl := 0;
    while pos + nl < |raw|
      invariant 0 <= nl <= |raw| - pos
      invariant forall i :: pos <= i < pos + nl ==> raw[i] != '\n'
    {
      if raw[pos + nl] == '\n' {
        return;
      }
      nl := nl + 1;
    }
    nl := -1;
  }

  method StreamStableBoundary(raw: string, from: nat) returns (boundary: nat)
    requires from <= |raw| && IsStart(raw, from)
    ensures Found(raw, from, boundary)
  {
    boundary := from;
    var inFence := false;
    var pos := from;
    if from > 0 {
      BoundaryClosed(raw, from);
    }
    while true
      invariant from <= pos <= |raw| && EndsLine(raw[..pos])
      invariant inFence == InFence(raw[..pos])
      invariant BestUpTo(raw, from, boundary, pos + 1)
      decreases |raw| - pos
    {
      var nl := IndexNewline(raw, pos);
      if nl < 0 {
        BestIsFound(raw, from, boundary, pos);
        return;
      }
      var line := raw[pos..pos + nl];
      FenceByLine(raw, pos, nl);
      inFence := NextFence(inFence, line);
      var lineEnd := pos + nl + 1;
      BestAdvances(raw, from, boundary, pos, lineEnd);
      if !inFence && lineEnd < |raw| && raw[lineEnd] == '\n' {
        boundary := lineEnd + 1;
      }
      pos := lineEnd;
    }
  }

  /** Resuming agrees with scanning from the start, but for one newline: it may
      stay where it was when the whole scan moves past one more newline there. */
  lemma ResumeAgrees(raw: string, from: nat, whole: nat, resumed: nat)
    requires from <= |raw| && IsStart(raw, from)
    requires Found(raw, 0, whole) && Found(raw, from, resumed)
    ensures resumed == whole ||
            (resumed == from && whole == from + 1 && from < |raw| && raw[from] == '\n')
  {
  }
}
