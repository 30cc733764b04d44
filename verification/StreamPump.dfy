/** The pump of cmd/chat_stream.go, which turns engine events into UI messages
    and coalesces content chunks. What each `select` delivers (an event, the
    channel's close, or the timer) is a trace given as a parameter. */
module StreamPump {
  import opened Wrappers

  datatype Event =
    | Content(text: string)
    | Thinking(text: string)
    | ToolUse(name: string, id: string)
    | ToolResult(name: string, text: string)
    | BlastRadius(text: string)
    | CompactStart
    | Compact(strategy: string, before: int, after: int)
    | Usage(usage: Option<int>)
    | Retry(text: string)
    | Error(text: string)
    | Done
    | Unknown(kind: string)

  datatype Msg =
    | ChunkMsg(text: string)
    | ThinkingMsg(text: string)
    | ToolUseMsg(name: string, id: string)
    | ToolResultMsg(name: string, text: string)
    | BlastRadiusMsg(text: string)
    | CompactStartMsg
    | CompactMsg(strategy: string, before: int, after: int)
    | UsageMsg(usage: int)
    | RetryMsg(text: string)
    | ErrMsg(text: string)
    | DoneMsg
  {
    predicate Ends() { ErrMsg? || DoneMsg? }
  }

  /** What one round of the select delivers. */
  datatype Input = Recv(ev: Event) | Closed | Fire

  // ----- what a trace means, whatever the chunking -----

  /** A message stream at its finest grain: single content characters and the
      other messages. */
  datatype Atom = Char(c: char) | Signal(m: Msg)

  function Chars(text: string): seq<Atom> {
    seq(|text|, i requires 0 <= i < |text| => Char(text[i]))
  }

  function MsgAtoms(m: Msg): seq<Atom> {
    if m.ChunkMsg? then Chars(m.text) else [Signal(m)]
  }

  function Atoms(sent: seq<Msg>): seq<Atom> {
    if sent == [] then [] else Atoms(sent[..|sent| - 1]) + MsgAtoms(sent[|sent| - 1])
  }

  predicate EndsRun(x: Input) {
    x.Closed? || (x.Recv? && (x.ev.Error? || x.ev.Done?))
  }

  /** The message an event becomes; it loses nothing, and only an unknown event
      and a usage event without figures become none. */
  function MessageOf(ev: Event): (r: Option<Msg>)
    ensures r.Some? ==> EventOf(r.value) == ev
    ensures r.None? <==> ev.Unknown? || ev == Usage(None)
  {
    match ev
    case Content(t) => Some(ChunkMsg(t))
    case Thinking(t) => Some(ThinkingMsg(t))
    case ToolUse(n, id) => Some(ToolUseMsg(n, id))
    case ToolResult(n, t) => Some(ToolResultMsg(n, t))
    case BlastRadius(t) => Some(BlastRadiusMsg(t))
    case CompactStart => Some(CompactStartMsg)
    case Compact(s, b, a) => Some(CompactMsg(s, b, a))
    case Usage(Some(u)) => Some(UsageMsg(u))
    case Usage(None) => None
    case Retry(t) => Some(RetryMsg(t))
    case Error(t) => Some(ErrMsg(t))
    case Done => Some(DoneMsg)
    case Unknown(_) => None
  }

  /** A message is of its event's kind. */
  lemma MessageKeepsKind(ev: Event)
    requires MessageOf(ev).Some?
    ensures var m := MessageOf(ev).value;
            && (ev.Content? <==> m.ChunkMsg?) && (ev.Thinking? <==> m.ThinkingMsg?)
            && (ev.ToolUse? <==> m.ToolUseMsg?) && (ev.ToolResult? <==> m.ToolResultMsg?)
            && (ev.BlastRadius? <==> m.BlastRadiusMsg?) && (ev.CompactStart? <==> m.CompactStartMsg?)
            && (ev.Compact? <==> m.CompactMsg?) && (ev.Usage? <==> m.UsageMsg?)
            && (ev.Retry? <==> m.RetryMsg?) && (ev.Error? <==> m.ErrMsg?) && (ev.Done? <==> m.DoneMsg?)
  {
  }

  /** The event behind a message. */
  function EventOf(m: Msg): Event {
    match m
    case ChunkMsg(t) => Content(t)
    case ThinkingMsg(t) => Thinking(t)
    case ToolUseMsg(n, id) => ToolUse(n, id)
    case ToolResultMsg(n, t) => ToolResult(n, t)
    case BlastRadiusMsg(t) => BlastRadius(t)
    case CompactStartMsg => CompactStart
    case CompactMsg(s, b, a) => Compact(s, b, a)
    case UsageMsg(u) => Usage(Some(u))
    case RetryMsg(t) => Retry(t)
    case ErrMsg(t) => Error(t)
    case DoneMsg => Done
  }

  /** What one input contributes. */
  function InputAtoms(x: Input): seq<Atom> {
    match x
    case Fire => []
    case Closed => [Signal(DoneMsg)]
    case Recv(ev) => var m := MessageOf(ev); if m.Some? then MsgAtoms(m.value) else []
  }

  /** The whole trace in order, up to and with the input that ends the run. */
  function Meaning(trace: seq<Input>): seq<Atom> {
    if trace == [] then []
    else if EndsRun(trace[0]) then InputAtoms(trace[0])
    else InputAtoms(trace[0]) + Meaning(trace[1..])
  }

  ghost predicate Ended(trace: seq<Input>) {
    exists i :: 0 <= i < |trace| && EndsRun(trace[i])
  }

  /** None of the first `i` inputs ends the run. */
  ghost predicate Running(trace: seq<Input>, i: nat)
    requires i <= |trace|
  {
    forall k :: 0 <= k < i ==> !EndsRun(trace[k])
  }

  ghost predicate NoEnd(sent: seq<Msg>) {
    forall i :: 0 <= i < |sent| ==> !sent[i].Ends()
  }

  /** Exactly one done-or-error message, and it is the last. */
  ghost predicate EndsOnceLast(sent: seq<Msg>) {
    sent != [] && sent[|sent| - 1].Ends() && NoEnd(sent[..|sent| - 1])
  }

  /** Reading one more input: it adds its own atoms, and they are the last ones
      when it ends the run. */
  lemma {:induction false} MeaningStep(trace: seq<Input>, i: nat)
    requires i < |trace| && Running(trace, i)
    ensures Meaning(trace[..i + 1]) == Meaning(trace[..i]) + InputAtoms(trace[i])
    ensures EndsRun(trace[i]) ==> Meaning(trace) == Meaning(trace[..i + 1])
    decreases i
  {
    if i == 0 {
      FirstMeans(trace);
    } else {
      var rest := trace[1..];
      MeaningStep(rest, i - 1);
      assert rest[i - 1] == trace[i];
      MeaningCons(trace, i);
      MeaningCons(trace, i + 1);
      Prepend(InputAtoms(trace[0]), Meaning(rest[..i - 1]), InputAtoms(trace[i]));
    }
  }

  lemma FirstMeans(trace: seq<Input>)
    requires trace != []
    ensures Meaning(trace[..1]) == Meaning(trace[..0]) + InputAtoms(trace[0])
    ensures EndsRun(trace[0]) ==> Meaning(trace) == Meaning(trace[..1])
  {
    assert trace[..1][0] == trace[0] && trace[..1][1..] == [];
  }

  lemma MeaningCons(trace: seq<Input>, n: nat)
    requires 0 < n <= |trace| && !EndsRun(trace[0])
    ensures Meaning(trace[..n]) == InputAtoms(trace[0]) + Meaning(trace[1..][..n - 1])
    ensures Meaning(trace) == InputAtoms(trace[0]) + Meaning(trace[1..])
  {
    assert trace[..n][0] == trace[0] && trace[..n][1..] == trace[1..][..n - 1];
  }

  lemma Prepend(a: seq<Atom>, b: seq<Atom>, c: seq<Atom>)
    ensures a + (b + c) == a + b + c
  {
  }

  lemma RoundMeans(trace: seq<Input>, i: nat, before: seq<Atom>, after: seq<Atom>)
    requires i < |trace| && Running(trace, i)
    requires before == Meaning(trace[..i]) && after == before + InputAtoms(trace[i])
    ensures after == Meaning(trace[..i + 1])
    ensures if EndsRun(trace[i]) then after == Meaning(trace) && Ended(trace) else Running(trace, i + 1)
  {
    MeaningStep(trace, i);
  }

  lemma AtomsPush(sent: seq<Msg>, m: Msg)
    ensures Atoms(sent + [m]) == Atoms(sent) + MsgAtoms(m)
  {
    assert (sent + [m])[..|sent|] == sent;
  }

  lemma CharsConcat(a: string, b: string)
    ensures Chars(a + b) == Chars(a) + Chars(b)
  {
  }

  lemma Regroup(a: seq<Atom>, b: seq<Atom>, c: seq<Atom>)
    ensures a + (b + c) == a + b + c && a + b + c + [] == a + b + c
  {
  }

  // ----- the code -----

  const FLUSH_AT := 512

  predicate IsPause(c: char) {
    c == '\n' || c == '.' || c == '!' || c == '?' || c == ';' || c == ':'
  }

  predicate ShouldFlush(s: string) {
    |s| >= FLUSH_AT || exists i :: 0 <= i < |s| && IsPause(s[i])
  }

  function Flushed(sent: seq<Msg>, buf: string): (r: seq<Msg>)
    ensures Atoms(r) == Atoms(sent) + Chars(buf)
    ensures NoEnd(sent) ==> NoEnd(r)
  {
    AtomsPush(sent, ChunkMsg(buf));
    if buf == "" then sent else sent + [ChunkMsg(buf)]
  }

  /** An event ends the run exactly when its message does. */
  lemma EndsWithItsMessage(ev: Event)
    ensures EndsRun(Recv(ev)) <==> MessageOf(ev).Some? && MessageOf(ev).value.Ends()
  {
  }

  lemma LastMessage(sent: seq<Msg>, m: Msg)
    requires NoEnd(sent)
    ensures if m.Ends() then EndsOnceLast(sent + [m]) else NoEnd(sent + [m])
  {
    assert (sent + [m])[..|sent|] == sent;
  }

  /** Sending the event's message, if it has one, adds the event's atoms. */
  lemma EventSent(sent: seq<Msg>, ev: Event, m: Option<Msg>, all: seq<Msg>)
    requires NoEnd(sent) && m == MessageOf(ev) && all == if m.Some? then sent + [m.value] else sent
    ensures Atoms(all) == Atoms(sent) + InputAtoms(Recv(ev))
    ensures if EndsRun(Recv(ev)) then EndsOnceLast(all) else NoEnd(all)
  {
    EndsWithItsMessage(ev);
    if m.Some? {
      AtomsPush(sent, m.value);
      LastMessage(sent, m.value);
    }
  }

  /** Sends what was buffered and then the event's own message. */
  method Dispatch(sent0: seq<Msg>, buf: string, ev: Event) returns (sent: seq<Msg>, ends: bool)
    requires !ev.Content? && NoEnd(sent0)
    ensures ends == EndsRun(Recv(ev))
    ensures Atoms(sent) == Atoms(sent0) + Chars(buf) + InputAtoms(Recv(ev))
    ensures if ends then EndsOnceLast(sent) else NoEnd(sent)
  {
    sent := Flushed(sent0, buf);
    ghost var flushed := sent;
    var m := MessageOf(ev);
    if m.Some? {
      sent := sent + [m.value];
    }
    EventSent(flushed, ev, m, sent);
    ends := ev.Error? || ev.Done?;
  }

  /** Under 512 bytes and without a newline or a sentence's end. */
  ghost predicate Short(s: string) {
    |s| < 512 && forall i :: 0 <= i < |s| ==> s[i] !in {'\n', '.', '!', '?', ';', ':'}
  }

  lemma FlushedWhenNotShort(s: string)
    ensures ShouldFlush(s) <==> !Short(s)
  {
    if exists i :: 0 <= i < |s| && IsPause(s[i]) {
      var i :| 0 <= i < |s| && IsPause(s[i]);
      assert s[i] in {'\n', '.', '!', '?', ';', ':'};
    }
  }

  /** What is buffered is short and never lacks a timer. */
  ghost predicate Waiting(buf: string, armed: bool) {
    (buf != "" ==> armed) && Short(buf)
  }

  /** A content event: the first goes out at once, later ones through the buffer. */
  method OnContent(sent0: seq<Msg>, buf0: string, armed0: bool, firstContent: bool, text: string)
    returns (sent: seq<Msg>, buf: string, armed: bool)
    requires Waiting(buf0, armed0) && NoEnd(sent0) && (firstContent ==> buf0 == "")
    ensures Atoms(sent) + Chars(buf) == Atoms(sent0) + Chars(buf0) + Chars(text)
    ensures Waiting(buf, armed) && NoEnd(sent)
    ensures firstContent ==> sent == sent0 + [ChunkMsg(text)] && buf == ""
    ensures !firstContent ==> buf == if Short(buf0 + text) then buf0 + text else ""
  {
    sent, buf, armed := sent0, buf0, armed0;
    if firstContent {
      AtomsPush(sent, ChunkMsg(text));
      LastMessage(sent, ChunkMsg(text));
      sent := sent + [ChunkMsg(text)];
    } else {
      CharsConcat(buf, text);
      Regroup(Atoms(sent), Chars(buf), Chars(text));
      buf := buf + text;
      FlushedWhenNotShort(buf);
      if ShouldFlush(buf) {
        armed := false;
        sent, buf := Flushed(sent, buf), "";
      } else {
        armed := true;
      }
    }
  }

  /** One round of the loop. */
  method Turn(sent0: seq<Msg>, buf0: string, armed0: bool, firstContent: bool, x: Input)
    returns (sent: seq<Msg>, buf: string, armed: bool, ends: bool)
    requires Waiting(buf0, armed0) && NoEnd(sent0) && (firstContent ==> buf0 == "")
    ensures Atoms(sent) + Chars(buf) == Atoms(sent0) + Chars(buf0) + InputAtoms(x)
    ensures ends == EndsRun(x)
    ensures !ends ==> Waiting(buf, armed) && NoEnd(sent)
    ensures ends ==> buf == "" && EndsOnceLast(sent)
    ensures firstContent && !(x.Recv? && x.ev.Content?) ==> buf == ""
    ensures x.Fire? && armed0 ==> buf == "" && !armed
  {
    sent, buf, armed, ends := sent0, buf0, armed0, false;
    match x {
      case Fire =>
        // A timer that is not armed has a nil channel and cannot fire.
        if armed {
          sent, buf, armed := Flushed(sent, buf), "", false;
        }
      case Closed =>
        sent, buf, armed := Flushed(sent, buf), "", false;
        AtomsPush(sent, DoneMsg);
        sent, ends := sent + [DoneMsg], true;
      case Recv(ev) =>
        if ev.Content? {
          sent, buf, armed := OnContent(sent, buf, armed, firstContent, ev.text);
        } else {
          armed := false;
          sent, ends := Dispatch(sent, buf, ev);
          buf := "";
        }
    }
  }

  method Pump(trace: seq<Input>) returns (sent: seq<Msg>, buf: string, armed: bool, finished: bool)
    ensures Atoms(sent) + Chars(buf) == Meaning(trace)
    ensures finished <==> Ended(trace)
    ensures if finished then buf == "" && EndsOnceLast(sent) else Waiting(buf, armed) && NoEnd(sent)
  {
    sent, buf, armed, finished := [], "", false, false;
    var firstContent := true;
    for i := 0 to |trace|
      invariant Atoms(sent) + Chars(buf) == Meaning(trace[..i])
      invariant Waiting(buf, armed) && NoEnd(sent) && (firstContent ==> buf == "")
      invariant Running(trace, i) && !finished
    {
      var x := trace[i];
      ghost var before := Atoms(sent) + Chars(buf);
      sent, buf, armed, finished := Turn(sent, buf, armed, firstContent, x);
      RoundMeans(trace, i, before, Atoms(sent) + Chars(buf));
      if finished {
        return;
      }
      firstContent := firstContent && !(x.Recv? && x.ev.Content?);
    }
    assert trace[..|trace|] == trace;
  }
}
