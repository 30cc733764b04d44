/** The write-ahead log and the background save of the chat model
    (cmd/chat_submit.go, cmd/chat_update.go, cmd/chat_commands_session.go,
    cmd/chat_model.go, internal/session/session.go), as steps on what the model
    and the disk hold. */
module Durability {

  /** A message of the conversation, by its number. The engine, the log and the
      session file may each hold it in a form of its own (sanitized, or with the
      text of an attached document), and two messages may say the same. */
  datatype Rec = Rec(no: nat)

  /** The model's log handle: none, or a file that may have been closed. */
  datatype Handle = NoWal | Wal(id: nat, open: bool)

  /** A background save that has not written yet: what it captured. */
  datatype Save = Save(id: nat, mark: nat, msgs: seq<Rec>)

  /** A save's result on its way to the model. */
  datatype Result = Result(id: nat, mark: nat, ok: bool)

  /** `sid` 0 is the empty session id. `logged` remembers, by file, the records
      whose append succeeded. */
  datatype State = State(
    sid: nat, engine: seq<Rec>, wal: Handle, walSeq: nat,
    walFiles: map<nat, seq<Rec>>, files: map<nat, seq<Rec>>,
    pending: seq<Save>, results: seq<Result>, logged: map<nat, set<Rec>>)

  function Recs(m: map<nat, seq<Rec>>, id: nat): seq<Rec> {
    if id in m then m[id] else []
  }

  function Logged(s: State, id: nat): set<Rec> {
    if id in s.logged then s.logged[id] else {}
  }

  /** Every record that reached a log is in that log or in its session's file. */
  ghost predicate Durable(s: State) {
    forall id, r :: r in Logged(s, id) ==> r in Recs(s.walFiles, id) || r in Recs(s.files, id)
  }

  // ----- steps -----

  /** `NewWAL` opens for append, creating the file when it is missing. */
  function OpenWal(s: State, id: nat): State {
    s.(wal := Wal(id, true), walFiles := s.walFiles[id := Recs(s.walFiles, id)])
  }

  function EnsureWal(s: State, opens: bool): State {
    if s.wal != NoWal || s.sid == 0 || !opens then s else OpenWal(s, s.sid)
  }

  /** `ensureWAL`, then count and append when there is a log. */
  function Log(s0: State, r: Rec, opens: bool, appends: bool): State {
    var s := EnsureWal(s0, opens);
    if s.wal == NoWal then s
    else
      var t := s.(walSeq := s.walSeq + 1);
      if !(appends && s.wal.open) then t
      else t.(walFiles := s.walFiles[s.wal.id := Recs(s.walFiles, s.wal.id) + [r]],
              logged := s.logged[s.wal.id := Logged(s, s.wal.id) + {r}])
  }

  /** `saveSessionCmd`: captures the history and the append count. */
  function StartSave(s: State): State {
    if s.sid == 0 || s.engine == [] then s
    else s.(pending := s.pending + [Save(s.sid, s.walSeq, s.engine)])
  }

  /** `WAL.Remove` closes the file first, whether or not it can delete it. */
  function RemoveWal(s: State, removes: bool): State
    requires s.wal != NoWal
  {
    if removes then s.(wal := NoWal, walFiles := s.walFiles - {s.wal.id})
    else s.(wal := Wal(s.wal.id, false))
  }

  /** `saveSession`: write the file now and drop the log. */
  function SaveNow(s: State, saves: bool, removes: bool): State {
    if s.engine == [] || !saves then s
    else
      var t := s.(files := s.files[s.sid := s.engine]);
      if t.wal == NoWal then t else RemoveWal(t, removes)
  }

  /** A save's result reaches the model. */
  function TakeResult(s: State, r: Result, removes: bool): State {
    if r.ok && r.id == s.sid && r.mark == s.walSeq && s.wal != NoWal then RemoveWal(s, removes) else s
  }

  function Without<T>(xs: seq<T>, k: nat): seq<T>
    requires k < |xs|
  {
    xs[..k] + xs[k + 1..]
  }

  datatype Event =
    | Submit(r: Rec, opens: bool, appends: bool)          // the user's message, added to the engine and logged
    | EngineAdds(r: Rec)                                  // the engine extends its history
    | ToolDone(r: Rec, opens: bool, appends: bool)        // a tool result, logged
    | Answered(r: Rec, opens: bool, appends: bool)        // the stream ends with text: logged, then a save starts
    | Finished                                            // the stream ends without text: a save starts
    | Lands(k: nat, saves: bool)                          // a background save writes, or fails
    | Delivered(k: nat, removes: bool)                    // a save's result reaches the model
    | Quit(saves: bool, removes: bool)                    // saved on the spot
    | NewSession(id: nat, saves: bool, removes: bool, opens: bool)

  function Step(s: State, e: Event): State {
    match e
    case Submit(r, opens, appends) => Log(s.(engine := s.engine + [r]), r, opens, appends)
    case EngineAdds(r) => s.(engine := s.engine + [r])
    case ToolDone(r, opens, appends) => Log(s, r, opens, appends)
    case Answered(r, opens, appends) => StartSave(Log(s, r, opens, appends))
    case Finished => StartSave(s)
    case Lands(k, saves) =>
      if k >= |s.pending| then s
      else
        var p := s.pending[k];
        s.(pending := Without(s.pending, k),
           files := if saves then s.files[p.id := p.msgs] else s.files,
           results := s.results + [Result(p.id, p.mark, saves)])
    case Delivered(k, removes) =>
      if k >= |s.results| then s
      else TakeResult(s.(results := Without(s.results, k)), s.results[k], removes)
    case Quit(saves, removes) => SaveNow(s, saves, removes)
    case NewSession(id, saves, removes, opens) =>
      var t := SaveNow(s, saves, removes).(engine := [], sid := id);
      if opens then OpenWal(t, id) else t
  }

  function Run(s: State, es: seq<Event>): State
    decreases |es|
  {
    if es == [] then s else Run(Step(s, es[0]), es[1..])
  }

  // ----- what the environment must grant -----

  /** The engine's history holds every record logged for the session. */
  ghost predicate EngineHoldsLog(s: State) {
    forall r :: r in Logged(s, s.sid) ==> r in s.engine
  }

  ghost predicate Unused(s: State, id: nat) {
    && id != 0 && id != s.sid && id !in s.files && id !in s.walFiles && id !in s.logged
    && (forall k :: 0 <= k < |s.pending| ==> s.pending[k].id != id)
    && (forall k :: 0 <= k < |s.results| ==> s.results[k].id != id)
  }

  /** A save that lands does not write an older history of its session over a
      newer one; a snapshot holds what was logged; a session id is new; and `/new`
      does not go on with the open log of an unsaved session. */
  ghost predicate Granted(s: State, e: Event) {
    match e
    case Answered(r, opens, appends) => EngineHoldsLog(Log(s, r, opens, appends))
    case Finished => EngineHoldsLog(s)
    case Lands(k, saves) => k < |s.pending| && saves ==> LandsInOrder(s, s.pending[k])
    case Quit(saves, _) => saves ==> EngineHoldsLog(s)
    case NewSession(id, saves, removes, opens) =>
      && (saves ==> EngineHoldsLog(s)) && Unused(s, id)
      && (opens || !KeepsOpenLog(s, saves, removes))
    case _ => true
  }

  ghost predicate LandsInOrder(s: State, p: Save) {
    Recs(s.files, p.id) <= p.msgs
  }

  /** After `/new` has saved, or tried to, the old session's log is still open. */
  predicate KeepsOpenLog(s: State, saves: bool, removes: bool) {
    var t := SaveNow(s, saves, removes);
    t.wal != NoWal && t.wal.open
  }

  ghost predicate AllGranted(s: State, es: seq<Event>)
    decreases |es|
  {
    es == [] || (Granted(s, es[0]) && AllGranted(Step(s, es[0]), es[1..]))
  }

  // ----- the invariant -----

  /** A save of this session in flight is a stretch of its history, and holds
      the whole log if nothing was counted since. */
  ghost predicate PendingOk(s: State, p: Save) {
    p.id == s.sid ==>
      && p.mark <= s.walSeq && p.msgs <= s.engine
      && (p.mark == s.walSeq ==> forall r :: r in Logged(s, s.sid) ==> r in p.msgs)
  }

  /** A good result that still matches vouches for the session's file. */
  ghost predicate ResultOk(s: State, x: Result) {
    x.id == s.sid ==>
      && x.mark <= s.walSeq
      && (x.ok && x.mark == s.walSeq ==> forall r :: r in Logged(s, s.sid) ==> r in Recs(s.files, s.sid))
  }

  /** An open handle is the session's own; a closed one's records are saved. */
  ghost predicate HandleOk(s: State) {
    s.wal == NoWal
    || if s.wal.open then s.wal.id == s.sid else forall r :: r in Logged(s, s.wal.id) ==> r in Recs(s.files, s.wal.id)
  }

  ghost predicate Inv(s: State) {
    && Durable(s) && HandleOk(s) && Recs(s.files, s.sid) <= s.engine
    && (forall k :: 0 <= k < |s.pending| ==> PendingOk(s, s.pending[k]))
    && (forall k :: 0 <= k < |s.results| ==> ResultOk(s, s.results[k]))
  }

  /** A fresh or freshly loaded session with nothing in flight, its log open or not. */
  ghost predicate Start(s: State) {
    && s.pending == [] && s.results == [] && s.logged == map[] && Recs(s.files, s.sid) <= s.engine
    && (s.wal == NoWal || s.wal.id == s.sid)
  }

  lemma LogKeeps(s: State, r: Rec, opens: bool, appends: bool)
    requires Inv(s)
    ensures Inv(Log(s, r, opens, appends))
  {
  }

  lemma EngineAddKeeps(s: State, r: Rec)
    requires Inv(s)
    ensures Inv(s.(engine := s.engine + [r]))
  {
  }

  lemma StartSaveKeeps(s: State)
    requires Inv(s) && EngineHoldsLog(s)
    ensures Inv(StartSave(s))
  {
  }

  lemma PrefixMembers(a: seq<Rec>, b: seq<Rec>)
    requires a <= b
    ensures forall r :: r in a ==> r in b
  {
  }

  /** Writing a longer history over a session's file. */
  lemma FileGrows(s: State, id: nat, msgs: seq<Rec>)
    requires Inv(s) && Recs(s.files, id) <= msgs && (id == s.sid ==> msgs <= s.engine)
    ensures Inv(s.(files := s.files[id := msgs]))
  {
    PrefixMembers(Recs(s.files, id), msgs);
    var t := s.(files := s.files[id := msgs]);
    forall i, r | r in Logged(t, i) ensures r in Recs(t.walFiles, i) || r in Recs(t.files, i) {
      assert r in Logged(s, i);
    }
    forall k | 0 <= k < |t.results| ensures ResultOk(t, t.results[k]) {
      assert ResultOk(s, s.results[k]);
    }
    forall k | 0 <= k < |t.pending| ensures PendingOk(t, t.pending[k]) {
      assert PendingOk(s, s.pending[k]);
    }
    if s.wal != NoWal {
      assert Logged(t, t.wal.id) == Logged(s, s.wal.id);
    }
  }

  /** A save is over and its result is on the way. */
  lemma SaveOver(s: State, k: nat, ok: bool)
    requires Inv(s) && k < |s.pending| && (ok ==> Recs(s.files, s.pending[k].id) == s.pending[k].msgs)
    ensures var p := s.pending[k];
            Inv(s.(pending := Without(s.pending, k), results := s.results + [Result(p.id, p.mark, ok)]))
  {
    var p := s.pending[k];
    var t := s.(pending := Without(s.pending, k), results := s.results + [Result(p.id, p.mark, ok)]);
    assert PendingOk(s, p);
    forall j | 0 <= j < |t.pending| ensures PendingOk(t, t.pending[j]) {
      var i := if j < k then j else j + 1;
      assert t.pending[j] == s.pending[i];
      assert PendingOk(s, s.pending[i]);
    }
    forall j | 0 <= j < |t.results| ensures ResultOk(t, t.results[j]) {
      if j < |s.results| {
        assert ResultOk(s, s.results[j]);
      }
    }
  }

  lemma LandKeeps(s: State, k: nat, saves: bool)
    requires Inv(s) && Granted(s, Lands(k, saves))
    ensures Inv(Step(s, Lands(k, saves)))
  {
    if k < |s.pending| {
      var p := s.pending[k];
      assert PendingOk(s, p);
      var t := if saves then s.(files := s.files[p.id := p.msgs]) else s;
      if saves {
        FileGrows(s, p.id, p.msgs);
      }
      SaveOver(t, k, saves);
    }
  }

  lemma RemoveKeeps(s: State, removes: bool)
    requires Inv(s) && s.wal != NoWal
    requires forall r :: r in Logged(s, s.wal.id) ==> r in Recs(s.files, s.wal.id)
    ensures Inv(RemoveWal(s, removes))
  {
  }

  lemma DeliverKeeps(s: State, k: nat, removes: bool)
    requires Inv(s)
    ensures Inv(Step(s, Delivered(k, removes)))
  {
    if k < |s.results| {
      var x := s.results[k];
      var u := s.(results := Without(s.results, k));
      assert ResultOk(s, x);
      forall j | 0 <= j < |u.results| ensures ResultOk(u, u.results[j]) {
        var i := if j < k then j else j + 1;
        assert u.results[j] == s.results[i];
        assert ResultOk(s, s.results[i]);
      }
      forall j | 0 <= j < |u.pending| ensures PendingOk(u, u.pending[j]) {
        assert PendingOk(s, s.pending[j]);
      }
      assert Inv(u);
      if x.ok && x.id == s.sid && x.mark == s.walSeq && s.wal != NoWal {
        RemoveKeeps(u, removes);
      }
    }
  }

  lemma SaveNowKeeps(s: State, saves: bool, removes: bool)
    requires Inv(s) && (saves ==> EngineHoldsLog(s))
    ensures Inv(SaveNow(s, saves, removes))
  {
    if s.engine != [] && saves {
      var t := s.(files := s.files[s.sid := s.engine]);
      FileGrows(s, s.sid, s.engine);
      assert Inv(t);
      if t.wal != NoWal {
        RemoveKeeps(t, removes);
      }
    }
  }

  lemma NewSessionKeeps(s: State, id: nat, saves: bool, removes: bool, opens: bool)
    requires Inv(s) && Granted(s, NewSession(id, saves, removes, opens))
    ensures Inv(Step(s, NewSession(id, saves, removes, opens)))
  {
    var m := SaveNow(s, saves, removes);
    SaveNowKeeps(s, saves, removes);
    var t := Step(s, NewSession(id, saves, removes, opens));
    assert t.pending == s.pending && t.results == s.results;
    forall k | 0 <= k < |t.pending| ensures PendingOk(t, t.pending[k]) {
      assert s.pending[k].id != id;
    }
    forall k | 0 <= k < |t.results| ensures ResultOk(t, t.results[k]) {
      assert s.results[k].id != id;
    }
  }

  lemma StepKeeps(s: State, e: Event)
    requires Inv(s) && Granted(s, e)
    ensures Inv(Step(s, e))
  {
    match e
    case Submit(r, opens, appends) =>
      EngineAddKeeps(s, r);
      LogKeeps(s.(engine := s.engine + [r]), r, opens, appends);
    case EngineAdds(r) => EngineAddKeeps(s, r);
    case ToolDone(r, opens, appends) => LogKeeps(s, r, opens, appends);
    case Answered(r, opens, appends) =>
      LogKeeps(s, r, opens, appends);
      StartSaveKeeps(Log(s, r, opens, appends));
    case Finished => StartSaveKeeps(s);
    case Lands(k, saves) => LandKeeps(s, k, saves);
    case Delivered(k, removes) => DeliverKeeps(s, k, removes);
    case Quit(saves, removes) => SaveNowKeeps(s, saves, removes);
    case NewSession(id, saves, removes, opens) => NewSessionKeeps(s, id, saves, removes, opens);
  }

  /** In every run that the environment grants, no logged record is ever in
      neither its log nor its session's file. */
  lemma {:induction false} RunsAreDurable(s: State, es: seq<Event>)
    requires Inv(s) && AllGranted(s, es)
    ensures Inv(Run(s, es)) && Durable(Run(s, es))
    decreases |es|
  {
    if es != [] {
      StepKeeps(s, es[0]);
      RunsAreDurable(Step(s, es[0]), es[1..]);
    }
  }

  lemma StartIsInv(s: State)
    requires Start(s)
    ensures Inv(s)
  {
  }

  // ----- progress: what is handed to the log gets there -----

  /** An event that brings a record to the log. */
  predicate Brings(e: Event) {
    e.Submit? || e.ToolDone? || e.Answered?
  }

  /** The log that a record would go to: the one held, or the session's own. */
  function LogId(s: State): nat {
    if s.wal == NoWal then s.sid else s.wal.id
  }

  /** There is a log: one is held, or the session's can be opened. */
  predicate HasLog(s: State, opens: bool) {
    s.wal != NoWal || (s.sid != 0 && opens)
  }

  /** The record reaches the log: it is open, or can be opened, and the write succeeds. */
  predicate Reaches(s: State, e: Event) {
    Brings(e) && HasLog(s, e.opens) && (s.wal != NoWal ==> s.wal.open) && e.appends
  }

  /** What writing `r` to the log of `s` makes of the log and the set of logged
      records of session `id`, and of the count. */
  lemma LogWrites(s: State, r: Rec, opens: bool, appends: bool, id: nat)
    ensures var t, here := Log(s, r, opens, appends), HasLog(s, opens) && (s.wal != NoWal ==> s.wal.open) && appends && id == LogId(s);
            && Recs(t.walFiles, id) == (if here then Recs(s.walFiles, id) + [r] else Recs(s.walFiles, id))
            && Logged(t, id) == (if here then Logged(s, id) + {r} else Logged(s, id))
            && t.walSeq == s.walSeq + (if HasLog(s, opens) then 1 else 0)
            && (HasLog(s, opens) ==> t.wal != NoWal && t.wal.id == LogId(s))
            && t.engine == s.engine && t.files == s.files && t.sid == s.sid
  {
  }

  /** A record that reaches its log is then the last one in it, everything before
      it is still there, no other log changes, and the append is counted. Without
      a successful write the logs keep what they held; the attempt is counted all
      the same whenever there is a log. */
  lemma BroughtIsLogged(s: State, e: Event, id: nat)
    requires Brings(e)
    ensures var t, here := Step(s, e), Reaches(s, e) && id == LogId(s);
            && Recs(t.walFiles, id) == (if here then Recs(s.walFiles, id) + [e.r] else Recs(s.walFiles, id))
            && Logged(t, id) == (if here then Logged(s, id) + {e.r} else Logged(s, id))
            && t.walSeq == s.walSeq + (if HasLog(s, e.opens) then 1 else 0)
            && (HasLog(s, e.opens) ==> t.wal != NoWal && t.wal.id == LogId(s))
            && t.engine == (if e.Submit? then s.engine + [e.r] else s.engine)
            && t.files == s.files && t.sid == s.sid
  {
    var u := if e.Submit? then s.(engine := s.engine + [e.r]) else s;
    LogWrites(u, e.r, e.opens, e.appends, id);
  }

  lemma LoggedStays(s: State, e: Event, id: nat, r: Rec)
    requires r in Logged(s, id)
    ensures r in Logged(Step(s, e), id)
  {
  }

  lemma {:induction false} LoggedStaysInRun(s: State, es: seq<Event>, id: nat, r: Rec)
    requires r in Logged(s, id)
    ensures r in Logged(Run(s, es), id)
    decreases |es|
  {
    if es != [] {
      LoggedStays(s, es[0], id, r);
      LoggedStaysInRun(Step(s, es[0]), es[1..], id, r);
    }
  }

  lemma RunSplits(s: State, es: seq<Event>, i: nat)
    requires i < |es|
    ensures Run(s, es) == Run(Step(Run(s, es[..i]), es[i]), es[i + 1..])
  {
    assert es == es[..i] + [es[i]] + es[i + 1..];
    RunConcat(s, es[..i] + [es[i]], es[i + 1..]);
    RunConcat(s, es[..i], [es[i]]);
    assert [es[i]][1..] == [];
    assert Run(Run(s, es[..i]), [es[i]]) == Run(Step(Run(s, es[..i]), es[i]), []);
  }

  /** In every granted run, whatever record an event brought to an open log, with
      a write that succeeded, is at the end in that log or in its session's file. */
  lemma BroughtRecordsSurvive(s: State, es: seq<Event>, i: nat)
    requires Inv(s) && AllGranted(s, es) && i < |es| && Reaches(Run(s, es[..i]), es[i])
    ensures var id, t := LogId(Run(s, es[..i])), Run(s, es);
            es[i].r in Recs(t.walFiles, id) || es[i].r in Recs(t.files, id)
  {
    var u := Run(s, es[..i]);
    BroughtIsLogged(u, es[i], LogId(u));
    RunSplits(s, es, i);
    LoggedStaysInRun(Step(u, es[i]), es[i + 1..], LogId(u), es[i].r);
    RunsAreDurable(s, es);
  }

  // ----- progress: a save gets written and the log goes -----

  /** The end of a turn, its save landing and the result coming back, with nothing
      else in between: the file holds the whole history and the log is gone. */
  lemma TurnIsSaved(s: State)
    requires s.sid != 0 && s.engine != [] && s.wal != NoWal
    ensures var t := Step(Step(Step(s, Finished), Lands(|s.pending|, true)), Delivered(|s.results|, true));
            && Recs(t.files, s.sid) == s.engine && t.wal == NoWal && s.wal.id !in t.walFiles
            && (forall id :: id != s.sid ==> Recs(t.files, id) == Recs(s.files, id))
            && (forall id :: id != s.wal.id ==> Recs(t.walFiles, id) == Recs(s.walFiles, id))
            && t.pending == s.pending && t.results == s.results && t.engine == s.engine && t.walSeq == s.walSeq
  {
    var a := Step(s, Finished);
    assert a.pending == s.pending + [Save(s.sid, s.walSeq, s.engine)];
    var b := Step(a, Lands(|s.pending|, true));
    assert b.pending == s.pending && b.results == s.results + [Result(s.sid, s.walSeq, true)];
    var c := Step(b, Delivered(|s.results|, true));
    assert c.results == s.results;
  }

  /** An answer and a turn's end start a save of the history and the count as they
      are then; nothing else does. */
  lemma EndStartsSave(s: State, e: Event)
    requires !e.Lands?
    ensures var t := Step(s, e);
            t.pending == if (e.Answered? || e.Finished?) && s.sid != 0 && s.engine != []
                         then s.pending + [Save(s.sid, t.walSeq, s.engine)] else s.pending
  {
    match e
    case Submit(r, opens, appends) => LogStartsNothing(s.(engine := s.engine + [r]), r, opens, appends);
    case ToolDone(r, opens, appends) => LogStartsNothing(s, r, opens, appends);
    case Answered(r, opens, appends) => LogStartsNothing(s, r, opens, appends);
    case _ =>
  }

  lemma LogStartsNothing(s: State, r: Rec, opens: bool, appends: bool)
    ensures var t := Log(s, r, opens, appends);
            t.pending == s.pending && t.results == s.results && t.sid == s.sid && t.engine == s.engine
  {
  }

  /** A good result of this session with an unchanged count: the log goes, or is
      at least closed when it cannot be deleted. */
  lemma MatchingResultDropsLog(s: State, k: nat, removes: bool)
    requires k < |s.results| && s.results[k] == Result(s.sid, s.walSeq, true) && s.wal != NoWal
    ensures var t := Step(s, Delivered(k, removes));
            && t.wal == (if removes then NoWal else Wal(s.wal.id, false))
            && t.walFiles == (if removes then s.walFiles - {s.wal.id} else s.walFiles)
            && t.results == s.results[..k] + s.results[k + 1..] && t.files == s.files && t.engine == s.engine
  {
  }

  /** A result that comes after another append, for another session or of a save
      that failed leaves the log alone. */
  lemma LateResultKeepsLog(s: State, k: nat, removes: bool)
    requires k < |s.results|
    requires var x := s.results[k]; !x.ok || x.id != s.sid || x.mark != s.walSeq
    ensures Step(s, Delivered(k, removes)) == s.(results := Without(s.results, k))
  {
  }

  /** A save that lands writes what it captured to its session's file and nothing
      else; one that fails writes nothing. Either way its result is on the way. */
  lemma LandingWrites(s: State, k: nat, saves: bool)
    requires k < |s.pending|
    ensures var p, t := s.pending[k], Step(s, Lands(k, saves));
            && (forall id :: Recs(t.files, id) == if saves && id == p.id then p.msgs else Recs(s.files, id))
            && t.results == s.results + [Result(p.id, p.mark, saves)] && t.walFiles == s.walFiles
            && t.pending == s.pending[..k] + s.pending[k + 1..] && t.wal == s.wal && t.engine == s.engine
  {
  }

  /** `/new`: the old history is in its file if it was saved, the engine is empty
      under the new id, and a log that opens is the new session's. A quit differs
      in that it stays in its session. */
  lemma NewSessionStarts(s: State, id: nat, saves: bool, removes: bool, opens: bool)
    requires id != s.sid
    ensures var t := Step(s, NewSession(id, saves, removes, opens));
            && t.sid == id && t.engine == [] && t.walSeq == s.walSeq
            && Recs(t.files, s.sid) == (if saves && s.engine != [] then s.engine else Recs(s.files, s.sid))
            && (opens ==> t.wal == Wal(id, true) && id in t.walFiles)
            && (saves && removes && s.engine != [] && s.wal != NoWal && s.wal.id != id ==> s.wal.id !in t.walFiles)
            && (!saves && s.wal != NoWal && s.wal.id in s.walFiles ==>
                  Recs(t.walFiles, s.wal.id) == Recs(s.walFiles, s.wal.id))
    ensures var t := Step(s, Quit(saves, removes));
            && t.sid == s.sid && t.engine == s.engine
            && Recs(t.files, s.sid) == (if saves && s.engine != [] then s.engine else Recs(s.files, s.sid))
            && (saves && removes && s.engine != [] ==> t.wal == NoWal)
            && (!saves || s.engine == [] ==> t == s)
  {
  }

  // ----- what happens without a grant -----

  /** A model that has just started session 1. */
  const FRESH := State(1, [], NoWal, 0, map[], map[], [], [], map[])

  ghost predicate Lost(s: State, id: nat, r: Rec) {
    r in Logged(s, id) && r !in Recs(s.walFiles, id) && r !in Recs(s.files, id)
  }

  lemma {:induction false} RunConcat(s: State, es: seq<Event>, fs: seq<Event>)
    ensures Run(s, es + fs) == Run(Run(s, es), fs)
    decreases |es|
  {
    if es == [] {
      assert es + fs == fs;
    } else {
      assert (es + fs)[1..] == es[1..] + fs;
      RunConcat(Step(s, es[0]), es[1..], fs);
    }
  }

  function AfterFirst(a: Rec): State {
    State(1, [a], Wal(1, true), 1, map[1 := [a]], map[], [], [], map[1 := {a}])
  }

  lemma FirstSubmit(a: Rec)
    ensures Step(FRESH, Submit(a, true, true)) == AfterFirst(a)
  {
    var t := Step(FRESH, Submit(a, true, true));
    var none: seq<Rec> := [];
    assert t.engine == none + [a] == [a];
    assert t.walFiles == map[1 := none][1 := none + [a]] == map[1 := [a]];
    var nothing: set<Rec> := {};
    assert nothing + {a} == {a};
    assert t.logged == map[1 := nothing + {a}];
  }

  lemma SecondSubmit(s: State, a: Rec, b: Rec)
    requires s.sid == 1 && s.wal == Wal(1, true) && s.engine == [a]
    requires s.walFiles == map[1 := [a]] && s.logged == map[1 := {a}]
    ensures Step(s, Submit(b, true, true)) ==
            s.(engine := [a, b], walSeq := s.walSeq + 1, walFiles := map[1 := [a, b]], logged := map[1 := {a, b}])
  {
    var t := Step(s, Submit(b, true, true));
    assert t.engine == [a] + [b] == [a, b];
    assert t.walFiles == map[1 := [a] + [b]] == map[1 := [a, b]];
    assert {a} + {b} == {a, b};
    assert t.logged == map[1 := {a} + {b}];
  }

  lemma TwoSteps(s: State, e: Event, f: Event)
    ensures Run(s, [e, f]) == Step(Step(s, e), f)
    ensures AllGranted(s, [e, f]) <==> Granted(s, e) && Granted(Step(s, e), f)
  {
    assert [e, f][1..] == [f] && [f][1..] == [];
    assert Run(s, [e, f]) == Run(Step(s, e), [f]);
    assert Run(Step(s, e), [f]) == Run(Step(Step(s, e), f), []);
    assert AllGranted(s, [e, f]) <==> Granted(s, e) && AllGranted(Step(s, e), [f]);
    assert AllGranted(Step(s, e), [f]) <==> Granted(Step(s, e), f) && AllGranted(Step(Step(s, e), f), []);
  }

  lemma {:induction false} GrantedConcat(s: State, es: seq<Event>, fs: seq<Event>)
    ensures AllGranted(s, es + fs) <==> AllGranted(s, es) && AllGranted(Run(s, es), fs)
    decreases |es|
  {
    if es == [] {
      assert es + fs == fs;
    } else {
      assert (es + fs)[1..] == es[1..] + fs;
      GrantedConcat(Step(s, es[0]), es[1..], fs);
    }
  }

  /** Event `k` of the run is the only one that was not granted. */
  ghost predicate GrantedBut(s: State, es: seq<Event>, k: nat) {
    k < |es| && AllGranted(s, es[..k]) && !Granted(Run(s, es[..k]), es[k])
    && AllGranted(Run(s, es[..k + 1]), es[k + 1..])
  }

  lemma ThenBroken(s: State, es: seq<Event>, e: Event, fs: seq<Event>)
    requires AllGranted(s, es) && !Granted(Run(s, es), e) && AllGranted(Step(Run(s, es), e), fs)
    ensures GrantedBut(s, es + [e] + fs, |es|)
    ensures Run(s, es + [e] + fs) == Run(Step(Run(s, es), e), fs)
  {
    var all := es + [e] + fs;
    assert all[..|es|] == es && all[..|es| + 1] == es + [e] && all[|es| + 1..] == fs;
    RunConcat(s, es, [e]);
    assert [e][1..] == [];
    RunConcat(s, es + [e], fs);
  }

  /** Both messages are logged and a save of each history is in flight. */
  lemma TwoSavesInFlight(a: Rec, b: Rec) returns (es: seq<Event>, s: State)
    ensures s == Run(FRESH, es) && AllGranted(FRESH, es)
    ensures s == State(1, [a, b], Wal(1, true), 2, map[1 := [a, b]], map[],
                       [Save(1, 1, [a]), Save(1, 2, [a, b])], [], map[1 := {a, b}])
  {
    var e1, s1 := OneSaveInFlight(a);
    var e2 := [Submit(b, true, true), Finished];
    SecondSubmit(s1, a, b);
    TwoSteps(s1, e2[0], e2[1]);
    RunConcat(FRESH, e1, e2);
    GrantedConcat(FRESH, e1, e2);
    es, s := e1 + e2, Run(s1, e2);
    assert s.pending == [Save(1, 1, [a]), Save(1, 2, [a, b])];
  }

  lemma OneSaveInFlight(a: Rec) returns (es: seq<Event>, s: State)
    ensures s == Run(FRESH, es) && AllGranted(FRESH, es)
    ensures s == AfterFirst(a).(pending := [Save(1, 1, [a])])
  {
    es := [Submit(a, true, true), Finished];
    FirstSubmit(a);
    TwoSteps(FRESH, es[0], es[1]);
    s := Run(FRESH, es);
  }

  /** Two background saves of which the later lands first: the log goes with its
      result, the earlier one then writes over it, and the second message is lost.
      Nothing else was out of order. */
  lemma OutOfOrderSaveLoses(a: Rec, b: Rec) returns (es: seq<Event>)
    requires a != b
    ensures es != [] && es[|es| - 1] == Lands(0, true) && GrantedBut(FRESH, es, |es| - 1)
    ensures Start(FRESH) && Lost(Run(FRESH, es), 1, b)
  {
    var e0, s := TwoSavesInFlight(a, b);
    var e1 := [Lands(1, true), Delivered(0, true)];
    TwoSteps(s, e1[0], e1[1]);
    var t := Run(s, e1);
    assert t.pending == [Save(1, 1, [a])] && t.wal == NoWal && 1 !in t.walFiles;
    assert Recs(t.files, 1) == [a, b];
    RunConcat(FRESH, e0, e1);
    GrantedConcat(FRESH, e0, e1);
    OlderOverNewer(e0 + e1, t, a, b);
    es := e0 + e1 + [Lands(0, true)];
    assert es + [] == es;
  }

  /** Landing a save of the first message alone over a file that has both. */
  lemma OlderOverNewer(es: seq<Event>, t: State, a: Rec, b: Rec)
    requires a != b && t == Run(FRESH, es) && AllGranted(FRESH, es)
    requires t.pending == [Save(1, 1, [a])] && Recs(t.files, 1) == [a, b] && 1 !in t.walFiles && b in Logged(t, 1)
    ensures GrantedBut(FRESH, es + [Lands(0, true)], |es|)
    ensures Lost(Run(FRESH, es + [Lands(0, true)]), 1, b)
  {
    var e := Lands(0, true);
    assert !Granted(t, e) by {
      assert |[a, b]| > |[a]|;
    }
    ThenBroken(FRESH, es, e, []);
    assert es + [e] + [] == es + [e];
    assert Recs(Step(t, e).files, 1) == [a];
  }

  /** The same with `/new`: its own save writes both messages and drops the log,
      and the background save that was in flight lands after it. */
  lemma SaveAfterNewLoses(a: Rec, b: Rec) returns (es: seq<Event>)
    requires a != b
    ensures es != [] && es[|es| - 1] == Lands(0, true) && GrantedBut(FRESH, es, |es| - 1)
    ensures Start(FRESH) && Lost(Run(FRESH, es), 1, b)
  {
    var e0, s := OneSaveInFlight(a);
    var e1 := [Submit(b, true, true), NewSession(2, true, true, true)];
    SecondSubmit(s, a, b);
    TwoSteps(s, e1[0], e1[1]);
    var t := Run(s, e1);
    assert Recs(t.files, 1) == [a, b] && 1 !in t.walFiles && b in Logged(t, 1);
    RunConcat(FRESH, e0, e1);
    GrantedConcat(FRESH, e0, e1);
    OlderOverNewer(e0 + e1, t, a, b);
    es := e0 + e1 + [Lands(0, true)];
  }

  /** After such a `/new` the model holds the log of the session it left, and the
      next session's save removes it. */
  lemma KeptLogRemoved(a: Rec, b: Rec, s: State) returns (fs: seq<Event>)
    requires s == AfterFirst(a).(sid := 2, engine := [])
    ensures AllGranted(s, fs) && Lost(Run(s, fs), 1, a)
  {
    var e1 := [Submit(b, true, false), Finished];
    TwoSteps(s, e1[0], e1[1]);
    var t := Run(s, e1);
    assert t.pending == [Save(2, 2, t.engine)] && t.wal == Wal(1, true);
    var e2 := [Lands(0, true), Delivered(0, true)];
    TwoSteps(t, e2[0], e2[1]);
    assert Lost(Run(t, e2), 1, a);
    RunConcat(s, e1, e2);
    GrantedConcat(s, e1, e2);
    fs := e1 + e2;
  }

  /** A `/new` whose save and whose new log both fail goes on with the old log,
      and loses its record though every other event was granted. */
  lemma KeptHandleLoses(a: Rec, b: Rec) returns (es: seq<Event>)
    ensures |es| > 1 && es[1] == NewSession(2, false, false, false) && GrantedBut(FRESH, es, 1)
    ensures Start(FRESH) && Lost(Run(FRESH, es), 1, a)
  {
    var e0, e := [Submit(a, true, true)], NewSession(2, false, false, false);
    FirstSubmit(a);
    assert e0[1..] == [];
    assert Run(FRESH, e0) == Run(Step(FRESH, e0[0]), []);
    var t := Step(AfterFirst(a), e);
    var fs := KeptLogRemoved(a, b, t);
    ThenBroken(FRESH, e0, e, fs);
    es := e0 + [e] + fs;
  }

  // ----- the model's own methods -----

  class ChatModel {
    var sid: nat
    var engine: seq<Rec>
    var wal: Handle
    var walSeq: nat
    var walFiles: map<nat, seq<Rec>>   // the .wal files on disk
    var files: map<nat, seq<Rec>>      // the session files on disk
    var pending: seq<Save>             // commands handed to the runtime
    var results: seq<Result>           // messages on their way back
    ghost var logged: map<nat, set<Rec>>

    ghost function Now(): State
      reads this
    {
      State(sid, engine, wal, walSeq, walFiles, files, pending, results, logged)
    }

    constructor (sid: nat, history: seq<Rec>)
      ensures Start(Now()) && this.sid == sid && engine == history
    {
      this.sid, engine, wal, walSeq := sid, history, NoWal, 0;
      walFiles, files, pending, results, logged := map[], map[], [], [], map[];
    }

    method OpenLog(id: nat)
      modifies this`wal, this`walFiles
      ensures Now() == OpenWal(old(Now()), id)
    {
      wal := Wal(id, true);
      walFiles := walFiles[id := if id in walFiles then walFiles[id] else []];
    }

    method EnsureLog(opens: bool)
      modifies this`wal, this`walFiles
      ensures Now() == EnsureWal(old(Now()), opens)
    {
      if wal != NoWal || sid == 0 {
        return;
      }
      if opens {
        OpenLog(sid);
      }
    }

    method AppendRecord(r: Rec, opens: bool, appends: bool)
      modifies this`wal, this`walFiles, this`walSeq, this`logged
      ensures Now() == Log(old(Now()), r, opens, appends)
    {
      EnsureLog(opens);
      if wal != NoWal {
        walSeq := walSeq + 1;
        if appends && wal.open {
          walFiles := walFiles[wal.id := (if wal.id in walFiles then walFiles[wal.id] else []) + [r]];
          logged := logged[wal.id := (if wal.id in logged then logged[wal.id] else {}) + {r}];
        }
      }
    }

    method SubmitUserMessage(r: Rec, opens: bool, appends: bool)
      modifies this
      ensures Now() == Step(old(Now()), Submit(r, opens, appends))
    {
      engine := engine + [r];
      AppendRecord(r, opens, appends);
    }

    method OnToolResult(r: Rec, opens: bool, appends: bool)
      modifies this
      ensures Now() == Step(old(Now()), ToolDone(r, opens, appends))
    {
      AppendRecord(r, opens, appends);
    }

    method SaveSessionCmd()
      modifies this`pending
      ensures Now() == StartSave(old(Now()))
    {
      if sid == 0 || engine == [] {
        return;
      }
      pending := pending + [Save(sid, walSeq, engine)];
    }

    method OnStreamDone(text: seq<Rec>, opens: bool, appends: bool)
      requires |text| <= 1
      modifies this
      ensures Now() == Step(old(Now()), if text == [] then Finished else Answered(text[0], opens, appends))
    {
      if text != [] {
        AppendRecord(text[0], opens, appends);
      }
      SaveSessionCmd();
    }

    /** `WAL.Remove` and the handle that follows it. */
    method DropLog(removes: bool)
      requires wal != NoWal
      modifies this`wal, this`walFiles
      ensures Now() == RemoveWal(old(Now()), removes)
    {
      if removes {
        walFiles := walFiles - {wal.id};
        wal := NoWal;
      } else {
        wal := Wal(wal.id, false);
      }
    }

    /** The background closure writes and answers. */
    method SaveLands(k: nat, saves: bool)
      modifies this`pending, this`files, this`results
      ensures Now() == Step(old(Now()), Lands(k, saves))
    {
      if k < |pending| {
        var p := pending[k];
        pending := Without(pending, k);
        if saves {
          files := files[p.id := p.msgs];
        }
        results := results + [Result(p.id, p.mark, saves)];
      }
    }

    method OnSaveResult(k: nat, removes: bool)
      modifies this
      ensures Now() == Step(old(Now()), Delivered(k, removes))
    {
      if k < |results| {
        var msg := results[k];
        results := Without(results, k);
        if !msg.ok {
          return;
        }
        if msg.id == sid && msg.mark == walSeq && wal != NoWal {
          DropLog(removes);
        }
      }
    }

    method SaveSession(saves: bool, removes: bool)
      modifies this`files, this`wal, this`walFiles
      ensures Now() == SaveNow(old(Now()), saves, removes)
    {
      if engine == [] {
        return;
      }
      if saves {
        files := files[sid := engine];
        if wal != NoWal {
          DropLog(removes);
        }
      }
    }

    method OnNew(id: nat, saves: bool, removes: bool, opens: bool)
      modifies this
      ensures Now() == Step(old(Now()), NewSession(id, saves, removes, opens))
    {
      SaveSession(saves, removes);
      engine := [];
      sid := id;
      if opens {
        OpenLog(id);
      }
    }
  }
}
