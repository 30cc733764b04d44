/** The permission, question and credential prompts of cmd/chat_update.go, with
    their sequence-numbered timeouts. A request is the channel it is answered
    on, here a number; answers are kept in a log. */
module Prompts {
  import opened Wrappers

  datatype Reply = Allow(allowed: bool) | Text(text: string) | Credential(approved: bool, reason: string)

  /** An answer sent on the channel of request `id`, the `no`-th of its kind. */
  datatype Answer = Answer(id: nat, no: nat, reply: Reply)

  /** One kind of prompt: the open request, its number, and the history. */
  datatype Slot = Slot(req: Option<nat>, seqNo: nat, asked: seq<nat>, answers: seq<Answer>, dropped: nat)

  const EMPTY := Slot(None, 0, [], [], 0)

  /** A request opens the prompt; one that was still open is dropped. */
  function Asked(s: Slot, id: nat): Slot {
    Slot(Some(id), s.seqNo + 1, s.asked + [id], s.answers, s.dropped + if s.req.Some? then 1 else 0)
  }

  /** The open request, if any, is answered and closed. */
  function Answered(s: Slot, reply: Reply): Slot {
    if s.req.None? then s
    else s.(req := None, answers := s.answers + [Answer(s.req.value, s.seqNo, reply)])
  }

  /** A timeout counts only for the request it was armed for. */
  function TimedOut(s: Slot, n: nat, reply: Reply): Slot {
    if s.seqNo == n then Answered(s, reply) else s
  }

  datatype State = State(perm: Slot, ask: Slot, cred: Slot)

  const START := State(EMPTY, EMPTY, EMPTY)

  datatype Event =
    | AskPermission(id: nat) | AskUser(id: nat) | AskCredential(id: nat)
    | PermissionTimeout(n: nat) | AskTimeout(n: nat) | CredentialTimeout(n: nat)
    | KeyPress(name: string, input: string)  // a key that reaches the prompts; input as the answer would read it
    | TurnEnds                               // the stream is done, or failed

  predicate Yes(k: string) { k == "y" || k == "Y" }
  predicate No(k: string) { k == "n" || k == "N" }
  predicate Always(k: string) { k == "a" || k == "A" }
  predicate Never(k: string) { k == "d" || k == "D" }

  /** The permission prompt comes first, then the credential, then the question. */
  function OnKeyPress(s: State, k: string, input: string): State {
    if s.perm.req.Some? then
      if Yes(k) || Always(k) then s.(perm := Answered(s.perm, Allow(true)))
      else if No(k) || Never(k) then s.(perm := Answered(s.perm, Allow(false)))
      else s
    else if s.cred.req.Some? then
      if Yes(k) then s.(cred := Answered(s.cred, Credential(true, "")))
      else if No(k) then s.(cred := Answered(s.cred, Credential(false, "denied by user")))
      else s
    else if k == "enter" then s.(ask := Answered(s.ask, Text(input)))
    else s
  }

  function Step(s: State, e: Event): State {
    match e
    case AskPermission(id) => s.(perm := Asked(s.perm, id))
    case AskUser(id) => s.(ask := Asked(s.ask, id))
    case AskCredential(id) => s.(cred := Asked(s.cred, id))
    case PermissionTimeout(n) => s.(perm := TimedOut(s.perm, n, Allow(false)))
    case AskTimeout(n) => s.(ask := TimedOut(s.ask, n, Text("")))
    case CredentialTimeout(n) => s.(cred := TimedOut(s.cred, n, Credential(false, "timed out")))
    case KeyPress(k, input) => OnKeyPress(s, k, input)
    case TurnEnds => s.(perm := Answered(s.perm, Allow(false)), ask := Answered(s.ask, Text("")))
  }

  function Run(es: seq<Event>): State {
    if es == [] then START else Step(Run(es[..|es| - 1]), es[|es| - 1])
  }

  // ----- the invariant of one kind -----

  /** Answers go to the requests of their numbers, each number at most once and
      in order; every request is answered, open, or was dropped. */
  ghost predicate Inv(s: Slot) {
    && s.seqNo == |s.asked|
    && (s.req.Some? ==> s.asked != [] && s.asked[|s.asked| - 1] == s.req.value)
    && (forall i :: 0 <= i < |s.answers| ==>
          1 <= s.answers[i].no <= (if s.req.Some? then s.seqNo - 1 else s.seqNo)
          && s.asked[s.answers[i].no - 1] == s.answers[i].id)
    && (forall i, j :: 0 <= i < j < |s.answers| ==> s.answers[i].no < s.answers[j].no)
    && |s.answers| + s.dropped + (if s.req.Some? then 1 else 0) == |s.asked|
  }

  lemma AskedKeeps(s: Slot, id: nat)
    requires Inv(s)
    ensures Inv(Asked(s, id))
  {
  }

  lemma AnsweredKeeps(s: Slot, reply: Reply)
    requires Inv(s)
    ensures Inv(Answered(s, reply)) && Answered(s, reply).req.None?
  {
  }

  ghost predicate AllInv(s: State) {
    Inv(s.perm) && Inv(s.ask) && Inv(s.cred)
  }

  lemma KeyKeeps(s: State, k: string, input: string)
    requires AllInv(s)
    ensures AllInv(OnKeyPress(s, k, input))
  {
    if s.perm.req.Some? {
      AnsweredKeeps(s.perm, Allow(Yes(k) || Always(k)));
    } else if s.cred.req.Some? {
      AnsweredKeeps(s.cred, if Yes(k) then Credential(true, "") else Credential(false, "denied by user"));
    } else {
      AnsweredKeeps(s.ask, Text(input));
    }
  }

  lemma StepKeeps(s: State, e: Event)
    requires AllInv(s)
    ensures AllInv(Step(s, e))
  {
    match e
    case AskPermission(id) => AskedKeeps(s.perm, id);
    case AskUser(id) => AskedKeeps(s.ask, id);
    case AskCredential(id) => AskedKeeps(s.cred, id);
    case PermissionTimeout(n) => AnsweredKeeps(s.perm, Allow(false));
    case AskTimeout(n) => AnsweredKeeps(s.ask, Text(""));
    case CredentialTimeout(n) => AnsweredKeeps(s.cred, Credential(false, "timed out"));
    case KeyPress(k, input) => KeyKeeps(s, k, input);
    case TurnEnds =>
      AnsweredKeeps(s.perm, Allow(false));
      AnsweredKeeps(s.ask, Text(""));
  }

  /** In every run, for each kind of prompt: each request gets at most one
      answer, and the unanswered are the open one and the dropped ones. */
  lemma {:induction false} EveryRunAnswersOnce(es: seq<Event>)
    ensures AllInv(Run(es))
    decreases |es|
  {
    if es != [] {
      EveryRunAnswersOnce(es[..|es| - 1]);
      StepKeeps(Run(es[..|es| - 1]), es[|es| - 1]);
    }
  }

  /** A timeout that answers anything answers the request it was armed for: the
      `n`-th one asked; any other timeout changes nothing. */
  lemma TimeoutAnswersItsOwn(s: Slot, n: nat, reply: Reply)
    requires Inv(s)
    ensures var t := TimedOut(s, n, reply);
            t == s || (1 <= n <= |s.asked| && s.req == Some(s.asked[n - 1])
                       && t.answers == s.answers + [Answer(s.asked[n - 1], n, reply)])
  {
  }

  // ----- nothing is granted but by a key -----

  predicate Grants(r: Reply) {
    (r.Allow? && r.allowed) || (r.Credential? && r.approved)
  }

  ghost predicate NoGrant(s: Slot) {
    forall i :: 0 <= i < |s.answers| ==> !Grants(s.answers[i].reply)
  }

  predicate GrantingKey(e: Event) {
    e.KeyPress? && (Yes(e.name) || Always(e.name))
  }

  /** Without a yes or an always, no timeout, no end of turn and no other key
      ever allows a tool or approves a credential. */
  lemma {:induction false} NothingGrantedUnasked(es: seq<Event>)
    requires forall i :: 0 <= i < |es| ==> !GrantingKey(es[i])
    ensures NoGrant(Run(es).perm) && NoGrant(Run(es).cred)
    decreases |es|
  {
    if es != [] {
      var init, e := es[..|es| - 1], es[|es| - 1];
      forall i | 0 <= i < |init| ensures !GrantingKey(init[i]) {
        assert init[i] == es[i];
      }
      NothingGrantedUnasked(init);
      assert !GrantingKey(e);
      var s := Run(init);
      RefusalKeeps(s.perm, Allow(false));
      RefusalKeeps(s.cred, Credential(false, "denied by user"));
      RefusalKeeps(s.cred, Credential(false, "timed out"));
    }
  }

  lemma RefusalKeeps(s: Slot, reply: Reply)
    requires NoGrant(s) && !Grants(reply)
    ensures NoGrant(Answered(s, reply))
  {
  }

  // ----- which event answers what -----

  datatype Kind = Permission | Question | Secret

  function SlotOf(s: State, k: Kind): Slot {
    match k
    case Permission => s.perm
    case Question => s.ask
    case Secret => s.cred
  }

  predicate Asks(e: Event, k: Kind) {
    match k
    case Permission => e.AskPermission?
    case Question => e.AskUser?
    case Secret => e.AskCredential?
  }

  /** Event `e` answers the open request of kind `k` with `reply`. */
  ghost predicate Replies(s: State, e: Event, k: Kind, reply: Reply) {
    SlotOf(s, k).req.Some? &&
    match k
    case Permission =>
      || (e.KeyPress? && e.name in {"y", "Y", "a", "A"} && reply == Allow(true))
      || (e.KeyPress? && e.name in {"n", "N", "d", "D"} && reply == Allow(false))
      || (e == PermissionTimeout(s.perm.seqNo) && reply == Allow(false))
      || (e == TurnEnds && reply == Allow(false))
    case Secret =>
      || (e.KeyPress? && s.perm.req.None? && e.name in {"y", "Y"} && reply == Credential(true, ""))
      || (e.KeyPress? && s.perm.req.None? && e.name in {"n", "N"} && reply == Credential(false, "denied by user"))
      || (e == CredentialTimeout(s.cred.seqNo) && reply == Credential(false, "timed out"))
    case Question =>
      || (e.KeyPress? && s.perm.req.None? && s.cred.req.None? && e.name == "enter" && reply == Text(e.input))
      || (e == AskTimeout(s.ask.seqNo) && reply == Text(""))
      || (e == TurnEnds && reply == Text(""))
  }

  /** An event that replies closes the open request with exactly that answer; a
      request opens its prompt; anything else leaves the kind as it was. */
  lemma StepReplies(s: State, e: Event, k: Kind, reply: Reply)
    ensures Replies(s, e, k, reply) ==>
              var slot := SlotOf(s, k);
              SlotOf(Step(s, e), k) ==
              slot.(req := None, answers := slot.answers + [Answer(slot.req.value, slot.seqNo, reply)])
    ensures Asks(e, k) ==>
              var slot, next := SlotOf(s, k), SlotOf(Step(s, e), k);
              && next.req == Some(e.id) && next.seqNo == slot.seqNo + 1
              && next.asked == slot.asked + [e.id] && next.answers == slot.answers
    ensures !Asks(e, k) && (forall r :: !Replies(s, e, k, r)) ==> SlotOf(Step(s, e), k) == SlotOf(s, k)
  {
    if !Asks(e, k) && forall r :: !Replies(s, e, k, r) {
      assert !Replies(s, e, k, Allow(true)) && !Replies(s, e, k, Allow(false));
      assert !Replies(s, e, k, Credential(true, "")) && !Replies(s, e, k, Credential(false, "denied by user"));
      assert !Replies(s, e, k, Credential(false, "timed out")) && !Replies(s, e, k, Text(""));
      assert e.KeyPress? ==> !Replies(s, e, k, Text(e.input));
    }
  }

  /** A key that answers no open prompt changes nothing at all. */
  lemma OtherKeysChangeNothing(s: State, name: string, input: string)
    requires forall k, r :: !Replies(s, KeyPress(name, input), k, r)
    ensures Step(s, KeyPress(name, input)) == s
  {
    var e := KeyPress(name, input);
    StepReplies(s, e, Permission, Allow(true));
    StepReplies(s, e, Question, Allow(true));
    StepReplies(s, e, Secret, Allow(true));
  }

  /** Answer `a` of kind `k` was given by event `i`, to the request then open. */
  ghost predicate GivenBy(es: seq<Event>, k: Kind, a: nat, i: nat) {
    && i < |es| && a < |SlotOf(Run(es), k).answers|
    && var s, answer := Run(es[..i]), SlotOf(Run(es), k).answers[a];
       && Replies(s, es[i], k, answer.reply) && SlotOf(s, k).req == Some(answer.id)
       && answer.no == SlotOf(s, k).seqNo && |SlotOf(s, k).answers| == a
  }

  lemma GivenEarlier(es: seq<Event>, k: Kind, a: nat, i: nat)
    requires es != [] && GivenBy(es[..|es| - 1], k, a, i) && a < |SlotOf(Run(es), k).answers|
    requires SlotOf(Run(es), k).answers[a] == SlotOf(Run(es[..|es| - 1]), k).answers[a]
    ensures GivenBy(es, k, a, i)
  {
    assert es[..|es| - 1][..i] == es[..i];
  }

  /** The answers of a step are those before it and at most one more. */
  lemma AnswersGrow(s: State, e: Event, k: Kind)
    ensures var xs, ys := SlotOf(s, k).answers, SlotOf(Step(s, e), k).answers;
            ys == xs || (|ys| == |xs| + 1 && ys[..|xs|] == xs && Replies(s, e, k, ys[|xs|].reply)
                         && SlotOf(s, k).req == Some(ys[|xs|].id) && ys[|xs|].no == SlotOf(s, k).seqNo)
  {
  }

  /** In every run every answer was given by an event of the run. */
  lemma {:induction false} EveryAnswerHasItsEvent(es: seq<Event>, k: Kind, a: nat) returns (i: nat)
    requires a < |SlotOf(Run(es), k).answers|
    ensures GivenBy(es, k, a, i)
    decreases |es|
  {
    i := 0;
    if es != [] {
      var init, e := es[..|es| - 1], es[|es| - 1];
      AnswersGrow(Run(init), e, k);
      if a < |SlotOf(Run(init), k).answers| {
        i := EveryAnswerHasItsEvent(init, k, a);
        GivenEarlier(es, k, a, i);
      } else {
        i := |init|;
      }
    }
  }

  /** A tool is allowed exactly by a yes or an always pressed while its request
      was open, and in no other way. */
  lemma AllowedIffPressed(es: seq<Event>, a: nat) returns (i: nat)
    requires a < |Run(es).perm.answers|
    ensures GivenBy(es, Permission, a, i)
    ensures Run(es).perm.answers[a].reply == Allow(true)
            <==> es[i].KeyPress? && es[i].name in {"y", "Y", "a", "A"}
  {
    i := EveryAnswerHasItsEvent(es, Permission, a);
  }

  /** A credential exactly by a yes while its request and no permission was open. */
  lemma ApprovedIffPressed(es: seq<Event>, a: nat) returns (i: nat)
    requires a < |Run(es).cred.answers|
    ensures GivenBy(es, Secret, a, i)
    ensures Run(es).cred.answers[a].reply == Credential(true, "")
            <==> es[i].KeyPress? && es[i].name in {"y", "Y"}
    ensures es[i].KeyPress? ==> Run(es[..i]).perm.req.None?
  {
    i := EveryAnswerHasItsEvent(es, Secret, a);
  }

  /** A question gets the input of the Enter that closed it, or nothing. */
  lemma AnsweredByEnter(es: seq<Event>, a: nat) returns (i: nat)
    requires a < |Run(es).ask.answers|
    ensures GivenBy(es, Question, a, i)
    ensures Run(es).ask.answers[a].reply == Text(if es[i].KeyPress? then es[i].input else "")
    ensures es[i].KeyPress? ==> es[i].name == "enter" && Run(es[..i]).perm.req.None? && Run(es[..i]).cred.req.None?
  {
    i := EveryAnswerHasItsEvent(es, Question, a);
  }

  // ----- the end of a turn -----

  /** Distinct numbers up to `n`, `n` of them, in order: they are 1 to `n`. */
  lemma {:induction false} AllNumbers(xs: seq<Answer>, n: nat, i: nat)
    requires |xs| == n && i < n
    requires forall k :: 0 <= k < n ==> 1 <= xs[k].no <= n
    requires forall j, k :: 0 <= j < k < n ==> xs[j].no < xs[k].no
    ensures xs[i].no == i + 1
  {
    AtLeast(xs, i);
    AtMost(xs, n, i);
  }

  lemma {:induction false} AtLeast(xs: seq<Answer>, i: nat)
    requires i < |xs|
    requires forall k :: 0 <= k < |xs| ==> 1 <= xs[k].no
    requires forall j, k :: 0 <= j < k < |xs| ==> xs[j].no < xs[k].no
    ensures xs[i].no >= i + 1
    decreases i
  {
    if i > 0 {
      AtLeast(xs, i - 1);
    }
  }

  lemma {:induction false} AtMost(xs: seq<Answer>, n: nat, i: nat)
    requires |xs| == n && i < n
    requires forall k :: 0 <= k < n ==> xs[k].no <= n
    requires forall j, k :: 0 <= j < k < n ==> xs[j].no < xs[k].no
    ensures xs[i].no <= i + 1
    decreases n - i
  {
    if i + 1 < n {
      AtMost(xs, n, i + 1);
    }
  }

  /** Request number `k + 1` has answer number `k`, and no other. */
  ghost predicate AllAnswered(s: Slot) {
    |s.answers| == |s.asked| && forall k :: 0 <= k < |s.asked| ==>
      s.answers[k].no == k + 1 && s.answers[k].id == s.asked[k]
  }

  lemma AllAnsweredIff(s: Slot)
    requires Inv(s)
    ensures AllAnswered(s) <==> s.req.None? && s.dropped == 0
  {
    if s.req.None? && s.dropped == 0 {
      forall k | 0 <= k < |s.asked| ensures s.answers[k].no == k + 1 && s.answers[k].id == s.asked[k] {
        AllNumbers(s.answers, |s.asked|, k);
      }
    }
  }

  /** A request of kind `k` never finds another one open. */
  ghost predicate NeverOverlap(es: seq<Event>, k: Kind) {
    forall i :: 0 <= i < |es| && Asks(es[i], k) ==> SlotOf(Run(es[..i]), k).req.None?
  }

  lemma StepDrops(s: State, e: Event, k: Kind)
    ensures SlotOf(Step(s, e), k).dropped ==
            SlotOf(s, k).dropped + if Asks(e, k) && SlotOf(s, k).req.Some? then 1 else 0
  {
  }

  /** Requests of a kind never overlap if and only if none of them was dropped. */
  lemma {:induction false} NoOverlapIffNoDrop(es: seq<Event>, k: Kind)
    ensures NeverOverlap(es, k) <==> SlotOf(Run(es), k).dropped == 0
    decreases |es|
  {
    if es != [] {
      var n := |es| - 1;
      var init := es[..n];
      forall i | 0 <= i < n ensures init[i] == es[i] && init[..i] == es[..i] {}
      NoOverlapIffNoDrop(init, k);
      StepDrops(Run(init), es[n], k);
      assert NeverOverlap(es, k) <==> NeverOverlap(init, k) && (Asks(es[n], k) ==> SlotOf(Run(init), k).req.None?);
    }
  }

  /** When a turn has ended, every permission and every question so far has been
      answered exactly once if and only if none arrived while another was open. */
  lemma TurnEndsSettled(es: seq<Event>)
    requires es != [] && es[|es| - 1] == TurnEnds
    ensures AllAnswered(Run(es).perm) <==> NeverOverlap(es, Permission)
    ensures AllAnswered(Run(es).ask) <==> NeverOverlap(es, Question)
  {
    EveryRunAnswersOnce(es);
    AllAnsweredIff(Run(es).perm);
    AllAnsweredIff(Run(es).ask);
    NoOverlapIffNoDrop(es, Permission);
    NoOverlapIffNoDrop(es, Question);
  }

  /** A credential prompt is not settled by the end of the turn. */
  lemma CredentialOutlivesTurn(id: nat)
    ensures var s := Run([AskCredential(id), TurnEnds]); s.cred.req == Some(id) && s.cred.answers == []
  {
    var es := [AskCredential(id), TurnEnds];
    assert es[..1] == [AskCredential(id)] && es[..1][..0] == [];
    assert Run(es[..1][..0]) == START;
    assert Run(es[..1]) == Step(START, AskCredential(id));
  }

  // ----- the model's fields -----

  class Model {
    var permReq: Option<nat>
    var permReqSeq: nat
    var askReq: Option<nat>
    var askReqSeq: nat
    var credentialReq: Option<nat>
    var credentialReqSeq: nat
    ghost var perm: Slot
    ghost var ask: Slot
    ghost var cred: Slot

    ghost function Now(): State
      reads this
    {
      State(perm, ask, cred)
    }

    ghost predicate Valid()
      reads this
    {
      && perm.req == permReq && perm.seqNo == permReqSeq
      && ask.req == askReq && ask.seqNo == askReqSeq
      && cred.req == credentialReq && cred.seqNo == credentialReqSeq
    }

    constructor ()
      ensures Valid() && Now() == START
    {
      permReq, askReq, credentialReq := None, None, None;
      permReqSeq, askReqSeq, credentialReqSeq := 0, 0, 0;
      perm, ask, cred := EMPTY, EMPTY, EMPTY;
    }

    method AnswerPermission(allowed: bool)
      requires Valid()
      modifies this`permReq, this`perm
      ensures Valid() && perm == Answered(old(perm), Allow(allowed))
    {
      if permReq.Some? {
        perm := Answered(perm, Allow(allowed));
        permReq := None;
      }
    }

    method AnswerQuestion(text: string)
      requires Valid()
      modifies this`askReq, this`ask
      ensures Valid() && ask == Answered(old(ask), Text(text))
    {
      if askReq.Some? {
        ask := Answered(ask, Text(text));
        askReq := None;
      }
    }

    method AnswerCredential(approved: bool, reason: string)
      requires Valid()
      modifies this`credentialReq, this`cred
      ensures Valid() && cred == Answered(old(cred), Credential(approved, reason))
    {
      if credentialReq.Some? {
        cred := Answered(cred, Credential(approved, reason));
        credentialReq := None;
      }
    }

    method OnAsk(e: Event) returns (timeout: Event)
      requires Valid() && (e.AskPermission? || e.AskUser? || e.AskCredential?)
      modifies this
      ensures Valid() && Now() == Step(old(Now()), e)
      ensures e.AskPermission? ==> timeout == PermissionTimeout(perm.seqNo)
      ensures e.AskUser? ==> timeout == AskTimeout(ask.seqNo)
      ensures e.AskCredential? ==> timeout == CredentialTimeout(cred.seqNo)
    {
      match e {
        case AskPermission(id) =>
          permReq, permReqSeq := Some(id), permReqSeq + 1;
          perm := Asked(perm, id);
          timeout := PermissionTimeout(permReqSeq);
        case AskUser(id) =>
          askReq, askReqSeq := Some(id), askReqSeq + 1;
          ask := Asked(ask, id);
          timeout := AskTimeout(askReqSeq);
        case AskCredential(id) =>
          credentialReq, credentialReqSeq := Some(id), credentialReqSeq + 1;
          cred := Asked(cred, id);
          timeout := CredentialTimeout(credentialReqSeq);
      }
    }

    method OnTimeout(e: Event)
      requires Valid() && (e.PermissionTimeout? || e.AskTimeout? || e.CredentialTimeout?)
      modifies this
      ensures Valid() && Now() == Step(old(Now()), e)
    {
      match e {
        case PermissionTimeout(n) =>
          if permReq.Some? && permReqSeq == n {
            AnswerPermission(false);
          }
        case AskTimeout(n) =>
          if askReq.Some? && askReqSeq == n {
            AnswerQuestion("");
          }
        case CredentialTimeout(n) =>
          if credentialReq.Some? && credentialReqSeq == n {
            AnswerCredential(false, "timed out");
          }
      }
    }

    method OnKey(k: string, input: string)
      requires Valid()
      modifies this
      ensures Valid() && Now() == Step(old(Now()), KeyPress(k, input))
    {
      if permReq.Some? {
        if k == "y" || k == "Y" {
          AnswerPermission(true);
        } else if k == "n" || k == "N" {
          AnswerPermission(false);
        } else if k == "a" || k == "A" {
          AnswerPermission(true);
        } else if k == "d" || k == "D" {
          AnswerPermission(false);
        }
      } else if credentialReq.Some? {
        if k == "y" || k == "Y" {
          AnswerCredential(true, "");
        } else if k == "n" || k == "N" {
          AnswerCredential(false, "denied by user");
        }
      } else if askReq.Some? && k == "enter" {
        AnswerQuestion(input);
      }
    }

    method OnTurnEnd()
      requires Valid()
      modifies this
      ensures Valid() && Now() == Step(old(Now()), TurnEnds)
    {
      AnswerPermission(false);
      AnswerQuestion("");
    }
  }
}
