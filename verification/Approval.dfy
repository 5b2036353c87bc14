/** The payment approval gate of a chat session: a purchase in approval mode first asks, and proceeds
    only on the user's answer to that very request. */
module Approval {
  import opened Options

  datatype Mode = AUTONOMOUS | APPROVAL
  datatype Method = USDC_X402 | SOL_NATIVE
  datatype Decision = PENDING | APPROVED | DECLINED | CONSUMED

  /** The purchase in question. */
  datatype Purchase = Purchase(asset: string, paymentMethod: Method)

  datatype Record = Record(purchase: Purchase, decision: Decision)

  datatype Chat = Chat(mode: Mode, approval: Option<Record>)

  datatype GateResult = Allowed | PaymentDeclined | ApprovalRequired

  function Gate(c: Chat, p: Purchase): (Chat, GateResult)
  {
    if c.mode != APPROVAL then (c, Allowed)
    else
      var decision := if c.approval.Some? && c.approval.value.purchase == p then c.approval.value.decision else CONSUMED;
      if decision == APPROVED then (c.(approval := Some(Record(p, CONSUMED))), Allowed)
      else if decision == DECLINED then (c.(approval := Some(Record(p, CONSUMED))), PaymentDeclined)
      else (c.(approval := Some(Record(p, PENDING))), ApprovalRequired)
  }

  /** A chat message, with the user's answer to a pending request if it carries one. */
  datatype Turn = Turn(mode: Mode, answer: Option<Record>)

  predicate TurnAccepted(c: Chat, t: Turn)
  {
    t.answer.None? ||
    (t.mode == APPROVAL && t.answer.value.decision in {APPROVED, DECLINED}
     && c.approval == Some(Record(t.answer.value.purchase, PENDING)))
  }

  /** What an accepted message writes into the state, once the agent's run starts. */
  function ApplyTurn(c: Chat, t: Turn): Chat
  {
    Chat(t.mode, if t.answer.Some? then t.answer else c.approval)
  }

  /** The state kept for a session, overwritten by every call. */
  class ChatSession {
    var mode: Mode
    var approval: Option<Record>

    ghost function View(): Chat
      reads this
    {
      Chat(mode, approval)
    }

    constructor ()
      ensures View() == Chat(AUTONOMOUS, None)
    {
      mode, approval := AUTONOMOUS, None;
    }

    method PaymentApprovalGate(p: Purchase) returns (result: GateResult)
      modifies this
      ensures (View(), result) == Gate(old(View()), p)
    {
      if mode != APPROVAL {
        return Allowed;
      }
      if approval.Some? && approval.value.purchase == p {
        if approval.value.decision == APPROVED {
          approval := Some(Record(p, CONSUMED));
          return Allowed;
        }
        if approval.value.decision == DECLINED {
          approval := Some(Record(p, CONSUMED));
          return PaymentDeclined;
        }
      }
      approval := Some(Record(p, PENDING));
      return ApprovalRequired;
    }

    /** A message is checked when it arrives ... */
    method StreamChat(t: Turn) returns (accepted: bool)
      ensures accepted == TurnAccepted(View(), t)
    {
      if t.answer.Some? {
        if t.mode != APPROVAL || t.answer.value.decision !in {APPROVED, DECLINED} {
          return false;
        }
        if approval != Some(Record(t.answer.value.purchase, PENDING)) {
          return false;
        }
      }
      accepted := true;
    }

    /** ... and written into the state, unchecked, when the agent's run on it starts. */
    method StartRun(t: Turn)
      modifies this
      ensures View() == ApplyTurn(old(View()), t)
    {
      mode := t.mode;
      if t.answer.Some? {
        approval := t.answer;
      }
    }
  }

  // ---------- Runs ----------

  /** The session, and the accepted messages whose runs have not started yet. */
  datatype State = State(chat: Chat, posts: map<nat, Turn>)

  datatype Event = Post(worker: nat, turn: Turn) | Start(worker: nat) | ToolCall(purchase: Purchase)

  function Step(st: State, e: Event): State
  {
    match e
    case Post(w, t) => if w in st.posts || !TurnAccepted(st.chat, t) then st else st.(posts := st.posts[w := t])
    case Start(w) => if w in st.posts then State(ApplyTurn(st.chat, st.posts[w]), st.posts - {w}) else st
    case ToolCall(p) => st.(chat := Gate(st.chat, p).0)
  }

  function Run(st: State, events: seq<Event>): State
    decreases |events|
  {
    if events == [] then st else Step(Run(st, events[..|events| - 1]), events[|events| - 1])
  }

  /** A message served alone is its check and the start of its run, one after the other. */
  lemma ServedAlone(c: Chat, t: Turn)
    ensures Step(Step(State(c, map[]), Post(0, t)), Start(0))
         == State(if TurnAccepted(c, t) then ApplyTurn(c, t) else c, map[])
  {
    assert map[0 := t] - {0} == map[];
  }

  const NEW_CHAT := State(Chat(AUTONOMOUS, None), map[])

  /** What an event amounts to for a purchase, in the state it meets. `Paid` is a purchase in approval
      mode, `Unasked` one the gate lets through outside it. */
  datatype Fact =
    | Requested | Posted(decision: Decision) | Answered(decision: Decision) | Paid | Refused | Unasked | Nothing

  function AnswerTo(t: Turn, p: Purchase): Option<Decision>
  {
    if t.answer.Some? && t.answer.value.purchase == p then Some(t.answer.value.decision) else None
  }

  function FactOf(st: State, e: Event, p: Purchase): Fact
  {
    match e
    case Post(w, t) =>
      if w !in st.posts && TurnAccepted(st.chat, t) && AnswerTo(t, p).Some? then Posted(AnswerTo(t, p).value) else Nothing
    case Start(w) =>
      if w in st.posts && AnswerTo(st.posts[w], p).Some? then Answered(AnswerTo(st.posts[w], p).value) else Nothing
    case ToolCall(q) =>
      if q != p then Nothing
      else if st.chat.mode != APPROVAL then Unasked
      else
        match Gate(st.chat, q).1
        case Allowed => Paid
        case PaymentDeclined => Refused
        case ApprovalRequired => Requested
  }

  function Count(st: State, events: seq<Event>, p: Purchase, fact: Fact): nat
    decreases |events|
  {
    if events == [] then 0
    else
      var front, last := events[..|events| - 1], events[|events| - 1];
      Count(st, front, p, fact) + if FactOf(Run(st, front), last, p) == fact then 1 else 0
  }

  /** An answer written into the state when the request it answers is no longer pending there. */
  predicate IsLate(st: State, e: Event, p: Purchase)
  {
    FactOf(st, e, p).Answered? && st.chat.approval != Some(Record(p, PENDING))
  }

  function CountLate(st: State, events: seq<Event>, p: Purchase): nat
    decreases |events|
  {
    if events == [] then 0
    else
      var front, last := events[..|events| - 1], events[|events| - 1];
      CountLate(st, front, p) + if IsLate(Run(st, front), last, p) then 1 else 0
  }

  function Holds(c: Chat, p: Purchase, decision: Decision): nat
  {
    if c.approval == Some(Record(p, decision)) then 1 else 0
  }

  /** Posts with a given answer whose runs have not started. */
  ghost function Waiting(st: State, p: Purchase, decision: Decision): set<nat>
  {
    set w | w in st.posts && AnswerTo(st.posts[w], p) == Some(decision)
  }

  ghost predicate Waits(st: State, p: Purchase, decision: Decision, w: nat)
  {
    w in st.posts && AnswerTo(st.posts[w], p) == Some(decision)
  }

  lemma WaitsAfter(st: State, e: Event, p: Purchase, d: Decision, v: nat)
    ensures Waits(Step(st, e), p, d, v)
            <==> (e.Post? && e.worker == v && FactOf(st, e, p) == Posted(d)) || (Waits(st, p, d, v) && e != Start(v))
  {
    hide Gate, TurnAccepted, ApplyTurn;
  }

  function Only(yes: bool, w: nat): set<nat> { if yes then {w} else {} }

  function WorkerOf(e: Event): nat { if e.ToolCall? then 0 else e.worker }

  lemma WaitingAfter(st: State, e: Event, p: Purchase, d: Decision)
    ensures Waiting(Step(st, e), p, d) == Waiting(st, p, d) + Only(FactOf(st, e, p) == Posted(d), WorkerOf(e))
                                          - Only(FactOf(st, e, p) == Answered(d), WorkerOf(e))
    ensures FactOf(st, e, p) == Posted(d) ==> WorkerOf(e) !in Waiting(st, p, d)
    ensures FactOf(st, e, p) == Answered(d) ==> WorkerOf(e) in Waiting(st, p, d)
  {
    var after := Waiting(Step(st, e), p, d);
    forall v: nat
      ensures v in after <==> v in Waiting(st, p, d) + Only(FactOf(st, e, p) == Posted(d), WorkerOf(e))
                                   - Only(FactOf(st, e, p) == Answered(d), WorkerOf(e))
    {
      WaitsAfter(st, e, p, d, v);
      assert v in after <==> Waits(Step(st, e), p, d, v);
      assert v in Waiting(st, p, d) <==> Waits(st, p, d, v);
      hide Step, Waiting, TurnAccepted, Gate;
    }
  }

  lemma PostsAreWaitingOrAnswered(st: State, e: Event, p: Purchase, d: Decision)
    ensures |Waiting(Step(st, e), p, d)| + (if FactOf(st, e, p) == Answered(d) then 1 else 0)
         == |Waiting(st, p, d)| + (if FactOf(st, e, p) == Posted(d) then 1 else 0)
  {
    WaitingAfter(st, e, p, d);
    hide Waiting, Step, FactOf;
  }

  /** For each asset and method, over every run, messages overlapping as they may: approval-mode
      purchases plus a still unused approval never outnumber the approvals written into the state,
      nor these and the ones still waiting the approvals the user posted; the same for refusals and
      declinations. Answers written plus a still open request never outnumber the requests by more
      than the answers that came late. */
  lemma {:induction false} EveryPaymentHasItsOwnApproval(events: seq<Event>, p: Purchase)
    ensures var c := Run(NEW_CHAT, events).chat;
            var n := fact => Count(NEW_CHAT, events, p, fact);
            && n(Paid) + Holds(c, p, APPROVED) <= n(Answered(APPROVED))
            && n(Refused) + Holds(c, p, DECLINED) <= n(Answered(DECLINED))
            && (forall d :: n(Answered(d)) + |Waiting(Run(NEW_CHAT, events), p, d)| == n(Posted(d)))
            && n(Answered(APPROVED)) + n(Answered(DECLINED)) + Holds(c, p, PENDING)
               <= n(Requested) + CountLate(NEW_CHAT, events, p)
    decreases |events|
  {
    if events != [] {
      var front, e := events[..|events| - 1], events[|events| - 1];
      EveryPaymentHasItsOwnApproval(front, p);
      var st := Run(NEW_CHAT, front);
      WaitingAnswersAreDecisions(front);
      forall d
        ensures Count(NEW_CHAT, events, p, Answered(d)) + |Waiting(Run(NEW_CHAT, events), p, d)|
             == Count(NEW_CHAT, events, p, Posted(d))
      {
        PostsAreWaitingOrAnswered(st, e, p, d);
      }
      StepBalances(st, e, p);
      hide Step, FactOf, Waiting, Holds, IsLate;
    }
  }

  ghost predicate OnlyDecisionsWait(st: State)
  {
    forall w :: w in st.posts && st.posts[w].answer.Some? ==> st.posts[w].answer.value.decision in {APPROVED, DECLINED}
  }

  lemma {:induction false} WaitingAnswersAreDecisions(events: seq<Event>)
    ensures OnlyDecisionsWait(Run(NEW_CHAT, events))
    decreases |events|
  {
    if events != [] {
      WaitingAnswersAreDecisions(events[..|events| - 1]);
    }
  }

  /** What one step adds to each side of the account. */
  lemma StepBalances(st: State, e: Event, p: Purchase)
    requires OnlyDecisionsWait(st)
    ensures var one := fact => if FactOf(st, e, p) == fact then 1 else 0;
            var before, after := st.chat, Step(st, e).chat;
            && one(Paid) + Holds(after, p, APPROVED) <= Holds(before, p, APPROVED) + one(Answered(APPROVED))
            && one(Refused) + Holds(after, p, DECLINED) <= Holds(before, p, DECLINED) + one(Answered(DECLINED))
            && one(Answered(APPROVED)) + one(Answered(DECLINED)) + Holds(after, p, PENDING)
               <= Holds(before, p, PENDING) + one(Requested) + if IsLate(st, e, p) then 1 else 0
  {
  }

  /** What the last event to write the approval state in a run left there. */
  ghost function LastWritten(st: State, events: seq<Event>): Option<Record>
    decreases |events|
  {
    if events == [] then None
    else
      var front, e := events[..|events| - 1], events[|events| - 1];
      var mid := Run(st, front);
      if (e.Start? && e.worker in mid.posts && mid.posts[e.worker].answer.Some?)
         || (e.ToolCall? && mid.chat.mode == APPROVAL)
      then Run(st, events).chat.approval
      else LastWritten(st, front)
  }

  lemma {:induction false} OnlyWritesChangeTheApproval(st: State, events: seq<Event>)
    ensures Run(st, events).chat.approval
         == if LastWritten(st, events).Some? then LastWritten(st, events) else st.chat.approval
    decreases |events|
  {
    if events != [] {
      OnlyWritesChangeTheApproval(st, events[..|events| - 1]);
    }
  }

  lemma {:induction false} PostWaits(st: State, events: seq<Event>, w: nat)
    requires w in st.posts && forall e :: e in events && !e.ToolCall? ==> e.worker != w
    ensures w in Run(st, events).posts && Run(st, events).posts[w] == st.posts[w]
    decreases |events|
  {
    if events != [] {
      assert events[|events| - 1] in events;
      PostWaits(st, events[..|events| - 1], w);
    }
  }

  /** Exactly when an accepted answer comes late: when between the check and the start of its run the
      approval state was written, and last with something else than that open request. */
  lemma AnswerIsLateExactlyWhen(st: State, w: nat, t: Turn, p: Purchase, between: seq<Event>)
    requires w !in st.posts && TurnAccepted(st.chat, t) && AnswerTo(t, p).Some?
    requires forall e :: e in between && !e.ToolCall? ==> e.worker != w
    ensures var posted := Step(st, Post(w, t));
            IsLate(Run(posted, between), Start(w), p)
            <==> LastWritten(posted, between) !in {None, Some(Record(p, PENDING))}
  {
    var posted := Step(st, Post(w, t));
    PostWaits(posted, between, w);
    OnlyWritesChangeTheApproval(posted, between);
    hide Run, LastWritten;
  }

  function ApprovalOf(p: Purchase): Turn { Turn(APPROVAL, Some(Record(p, APPROVED))) }

  /** Two overlapping approvals of one request both count: both are accepted while the session waits
      for one answer, the first is used up by a purchase, the second comes late and pays again. */
  lemma TwoPostsAnswerOneRequest(p: Purchase)
    ensures var st := State(Chat(APPROVAL, Some(Record(p, PENDING))), map[]);
            var first := Step(Step(Step(st, Post(1, ApprovalOf(p))), Post(2, ApprovalOf(p))), Start(1));
            var paid := Step(first, ToolCall(p));
            && FactOf(first, ToolCall(p), p) == Paid
            && IsLate(paid, Start(2), p)
            && FactOf(Step(paid, Start(2)), ToolCall(p), p) == Paid
  {
    var st := State(Chat(APPROVAL, Some(Record(p, PENDING))), map[]);
    var posted := Step(Step(st, Post(1, ApprovalOf(p))), Post(2, ApprovalOf(p)));
    assert posted.posts == map[1 := ApprovalOf(p), 2 := ApprovalOf(p)];
    var first := Step(posted, Start(1));
    assert first == State(Chat(APPROVAL, Some(Record(p, APPROVED))), map[2 := ApprovalOf(p)]);
  }

  // ---------- Every call let through ----------

  /** The gate lets this call of the purchase through, in whatever mode. */
  predicate LetThrough(st: State, e: Event, p: Purchase)
  {
    e == ToolCall(p) && Gate(st.chat, p).1 == Allowed
  }

  /** The mode of the last message whose run started; the one before the run if none did. */
  ghost function LastMode(st: State, events: seq<Event>): Mode
    decreases |events|
  {
    if events == [] then st.chat.mode
    else
      var front, e := events[..|events| - 1], events[|events| - 1];
      var mid := Run(st, front);
      if e.Start? && e.worker in mid.posts then mid.posts[e.worker].mode else LastMode(st, front)
  }

  lemma {:induction false} ModeIsTheLast(st: State, events: seq<Event>)
    ensures Run(st, events).chat.mode == LastMode(st, events)
    decreases |events|
  {
    if events != [] {
      ModeIsTheLast(st, events[..|events| - 1]);
    }
  }

  /** Exactly which calls are let through, at any point of any run: those made while the last started
      message was not in approval mode - or no message started at all - and those made while what was
      last written into the approval state is an approval of that very purchase. */
  lemma CallIsLetThroughExactlyWhen(events: seq<Event>, p: Purchase)
    ensures LetThrough(Run(NEW_CHAT, events), ToolCall(p), p)
            <==> LastMode(NEW_CHAT, events) != APPROVAL
                 || LastWritten(NEW_CHAT, events) == Some(Record(p, APPROVED))
  {
    ModeIsTheLast(NEW_CHAT, events);
    OnlyWritesChangeTheApproval(NEW_CHAT, events);
    hide Run, LastWritten, LastMode;
  }

  /** Exactly which calls are refused and which have to ask: in approval mode, after a declination of that
      very purchase was last written the call is refused; with anything but an approval or a declination
      of it written last it asks. A call that is let through or refused uses the answer up; one that asks
      leaves its request. */
  lemma CallIsRefusedOrAsksExactlyWhen(events: seq<Event>, p: Purchase)
    ensures var st := Run(NEW_CHAT, events);
            var (after, result) := Gate(st.chat, p);
            var last := LastWritten(NEW_CHAT, events);
            && (result == PaymentDeclined
                <==> LastMode(NEW_CHAT, events) == APPROVAL && last == Some(Record(p, DECLINED)))
            && (result == ApprovalRequired
                <==> LastMode(NEW_CHAT, events) == APPROVAL
                     && last !in {Some(Record(p, APPROVED)), Some(Record(p, DECLINED))})
            && (st.chat.mode != APPROVAL ==> after == st.chat)
            && (st.chat.mode == APPROVAL ==>
                  after == Chat(APPROVAL, Some(Record(p, if result == ApprovalRequired then PENDING else CONSUMED))))
  {
    ModeIsTheLast(NEW_CHAT, events);
    OnlyWritesChangeTheApproval(NEW_CHAT, events);
    hide Run, LastWritten, LastMode;
  }

  /** Exactly which messages are accepted: those without an answer, and those in approval mode that approve
      or decline the very request last written and still pending. */
  lemma MessageIsAcceptedExactlyWhen(events: seq<Event>, t: Turn)
    ensures TurnAccepted(Run(NEW_CHAT, events).chat, t)
            <==> t.answer.None?
                 || (t.mode == APPROVAL && t.answer.value.decision in {APPROVED, DECLINED}
                     && LastWritten(NEW_CHAT, events) == Some(Record(t.answer.value.purchase, PENDING)))
  {
    OnlyWritesChangeTheApproval(NEW_CHAT, events);
    hide Run, LastWritten;
  }

  /** In a run every message started is in approval mode. */
  ghost predicate OnlyApprovalModeStarts(st: State, events: seq<Event>)
    decreases |events|
  {
    events == []
    || (var front, e := events[..|events| - 1], events[|events| - 1];
        && OnlyApprovalModeStarts(st, front)
        && (e.Start? && e.worker in Run(st, front).posts ==> Run(st, front).posts[e.worker].mode == APPROVAL))
  }

  /** After a declination no call of that purchase is let through, as long as no approval of it is
      written and no message outside approval mode starts. */
  lemma {:induction false} DeclinedNeverPays(st: State, events: seq<Event>, p: Purchase)
    requires st.chat == Chat(APPROVAL, Some(Record(p, DECLINED)))
    requires Count(st, events, p, Answered(APPROVED)) == 0 && OnlyApprovalModeStarts(st, events)
    ensures Count(st, events, p, Paid) == 0 && Count(st, events, p, Unasked) == 0
    ensures !LetThrough(Run(st, events), ToolCall(p), p)
    ensures Run(st, events).chat.mode == APPROVAL && Run(st, events).chat.approval != Some(Record(p, APPROVED))
    decreases |events|
  {
    if events != [] {
      DeclinedNeverPays(st, events[..|events| - 1], p);
    }
  }

  /** The second proviso is needed: a message outside approval mode makes the gate let the declined
      purchase through, though no approval was ever written. */
  lemma AutonomousMessageOverridesADeclination(p: Purchase)
    ensures var st := State(Chat(APPROVAL, Some(Record(p, DECLINED))), map[]);
            var started := Step(Step(st, Post(1, Turn(AUTONOMOUS, None))), Start(1));
            && LetThrough(started, ToolCall(p), p)
            && started.chat.approval == Some(Record(p, DECLINED))
            && FactOf(started, ToolCall(p), p) == Unasked
  {
  }
}
