/** The buyer's bounded negotiation, and its memory of accepted sessions. */
module Buyer {
  import opened Options
  import opened Money
  import opened Negotiation

  // ---------- The fallback ----------

  /** What one submission meets on the seller's side: the session as other requests left it, the
      terms then in force, the round cap and the model's answer. */
  datatype Visit = Visit(session: Session, terms: Terms, maxRounds: int, answer: ModelAnswer)

  function Reply(visit: Visit, offer: real, usage: string, buyerAgent: string): Response
  {
    Respond(visit.session,
            Request(visit.terms, Some(USDC), Some(offer), usage, buyerAgent, visit.maxRounds, visit.answer))
  }

  predicate Rejected(r: Response) { r.Replied? && r.verdict == REJECT }

  datatype Attempt = Attempt(offer: real, response: Response)

  datatype FallbackError = CounterPriceInvalid | ListPriceUnavailable

  /** Open, take up a counter-offer once, and after a rejection offer the published price once.
      `published` is what the seller's payment terms said, if they could be read. */
  method NegotiateWithListPriceFallback(opening: real, usage: string, buyerAgent: string,
                                        visits: seq<Visit>, published: Option<real>)
    returns (attempts: seq<Attempt>, final: Response, error: Option<FallbackError>)
    requires |visits| == 3
    ensures 1 <= |attempts| <= 3
    ensures forall i :: 0 <= i < |attempts| ==>
                          attempts[i].response == Reply(visits[i], attempts[i].offer, usage, buyerAgent)
    ensures attempts[0].offer == opening && final == attempts[|attempts| - 1].response
    ensures forall i :: 0 < i < |attempts| ==>
                          var before := attempts[i - 1].response;
                          || (i == 1 && before.Replied? && before.verdict == COUNTER_OFFER
                              && before.price == Some(attempts[i].offer))
                          || (Rejected(before) && published == Some(attempts[i].offer) && i == |attempts| - 1)
    // A rejection is final only if the list price could not be read or was itself turned down.
    ensures Rejected(final) ==>
              || (published.None? && error == Some(ListPriceUnavailable))
              || (|attempts| > 1 && published == Some(attempts[|attempts| - 1].offer)
                  && Rejected(attempts[|attempts| - 2].response))
    // A counter-offer is final only if it answered the one counter taken up, or the list price.
    ensures final.Replied? && final.verdict == COUNTER_OFFER && error.None? ==> |attempts| >= 2
  {
    var last := Reply(visits[0], opening, usage, buyerAgent);
    attempts, error := [Attempt(opening, last)], None;
    if last.Replied? && last.verdict == COUNTER_OFFER {
      if last.price.None? {
        return attempts, last, Some(CounterPriceInvalid);
      }
      var counter := last.price.value;
      last := Reply(visits[1], counter, usage, buyerAgent);
      attempts := attempts + [Attempt(counter, last)];
    }
    if Rejected(last) {
      if published.None? {
        return attempts, last, Some(ListPriceUnavailable);
      }
      var listPrice := published.value;
      last := Reply(visits[|attempts|], listPrice, usage, buyerAgent);
      attempts := attempts + [Attempt(listPrice, last)];
    }
    final := last;
  }

  /** The seller takes the published price at exactly that price, whatever the model says, however
      many rounds were played, whatever state the session is in - or answers without a verdict. */
  lemma ListPriceIsAccepted(visit: Visit, usage: string, buyerAgent: string, p: real)
    requires IsSixDecimal(p) && visit.terms.target == Some(p)
    ensures var r := Reply(visit, p, usage, buyerAgent);
            r.Refused? || r == Replied(ACCEPT, Some(p), Some(visit.terms.payTo))
    ensures TermsConfigured(visit.terms) && AllowedUsage(usage) && buyerAgent != "" && visit.session.currency == USDC
            ==> Reply(visit, p, usage, buyerAgent) == Replied(ACCEPT, Some(p), Some(visit.terms.payTo))
  {
    QuantizeUsdcIsNearest(p);
    if TermsConfigured(visit.terms) {
      ModelDecidesOnlyInBetween(visit.terms.minPrice.value, p, visit.terms.payTo, |visit.session.rounds|,
                                visit.maxRounds, p, USDC, visit.answer);
    }
  }

  /** So the fallback never ends rejected while the published price is the target. */
  method FallbackAgainstPublishedTarget(opening: real, usage: string, buyerAgent: string, visits: seq<Visit>, p: real)
    returns (attempts: seq<Attempt>, final: Response)
    requires |visits| == 3 && IsSixDecimal(p) && forall v :: v in visits ==> v.terms.target == Some(p)
    ensures !Rejected(final)
    ensures |attempts| <= 3
    ensures |attempts| > 1 && Rejected(attempts[|attempts| - 2].response) ==>
              attempts[|attempts| - 1].offer == p
              && (final.Refused? || (final.verdict == ACCEPT && final.price == Some(p)))
  {
    var error;
    attempts, final, error := NegotiateWithListPriceFallback(opening, usage, buyerAgent, visits, Some(p));
    var k := |attempts| - 1;
    assert visits[k] in visits;
    ListPriceIsAccepted(visits[k], usage, buyerAgent, p);
    assert attempts[k].response == Reply(visits[k], attempts[k].offer, usage, buyerAgent);
  }

  // ---------- Remembered sessions ----------

  type AssetId = string
  type SessionId = string

  /** The buyer's conversation state: per asset, the session it was last accepted in. */
  class BuyerContext {
    var accepted: map<AssetId, SessionId>

    constructor ()
      ensures accepted == map[]
    {
      accepted := map[];
    }

    /** After every negotiation reply: remember on acceptance, forget on a counter or rejection. */
    method Note(asset: AssetId, session: SessionId, response: Response)
      modifies this
      ensures accepted == Noted(old(accepted), asset, session, response)
    {
      if response.Replied? && response.verdict == ACCEPT {
        accepted := accepted[asset := session];
      } else if response.Replied? && asset in accepted {
        accepted := map a | a in accepted && a != asset :: accepted[a];
      }
    }

    /** The session a purchase uses: the one named, else the one remembered for the asset. */
    method Resolve(asset: AssetId, named: Option<SessionId>) returns (session: Option<SessionId>)
      ensures session == ResolvedSession(accepted, asset, named)
    {
      if named.Some? {
        return named;
      }
      session := if asset in accepted then Some(accepted[asset]) else None;
    }
  }

  function ResolvedSession(accepted: map<AssetId, SessionId>, asset: AssetId, named: Option<SessionId>)
    : Option<SessionId>
  {
    if named.Some? then named else if asset in accepted then Some(accepted[asset]) else None
  }

  function Noted(accepted: map<AssetId, SessionId>, asset: AssetId, session: SessionId, response: Response)
    : map<AssetId, SessionId>
  {
    if response.Refused? then accepted
    else if response.verdict == ACCEPT then accepted[asset := session]
    else accepted - {asset}
  }

  /** A seller's session: its asset, and the session with the requests under way on it. */
  /** What a reply does to the memory: an acceptance puts its session in place of whatever the asset had, a
      counter or rejection removes that, a refusal changes nothing; other assets are never touched. And
      a purchase uses the session it names, else the one remembered for its asset. */
  lemma MemoryFollowsReplies(accepted: map<AssetId, SessionId>, asset: AssetId, session: SessionId, response: Response,
                             named: Option<SessionId>)
    ensures var after := Noted(accepted, asset, session, response);
            && (forall a :: a != asset ==> (a in after <==> a in accepted) && (a in accepted ==> after[a] == accepted[a]))
            && (response.Replied? && response.verdict == ACCEPT ==> asset in after && after[asset] == session)
            && (response.Replied? && response.verdict != ACCEPT ==> asset !in after)
            && (response.Refused? ==> after == accepted)
            && (named.Some? ==> ResolvedSession(after, asset, named) == named)
            && (ResolvedSession(after, asset, None).Some? <==> asset in after)
            && (asset in after ==> ResolvedSession(after, asset, None) == Some(after[asset]))
  {
  }

  datatype Owned = Owned(asset: AssetId, talks: State)

  datatype Answer = Answer(asset: AssetId, id: SessionId, response: Response)

  /** The seller's sessions, the replies sent, and one buyer's memory. */
  datatype World = World(sessions: map<SessionId, Owned>, replies: set<Answer>, accepted: map<AssetId, SessionId>)

  /** A request begins on the session `id` the seller resolves it to - one not seen before is created -
      and later writes and is answered; a reply sent reaches the buyer at any time after that. */
  datatype WorldEvent =
    | Ask(worker: nat, asset: AssetId, id: SessionId, request: Request)
    | Finish(worker: nat, id: SessionId)
    | Deliver(reply: Answer)

  function StepWorld(w: World, e: WorldEvent): World
  {
    match e
    case Ask(worker, asset, id, request) =>
      if Precheck(request).Some? || (id in w.sessions && w.sessions[id].asset != asset) then w
      else
        var talks := if id in w.sessions then w.sessions[id].talks
                     else NewState(request.currency.value, request.offer.value);
        w.(sessions := w.sessions[id := Owned(asset, StepState(talks, Begin(worker, request)))])
    case Finish(worker, id) =>
      if id !in w.sessions || worker !in w.sessions[id].talks.pending then w
      else
        var owned := w.sessions[id];
        var p := owned.talks.pending[worker];
        World(w.sessions[id := Owned(owned.asset, StepState(owned.talks, Write(worker)))],
              w.replies + {Answer(owned.asset, id, Respond(p.read.session, p.request))}, w.accepted)
    case Deliver(reply) =>
      if reply in w.replies then w.(accepted := Noted(w.accepted, reply.asset, reply.id, reply.response)) else w
  }

  function RunWorld(w: World, events: seq<WorldEvent>): World
    decreases |events|
  {
    if events == [] then w else StepWorld(RunWorld(w, events[..|events| - 1]), events[|events| - 1])
  }

  const NOTHING_YET := World(map[], {}, map[])

  ghost predicate StandsFor(w: World, id: SessionId, asset: AssetId)
  {
    id in w.sessions && w.sessions[id].asset == asset
  }

  ghost predicate StandsAccepted(w: World, id: SessionId)
  {
    id in w.sessions && w.sessions[id].talks.row.session.status == ACCEPTED
  }

  predicate Accepting(r: Response) { r.Replied? && r.verdict == ACCEPT }

  /** What is remembered, or said to be accepted, is a session for that asset. */
  ghost predicate MemoryNames(w: World)
  {
    && (forall r :: r in w.replies ==> StandsFor(w, r.id, r.asset))
    && forall a :: a in w.accepted ==> StandsFor(w, w.accepted[a], a)
  }

  ghost predicate MemoryHolds(w: World)
  {
    && (forall r :: r in w.replies && Accepting(r.response) ==> StandsAccepted(w, r.id))
    && forall a :: a in w.accepted ==> StandsAccepted(w, w.accepted[a])
  }

  /** The request that writes finds the session as it read it. */
  ghost predicate FindsItAsRead(w: World, e: WorldEvent)
  {
    e.Finish? && e.id in w.sessions && e.worker in w.sessions[e.id].talks.pending ==>
      w.sessions[e.id].talks.row == w.sessions[e.id].talks.pending[e.worker].read
  }

  ghost predicate UndisturbedWorld(events: seq<WorldEvent>)
    decreases |events|
  {
    events == []
    || (UndisturbedWorld(events[..|events| - 1])
        && FindsItAsRead(RunWorld(NOTHING_YET, events[..|events| - 1]), events[|events| - 1]))
  }

  lemma AcceptingWrites(l: Logged, r: Request)
    ensures Accepting(Respond(l.session, r)) ==> Served(l, r).session.status == ACCEPTED
    ensures l.session.status == ACCEPTED ==> Served(l, r).session.status == ACCEPTED
  {
    hide RunRound;
  }

  lemma StepKeepsNames(w: World, e: WorldEvent)
    requires MemoryNames(w)
    ensures MemoryNames(StepWorld(w, e))
  {
    hide StepState, Respond, NewState;
    var after := StepWorld(w, e);
    forall a | a in after.accepted
      ensures StandsFor(after, after.accepted[a], a)
    {
      if e.Deliver? && e.reply in w.replies {
        assert StandsFor(w, e.reply.id, e.reply.asset);
      }
    }
  }

  lemma StepKeepsMemory(w: World, e: WorldEvent)
    requires MemoryNames(w) && MemoryHolds(w) && FindsItAsRead(w, e)
    ensures MemoryHolds(StepWorld(w, e))
  {
    var after := StepWorld(w, e);
    if e.Finish? && e.id in w.sessions && e.worker in w.sessions[e.id].talks.pending {
      AcceptingWrites(w.sessions[e.id].talks.row, w.sessions[e.id].talks.pending[e.worker].request);
    }
    hide Served, Respond, RoundOf, Precheck, NewState;
    forall id | StandsAccepted(w, id)
      ensures StandsAccepted(after, id)
    {
    }
    hide StepState, StandsAccepted;
  }

  /** In every run, whatever overlaps, each session the buyer would reuse exists and is for that asset;
      and in every run in which each request that writes finds its session as it read it, each of
      them also stands accepted at the seller. */
  lemma {:induction false} ReusedSessionsAreAccepted(events: seq<WorldEvent>)
    ensures var w := RunWorld(NOTHING_YET, events);
            && MemoryNames(w)
            && (UndisturbedWorld(events) ==> MemoryHolds(w))
    decreases |events|
  {
    if events != [] {
      var front := events[..|events| - 1];
      ReusedSessionsAreAccepted(front);
      hide StepWorld, MemoryNames, MemoryHolds;
      StepKeepsNames(RunWorld(NOTHING_YET, front), events[|events| - 1]);
      if UndisturbedWorld(events) {
        StepKeepsMemory(RunWorld(NOTHING_YET, front), events[|events| - 1]);
      }
    }
  }

  /** So a purchase that names no session is made under one that was agreed for that very asset - and
      that still stands accepted, if each request that wrote found its session as it read it. */
  lemma ResolvedSessionWasAgreedForTheAsset(events: seq<WorldEvent>, asset: AssetId)
    ensures var w := RunWorld(NOTHING_YET, events);
            var session := ResolvedSession(w.accepted, asset, None);
            session.Some? ==> StandsFor(w, session.value, asset)
                              && (UndisturbedWorld(events) ==> StandsAccepted(w, session.value))
  {
    ReusedSessionsAreAccepted(events);
    hide RunWorld, UndisturbedWorld;
  }

  /** What happens in the world to one session is a run of that session. */
  lemma {:induction false} SessionRuns(w: World, events: seq<WorldEvent>, id: SessionId) returns (own: seq<Event>)
    requires id in w.sessions
    ensures id in RunWorld(w, events).sessions
    ensures RunWorld(w, events).sessions[id].talks == Run(w.sessions[id].talks, own)
    decreases |events|
  {
    own := [];
    if events != [] {
      var front, e := events[..|events| - 1], events[|events| - 1];
      own := SessionRuns(w, front, id);
      hide StepState, Respond, NewState;
      var next := if e.Ask? then Begin(e.worker, e.request)
                  else if e.Finish? then Write(e.worker)
                  else Begin(0, NO_REQUEST);
      if RunWorld(w, events).sessions[id].talks != Run(w.sessions[id].talks, own) {
        assert (own + [next])[..|own|] == own;
        own := own + [next];
      }
    }
  }

  const NO_REQUEST := Request(Terms(None, None, ""), None, None, "", "", 0, Failed)

  /** Exactly when an accepted session the buyer could reuse will still stand accepted whenever it is
      used: when no request is under way on it that read it before it was accepted and does not accept
      itself. */
  lemma AcceptedSessionStaysUsableExactly(w: World, id: SessionId)
    requires StandsAccepted(w, id)
    ensures (forall events: seq<WorldEvent> :: StandsAccepted(RunWorld(w, events), id))
            <==> forall v :: v in w.sessions[id].talks.pending ==> WritesAccepted(w.sessions[id].talks.pending[v])
  {
    var talks := w.sessions[id].talks;
    AcceptanceIsFinalExactlyWithoutAStaleRead(talks);
    hide WritesAccepted, StepState, Respond;
    if v :| v in talks.pending && !WritesAccepted(talks.pending[v]) {
      StaleFinish(w, id, v);
    } else {
      forall events: seq<WorldEvent>
        ensures StandsAccepted(RunWorld(w, events), id)
      {
        var own := SessionRuns(w, events, id);
      }
    }
  }

  lemma StaleFinish(w: World, id: SessionId, v: nat)
    requires StandsAccepted(w, id) && v in w.sessions[id].talks.pending
    requires !WritesAccepted(w.sessions[id].talks.pending[v])
    ensures !StandsAccepted(RunWorld(w, [Finish(v, id)]), id)
  {
    assert [Finish(v, id)][..0] == [];
    hide RunRound, Precheck, Respond;
  }
}
