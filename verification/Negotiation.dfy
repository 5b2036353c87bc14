/** One negotiation round: an untrusted pricing model wrapped by the creator's limits, and the
    seller-side session that logs the rounds. */
module Negotiation {
  import opened Options
  import opened Money

  datatype Verdict = ACCEPT | COUNTER_OFFER | REJECT

  /** What one round decides. */
  datatype Result = Result(verdict: Verdict, price: Option<real>, payTo: Option<string>)

  /** What the model came back with: no usable answer, or a verdict and any number at all. */
  datatype ModelAnswer = Failed | Answered(verdict: Verdict, price: Option<real>)

  /** The creator's terms as configured on the asset at the time of the request. */
  datatype Terms = Terms(minPrice: Option<real>, target: Option<real>, payTo: string)

  function Min(x: real, y: real): real { if x <= y then x else y }

  // ---------- The engine ----------

  /** The model adapter's own reading of an answer: a price below the floor is lifted to it, and any
      price is rounded to nine decimals whatever the currency. */
  function ParseAnswer(verdict: Verdict, price: Option<real>, minPrice: real): Result
  {
    var lifted := if verdict != REJECT && (price.None? || price.value < minPrice) then Some(minPrice) else price;
    Result(verdict, if lifted.Some? then Some(QuantizeSol(lifted.value)) else None, None)
  }

  function FinalizeRound(raw: Result, minPrice: real, payTo: string, offer: real, currency: Currency): Result
  {
    var lifted := if raw.verdict != REJECT && (raw.price.None? || raw.price.value < minPrice)
                  then Some(minPrice) else raw.price;
    var verdict := if raw.verdict == ACCEPT && lifted.value > offer then COUNTER_OFFER else raw.verdict;
    Result(verdict,
           if lifted.Some? then Some(Quantize(currency, lifted.value)) else None,
           if verdict == ACCEPT then Some(payTo) else None)
  }

  /** None when the model could not be used. */
  function RunRound(minPrice: real, target: real, payTo: string, rounds: nat, maxRounds: int,
                    offer: real, currency: Currency, answer: ModelAnswer): Option<Result>
  {
    if offer >= target then Some(Result(ACCEPT, Some(Quantize(currency, target)), Some(payTo)))
    else if offer < minPrice && rounds >= maxRounds then Some(Result(REJECT, None, None))
    else
      match answer
      case Failed => None
      case Answered(verdict, price) =>
        Some(FinalizeRound(ParseAnswer(verdict, price, minPrice), minPrice, payTo, offer, currency))
  }

  /** The creator's protection, for one round. */
  ghost predicate WithinTerms(verdict: Verdict, price: Option<real>, minPrice: real, target: real, offer: real,
                              currency: Currency)
  {
    && (verdict == ACCEPT ==>
          && offer >= minPrice
          && price.Some?
          && Quantize(currency, minPrice) <= price.value <= Quantize(currency, Min(offer, target)))
    && (verdict == COUNTER_OFFER ==> price.Some? && Quantize(currency, minPrice) <= price.value)
  }

  lemma RoundStaysWithinTerms(minPrice: real, target: real, payTo: string, rounds: nat, maxRounds: int,
                              offer: real, currency: Currency, answer: ModelAnswer)
    requires minPrice <= target
    ensures var r := RunRound(minPrice, target, payTo, rounds, maxRounds, offer, currency, answer);
            r.Some? ==> WithinTerms(r.value.verdict, r.value.price, minPrice, target, offer, currency)
                        && (r.value.payTo == if r.value.verdict == ACCEPT then Some(payTo) else None)
  {
    var r := RunRound(minPrice, target, payTo, rounds, maxRounds, offer, currency, answer);
    QuantizeMonotone(currency, minPrice, target);
    if offer < target && r.Some? && answer.Answered? {
      var raw := ParseAnswer(answer.verdict, answer.price, minPrice);
      var lifted := if raw.price.None? || raw.price.value < minPrice then minPrice else raw.price.value;
      QuantizeMonotone(currency, minPrice, lifted);
      if lifted <= offer {
        QuantizeMonotone(currency, lifted, offer);
      }
    }
  }

  function Max(x: real, y: real): real { if x >= y then x else y }

  /** The price the model asks, as read: to nine decimals, and the minimum if it asks less or nothing. */
  function AskedPrice(price: Option<real>, minPrice: real): real
  {
    Max(minPrice, QuantizeSol(if price.Some? then Max(minPrice, price.value) else minPrice))
  }

  /** Where the model has a say, its answer stands, for every minimum, offer and answer: accepting or
      countering, the price is the one it asks, lifted to the minimum and rounded to the currency; it is
      accepted exactly when the model accepts at a price not above the offer, and otherwise a counter;
      rejecting, it is the model's own price as rounded. A payee is named on acceptance alone. */
  lemma ModelAnswerStands(minPrice: real, target: real, payTo: string, rounds: nat, maxRounds: int, offer: real,
                          currency: Currency, verdict: Verdict, price: Option<real>)
    requires offer < target && (offer >= minPrice || rounds < maxRounds)
    ensures var result := RunRound(minPrice, target, payTo, rounds, maxRounds, offer, currency, Answered(verdict, price));
            var asked := AskedPrice(price, minPrice);
            && result.Some?
            && (verdict != REJECT ==> result.value.price == Some(Quantize(currency, asked)))
            && (verdict == REJECT ==>
                  result.value.price == if price.Some? then Some(Quantize(currency, QuantizeSol(price.value))) else None)
            && (result.value.verdict == ACCEPT <==> verdict == ACCEPT && asked <= offer)
            && (result.value.verdict == COUNTER_OFFER <==> verdict == COUNTER_OFFER || (verdict == ACCEPT && asked > offer))
            && (result.value.verdict == REJECT <==> verdict == REJECT)
            && (result.value.payTo == if result.value.verdict == ACCEPT then Some(payTo) else None)
  {
    QuantizeMonotoneSol(if price.Some? then price.value else minPrice, minPrice);
    hide Quantize, QuantizeSol;
  }

  lemma QuantizeMonotoneSol(x: real, y: real)
    ensures x <= y ==> QuantizeSol(x) <= QuantizeSol(y)
    ensures y <= x ==> QuantizeSol(y) <= QuantizeSol(x)
  {
    if x <= y {
      QuantizeMonotone(SOL, x, y);
    } else {
      QuantizeMonotone(SOL, y, x);
    }
  }

  /** With a minimum of at most nine decimals, as configured ones have, the price asked is the model's own
      to nine decimals whenever that is not below the minimum, and else the minimum itself. */
  lemma AskedPriceIsTheModelsOwn(price: Option<real>, minPrice: real)
    requires QuantizeSol(minPrice) == minPrice
    ensures AskedPrice(price, minPrice)
         == if price.Some? && price.value >= minPrice then QuantizeSol(price.value) else minPrice
  {
    if price.Some? {
      QuantizeMonotoneSol(price.value, minPrice);
    }
    hide QuantizeSol;
  }

  /** The model has a say exactly when the offer is below the target and either meets the minimum or
      is within the round cap; outside that window the outcome is fixed. */
  lemma ModelDecidesOnlyInBetween(minPrice: real, target: real, payTo: string, rounds: nat, maxRounds: int,
                                  offer: real, currency: Currency, answer: ModelAnswer)
    requires minPrice <= target
    ensures (forall other: ModelAnswer ::
               RunRound(minPrice, target, payTo, rounds, maxRounds, offer, currency, other)
               == RunRound(minPrice, target, payTo, rounds, maxRounds, offer, currency, answer))
            <==> offer >= target || (offer < minPrice && rounds >= maxRounds)
    ensures offer >= target ==>
              RunRound(minPrice, target, payTo, rounds, maxRounds, offer, currency, answer)
              == Some(Result(ACCEPT, Some(Quantize(currency, target)), Some(payTo)))
    ensures offer < minPrice && rounds >= maxRounds ==>
              RunRound(minPrice, target, payTo, rounds, maxRounds, offer, currency, answer)
              == Some(Result(REJECT, None, None))
  {
    var failed := RunRound(minPrice, target, payTo, rounds, maxRounds, offer, currency, Failed);
    var rejected := RunRound(minPrice, target, payTo, rounds, maxRounds, offer, currency, Answered(REJECT, None));
    if offer < target && (offer >= minPrice || rounds < maxRounds) {
      assert failed != rejected;
    }
  }

  // ---------- The session ----------

  datatype Round = Round(offer: real, price: Option<real>, verdict: Verdict)

  datatype SessionStatus = NEGOTIATING | ACCEPTED

  datatype Session = Session(
    currency: Currency,
    initialUsdc: Option<real>,
    initialSol: Option<real>,
    rounds: seq<Round>,
    status: SessionStatus,
    finalUsdc: Option<real>,
    finalSol: Option<real>,
    payAddress: Option<string>)

  datatype Request = Request(terms: Terms, currency: Option<Currency>, offer: Option<real>, usage: string,
                             buyerAgent: string, maxRounds: int, answer: ModelAnswer)

  datatype Response =
    | Refused(httpStatus: int)
    | Replied(verdict: Verdict, price: Option<real>, payTo: Option<string>)

  predicate AllowedUsage(usage: string)
  {
    usage == "commercial" || usage == "non-commercial" || usage == "editorial"
  }

  predicate TermsConfigured(t: Terms)
  {
    t.minPrice.Some? && t.target.Some? && t.minPrice.value > 0.0 && t.target.value >= t.minPrice.value
  }

  /** The checks made before any session is touched: None when they pass. */
  function Precheck(r: Request): Option<int>
  {
    if r.currency.None? || r.offer.None? || r.offer.value <= 0.0 then Some(422)
    else if !TermsConfigured(r.terms) then Some(409)
    else if !AllowedUsage(r.usage) then Some(422)
    else if r.buyerAgent == "" then Some(422)
    else None
  }

  function NewSession(currency: Currency, offer: real): Session
  {
    Session(currency, if currency == USDC then Some(offer) else None, if currency == SOL then Some(offer) else None,
            [], NEGOTIATING, None, None, None)
  }

  /** Log a round on a session, and finalise it if the round accepts. */
  function LogRound(s: Session, offer: real, result: Result): Session
  {
    var usdc := if s.currency == USDC && s.initialUsdc.None? then Some(offer) else s.initialUsdc;
    var sol := if s.currency == SOL && s.initialSol.None? then Some(offer) else s.initialSol;
    var logged := s.(initialUsdc := usdc, initialSol := sol,
                     rounds := s.rounds + [Round(offer, result.price, result.verdict)]);
    if result.verdict != ACCEPT then logged
    else logged.(status := ACCEPTED, payAddress := result.payTo,
                 finalUsdc := if s.currency == USDC then result.price else s.finalUsdc,
                 finalSol := if s.currency == SOL then result.price else s.finalSol)
  }

  /** The round a request leads to on a session, if it leads to one. */
  function RoundOf(s: Session, r: Request): Option<Result>
  {
    if Precheck(r).Some? || s.currency != r.currency.value then None
    else RunRound(r.terms.minPrice.value, r.terms.target.value, r.terms.payTo, |s.rounds|, r.maxRounds,
                  r.offer.value, s.currency, r.answer)
  }

  function Step(s: Session, r: Request): Session
  {
    var result := RoundOf(s, r);
    if result.Some? then LogRound(s, r.offer.value, result.value) else s
  }

  function Respond(s: Session, r: Request): Response
  {
    if Precheck(r).Some? then Refused(Precheck(r).value)
    else if s.currency != r.currency.value then Refused(409)
    else
      var result := RoundOf(s, r);
      if result.None? then Refused(503)
      else Replied(result.value.verdict, result.value.price, result.value.payTo)
  }

  /** The stored session row, updated in place by one request at a time. */
  class SessionRow {
    var currency: Currency
    var initialUsdc: Option<real>
    var initialSol: Option<real>
    var rounds: seq<Round>
    var status: SessionStatus
    var finalUsdc: Option<real>
    var finalSol: Option<real>
    var payAddress: Option<string>

    ghost function View(): Session
      reads this
    {
      Session(currency, initialUsdc, initialSol, rounds, status, finalUsdc, finalSol, payAddress)
    }

    constructor (currency: Currency, offer: real)
      ensures View() == NewSession(currency, offer)
    {
      this.currency := currency;
      initialUsdc := if currency == USDC then Some(offer) else None;
      initialSol := if currency == SOL then Some(offer) else None;
      rounds, status := [], NEGOTIATING;
      finalUsdc, finalSol, payAddress := None, None, None;
    }

    method Negotiate(r: Request) returns (response: Response)
      modifies this
      ensures View() == Step(old(View()), r)
      ensures response == Respond(old(View()), r)
    {
      var refusal := Precheck(r);
      if refusal.Some? {
        return Refused(refusal.value);
      }
      if currency != r.currency.value {
        return Refused(409);
      }
      var offer := r.offer.value;
      var outcome := RunRound(r.terms.minPrice.value, r.terms.target.value, r.terms.payTo, |rounds|, r.maxRounds,
                              offer, currency, r.answer);
      if outcome.None? {
        return Refused(503);
      }
      if currency == USDC && initialUsdc.None? {
        initialUsdc := Some(offer);
      }
      if currency == SOL && initialSol.None? {
        initialSol := Some(offer);
      }
      var result := outcome.value;
      rounds := rounds + [Round(offer, result.price, result.verdict)];
      if result.verdict == ACCEPT {
        status := ACCEPTED;
        if currency == USDC {
          finalUsdc := result.price;
        } else {
          finalSol := result.price;
        }
        payAddress := result.payTo;
      }
      response := Replied(result.verdict, result.price, result.payTo);
    }
  }

  // ---------- Overlapping requests ----------

  /** A session row, with the record of the requests behind its rounds. */
  datatype Logged = Logged(session: Session, log: seq<Request>)

  /** The row a request leaves behind that read the given one. */
  function Served(l: Logged, r: Request): Logged
  {
    if RoundOf(l.session, r).Some? then Logged(Step(l.session, r), l.log + [r]) else l
  }

  /** A request between its read of the row and its write, while the model is being asked. */
  datatype Pending = Pending(read: Logged, request: Request)

  datatype State = State(row: Logged, pending: map<nat, Pending>)

  datatype Event = Begin(worker: nat, request: Request) | Write(worker: nat)

  /** One step; an event that is not enabled changes nothing. The write takes no lock and puts back the
      whole row, as it was read plus one round. A request refused on the way never writes. */
  function StepState(st: State, e: Event): State
  {
    match e
    case Begin(w, r) =>
      if w in st.pending || RoundOf(st.row.session, r).None? then st
      else st.(pending := st.pending[w := Pending(st.row, r)])
    case Write(w) =>
      if w !in st.pending then st
      else State(Served(st.pending[w].read, st.pending[w].request), st.pending - {w})
  }

  function Run(st: State, events: seq<Event>): State
    decreases |events|
  {
    if events == [] then st else StepState(Run(st, events[..|events| - 1]), events[|events| - 1])
  }

  function NewState(currency: Currency, offer: real): State
  {
    State(Logged(NewSession(currency, offer), []), map[])
  }

  /** A request served alone is its read and its write, one after the other. */
  lemma ServedAlone(st: State, r: Request)
    requires st.pending == map[]
    ensures StepState(StepState(st, Begin(0, r)), Write(0)) == State(Served(st.row, r), map[])
  {
    hide Step;
    assert map[0 := Pending(st.row, r)] - {0} == map[];
  }

  // ---------- What holds whatever overlaps ----------

  /** Status and final price, read off the log alone: accepted once any round accepted, at the price
      of the latest round that did. */
  ghost function FoldStatus(rounds: seq<Round>): SessionStatus
  {
    if exists i :: 0 <= i < |rounds| && rounds[i].verdict == ACCEPT then ACCEPTED else NEGOTIATING
  }

  ghost function FoldPrice(rounds: seq<Round>): Option<real>
  {
    if rounds == [] then None
    else if rounds[|rounds| - 1].verdict == ACCEPT then rounds[|rounds| - 1].price
    else FoldPrice(rounds[..|rounds| - 1])
  }

  /** The payee named by the request behind the latest accepting round. */
  ghost function FoldPayee(rounds: seq<Round>, log: seq<Request>): Option<string>
    requires |rounds| == |log|
  {
    if rounds == [] then None
    else
      var n := |rounds| - 1;
      if rounds[n].verdict == ACCEPT then Some(log[n].terms.payTo) else FoldPayee(rounds[..n], log[..n])
  }

  lemma PayeeStep(rounds: seq<Round>, log: seq<Request>, round: Round, r: Request)
    requires |rounds| == |log|
    ensures FoldPayee(rounds + [round], log + [r])
         == if round.verdict == ACCEPT then Some(r.terms.payTo) else FoldPayee(rounds, log)
  {
    assert (rounds + [round])[..|rounds|] == rounds && (log + [r])[..|log|] == log;
  }

  ghost predicate FoldOfLog(s: Session)
  {
    && s.status == FoldStatus(s.rounds)
    && s.finalUsdc == (if s.currency == USDC then FoldPrice(s.rounds) else None)
    && s.finalSol == (if s.currency == SOL then FoldPrice(s.rounds) else None)
  }

  /** A logged round is what the engine decides on the request it answers with that many rounds before it,
      carries the request's offer and respects the terms that request met; a USDC price has six
      decimals. */
  ghost predicate Answers(round: Round, r: Request, currency: Currency, before: nat)
  {
    && Precheck(r).None? && r.currency == Some(currency)
    && round.offer == r.offer.value
    && RunRound(r.terms.minPrice.value, r.terms.target.value, r.terms.payTo, before, r.maxRounds, round.offer, currency,
                r.answer)
       == Some(Result(round.verdict, round.price, if round.verdict == ACCEPT then Some(r.terms.payTo) else None))
    && WithinTerms(round.verdict, round.price, r.terms.minPrice.value, r.terms.target.value, round.offer, currency)
    && (currency == USDC && round.price.Some? ==> IsSixDecimal(round.price.value))
  }

  ghost predicate Sound(l: Logged, currency: Currency)
  {
    var s := l.session;
    && FoldOfLog(s) && s.currency == currency
    && |s.rounds| == |l.log|
    && s.payAddress == FoldPayee(s.rounds, l.log)
    && forall i :: 0 <= i < |l.log| ==> Answers(s.rounds[i], l.log[i], currency, i)
  }

  lemma LogRoundKeepsFold(s: Session, offer: real, result: Result)
    requires FoldOfLog(s)
    ensures FoldOfLog(LogRound(s, offer, result))
  {
    var t := LogRound(s, offer, result);
    var n := |s.rounds|;
    assert t.rounds[..n] == s.rounds;
    assert t.rounds[n].verdict == result.verdict;
    if s.status == ACCEPTED {
      var i :| 0 <= i < n && s.rounds[i].verdict == ACCEPT;
      assert t.rounds[i].verdict == ACCEPT;
    }
  }

  lemma QuantizedRoundPrice(s: Session, r: Request)
    requires s.currency == USDC && RoundOf(s, r).Some?
    ensures var price := RoundOf(s, r).value.price; price.Some? ==> IsSixDecimal(price.value)
  {
    var minPrice, target := r.terms.minPrice.value, r.terms.target.value;
    QuantizeUsdcIsNearest(target);
    if r.offer.value < target && r.answer.Answered? {
      var raw := ParseAnswer(r.answer.verdict, r.answer.price, minPrice);
      QuantizeUsdcIsNearest(minPrice);
      if raw.price.Some? {
        QuantizeUsdcIsNearest(raw.price.value);
      }
    }
  }

  lemma ServedKeepsSound(l: Logged, r: Request, currency: Currency)
    requires Sound(l, currency)
    ensures Sound(Served(l, r), currency)
  {
    hide RunRound, WithinTerms, FoldOfLog, FoldPayee;
    var s, result := l.session, RoundOf(l.session, r);
    if result.Some? {
      LogRoundKeepsFold(s, r.offer.value, result.value);
      RoundStaysWithinTerms(r.terms.minPrice.value, r.terms.target.value, r.terms.payTo, |s.rounds|, r.maxRounds,
                            r.offer.value, s.currency, r.answer);
      if currency == USDC {
        QuantizedRoundPrice(s, r);
      }
      PayeeStep(s.rounds, l.log, Round(r.offer.value, result.value.price, result.value.verdict), r);
    }
  }

  /** The requests begun in a run. */
  ghost predicate Begun(events: seq<Event>, r: Request)
  {
    exists i :: 0 <= i < |events| && events[i].Begin? && events[i].request == r
  }

  ghost predicate AllSound(st: State, currency: Currency, events: seq<Event>)
  {
    && Sound(st.row, currency) && (forall r :: r in st.row.log ==> Begun(events, r))
    && forall w :: w in st.pending ==>
         && Sound(st.pending[w].read, currency)
         && (forall r :: r in st.pending[w].read.log ==> Begun(events, r))
         && Begun(events, st.pending[w].request)
  }

  lemma BegunLasts(events: seq<Event>, e: Event, r: Request)
    requires Begun(events, r) || e == Begin(e.worker, r)
    ensures Begun(events + [e], r)
  {
    if Begun(events, r) {
      var i :| 0 <= i < |events| && events[i].Begin? && events[i].request == r;
      assert (events + [e])[i] == events[i];
    } else {
      assert (events + [e])[|events|] == e;
    }
  }

  lemma StepKeepsAllSound(st: State, currency: Currency, events: seq<Event>, e: Event)
    requires AllSound(st, currency, events)
    ensures AllSound(StepState(st, e), currency, events + [e])
  {
    hide Sound;
    forall r | Begun(events, r)
      ensures Begun(events + [e], r)
    {
      BegunLasts(events, e, r);
    }
    if e.Begin? {
      BegunLasts(events, e, e.request);
    } else if e.worker in st.pending {
      ServedKeepsSound(st.pending[e.worker].read, st.pending[e.worker].request, currency);
    }
    hide Begun, Step, RoundOf;
  }

  lemma {:induction false} RunStaysSound(currency: Currency, offer: real, events: seq<Event>)
    ensures AllSound(Run(NewState(currency, offer), events), currency, events)
    decreases |events|
  {
    if events == [] {
      NewStateIsSound(currency, offer);
    } else {
      hide AllSound, StepState, NewState;
      var n := |events| - 1;
      RunStaysSound(currency, offer, events[..n]);
      StepKeepsAllSound(Run(NewState(currency, offer), events[..n]), currency, events[..n], events[n]);
      assert events[..n] + [events[n]] == events;
    }
  }

  lemma NewStateIsSound(currency: Currency, offer: real)
    ensures AllSound(NewState(currency, offer), currency, [])
  {
  }

  /** Whatever the offers, the terms and the model's answers, and however requests overlap: status,
      final price and payee are the fold of the log, and each logged round is the engine's answer to a
      request of the run, given the rounds logged before it, within the terms that request met. */
  lemma SessionIsFoldOfItsLog(currency: Currency, offer: real, events: seq<Event>)
    ensures var row := Run(NewState(currency, offer), events).row;
            var s := row.session;
            && FoldOfLog(s) && s.currency == currency
            && |s.rounds| == |row.log|
            && s.payAddress == FoldPayee(s.rounds, row.log)
            && forall i :: 0 <= i < |row.log| ==>
                 Answers(s.rounds[i], row.log[i], currency, i) && Begun(events, row.log[i])
  {
    RunStaysSound(currency, offer, events);
    hide Run, FoldOfLog, Answers, Begun, FoldPayee;
  }

  lemma {:induction false} FoldPriceComesFromAnAccept(rounds: seq<Round>, log: seq<Request>) returns (k: nat)
    requires FoldStatus(rounds) == ACCEPTED && |rounds| == |log|
    ensures k < |rounds| && rounds[k].verdict == ACCEPT && FoldPrice(rounds) == rounds[k].price
    ensures FoldPayee(rounds, log) == Some(log[k].terms.payTo)
    ensures forall j :: k < j < |rounds| ==> rounds[j].verdict != ACCEPT
  {
    k := |rounds| - 1;
    if rounds[k].verdict != ACCEPT {
      var i :| 0 <= i < |rounds| && rounds[i].verdict == ACCEPT;
      assert rounds[..k][i].verdict == ACCEPT;
      k := FoldPriceComesFromAnAccept(rounds[..k], log[..k]);
    }
  }

  /** The offer a session was opened with stays on record, in its currency's field and no other. */
  lemma {:induction false} OpeningOfferStays(currency: Currency, offer: real, events: seq<Event>)
    ensures var st := Run(NewState(currency, offer), events);
            var usdc := if currency == USDC then Some(offer) else None;
            var sol := if currency == SOL then Some(offer) else None;
            && st.row.session.initialUsdc == usdc && st.row.session.initialSol == sol
            && st.row.session.currency == currency
            && forall w :: w in st.pending ==>
                 && st.pending[w].read.session.initialUsdc == usdc && st.pending[w].read.session.initialSol == sol
                 && st.pending[w].read.session.currency == currency
    decreases |events|
  {
    if events != [] {
      OpeningOfferStays(currency, offer, events[..|events| - 1]);
      hide RunRound, Precheck;
    }
  }

  /** Exactly when a request is answered with a verdict, and otherwise which refusal it gets. */
  lemma RequestIsAnsweredExactlyWhen(s: Session, r: Request)
    ensures var wellFormed := && r.currency.Some? && r.offer.Some? && r.offer.value > 0.0
                              && r.usage in {"commercial", "non-commercial", "editorial"} && r.buyerAgent != "";
            var priced := r.terms.minPrice.Some? && r.terms.target.Some?
                          && 0.0 < r.terms.minPrice.value <= r.terms.target.value;
            var answer := Respond(s, r);
            && (answer.Replied? <==>
                && wellFormed && priced && r.currency == Some(s.currency)
                && (|| r.offer.value >= r.terms.target.value
                    || (r.offer.value < r.terms.minPrice.value && |s.rounds| >= r.maxRounds)
                    || r.answer.Answered?))
            && (answer == Refused(503) <==>
                && wellFormed && priced && r.currency == Some(s.currency) && r.answer.Failed?
                && r.offer.value < r.terms.target.value
                && (r.offer.value >= r.terms.minPrice.value || |s.rounds| < r.maxRounds))
            && (answer.Refused? ==> answer.httpStatus in {409, 422, 503} && Step(s, r) == s)
            && (wellFormed && !priced ==> answer == Refused(409))
            && (priced && !wellFormed ==> answer == Refused(422))
            && (wellFormed && priced && r.currency != Some(s.currency) ==> answer == Refused(409))
  {
    hide Quantize, QuantizeSol;
  }

  /** The price a session ends up with was agreed within some request's own terms, overlaps or not: it
      covers that request's rounded minimum, exceeds neither its rounded offer nor its rounded
      target, and is payable to the payee of those terms. */
  lemma FinalPriceWasAgreed(offer: real, events: seq<Event>) returns (r: Request)
    requires Run(NewState(USDC, offer), events).row.session.status == ACCEPTED
    ensures Begun(events, r) && Precheck(r).None? && r.offer.value >= r.terms.minPrice.value
    ensures var final := Run(NewState(USDC, offer), events).row.session.finalUsdc;
            && final.Some?
            && QuantizeUsdc(r.terms.minPrice.value) <= final.value
               <= QuantizeUsdc(Min(r.offer.value, r.terms.target.value))
            && IsSixDecimal(final.value)
    ensures Run(NewState(USDC, offer), events).row.session.payAddress == Some(r.terms.payTo)
  {
    var row := Run(NewState(USDC, offer), events).row;
    SessionIsFoldOfItsLog(USDC, offer, events);
    var k := FoldPriceComesFromAnAccept(row.session.rounds, row.log);
    r := row.log[k];
    assert Answers(row.session.rounds[k], r, USDC, k);
  }

  // ---------- What overlapping requests can break ----------

  /** What a request under way is about to write. */
  function ToWrite(p: Pending): Session { Served(p.read, p.request).session }

  lemma {:induction false} KeptByAllWrites(st: State, events: seq<Event>, prefix: seq<Round>)
    requires prefix <= st.row.session.rounds && forall w :: w in st.pending ==> prefix <= ToWrite(st.pending[w]).rounds
    ensures var end := Run(st, events);
            && prefix <= end.row.session.rounds
            && forall w :: w in end.pending ==> prefix <= ToWrite(end.pending[w]).rounds
    decreases |events|
  {
    if events != [] {
      KeptByAllWrites(st, events[..|events| - 1], prefix);
      hide RunRound, Precheck;
    }
  }

  /** The log is append-only from here on - whatever requests follow - exactly when every request
      under way read it as it stands, or a later one, or is about to log its very last round again. */
  lemma LogIsKeptExactlyWhenReadsAreCurrent(st: State)
    ensures (forall events: seq<Event> :: st.row.session.rounds <= Run(st, events).row.session.rounds)
            <==> forall w :: w in st.pending ==>
                   || st.row.session.rounds <= st.pending[w].read.session.rounds
                   || st.row.session.rounds == ToWrite(st.pending[w]).rounds
  {
    var log := st.row.session.rounds;
    if w :| w in st.pending && !(log <= ToWrite(st.pending[w]).rounds) {
      OneStep(st, Write(w));
      assert Run(st, [Write(w)]).row.session == ToWrite(st.pending[w]);
    } else {
      forall events: seq<Event>
        ensures log <= Run(st, events).row.session.rounds
      {
        KeptByAllWrites(st, events, log);
      }
    }
    forall w | w in st.pending
      ensures log <= ToWrite(st.pending[w]).rounds
              <==> log <= st.pending[w].read.session.rounds || log == ToWrite(st.pending[w]).rounds
    {
      PrefixOfOneMore(log, st.pending[w].read.session.rounds, ToWrite(st.pending[w]).rounds);
    }
  }

  lemma PrefixOfOneMore(log: seq<Round>, read: seq<Round>, written: seq<Round>)
    requires read <= written && |written| <= |read| + 1
    ensures log <= written <==> log <= read || log == written
  {
    if log <= written && |log| == |written| {
      assert log == written;
    }
  }

  lemma OneStep(st: State, e: Event)
    ensures Run(st, [e]) == StepState(st, e)
  {
    assert [e][..0] == [];
  }

  lemma {:induction false} AcceptedByAllWrites(st: State, events: seq<Event>)
    requires st.row.session.status == ACCEPTED && forall w :: w in st.pending ==> ToWrite(st.pending[w]).status == ACCEPTED
    ensures var end := Run(st, events);
            && end.row.session.status == ACCEPTED
            && forall w :: w in end.pending ==> ToWrite(end.pending[w]).status == ACCEPTED
    decreases |events|
  {
    if events != [] {
      AcceptedByAllWrites(st, events[..|events| - 1]);
      hide RunRound, Precheck;
    }
  }

  /** The request read an accepted session, or its own round accepts. */
  predicate WritesAccepted(p: Pending)
  {
    p.read.session.status == ACCEPTED
    || (RoundOf(p.read.session, p.request).Some? && RoundOf(p.read.session, p.request).value.verdict == ACCEPT)
  }

  /** ACCEPTED is final - whatever requests follow - exactly when no request is under way that read the
      session before it was accepted and does not accept itself. */
  lemma AcceptanceIsFinalExactlyWithoutAStaleRead(st: State)
    requires st.row.session.status == ACCEPTED
    ensures (forall events: seq<Event> :: Run(st, events).row.session.status == ACCEPTED)
            <==> forall w :: w in st.pending ==> WritesAccepted(st.pending[w])
  {
    assert forall w :: w in st.pending ==> (WritesAccepted(st.pending[w]) <==> ToWrite(st.pending[w]).status == ACCEPTED);
    hide WritesAccepted, ToWrite;
    if w :| w in st.pending && ToWrite(st.pending[w]).status != ACCEPTED {
      WriteWrites(st, w);
      OneStep(st, Write(w));
    } else {
      forall events: seq<Event>
        ensures Run(st, events).row.session.status == ACCEPTED
      {
        AcceptedByAllWrites(st, events);
      }
    }
  }

  lemma WriteWrites(st: State, w: nat)
    requires w in st.pending
    ensures StepState(st, Write(w)).row.session == ToWrite(st.pending[w])
  {
  }

  /** The log the last request to write in a run left behind. */
  ghost function LastWritten(st: State, events: seq<Event>): Option<seq<Round>>
    decreases |events|
  {
    if events == [] then None
    else
      var front, e := events[..|events| - 1], events[|events| - 1];
      var mid := Run(st, front);
      if e.Write? && e.worker in mid.pending then Some(ToWrite(mid.pending[e.worker]).rounds) else LastWritten(st, front)
  }

  lemma {:induction false} OnlyWritesChangeTheLog(st: State, events: seq<Event>)
    ensures Run(st, events).row.session.rounds
         == if LastWritten(st, events).Some? then LastWritten(st, events).value else st.row.session.rounds
    ensures LastWritten(st, events).None? ==> Run(st, events).row == st.row
    decreases |events|
  {
    hide Step, RoundOf;
    if events != [] {
      OnlyWritesChangeTheLog(st, events[..|events| - 1]);
    }
  }

  lemma {:induction false} PendingWaits(st: State, events: seq<Event>, w: nat)
    requires w in st.pending && forall e :: e in events ==> e.worker != w
    ensures w in Run(st, events).pending && Run(st, events).pending[w] == st.pending[w]
    decreases |events|
  {
    hide Served, RoundOf;
    if events != [] {
      assert events[|events| - 1] in events;
      PendingWaits(st, events[..|events| - 1], w);
    }
  }

  /** One request among others: it reads the session, others go on, it writes. Its write adds its round
      to the log the others left if and only if the last of them to write - if any did - left the log
      as it was read; otherwise what they logged is gone. If none wrote, the request is served as if
      alone. */
  lemma RoundIsAppendedExactlyWhen(st: State, w: nat, r: Request, between: seq<Event>)
    requires w !in st.pending && RoundOf(st.row.session, r).Some? && forall e :: e in between ==> e.worker != w
    ensures var begun := StepState(st, Begin(w, r));
            var mid := Run(begun, between);
            var end := StepState(mid, Write(w));
            && (|end.row.session.rounds| == |mid.row.session.rounds| + 1 && mid.row.session.rounds <= end.row.session.rounds
                <==> LastWritten(begun, between) in {None, Some(st.row.session.rounds)})
            && (LastWritten(begun, between).None? ==> end.row == Served(mid.row, r))
  {
    var begun := StepState(st, Begin(w, r));
    PendingWaits(begun, between, w);
    OnlyWritesChangeTheLog(begun, between);
    hide RoundOf, LastWritten, Run;
    var mid := Run(begun, between);
    var end := StepState(mid, Write(w));
    var read, now := st.row.session.rounds, mid.row.session.rounds;
    assert |end.row.session.rounds| == |read| + 1 && read <= end.row.session.rounds;
    if |now| == |read| && now <= end.row.session.rounds {
      assert now == end.row.session.rounds[..|read|] == read;
    }
  }

  const TERMS := Terms(Some(1.0), Some(2.0), "seller")
  const BARGAINING := Request(TERMS, Some(USDC), Some(1.5), "commercial", "agent", 5, Answered(COUNTER_OFFER, Some(1.8)))
  const TAKING := Request(TERMS, Some(USDC), Some(2.0), "commercial", "agent", 5, Failed)

  /** Two requests of one buyer overlap: the offer at the list price is accepted and answered so, then
      the bargaining one, which read the session before, writes. The acceptance is gone, from the
      status and from the log. */
  lemma StaleWriteTakesAnAcceptanceBack()
    ensures var st := NewState(USDC, 1.5);
            var accepted := Run(st, [Begin(1, TAKING), Begin(2, BARGAINING), Write(1)]).row.session;
            var end := Run(st, [Begin(1, TAKING), Begin(2, BARGAINING), Write(1), Write(2)]).row.session;
            && accepted.status == ACCEPTED && |accepted.rounds| == 1 && accepted.rounds[0].verdict == ACCEPT
            && end.status == NEGOTIATING && |end.rounds| == 1 && end.rounds[0].verdict == COUNTER_OFFER
  {
    var st := NewState(USDC, 1.5);
    var events := [Begin(1, TAKING), Begin(2, BARGAINING), Write(1), Write(2)];
    assert events[..3] == [Begin(1, TAKING), Begin(2, BARGAINING), Write(1)];
    assert events[..3][..2] == [Begin(1, TAKING), Begin(2, BARGAINING)];
    assert events[..3][..2][..1] == [Begin(1, TAKING)];
    OneStep(st, Begin(1, TAKING));
    var begun := StepState(StepState(st, Begin(1, TAKING)), Begin(2, BARGAINING));
    assert begun.pending == map[1 := Pending(st.row, TAKING), 2 := Pending(st.row, BARGAINING)];
    assert Run(st, events[..3][..2]) == begun;
    assert Run(st, events[..3]) == StepState(begun, Write(1));
    assert Run(st, events) == StepState(StepState(begun, Write(1)), Write(2));
  }

  /** In a run every request that writes finds the session as it read it. */
  ghost predicate Undisturbed(st: State, events: seq<Event>)
    decreases |events|
  {
    events == []
    || (var front, e := events[..|events| - 1], events[|events| - 1];
        && Undisturbed(st, front)
        && (e.Write? && e.worker in Run(st, front).pending ==>
              Run(st, front).row == Run(st, front).pending[e.worker].read))
  }

  /** The requests that write in a run, in the order of their writes. */
  ghost function Writers(st: State, events: seq<Event>): seq<Request>
    decreases |events|
  {
    if events == [] then []
    else
      var front, e := events[..|events| - 1], events[|events| - 1];
      var mid := Run(st, front);
      Writers(st, front) + if e.Write? && e.worker in mid.pending then [mid.pending[e.worker].request] else []
  }

  function ServedInTurn(l: Logged, requests: seq<Request>): Logged
  {
    if requests == [] then l else Served(ServedInTurn(l, requests[..|requests| - 1]), requests[|requests| - 1])
  }

  /** Such a run ends as if the requests had been served one at a time in the order of their writes,
      and on the way nothing logged is lost and no acceptance is taken back. */
  lemma {:induction false} UndisturbedRunsAreSerial(st: State, events: seq<Event>)
    requires Undisturbed(st, events)
    ensures Run(st, events).row == ServedInTurn(st.row, Writers(st, events))
    ensures st.row.session.rounds <= Run(st, events).row.session.rounds
    ensures st.row.session.status == ACCEPTED ==> Run(st, events).row.session.status == ACCEPTED
    decreases |events|
  {
    if events != [] {
      var front, e := events[..|events| - 1], events[|events| - 1];
      UndisturbedRunsAreSerial(st, front);
      var mid := Run(st, front);
      hide Served, RoundOf, Step;
      if e.Write? && e.worker in mid.pending {
        ServedGrows(mid.row, mid.pending[e.worker].request);
        assert Writers(st, events)[..|Writers(st, events)| - 1] == Writers(st, front);
      } else {
        assert Writers(st, events) == Writers(st, front);
      }
    }
  }

  lemma ServedGrows(l: Logged, r: Request)
    ensures l.session.rounds <= Served(l, r).session.rounds
    ensures l.session.status == ACCEPTED ==> Served(l, r).session.status == ACCEPTED
  {
    hide RunRound, Precheck;
  }
}
