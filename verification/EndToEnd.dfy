/** One purchase from negotiation to licence, across the modules. */
module EndToEnd {
  import opened Options
  import opened Money
  import opened Chain
  import opened Payment
  import opened Settlement
  import opened SettlementSafety
  import Negotiation

  /** Whatever was offered, whatever the model said and however requests overlapped: a session that
      ended accepted at a positive price has a price the server's conversion never refuses, and it is
      the same integer for the chain check and for the buyer's cap. */
  lemma AcceptedPriceIsOneInteger(offer: real, events: seq<Negotiation.Event>, policy: Policy) returns (k: int)
    requires Negotiation.Run(Negotiation.NewState(USDC, offer), events).row.session.status == Negotiation.ACCEPTED
    ensures var final := Negotiation.Run(Negotiation.NewState(USDC, offer), events).row.session.finalUsdc;
            && final.Some?
            && (final.value > 0.0 ==>
                  && k > 0 && k as real / 1000000.0 == final.value
                  && ToAtomicUnits(final.value) == Some(k) && UsdcToMinUnits(final.value) == Some(k)
                  && (VerifyAmount(policy, final.value) == Some(k) <==> policy.enabled && k <= policy.maxAtomicAmount))
  {
    var r := Negotiation.FinalPriceWasAgreed(offer, events);
    var final := Negotiation.Run(Negotiation.NewState(USDC, offer), events).row.session.finalUsdc.value;
    k := 0;
    if final > 0.0 {
      k := OneIntegerForEveryPrice(final, policy);
    }
  }

  function AfterCreate(db: Db, c: CreateRequest): Db { CreateIntent(db, c).0 }

  /** The usage agreed in a session; "commercial" for a purchase at the list price. */
  function AgreedUsage(source: PriceSource): string
  {
    match source
    case AcceptedSession(_, usage) => usage
    case _ => "commercial"
  }

  /** A created intent asks for the stated price in micro-USDC, and the reply holds the transaction the
      server built for it. */
  lemma CreatedIntentAsksThePrice(db: Db, c: CreateRequest)
    requires CreateIntent(db, c).1.Created?
    ensures Sponsored(db.mint, c).Built? && CreateIntent(db, c).1 == Created(OfferFor(db.mint, c))
    ensures var after := AfterCreate(db, c);
            && c.id in after.intents && after.intents[c.id].status == CREATED && after.intents[c.id].sig.None?
            && UnitsOf(c.source).Some? && after.intents[c.id].terms.amount == UnitsOf(c.source).value
            && after.intents[c.id].terms.expiresAt == db.now + c.lifetime
            && after.intents[c.id].terms.asset == c.asset && after.intents[c.id].terms.buyerUser == c.buyerUser
            && after.intents[c.id].terms.channel == c.channel && after.intents[c.id].terms.buyer == c.buyer
            && after.intents[c.id].terms.recipient == c.recipient && after.intents[c.id].terms.memo == MemoOf(c.id)
            && after.intents[c.id].terms.usage == AgreedUsage(c.source)
            && after.licences == db.licences && after.mint == db.mint && after.now == db.now
            && (forall id :: id in after.intents && id != c.id ==>
                  id in db.intents && after.intents[id].sig == db.intents[id].sig)
  {
    hide Utf8Length, IsSixDecimal, MicroUsdc, ServerInstructions;
  }

  /** From the server's reply to the licence: the buyer signs the transaction the server sent exactly
      when its policy is on, allows the mint and covers the price, and the sponsor is another wallet.
      Once that transaction is final under a signature nobody has used, the first request that
      presents it before the expiry settles the intent, with a licence to that buyer at
      exactly the agreed price and for the agreed usage. */
  lemma AgreedPriceIsPaidAndLicensed(db: Db, c: CreateRequest, policy: Policy, sig: Sig, buyerHad: int, recipientHad: int,
                                     effects: Effects) returns (k: int)
    requires DbInv(db) && CreateIntent(db, c).1.Created? && c.lifetime > 0
    requires c.buyer != c.recipient && c.recipient != "" && db.mint != ""
    requires 0 < |sig| <= 140 && sig !in db.licences && !effects.raises
    ensures k > 0 && k as real / 1000000.0 == PriceOf(c.source)
    ensures var offer := CreateIntent(db, c).1.offer;
            && (SignIntent(policy, c.buyer, offer).Some?
                <==> policy.enabled && db.mint == policy.mint && k <= policy.maxAtomicAmount && c.sponsor != c.buyer)
            && (SignIntent(policy, c.buyer, offer).Some? ==>
                  var tx := Executed(SignIntent(policy, c.buyer, offer).value.message, buyerHad, recipientHad);
                  var created := AfterCreate(db, c);
                  var paid := created.(ledger := created.ledger[sig := tx]);
                  var request := SettleRequest(c.asset, c.buyerUser, c.channel, c.id, sig);
                  var (settled, reply) := ServeSettle(paid, request, true, effects);
                  && c.id in settled.intents && settled.intents[c.id].status == SETTLED
                  && sig in settled.licences
                  && settled.licences[sig]
                     == Licence(c.asset, c.buyerUser, c.buyer, k, "USDC", AgreedUsage(c.source), effects.token,
                                db.now + effects.tokenLifetime, effects.certificate)
                  && reply == Paid(c.id, sig, k, effects.token, db.now + effects.tokenLifetime))
  {
    CreatedIntentAsksThePrice(db, c);
    k := UnitsArePrice(PriceOf(c.source), policy);
    var offer := OfferFor(db.mint, c);
    OfferStatesTheTerms(db.mint, c);
    BuiltOffersAreSignedWithinPolicy(policy, c.sponsor, c.buyer, c.recipient, db.mint, PriceOf(c.source), MemoOf(c.id),
                                     c.blockhash);
    if SignIntent(policy, c.buyer, offer).Some? {
      SignedOfferSettles(policy, c.buyer, offer, buyerHad, recipientHad);
      var tx := Executed(SignIntent(policy, c.buyer, offer).value.message, buyerHad, recipientHad);
      var created := AfterCreate(db, c);
      var paid := created.(ledger := created.ledger[sig := tx]);
      hide SignIntent, Executed, VerifyUsdcPayment, CreateIntent, AfterCreate, OfferFor, Sponsored, BuildTransaction;
      UnusedSignatureIsUnbound(db, created, c.id, sig);
      SettleConfirmed(paid, c.id, sig, effects);
    }
  }

  lemma OfferStatesTheTerms(mint: Mint, c: CreateRequest)
    requires Sponsored(mint, c).Built?
    ensures Sponsored(mint, c) == BuildTransaction(c.sponsor, c.buyer, c.recipient, mint, PriceOf(c.source), MemoOf(c.id),
                                                   c.blockhash)
    ensures OfferFor(mint, c) == OfferOf(Sponsored(mint, c).transaction, c.sponsor, c.buyer, c.recipient, mint,
                                         PriceOf(c.source), MemoOf(c.id))
    ensures var offer := OfferFor(mint, c);
            && offer.amount == PriceOf(c.source) && offer.recipient == c.recipient
            && offer.mint == mint && offer.memo == MemoOf(c.id)
  {
  }

  lemma UnitsArePrice(price: real, policy: Policy) returns (k: int)
    requires ToAtomicUnits(price).Some?
    ensures ToAtomicUnits(price) == Some(k) && UsdcToMinUnits(price) == Some(k) && k > 0 && k as real / 1000000.0 == price
  {
    k := OneIntegerForEveryPrice(price, policy);
  }

  lemma UnusedSignatureIsUnbound(db: Db, created: Db, id: IntentId, sig: Sig)
    requires DbInv(db) && sig !in db.licences
    requires forall i :: i in created.intents && i != id ==> i in db.intents && created.intents[i].sig == db.intents[i].sig
    ensures !BoundElsewhere(created, id, sig)
  {
    forall i | i in created.intents && i != id
      ensures created.intents[i].sig != Some(sig)
    {
      assert IntentSound(db, i);
    }
  }

  lemma SettleConfirmed(db: Db, id: IntentId, sig: Sig, effects: Effects)
    requires id in db.intents && db.intents[id].status == CREATED && db.intents[id].sig.None?
    requires db.now < db.intents[id].terms.expiresAt && 0 < |sig| <= 140 && sig !in db.licences && !effects.raises
    requires Confirms(db, sig, db.intents[id].terms) && !BoundElsewhere(db, id, sig)
    ensures var t := db.intents[id].terms;
            var request := SettleRequest(t.asset, t.buyerUser, t.channel, id, sig);
            var (settled, reply) := ServeSettle(db, request, true, effects);
            && id in settled.intents && settled.intents[id].status == SETTLED
            && sig in settled.licences
            && settled.licences[sig] == Licence(t.asset, t.buyerUser, t.buyer, t.amount, "USDC", t.usage, effects.token,
                                                db.now + effects.tokenLifetime, effects.certificate)
            && reply == Paid(id, sig, t.amount, effects.token, db.now + effects.tokenLifetime)
  {
    hide VerifyUsdcPayment;
  }
}
