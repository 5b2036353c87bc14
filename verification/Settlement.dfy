/** Sponsored USDC payments: intents, the licences they lead to, and the requests that move them, both
    as the steps of concurrent requests and as whole requests on a stored table. */
module Settlement {
  import opened Options
  import opened Chain
  import Payment

  type IntentId = string
  type AssetId = string
  type UserId = string
  type Sig = string

  datatype Status = CREATED | SUBMITTED | SETTLED | EXPIRED
  datatype Channel = BROWSER | AGENT

  /** What an intent fixes when it is created; amounts are micro-USDC. */
  datatype PaymentTerms = PaymentTerms(
    asset: AssetId, buyerUser: Option<UserId>, channel: Channel, buyer: Wallet, recipient: Wallet,
    amount: int, usage: string, memo: string, expiresAt: int)

  datatype Intent = Intent(terms: PaymentTerms, status: Status, sig: Option<Sig>, settledAt: Option<int>)

  datatype Licence = Licence(
    asset: AssetId, buyerUser: Option<UserId>, buyer: Wallet, price: int, currency: string, usage: string,
    token: string, downloadUntil: int, certificate: Option<string>)

  /** The shared state. `ledger` holds the finalized transactions; `issuedFor` and `grantedElsewhere`
      record which path put a licence in the table, and no code reads them. */
  datatype Db = Db(
    now: int, mint: Mint,
    intents: map<IntentId, Intent>,
    licences: map<Sig, Licence>,
    ledger: map<Sig, Transaction>,
    issuedFor: map<Sig, IntentId>,
    grantedElsewhere: set<Sig>)

  datatype Reply =
    | Refused(httpStatus: int)
    | Created(offer: Payment.IntentOffer)
    | Pending
    | Paid(id: IntentId, sig: Sig, amount: int, token: string, downloadUntil: int)

  // ---------- Creating an intent ----------

  datatype PriceSource = ListPrice(target: real) | AcceptedSession(price: real, sessionUsage: string) | UnknownSession

  datatype CreateRequest = CreateRequest(
    id: IntentId, asset: AssetId, buyerUser: Option<UserId>, channel: Channel, buyer: Wallet,
    assetListed: bool, assetPriced: bool, source: PriceSource,
    recipient: Wallet, recipientValid: bool, sponsorUp: bool, sponsor: Wallet, blockhash: string, lifetime: nat)

  /** Atomic bulk update: this buyer's overdue untouched intents for the asset become EXPIRED. */
  function ExpireOverdue(db: Db, c: CreateRequest): Db
  {
    db.(intents := map id | id in db.intents ::
          var it := db.intents[id];
          if it.status == CREATED && it.terms.buyerUser == c.buyerUser && it.terms.asset == c.asset
             && it.terms.buyer == c.buyer && it.terms.expiresAt <= db.now
          then it.(status := EXPIRED) else it)
  }

  function PriceOf(source: PriceSource): real
  {
    match source
    case ListPrice(target) => target
    case AcceptedSession(price, _) => price
    case UnknownSession => 0.0
  }

  function UnitsOf(source: PriceSource): Option<int>
  {
    Payment.ToAtomicUnits(PriceOf(source))
  }

  function MemoOf(id: IntentId): string { Payment.MEMO_PREFIX + id }

  /** The sponsor's half-signed transaction for a request. */
  function Sponsored(mint: Mint, c: CreateRequest): Payment.Built
  {
    if c.sponsorUp
    then Payment.BuildTransaction(c.sponsor, c.buyer, c.recipient, mint, PriceOf(c.source), MemoOf(c.id), c.blockhash)
    else Payment.NotBuilt(Payment.AmountInvalid)
  }

  function OfferFor(mint: Mint, c: CreateRequest): Payment.IntentOffer
    requires Sponsored(mint, c).Built?
  {
    Payment.OfferOf(Sponsored(mint, c).transaction, c.sponsor, c.buyer, c.recipient, mint, PriceOf(c.source), MemoOf(c.id))
  }

  function Opened(db: Db, c: CreateRequest, units: int): Db
  {
    var usage := if c.source.AcceptedSession? then c.source.sessionUsage else "commercial";
    var terms := PaymentTerms(c.asset, c.buyerUser, c.channel, c.buyer, c.recipient, units, usage,
                              MemoOf(c.id), db.now + c.lifetime);
    db.(intents := db.intents[c.id := Intent(terms, CREATED, None, None)])
  }

  function CreateIntent(db: Db, c: CreateRequest): (Db, Reply)
  {
    if !c.assetListed then (db, Refused(404))
    else if !c.assetPriced || c.source.UnknownSession? then (db, Refused(409))
    else if !c.recipientValid then (db, Refused(503))
    else
      var swept := ExpireOverdue(db, c);
      if Sponsored(db.mint, c).NotBuilt? then (swept, Refused(503))
      else if c.id in db.intents then (swept, Refused(500))
      else (Opened(swept, c, UnitsOf(c.source).value), Created(OfferFor(db.mint, c)))
  }

  // ---------- Settling an intent ----------

  datatype SettleRequest = SettleRequest(asset: AssetId, buyerUser: Option<UserId>, channel: Channel, id: IntentId, sig: Sig)

  /** What the unlocked reads decide. */
  datatype Gate = Finished(reply: Reply) | Overdue | Proceed(terms: PaymentTerms)

  function PaidReply(db: Db, id: IntentId): Reply
    requires id in db.intents
  {
    var it := db.intents[id];
    if it.sig.None? || it.sig.value !in db.licences then Refused(503)
    else
      var licence := db.licences[it.sig.value];
      Paid(id, it.sig.value, it.terms.amount, licence.token, licence.downloadUntil)
  }

  predicate BoundElsewhere(db: Db, id: IntentId, sig: Sig)
  {
    exists other :: other in db.intents && other != id && db.intents[other].sig == Some(sig)
  }

  function PreCheck(db: Db, r: SettleRequest): Gate
  {
    if r.sig == "" || |r.sig| > 140 then Finished(Refused(422))
    else if r.id !in db.intents then Finished(Refused(404))
    else
      var it := db.intents[r.id];
      if it.terms.asset != r.asset || it.terms.buyerUser != r.buyerUser || it.terms.channel != r.channel
      then Finished(Refused(404))
      else if it.status == SETTLED then Finished(PaidReply(db, r.id))
      else if it.terms.expiresAt <= db.now then Overdue
      else if it.sig.Some? && it.sig.value != r.sig then Finished(Refused(409))
      else if BoundElsewhere(db, r.id, r.sig) then Finished(Refused(409))
      else Proceed(it.terms)
  }

  /** Write EXPIRED over whatever status the row has by now. */
  function MarkExpired(db: Db, id: IntentId): Db
    requires id in db.intents
  {
    db.(intents := db.intents[id := db.intents[id].(status := EXPIRED)])
  }

  /** The chain was asked about sig on behalf of the terms and confirmed the payment. */
  predicate Confirms(db: Db, sig: Sig, t: PaymentTerms)
  {
    sig in db.ledger && VerifyUsdcPayment(db.ledger[sig], t.recipient, t.amount, db.mint, Some(t.memo)) == Some(t.buyer)
  }

  /** None if the payment is confirmed, else the reply. */
  function ChainCheck(db: Db, sig: Sig, t: PaymentTerms, chainUp: bool): Option<Reply>
  {
    if !chainUp then Some(Refused(503))
    else if sig !in db.ledger then Some(Pending)
    else if !Confirms(db, sig, t) then Some(Refused(422))
    else None
  }

  /** What the environment contributes to a commit: whether any part of it raises, the random token,
      its lifetime, and the certificate transaction if one could be issued. */
  datatype Effects = Effects(raises: bool, token: string, tokenLifetime: nat, certificate: Option<string>)

  function FreshLicence(t: PaymentTerms, now: int, effects: Effects): Licence
  {
    Licence(t.asset, t.buyerUser, t.buyer, t.amount, "USDC", t.usage, effects.token, now + effects.tokenLifetime, None)
  }

  function Certified(licence: Licence, effects: Effects): Licence
  {
    if effects.certificate.Some? then licence.(certificate := effects.certificate) else licence
  }

  /** The tables once an intent is settled with a signature. */
  function Settled(db: Db, id: IntentId, sig: Sig, effects: Effects): Db
    requires id in db.intents
  {
    var it := db.intents[id];
    var granted := if sig in db.licences then db.licences[sig] else FreshLicence(it.terms, db.now, effects);
    db.(intents := db.intents[id := it.(sig := Some(sig), status := SETTLED, settledAt := Some(db.now))],
        licences := db.licences[sig := Certified(granted, effects)],
        issuedFor := if sig in db.licences then db.issuedFor else db.issuedFor[sig := id])
  }

  /** The reply of a commit that changes nothing; None if it goes through. */
  function CommitRefusal(db: Db, id: IntentId, sig: Sig, effects: Effects): Option<Reply>
    requires id in db.intents
  {
    var it := db.intents[id];
    if it.status == SETTLED then Some(PaidReply(db, id))
    else if it.sig.Some? && it.sig.value != sig then Some(Refused(409))
    else if BoundElsewhere(db, id, sig) || effects.raises then Some(Refused(500))
    else None
  }

  /** The locked transaction. A violated unique key or an exception undoes all of it. */
  function Commit(db: Db, id: IntentId, sig: Sig, effects: Effects): (Db, Reply)
    requires id in db.intents
  {
    var refusal := CommitRefusal(db, id, sig, effects);
    if refusal.Some? then (db, refusal.value)
    else (Settled(db, id, sig, effects), PaidReply(Settled(db, id, sig, effects), id))
  }

  // ---------- Interleaved requests ----------

  /** Where a settle request stands between its steps. */
  datatype Worker =
    | MustExpire(id: IntentId)
    | Checked(id: IntentId, sig: Sig, terms: PaymentTerms)
    | Verified(id: IntentId, sig: Sig)

  datatype State = State(db: Db, workers: map<nat, Worker>)

  datatype Event =
    | Tick(elapsed: nat)
    | Finalize(sig: Sig, transaction: Transaction)
    | GrantElsewhere(sig: Sig, licence: Licence)
    | Create(create: CreateRequest)
    | Begin(worker: nat, request: SettleRequest)
    | WriteExpiry(worker: nat)
    | VerifyOnChain(worker: nat, chainUp: bool)
    | CommitStep(worker: nat, effects: Effects)

  function Without(workers: map<nat, Worker>, w: nat): map<nat, Worker>
  {
    map v | v in workers && v != w :: workers[v]
  }

  /** One step of the system; an event that is not enabled changes nothing. */
  function Step(st: State, e: Event): State
  {
    var db := st.db;
    match e
    case Tick(elapsed) => st.(db := db.(now := db.now + elapsed))
    case Finalize(sig, transaction) =>
      if sig in db.ledger then st else st.(db := db.(ledger := db.ledger[sig := transaction]))
    case GrantElsewhere(sig, licence) =>
      if sig in db.licences then st
      else st.(db := db.(licences := db.licences[sig := licence], grantedElsewhere := db.grantedElsewhere + {sig}))
    case Create(c) => st.(db := CreateIntent(db, c).0)
    case Begin(w, r) =>
      if w in st.workers then st
      else (match PreCheck(db, r)
            case Finished(_) => st
            case Overdue => st.(workers := st.workers[w := MustExpire(r.id)])
            case Proceed(terms) => st.(workers := st.workers[w := Checked(r.id, r.sig, terms)]))
    case WriteExpiry(w) =>
      if w in st.workers && st.workers[w].MustExpire? && st.workers[w].id in db.intents
      then State(MarkExpired(db, st.workers[w].id), Without(st.workers, w))
      else st
    case VerifyOnChain(w, chainUp) =>
      if w in st.workers && st.workers[w].Checked? then
        var p := st.workers[w];
        st.(workers := if ChainCheck(db, p.sig, p.terms, chainUp).None? then st.workers[w := Verified(p.id, p.sig)]
                       else Without(st.workers, w))
      else st
    case CommitStep(w, effects) =>
      if w in st.workers && st.workers[w].Verified? && st.workers[w].id in db.intents
      then State(Commit(db, st.workers[w].id, st.workers[w].sig, effects).0, Without(st.workers, w))
      else st
  }

  function Run(st: State, events: seq<Event>): State
    decreases |events|
  {
    if events == [] then st else Step(Run(st, events[..|events| - 1]), events[|events| - 1])
  }

  function EmptyDb(now: int, mint: Mint): Db
  {
    Db(now, mint, map[], map[], map[], map[], {})
  }

  // ---------- Requests one at a time ----------

  function ServeSettle(db: Db, r: SettleRequest, chainUp: bool, effects: Effects): (Db, Reply)
  {
    match PreCheck(db, r)
    case Finished(reply) => (db, reply)
    case Overdue => (MarkExpired(db, r.id), Refused(409))
    case Proceed(terms) =>
      var refusal := ChainCheck(db, r.sig, terms, chainUp);
      if refusal.Some? then (db, refusal.value) else Commit(db, r.id, r.sig, effects)
  }

  /** The stored tables, updated in place. */
  class PaymentStore {
    var now: int
    var mint: Mint
    var intents: map<IntentId, Intent>
    var licences: map<Sig, Licence>
    var ledger: map<Sig, Transaction>
    var issuedFor: map<Sig, IntentId>
    var grantedElsewhere: set<Sig>

    function View(): Db
      reads this
    {
      Db(now, mint, intents, licences, ledger, issuedFor, grantedElsewhere)
    }

    constructor (now: int, mint: Mint)
      ensures View() == EmptyDb(now, mint)
    {
      this.now, this.mint := now, mint;
      intents, licences, ledger := map[], map[], map[];
      issuedFor, grantedElsewhere := map[], {};
    }

    method Create(c: CreateRequest) returns (reply: Reply)
      modifies this
      ensures View() == CreateIntent(old(View()), c).0 && reply == CreateIntent(old(View()), c).1
    {
      if !c.assetListed {
        return Refused(404);
      }
      if !c.assetPriced || c.source.UnknownSession? {
        return Refused(409);
      }
      if !c.recipientValid {
        return Refused(503);
      }
      intents := map id | id in intents ::
        var it := intents[id];
        if it.status == CREATED && it.terms.buyerUser == c.buyerUser && it.terms.asset == c.asset
           && it.terms.buyer == c.buyer && it.terms.expiresAt <= now
        then it.(status := EXPIRED) else it;
      var sponsored := Sponsored(mint, c);
      if sponsored.NotBuilt? {
        return Refused(503);
      }
      if c.id in intents {
        return Refused(500);
      }
      var usage := if c.source.AcceptedSession? then c.source.sessionUsage else "commercial";
      var terms := PaymentTerms(c.asset, c.buyerUser, c.channel, c.buyer, c.recipient, UnitsOf(c.source).value, usage,
                                MemoOf(c.id), now + c.lifetime);
      intents := intents[c.id := Intent(terms, CREATED, None, None)];
      reply := Created(Payment.OfferOf(sponsored.transaction, c.sponsor, c.buyer, c.recipient, mint, PriceOf(c.source),
                                       MemoOf(c.id)));
    }

    /** Idempotent on the signature: an existing licence is returned unchanged. */
    method Grant(sig: Sig, t: PaymentTerms, effects: Effects, id: IntentId) returns (licence: Licence)
      modifies this`licences, this`issuedFor
      ensures sig in old(licences) ==> licences == old(licences) && licence == old(licences)[sig]
                                       && issuedFor == old(issuedFor)
      ensures sig !in old(licences) ==> licence == FreshLicence(t, now, effects)
                                        && licences == old(licences)[sig := licence]
                                        && issuedFor == old(issuedFor)[sig := id]
    {
      if sig in licences {
        return licences[sig];
      }
      licence := FreshLicence(t, now, effects);
      licences := licences[sig := licence];
      issuedFor := issuedFor[sig := id];
    }

    /** The locked part: bind the signature, grant, certify, settle. */
    method CommitSettlement(id: IntentId, sig: Sig, effects: Effects) returns (reply: Reply)
      requires id in intents
      modifies this
      ensures View() == Commit(old(View()), id, sig, effects).0 && reply == Commit(old(View()), id, sig, effects).1
    {
      hide PaidReply, BoundElsewhere;
      ghost var before := View();
      var it := intents[id];
      if it.status == SETTLED {
        return PaidReply(View(), id);
      }
      if it.sig.Some? && it.sig.value != sig {
        return Refused(409);
      }
      if BoundElsewhere(View(), id, sig) || effects.raises {
        return Refused(500);
      }
      intents := intents[id := it.(sig := Some(sig), status := SUBMITTED)];
      var licence := Grant(sig, it.terms, effects, id);
      licences := licences[sig := Certified(licence, effects)];
      intents := intents[id := intents[id].(status := SETTLED, settledAt := Some(now))];
      assert intents == before.intents[id := it.(sig := Some(sig), status := SETTLED, settledAt := Some(now))];
      assert licences == before.licences[sig := Certified(licence, effects)];
      reply := PaidReply(View(), id);
    }

    method Settle(r: SettleRequest, chainUp: bool, effects: Effects) returns (reply: Reply)
      modifies this
      ensures View() == ServeSettle(old(View()), r, chainUp, effects).0
      ensures reply == ServeSettle(old(View()), r, chainUp, effects).1
    {
      var gate := PreCheck(View(), r);
      match gate
      case Finished(answer) => reply := answer;
      case Overdue =>
        intents := intents[r.id := intents[r.id].(status := EXPIRED)];
        reply := Refused(409);
      case Proceed(terms) =>
        var refusal := ChainCheck(View(), r.sig, terms, chainUp);
        if refusal.Some? {
          return refusal.value;
        }
        reply := CommitSettlement(r.id, r.sig, effects);
    }
  }
}
