/** What every interleaving of settle, create and foreign grants keeps. */
module SettlementSafety {
  import opened Options
  import opened SetSum
  import opened Chain
  import opened Settlement
  import Payment

  // ---------- The invariant ----------

  ghost predicate LicenceAgrees(it: Intent, licence: Licence)
  {
    && licence.asset == it.terms.asset && licence.buyer == it.terms.buyer && licence.buyerUser == it.terms.buyerUser
    && licence.price == it.terms.amount && licence.currency == "USDC" && licence.usage == it.terms.usage
  }

  ghost predicate IntentSound(db: Db, id: IntentId)
    requires id in db.intents
  {
    var it := db.intents[id];
    && it.terms.amount > 0 && it.terms.memo == Payment.MEMO_PREFIX + id
    && it.status != SUBMITTED
    && (it.status == CREATED ==> it.sig.None?)
    && (it.status == SETTLED ==> it.sig.Some?)
    && (it.status == EXPIRED ==> it.terms.expiresAt <= db.now)
    && (it.sig.Some? ==> it.sig.value in db.licences && Confirms(db, it.sig.value, it.terms))
  }

  ghost predicate SignaturesUnique(db: Db)
  {
    forall i, j :: i in db.intents && j in db.intents && i != j && db.intents[i].sig.Some? ==>
                     db.intents[i].sig != db.intents[j].sig
  }

  ghost predicate IssuedSound(db: Db, s: Sig)
    requires s in db.issuedFor
  {
    && s in db.licences && s !in db.grantedElsewhere
    && db.issuedFor[s] in db.intents
    && db.intents[db.issuedFor[s]].sig == Some(s)
    && LicenceAgrees(db.intents[db.issuedFor[s]], db.licences[s])
  }

  ghost predicate DbInv(db: Db)
  {
    && (forall id :: id in db.intents ==> IntentSound(db, id))
    && SignaturesUnique(db)
    && (forall s :: s in db.issuedFor ==> IssuedSound(db, s))
    && (forall s :: s in db.licences <==> s in db.issuedFor || s in db.grantedElsewhere)
  }

  ghost predicate WorkerSound(db: Db, p: Worker)
  {
    && p.id in db.intents
    && match p
       case MustExpire(id) => db.intents[id].terms.expiresAt <= db.now
       case Checked(id, sig, terms) => terms == db.intents[id].terms
       case Verified(id, sig) => Confirms(db, sig, db.intents[id].terms)
  }

  ghost predicate Inv(st: State)
  {
    DbInv(st.db) && forall w :: w in st.workers ==> WorkerSound(st.db, st.workers[w])
  }

  /** What no step ever takes back: terms of an intent, a bound signature, the commercial part of a
      licence, a finalized transaction, who a licence was issued for, and time. */
  ghost predicate Extends(a: Db, b: Db)
  {
    && a.now <= b.now && a.mint == b.mint
    && (forall id :: id in a.intents ==>
          && id in b.intents && b.intents[id].terms == a.intents[id].terms
          && (a.intents[id].sig.Some? ==> b.intents[id].sig == a.intents[id].sig))
    && (forall s :: s in a.licences ==>
          s in b.licences && b.licences[s].(certificate := None) == a.licences[s].(certificate := None))
    && (forall s :: s in a.ledger ==> s in b.ledger && b.ledger[s] == a.ledger[s])
    && (forall s :: s in a.issuedFor ==> s in b.issuedFor && b.issuedFor[s] == a.issuedFor[s])
    && a.grantedElsewhere <= b.grantedElsewhere
  }

  // ---------- Every step extends ----------

  lemma ExtendsIsTransitive(a: Db, b: Db, c: Db)
    requires Extends(a, b) && Extends(b, c)
    ensures Extends(a, c)
  {
    forall id | id in a.intents
      ensures id in c.intents && c.intents[id].terms == a.intents[id].terms
              && (a.intents[id].sig.Some? ==> c.intents[id].sig == a.intents[id].sig)
    {
      assert id in b.intents;
    }
  }

  lemma SweepExtends(db: Db, c: CreateRequest)
    ensures Extends(db, ExpireOverdue(db, c))
  {
  }

  lemma OpenExtends(db: Db, c: CreateRequest, units: int)
    requires c.id !in db.intents
    ensures Extends(db, Opened(db, c, units))
  {
  }

  lemma CreateExtends(db: Db, c: CreateRequest)
    ensures Extends(db, CreateIntent(db, c).0)
  {
    var swept := ExpireOverdue(db, c);
    SweepExtends(db, c);
    assert Extends(db, db);
    if c.id !in db.intents && UnitsOf(c.source).Some? {
      assert c.id !in swept.intents;
      OpenExtends(swept, c, UnitsOf(c.source).value);
      ExtendsIsTransitive(db, swept, Opened(swept, c, UnitsOf(c.source).value));
    }
    hide Extends, ExpireOverdue, Opened, UnitsOf;
  }

  lemma CommitExtends(db: Db, id: IntentId, sig: Sig, effects: Effects)
    requires id in db.intents && forall s :: s in db.issuedFor ==> s in db.licences
    ensures Extends(db, Commit(db, id, sig, effects).0)
  {
    hide PaidReply, BoundElsewhere;
  }

  lemma StepExtends(st: State, e: Event)
    requires forall s :: s in st.db.issuedFor ==> s in st.db.licences
    ensures Extends(st.db, Step(st, e).db)
  {
    match e
    case Create(c) => CreateExtends(st.db, c);
    case CommitStep(w, effects) =>
      if w in st.workers && st.workers[w].Verified? && st.workers[w].id in st.db.intents {
        CommitExtends(st.db, st.workers[w].id, st.workers[w].sig, effects);
      }
    case _ =>
  }

  /** A confirmation once obtained stays good. */
  lemma ConfirmationsLast(a: Db, b: Db, sig: Sig, t: PaymentTerms)
    requires Extends(a, b) && Confirms(a, sig, t)
    ensures Confirms(b, sig, t)
  {
  }

  // ---------- Every step keeps the invariant ----------

  lemma WorkersLast(a: Db, b: Db, p: Worker)
    requires Extends(a, b) && WorkerSound(a, p)
    ensures WorkerSound(b, p)
  {
    if p.Verified? {
      ConfirmationsLast(a, b, p.sig, a.intents[p.id].terms);
    }
  }

  lemma SweepKeepsInv(db: Db, c: CreateRequest)
    requires DbInv(db)
    ensures DbInv(ExpireOverdue(db, c))
  {
    hide VerifyUsdcPayment;
    var after := ExpireOverdue(db, c);
    forall id | id in after.intents
      ensures IntentSound(after, id)
    {
      assert IntentSound(db, id);
    }
    forall s | s in after.issuedFor
      ensures IssuedSound(after, s)
    {
      assert IssuedSound(db, s);
    }
  }

  lemma OpenKeepsInv(db: Db, c: CreateRequest, units: int)
    requires DbInv(db) && units > 0 && c.id !in db.intents
    ensures DbInv(Opened(db, c, units))
  {
    hide VerifyUsdcPayment;
    var after := Opened(db, c, units);
    forall id | id in after.intents
      ensures IntentSound(after, id)
    {
      if id in db.intents {
        assert IntentSound(db, id);
      }
    }
    forall s | s in after.issuedFor
      ensures IssuedSound(after, s)
    {
      assert IssuedSound(db, s);
    }
  }

  lemma CreateKeepsInv(db: Db, c: CreateRequest)
    requires DbInv(db)
    ensures DbInv(CreateIntent(db, c).0)
  {
    SweepKeepsInv(db, c);
    UnitsArePositive(c.source);
    if UnitsOf(c.source).Some? && c.id !in db.intents {
      OpenKeepsInv(ExpireOverdue(db, c), c, UnitsOf(c.source).value);
    }
    hide DbInv, UnitsOf, Opened;
  }

  lemma UnitsArePositive(source: PriceSource)
    ensures UnitsOf(source).Some? ==> UnitsOf(source).value > 0
  {
  }

  lemma MarkExpiredKeepsInv(db: Db, id: IntentId)
    requires DbInv(db) && id in db.intents && db.intents[id].terms.expiresAt <= db.now
    ensures DbInv(MarkExpired(db, id))
  {
    hide VerifyUsdcPayment;
    var after := MarkExpired(db, id);
    forall i | i in after.intents
      ensures IntentSound(after, i)
    {
      assert IntentSound(db, i);
    }
    forall s | s in after.issuedFor
      ensures IssuedSound(after, s)
    {
      assert IssuedSound(db, s);
    }
  }

  lemma SettledIntentSound(db: Db, id: IntentId, sig: Sig, effects: Effects, i: IntentId)
    requires DbInv(db) && id in db.intents && Confirms(db, sig, db.intents[id].terms) && i in db.intents
    ensures IntentSound(Settled(db, id, sig, effects), i)
  {
    hide VerifyUsdcPayment;
    assert IntentSound(db, i);
    hide SignaturesUnique, IssuedSound;
  }

  lemma SettledIssuedSound(db: Db, id: IntentId, sig: Sig, effects: Effects, s: Sig)
    requires DbInv(db) && id in db.intents && CommitRefusal(db, id, sig, effects).None?
    requires s in Settled(db, id, sig, effects).issuedFor
    ensures IssuedSound(Settled(db, id, sig, effects), s)
  {
    assert s in db.issuedFor ==> IssuedSound(db, s);
    assert !BoundElsewhere(db, id, sig);
    hide IntentSound, SignaturesUnique, PaidReply;
  }

  lemma CommitKeepsInv(db: Db, id: IntentId, sig: Sig, effects: Effects)
    requires DbInv(db) && id in db.intents && Confirms(db, sig, db.intents[id].terms)
    ensures DbInv(Commit(db, id, sig, effects).0)
  {
    if CommitRefusal(db, id, sig, effects).None? {
      var after := Settled(db, id, sig, effects);
      CommitKeepsUnique(db, id, sig, effects);
      hide IntentSound, IssuedSound, SignaturesUnique, Confirms, CommitRefusal, PaidReply;
      forall i | i in after.intents
        ensures IntentSound(after, i)
      {
        SettledIntentSound(db, id, sig, effects, i);
      }
      forall s | s in after.issuedFor
        ensures IssuedSound(after, s)
      {
        SettledIssuedSound(db, id, sig, effects, s);
      }
    }
  }

  lemma CommitKeepsUnique(db: Db, id: IntentId, sig: Sig, effects: Effects)
    requires SignaturesUnique(db) && id in db.intents
    ensures SignaturesUnique(Commit(db, id, sig, effects).0)
  {
    hide PaidReply;
    if CommitRefusal(db, id, sig, effects).None? {
      assert !BoundElsewhere(db, id, sig);
    }
  }

  lemma StepKeepsInv(st: State, e: Event)
    requires Inv(st)
    ensures Inv(Step(st, e))
  {
    hide VerifyUsdcPayment, PreCheck, CreateIntent, Commit;
    StepExtends(st, e);
    StepKeepsDbInv(st, e);
    var after := Step(st, e);
    forall w | w in after.workers
      ensures WorkerSound(after.db, after.workers[w])
    {
      if w in st.workers {
        WorkersLast(st.db, after.db, st.workers[w]);
      }
      if w !in st.workers || after.workers[w] != st.workers[w] {
        NewWorkerSound(st, e, w);
      }
    }
  }

  lemma NewWorkerSound(st: State, e: Event, w: nat)
    requires Inv(st) && w in Step(st, e).workers
    requires w !in st.workers || Step(st, e).workers[w] != st.workers[w]
    ensures WorkerSound(Step(st, e).db, Step(st, e).workers[w])
  {
    hide VerifyUsdcPayment, CreateIntent, Commit, MarkExpired, BoundElsewhere, PaidReply;
    if e.VerifyOnChain? {
      assert WorkerSound(st.db, st.workers[w]);
      hide PreCheck, DbInv;
    } else {
      assert e.Begin?;
      hide ChainCheck, DbInv, Confirms;
    }
  }

  lemma StepKeepsDbInv(st: State, e: Event)
    requires Inv(st)
    ensures DbInv(Step(st, e).db)
  {
    hide VerifyUsdcPayment, PreCheck, CreateIntent, Commit, MarkExpired, ChainCheck;
    var db, after := st.db, Step(st, e).db;
    if e.Tick? || e.Finalize? || e.GrantElsewhere? {
      QuietEventKeepsInv(st, e);
      return;
    }
    match e
    case Create(c) => CreateKeepsInv(db, c);
    case WriteExpiry(w) =>
      if w in st.workers && st.workers[w].MustExpire? {
        assert WorkerSound(db, st.workers[w]);
        MarkExpiredKeepsInv(db, st.workers[w].id);
      }
    case CommitStep(w, effects) =>
      if w in st.workers && st.workers[w].Verified? {
        assert WorkerSound(db, st.workers[w]);
        CommitKeepsInv(db, st.workers[w].id, st.workers[w].sig, effects);
      }
    case _ =>
  }

  lemma QuietEventKeepsInv(st: State, e: Event)
    requires DbInv(st.db) && (e.Tick? || e.Finalize? || e.GrantElsewhere?)
    ensures DbInv(Step(st, e).db)
  {
    hide VerifyUsdcPayment, PreCheck, CreateIntent, Commit, MarkExpired, ChainCheck,
         IntentSound, IssuedSound, SignaturesUnique, Extends;
    StepExtends(st, e);
    QuietStepKeepsInv(st.db, Step(st, e).db);
  }

  /** Steps that leave intents and our own licences alone. */
  lemma QuietStepKeepsInv(db: Db, after: Db)
    requires DbInv(db) && Extends(db, after) && after.intents == db.intents && after.issuedFor == db.issuedFor
    requires forall s :: s in after.licences <==> s in after.issuedFor || s in after.grantedElsewhere
    requires forall s :: s in after.grantedElsewhere ==> s in db.grantedElsewhere || s !in db.licences
    ensures DbInv(after)
  {
    forall id | id in after.intents
      ensures IntentSound(after, id)
    {
      assert IntentSound(db, id);
      if db.intents[id].sig.Some? {
        ConfirmationsLast(db, after, db.intents[id].sig.value, db.intents[id].terms);
      }
    }
    forall s | s in after.issuedFor
      ensures IssuedSound(after, s)
    {
      assert IssuedSound(db, s);
    }
  }

  lemma {:induction false} RunKeepsInv(st: State, events: seq<Event>)
    requires Inv(st)
    ensures Inv(Run(st, events)) && Extends(st.db, Run(st, events).db)
    decreases |events|
  {
    if events != [] {
      var front, e := events[..|events| - 1], events[|events| - 1];
      RunKeepsInv(st, front);
      var mid := Run(st, front);
      StepKeepsInv(mid, e);
      StepExtends(mid, e);
      ExtendsIsTransitive(st.db, mid.db, Step(mid, e).db);
    }
  }

  ghost function Reached(now: int, mint: Mint, events: seq<Event>): Db
  {
    Run(State(EmptyDb(now, mint), map[]), events).db
  }

  lemma ReachedIsSound(now: int, mint: Mint, events: seq<Event>)
    ensures DbInv(Reached(now, mint, events))
  {
    RunKeepsInv(State(EmptyDb(now, mint), map[]), events);
  }
}
