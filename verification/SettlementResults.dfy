/** The results about sponsored payments: over every interleaving, and over requests served one at a
    time. */
module SettlementResults {
  import opened Options
  import opened SetSum
  import opened Chain
  import opened Settlement
  import opened SettlementSafety
  import Money
  import Payment

  // ---------- Any interleaving ----------

  lemma {:induction false} RunInTwoParts(st: State, first: seq<Event>, more: seq<Event>)
    ensures Run(st, first + more) == Run(Run(st, first), more)
    decreases |more|
  {
    if more == [] {
      assert first + more == first;
    } else {
      var k := |more| - 1;
      RunInTwoParts(st, first, more[..k]);
      assert (first + more)[..|first + more| - 1] == first + more[..k];
    }
  }

  /** A signature, once bound to an intent, is never changed or removed, and no two intents ever share
      one; terms and granted licences never change either, certificates apart. */
  lemma SignatureIsWrittenOnce(now: int, mint: Mint, first: seq<Event>, more: seq<Event>)
    ensures Extends(Reached(now, mint, first), Reached(now, mint, first + more))
    ensures SignaturesUnique(Reached(now, mint, first + more))
  {
    var st := State(EmptyDb(now, mint), map[]);
    RunKeepsInv(st, first);
    RunKeepsInv(Run(st, first), more);
    RunInTwoParts(st, first, more);
  }

  /** Signed intents and the licences this path issued correspond one to one and agree on asset,
      wallet, amount and usage. The only signed intents outside the correspondence are those whose
      signature some other route had already turned into a licence. */
  lemma SignedIntentsMatchIssuedLicences(now: int, mint: Mint, events: seq<Event>)
    ensures var db := Reached(now, mint, events);
            && (forall id :: id in db.intents && db.intents[id].sig.Some? ==>
                  var s := db.intents[id].sig.value;
                  && s in db.licences
                  && (s in db.issuedFor <==> s !in db.grantedElsewhere)
                  && (s in db.issuedFor ==> db.issuedFor[s] == id && LicenceAgrees(db.intents[id], db.licences[s])))
            && (forall s :: s in db.issuedFor ==>
                  db.issuedFor[s] in db.intents && db.intents[db.issuedFor[s]].sig == Some(s))
            && (forall id :: id in db.intents && db.intents[id].status == SETTLED ==> db.intents[id].sig.Some?)
  {
    var db := Reached(now, mint, events);
    ReachedIsSound(now, mint, events);
    forall s | s in db.issuedFor
      ensures IssuedSound(db, s)
    {
    }
    forall id | id in db.intents
      ensures IntentSound(db, id)
    {
    }
    hide Reached;
  }

  ghost function SignedIntents(db: Db): set<IntentId>
  {
    set id | id in db.intents && db.intents[id].sig.Some?
  }

  ghost function BoundSignatures(db: Db): set<Sig>
  {
    set id | id in SignedIntents(db) :: db.intents[id].sig.value
  }

  lemma {:induction false} NoForeignGrants(st: State, events: seq<Event>)
    requires st.db.grantedElsewhere == {} && forall e :: e in events ==> !e.GrantElsewhere?
    ensures Run(st, events).db.grantedElsewhere == {}
    decreases |events|
  {
    if events != [] {
      var front := events[..|events| - 1];
      NoForeignGrants(st, front);
      assert events[|events| - 1] in events;
      hide CreateIntent, Commit, PreCheck, ChainCheck;
      NoForeignGrant(Run(st, front), events[|events| - 1]);
    }
  }

  lemma NoForeignGrant(st: State, e: Event)
    requires !e.GrantElsewhere?
    ensures Step(st, e).db.grantedElsewhere == st.db.grantedElsewhere
  {
  }

  /** A final transaction under the signature pays the terms, from the buyer. */
  ghost predicate ConfirmedPays(db: Db, sig: Sig, t: PaymentTerms)
  {
    sig in db.ledger && Pays(db.ledger[sig], t.recipient, t.amount, db.mint, Some(t.memo), t.buyer)
  }

  lemma ConfirmedIsPaid(db: Db, sig: Sig, t: PaymentTerms)
    ensures Confirms(db, sig, t) <==> ConfirmedPays(db, sig, t)
  {
    hide VerifyUsdcPayment, Pays;
    if sig in db.ledger {
      PaymentIsRecognisedExactlyWhen(db.ledger[sig], t.recipient, t.amount, db.mint, Some(t.memo), t.buyer);
    }
  }

  /** Over every interleaving: the transaction bound to an intent did not fail, carries that intent's own
      memo, and either changed the recipient's balance by exactly the amount or holds an instruction
      transferring it; and a transaction that does not carry an intent's memo is never bound to it, so
      neither is a payment made out to another intent. */
  lemma SignedIntentsCarryTheirOwnPayment(now: int, mint: Mint, events: seq<Event>)
    ensures var db := Reached(now, mint, events);
            && (forall id :: id in db.intents && db.intents[id].sig.Some? ==>
                  && db.intents[id].sig.value in db.ledger
                  && var (tx, t) := (db.ledger[db.intents[id].sig.value], db.intents[id].terms);
                     && !tx.failed && MemoText("VERIPROOF:USDC:" + id) in tx.instructions
                     && t.amount > 0 && t.recipient != ""
                     && Pays(tx, t.recipient, t.amount, db.mint, Some("VERIPROOF:USDC:" + id), t.buyer)
                     && (|| Delta(tx, db.mint, t.recipient) == t.amount
                         || exists k :: 0 <= k < |tx.instructions|
                                        && TransfersTo(tx.instructions[k], t.recipient, t.amount, db.mint)))
            && (forall id, s :: id in db.intents && s in db.ledger
                                && MemoText("VERIPROOF:USDC:" + id) !in db.ledger[s].instructions ==>
                                  db.intents[id].sig != Some(s))
  {
    var db := Reached(now, mint, events);
    ReachedIsSound(now, mint, events);
    hide Reached, VerifyUsdcPayment, Delta, TransfersTo;
    forall id | id in db.intents && db.intents[id].sig.Some?
      ensures OwnPayment(db, id)
    {
      assert IntentSound(db, id);
      hide DbInv;
      ConfirmedIsOwnPayment(db, id);
    }
    hide DbInv;
  }

  ghost predicate OwnPayment(db: Db, id: IntentId)
    requires id in db.intents && db.intents[id].sig.Some?
  {
    var (s, t) := (db.intents[id].sig.value, db.intents[id].terms);
    && s in db.ledger
    && !db.ledger[s].failed && MemoText("VERIPROOF:USDC:" + id) in db.ledger[s].instructions
    && t.amount > 0 && t.recipient != ""
    && Pays(db.ledger[s], t.recipient, t.amount, db.mint, Some("VERIPROOF:USDC:" + id), t.buyer)
    && (|| Delta(db.ledger[s], db.mint, t.recipient) == t.amount
        || exists k :: 0 <= k < |db.ledger[s].instructions|
                       && TransfersTo(db.ledger[s].instructions[k], t.recipient, t.amount, db.mint))
  }

  lemma ConfirmedIsOwnPayment(db: Db, id: IntentId)
    requires id in db.intents && db.intents[id].sig.Some? && IntentSound(db, id)
    ensures OwnPayment(db, id)
  {
    hide VerifyUsdcPayment, Delta, TransfersTo;
    var (s, t) := (db.intents[id].sig.value, db.intents[id].terms);
    PaymentIsRecognisedExactlyWhen(db.ledger[s], t.recipient, t.amount, db.mint, Some(t.memo), t.buyer);
    hide Pays;
  }

  /** With no other route granting, the licence table is exactly the set of bound signatures. */
  lemma LicencesAreExactlyTheBoundSignatures(now: int, mint: Mint, events: seq<Event>)
    requires forall e :: e in events ==> !e.GrantElsewhere?
    ensures var db := Reached(now, mint, events);
            db.licences.Keys == BoundSignatures(db) && db.issuedFor.Keys == BoundSignatures(db)
  {
    var db := Reached(now, mint, events);
    SignedIntentsMatchIssuedLicences(now, mint, events);
    ReachedIsSound(now, mint, events);
    NoForeignGrants(State(EmptyDb(now, mint), map[]), events);
    forall s | s in db.issuedFor
      ensures s in BoundSignatures(db)
    {
      assert db.issuedFor[s] in SignedIntents(db);
    }
    forall s | s in BoundSignatures(db)
      ensures s in db.licences
    {
      var id :| id in SignedIntents(db) && db.intents[id].sig.value == s;
    }
  }

  // ---------- Revenue ----------

  /** Intents of a recipient whose signature was recognised by the balance change itself. */
  ghost function PaidByBalance(db: Db, recipient: Wallet): set<IntentId>
  {
    set id | id in SignedIntents(db) && db.intents[id].terms.recipient == recipient
             && db.intents[id].sig.value in db.ledger
             && BalanceMatch(db.ledger[db.intents[id].sig.value], recipient, db.intents[id].terms.amount, db.mint).Some?
  }

  /** The recipient's revenue over the intents whose payment was recognised by the balance change is what
      its token balances gained over the distinct transactions bound to them: of these, nothing is
      counted twice and nothing is missing. Intents recognised by an instruction alone are not part of
      the sum. */
  lemma RevenueReconciles(now: int, mint: Mint, events: seq<Event>, recipient: Wallet)
    ensures var db := Reached(now, mint, events);
            var paid := PaidByBalance(db, recipient);
            var bound := set id | id in paid :: db.intents[id].sig.value;
            && Sum(paid, id => if id in db.intents then db.intents[id].terms.amount else 0)
               == Sum(bound, s => if s in db.ledger then Delta(db.ledger[s], db.mint, recipient) else 0)
            && |bound| == |paid|
  {
    var db := Reached(now, mint, events);
    ReachedIsSound(now, mint, events);
    var paid := PaidByBalance(db, recipient);
    var bound := set id | id in paid :: db.intents[id].sig.value;
    var amount := id => if id in db.intents then db.intents[id].terms.amount else 0;
    var gain := s => if s in db.ledger then Delta(db.ledger[s], db.mint, recipient) else 0;
    var sigOf := (id: IntentId) => if id in db.intents && db.intents[id].sig.Some? then db.intents[id].sig.value else "";
    forall id | id in paid
      ensures sigOf(id) in bound && amount(id) == gain(sigOf(id))
    {
      assert db.intents[id].sig.value in bound;
    }
    forall x, y | x in paid && y in paid && sigOf(x) == sigOf(y)
      ensures x == y
    {
      assert SignaturesUnique(db);
    }
    forall u | u in bound
      ensures exists x :: x in paid && sigOf(x) == u
    {
      var x :| x in paid && db.intents[x].sig.value == u;
      assert sigOf(x) == u;
    }
    hide Reached, PaidByBalance, DbInv, Delta;
    SumImage(paid, amount, sigOf, bound, gain);
    SumImage(paid, _ => 1, sigOf, bound, _ => 1);
    SumOfOnes(paid);
    SumOfOnes(bound);
  }

  lemma {:induction false} SumOfOnes<T(!new)>(s: set<T>)
    ensures Sum(s, _ => 1) == |s|
    decreases s
  {
    if s != {} {
      var x :| x in s;
      SumSplit(s, _ => 1, x);
      SumOfOnes(s - {x});
    }
  }

  // ---------- What an interleaving can break ----------

  /** A settled intent stays settled in every step but one: a request that had found it overdue
      before it settled, now writing EXPIRED over it. */
  lemma SettledIsLostToALateExpiry(st: State, e: Event, id: IntentId)
    requires id in st.db.intents && st.db.intents[id].status == SETTLED
    ensures id in Step(st, e).db.intents
    ensures Step(st, e).db.intents[id].status != SETTLED
            <==> e.WriteExpiry? && e.worker in st.workers && st.workers[e.worker] == MustExpire(id)
  {
    hide PreCheck, ChainCheck, PaidReply;
  }

  ghost predicate HasStatus(st: State, id: IntentId, status: Status)
  {
    id in st.db.intents && st.db.intents[id].status == status
  }

  /** No request is about to write EXPIRED over the intent. */
  ghost predicate NoLateExpiry(st: State, id: IntentId)
  {
    forall w :: w in st.workers ==> st.workers[w] != MustExpire(id)
  }

  /** No request finds a settled intent overdue. */
  lemma SettledStepAddsNoLateExpiry(st: State, e: Event, id: IntentId)
    requires HasStatus(st, id, SETTLED) && NoLateExpiry(st, id)
    ensures NoLateExpiry(Step(st, e), id)
  {
    hide CreateIntent, Commit, ChainCheck, PaidReply, BoundElsewhere;
  }

  lemma {:induction false} SettledStays(st: State, events: seq<Event>, id: IntentId)
    requires HasStatus(st, id, SETTLED) && NoLateExpiry(st, id)
    ensures HasStatus(Run(st, events), id, SETTLED) && NoLateExpiry(Run(st, events), id)
    decreases |events|
  {
    if events != [] {
      var front, e := events[..|events| - 1], events[|events| - 1];
      SettledStays(st, front, id);
      SettledIsLostToALateExpiry(Run(st, front), e, id);
      SettledStepAddsNoLateExpiry(Run(st, front), e, id);
    }
  }

  /** SETTLED is final - whatever requests, grants, transactions and ticks follow - exactly when no
      request that found the intent overdue before it settled is still to write. */
  lemma SettledIsFinalExactlyWithoutALateExpiry(st: State, id: IntentId)
    requires HasStatus(st, id, SETTLED)
    ensures (forall events: seq<Event> :: HasStatus(Run(st, events), id, SETTLED)) <==> NoLateExpiry(st, id)
  {
    if NoLateExpiry(st, id) {
      forall events: seq<Event>
        ensures HasStatus(Run(st, events), id, SETTLED)
      {
        SettledStays(st, events, id);
      }
    } else {
      var w :| w in st.workers && st.workers[w] == MustExpire(id);
      OneStep(st, WriteExpiry(w));
      SettledIsLostToALateExpiry(st, WriteExpiry(w), id);
    }
  }

  /** The payment is confirmed on chain, or nothing is final under that signature yet. */
  ghost predicate MayBeConfirmed(db: Db, sig: Sig, t: PaymentTerms)
  {
    if sig in db.ledger then Confirms(db, sig, t) else t.recipient != "" && db.mint != ""
  }

  /** A request already past the expiry check, with a signature that is free for the intent and whose
      payment is verified or may yet be. */
  ghost predicate MaySettle(db: Db, p: Worker, id: IntentId)
    requires id in db.intents
  {
    var it := db.intents[id];
    && !p.MustExpire? && p.id == id
    && (it.sig.None? || it.sig == Some(p.sig)) && !BoundElsewhere(db, id, p.sig)
    && (p.Checked? ==> MayBeConfirmed(db, p.sig, it.terms))
  }

  ghost predicate NoOpenSettlement(st: State, id: IntentId)
    requires id in st.db.intents
  {
    forall w :: w in st.workers ==> !MaySettle(st.db, st.workers[w], id)
  }

  lemma BindingsLast(a: Db, b: Db, id: IntentId, sig: Sig)
    requires Extends(a, b) && BoundElsewhere(a, id, sig)
    ensures BoundElsewhere(b, id, sig)
  {
    var other :| other in a.intents && other != id && a.intents[other].sig == Some(sig);
    assert b.intents[other].sig == Some(sig);
  }

  /** A request that may not settle the intent never may later. */
  lemma NeverMaySettleAgain(a: Db, b: Db, p: Worker, id: IntentId)
    requires Extends(a, b) && id in a.intents && !MaySettle(a, p, id)
    ensures !MaySettle(b, p, id)
  {
    hide BoundElsewhere;
    if !p.MustExpire? && p.id == id && BoundElsewhere(a, id, p.sig) {
      BindingsLast(a, b, id, p.sig);
    }
  }

  /** Nor may the request a step makes of it, or one that begins now. */
  lemma NewWorkerMayNotSettle(st: State, e: Event, id: IntentId, w: nat)
    requires Inv(st) && HasStatus(st, id, EXPIRED) && NoOpenSettlement(st, id)
    requires w in Step(st, e).workers && (w !in st.workers || Step(st, e).workers[w] != st.workers[w])
    ensures !MaySettle(st.db, Step(st, e).workers[w], id)
  {
    if e.VerifyOnChain? {
      assert WorkerSound(st.db, st.workers[w]);
      assert !MaySettle(st.db, st.workers[w], id);
      hide Inv, PreCheck, CreateIntent, Commit, BoundElsewhere, VerifyUsdcPayment, PaidReply, MarkExpired;
    } else {
      assert IntentSound(st.db, id);
      NewRequestFindsItOverdue(st, e, id, w);
      hide Inv, Step, MaySettle;
      NotTheirs(st.db, Step(st, e).workers[w], id);
    }
  }

  lemma NewRequestFindsItOverdue(st: State, e: Event, id: IntentId, w: nat)
    requires HasStatus(st, id, EXPIRED) && st.db.intents[id].terms.expiresAt <= st.db.now && !e.VerifyOnChain?
    requires w in Step(st, e).workers && (w !in st.workers || Step(st, e).workers[w] != st.workers[w])
    ensures Step(st, e).workers[w].id == id ==> Step(st, e).workers[w].MustExpire?
  {
    hide CreateIntent, Commit, BoundElsewhere, PaidReply, MarkExpired, ChainCheck;
    assert e.Begin?;
  }

  lemma NotTheirs(db: Db, p: Worker, id: IntentId)
    requires id in db.intents && (p.id == id ==> p.MustExpire?)
    ensures !MaySettle(db, p, id)
  {
  }

  lemma ExpiredStepStays(st: State, e: Event, id: IntentId)
    requires Inv(st) && HasStatus(st, id, EXPIRED) && NoOpenSettlement(st, id)
    ensures HasStatus(Step(st, e), id, EXPIRED)
  {
    hide Inv, VerifyUsdcPayment, PreCheck, ChainCheck, UnitsOf, PaidReply;
    if e.CommitStep? && e.worker in st.workers {
      assert !MaySettle(st.db, st.workers[e.worker], id);
    }
    hide BoundElsewhere, NoOpenSettlement;
  }

  lemma {:induction false} ExpiredStays(st: State, events: seq<Event>, id: IntentId)
    requires Inv(st) && HasStatus(st, id, EXPIRED) && NoOpenSettlement(st, id)
    ensures HasStatus(Run(st, events), id, EXPIRED) && NoOpenSettlement(Run(st, events), id)
    decreases |events|
  {
    if events != [] {
      var front, e := events[..|events| - 1], events[|events| - 1];
      ExpiredStays(st, front, id);
      RunKeepsInv(st, front);
      var mid := Run(st, front);
      ExpiredStepStays(mid, e, id);
      StepExtends(mid, e);
      var after := Step(mid, e);
      forall w | w in after.workers
        ensures !MaySettle(after.db, after.workers[w], id)
      {
        if w !in mid.workers || after.workers[w] != mid.workers[w] {
          NewWorkerMayNotSettle(mid, e, id, w);
        }
        hide Step, MaySettle, Inv, Extends;
        NeverMaySettleAgain(mid.db, after.db, after.workers[w], id);
      }
    }
  }

  /** A final transaction that pays the terms. */
  function PaymentFor(t: PaymentTerms, mint: Mint): Transaction
  {
    Transaction(false, [TokenTransfer(t.recipient, t.amount, Some(mint), t.buyer, t.buyer), MemoText(t.memo)], [], [])
  }

  lemma PaymentForPays(t: PaymentTerms, mint: Mint)
    requires t.recipient != "" && mint != "" && t.amount > 0
    ensures VerifyUsdcPayment(PaymentFor(t, mint), t.recipient, t.amount, mint, Some(t.memo)) == Some(t.buyer)
  {
    assert PaymentFor(t, mint).instructions[1] == MemoText(t.memo);
  }

  const UNDISTURBED := Effects(false, "", 0, None)

  lemma VerifiedSettles(st: State, w: nat, id: IntentId)
    requires HasStatus(st, id, EXPIRED) && w in st.workers && st.workers[w].Verified?
    requires MaySettle(st.db, st.workers[w], id)
    ensures HasStatus(Step(st, CommitStep(w, UNDISTURBED)), id, SETTLED)
  {
    hide PaidReply, BoundElsewhere;
  }

  lemma CheckedSettles(st: State, w: nat, id: IntentId)
    requires Inv(st) && HasStatus(st, id, EXPIRED) && w in st.workers && st.workers[w].Checked?
    requires MaySettle(st.db, st.workers[w], id)
    ensures var p := st.workers[w];
            var ready := Step(st, Finalize(p.sig, PaymentFor(p.terms, st.db.mint)));
            HasStatus(Step(Step(ready, VerifyOnChain(w, true)), CommitStep(w, UNDISTURBED)), id, SETTLED)
  {
    var p := st.workers[w];
    assert WorkerSound(st.db, p) && IntentSound(st.db, id);
    hide Inv, IntentSound, BoundElsewhere;
    if p.sig !in st.db.ledger {
      PaymentForPays(p.terms, st.db.mint);
    }
    hide PaymentFor, VerifyUsdcPayment, PaidReply;
    var ready := Step(st, Finalize(p.sig, PaymentFor(p.terms, st.db.mint)));
    assert Confirms(ready.db, p.sig, p.terms);
    var verified := Step(ready, VerifyOnChain(w, true));
    assert verified.workers[w] == Verified(id, p.sig) && verified.db.intents == st.db.intents;
    SameBindings(st.db, verified.db, id, p.sig);
    hide Step, Confirms;
    VerifiedSettles(verified, w, id);
  }

  lemma CheckedSettlesInThreeSteps(st: State, w: nat, id: IntentId)
    requires Inv(st) && HasStatus(st, id, EXPIRED) && w in st.workers && st.workers[w].Checked?
    requires MaySettle(st.db, st.workers[w], id)
    ensures var p := st.workers[w];
            var pay := Finalize(p.sig, PaymentFor(p.terms, st.db.mint));
            HasStatus(Run(st, [pay] + [VerifyOnChain(w, true)] + [CommitStep(w, UNDISTURBED)]), id, SETTLED)
  {
    hide Step, MaySettle, Inv, PaymentFor;
    CheckedSettles(st, w, id);
    var p := st.workers[w];
    var pay := Finalize(p.sig, PaymentFor(p.terms, st.db.mint));
    OneStep(st, pay);
    RunSnoc(st, [pay], VerifyOnChain(w, true));
    RunSnoc(st, [pay] + [VerifyOnChain(w, true)], CommitStep(w, UNDISTURBED));
  }

  lemma SameBindings(a: Db, b: Db, id: IntentId, sig: Sig)
    requires a.intents == b.intents
    ensures BoundElsewhere(a, id, sig) <==> BoundElsewhere(b, id, sig)
  {
  }

  /** EXPIRED is final - whatever follows - exactly when no request that passed the expiry check
      earlier can still settle the intent: none has verified its payment, or may yet verify it, under
      a signature still free for the intent. */
  lemma ExpiredIsFinalExactlyWithoutAnOpenSettlement(st: State, id: IntentId)
    requires Inv(st) && HasStatus(st, id, EXPIRED)
    ensures (forall events: seq<Event> :: HasStatus(Run(st, events), id, EXPIRED)) <==> NoOpenSettlement(st, id)
  {
    if NoOpenSettlement(st, id) {
      forall events: seq<Event>
        ensures HasStatus(Run(st, events), id, EXPIRED)
      {
        ExpiredStays(st, events, id);
      }
    } else {
      var w :| w in st.workers && MaySettle(st.db, st.workers[w], id);
      var p := st.workers[w];
      if p.Verified? {
        hide Step, MaySettle, Inv;
        VerifiedSettles(st, w, id);
        OneStep(st, CommitStep(w, UNDISTURBED));
      } else {
        CheckedSettlesInThreeSteps(st, w, id);
      }
    }
  }

  /** An open intent with its payment confirmed and two free workers. */
  ghost predicate ReadyToRace(st: State, r: SettleRequest, effects: Effects)
  {
    && st.workers == map[] && PreCheck(st.db, r).Proceed?
    && r.id in st.db.intents && st.db.intents[r.id].status == CREATED
    && Confirms(st.db, r.sig, st.db.intents[r.id].terms) && !effects.raises
  }

  function RaceEvents(r: SettleRequest, wait: nat, effects: Effects, expiryLast: bool): seq<Event>
  {
    [Begin(1, r), VerifyOnChain(1, true), Tick(wait), Begin(2, r)]
    + if expiryLast then [CommitStep(1, effects), WriteExpiry(2)] else [WriteExpiry(2), CommitStep(1, effects)]
  }

  /** Two requests for the same payment around its expiry: depending on which of the last two writes
      comes first, a settled intent ends as EXPIRED with its signature and licence in place, or one
      already marked EXPIRED ends as SETTLED. Neither status is absorbing under interleaving. */
  lemma RaceAtExpiry(st: State, r: SettleRequest, wait: nat, effects: Effects, expiryLast: bool)
    requires ReadyToRace(st, r, effects) && st.db.now + wait >= st.db.intents[r.id].terms.expiresAt
    requires st.db.intents[r.id].sig.None?
    ensures var after := Run(st, RaceEvents(r, wait, effects, expiryLast)).db;
            && r.id in after.intents
            && after.intents[r.id].status == (if expiryLast then EXPIRED else SETTLED)
            && after.intents[r.id].sig == Some(r.sig) && r.sig in after.licences
  {
    var id := r.id;
    RaceSetup(st, r, wait, effects);
    var s4 := Step(Step(Step(Step(st, Begin(1, r)), VerifyOnChain(1, true)), Tick(wait)), Begin(2, r));
    var fifth := if expiryLast then CommitStep(1, effects) else WriteExpiry(2);
    var sixth := if expiryLast then WriteExpiry(2) else CommitStep(1, effects);
    hide PreCheck, Confirms, PaidReply;
    if expiryLast {
      ExpiryAfterCommit(s4, id, r.sig, effects);
    } else {
      CommitAfterExpiry(s4, id, r.sig, effects);
    }
    hide Step;
    assert RaceEvents(r, wait, effects, expiryLast)
        == [Begin(1, r), VerifyOnChain(1, true), Tick(wait), Begin(2, r)] + [fifth] + [sixth];
    RunSnoc(st, [Begin(1, r), VerifyOnChain(1, true), Tick(wait), Begin(2, r)], fifth);
    RunSnoc(st, [Begin(1, r), VerifyOnChain(1, true), Tick(wait), Begin(2, r)] + [fifth], sixth);
    FourSteps(st, Begin(1, r), VerifyOnChain(1, true), Tick(wait), Begin(2, r));
  }

  lemma RaceSetup(st: State, r: SettleRequest, wait: nat, effects: Effects)
    requires ReadyToRace(st, r, effects) && st.db.now + wait >= st.db.intents[r.id].terms.expiresAt
    ensures Step(Step(Step(Step(st, Begin(1, r)), VerifyOnChain(1, true)), Tick(wait)), Begin(2, r))
         == State(st.db.(now := st.db.now + wait), map[1 := Verified(r.id, r.sig), 2 := MustExpire(r.id)])
  {
    hide VerifyUsdcPayment, PaidReply, BoundElsewhere;
    var s1 := Step(st, Begin(1, r));
    assert s1 == State(st.db, map[1 := Checked(r.id, r.sig, st.db.intents[r.id].terms)]);
    var s2 := Step(s1, VerifyOnChain(1, true));
    assert s2 == State(st.db, map[1 := Verified(r.id, r.sig)]);
    var s3 := Step(s2, Tick(wait));
    assert PreCheck(s3.db, r) == Overdue;
    assert Step(s3, Begin(2, r)).workers == map[1 := Verified(r.id, r.sig), 2 := MustExpire(r.id)];
  }

  lemma ExpiryAfterCommit(st: State, id: IntentId, sig: Sig, effects: Effects)
    requires st.workers == map[1 := Verified(id, sig), 2 := MustExpire(id)] && id in st.db.intents
    requires st.db.intents[id].status == CREATED && st.db.intents[id].sig.None? && !BoundElsewhere(st.db, id, sig)
    requires !effects.raises
    ensures var after := Step(Step(st, CommitStep(1, effects)), WriteExpiry(2)).db;
            && id in after.intents && after.intents[id].status == EXPIRED
            && after.intents[id].sig == Some(sig) && sig in after.licences
  {
    hide PaidReply, VerifyUsdcPayment, CreateIntent, PreCheck, ChainCheck, BoundElsewhere;
    var first := Step(st, CommitStep(1, effects));
    assert first == State(Settled(st.db, id, sig, effects), map[2 := MustExpire(id)]);
  }

  lemma CommitAfterExpiry(st: State, id: IntentId, sig: Sig, effects: Effects)
    requires st.workers == map[1 := Verified(id, sig), 2 := MustExpire(id)] && id in st.db.intents
    requires st.db.intents[id].status == CREATED && st.db.intents[id].sig.None? && !BoundElsewhere(st.db, id, sig)
    requires !effects.raises
    ensures var after := Step(Step(st, WriteExpiry(2)), CommitStep(1, effects)).db;
            && id in after.intents && after.intents[id].status == SETTLED
            && after.intents[id].sig == Some(sig) && sig in after.licences
  {
    hide PaidReply;
    var first := Step(st, WriteExpiry(2));
    assert first == State(MarkExpired(st.db, id), map[1 := Verified(id, sig)]);
    assert !BoundElsewhere(first.db, id, sig);
  }

  lemma RunSnoc(st: State, events: seq<Event>, e: Event)
    ensures Run(st, events + [e]) == Step(Run(st, events), e)
  {
    assert (events + [e])[..|events + [e]| - 1] == events;
  }

  lemma FourSteps(st: State, a: Event, b: Event, c: Event, d: Event)
    ensures Run(st, [a, b, c, d]) == Step(Step(Step(Step(st, a), b), c), d)
  {
    hide Step;
    assert [a, b, c, d] == [] + [a] + [b] + [c] + [d];
    RunSnoc(st, [], a);
    RunSnoc(st, [] + [a], b);
    RunSnoc(st, [] + [a] + [b], c);
    RunSnoc(st, [] + [a] + [b] + [c], d);
  }

  // ---------- One request at a time ----------

  datatype SerialEvent =
    | Serve(request: SettleRequest, chainUp: bool, effects: Effects)
    | Other(event: Event)

  function SerialStep(db: Db, e: SerialEvent): Db
  {
    match e
    case Serve(r, chainUp, effects) => ServeSettle(db, r, chainUp, effects).0
    case Other(event) => Step(State(db, map[]), event).db
  }

  function SerialRun(db: Db, events: seq<SerialEvent>): Db
    decreases |events|
  {
    if events == [] then db else SerialStep(SerialRun(db, events[..|events| - 1]), events[|events| - 1])
  }

  /** A whole request is its four steps taken without interruption. */
  lemma ServeIsFourSteps(db: Db, r: SettleRequest, chainUp: bool, effects: Effects)
    ensures var st := State(db, map[]);
            Step(Step(Step(Step(st, Begin(0, r)), WriteExpiry(0)), VerifyOnChain(0, chainUp)), CommitStep(0, effects))
            == State(ServeSettle(db, r, chainUp, effects).0, map[])
  {
    hide VerifyUsdcPayment, PaidReply, Confirms;
    var st := State(db, map[]);
    var s1 := Step(st, Begin(0, r));
    match PreCheck(db, r)
    case Finished(_) =>
      assert s1 == st;
    case Overdue =>
      assert s1.workers == map[0 := MustExpire(r.id)];
      assert Without(s1.workers, 0) == map[];
    case Proceed(terms) =>
      assert s1.workers == map[0 := Checked(r.id, r.sig, terms)];
      assert Without(s1.workers, 0) == map[];
      var s3 := Step(s1, VerifyOnChain(0, chainUp));
      if ChainCheck(db, r.sig, terms, chainUp).None? {
        assert s3.workers == map[0 := Verified(r.id, r.sig)];
        assert Without(s3.workers, 0) == map[];
      }
  }

  lemma SerialStepKeepsInv(db: Db, e: SerialEvent)
    requires DbInv(db)
    ensures DbInv(SerialStep(db, e)) && Extends(db, SerialStep(db, e))
  {
    var st := State(db, map[]);
    hide DbInv, Extends, Step;
    match e
    case Other(event) => RunKeepsInv(st, [event]); OneStep(st, event);
    case Serve(r, chainUp, effects) =>
      ServeIsFourSteps(db, r, chainUp, effects);
      RunKeepsInv(st, [Begin(0, r), WriteExpiry(0), VerifyOnChain(0, chainUp), CommitStep(0, effects)]);
      FourSteps(st, Begin(0, r), WriteExpiry(0), VerifyOnChain(0, chainUp), CommitStep(0, effects));
  }

  lemma OneStep(st: State, a: Event)
    ensures Run(st, [a]) == Step(st, a)
  {
    hide Step;
    assert [a][..0] == [];
  }

  lemma {:induction false} SerialRunKeepsInv(db: Db, events: seq<SerialEvent>)
    requires DbInv(db)
    ensures DbInv(SerialRun(db, events)) && Extends(db, SerialRun(db, events))
    decreases |events|
  {
    hide DbInv, SerialStep;
    if events != [] {
      SerialRunKeepsInv(db, events[..|events| - 1]);
      var mid := SerialRun(db, events[..|events| - 1]);
      SerialStepKeepsInv(mid, events[|events| - 1]);
      ExtendsIsTransitive(db, mid, SerialStep(mid, events[|events| - 1]));
    }
  }

  /** SETTLED and EXPIRED intents are left exactly as they are. */
  lemma SerialStepKeepsFinalIntents(db: Db, e: SerialEvent, id: IntentId)
    requires DbInv(db) && id in db.intents && db.intents[id].status in {SETTLED, EXPIRED}
    ensures id in SerialStep(db, e).intents && SerialStep(db, e).intents[id] == db.intents[id]
  {
    assert IntentSound(db, id);
    hide DbInv, IntentSound, ServeSettle, Step;
    match e
    case Serve(r, chainUp, effects) => ServeKeepsFinalIntents(db, r, chainUp, effects, id);
    case Other(event) => IdleStepKeepsFinalIntents(db, event, id);
  }

  lemma IdleStepKeepsFinalIntents(db: Db, e: Event, id: IntentId)
    requires id in db.intents && db.intents[id].status in {SETTLED, EXPIRED}
    ensures var after := Step(State(db, map[]), e).db; id in after.intents && after.intents[id] == db.intents[id]
  {
    if e.Create? {
      CreateKeepsFinalIntents(db, e.create, id);
    }
    hide CreateIntent, PreCheck, ChainCheck, Commit, MarkExpired;
  }

  lemma ServeKeepsFinalIntents(db: Db, r: SettleRequest, chainUp: bool, effects: Effects, id: IntentId)
    requires id in db.intents && db.intents[id].status in {SETTLED, EXPIRED}
    requires db.intents[id].status == EXPIRED ==> db.intents[id].terms.expiresAt <= db.now
    ensures id in ServeSettle(db, r, chainUp, effects).0.intents
    ensures ServeSettle(db, r, chainUp, effects).0.intents[id] == db.intents[id]
  {
    hide PaidReply, ChainCheck, BoundElsewhere;
  }

  lemma CreateKeepsFinalIntents(db: Db, c: CreateRequest, id: IntentId)
    requires id in db.intents && db.intents[id].status in {SETTLED, EXPIRED}
    ensures id in CreateIntent(db, c).0.intents && CreateIntent(db, c).0.intents[id] == db.intents[id]
  {
    hide UnitsOf;
  }

  lemma {:induction false} FinalStatusesAreAbsorbing(db: Db, events: seq<SerialEvent>, id: IntentId)
    requires DbInv(db) && id in db.intents && db.intents[id].status in {SETTLED, EXPIRED}
    ensures id in SerialRun(db, events).intents && SerialRun(db, events).intents[id] == db.intents[id]
    decreases |events|
  {
    hide DbInv, SerialStep;
    if events != [] {
      var front := events[..|events| - 1];
      FinalStatusesAreAbsorbing(db, front, id);
      SerialRunKeepsInv(db, front);
      SerialStepKeepsFinalIntents(SerialRun(db, front), events[|events| - 1], id);
    }
  }

  /** From an empty store, requests served one at a time never show an intent in SUBMITTED, and what
      is settled or expired at any point stays so, untouched. */
  lemma SerialRunsNeverShowSubmitted(now: int, mint: Mint, first: seq<SerialEvent>, more: seq<SerialEvent>)
    ensures var mid := SerialRun(EmptyDb(now, mint), first);
            var end := SerialRun(mid, more);
            && (forall id :: id in end.intents ==> end.intents[id].status != SUBMITTED)
            && (forall id :: id in mid.intents && mid.intents[id].status in {SETTLED, EXPIRED} ==>
                  id in end.intents && end.intents[id] == mid.intents[id])
  {
    SerialRunKeepsInv(EmptyDb(now, mint), first);
    var mid := SerialRun(EmptyDb(now, mint), first);
    SerialRunKeepsInv(mid, more);
    var end := SerialRun(mid, more);
    forall id | id in end.intents
      ensures end.intents[id].status != SUBMITTED
    {
      assert IntentSound(end, id);
    }
    hide DbInv;
    forall id | id in mid.intents && mid.intents[id].status in {SETTLED, EXPIRED}
      ensures id in end.intents && end.intents[id] == mid.intents[id]
    {
      FinalStatusesAreAbsorbing(mid, more, id);
    }
  }

  /** Exactly when one request settles an intent: it names it with a usable signature for its asset, user
      and channel, before its expiry, the signature being bound to nothing else, and the chain has
      finalized a transaction of that signature paying the intent's terms from its buyer. */
  lemma OneRequestSettlesExactlyWhen(db: Db, r: SettleRequest, chainUp: bool, effects: Effects, id: IntentId)
    requires DbInv(db) && id in db.intents && db.intents[id].status != SETTLED
    ensures var (after, reply) := ServeSettle(db, r, chainUp, effects);
            var it := db.intents[id];
            && id in after.intents
            && (after.intents[id].status == SETTLED <==>
                && r == SettleRequest(it.terms.asset, it.terms.buyerUser, it.terms.channel, id, r.sig)
                && 0 < |r.sig| <= 140
                && db.now < it.terms.expiresAt
                && (it.sig.None? || it.sig == Some(r.sig))
                && (forall other :: other in db.intents && other != id ==> db.intents[other].sig != Some(r.sig))
                && chainUp && r.sig in db.ledger
                && Pays(db.ledger[r.sig], it.terms.recipient, it.terms.amount, db.mint, Some(it.terms.memo), it.terms.buyer)
                && !effects.raises)
            && (after.intents[id].status == SETTLED ==>
                after.intents[id].sig == Some(r.sig) && reply == PaidReply(after, id) && reply.Paid?)
  {
    hide VerifyUsdcPayment;
    assert IntentSound(db, id);
    if r.sig in db.ledger {
      var t := db.intents[id].terms;
      PaymentIsRecognisedExactlyWhen(db.ledger[r.sig], t.recipient, t.amount, db.mint, Some(t.memo), t.buyer);
    }
    hide DbInv, IntentSound, Pays;
  }

  /** The request names an intent of its own asset, user and channel, with a usable signature. */
  ghost predicate Names(db: Db, r: SettleRequest)
  {
    && r.id in db.intents && 0 < |r.sig| <= 140
    && r.asset == db.intents[r.id].terms.asset && r.buyerUser == db.intents[r.id].terms.buyerUser
    && r.channel == db.intents[r.id].terms.channel
  }

  /** What one request that settles nothing leaves behind: an overdue intent marked expired, and otherwise
      nothing changed; exactly when the answer is to wait; and what is answered when the chain cannot be
      asked or holds something else than the payment. */
  lemma OneRequestChangesNothingElse(db: Db, r: SettleRequest, chainUp: bool, effects: Effects)
    ensures var (after, reply) := ServeSettle(db, r, chainUp, effects);
            var overdue := Names(db, r) && db.intents[r.id].status != SETTLED && db.intents[r.id].terms.expiresAt <= db.now;
            && (overdue ==> reply == Refused(409)
                            && after == db.(intents := db.intents[r.id := db.intents[r.id].(status := EXPIRED)]))
            && (after != db ==> overdue || (Names(db, r) && after.intents.Keys == db.intents.Keys
                                            && after.intents[r.id].status == SETTLED
                                            && forall id :: id in db.intents && id != r.id ==> after.intents[id] == db.intents[id]))
            && (reply == Pending <==>
                && Names(db, r) && db.intents[r.id].status != SETTLED && !overdue
                && (db.intents[r.id].sig.None? || db.intents[r.id].sig == Some(r.sig))
                && (forall id :: id in db.intents && id != r.id ==> db.intents[id].sig != Some(r.sig))
                && chainUp && r.sig !in db.ledger)
            && (Names(db, r) && db.intents[r.id].status != SETTLED && !overdue
                && (db.intents[r.id].sig.None? || db.intents[r.id].sig == Some(r.sig))
                && (forall id :: id in db.intents && id != r.id ==> db.intents[id].sig != Some(r.sig)) ==>
                  && (!chainUp ==> reply == Refused(503))
                  && (chainUp && r.sig in db.ledger && !ConfirmedPays(db, r.sig, db.intents[r.id].terms) ==>
                        reply == Refused(422)))
  {
    hide VerifyUsdcPayment;
    if r.id in db.intents {
      ConfirmedIsPaid(db, r.sig, db.intents[r.id].terms);
    }
    hide ConfirmedPays, Confirms;
  }

  /** Creating an intent: exactly when it succeeds, which existing intents it expires - this buyer's
      overdue untouched ones for the asset - and that it changes no other. */
  lemma CreateAnswers(db: Db, c: CreateRequest)
    ensures var (after, reply) := CreateIntent(db, c);
            var sellable := c.assetListed && c.assetPriced && !c.source.UnknownSession? && c.recipientValid;
            && (reply.Created? <==>
                && sellable && c.sponsorUp
                && PriceOf(c.source) > 0.0 && Money.IsSixDecimal(PriceOf(c.source))
                && Payment.Utf8Length("VERIPROOF:USDC:" + c.id) <= 566
                && c.id !in db.intents)
            && (reply == Refused(404) <==> !c.assetListed)
            && (reply == Refused(409) <==> c.assetListed && (!c.assetPriced || c.source.UnknownSession?))
            && after == db.(intents := after.intents)
            && (forall id :: id in after.intents <==> id in db.intents || (reply.Created? && id == c.id))
            && (forall id :: id in db.intents ==>
                  var it := db.intents[id];
                  after.intents[id] ==
                  if && sellable && it.status == CREATED && it.terms.expiresAt <= db.now && it.terms.asset == c.asset
                     && it.terms.buyerUser == c.buyerUser && it.terms.buyer == c.buyer
                  then it.(status := EXPIRED) else it)
  {
    assert Payment.MEMO_PREFIX <= MemoOf(c.id);
    hide Payment.Utf8Length, Money.IsSixDecimal, Payment.ServerInstructions;
  }

  /** Whatever is settled was settled before its expiry. */
  ghost predicate SettledInTime(db: Db)
  {
    forall id :: id in db.intents && db.intents[id].status == SETTLED ==>
      db.intents[id].settledAt.Some? && db.intents[id].settledAt.value < db.intents[id].terms.expiresAt
  }

  lemma SerialStepSettlesInTime(db: Db, e: SerialEvent)
    requires DbInv(db) && SettledInTime(db)
    ensures SettledInTime(SerialStep(db, e))
  {
    hide DbInv, VerifyUsdcPayment, PaidReply, Confirms, ChainCheck, BoundElsewhere, UnitsOf;
    if e.Serve? {
      ServeSettlesInTime(db, e.request, e.chainUp, e.effects);
    } else {
      if e.event.Create? {
        CreateSettlesNothing(db, e.event.create);
      }
      hide CreateIntent, PreCheck, Commit, MarkExpired;
    }
  }

  lemma ServeSettlesInTime(db: Db, r: SettleRequest, chainUp: bool, effects: Effects)
    requires SettledInTime(db)
    ensures SettledInTime(ServeSettle(db, r, chainUp, effects).0)
  {
    hide ChainCheck, PaidReply, BoundElsewhere;
  }

  lemma CreateSettlesNothing(db: Db, c: CreateRequest)
    requires SettledInTime(db)
    ensures SettledInTime(CreateIntent(db, c).0)
  {
    hide UnitsOf;
  }

  /** Over every run of requests served one at a time: whatever stands settled was settled before its
      expiry, and a finalized transaction of its signature pays its terms from its buyer. */
  lemma {:induction false} SettledOnlyInTimeWithAFinalPayment(now: int, mint: Mint, events: seq<SerialEvent>)
    ensures var db := SerialRun(EmptyDb(now, mint), events);
            && SettledInTime(db)
            && forall id :: id in db.intents && db.intents[id].status == SETTLED ==>
                 var it := db.intents[id];
                 && it.sig.Some? && it.sig.value in db.ledger
                 && Pays(db.ledger[it.sig.value], it.terms.recipient, it.terms.amount, db.mint, Some(it.terms.memo),
                         it.terms.buyer)
    decreases |events|
  {
    var db := SerialRun(EmptyDb(now, mint), events);
    if events != [] {
      var front := events[..|events| - 1];
      SettledOnlyInTimeWithAFinalPayment(now, mint, front);
      SerialRunKeepsInv(EmptyDb(now, mint), front);
      SerialStepSettlesInTime(SerialRun(EmptyDb(now, mint), front), events[|events| - 1]);
    }
    SerialRunKeepsInv(EmptyDb(now, mint), events);
    forall id | id in db.intents && db.intents[id].status == SETTLED
      ensures db.intents[id].sig.Some? && Confirms(db, db.intents[id].sig.value, db.intents[id].terms)
      ensures ConfirmedPays(db, db.intents[id].sig.value, db.intents[id].terms)
    {
      assert IntentSound(db, id);
      hide SerialRun, DbInv, SettledInTime, VerifyUsdcPayment;
      ConfirmedIsPaid(db, db.intents[id].sig.value, db.intents[id].terms);
    }
    hide SerialRun, DbInv, SettledInTime, VerifyUsdcPayment, Pays;
  }

  /** Asking again about a settled intent, at any later point of a serial run and whatever signature
      is sent along, returns the licence, token and download deadline it was settled with, and
      changes nothing. */
  lemma ReplayReturnsTheSameLicence(db: Db, events: seq<SerialEvent>, r: SettleRequest, chainUp: bool, effects: Effects)
    requires DbInv(db) && r.id in db.intents && db.intents[r.id].status == SETTLED
    requires var t := db.intents[r.id].terms;
             r.asset == t.asset && r.buyerUser == t.buyerUser && r.channel == t.channel && 0 < |r.sig| <= 140
    ensures var later := SerialRun(db, events);
            ServeSettle(later, r, chainUp, effects) == (later, PaidReply(db, r.id))
    ensures PaidReply(db, r.id).Paid?
  {
    var later := SerialRun(db, events);
    FinalStatusesAreAbsorbing(db, events, r.id);
    SerialRunKeepsInv(db, events);
    assert IntentSound(db, r.id);
    hide DbInv, IntentSound, SerialRun;
    var s := db.intents[r.id].sig.value;
    assert later.licences[s].(certificate := None) == db.licences[s].(certificate := None);
    assert later.licences[s].token == db.licences[s].(certificate := None).token;
  }
}
