/** Splitting a licence price between the original and the secondary creator, and paying the legs out
    of escrow with retries. Amounts are integers of micro-USDC once split. */
module Royalty {
  import opened Options
  import opened Money

  type Wallet = string

  datatype Role = ORIGINAL | SECONDARY
  datatype RowStatus = SETTLED | FAILED

  datatype Leg = Leg(role: Role, wallet: Wallet, amount: int)
  datatype Row = Row(leg: Leg, status: RowStatus, transferSig: Option<string>)

  /** What one licence's distribution works from. */
  datatype Terms = Terms(price: real, bps: int, originalWallet: Wallet, secondaryWallet: Wallet)

  function TotalUnits(price: real): int { HalfEven(MicroUsdc(price)) }

  /** The original creator's share rounds down; the remainder goes to the secondary creator. */
  function ComputeSplit(price: real, bps: int): (int, int)
  {
    var total := TotalUnits(price);
    var original := total * bps / 10000;
    (original, total - original)
  }

  /** Shares are non-negative, lose nothing of the half-even rounded price, and the original share is
      less than one unit below its exact value. A six-decimal price is not rounded at all. */
  lemma SplitLosesNothing(price: real, bps: int)
    requires price >= 0.0 && 0 <= bps <= 10000
    ensures var (original, secondary) := ComputeSplit(price, bps);
            && original >= 0 && secondary >= 0
            && original + secondary == TotalUnits(price)
            && 0 <= TotalUnits(price) * bps - original * 10000 < 10000
    ensures -0.5 <= TotalUnits(price) as real - MicroUsdc(price) <= 0.5
    ensures IsSixDecimal(price) ==> TotalUnits(price) as real == MicroUsdc(price)
  {
    var total := TotalUnits(price);
    assert total >= 0;
    ShareBounds(total, bps);
    if IsSixDecimal(price) {
      RoundingsFixIntegers(MicroUsdc(price).Floor);
    }
  }

  lemma ShareBounds(total: nat, bps: int)
    requires 0 <= bps <= 10000
    ensures 0 <= total * bps / 10000 <= total
  {
    assert 0 <= total * bps <= total * 10000;
  }

  /** Two legs, or a single combined one when both roles share a wallet. */
  function Legs(t: Terms): seq<Leg>
  {
    var (original, secondary) := ComputeSplit(t.price, t.bps);
    if t.originalWallet == t.secondaryWallet then [Leg(SECONDARY, t.secondaryWallet, original + secondary)]
    else [Leg(ORIGINAL, t.originalWallet, original), Leg(SECONDARY, t.secondaryWallet, secondary)]
  }

  function LegAmount(t: Terms, role: Role): int
  {
    var (original, secondary) := ComputeSplit(t.price, t.bps);
    if t.originalWallet == t.secondaryWallet then if role == SECONDARY then original + secondary else 0
    else if role == ORIGINAL then original else secondary
  }

  lemma LegsCarryTheirAmounts(t: Terms, leg: Leg)
    requires leg in Legs(t)
    ensures leg.amount == LegAmount(t, leg.role)
  {
  }

  lemma LegOf(t: Terms, role: Role) returns (leg: Leg)
    requires LegAmount(t, role) > 0
    ensures leg in Legs(t) && leg.role == role && leg.amount == LegAmount(t, role)
  {
    var legs := Legs(t);
    leg := if legs[0].role == role then legs[0] else legs[1];
  }

  // ---------- Paying ----------

  predicate HasSettled(rows: seq<Row>, role: Role)
  {
    exists i :: 0 <= i < |rows| && rows[i].status == SETTLED && rows[i].leg.role == role
  }

  /** A transfer of nothing is refused before it is submitted. */
  function Transferred(leg: Leg, outcome: Option<string>): Option<string>
  {
    if leg.amount > 0 then outcome else None
  }

  function RowFor(leg: Leg, sig: Option<string>): Row
  {
    Row(leg, if sig.Some? then SETTLED else FAILED, sig)
  }

  /** A licence's distribution rows as stored, and the transfers that left escrow. */
  datatype Ledger = Ledger(rows: seq<Row>, transfers: seq<Leg>)

  /** One attempt at one leg. The outcome is the transfer's signature if it went through; whether the
      row can then be saved is another matter, and an unsaved row raises. */
  function SettleLeg(l: Ledger, leg: Leg, outcome: Option<string>, saves: bool): (Ledger, bool)
  {
    if HasSettled(l.rows, leg.role) then (l, true)
    else
      var sig := Transferred(leg, outcome);
      var transfers := if sig.Some? then l.transfers + [leg] else l.transfers;
      (Ledger(if saves then l.rows + [RowFor(leg, sig)] else l.rows, transfers), saves)
  }

  /** One call: the outcome of each leg's transfer, whether each row is saved, and whether the
      transaction around the call commits in the end. */
  datatype Call = Call(outcomes: seq<Option<string>>, saves: seq<bool>, commits: bool)

  predicate CallCovers(c: Call, legs: seq<Leg>) { |c.outcomes| >= |legs| && |c.saves| >= |legs| }

  /** The legs are tried in order up to the first row that cannot be saved. */
  function SettleLegs(l: Ledger, legs: seq<Leg>, c: Call): (Ledger, bool)
    requires CallCovers(c, legs)
    decreases |legs|
  {
    if legs == [] then (l, true)
    else
      var n := |legs| - 1;
      var (before, ok) := SettleLegs(l, legs[..n], c);
      if !ok then (before, false) else SettleLeg(before, legs[n], c.outcomes[n], c.saves[n])
  }

  /** A rollback takes back the rows, never the transfers. */
  function Distribution(l: Ledger, t: Terms, c: Call): Ledger
    requires CallCovers(c, Legs(t))
  {
    var after := SettleLegs(l, Legs(t), c).0;
    if c.commits then after else after.(rows := l.rows)
  }

  class RoyaltyLedger {
    const terms: Terms
    var rows: seq<Row>
    var transfers: seq<Leg>

    ghost function View(): Ledger
      reads this
    {
      Ledger(rows, transfers)
    }

    constructor (terms: Terms)
      ensures View() == Ledger([], []) && this.terms == terms
    {
      this.terms := terms;
      rows, transfers := [], [];
    }

    method Settle(leg: Leg, outcome: Option<string>, saves: bool) returns (ok: bool)
      modifies this
      ensures (View(), ok) == SettleLeg(old(View()), leg, outcome, saves)
    {
      if HasSettled(rows, leg.role) {
        return true;
      }
      var sig := Transferred(leg, outcome);
      if sig.Some? {
        transfers := transfers + [leg];
      }
      if !saves {
        return false;
      }
      rows := rows + [RowFor(leg, sig)];
      ok := true;
    }

    /** One call inside a transaction: every leg is tried, a failed transfer does not stop its sibling,
        a row that cannot be saved does. */
    method Distribute(c: Call)
      requires CallCovers(c, Legs(terms))
      modifies this
      ensures View() == Distribution(old(View()), terms, c)
    {
      var stored := rows;
      var legs := Legs(terms);
      var i, ok := 0, true;
      while i < |legs| && ok
        invariant 0 <= i <= |legs| && (View(), ok) == SettleLegs(old(View()), legs[..i], c)
      {
        assert legs[..i + 1][..i] == legs[..i];
        ok := Settle(legs[i], c.outcomes[i], c.saves[i]);
        i := i + 1;
      }
      StoppedEarly(old(View()), legs, c, i);
      assert legs[..|legs|] == legs;
      if !c.commits {
        rows := stored;
      }
    }
  }

  lemma {:induction false} StoppedEarly(l: Ledger, legs: seq<Leg>, c: Call, i: nat)
    requires i <= |legs| && CallCovers(c, legs)
    ensures !SettleLegs(l, legs[..i], c).1 ==> SettleLegs(l, legs, c) == SettleLegs(l, legs[..i], c)
    decreases |legs|
  {
    if i == |legs| {
      assert legs[..i] == legs;
    } else {
      assert legs[..|legs| - 1][..i] == legs[..i];
      StoppedEarly(l, legs[..|legs| - 1], c, i);
    }
  }

  // ---------- What one call does ----------

  /** A leg's own row: settled exactly if it is worth something and its own transfer went through. */
  function OwnRow(leg: Leg, outcome: Option<string>): Row
  {
    if leg.amount > 0 && outcome.Some? then Row(leg, SETTLED, outcome) else Row(leg, FAILED, None)
  }

  /** One row for each of the first n legs that is due: whose role has no settled row yet. */
  function NewRows(rows: seq<Row>, legs: seq<Leg>, c: Call, n: nat): seq<Row>
    requires CallCovers(c, legs) && n <= |legs|
  {
    if n == 0 then []
    else
      var leg := legs[n - 1];
      NewRows(rows, legs, c, n - 1) + if HasSettled(rows, leg.role) then [] else [OwnRow(leg, c.outcomes[n - 1])]
  }

  /** Those of the first n legs that are due, worth something and whose transfer went through. */
  function NewTransfers(rows: seq<Row>, legs: seq<Leg>, c: Call, n: nat): seq<Leg>
    requires CallCovers(c, legs) && n <= |legs|
  {
    if n == 0 then []
    else
      var leg := legs[n - 1];
      NewTransfers(rows, legs, c, n - 1)
      + if !HasSettled(rows, leg.role) && leg.amount > 0 && c.outcomes[n - 1].Some? then [leg] else []
  }

  /** Where a call stops: at the first due leg whose row cannot be saved, or at the end. */
  function StopsAt(rows: seq<Row>, legs: seq<Leg>, c: Call, n: nat): (k: nat)
    requires CallCovers(c, legs) && n <= |legs|
    ensures k <= n
  {
    if n == 0 then 0
    else
      var before := StopsAt(rows, legs, c, n - 1);
      if before < n - 1 || (!HasSettled(rows, legs[n - 1].role) && !c.saves[n - 1]) then before else n
  }

  ghost predicate DistinctRoles(legs: seq<Leg>)
  {
    forall i, j :: 0 <= i < j < |legs| ==> legs[i].role != legs[j].role
  }

  /** Among some rows, the given one is there and is the only one of its role. */
  ghost predicate OnlyRowOfItsRole(rows: seq<Row>, row: Row)
  {
    exists k :: 0 <= k < |rows| && rows[k] == row
                && forall j :: 0 <= j < |rows| && j != k ==> rows[j].leg.role != row.leg.role
  }

  lemma {:induction false} DueLegHasOneNewRow(rows: seq<Row>, legs: seq<Leg>, c: Call, n: nat, i: nat)
    requires CallCovers(c, legs) && n <= |legs| && DistinctRoles(legs) && i < |legs|
    ensures i < n && !HasSettled(rows, legs[i].role) ==>
              OnlyRowOfItsRole(NewRows(rows, legs, c, n), OwnRow(legs[i], c.outcomes[i]))
    ensures i >= n || HasSettled(rows, legs[i].role) ==>
              forall k :: 0 <= k < |NewRows(rows, legs, c, n)| ==> NewRows(rows, legs, c, n)[k].leg.role != legs[i].role
    decreases n
  {
    if n > 0 {
      hide HasSettled;
      DueLegHasOneNewRow(rows, legs, c, n - 1, i);
      var before, after := NewRows(rows, legs, c, n - 1), NewRows(rows, legs, c, n);
      var row := OwnRow(legs[i], c.outcomes[i]);
      if i < n && !HasSettled(rows, legs[i].role) {
        if i == n - 1 {
          assert after == before + [row] && after[|before|] == row;
        } else {
          var k :| 0 <= k < |before| && before[k] == row
                   && forall j :: 0 <= j < |before| && j != k ==> before[j].leg.role != row.leg.role;
          assert after[k] == row;
        }
      }
    }
  }

  lemma NewRowsOfOtherRoles(rows: seq<Row>, more: seq<Row>, role: Role)
    requires forall k :: 0 <= k < |more| ==> more[k].leg.role != role
    ensures HasSettled(rows + more, role) <==> HasSettled(rows, role)
  {
    SettledIsPaid(rows, role);
    SettledIsPaid(more, role);
    SettledIsPaid(rows + more, role);
    PaidAdds(rows, more, role);
    if i :| 0 <= i < |more| && more[i].status == SETTLED && more[i].leg.role == role {
    }
    hide TimesPaid, PaidLegs;
  }

  ghost predicate DoneSoFar(l: Ledger, legs: seq<Leg>, c: Call, n: nat, after: Ledger, ok: bool)
    requires CallCovers(c, legs) && n <= |legs|
  {
    var stop := StopsAt(l.rows, legs, c, n);
    && (ok <==> stop == n)
    && after.rows == l.rows + NewRows(l.rows, legs, c, stop)
    && after.transfers == l.transfers + NewTransfers(l.rows, legs, c, if stop == n then n else stop + 1)
  }

  /** The first n legs of a call: those before the stop are done, the one it stops at has its transfer but
      no row, those after it are not touched. */
  lemma {:induction false} CallSoFar(l: Ledger, legs: seq<Leg>, c: Call, n: nat)
    requires CallCovers(c, legs) && n <= |legs| && DistinctRoles(legs)
    ensures DoneSoFar(l, legs, c, n, SettleLegs(l, legs[..n], c).0, SettleLegs(l, legs[..n], c).1)
    decreases n
  {
    if n > 0 {
      CallSoFar(l, legs, c, n - 1);
      assert legs[..n][..n - 1] == legs[..n - 1];
      var (before, ok) := SettleLegs(l, legs[..n - 1], c);
      hide DoneSoFar, SettleLeg, HasSettled;
      if ok {
        OneMoreLeg(l, legs, c, n, before);
      } else {
        StoppedStays(l, legs, c, n, before);
      }
    }
  }

  lemma StoppedStays(l: Ledger, legs: seq<Leg>, c: Call, n: nat, before: Ledger)
    requires CallCovers(c, legs) && 0 < n <= |legs| && DoneSoFar(l, legs, c, n - 1, before, false)
    ensures DoneSoFar(l, legs, c, n, before, false)
  {
    hide HasSettled, NewRows, NewTransfers;
  }

  lemma OneMoreLeg(l: Ledger, legs: seq<Leg>, c: Call, n: nat, before: Ledger)
    requires CallCovers(c, legs) && 0 < n <= |legs| && DistinctRoles(legs)
    requires DoneSoFar(l, legs, c, n - 1, before, true)
    ensures var next := SettleLeg(before, legs[n - 1], c.outcomes[n - 1], c.saves[n - 1]);
            DoneSoFar(l, legs, c, n, next.0, next.1)
  {
    var more := NewRows(l.rows, legs, c, n - 1);
    DueLegHasOneNewRow(l.rows, legs, c, n - 1, n - 1);
    NewRowsOfOtherRoles(l.rows, more, legs[n - 1].role);
    hide HasSettled, DistinctRoles;
  }

  /** A committed call, from its legs and outcomes alone: it tries every leg that is due, up to the first
      whose row cannot be saved. Each due leg before the stop gets its own row, and the transfers added
      are exactly those that went through; the leg it stops at may have been transferred, but has no
      row; the legs after it are not touched. If every row is saved no leg is left out, whatever
      becomes of its sibling. A call rolled back leaves the rows alone and the same transfers
      behind. */
  lemma CallTriesEveryLeg(l: Ledger, t: Terms, c: Call)
    requires CallCovers(c, Legs(t))
    ensures var after, legs := Distribution(l, t, c), Legs(t);
            var stop := StopsAt(l.rows, legs, c, |legs|);
            && after.rows == (if c.commits then l.rows + NewRows(l.rows, legs, c, stop) else l.rows)
            && after.transfers
               == l.transfers + NewTransfers(l.rows, legs, c, if stop == |legs| then |legs| else stop + 1)
            && ((forall i :: 0 <= i < |legs| ==> c.saves[i]) ==> stop == |legs|)
  {
    var legs := Legs(t);
    assert legs[..|legs|] == legs;
    CallSoFar(l, legs, c, |legs|);
    hide NewRows, NewTransfers, HasSettled, SettleLegs, Legs;
    if forall i :: 0 <= i < |legs| ==> c.saves[i] {
      NothingStops(l.rows, legs, c, |legs|);
    }
    hide StopsAt;
  }

  lemma {:induction false} NothingStops(rows: seq<Row>, legs: seq<Leg>, c: Call, n: nat)
    requires CallCovers(c, legs) && n <= |legs| && forall i :: 0 <= i < |legs| ==> c.saves[i]
    ensures StopsAt(rows, legs, c, n) == n
  {
    if n > 0 {
      NothingStops(rows, legs, c, n - 1);
    }
  }

  /** So in a committed call that saves its rows, a leg that is due has exactly one new row, decided by its
      own amount and outcome; a leg settled before has none. */
  lemma LegHasItsOwnRow(l: Ledger, t: Terms, c: Call, i: nat)
    requires CallCovers(c, Legs(t)) && i < |Legs(t)| && c.commits && forall j :: 0 <= j < |Legs(t)| ==> c.saves[j]
    ensures var leg, after := Legs(t)[i], Distribution(l, t, c).rows;
            && l.rows <= after
            && (!HasSettled(l.rows, leg.role) ==> OnlyRowOfItsRole(after[|l.rows|..], OwnRow(leg, c.outcomes[i])))
            && (HasSettled(l.rows, leg.role) ==>
                  forall k :: |l.rows| <= k < |after| ==> after[k].leg.role != leg.role)
  {
    var legs := Legs(t);
    CallTriesEveryLeg(l, t, c);
    assert DistinctRoles(legs);
    DueLegHasOneNewRow(l.rows, legs, c, |legs|, i);
    var added := NewRows(l.rows, legs, c, |legs|);
    hide NewRows, NewTransfers, HasSettled, Legs, Distribution, OwnRow, StopsAt, OnlyRowOfItsRole;
    assert (l.rows + added)[|l.rows|..] == added;
  }

  // ---------- Overlapping calls ----------

  /** A call between its steps: it has found a leg unsettled, or has tried its transfer. */
  datatype Stage = Idle | Checked(leg: Leg) | Tried(leg: Leg, sig: Option<string>)

  /** A call under way: the rows it saved that no other call can see yet. */
  datatype OpenCall = OpenCall(unseen: seq<Row>, stage: Stage)

  /** The stored rows, the transfers that left escrow, the transfers whose row was lost - which no code
      reads - and the calls under way. */
  datatype Escrow = Escrow(rows: seq<Row>, transfers: seq<Leg>, lost: seq<Leg>, calls: map<nat, OpenCall>)

  datatype Event =
    | Check(call: nat, leg: Leg)
    | Transfer(call: nat, outcome: Option<string>)
    | Save(call: nat)
    | SaveFails(call: nat)
    | Commit(call: nat)
    | Rollback(call: nat)

  const NEW_ESCROW := Escrow([], [], [], map[])

  function CallAt(x: Escrow, call: nat): OpenCall
  {
    if call in x.calls then x.calls[call] else OpenCall([], Idle)
  }

  function LegOfTry(stage: Stage): seq<Leg>
  {
    if stage.Tried? && stage.sig.Some? then [stage.leg] else []
  }

  /** The legs whose rows say they are settled. */
  function PaidLegs(rows: seq<Row>): seq<Leg>
  {
    if rows == [] then []
    else
      var n := |rows| - 1;
      PaidLegs(rows[..n]) + if rows[n].status == SETTLED then [rows[n].leg] else []
  }

  /** The transfers a call has made that no stored row tells of. */
  function Unrecorded(c: OpenCall): seq<Leg> { PaidLegs(c.unseen) + LegOfTry(c.stage) }

  /** One step; an event that is not enabled changes nothing. No key or lock ties a transfer to the
      check before it or to the row after it. */
  function Step(t: Terms, x: Escrow, e: Event): Escrow
  {
    var c := CallAt(x, e.call);
    match e
    case Check(call, leg) =>
      if !c.stage.Idle? || leg !in Legs(t) || HasSettled(x.rows + c.unseen, leg.role) then x
      else x.(calls := x.calls[call := c.(stage := Checked(leg))])
    case Transfer(call, outcome) =>
      if !c.stage.Checked? then x
      else
        var sig := Transferred(c.stage.leg, outcome);
        x.(transfers := if sig.Some? then x.transfers + [c.stage.leg] else x.transfers,
           calls := x.calls[call := c.(stage := Tried(c.stage.leg, sig))])
    case Save(call) =>
      if !c.stage.Tried? then x
      else x.(calls := x.calls[call := OpenCall(c.unseen + [RowFor(c.stage.leg, c.stage.sig)], Idle)])
    case SaveFails(call) =>
      if !c.stage.Tried? then x
      else x.(lost := x.lost + LegOfTry(c.stage), calls := x.calls[call := c.(stage := Idle)])
    case Commit(call) =>
      if call !in x.calls || !c.stage.Idle? then x
      else x.(rows := x.rows + c.unseen, calls := x.calls - {call})
    case Rollback(call) =>
      if call !in x.calls then x else x.(lost := x.lost + Unrecorded(c), calls := x.calls - {call})
  }

  function Run(t: Terms, x: Escrow, events: seq<Event>): Escrow
    decreases |events|
  {
    if events == [] then x else Step(t, Run(t, x, events[..|events| - 1]), events[|events| - 1])
  }

  lemma RunSnoc(t: Terms, x: Escrow, events: seq<Event>, e: Event)
    ensures Run(t, x, events + [e]) == Step(t, Run(t, x, events), e)
  {
    assert (events + [e])[..|events|] == events;
  }

  // ---------- Calls one after the other ----------

  /** What a call sees: the stored rows and its own. */
  function Seen(x: Escrow, call: nat): Ledger
  {
    Ledger(x.rows + CallAt(x, call).unseen, x.transfers)
  }

  function LegEvents(leg: Leg, outcome: Option<string>, saves: bool): seq<Event>
  {
    [Check(0, leg), Transfer(0, outcome), if saves then Save(0) else SaveFails(0)]
  }

  lemma LegEventsAreThreeSteps(t: Terms, x: Escrow, leg: Leg, outcome: Option<string>, saves: bool)
    ensures Run(t, x, LegEvents(leg, outcome, saves))
         == Step(t, Step(t, Step(t, x, Check(0, leg)), Transfer(0, outcome)), if saves then Save(0) else SaveFails(0))
  {
    hide Step;
    var last := if saves then Save(0) else SaveFails(0);
    assert LegEvents(leg, outcome, saves) == [] + [Check(0, leg)] + [Transfer(0, outcome)] + [last];
    RunSnoc(t, x, [], Check(0, leg));
    RunSnoc(t, x, [] + [Check(0, leg)], Transfer(0, outcome));
    RunSnoc(t, x, [] + [Check(0, leg)] + [Transfer(0, outcome)], last);
  }

  /** A leg served alone is its three steps, one after the other. */
  lemma LegServedAlone(t: Terms, x: Escrow, leg: Leg, outcome: Option<string>, saves: bool)
    requires leg in Legs(t) && CallAt(x, 0).stage.Idle?
    ensures var after := Run(t, x, LegEvents(leg, outcome, saves));
            && Seen(after, 0) == SettleLeg(Seen(x, 0), leg, outcome, saves).0
            && after.rows == x.rows && CallAt(after, 0).stage.Idle?
  {
    hide Legs, HasSettled, Run, Transferred, PaidLegs;
    LegEventsAreThreeSteps(t, x, leg, outcome, saves);
    var c := CallAt(x, 0);
    if HasSettled(x.rows + c.unseen, leg.role) {
      SettledLegStays(t, x, leg, outcome, saves);
    } else {
      var sig := Transferred(leg, outcome);
      var checked := Step(t, x, Check(0, leg));
      assert CallAt(checked, 0) == OpenCall(c.unseen, Checked(leg));
      var tried := Step(t, checked, Transfer(0, outcome));
      assert CallAt(tried, 0) == OpenCall(c.unseen, Tried(leg, sig));
      assert tried.rows == x.rows && tried.transfers == if sig.Some? then x.transfers + [leg] else x.transfers;
      assert x.rows + (c.unseen + [RowFor(leg, sig)]) == x.rows + c.unseen + [RowFor(leg, sig)];
      hide RowFor, LegOfTry;
    }
  }

  lemma SettledLegStays(t: Terms, x: Escrow, leg: Leg, outcome: Option<string>, saves: bool)
    requires CallAt(x, 0).stage.Idle? && HasSettled(x.rows + CallAt(x, 0).unseen, leg.role)
    ensures Step(t, Step(t, Step(t, x, Check(0, leg)), Transfer(0, outcome)), if saves then Save(0) else SaveFails(0)) == x
  {
    hide HasSettled, Legs;
  }

  lemma {:induction false} RunInTwoParts(t: Terms, x: Escrow, first: seq<Event>, more: seq<Event>)
    ensures Run(t, x, first + more) == Run(t, Run(t, x, first), more)
    decreases |more|
  {
    hide Step;
    if more == [] {
      assert first + more == first;
    } else {
      var k := |more| - 1;
      RunInTwoParts(t, x, first, more[..k]);
      assert (first + more)[..|first + more| - 1] == first + more[..k];
    }
  }

  lemma {:induction false} LegsServedAlone(t: Terms, x: Escrow, legs: seq<Leg>, c: Call) returns (events: seq<Event>)
    requires CallAt(x, 0).stage.Idle? && CallCovers(c, legs) && forall leg :: leg in legs ==> leg in Legs(t)
    ensures forall e :: e in events ==> e.call == 0
    ensures var after := Run(t, x, events);
            && Seen(after, 0) == SettleLegs(Seen(x, 0), legs, c).0
            && after.rows == x.rows && CallAt(after, 0).stage.Idle?
    decreases |legs|
  {
    events := [];
    if legs != [] {
      var n := |legs| - 1;
      hide Legs, Step;
      events := LegsServedAlone(t, x, legs[..n], c);
      if SettleLegs(Seen(x, 0), legs[..n], c).1 {
        var mid := Run(t, x, events);
        assert legs[n] in legs;
        LegServedAlone(t, mid, legs[n], c.outcomes[n], c.saves[n]);
        RunInTwoParts(t, x, events, LegEvents(legs[n], c.outcomes[n], c.saves[n]));
        events := events + LegEvents(legs[n], c.outcomes[n], c.saves[n]);
      }
    }
  }

  /** So is a whole call, with its commit or rollback at the end. */
  lemma DistributionIsARun(t: Terms, x: Escrow, c: Call) returns (events: seq<Event>)
    requires x.calls == map[] && CallCovers(c, Legs(t))
    ensures forall e :: e in events ==> e.call == 0
    ensures var after := Run(t, x, events);
            after.calls == map[] && Ledger(after.rows, after.transfers) == Distribution(Ledger(x.rows, x.transfers), t, c)
  {
    assert x.rows + [] == x.rows;
    assert CallAt(x, 0) == OpenCall([], Idle) && Seen(x, 0) == Ledger(x.rows, x.transfers);
    events := LegsServedAlone(t, x, Legs(t), c);
    var mid := Run(t, x, events);
    OnlyThatCall(t, x, events, 0);
    var last := if c.commits then Commit(0) else Rollback(0);
    RunSnoc(t, x, events, last);
    hide Legs, Run, SettleLegs;
    events := events + [last];
    assert mid.calls - {0} == map[];
    assert 0 !in mid.calls ==> mid.rows + [] == mid.rows;
  }

  lemma {:induction false} OnlyThatCall(t: Terms, x: Escrow, events: seq<Event>, k: nat)
    requires x.calls.Keys <= {k} && forall e :: e in events ==> e.call == k
    ensures Run(t, x, events).calls.Keys <= {k}
    decreases |events|
  {
    if events != [] {
      hide Legs, HasSettled;
      assert events[|events| - 1] in events;
      OnlyThatCall(t, x, events[..|events| - 1], k);
    }
  }

  // ---------- Counting ----------

  /** How often a role was settled according to the rows. */
  function TimesPaid(rows: seq<Row>, role: Role): nat
  {
    if rows == [] then 0
    else
      var n := |rows| - 1;
      TimesPaid(rows[..n], role) + if rows[n].status == SETTLED && rows[n].leg.role == role then 1 else 0
  }

  function PaidTo(rows: seq<Row>, role: Role): int
  {
    if rows == [] then 0
    else
      var n := |rows| - 1;
      PaidTo(rows[..n], role) + if rows[n].status == SETTLED && rows[n].leg.role == role then rows[n].leg.amount else 0
  }

  function PaidTotal(rows: seq<Row>): int { PaidTo(rows, ORIGINAL) + PaidTo(rows, SECONDARY) }

  /** How often a role was sent its money. */
  function TimesSent(legs: seq<Leg>, role: Role): nat
  {
    if legs == [] then 0
    else TimesSent(legs[..|legs| - 1], role) + if legs[|legs| - 1].role == role then 1 else 0
  }

  /** What a wallet was sent. */
  function Received(legs: seq<Leg>, wallet: Wallet): int
  {
    if legs == [] then 0
    else Received(legs[..|legs| - 1], wallet) + if legs[|legs| - 1].wallet == wallet then legs[|legs| - 1].amount else 0
  }

  lemma HasSettledSnoc(rows: seq<Row>, role: Role)
    requires rows != []
    ensures var n := |rows| - 1;
            HasSettled(rows, role)
            <==> HasSettled(rows[..n], role) || (rows[n].status == SETTLED && rows[n].leg.role == role)
  {
    var n := |rows| - 1;
    if HasSettled(rows[..n], role) {
      var i :| 0 <= i < n && rows[..n][i].status == SETTLED && rows[..n][i].leg.role == role;
      assert rows[i] == rows[..n][i];
    }
    if i :| 0 <= i < n && rows[i].status == SETTLED && rows[i].leg.role == role {
      assert rows[..n][i] == rows[i];
    }
  }

  lemma {:induction false} SettledIsPaid(rows: seq<Row>, role: Role)
    ensures HasSettled(rows, role) <==> TimesPaid(rows, role) > 0
    ensures TimesPaid(rows, role) == TimesSent(PaidLegs(rows), role)
  {
    if rows != [] {
      var n := |rows| - 1;
      hide HasSettled;
      SettledIsPaid(rows[..n], role);
      HasSettledSnoc(rows, role);
      var before := PaidLegs(rows[..n]);
      if rows[n].status == SETTLED {
        assert (before + [rows[n].leg])[..|before|] == before;
      } else {
        assert PaidLegs(rows) == before;
      }
    }
  }

  lemma {:induction false} PaidAdds(a: seq<Row>, b: seq<Row>, role: Role)
    ensures TimesPaid(a + b, role) == TimesPaid(a, role) + TimesPaid(b, role)
    ensures PaidLegs(a + b) == PaidLegs(a) + PaidLegs(b)
    decreases |b|
  {
    if b == [] {
      assert a + b == a;
    } else {
      var n := |b| - 1;
      assert (a + b)[..|a + b| - 1] == a + b[..n];
      PaidAdds(a, b[..n], role);
    }
  }

  lemma {:induction false} SentAdds(a: seq<Leg>, b: seq<Leg>, role: Role, wallet: Wallet)
    ensures TimesSent(a + b, role) == TimesSent(a, role) + TimesSent(b, role)
    ensures Received(a + b, wallet) == Received(a, wallet) + Received(b, wallet)
    decreases |b|
  {
    if b == [] {
      assert a + b == a;
    } else {
      var n := |b| - 1;
      assert (a + b)[..|a + b| - 1] == a + b[..n];
      SentAdds(a, b[..n], role, wallet);
    }
  }

  /** Rows of the licence's own legs amount to what they were settled for. */
  lemma {:induction false} PaidToIs(t: Terms, rows: seq<Row>, role: Role)
    requires forall i :: 0 <= i < |rows| ==> rows[i].leg in Legs(t)
    ensures TimesPaid(rows, role) == 0 ==> PaidTo(rows, role) == 0
    ensures TimesPaid(rows, role) == 1 ==> PaidTo(rows, role) == LegAmount(t, role)
  {
    hide Legs, LegAmount;
    if rows != [] {
      var n := |rows| - 1;
      PaidToIs(t, rows[..n], role);
      LegsCarryTheirAmounts(t, rows[n].leg);
    }
  }

  // ---------- Transfers and rows ----------

  /** The transfers of all calls under way that no stored row tells of, as a bag. */
  ghost function OpenTransfers(calls: map<nat, OpenCall>): multiset<Leg>
    decreases |calls|
  {
    if calls == map[] then multiset{}
    else
      var c :| c in calls;
      assert |calls - {c}| < |calls| by { Fewer(calls, c); }
      multiset(Unrecorded(calls[c])) + OpenTransfers(calls - {c})
  }

  lemma Fewer(calls: map<nat, OpenCall>, c: nat)
    requires c in calls
    ensures |calls - {c}| < |calls|
  {
    assert (calls - {c}).Keys == calls.Keys - {c};
    assert |calls.Keys - {c}| < |calls.Keys|;
  }

  lemma {:induction false} OpenSplit(calls: map<nat, OpenCall>, k: nat)
    requires k in calls
    ensures OpenTransfers(calls) == multiset(Unrecorded(calls[k])) + OpenTransfers(calls - {k})
    decreases |calls|
  {
    hide Unrecorded;
    var c :| c in calls && OpenTransfers(calls) == multiset(Unrecorded(calls[c])) + OpenTransfers(calls - {c});
    if c != k {
      Fewer(calls, c);
      Fewer(calls, k);
      OpenSplit(calls - {c}, k);
      OpenSplit(calls - {k}, c);
      hide OpenTransfers;
      assert calls - {c} - {k} == calls - {k} - {c};
      var rest := OpenTransfers(calls - {c} - {k});
      var one, other := multiset(Unrecorded(calls[c])), multiset(Unrecorded(calls[k]));
      assert one + (other + rest) == other + (one + rest);
    }
  }

  ghost predicate Balanced(x: Escrow)
  {
    multiset(x.transfers) == multiset(PaidLegs(x.rows)) + multiset(x.lost) + OpenTransfers(x.calls)
  }

  lemma OpenAt(x: Escrow, k: nat)
    ensures OpenTransfers(x.calls) == multiset(Unrecorded(CallAt(x, k))) + OpenTransfers(x.calls - {k})
  {
    if k in x.calls {
      OpenSplit(x.calls, k);
    } else {
      assert x.calls - {k} == x.calls;
    }
  }

  lemma Moves(t: multiset<Leg>, p: multiset<Leg>, l: multiset<Leg>, u: multiset<Leg>, m: multiset<Leg>)
    ensures (t + m) + (p + l + u) == t + (p + l + (u + m))
    ensures t + (p + l + (u + m)) == t + (p + (l + m) + u)
    ensures t + (p + l + u) == t + ((p + u) + l + multiset{})
    ensures t + (p + l + u) == t + (p + (l + u) + multiset{})
  {
  }

  /** Between two states a call's part of the books moved, and nothing else did. */
  ghost predicate Moved(x: Escrow, after: Escrow, call: nat)
  {
    && after.calls - {call} == x.calls - {call}
    && multiset(after.transfers) + (multiset(PaidLegs(x.rows)) + multiset(x.lost) + multiset(Unrecorded(CallAt(x, call))))
    == multiset(x.transfers) + (multiset(PaidLegs(after.rows)) + multiset(after.lost)
                                + multiset(Unrecorded(CallAt(after, call))))
  }

  lemma CheckMoves(t: Terms, x: Escrow, e: Event)
    requires e.Check?
    ensures Moved(x, Step(t, x, e), e.call)
  {
    hide PaidLegs, HasSettled, Legs, Transferred;
    var c := CallAt(x, e.call);
    var unseen, tried := multiset(PaidLegs(c.unseen)), multiset(LegOfTry(c.stage));
    assert tried == multiset{} || Step(t, x, e) == x;
  }

  lemma TransferMoves(t: Terms, x: Escrow, e: Event)
    requires e.Transfer?
    ensures Moved(x, Step(t, x, e), e.call)
  {
    hide PaidLegs, HasSettled, Legs, Transferred;
    var c := CallAt(x, e.call);
    var unseen, tried := multiset(PaidLegs(c.unseen)), multiset(LegOfTry(c.stage));
    if c.stage.Checked? {
      var after := Step(t, x, e);
      var sent := LegOfTry(CallAt(after, e.call).stage);
      assert after.transfers == x.transfers + sent;
      Moves(multiset(x.transfers), multiset(PaidLegs(x.rows)), multiset(x.lost), unseen, multiset(sent));
    }
  }

  lemma SaveMoves(t: Terms, x: Escrow, e: Event)
    requires e.Save?
    ensures Moved(x, Step(t, x, e), e.call)
  {
    hide PaidLegs, HasSettled, Legs, Transferred;
    var c := CallAt(x, e.call);
    var unseen, tried := multiset(PaidLegs(c.unseen)), multiset(LegOfTry(c.stage));
    if c.stage.Tried? {
      PaidAdds(c.unseen, [RowFor(c.stage.leg, c.stage.sig)], ORIGINAL);
      OneRow(RowFor(c.stage.leg, c.stage.sig));
      assert Unrecorded(CallAt(Step(t, x, e), e.call)) == PaidLegs(c.unseen) + LegOfTry(c.stage);
    }
  }

  lemma SaveFailsMoves(t: Terms, x: Escrow, e: Event)
    requires e.SaveFails?
    ensures Moved(x, Step(t, x, e), e.call)
  {
    hide PaidLegs, HasSettled, Legs, Transferred;
    var c := CallAt(x, e.call);
    var unseen, tried := multiset(PaidLegs(c.unseen)), multiset(LegOfTry(c.stage));
    if c.stage.Tried? {
      Moves(multiset(x.transfers), multiset(PaidLegs(x.rows)), multiset(x.lost), unseen, tried);
    }
  }

  lemma CommitMoves(t: Terms, x: Escrow, e: Event)
    requires e.Commit?
    ensures Moved(x, Step(t, x, e), e.call)
  {
    hide PaidLegs, HasSettled, Legs, Transferred;
    var c := CallAt(x, e.call);
    var unseen, tried := multiset(PaidLegs(c.unseen)), multiset(LegOfTry(c.stage));
    if e.call in x.calls && c.stage.Idle? {
      NoRows();
      PaidAdds(x.rows, c.unseen, ORIGINAL);
      Moves(multiset(x.transfers), multiset(PaidLegs(x.rows)), multiset(x.lost), unseen, tried);
    }
  }

  lemma RollbackMoves(t: Terms, x: Escrow, e: Event)
    requires e.Rollback?
    ensures Moved(x, Step(t, x, e), e.call)
  {
    hide PaidLegs, HasSettled, Legs, Transferred;
    var c := CallAt(x, e.call);
    var unseen, tried := multiset(PaidLegs(c.unseen)), multiset(LegOfTry(c.stage));
    if e.call in x.calls {
      NoRows();
      Moves(multiset(x.transfers), multiset(PaidLegs(x.rows)), multiset(x.lost), multiset(Unrecorded(c)), tried);
    }
  }

  lemma StepMoves(t: Terms, x: Escrow, e: Event)
    ensures Moved(x, Step(t, x, e), e.call)
  {
    hide Step, Moved;
    match e
    case Check(_, _) => CheckMoves(t, x, e);
    case Transfer(_, _) => TransferMoves(t, x, e);
    case Save(_) => SaveMoves(t, x, e);
    case SaveFails(_) => SaveFailsMoves(t, x, e);
    case Commit(_) => CommitMoves(t, x, e);
    case Rollback(_) => RollbackMoves(t, x, e);
  }

  lemma NoRows()
    ensures PaidLegs([]) == []
  {
  }

  lemma StepKeepsBalance(t: Terms, x: Escrow, e: Event)
    requires Balanced(x)
    ensures Balanced(Step(t, x, e))
  {
    var after := Step(t, x, e);
    hide Step, PaidLegs, OpenTransfers, Unrecorded, CallAt;
    OpenAt(x, e.call);
    OpenAt(after, e.call);
    StepMoves(t, x, e);
    var others := OpenTransfers(x.calls - {e.call});
    Cancel(multiset(x.transfers), multiset(after.transfers),
           multiset(PaidLegs(x.rows)) + multiset(x.lost) + multiset(Unrecorded(CallAt(x, e.call))),
           multiset(PaidLegs(after.rows)) + multiset(after.lost) + multiset(Unrecorded(CallAt(after, e.call))), others);
    var before, now := multiset(Unrecorded(CallAt(x, e.call))), multiset(Unrecorded(CallAt(after, e.call)));
    Regroup(multiset(PaidLegs(x.rows)), multiset(x.lost), before, others);
    Regroup(multiset(PaidLegs(after.rows)), multiset(after.lost), now, others);
  }

  lemma Cancel(a: multiset<Leg>, b: multiset<Leg>, p: multiset<Leg>, q: multiset<Leg>, others: multiset<Leg>)
    requires a == p + others && b + p == a + q
    ensures b == q + others
  {
    forall leg: Leg
      ensures b[leg] == (q + others)[leg]
    {
      assert (b + p)[leg] == (a + q)[leg] && a[leg] == (p + others)[leg];
    }
  }

  lemma Regroup(a: multiset<Leg>, b: multiset<Leg>, c: multiset<Leg>, d: multiset<Leg>)
    ensures a + b + (c + d) == a + b + c + d
  {
  }

  lemma OneRow(row: Row)
    ensures PaidLegs([row]) == if row.status == SETTLED then [row.leg] else []
  {
    assert [row][..0] == [];
  }

  /** Over every run of overlapping calls, whatever transfers do and whatever is not saved or rolled
      back: what left escrow is what the stored rows say was settled, what calls under way have not
      stored yet, and what was lost. So once every call has ended, transfers and settled rows are the
      same exactly when no transfer's row was lost. */
  lemma {:induction false} TransfersAreRowsPlusLost(t: Terms, events: seq<Event>)
    ensures var x := Run(t, NEW_ESCROW, events);
            && Balanced(x)
            && (x.calls == map[] ==>
                  && multiset(x.transfers) == multiset(PaidLegs(x.rows)) + multiset(x.lost)
                  && (multiset(x.transfers) == multiset(PaidLegs(x.rows)) <==> x.lost == []))
    decreases |events|
  {
    if events != [] {
      TransfersAreRowsPlusLost(t, events[..|events| - 1]);
      StepKeepsBalance(t, Run(t, NEW_ESCROW, events[..|events| - 1]), events[|events| - 1]);
    }
    var x := Run(t, NEW_ESCROW, events);
    if x.lost != [] {
      assert x.lost[0] in multiset(x.lost);
    }
    hide Run, PaidLegs;
  }

  /** A stored row is never rewritten or removed. */
  lemma {:induction false} RowsAreOnlyAdded(t: Terms, x: Escrow, events: seq<Event>)
    ensures x.rows <= Run(t, x, events).rows
    decreases |events|
  {
    if events != [] {
      RowsAreOnlyAdded(t, x, events[..|events| - 1]);
    }
  }

  // ---------- When a role is paid once ----------

  predicate Paying(c: OpenCall, role: Role)
  {
    c.stage.Checked? && c.stage.leg.role == role && c.stage.leg.amount > 0
  }

  /** A call is about to pay the role although it may have been settled meanwhile. */
  ghost predicate AboutToPay(x: Escrow, role: Role)
  {
    exists k :: k in x.calls && Paying(x.calls[k], role)
  }

  /** The role has its row, or is worth nothing. */
  ghost predicate NothingDue(t: Terms, x: Escrow, role: Role)
  {
    HasSettled(x.rows, role) || LegAmount(t, role) <= 0
  }

  lemma StepSendsNoMore(t: Terms, x: Escrow, e: Event, role: Role)
    requires NothingDue(t, x, role) && !AboutToPay(x, role)
    ensures var after := Step(t, x, e);
            NothingDue(t, after, role) && !AboutToPay(after, role)
            && TimesSent(after.transfers, role) == TimesSent(x.transfers, role)
  {
    var after, c := Step(t, x, e), CallAt(x, e.call);
    SettledIsPaid(x.rows, role);
    SettledIsPaid(x.rows + c.unseen, role);
    PaidAdds(x.rows, c.unseen, role);
    SettledIsPaid(after.rows, role);
    if e.Check? && e.leg in Legs(t) {
      LegsCarryTheirAmounts(t, e.leg);
    }
    if e.Transfer? && c.stage.Checked? {
      SentAdds(x.transfers, [c.stage.leg], role, "");
      OneLeg(c.stage.leg, role);
    }
    hide Legs, LegAmount, HasSettled, TimesPaid, PaidLegs, TimesSent;
  }

  lemma OneLeg(leg: Leg, role: Role)
    ensures TimesSent([leg], role) == if leg.role == role then 1 else 0
  {
    assert [leg][..0] == [];
  }

  lemma {:induction false} RunSendsNoMore(t: Terms, x: Escrow, events: seq<Event>, role: Role)
    requires NothingDue(t, x, role) && !AboutToPay(x, role)
    ensures var end := Run(t, x, events);
            NothingDue(t, end, role) && !AboutToPay(end, role)
            && TimesSent(end.transfers, role) == TimesSent(x.transfers, role)
    decreases |events|
  {
    if events != [] {
      RunSendsNoMore(t, x, events[..|events| - 1], role);
      StepSendsNoMore(t, Run(t, x, events[..|events| - 1]), events[|events| - 1], role);
      hide Step, NothingDue, AboutToPay, TimesSent;
    }
  }

  lemma TransferSends(t: Terms, x: Escrow, k: nat, role: Role)
    requires k in x.calls && Paying(x.calls[k], role)
    ensures TimesSent(Step(t, x, Transfer(k, Some("tx"))).transfers, role) == TimesSent(x.transfers, role) + 1
  {
    SentAdds(x.transfers, [x.calls[k].stage.leg], role, "");
    OneLeg(x.calls[k].stage.leg, role);
  }

  lemma UnusedCall(s: set<nat>) returns (k: nat)
    ensures forall c :: c in s ==> c < k
  {
    k := 0;
    if s != {} {
      var c :| c in s;
      k := UnusedCall(s - {c});
      k := if c < k then k else c + 1;
      assert forall d :: d in s ==> d == c || d in s - {c};
    }
  }

  lemma SentAgain(t: Terms, x: Escrow, role: Role) returns (events: seq<Event>)
    requires !NothingDue(t, x, role) || AboutToPay(x, role)
    ensures TimesSent(Run(t, x, events).transfers, role) == TimesSent(x.transfers, role) + 1
  {
    if AboutToPay(x, role) {
      var k :| k in x.calls && Paying(x.calls[k], role);
      events := [] + [Transfer(k, Some("tx"))];
      RunSnoc(t, x, [], Transfer(k, Some("tx")));
      TransferSends(t, x, k, role);
    } else {
      var leg := LegOf(t, role);
      var k := UnusedCall(x.calls.Keys);
      var checked := Step(t, x, Check(k, leg));
      assert k !in x.calls && x.rows + [] == x.rows;
      events := [] + [Check(k, leg)] + [Transfer(k, Some("tx"))];
      RunSnoc(t, x, [], Check(k, leg));
      RunSnoc(t, x, [] + [Check(k, leg)], Transfer(k, Some("tx")));
      assert checked.calls[k].stage == Checked(leg) && checked.transfers == x.transfers;
      hide Legs;
      TransferSends(t, checked, k, role);
    }
  }

  /** A role is sent no more money from here on - whatever calls follow, whatever their transfers do,
      whatever is saved - exactly when its settled row is stored, or it is worth nothing, and no call
      that found it unsettled before is still to pay it. A transfer whose row was lost does not
      count. */
  lemma RoleIsPaidNoMoreExactlyWhen(t: Terms, x: Escrow, role: Role)
    ensures (forall events: seq<Event> :: TimesSent(Run(t, x, events).transfers, role) == TimesSent(x.transfers, role))
            <==> NothingDue(t, x, role) && !AboutToPay(x, role)
  {
    if NothingDue(t, x, role) && !AboutToPay(x, role) {
      forall events: seq<Event>
        ensures TimesSent(Run(t, x, events).transfers, role) == TimesSent(x.transfers, role)
      {
        RunSendsNoMore(t, x, events, role);
      }
    } else {
      var events := SentAgain(t, x, role);
      hide Run, TimesSent;
      assert TimesSent(Run(t, x, events).transfers, role) != TimesSent(x.transfers, role);
    }
  }

  // ---------- Calls that keep apart ----------

  /** How often a call has taken on a role, stored rows aside. */
  function Held(c: OpenCall, role: Role): nat
  {
    TimesPaid(c.unseen, role) + if !c.stage.Idle? && c.stage.leg.role == role then 1 else 0
  }

  /** No two calls under way have taken on the same role. */
  ghost predicate Apart(x: Escrow)
  {
    forall c, d, role :: c in x.calls && d in x.calls && c != d ==>
                           Held(x.calls[c], role) == 0 || Held(x.calls[d], role) == 0
  }

  ghost predicate AlwaysApart(t: Terms, events: seq<Event>)
    decreases |events|
  {
    Apart(Run(t, NEW_ESCROW, events)) && (events == [] || AlwaysApart(t, events[..|events| - 1]))
  }

  /** In particular, calls that come one after the other keep apart. */
  lemma {:induction false} SerialCallsKeepApart(t: Terms, events: seq<Event>)
    requires forall e :: e in events ==> e.call == 0
    ensures AlwaysApart(t, events)
    decreases |events|
  {
    OnlyThatCall(t, NEW_ESCROW, events, 0);
    if events != [] {
      SerialCallsKeepApart(t, events[..|events| - 1]);
    }
    hide Run;
  }

  ghost predicate OwnLegs(t: Terms, x: Escrow)
  {
    && (forall i :: 0 <= i < |x.rows| ==> x.rows[i].leg in Legs(t))
    && forall c :: c in x.calls ==>
         && (forall i :: 0 <= i < |x.calls[c].unseen| ==> x.calls[c].unseen[i].leg in Legs(t))
         && (!x.calls[c].stage.Idle? ==> x.calls[c].stage.leg in Legs(t))
  }

  /** Each role is settled at most once, counting what any one call has taken on. */
  ghost predicate OnceEach(x: Escrow)
  {
    && (forall role :: TimesPaid(x.rows, role) <= 1)
    && forall c, role :: c in x.calls ==> TimesPaid(x.rows, role) + Held(x.calls[c], role) <= 1
  }

  lemma StepKeepsOwnLegs(t: Terms, x: Escrow, e: Event)
    requires OwnLegs(t, x)
    ensures OwnLegs(t, Step(t, x, e))
  {
    hide Legs, HasSettled, PaidLegs;
  }

  /** What the step's own call has taken on after it, next to the rows stored by then. */
  ghost predicate HoldsOnce(before: Escrow, after: Escrow, call: nat, role: Role)
  {
    && TimesPaid(after.rows, role) + Held(CallAt(after, call), role) <= 1
    && (after.rows == before.rows || (after.rows == before.rows + CallAt(before, call).unseen && call in before.calls))
  }

  lemma CheckHolds(t: Terms, x: Escrow, e: Event, role: Role)
    requires e.Check? && TimesPaid(x.rows, role) + Held(CallAt(x, e.call), role) <= 1
    ensures HoldsOnce(x, Step(t, x, e), e.call, role)
  {
    hide Legs, HasSettled, TimesPaid, PaidLegs;
    var c := CallAt(x, e.call);
    SettledIsPaid(x.rows + c.unseen, role);
    PaidAdds(x.rows, c.unseen, role);
  }

  lemma SaveHolds(t: Terms, x: Escrow, e: Event, role: Role)
    requires e.Save? && TimesPaid(x.rows, role) + Held(CallAt(x, e.call), role) <= 1
    ensures HoldsOnce(x, Step(t, x, e), e.call, role)
  {
    hide Legs, HasSettled, TimesPaid, PaidLegs;
    var c := CallAt(x, e.call);
    if c.stage.Tried? {
      PaidAdds(c.unseen, [RowFor(c.stage.leg, c.stage.sig)], role);
      OneRowPaid(RowFor(c.stage.leg, c.stage.sig), role);
    }
  }

  lemma StepHolds(t: Terms, x: Escrow, e: Event, role: Role)
    requires TimesPaid(x.rows, role) + Held(CallAt(x, e.call), role) <= 1
    ensures HoldsOnce(x, Step(t, x, e), e.call, role)
  {
    if e.Check? {
      CheckHolds(t, x, e, role);
      hide HoldsOnce;
    } else if e.Save? {
      SaveHolds(t, x, e, role);
      hide HoldsOnce;
    } else {
      assert TimesPaid([], role) == 0;
      hide Legs, HasSettled, TimesPaid, PaidLegs;
      PaidAdds(x.rows, CallAt(x, e.call).unseen, role);
    }
  }

  lemma OneRowPaid(row: Row, role: Role)
    ensures TimesPaid([row], role) == if row.status == SETTLED && row.leg.role == role then 1 else 0
  {
    assert [row][..0] == [];
  }

  lemma StepKeepsOnceEach(t: Terms, x: Escrow, e: Event)
    requires OnceEach(x) && Apart(x)
    ensures OnceEach(Step(t, x, e))
  {
    var after, c := Step(t, x, e), CallAt(x, e.call);
    forall role
      ensures TimesPaid(after.rows, role) <= 1
      ensures forall d :: d in after.calls ==> TimesPaid(after.rows, role) + Held(after.calls[d], role) <= 1
    {
      StepHolds(t, x, e, role);
      PaidAdds(x.rows, c.unseen, role);
      assert forall d :: d in after.calls && d != e.call ==> d in x.calls && after.calls[d] == x.calls[d];
      assert forall d :: d in x.calls && d != e.call && e.call in x.calls ==>
                           Held(x.calls[d], role) == 0 || Held(c, role) == 0;
      hide Step, TimesPaid;
    }
  }

  lemma {:induction false} ApartRunsSettleOnce(t: Terms, events: seq<Event>)
    requires AlwaysApart(t, events)
    ensures OnceEach(Run(t, NEW_ESCROW, events)) && OwnLegs(t, Run(t, NEW_ESCROW, events))
    decreases |events|
  {
    if events != [] {
      var front := events[..|events| - 1];
      ApartRunsSettleOnce(t, front);
      hide Step, OnceEach, OwnLegs, Apart;
      StepKeepsOnceEach(t, Run(t, NEW_ESCROW, front), events[|events| - 1]);
      StepKeepsOwnLegs(t, Run(t, NEW_ESCROW, front), events[|events| - 1]);
    }
  }

  lemma LegAmountsAddUp(t: Terms)
    requires t.price >= 0.0 && 0 <= t.bps <= 10000
    ensures LegAmount(t, ORIGINAL) >= 0 && LegAmount(t, SECONDARY) >= 0
    ensures LegAmount(t, ORIGINAL) + LegAmount(t, SECONDARY) == TotalUnits(t.price)
  {
    SplitLosesNothing(t.price, t.bps);
    hide TotalUnits, ComputeSplit;
  }

  /** Rows settling each role at most once never amount to more than the price, and to the price when
      and only when every leg worth anything is settled. */
  lemma OnceEachIsThePrice(t: Terms, rows: seq<Row>)
    requires t.price >= 0.0 && 0 <= t.bps <= 10000
    requires forall i :: 0 <= i < |rows| ==> rows[i].leg in Legs(t)
    requires forall role :: TimesPaid(rows, role) <= 1
    ensures 0 <= PaidTotal(rows) <= TotalUnits(t.price)
    ensures PaidTotal(rows) == TotalUnits(t.price)
            <==> forall leg :: leg in Legs(t) && leg.amount > 0 ==> HasSettled(rows, leg.role)
  {
    hide TotalUnits, ComputeSplit, Legs, LegAmount, HasSettled, PaidTo, TimesPaid, PaidLegs;
    LegAmountsAddUp(t);
    PaidToIs(t, rows, ORIGINAL);
    PaidToIs(t, rows, SECONDARY);
    SettledIsPaid(rows, ORIGINAL);
    SettledIsPaid(rows, SECONDARY);
    forall leg | leg in Legs(t)
      ensures leg.amount == LegAmount(t, leg.role)
    {
      LegsCarryTheirAmounts(t, leg);
    }
    if LegAmount(t, ORIGINAL) > 0 {
      var leg := LegOf(t, ORIGINAL);
    }
    if LegAmount(t, SECONDARY) > 0 {
      var leg := LegOf(t, SECONDARY);
    }
  }

  lemma {:induction false} BagsCount(a: seq<Leg>, b: seq<Leg>, role: Role, wallet: Wallet)
    requires multiset(a) == multiset(b)
    ensures TimesSent(a, role) == TimesSent(b, role) && Received(a, wallet) == Received(b, wallet)
    decreases |a|
  {
    if a == [] {
      assert |multiset(b)| == 0;
    } else {
      var n := |a| - 1;
      assert a == a[..n] + [a[n]];
      assert a[n] in multiset(b);
      var i :| 0 <= i < |b| && b[i] == a[n];
      WithoutOne(b, i, role, wallet);
      hide TimesSent, Received;
      OneLess(a, b, i);
      BagsCount(a[..n], b[..i] + b[i + 1..], role, wallet);
      LastOne(a, role, wallet);
    }
  }

  lemma OneLess(a: seq<Leg>, b: seq<Leg>, i: nat)
    requires a != [] && i < |b| && a[|a| - 1] == b[i] && multiset(a) == multiset(b)
    ensures multiset(a[..|a| - 1]) == multiset(b[..i] + b[i + 1..])
  {
    var n := |a| - 1;
    assert a == a[..n] + [a[n]];
    assert multiset(a) == multiset(a[..n]) + multiset{a[n]};
    assert b == b[..i] + [b[i]] + b[i + 1..];
    assert multiset(b) == multiset(b[..i] + b[i + 1..]) + multiset{b[i]};
    assert multiset(a[..n]) == multiset(a) - multiset{a[n]};
  }

  lemma LastOne(a: seq<Leg>, role: Role, wallet: Wallet)
    requires a != []
    ensures var n := |a| - 1;
            && TimesSent(a, role) == TimesSent(a[..n], role) + TimesSent([a[n]], role)
            && Received(a, wallet) == Received(a[..n], wallet) + Received([a[n]], wallet)
  {
    var n := |a| - 1;
    assert a == a[..n] + [a[n]];
    SentAdds(a[..n], [a[n]], role, wallet);
  }

  lemma WithoutOne(b: seq<Leg>, i: nat, role: Role, wallet: Wallet)
    requires i < |b|
    ensures var rest := b[..i] + b[i + 1..];
            && multiset(b) == multiset(rest) + multiset{b[i]}
            && TimesSent(b, role) == TimesSent(rest, role) + TimesSent([b[i]], role)
            && Received(b, wallet) == Received(rest, wallet) + Received([b[i]], wallet)
  {
    hide TimesSent, Received;
    assert b == b[..i] + [b[i]] + b[i + 1..];
    SentAdds(b[..i] + [b[i]], b[i + 1..], role, wallet);
    SentAdds(b[..i], [b[i]], role, wallet);
    SentAdds(b[..i], b[i + 1..], role, wallet);
  }

  /** What left escrow, once every call has ended: per role and per wallet, what the stored rows say
      plus what was lost. */
  lemma SentIsPaidPlusLost(t: Terms, events: seq<Event>, role: Role, wallet: Wallet)
    requires Run(t, NEW_ESCROW, events).calls == map[]
    ensures var x := Run(t, NEW_ESCROW, events);
            && TimesSent(x.transfers, role) == TimesPaid(x.rows, role) + TimesSent(x.lost, role)
            && Received(x.transfers, wallet) == Received(PaidLegs(x.rows), wallet) + Received(x.lost, wallet)
  {
    var x := Run(t, NEW_ESCROW, events);
    TransfersAreRowsPlusLost(t, events);
    BagsCount(x.transfers, PaidLegs(x.rows) + x.lost, role, wallet);
    SentAdds(PaidLegs(x.rows), x.lost, role, wallet);
    SettledIsPaid(x.rows, role);
  }

  /** Over every run in which no two calls under way take on the same role - calls coming one after the
      other are one case - whatever transfers do and whatever is saved or rolled back: each role is
      settled at most once, the settled rows never amount to more than the rounded price, and to the
      price when and only when every leg worth anything is settled. Once every call has ended, a role
      was sent its money as often as its row is there, plus once for every row lost. */
  lemma EscrowPaysThePriceOnce(t: Terms, events: seq<Event>)
    requires t.price >= 0.0 && 0 <= t.bps <= 10000 && AlwaysApart(t, events)
    ensures var x := Run(t, NEW_ESCROW, events);
            && (forall role :: TimesPaid(x.rows, role) <= 1)
            && 0 <= PaidTotal(x.rows) <= TotalUnits(t.price)
            && (PaidTotal(x.rows) == TotalUnits(t.price)
                <==> forall leg :: leg in Legs(t) && leg.amount > 0 ==> HasSettled(x.rows, leg.role))
            && (x.calls == map[] ==>
                  && (forall role :: TimesSent(x.transfers, role) == TimesPaid(x.rows, role) + TimesSent(x.lost, role))
                  && (x.lost == [] ==> forall role :: TimesSent(x.transfers, role) <= 1))
  {
    var x := Run(t, NEW_ESCROW, events);
    ApartRunsSettleOnce(t, events);
    OnceEachIsThePrice(t, x.rows);
    if x.calls == map[] {
      forall role
        ensures TimesSent(x.transfers, role) == TimesPaid(x.rows, role) + TimesSent(x.lost, role)
      {
        SentIsPaidPlusLost(t, events, role, "");
      }
    }
    hide Run, TimesPaid, PaidTotal, HasSettled, Legs, TotalUnits;
  }

  function Worth(leg: Leg, wallet: Wallet): int { if leg.wallet == wallet then leg.amount else 0 }

  lemma PaidLegsSnoc(rows: seq<Row>, wallet: Wallet)
    requires rows != []
    ensures var n := |rows| - 1;
            Received(PaidLegs(rows), wallet)
            == Received(PaidLegs(rows[..n]), wallet) + if rows[n].status == SETTLED then Worth(rows[n].leg, wallet) else 0
  {
    var n := |rows| - 1;
    var before := PaidLegs(rows[..n]);
    if rows[n].status == SETTLED {
      assert (before + [rows[n].leg])[..|before|] == before;
    } else {
      assert PaidLegs(rows) == before;
    }
  }

  lemma RolesHaveTheirWallets(t: Terms, leg: Leg)
    requires leg in Legs(t)
    ensures leg.wallet == if leg.role == ORIGINAL then t.originalWallet else t.secondaryWallet
  {
  }

  /** What rows of the licence's own legs say a wallet received: what its roles were paid. */
  lemma {:induction false} WalletsAreRoles(t: Terms, rows: seq<Row>, wallet: Wallet)
    requires forall i :: 0 <= i < |rows| ==> rows[i].leg in Legs(t)
    ensures Received(PaidLegs(rows), wallet)
         == (if wallet == t.originalWallet then PaidTo(rows, ORIGINAL) else 0)
            + (if wallet == t.secondaryWallet then PaidTo(rows, SECONDARY) else 0)
  {
    hide Legs;
    if rows == [] {
      NoRows();
    } else {
      hide Received, PaidLegs, PaidTo;
      var n := |rows| - 1;
      RolesHaveTheirWallets(t, rows[n].leg);
      assert forall i :: 0 <= i < n ==> rows[..n][i] == rows[i];
      WalletsAreRoles(t, rows[..n], wallet);
      PaidLegsSnoc(rows, wallet);
      PaidToSnoc(rows, ORIGINAL);
      PaidToSnoc(rows, SECONDARY);
    }
  }

  lemma PaidToSnoc(rows: seq<Row>, role: Role)
    requires rows != []
    ensures var n := |rows| - 1;
            PaidTo(rows, role)
            == PaidTo(rows[..n], role)
               + if rows[n].status == SETTLED && rows[n].leg.role == role then rows[n].leg.amount else 0
  {
  }

  /** Once every call has ended and the rows amount to the price, each creator's wallet has received
      exactly its own share - both shares, if one wallet plays both roles - plus what went to it in
      transfers whose row was lost. */
  lemma CreatorsGetTheirShares(t: Terms, events: seq<Event>)
    requires t.price >= 0.0 && 0 <= t.bps <= 10000 && AlwaysApart(t, events)
    requires var x := Run(t, NEW_ESCROW, events); x.calls == map[] && PaidTotal(x.rows) == TotalUnits(t.price)
    ensures var x := Run(t, NEW_ESCROW, events);
            var (original, secondary) := ComputeSplit(t.price, t.bps);
            var sent := wallet => Received(x.transfers, wallet) - Received(x.lost, wallet);
            if t.originalWallet != t.secondaryWallet
            then sent(t.originalWallet) == original && sent(t.secondaryWallet) == secondary
            else sent(t.originalWallet) == original + secondary
  {
    var x := Run(t, NEW_ESCROW, events);
    hide TotalUnits, ComputeSplit, Run, HasSettled, TimesPaid, PaidTo, Received, PaidLegs, Legs, AlwaysApart;
    ApartRunsSettleOnce(t, events);
    LegAmountsAddUp(t);
    SentIsPaidPlusLost(t, events, ORIGINAL, t.originalWallet);
    SentIsPaidPlusLost(t, events, ORIGINAL, t.secondaryWallet);
    WalletsAreRoles(t, x.rows, t.originalWallet);
    WalletsAreRoles(t, x.rows, t.secondaryWallet);
    PaidToIs(t, x.rows, ORIGINAL);
    PaidToIs(t, x.rows, SECONDARY);
  }

  // ---------- What goes wrong ----------

  /** Two calls check the same unsettled leg before either pays it: it is paid twice. */
  lemma OverlappingChecksPayTwice(t: Terms, leg: Leg)
    requires leg in Legs(t) && leg.amount > 0
    ensures var checked := Step(t, Step(t, NEW_ESCROW, Check(1, leg)), Check(2, leg));
            var end := Step(t, Step(t, checked, Transfer(1, Some("a"))), Transfer(2, Some("b")));
            end.transfers == [leg, leg]
  {
    hide Legs;
  }

  /** One call pays a leg and is rolled back, another follows: the leg is paid twice as well. */
  lemma RolledBackRowIsPaidAgain(t: Terms, leg: Leg)
    requires leg in Legs(t) && leg.amount > 0
    ensures var paid := Step(t, Step(t, NEW_ESCROW, Check(1, leg)), Transfer(1, Some("a")));
            var rolledBack := Step(t, Step(t, paid, Save(1)), Rollback(1));
            var end := Step(t, Step(t, rolledBack, Check(2, leg)), Transfer(2, Some("b")));
            && rolledBack.rows == [] && rolledBack.calls == map[] && rolledBack.lost == [leg]
            && end.transfers == [leg, leg]
  {
    hide Legs;
    OneRow(RowFor(leg, Some("a")));
    var saved := Step(t, Step(t, Step(t, NEW_ESCROW, Check(1, leg)), Transfer(1, Some("a"))), Save(1));
    assert saved.calls == map[1 := OpenCall([] + [RowFor(leg, Some("a"))], Idle)];
    assert saved.calls - {1} == map[];
  }
}
