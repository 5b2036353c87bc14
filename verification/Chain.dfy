/** Reading a finalized transaction: memo, token balances per owner, and the two ways a USDC payment
    is recognised. */
module Chain {
  import opened Options
  import opened SetSum

  type Wallet = string
  type Mint = string

  /** One row of a transaction's token-balance list; a part that is missing or unreadable is None. */
  datatype TokenBalance = TokenBalance(mint: Mint, owner: Option<Wallet>, units: Option<int>)

  datatype ParsedInstruction =
    | MemoText(text: string)
    | TokenTransfer(destination: string, units: int, mint: Option<Mint>, authority: string, source: string)
    | OtherInstruction

  datatype Transaction = Transaction(
    failed: bool,
    instructions: seq<ParsedInstruction>,
    preBalances: seq<TokenBalance>,
    postBalances: seq<TokenBalance>)

  // ---------- Balances per owner ----------

  predicate Counts(row: TokenBalance, mint: Mint)
  {
    row.mint == mint && row.owner.Some? && row.units.Some?
  }

  /** What an owner holds of a mint over all its listed accounts. */
  function Total(rows: seq<TokenBalance>, mint: Mint, owner: Wallet): int
  {
    if rows == [] then 0
    else
      var n := |rows| - 1;
      Total(rows[..n], mint, owner)
      + if Counts(rows[n], mint) && rows[n].owner.value == owner then rows[n].units.value else 0
  }

  ghost function Owners(rows: seq<TokenBalance>, mint: Mint): set<Wallet>
  {
    if rows == [] then {}
    else
      var n := |rows| - 1;
      Owners(rows[..n], mint) + if Counts(rows[n], mint) then {rows[n].owner.value} else {}
  }

  /** The owners in order of first appearance. */
  function OwnerOrder(rows: seq<TokenBalance>, mint: Mint): seq<Wallet>
  {
    if rows == [] then []
    else
      var n := |rows| - 1;
      var before := OwnerOrder(rows[..n], mint);
      if Counts(rows[n], mint) && rows[n].owner.value !in before then before + [rows[n].owner.value] else before
  }

  /** A dictionary: its keys in insertion order, and the value under each. */
  datatype Balances = Balances(order: seq<Wallet>, units: map<Wallet, int>)

  function Held(b: Balances, owner: Wallet): int
  {
    if owner in b.units then b.units[owner] else 0
  }

  method TokenBalancesByOwner(rows: seq<TokenBalance>, mint: Mint) returns (b: Balances)
    ensures b.order == OwnerOrder(rows, mint)
    ensures b.units.Keys == Owners(rows, mint)
    ensures forall o :: Held(b, o) == Total(rows, mint, o)
    ensures forall o :: o in b.order <==> o in b.units
  {
    b := Balances([], map[]);
    for i := 0 to |rows|
      invariant b.order == OwnerOrder(rows[..i], mint)
      invariant b.units.Keys == Owners(rows[..i], mint)
      invariant forall o :: Held(b, o) == Total(rows[..i], mint, o)
      invariant forall o :: o in b.order <==> o in b.units
    {
      assert rows[..i + 1][..i] == rows[..i];
      if Counts(rows[i], mint) {
        var o := rows[i].owner.value;
        b := Balances(if o in b.order then b.order else b.order + [o], b.units[o := Held(b, o) + rows[i].units.value]);
      }
    }
    assert rows[..|rows|] == rows;
  }

  // ---------- Recognising a payment ----------

  /** The first owner, in order, who lost at least the expected amount; "" if nobody did. */
  function FirstPayer(order: seq<Wallet>, tx: Transaction, mint: Mint, expected: int): Wallet
  {
    if order == [] then ""
    else if Total(tx.preBalances, mint, order[0]) - Total(tx.postBalances, mint, order[0]) >= expected then order[0]
    else FirstPayer(order[1..], tx, mint, expected)
  }

  function Delta(tx: Transaction, mint: Mint, owner: Wallet): int
  {
    Total(tx.postBalances, mint, owner) - Total(tx.preBalances, mint, owner)
  }

  function BalanceMatch(tx: Transaction, recipient: Wallet, expected: int, mint: Mint): Option<Wallet>
  {
    if Delta(tx, mint, recipient) != expected then None
    else Some(FirstPayer(OwnerOrder(tx.preBalances, mint), tx, mint, expected))
  }

  method VerifyTokenBalanceDelta(tx: Transaction, recipient: Wallet, expected: int, mint: Mint)
    returns (sender: Option<Wallet>)
    ensures sender == BalanceMatch(tx, recipient, expected, mint)
  {
    var pre := TokenBalancesByOwner(tx.preBalances, mint);
    var post := TokenBalancesByOwner(tx.postBalances, mint);
    if Held(post, recipient) - Held(pre, recipient) != expected {
      return None;
    }
    for i := 0 to |pre.order|
      invariant FirstPayer(pre.order, tx, mint, expected) == FirstPayer(pre.order[i..], tx, mint, expected)
    {
      var owner := pre.order[i];
      if Held(pre, owner) - Held(post, owner) >= expected {
        return Some(owner);
      }
    }
    return Some("");
  }

  function FirstTransfer(instructions: seq<ParsedInstruction>, recipient: Wallet, expected: int, mint: Mint)
    : Option<Wallet>
  {
    if instructions == [] then None
    else
      var t := instructions[0];
      if t.TokenTransfer? && (t.mint.None? || t.mint.value == mint) && t.destination == recipient && t.units == expected
      then Some(if t.authority != "" then t.authority else t.source)
      else FirstTransfer(instructions[1..], recipient, expected, mint)
  }

  predicate HasMemo(tx: Transaction, memo: string)
  {
    MemoText(memo) in tx.instructions
  }

  /** The sender of a valid payment, None if the transaction is not one. */
  function VerifyUsdcPayment(tx: Transaction, recipient: Wallet, expected: int, mint: Mint, memo: Option<string>)
    : Option<Wallet>
  {
    if recipient == "" || mint == "" || tx.failed || (memo.Some? && !HasMemo(tx, memo.value)) then None
    else
      var byBalance := BalanceMatch(tx, recipient, expected, mint);
      if byBalance.Some? then byBalance else FirstTransfer(tx.instructions, recipient, expected, mint)
  }

  // ---------- When a payment is recognised ----------

  /** The instruction moves exactly the amount to the recipient, in that mint or in none it names. */
  predicate TransfersTo(t: ParsedInstruction, recipient: Wallet, expected: int, mint: Mint)
  {
    && t.TokenTransfer? && t.destination == recipient && t.units == expected
    && (t.mint.None? || t.mint == Some(mint))
  }

  /** The wallet behind a transfer: its authority, or its source account if none is named. */
  function Behind(t: ParsedInstruction): Wallet
    requires t.TokenTransfer?
  {
    if t.authority != "" then t.authority else t.source
  }

  /** The sender is the first listed owner who lost at least the amount; "" when nobody did. */
  ghost predicate LostFirst(tx: Transaction, order: seq<Wallet>, mint: Mint, expected: int, sender: Wallet)
  {
    || (exists k :: 0 <= k < |order| && order[k] == sender && -Delta(tx, mint, order[k]) >= expected
                    && forall j :: 0 <= j < k ==> -Delta(tx, mint, order[j]) < expected)
    || (sender == "" && forall j :: 0 <= j < |order| ==> -Delta(tx, mint, order[j]) < expected)
  }

  /** The sender is behind the first instruction that moves the amount. */
  ghost predicate TransferredFirst(instructions: seq<ParsedInstruction>, recipient: Wallet, expected: int, mint: Mint,
                                   sender: Wallet)
  {
    exists k :: 0 <= k < |instructions| && TransfersTo(instructions[k], recipient, expected, mint)
                && Behind(instructions[k]) == sender
                && forall j :: 0 <= j < k ==> !TransfersTo(instructions[j], recipient, expected, mint)
  }

  /** The transaction is a payment of the amount by the sender to the recipient, for that memo if one is
      asked for. */
  ghost predicate Pays(tx: Transaction, recipient: Wallet, expected: int, mint: Mint, memo: Option<string>, sender: Wallet)
  {
    && recipient != "" && mint != ""
    && !tx.failed
    && (memo.Some? ==> MemoText(memo.value) in tx.instructions)
    && if Delta(tx, mint, recipient) == expected
       then LostFirst(tx, OwnerOrder(tx.preBalances, mint), mint, expected, sender)
       else TransferredFirst(tx.instructions, recipient, expected, mint, sender)
  }

  lemma {:induction false} FirstPayerLostFirst(order: seq<Wallet>, tx: Transaction, mint: Mint, expected: int)
    ensures LostFirst(tx, order, mint, expected, FirstPayer(order, tx, mint, expected))
  {
    hide Total;
    if order == [] {
    } else if -Delta(tx, mint, order[0]) >= expected {
      assert order[0] == FirstPayer(order, tx, mint, expected);
    } else {
      var rest, payer := order[1..], FirstPayer(order, tx, mint, expected);
      FirstPayerLostFirst(rest, tx, mint, expected);
      hide FirstPayer;
      if k :| 0 <= k < |rest| && rest[k] == payer && -Delta(tx, mint, rest[k]) >= expected
              && forall j :: 0 <= j < k ==> -Delta(tx, mint, rest[j]) < expected {
        assert order[k + 1] == payer;
        assert forall j :: 0 <= j < k + 1 ==> j == 0 || order[j] == rest[j - 1];
      } else {
        assert forall j :: 0 <= j < |order| ==> j == 0 || order[j] == rest[j - 1];
      }
    }
  }

  lemma LostFirstIsOne(order: seq<Wallet>, tx: Transaction, mint: Mint, expected: int, a: Wallet, b: Wallet)
    requires LostFirst(tx, order, mint, expected, a) && LostFirst(tx, order, mint, expected, b)
    ensures a == b
  {
    hide Delta;
  }

  lemma {:induction false} FirstTransferIs(instructions: seq<ParsedInstruction>, recipient: Wallet, expected: int, mint: Mint)
    ensures var found := FirstTransfer(instructions, recipient, expected, mint);
            && (found.Some? ==> TransferredFirst(instructions, recipient, expected, mint, found.value))
            && (found.None? ==> forall j :: 0 <= j < |instructions| ==>
                                  !TransfersTo(instructions[j], recipient, expected, mint))
  {
    if instructions != [] && !TransfersTo(instructions[0], recipient, expected, mint) {
      var rest := instructions[1..];
      FirstTransferIs(rest, recipient, expected, mint);
      var found := FirstTransfer(rest, recipient, expected, mint);
      if found.Some? {
        var k :| 0 <= k < |rest| && TransfersTo(rest[k], recipient, expected, mint) && Behind(rest[k]) == found.value
                 && forall j :: 0 <= j < k ==> !TransfersTo(rest[j], recipient, expected, mint);
        assert instructions[k + 1] == rest[k];
        assert forall j :: 0 <= j < k + 1 ==> j == 0 || instructions[j] == rest[j - 1];
      } else {
        assert forall j :: 0 <= j < |instructions| ==> j == 0 || instructions[j] == rest[j - 1];
      }
    }
  }

  lemma TransferredFirstIsOne(instructions: seq<ParsedInstruction>, recipient: Wallet, expected: int, mint: Mint,
                              a: Wallet, b: Wallet)
    requires TransferredFirst(instructions, recipient, expected, mint, a)
    requires TransferredFirst(instructions, recipient, expected, mint, b)
    ensures a == b
  {
  }

  /** Exactly which transactions are recognised as a payment, and as whose. */
  lemma PaymentIsRecognisedExactlyWhen(tx: Transaction, recipient: Wallet, expected: int, mint: Mint, memo: Option<string>,
                                       sender: Wallet)
    ensures VerifyUsdcPayment(tx, recipient, expected, mint, memo) == Some(sender)
            <==> Pays(tx, recipient, expected, mint, memo, sender)
    ensures VerifyUsdcPayment(tx, recipient, expected, mint, memo).Some?
            <==> && recipient != "" && mint != "" && !tx.failed
                 && (memo.Some? ==> MemoText(memo.value) in tx.instructions)
                 && (|| Delta(tx, mint, recipient) == expected
                     || exists k :: 0 <= k < |tx.instructions| && TransfersTo(tx.instructions[k], recipient, expected, mint))
  {
    var order := OwnerOrder(tx.preBalances, mint);
    var payer := FirstPayer(order, tx, mint, expected);
    FirstPayerLostFirst(order, tx, mint, expected);
    FirstTransferIs(tx.instructions, recipient, expected, mint);
    var found := FirstTransfer(tx.instructions, recipient, expected, mint);
    if LostFirst(tx, order, mint, expected, sender) {
      LostFirstIsOne(order, tx, mint, expected, sender, payer);
    }
    if TransferredFirst(tx.instructions, recipient, expected, mint, sender) && found.Some? {
      TransferredFirstIsOne(tx.instructions, recipient, expected, mint, sender, found.value);
    }
    hide LostFirst, Delta, FirstPayer, FirstTransfer, OwnerOrder;
  }

  // ---------- What the balance check establishes ----------

  /** Over all owners listed before or after, nothing was created or destroyed. */
  ghost predicate Conserved(tx: Transaction, mint: Mint)
  {
    var all := Owners(tx.preBalances, mint) + Owners(tx.postBalances, mint);
    Sum(all, o => Total(tx.preBalances, mint, o)) == Sum(all, o => Total(tx.postBalances, mint, o))
  }

  lemma {:induction false} NotListedHoldsNothing(rows: seq<TokenBalance>, mint: Mint, owner: Wallet)
    requires owner !in Owners(rows, mint)
    ensures Total(rows, mint, owner) == 0
  {
    if rows != [] {
      var n := |rows| - 1;
      NotListedHoldsNothing(rows[..n], mint, owner);
    }
  }

  lemma {:induction false} OrderListsOwners(rows: seq<TokenBalance>, mint: Mint)
    ensures forall o :: o in OwnerOrder(rows, mint) <==> o in Owners(rows, mint)
  {
    if rows != [] {
      var n := |rows| - 1;
      OrderListsOwners(rows[..n], mint);
    }
  }

  lemma {:induction false} FirstPayerIs(order: seq<Wallet>, tx: Transaction, mint: Mint, expected: int, payer: Wallet)
    requires payer in order && -Delta(tx, mint, payer) >= expected
    requires forall o :: o in order && o != payer ==> -Delta(tx, mint, o) < expected
    ensures FirstPayer(order, tx, mint, expected) == payer
  {
    if order[0] != payer {
      assert order[0] in order;
      assert forall o :: o in order[1..] ==> o in order;
      FirstPayerIs(order[1..], tx, mint, expected, payer);
    }
  }

  /** When balances are conserved and exactly one listed owner's balance fell, the sender reported
      for a recognised payment is that owner. */
  lemma SoleLoserIsTheSender(tx: Transaction, recipient: Wallet, expected: int, mint: Mint, loser: Wallet)
    requires expected > 0 && Conserved(tx, mint)
    requires BalanceMatch(tx, recipient, expected, mint).Some?
    requires Delta(tx, mint, loser) < 0 && loser in Owners(tx.preBalances, mint)
    requires forall o :: o in Owners(tx.preBalances, mint) + Owners(tx.postBalances, mint) && o != loser ==>
                           Delta(tx, mint, o) >= 0
    ensures BalanceMatch(tx, recipient, expected, mint) == Some(loser)
  {
    var all := Owners(tx.preBalances, mint) + Owners(tx.postBalances, mint);
    var d := (o: Wallet) => Delta(tx, mint, o);
    var before := (o: Wallet) => Total(tx.preBalances, mint, o);
    var after := (o: Wallet) => Total(tx.postBalances, mint, o);
    SumDifference(all, after, before, d);
    assert Sum(all, d) == 0;
    SumSplit(all, d, loser);
    SumNonNegative(all - {loser}, d);
    if recipient !in all {
      NotListedHoldsNothing(tx.preBalances, mint, recipient);
      NotListedHoldsNothing(tx.postBalances, mint, recipient);
    }
    assert d(recipient) <= Sum(all - {loser}, d);
    OrderListsOwners(tx.preBalances, mint);
    FirstPayerIs(OwnerOrder(tx.preBalances, mint), tx, mint, expected, loser);
  }
}
