/** From a USDC price to the signed transfer: the server's conversion and transaction layout, the
    buyer's checks before it signs, and what the transfer looks like on chain. */
module Payment {
  import opened Options
  import opened Money
  import opened Chain

  const USDC_DECIMALS := 6
  const MEMO_PREFIX := "VERIPROOF:USDC:"
  const MAX_MEMO := 566

  // ---------- Three conversions to micro-USDC ----------

  /** The server's: None unless the amount is positive and has at most six decimals. */
  function ToAtomicUnits(amount: real): Option<int>
  {
    if amount <= 0.0 || !IsSixDecimal(amount) then None else Some(MicroUsdc(amount).Floor)
  }

  /** The chain reader's: rounds down; None for anything below one unit. */
  function UsdcToMinUnits(amount: real): Option<int>
  {
    if amount <= 0.0 || Truncate(MicroUsdc(amount)) <= 0 then None else Some(Truncate(MicroUsdc(amount)))
  }

  /** The chain reader's conversion drops what is below one unit, and has no result only when nothing is
      left; the server's has one exactly for positive amounts of at most six decimals. */
  lemma ConversionsAreExact(amount: real)
    ensures forall k :: UsdcToMinUnits(amount) == Some(k)
                        <==> k > 0 && k as real <= amount * 1000000.0 && amount * 1000000.0 < k as real + 1.0
    ensures forall k :: ToAtomicUnits(amount) == Some(k) <==> k > 0 && k as real == amount * 1000000.0
  {
  }

  datatype Policy = Policy(enabled: bool, mint: Mint, maxAtomicAmount: int)

  /** The buyer's: as the server's, and within its cap. */
  function VerifyAmount(policy: Policy, amount: real): Option<int>
  {
    if !policy.enabled || amount <= 0.0 || !IsSixDecimal(amount) || MicroUsdc(amount).Floor > policy.maxAtomicAmount
    then None
    else Some(MicroUsdc(amount).Floor)
  }

  /** A positive six-decimal price is one integer of micro-USDC to all three, and nothing is lost in it. */
  lemma OneIntegerForEveryPrice(price: real, policy: Policy) returns (k: int)
    requires price > 0.0 && IsSixDecimal(price)
    ensures k > 0 && k as real / 1000000.0 == price
    ensures ToAtomicUnits(price) == Some(k) && UsdcToMinUnits(price) == Some(k)
    ensures VerifyAmount(policy, price) == Some(k) <==> policy.enabled && k <= policy.maxAtomicAmount
  {
    k := MicroUsdc(price).Floor;
    RoundingsFixIntegers(k);
  }

  /** The server and the chain reader agree on every amount the server accepts; on the others the
      chain reader would silently drop digits. */
  lemma ConversionsAgreeExactlyOnSixDecimals(amount: real)
    requires UsdcToMinUnits(amount).Some?
    ensures ToAtomicUnits(amount) == UsdcToMinUnits(amount) <==> IsSixDecimal(amount)
    ensures ToAtomicUnits(amount).Some? <==> IsSixDecimal(amount)
  {
    if IsSixDecimal(amount) {
      RoundingsFixIntegers(MicroUsdc(amount).Floor);
    }
  }

  // ---------- The canonical transaction ----------

  /** The associated token account of an owner for a mint. */
  datatype TokenAccount = TokenAccount(owner: Wallet, mint: Mint)

  datatype Instruction =
    | CreateAccountIdempotent(payer: Wallet, account: TokenAccount)
    | TransferChecked(source: TokenAccount, mint: Mint, dest: TokenAccount, owner: Wallet, amount: int, decimals: int)
    | Memo(text: string)
    | ForeignInstruction(data: string)

  datatype Message = Message(instructions: seq<Instruction>, payer: Wallet, blockhash: string)

  datatype Signature = Unsigned | SignedBy(signer: Wallet, message: Message)

  datatype SolanaTransaction = SolanaTransaction(message: Message, signatures: seq<Signature>)

  /** What a sponsored transfer is about. */
  datatype TransferTerms = TransferTerms(sponsor: Wallet, buyer: Wallet, recipient: Wallet, mint: Mint, units: int,
                                         memo: string)

  /** What the server puts into a transaction: create the recipient's account, transfer, memo. */
  function ServerInstructions(t: TransferTerms): seq<Instruction>
  {
    var senderAta := TokenAccount(t.buyer, t.mint);
    var recipientAta := TokenAccount(t.recipient, t.mint);
    [CreateAccountIdempotent(t.sponsor, recipientAta),
     TransferChecked(senderAta, t.mint, recipientAta, t.buyer, t.units, USDC_DECIMALS),
     Memo(t.memo)]
  }

  /** What the buyer, on its own side, expects a transaction to contain. */
  function BuyerInstructions(t: TransferTerms): seq<Instruction>
  {
    var sender, receiver := TokenAccount(t.buyer, t.mint), TokenAccount(t.recipient, t.mint);
    [CreateAccountIdempotent(payer := t.sponsor, account := receiver),
     TransferChecked(source := sender, mint := t.mint, dest := receiver, owner := t.buyer, amount := t.units,
                     decimals := USDC_DECIMALS),
     Memo(t.memo)]
  }

  datatype BuildError = MemoInvalid | AmountInvalid

  datatype Built = Built(transaction: SolanaTransaction) | NotBuilt(error: BuildError)

  predicate PrefixedMemo(memo: string) { MEMO_PREFIX <= memo }

  /** The number of bytes of a text in UTF-8. */
  function Utf8Length(text: string): (n: nat)
    ensures n >= |text|
  {
    if text == "" then 0
    else
      var c := text[|text| - 1] as int;
      Utf8Length(text[..|text| - 1]) + if c < 0x80 then 1 else if c < 0x800 then 2 else if c < 0x1_0000 then 3 else 4
  }

  function BuildTransaction(sponsor: Wallet, buyer: Wallet, recipient: Wallet, mint: Mint, amount: real, memo: string,
                            blockhash: string): Built
  {
    if !PrefixedMemo(memo) || Utf8Length(memo) > MAX_MEMO then NotBuilt(MemoInvalid)
    else
      var units := ToAtomicUnits(amount);
      if units.None? then NotBuilt(AmountInvalid)
      else
        var terms := TransferTerms(sponsor, buyer, recipient, mint, units.value, memo);
        var message := Message(ServerInstructions(terms), sponsor, blockhash);
        Built(SolanaTransaction(message, [SignedBy(sponsor, message), Unsigned]))
  }

  /** The terms the server sends along with its partially signed transaction. */
  datatype IntentOffer = IntentOffer(transaction: SolanaTransaction, amount: real, currency: string, sponsor: Wallet,
                                     buyer: Wallet, recipient: Wallet, mint: Mint, memo: string)

  predicate VerifyCanonicalTransaction(t: SolanaTransaction, terms: TransferTerms)
  {
    && |t.signatures| == 2 && PrefixedMemo(terms.memo)
    && Message(BuyerInstructions(terms), terms.sponsor, t.message.blockhash) == t.message
    && t.signatures[0] == SignedBy(terms.sponsor, t.message)
  }

  function OfferTerms(offer: IntentOffer, payer: Wallet, units: int): TransferTerms
  {
    TransferTerms(offer.sponsor, payer, offer.recipient, offer.mint, units, offer.memo)
  }

  /** The wallets that have to sign a message, each once: its fee payer first, then whoever an
      instruction spends for. */
  function RequiredSigners(m: Message): seq<Wallet> { WithSigners([m.payer], m.instructions) }

  function WithSigners(found: seq<Wallet>, instructions: seq<Instruction>): seq<Wallet>
    decreases |instructions|
  {
    if instructions == [] then found
    else
      var first := instructions[0];
      var more := if first.CreateAccountIdempotent? && first.payer !in found then [first.payer]
                  else if first.TransferChecked? && first.owner !in found then [first.owner]
                  else [];
      WithSigners(found + more, instructions[1..])
  }

  /** Every signature belongs to the wallet whose turn it is. */
  predicate SignaturesVerify(t: SolanaTransaction)
  {
    var signers := RequiredSigners(t.message);
    |t.signatures| == |signers| && forall i :: 0 <= i < |signers| ==> t.signatures[i] == SignedBy(signers[i], t.message)
  }

  lemma SignersOfTheLayout(terms: TransferTerms, blockhash: string)
    ensures RequiredSigners(Message(BuyerInstructions(terms), terms.sponsor, blockhash))
         == if terms.sponsor == terms.buyer then [terms.sponsor] else [terms.sponsor, terms.buyer]
  {
    var all := BuyerInstructions(terms);
    assert all[1..] == [all[1], all[2]] && all[1..][1..] == [all[2]] && all[1..][1..][1..] == [];
    var two := if terms.sponsor == terms.buyer then [terms.sponsor] else [terms.sponsor, terms.buyer];
    assert two + [] == two && WithSigners(two, []) == two;
    assert WithSigners(two, all[1..][1..]) == two;
    assert [terms.sponsor] + [] == [terms.sponsor] && [terms.sponsor] + [terms.buyer] == [terms.sponsor, terms.buyer];
    assert WithSigners([terms.sponsor], all[1..]) == WithSigners(two, all[1..][1..]);
  }

  /** The buyer's signature on an offer, or None if any of its checks fails. */
  function SignIntent(policy: Policy, payer: Wallet, offer: IntentOffer): Option<SolanaTransaction>
  {
    var amount := VerifyAmount(policy, offer.amount);
    var t := offer.transaction;
    if amount.None? || offer.currency != "USDC" || offer.mint != policy.mint || offer.buyer != payer then None
    else if !VerifyCanonicalTransaction(t, OfferTerms(offer, payer, amount.value)) then None
    else
      var signed := SolanaTransaction(t.message, [t.signatures[0], SignedBy(payer, t.message)]);
      if !SignaturesVerify(signed) then None else Some(signed)
  }

  /** The last check fails exactly when the sponsor is the buyer itself: one wallet signs once. */
  lemma CompletedSignatures(t: SolanaTransaction, terms: TransferTerms)
    requires VerifyCanonicalTransaction(t, terms)
    ensures SignaturesVerify(SolanaTransaction(t.message, [t.signatures[0], SignedBy(terms.buyer, t.message)]))
            <==> terms.sponsor != terms.buyer
  {
    SignersOfTheLayout(terms, t.message.blockhash);
    hide RequiredSigners, BuyerInstructions;
  }

  /** The two sides lay out the same terms alike, and different terms never alike. */
  lemma BothSidesLayOutTheSame(a: TransferTerms, b: TransferTerms)
    ensures ServerInstructions(a) == BuyerInstructions(b) <==> a == b
  {
    var server, expected := ServerInstructions(a), BuyerInstructions(b);
    if server == expected {
      assert server[0] == expected[0] && server[1] == expected[1] && server[2] == expected[2];
    }
  }

  /** Whatever offer the buyer is sent: if it signs, the server would build the very same transaction
      from the terms stated - unless the memo exceeds the server's byte limit, which the buyer does
      not look at. Within that limit the buyer signs exactly what the server builds, for its own
      wallet and mint, an amount its policy covers, and a sponsor other than itself. */
  lemma BuyerSignsExactlyTheServersLayout(policy: Policy, payer: Wallet, offer: IntentOffer)
    ensures var t := offer.transaction;
            var built := BuildTransaction(offer.sponsor, payer, offer.recipient, offer.mint, offer.amount, offer.memo,
                                          t.message.blockhash);
            && (SignIntent(policy, payer, offer).Some? ==> (built.Built? <==> Utf8Length(offer.memo) <= MAX_MEMO))
            && (Utf8Length(offer.memo) <= MAX_MEMO ==>
                  (SignIntent(policy, payer, offer).Some? <==>
                    && VerifyAmount(policy, offer.amount).Some?
                    && offer.currency == "USDC" && offer.mint == policy.mint && offer.buyer == payer
                    && offer.sponsor != payer && |t.signatures| == 2
                    && built.Built? && built.transaction.message == t.message
                    && built.transaction.signatures[0] == t.signatures[0]))
  {
    var units := ToAtomicUnits(offer.amount);
    if units.Some? {
      BothSidesLayOutTheSame(OfferTerms(offer, payer, units.value), OfferTerms(offer, payer, units.value));
      if VerifyCanonicalTransaction(offer.transaction, OfferTerms(offer, payer, units.value)) {
        CompletedSignatures(offer.transaction, OfferTerms(offer, payer, units.value));
      }
    }
    hide SignaturesVerify, ServerInstructions, BuyerInstructions, Utf8Length, IsSixDecimal, MicroUsdc;
  }

  /** What the server says next to a transaction it built. */
  function OfferOf(t: SolanaTransaction, sponsor: Wallet, buyer: Wallet, recipient: Wallet, mint: Mint, amount: real,
                   memo: string): IntentOffer
  {
    IntentOffer(t, amount, "USDC", sponsor, buyer, recipient, mint, memo)
  }

  /** In the other direction, the buyer signs whatever the server built and described truthfully,
      exactly when its policy is on, allows the mint and covers the amount, and the sponsor is another
      wallet. */
  lemma BuiltOffersAreSignedWithinPolicy(policy: Policy, sponsor: Wallet, buyer: Wallet, recipient: Wallet, mint: Mint,
                                         amount: real, memo: string, blockhash: string)
    requires BuildTransaction(sponsor, buyer, recipient, mint, amount, memo, blockhash).Built?
    ensures var built := BuildTransaction(sponsor, buyer, recipient, mint, amount, memo, blockhash);
            var units := ToAtomicUnits(amount);
            && units.Some?
            && (SignIntent(policy, buyer, OfferOf(built.transaction, sponsor, buyer, recipient, mint, amount, memo)).Some?
                <==> policy.enabled && mint == policy.mint && units.value <= policy.maxAtomicAmount && sponsor != buyer)
  {
    var t := BuildTransaction(sponsor, buyer, recipient, mint, amount, memo, blockhash).transaction;
    var units := ToAtomicUnits(amount).value;
    var terms := TransferTerms(sponsor, buyer, recipient, mint, units, memo);
    BothSidesLayOutTheSame(terms, terms);
    CompletedSignatures(t, terms);
    hide SignaturesVerify;
    hide ServerInstructions, BuyerInstructions, Utf8Length, IsSixDecimal, MicroUsdc;
  }

  /** What the buyer signs makes exactly one transfer, of exactly the amount it checked against its
      cap, out of its own account and into the recipient's, under its own authority; the only other
      things in it are the recipient's account, paid for by the sponsor, and the memo. Both
      signatures are on that very message. */
  lemma SignedTransactionMovesThatAmountAndNothingElse(policy: Policy, payer: Wallet, offer: IntentOffer)
    requires SignIntent(policy, payer, offer).Some?
    ensures var signed := SignIntent(policy, payer, offer).value;
            var units := VerifyAmount(policy, offer.amount);
            && units.Some? && 0 < units.value <= policy.maxAtomicAmount
            && (forall i :: 0 <= i < |signed.message.instructions| ==>
                  match signed.message.instructions[i]
                  case TransferChecked(source, mint, dest, owner, amount, decimals) =>
                    && i == 1 && source == TokenAccount(payer, policy.mint)
                    && dest == TokenAccount(offer.recipient, policy.mint)
                    && mint == policy.mint && owner == payer && amount == units.value && decimals == USDC_DECIMALS
                  case CreateAccountIdempotent(feePayer, account) =>
                    feePayer == offer.sponsor && account == TokenAccount(offer.recipient, policy.mint)
                  case Memo(text) => text == offer.memo
                  case ForeignInstruction(_) => false)
            && (exists i :: 0 <= i < |signed.message.instructions| && signed.message.instructions[i].TransferChecked?)
            && signed.signatures == [SignedBy(offer.sponsor, signed.message), SignedBy(payer, signed.message)]
  {
    var units := VerifyAmount(policy, offer.amount).value;
    var expected := BuyerInstructions(OfferTerms(offer, payer, units));
    assert SignIntent(policy, payer, offer).value.message.instructions == expected;
    assert expected[1].TransferChecked?;
    assert units as real == MicroUsdc(offer.amount);
  }

  /** An offer whose memo is over the limit. */
  function LongMemoOffer(policy: Policy, sponsor: Wallet, payer: Wallet, recipient: Wallet, blockhash: string): IntentOffer
  {
    var memo := MEMO_PREFIX + seq(600, _ => 'x');
    var terms := TransferTerms(sponsor, payer, recipient, policy.mint, 1, memo);
    var message := Message(BuyerInstructions(terms), sponsor, blockhash);
    IntentOffer(SolanaTransaction(message, [SignedBy(sponsor, message), Unsigned]), 0.000001, "USDC", sponsor, payer,
                recipient, policy.mint, memo)
  }

  /** The buyer signs it, the server would not have built it. */
  lemma LongMemoIsSignedButNeverBuilt(policy: Policy, sponsor: Wallet, payer: Wallet, recipient: Wallet, blockhash: string)
    requires policy.enabled && policy.maxAtomicAmount >= 1 && sponsor != payer
    ensures var offer := LongMemoOffer(policy, sponsor, payer, recipient, blockhash);
            && SignIntent(policy, payer, offer).Some?
            && BuildTransaction(sponsor, payer, recipient, policy.mint, offer.amount, offer.memo, blockhash)
               == NotBuilt(MemoInvalid)
  {
    var offer := LongMemoOffer(policy, sponsor, payer, recipient, blockhash);
    assert |offer.memo| == 615;
    hide BuyerInstructions, SignaturesVerify;
    assert VerifyCanonicalTransaction(offer.transaction, TransferTerms(sponsor, payer, recipient, policy.mint, 1, offer.memo));
    CompletedSignatures(offer.transaction, TransferTerms(sponsor, payer, recipient, policy.mint, 1, offer.memo));
    assert MEMO_PREFIX <= offer.memo;
    assert MicroUsdc(0.000001) == 1.0;
  }

  // ---------- On chain ----------

  /** A finalized run of a signed layout: the buyer's account pays, the recipient's receives, every
      other listed account of the mint keeps its balance. */
  function Executed(m: Message, buyerHad: int, recipientHad: int): Transaction
    requires |m.instructions| == 3 && m.instructions[1].TransferChecked? && m.instructions[2].Memo?
  {
    var t := m.instructions[1];
    var from, to := t.source.owner, t.dest.owner;
    var moved := if from == to then 0 else t.amount;
    Transaction(false,
                [OtherInstruction,
                 TokenTransfer(AccountAddress(t.dest), t.amount, Some(t.mint), t.owner, AccountAddress(t.source)),
                 MemoText(m.instructions[2].text)],
                [TokenBalance(t.mint, Some(from), Some(buyerHad)), TokenBalance(t.mint, Some(to), Some(recipientHad))],
                [TokenBalance(t.mint, Some(from), Some(buyerHad - moved)),
                 TokenBalance(t.mint, Some(to), Some(recipientHad + moved))])
  }

  /** The address of a token account, kept apart from every wallet's. */
  function AccountAddress(a: TokenAccount): string
  {
    "ata:" + a.owner + ":" + a.mint
  }

  lemma TwoRowTotals(mint: Mint, a: Wallet, x: int, b: Wallet, y: int, o: Wallet)
    ensures Total([TokenBalance(mint, Some(a), Some(x)), TokenBalance(mint, Some(b), Some(y))], mint, o)
         == (if o == a then x else 0) + (if o == b then y else 0)
    ensures OwnerOrder([TokenBalance(mint, Some(a), Some(x)), TokenBalance(mint, Some(b), Some(y))], mint)
         == if a == b then [a] else [a, b]
  {
    var rows := [TokenBalance(mint, Some(a), Some(x)), TokenBalance(mint, Some(b), Some(y))];
    assert rows[..1] == [TokenBalance(mint, Some(a), Some(x))];
    assert rows[..1][..0] == [];
    assert Total(rows[..1], mint, o) == if o == a then x else 0;
    assert OwnerOrder(rows[..1], mint) == [a];
  }

  /** End to end: whatever price was agreed, once the buyer has signed the server's offer and the
      transfer is final, the server's check of that transaction for that price, recipient and memo
      succeeds with the buyer as sender - exactly when buyer and recipient are different wallets. */
  lemma SignedOfferSettles(policy: Policy, payer: Wallet, offer: IntentOffer, buyerHad: int, recipientHad: int)
    requires SignIntent(policy, payer, offer).Some?
    requires offer.recipient != "" && offer.mint != ""
    ensures var tx := Executed(SignIntent(policy, payer, offer).value.message, buyerHad, recipientHad);
            var units := UsdcToMinUnits(offer.amount);
            && units.Some? && units == ToAtomicUnits(offer.amount)
            && (VerifyUsdcPayment(tx, offer.recipient, units.value, offer.mint, Some(offer.memo)) == Some(payer)
                <==> payer != offer.recipient)
  {
    var k := VerifyAmount(policy, offer.amount).value;
    RoundingsFixIntegers(k);
    var message := SignIntent(policy, payer, offer).value.message;
    var tx := Executed(message, buyerHad, recipientHad);
    var r, mint := offer.recipient, offer.mint;
    var moved := if payer == r then 0 else k;
    assert tx.instructions[2] == MemoText(offer.memo);
    forall o
      ensures Total(tx.preBalances, mint, o) == (if o == payer then buyerHad else 0) + (if o == r then recipientHad else 0)
      ensures Total(tx.postBalances, mint, o)
           == (if o == payer then buyerHad - moved else 0) + (if o == r then recipientHad + moved else 0)
      ensures OwnerOrder(tx.preBalances, mint) == if payer == r then [payer] else [payer, r]
    {
      TwoRowTotals(mint, payer, buyerHad, r, recipientHad, o);
      TwoRowTotals(mint, payer, buyerHad - moved, r, recipientHad + moved, o);
    }
    if payer == r {
      SelfTransferIsNotRecognised(tx.instructions, r, k, mint, offer.memo);
    }
  }

  lemma SelfTransferIsNotRecognised(instructions: seq<ParsedInstruction>, recipient: Wallet, units: int, mint: Mint,
                                    memo: string)
    requires instructions == [OtherInstruction,
                              TokenTransfer(AccountAddress(TokenAccount(recipient, mint)), units, Some(mint), recipient,
                                            AccountAddress(TokenAccount(recipient, mint))),
                              MemoText(memo)]
    ensures FirstTransfer(instructions, recipient, units, mint) == None
  {
    var account := AccountAddress(TokenAccount(recipient, mint));
    assert |account| > |recipient|;
    assert instructions[0] == OtherInstruction && instructions[1].destination == account != recipient;
    assert instructions[1..] == [instructions[1], MemoText(memo)];
    assert instructions[1..][1..] == [MemoText(memo)];
    assert FirstTransfer([MemoText(memo)], recipient, units, mint) == None by {
      assert [MemoText(memo)][1..] == [];
    }
    assert FirstTransfer(instructions[1..], recipient, units, mint) == None;
  }
}
