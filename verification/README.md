# VeriProof: a verified model of the money path

A Dafny model of the parts of VeriProof where amounts, licences and evidence change hands: a price is
negotiated, an intent is created, a transfer is signed and settled on chain, a licence is granted, royalties
and batches are paid out. Beside it stand the image fingerprint that tells originals from copies, the Base58
and redaction codecs, and three small protocols (draft confirmation, payment approval, event feed).

Check everything with `dafny verify dfyconfig.toml`.

## How it is modelled

* **Settlement.** The database is a value (`Settlement.Db`): intents, licences keyed by payment signature, the
  finalized transactions, and the clock. A settle request is split where the code splits it: unlocked
  pre-check (`Begin`), the unlocked write of EXPIRED (`WriteExpiry`), chain verification (`VerifyOnChain`) and
  the locked commit (`CommitStep`). A run is any sequence of such steps of any number of requests, mixed with
  intent creation, other routes granting licences, new finalized transactions and time. A violated unique key
  or an exception inside the commit undoes it. `PaymentStore` is the same thing as an object whose methods
  update its tables in place, one whole request at a time. `issuedFor` and `grantedElsewhere` are
  bookkeeping that no modelled code reads.
* **Other overlaps.** Negotiation, draft, royalty and approval requests are split the same way: what they read or
  check, and later what they write. A royalty leg has its transfer in between, and its rows are seen by other calls
  only once the transaction around the call commits. Each of these modules states that a request served alone is
  its steps one after the other (`ServedAlone`, `LegServedAlone`, `DistributionIsARun`); the classes are the same
  code served one request at a time. A seller's reply reaches a buyer's memory at any time after the seller's write.
* **Amounts.** Decimal amounts are exact reals, rounded where and how the code rounds; amounts that have passed
  a conversion to micro-USDC are integers.
* **Environment.** The pricing model's answers, transfer outcomes, grant failures, random tokens, clock steps,
  chain contents and every request are unconstrained inputs. SHA-256 and the perceptual hash of a pixel matrix
  are arbitrary functions passed in. A signature is the fact of who signed which message.
* **History.** Where a claim is about the past (which token was issued for what, who was paid), the run
  functions record it next to the state the code keeps.

## Where the code does less than one might expect

* `SETTLED` and `EXPIRED` are final only for requests served one at a time. Around the expiry of an intent two
  overlapping requests can leave it EXPIRED with its signature and licence, or turn EXPIRED into SETTLED
  (`RaceAtExpiry`). Exactly when either is final whatever follows is `SettledIsFinalExactlyWithoutALateExpiry`
  and `ExpiredIsFinalExactlyWithoutAnOpenSettlement`.
* A negotiation request saves the whole session it read before asking the model. An overlapping one can thereby
  erase a logged round and take an acceptance back (`StaleWriteTakesAnAcceptanceBack`); exactly when it cannot
  is `LogIsKeptExactlyWhenReadsAreCurrent` and `AcceptanceIsFinalExactlyWithoutAStaleRead`.
* A draft's confirmation writes its token over whatever another request saved since it validated the draft
  (`OverlappingSaveSlipsThrough`, `AcceptedTokenYieldsWhatWasConfirmed`).
* A manifest digest does not tell several files from the one file that lists their hashes, one a line; nor no
  file from one empty file (`DigestPinsDownTheFiles`, `OneFileCanStandForSeveral`).
* Two overlapping posts can both answer one payment request (`TwoPostsAnswerOneRequest`), and a message outside
  approval mode lets a declined purchase through (`AutonomousMessageOverridesADeclination`,
  `CallIsLetThroughExactlyWhen`).
* Two overlapping distributions can pay one royalty leg twice (`OverlappingChecksPayTwice`), and so can two in
  sequence when the first one's row is not saved or is rolled back after its transfer (`RolledBackRowIsPaidAgain`);
  exactly when not is `RoleIsPaidNoMoreExactlyWhen`.
* A confirmation token is not used up by the registration it lets in, only by marking that one as done
  (`TokenIsAcceptedAgainExactlyWhen`).
* One on-chain payment settles every open batch order of the same payee and total
  (`PaymentDecidesOneOrderExactlyWhen`, with `EqualOrdersShareTheirPayments`).
* The buyer signs transactions with memos the server would refuse to build (`LongMemoIsSignedButNeverBuilt`), and
  the server builds transactions sponsored by the buyer itself, which the buyer cannot complete
  (`CompletedSignatures`); otherwise they agree on every transaction (`BuyerSignsExactlyTheServersLayout`).
* Matching is turn-proof only for whole pictures. A turned file is no longer the exact file or the same pixels, and
  a partial match by tiles can be lost (`TurningLosesAPartialMatch`, `TurnedCandidateIsFoundExactlyWhen`).
* An event that becomes visible below one already streamed never arrives (`LateRowIsLost`,
  `RowIsLostExactlyWhenTheCursorPassedIt`).
* The service's Base58 encoder writes one `1` too many for input without a nonzero byte, and only then
  (`ServiceRoundTripExactlyWhenNonzero`).
* The buyer's redactor does not leave the seller's output alone when `transaction_signature` is a key of a
  dictionary exactly at the depth cut, and only then (`ToolAfterTrace`, `AbsorptionFailsAtCut`).
* A replayed batch settlement repeats its answer exactly when no item's link to its licence was lost; losing it
  is silent in the code (`ReplayReturnsTheSamePartition`, `LostLinkChangesTheAnswer`).
* A transfer from a wallet to itself is signed by the buyer and executed, but never recognised as payment
  (`SignedOfferSettles`).
* The batch service's own text promises one licence per item; that rests on the first good payment deciding the
  order (`FirstGoodCallDecides`), since the licence key contains the payment.

## Model

| member | source | states |
|---|---|---|
| Settlement.PaymentStore.Create | veriproof/apps/ip/views_api.py:649-736 | creating an intent in place: refusals in the code's order, the bulk expiry of the buyer's overdue intents (kept even when building the transaction then fails), the new row, and the reply with the transaction the server built for these very terms |
| Settlement.PaymentStore.Grant | veriproof/services/license_service.py:58-87 | an existing licence for the signature is returned unchanged, otherwise one is inserted with the given terms, token and deadline |
| Settlement.PaymentStore.CommitSettlement | veriproof/apps/ip/views_api.py:827-860 | the locked part in place equals the atomic commit: all of it or nothing, SUBMITTED only in between |
| Settlement.PaymentStore.Settle | veriproof/apps/ip/views_api.py:770-860 | a whole settle request in place equals pre-check, chain check and commit composed |
| SettlementSafety.RunKeepsInv | veriproof/apps/ip/views_api.py:799-860 | the inductive invariant over every interleaving of all eight kinds of step, and that no run takes back terms, signatures, licences or ledger entries |
| SettlementSafety.CommitKeepsInv | veriproof/apps/ip/views_api.py:827-859 | a commit for a confirmed payment keeps signatures unique and every signed intent backed by a licence and a matching finalized transaction |
| SettlementSafety.CreateKeepsInv | veriproof/apps/ip/views_api.py:688-720 | creating an intent, with its bulk expiry, keeps the invariant |
| SettlementResults.SignatureIsWrittenOnce | veriproof/apps/ip/models.py:540 | over any run and any continuation: a bound signature never changes, no two intents share one, granted licences keep all but their certificate |
| SettlementResults.SignedIntentsCarryTheirOwnPayment | veriproof/apps/ip/views_api.py:814-825 | over every interleaving: the transaction bound to an intent is final, did not fail, carries the memo naming that very intent, and moved exactly its amount to its recipient from its buyer |
| SettlementResults.SignedIntentsMatchIssuedLicences | veriproof/apps/settlement/services.py:150-165 | in every reachable state signed intents and licences issued by this path correspond one to one and agree on asset, wallet, user, amount and usage, the sole exception being signatures another route had licensed first; SETTLED implies a signature |
| SettlementResults.LicencesAreExactlyTheBoundSignatures | veriproof/apps/settlement/models.py:56 | when no other route grants, the licence table is exactly the set of bound signatures |
| SettlementResults.RevenueReconciles | veriproof/services/solana_service.py:199-227 | a recipient's revenue over the signed intents whose payment the balance change recognised equals its token-balance gains over the distinct transactions bound to them |
| SettlementResults.SettledIsFinalExactlyWithoutALateExpiry | veriproof/apps/ip/views_api.py:799-804 | a settled intent stays settled in every continuation if and only if no request that had found it overdue before is still to write EXPIRED |
| SettlementResults.ExpiredIsFinalExactlyWithoutAnOpenSettlement | veriproof/apps/ip/views_api.py:801-860 | an expired intent stays expired in every continuation if and only if no request past the expiry check can still settle it: payment verified, or not yet refuted on chain, under a signature compatible with the intent's and bound to no other |
| SettlementResults.RaceAtExpiry | veriproof/apps/ip/views_api.py:799-859 | two overlapping requests around the expiry end in EXPIRED over SETTLED or SETTLED over EXPIRED, depending on the last write |
| SettlementResults.ServeIsFourSteps | veriproof/apps/ip/views_api.py:770-860 | a request served alone is its four steps without interruption, so everything above holds for it |
| SettlementResults.FinalStatusesAreAbsorbing | veriproof/apps/ip/views_api.py:799-804 | over every serial run, a SETTLED or EXPIRED intent is left exactly as it is |
| SettlementResults.SerialRunsNeverShowSubmitted | veriproof/apps/ip/views_api.py:837-859 | from an empty store no serial run ever shows SUBMITTED between requests, and final intents stay put |
| SettlementResults.SettledOnlyInTimeWithAFinalPayment | veriproof/apps/ip/views_api.py:801-858 | over every serial run from an empty store: whatever stands settled was settled before its expiry, with a finalized transaction that did not fail, carries this intent's own memo and moves exactly its amount to its recipient |
| SettlementResults.OneRequestSettlesExactlyWhen | veriproof/apps/ip/views_api.py:770-860 | exactly when one request settles an intent: right asset, user, channel and usable signature, in time, signature compatible and bound to no other, a finalized transaction that did not fail, carries the intent's own memo and moves exactly its amount from its buyer to its recipient, and nothing raised |
| SettlementResults.OneRequestChangesNothingElse | veriproof/apps/ip/views_api.py:770-860 | what one settle request answers and changes when it does not settle: an overdue intent is refused and marked EXPIRED, it is pending exactly when in time, compatible and not final yet, an unpaid one is refused; and no other intent ever changes |
| SettlementResults.CreateAnswers | veriproof/apps/ip/views_api.py:649-720 | exactly when an intent is created and which refusal it gets otherwise, exactly which older intents the sweep expires, and that it touches nothing else |
| SettlementResults.ReplayReturnsTheSameLicence | veriproof/apps/ip/views_api.py:880-895 | asking again about a settled intent, any time later and with any signature, returns the same licence, token and deadline and changes nothing |
| EndToEnd.AcceptedPriceIsOneInteger | veriproof/apps/ip/views_api.py:1256-1272 | every accepted positive USDC session price is exact in micro-USDC for server, buyer and chain check, whatever was offered and answered and however requests overlapped |
| EndToEnd.CreatedIntentAsksThePrice | veriproof/apps/ip/views_api.py:649-720 | a created intent asks exactly the list price or the session's agreed price, from the asking buyer to the given recipient, for the session's usage or else commercial use |
| EndToEnd.AgreedPriceIsPaidAndLicensed | veriproof/apps/ip/views_api.py:649-860 | from the server's reply to the licence: the buyer signs the transaction it was sent exactly within its policy and for a sponsor other than itself, and once that is final the first request in time settles the intent with a licence for the agreed asset, wallet, user, price and usage |
| Chain.TokenBalancesByOwner | veriproof/services/solana_service.py:496-512 | the dictionary holds, per owner, the sum over all its readable accounts of the mint, keys in order of first appearance |
| Chain.VerifyTokenBalanceDelta | veriproof/services/solana_service.py:477-493 | the loop finds the first owner, in order, who lost the amount, and only when the recipient gained exactly it |
| Chain.SoleLoserIsTheSender | veriproof/services/solana_service.py:487-493 | with listed balances conserved and one owner's balance down, the reported sender is that owner |
| Chain.PaymentIsRecognisedExactlyWhen | veriproof/services/solana_service.py:190-244 | from the transaction alone: it did not fail, the memo asked for is among its instructions, and either the recipient's total changed by exactly the amount or some instruction transfers exactly that amount to the recipient in a fitting mint; and who is then named as sender |
| Payment.OneIntegerForEveryPrice | veriproof/services/sponsored_payment_service.py:123-129 | a positive six-decimal price is one positive integer to all three conversions and recovers the price; the buyer accepts it exactly up to its cap |
| Payment.ConversionsAgreeExactlyOnSixDecimals | veriproof/services/solana_service.py:466-475 | the refusing and the truncating conversion agree exactly on six-decimal amounts |
| Payment.ConversionsAreExact | veriproof/services/solana_service.py:466-475 | the truncating conversion gives k exactly for amounts from k to below k + 1 millionths, the refusing one exactly for k millionths, and both only for positive k |
| Payment.BothSidesLayOutTheSame | veriproof/services/sponsored_payment_service.py:81-98 | the server's and the buyer's separately written instruction lists are equal if and only if sponsor, wallets, mint, amount and memo are |
| Payment.BuyerSignsExactlyTheServersLayout | agents/buyer_agent/payments/sponsored_usdc_client.py:144-220 | for every offer: what the buyer signs the server would build from the stated terms, if and only if the memo is within the server's byte limit; within it the buyer signs exactly what the server builds, for its own wallet, mint and policy and a sponsor other than itself |
| Payment.BuiltOffersAreSignedWithinPolicy | agents/buyer_agent/payments/sponsored_usdc_client.py:68-85 | every transaction the server built and described truthfully is signed if and only if the policy is on, allows the mint and covers the amount, and the sponsor is not the buyer |
| Payment.CompletedSignatures | agents/buyer_agent/payments/sponsored_usdc_client.py:167-173 | both signatures of a canonical transaction verify if and only if sponsor and buyer are different wallets |
| Payment.SignedTransactionMovesThatAmountAndNothingElse | agents/buyer_agent/payments/sponsored_usdc_client.py:195-220 | a signed transaction holds exactly one transfer, of the checked amount from the buyer's to the recipient's account under the buyer's authority, and otherwise only the recipient's account and the memo; both signatures are on that message |
| Payment.LongMemoIsSignedButNeverBuilt | veriproof/services/sponsored_payment_service.py:72-73 | a concrete offer with a 615-character memo that the buyer signs and the server refuses to build |
| Payment.SignedOfferSettles | veriproof/services/solana_service.py:190-244 | a signed offer, once executed, is recognised on chain for the agreed amount with the buyer as sender, if and only if buyer and recipient differ |
| Money.QuantizeMonotone | veriproof/services/_types.py:64-78 | rounding to either currency's precision keeps order |
| Money.QuantizeUsdcIsNearest | veriproof/services/_types.py:64-70 | the result has six decimals, is within half a unit, away from zero at exactly half, and equals the input exactly for six-decimal input |
| Money.QuantizeSolIsNearest | veriproof/services/_types.py:72-78 | the same in lamports: nine decimals, within half a unit, away from zero at exactly half, an amount in whole lamports unchanged |
| Negotiation.RoundStaysWithinTerms | veriproof/services/negotiation_engine.py:56-168 | for any model answer: an accepted price lies between the rounded minimum and the rounded lesser of offer and target, no offer below the minimum is accepted, every counter is at least the rounded minimum, a payee is named exactly on acceptance |
| Negotiation.ModelAnswerStands | veriproof/services/negotiation_engine.py:125-168 | for every answered round in the window: the price is the model's own when it is at least the minimum and the rounded minimum when it is missing or lower; ACCEPT exactly when the model accepts at such a price not above the offer, COUNTER_OFFER when it counters or accepts above it, otherwise a rejection |
| Negotiation.AskedPriceIsTheModelsOwn | veriproof/services/gemini_service.py:790-808 | for a minimum in whole lamports the price asked is the model's own to nine decimals when it is at least the minimum, else the minimum |
| Negotiation.ModelDecidesOnlyInBetween | veriproof/services/negotiation_engine.py:62-103 | the model can influence a round exactly when the offer is below target and at least the minimum or within the cap; outside, the outcome is the list price or a rejection |
| Negotiation.SessionRow.constructor | veriproof/apps/negotiation/views_api.py:104-112 | a new session starts negotiating with the first offer in its currency's field |
| Negotiation.SessionRow.Negotiate | veriproof/apps/negotiation/views_api.py:68-163 | one request on the stored session in place: refusals, the logged round, finalisation on acceptance |
| Negotiation.RequestIsAnsweredExactlyWhen | veriproof/apps/negotiation/views_api.py:68-135 | exactly which requests get a round, and the status each other one is refused with |
| Negotiation.OpeningOfferStays | veriproof/apps/negotiation/views_api.py:104-126 | whatever overlapping requests follow, the session keeps the currency and the first offer it was opened with |
| Negotiation.SessionIsFoldOfItsLog | veriproof/apps/negotiation/views_api.py:137-163 | over every run of overlapping requests, status, final price and payee are the fold of the round log, and each logged round is the engine's answer to a request of the run at that number of rounds |
| Negotiation.LogIsKeptExactlyWhenReadsAreCurrent | veriproof/apps/negotiation/views_api.py:137-163 | the log is append-only in every continuation if and only if every request under way read it as it stands or later, or is about to log its very last round again |
| Negotiation.AcceptanceIsFinalExactlyWithoutAStaleRead | veriproof/apps/negotiation/views_api.py:153-163 | ACCEPTED is final in every continuation if and only if no request is under way that read the session before it was accepted and does not itself accept |
| Negotiation.RoundIsAppendedExactlyWhen | veriproof/apps/negotiation/views_api.py:104-163 | a request's write appends its round to what the others logged meanwhile if and only if the last of them to write, if any, left the log as it was read |
| Negotiation.UndisturbedRunsAreSerial | veriproof/apps/negotiation/views_api.py:104-163 | a run in which every writing request finds the session as it read it ends as if they had been served one by one; nothing logged is lost, no acceptance taken back |
| Negotiation.StaleWriteTakesAnAcceptanceBack | veriproof/apps/negotiation/views_api.py:139-163 | a concrete run of two overlapping requests that erases an accepted round and its acceptance |
| Negotiation.FinalPriceWasAgreed | veriproof/apps/negotiation/views_api.py:155-161 | over every run of overlapping requests, the final price is six-decimal and within the rounded minimum and the rounded lesser of offer and target of one of the requests, and the payee is the one that request's terms named |
| Buyer.NegotiateWithListPriceFallback | agents/buyer_agent/tools.py:473-526 | at most three offers, each follow-up justified by the reply before it, and a rejection is final only when no list price could be read or it was turned down |
| Buyer.ListPriceIsAccepted | veriproof/services/negotiation_engine.py:64-74 | a published six-decimal target is accepted at exactly that price whatever the model, the rounds and the session |
| Buyer.FallbackAgainstPublishedTarget | agents/buyer_agent/tools.py:515-526 | with the published price equal to the target the fallback never ends rejected |
| Buyer.BuyerContext.Note | agents/buyer_agent/tools.py:261-305 | remember on acceptance, forget on a counter or rejection, other assets untouched |
| Buyer.MemoryFollowsReplies | agents/buyer_agent/tools.py:261-328 | which session a purchase of any asset resolves to after any one reply |
| Buyer.ReusedSessionsAreAccepted | agents/buyer_agent/tools.py:261-305 | in every run of overlapping requests of any buyers, each session the buyer remembers exists and is for that asset; and each stands accepted at the seller when every writing request found its session as it read it |
| Buyer.ResolvedSessionWasAgreedForTheAsset | agents/buyer_agent/tools.py:308-328 | the session a purchase uses when none is named exists, is for that asset, and stands accepted when every writing request found its session as it read it |
| Buyer.AcceptedSessionStaysUsableExactly | agents/buyer_agent/tools.py:308-328 | an accepted session stays accepted at the seller in every continuation if and only if no request on it is under way that read it before it was accepted and does not itself accept |
| Royalty.SplitLosesNothing | veriproof/services/royalty_service.py:54-64 | shares are non-negative and sum exactly to the half-even rounded price; the original share is less than one unit below its exact value |
| Royalty.RoyaltyLedger.Settle | veriproof/services/royalty_service.py:132-171 | one leg in place: a settled role is left alone, otherwise the transfer is made and then its row saved, or not |
| Royalty.RoyaltyLedger.Distribute | veriproof/services/royalty_service.py:89-112 | one call: every leg is tried up to the first row that cannot be saved; a rollback takes back the rows but not the transfers |
| Royalty.CallTriesEveryLeg | veriproof/services/royalty_service.py:104-171 | from the legs and outcomes alone: each leg without a settled row, up to the first row that cannot be saved, gets one new row, SETTLED exactly when its amount is positive and its own outcome is a signature, and the transfers made are exactly those legs in order |
| Royalty.LegHasItsOwnRow | veriproof/services/royalty_service.py:107-109 | when all rows save, each unsettled leg gets exactly the one row its own outcome calls for, whatever became of its sibling's transfer, and a settled role none |
| Royalty.DistributionIsARun | veriproof/services/royalty_service.py:89-171 | a call served alone is a run of its checks, transfers and saves, with its commit or rollback at the end |
| Royalty.RowsAreOnlyAdded | veriproof/services/royalty_service.py:132-136 | no continuation of overlapping calls rewrites or removes a stored row |
| Royalty.EscrowPaysThePriceOnce | veriproof/services/royalty_service.py:75-112 | over every run in which no two calls under way take on the same role: each role is settled at most once, the settled rows amount to no more than the price, and to the price if and only if every leg worth anything is settled; and once every call has ended a role was paid as often as its row is there plus once for every row lost |
| Royalty.RoleIsPaidNoMoreExactlyWhen | veriproof/services/royalty_service.py:132-171 | a role is sent no more money in any continuation if and only if its settled row is stored, or it is worth nothing, and no call that found it unsettled is still to pay it |
| Royalty.SerialCallsKeepApart | veriproof/services/royalty_service.py:104-107 | calls coming one after the other are such a run |
| Royalty.OverlappingChecksPayTwice | veriproof/services/royalty_service.py:132-161 | two calls that check the same leg before either pays it pay it twice |
| Royalty.RolledBackRowIsPaidAgain | veriproof/services/royalty_service.py:156-171 | a call whose row is rolled back after its transfer leaves the next call to pay the leg again |
| Royalty.TransfersAreRowsPlusLost | veriproof/services/royalty_service.py:156-171 | over every run of overlapping calls, transfers are the settled rows stored, those calls under way have not stored yet, and those lost; so once every call has ended transfers and settled rows agree if and only if no transfer's row was lost |
| Royalty.CreatorsGetTheirShares | veriproof/services/royalty_service.py:84-107 | once every call has ended and the rows amount to the price, each creator's wallet has received exactly its own share, or both shares when one wallet plays both roles, plus what it got in transfers whose row was lost |
| BatchQuote.ParseBatch | veriproof/services/gemini_service.py:353-387 | the reading loops refuse or price exactly as specified, refusing on the first bad entry |
| BatchQuote.CollectedIsTheBag | veriproof/services/gemini_service.py:368-375 | quotes are readable exactly when every entry is an object and no id repeats, and then the table holds exactly those quotes |
| BatchQuote.AnswerIsAcceptedExactlyWhen | veriproof/services/gemini_service.py:353-400 | an answer is accepted exactly when no entry is malformed or repeated, its ids are the requested ones, and every item's quote is a number at least its minimum and the floor; each price is then that quote, rounded |
| BatchQuote.QuoteOrderIsIrrelevant | veriproof/services/gemini_service.py:368-387 | any reordering of the model's quotes gives the same prices or the same refusal |
| BatchQuote.FloorsHoldAfterRounding | veriproof/services/gemini_service.py:390-400 | every accepted price is six-decimal and at least the creator's minimum and the rounded micro floor |
| BatchQuote.AcceptedQuoteAddsUp | veriproof/apps/settlement/batch_services.py:147-188 | for whatever minimums are configured, the stored total of an accepted quote is exactly the sum of the unit prices, one per requested asset, each at least its rounded minimum and the rounded micro floor |
| BatchSettle.BatchStore.Settle | veriproof/apps/settlement/batch_services.py:192-314 | the settle loop in place: replay, refusal, or one pass over the items with isolated failures |
| BatchSettle.SettleItemsDoes | veriproof/apps/settlement/batch_services.py:245-290 | after any number of items exactly the granted ones have a licence at their own price under this payment, and exactly the linked ones are linked |
| BatchSettle.ReplayReturnsTheSamePartition | veriproof/apps/settlement/batch_services.py:379-417 | a replay changes nothing and repeats the answer if and only if no link was lost |
| BatchSettle.LostLinkChangesTheAnswer | veriproof/apps/settlement/batch_services.py:270-276 | a concrete order and call whose lost link makes the replay answer differently |
| BatchSettle.FirstGoodCallDecides | veriproof/apps/settlement/batch_services.py:211-225 | over any sequence of calls the order is decided once, by the first call with a good payment, and keeps that signature |
| BatchSettle.SettledOrdersAreWorthTheirTotal | veriproof/apps/settlement/batch_services.py:206-314 | over every run of serial calls each item has at most one licence, at its own price for this order's payment; the order is SETTLED exactly when every item is licensed; licensed and unlicensed value add up to the total, whatever the prices |
| BatchSettle.PaymentDecidesOneOrderExactlyWhen | veriproof/apps/settlement/batch_services.py:206-328 | over any calls for several orders, a payment decides at most one of them if and only if no two are decided or payable by it |
| BatchSettle.OrdersAreDecidedByFullPayments | veriproof/apps/settlement/batch_services.py:206-328 | over any calls for several orders, a decided order was paid by a transaction that did not fail and moved exactly the order's total to its payee |
| BatchSettle.OneCallAnswers | veriproof/apps/settlement/batch_services.py:206-314 | a call with another payment or a bad one is refused and changes nothing; the first good one reports the order's new status, and its new licences are granted items' own, at their prices, to the named or the paying wallet |
| Orientation.OrientationPhashes | veriproof/services/image_fingerprint.py:319-326 | the two nested loops produce the hashes of the eight orientations in order |
| Orientation.EveryPixelMoves | veriproof/services/image_fingerprint.py:319-326 | where each pixel goes in each of the eight orientations |
| Orientation.NearestOrientation | veriproof/services/image_fingerprint.py:144-147 | the least distance and the least index reaching it |
| Orientation.VariantsAreClosed | veriproof/services/image_fingerprint.py:319-326 | each orientation of a turned or mirrored image is a specific orientation of the original |
| Orientation.DistanceIgnoresOrientation | veriproof/services/image_fingerprint.py:140-147 | turning or mirroring the candidate in any way leaves the least distance unchanged, for any hash and any original |
| ImageComparison.Compare | veriproof/services/image_fingerprint.py:121-172 | the whole comparison of two fingerprints: byte and canonical digests first, then the nearest orientation and the tile hits decide the verdict |
| ImageComparison.TileHitsCount | veriproof/services/image_fingerprint.py:329-338 | each tile of the original counts once, exactly when some tile of the candidate differs from it in at most eight bits |
| ImageComparison.ComparisonReports | veriproof/services/image_fingerprint.py:133-172 | the verdict for every distance and orientation, and every reported field, in terms of the two fingerprints |
| ImageComparison.TilePhash | veriproof/services/image_fingerprint.py:301-316 | the nested loops hash the nine overlapping tiles, row by row |
| ImageComparison.TilesCoverASide | veriproof/services/image_fingerprint.py:301-316 | the three tiles of a side cover it, overlap, and have their edges at a third each, widened by a twelfth |
| ImageComparison.TileIsAPart | veriproof/services/image_fingerprint.py:301-316 | each tile is the part of the picture between its edges, pixel by pixel |
| ImageComparison.CompareImages | veriproof/services/image_fingerprint.py:174-183 | two files compared by the fingerprints made of each one's own bytes and pixels |
| ImageComparison.MatchesExactlyWhen | veriproof/services/image_fingerprint.py:133-161 | two files match if and only if a digest is equal, two tiles are shared, or the nearest orientation is within the derived-image distance |
| ImageComparison.TurnedCandidateIsFoundExactlyWhen | veriproof/services/image_fingerprint.py:133-161 | a turned or mirrored candidate, fingerprinted anew, keeps its whole-picture distance, and is found if and only if it was before exactly when that distance is within the bound or its digests and tiles find it both times or neither time |
| ImageComparison.TurningLosesAPartialMatch | veriproof/services/image_fingerprint.py:150-161 | a concrete partial match by tiles that is not found any more after a quarter turn |
| ImageComparison.MovedCopyIsAMatch | veriproof/services/image_fingerprint.py:140-162 | a rotated or mirrored copy with other digests is a match at distance zero under an orientation in which both hash alike, reported as the same pixels exactly if it hashes like the original unmoved |
| ImageBits.BitsToInt | veriproof/services/image_fingerprint.py:239-243 | the shifting loop packs the bits, most significant first |
| ImageBits.PackedBit | veriproof/services/image_fingerprint.py:239-243 | each bit is the binary digit of the number at its place from the end |
| ImageBits.HashRoundTrip | veriproof/services/image_fingerprint.py:246-247 | 64 bits survive packing, sixteen hex digits, parsing and unpacking |
| ImageBits.HammingCountsDifferences | veriproof/services/image_fingerprint.py:382-383 | XOR and bit count give the number of differing positions |
| ImageBits.HammingIsAMetric | veriproof/services/image_fingerprint.py:382-383 | identity, symmetry and the triangle inequality |
| Median.SortSorts | veriproof/services/image_fingerprint.py:375 | the ordering used for the median is sorted and a rearrangement |
| Median.MedianIsInTheMiddle | veriproof/services/image_fingerprint.py:374-379 | at most half of the values lie on either side; for odd counts it is one of them, for even counts the mean of the two middle ones |
| Median.HalfOfDistinctExceedTheMedian | veriproof/services/image_fingerprint.py:374-379 | of different values exactly half, rounded down, exceed the median |
| Median.AtMostHalfAboveMedian | veriproof/services/image_fingerprint.py:374-379 | at most half of the values strictly exceed the median |
| Median.MedianAffine | veriproof/services/image_fingerprint.py:374-379 | the median follows any increasing affine change of its values |
| PerceptualHash.PHashHasAtMost31Bits | veriproof/services/image_fingerprint.py:266-277 | at most 31 bits are set, so two pHashes are within 62 |
| PerceptualHash.PHashSetsExactly | veriproof/services/image_fingerprint.py:266-277 | a bit is set if and only if its coefficient is not the first and exceeds the median of the 63 others |
| PerceptualHash.DifferentCoefficientsSet31Bits | veriproof/services/image_fingerprint.py:266-277 | 63 different coefficients set exactly 31 bits |
| PerceptualHash.WHash | veriproof/services/image_fingerprint.py:280-298 | the averaging loop and packing compute the specified hash |
| PerceptualHash.WHashSetsExactly | veriproof/services/image_fingerprint.py:280-298 | a bit is set if and only if the mean of its own 8x8 block exceeds the median of all block means |
| PerceptualHash.DifferentBlocksSet32Bits | veriproof/services/image_fingerprint.py:297-298 | 64 different block means set exactly 32 bits |
| PerceptualHash.WHashHasAtMost32Bits | veriproof/services/image_fingerprint.py:297-298 | at most 32 bits are set |
| PerceptualHash.AveragedIsTheBlockMean | veriproof/services/image_fingerprint.py:282-296 | three 2x2 passes give each cell the mean of its own 8x8 block and keep the overall mean |
| PerceptualHash.WHashIgnoresBrightnessAndContrast | veriproof/services/image_fingerprint.py:280-298 | no brightness shift or positive contrast factor changes a bit |
| Base58.ServiceBase58Encode | veriproof/services/x402_service.py:365-373 | the prepending loop writes leading ones and the numeral, or one extra `1` for an empty numeral |
| Base58.ToolBase58Encode | veriproof/tools/solana_keypair_to_bs58.py:11-17 | the appending loop, reversed, writes leading ones and the numeral |
| Base58.SymbolsAreTheAlphabet | veriproof/tools/solana_keypair_to_bs58.py:8 | the digits are the Base58 alphabet in its order, without 0, O, I and l |
| Base58.ToolRoundTrip | veriproof/tools/solana_keypair_to_bs58.py:11-17 | a reference decoder recovers any bytes, leading zeros included |
| Base58.ServiceRoundTripExactlyWhenNonzero | veriproof/services/x402_service.py:365-373 | the two encoders agree, and the service's is decodable, if and only if some byte is nonzero |
| Base58.ThirtyTwoBytesMakeAnAddress | veriproof/apps/accounts/services.py:47-49 | every 32-byte value encodes to 32 to 44 alphabet characters under both encoders |
| Redaction.RedactedIsBounded | agents/buyer_agent/demo.py:69-93 | no masked key keeps its value, and item, string and depth bounds hold everywhere |
| Redaction.KeyIsSensitiveExactlyWhen | agents/buyer_agent/demo.py:64-66 | a key is masked exactly when one of the six words occurs in it at some position, ignoring ASCII case and with a hyphen read as an underscore |
| Redaction.VisibleValuesStay | agents/buyer_agent/demo.py:69-93 | within the bounds and past no masked key nothing else is lost: numbers, flags and nulls stay, texts are cut after 4000 characters at most and end in the mark then, dictionaries keep their first 30 keys, all in their places |
| Redaction.StrongerAbsorbs | veriproof/agent_a/a2a_trace.py:31-55 | at every depth each redactor is idempotent and the seller's applied after the buyer's gives its own result |
| Redaction.ToolAfterTrace | agents/buyer_agent/demo.py:75-81 | the buyer's redactor leaves the seller's output unchanged if and only if the exempt key does not occur right at the depth cut |
| Redaction.RedactorsCompose | veriproof/agent_a/a2a_trace.py:31-55 | the four compositions of the two public redactors on any value |
| Redaction.AbsorptionFailsAtCut | agents/buyer_agent/demo.py:71-81 | a concrete value on which the two orders differ |
| Draft.UploadSha256 | veriproof/services/image_fingerprint.py:76-82 | hashing chunk by chunk is hashing the concatenation |
| Draft.UploadManifest | veriproof/services/image_fingerprint.py:84-104 | the digest of chunked uploads is the manifest digest of their contents |
| Draft.WorkManifestHash | veriproof/services/registration_service.py:345-349 | the registration pipeline computes that same manifest digest from whole contents |
| Draft.ChunkingIsIrrelevant | veriproof/services/image_fingerprint.py:76-82 | how a file is cut into chunks does not affect what is hashed |
| Draft.DigestPinsDownTheFiles | veriproof/services/image_fingerprint.py:96-104 | absent collisions, any two ordered sets of files share a manifest digest if and only if they are the same files in the same order, or one of them is the single file spelling out what the other's digest is the hash of |
| Draft.OneFileCanStandForSeveral | veriproof/services/image_fingerprint.py:96-104 | that single file always has the same digest, and a token issued for the several files is accepted with it |
| Draft.DraftRow.SaveDraft | veriproof/services/registration_draft_service.py:46-62 | merging in place, refusals, and the confirmation taken back |
| Draft.SaveMergesPerKey | veriproof/services/registration_draft_service.py:46-62 | per key: given and not null yields the stripped new value, otherwise the stored one |
| Draft.DraftRow.ConfirmDraft | veriproof/services/registration_draft_service.py:64-78 | a ready draft, executed or not, gets the new token |
| Draft.TokensAreIssuedOnFilledInDrafts | veriproof/services/registration_draft_service.py:64-78 | in every run of overlapping requests, a token is only ever issued on a draft that had an attachment and every required field filled in with more than blanks |
| Draft.OnlyConfirmedDraftsAreExecuted | veriproof/services/registration_draft_service.py:96-102 | at any point of any run, marking the draft as done does so exactly when a token was issued on it since the last save, and alters nothing else |
| Draft.DraftRow.ConsumeDraft | veriproof/services/registration_draft_service.py:80-94 | the fields are released exactly for a confirmed draft, its current token and matching files |
| Draft.AcceptedTokenYieldsWhatWasConfirmed | veriproof/services/registration_draft_service.py:64-94 | in every run of overlapping requests, an accepted token yields the fields and digest its confirmation validated if and only if the last save written between that confirmation's read and write, if any, had stored the same ones |
| Draft.OverlappingSaveSlipsThrough | veriproof/services/registration_draft_service.py:46-78 | a save written in between that changes anything makes the token yield fields nobody validated |
| Draft.SaveKillsEarlierTokens | veriproof/services/registration_draft_service.py:57-60 | in every run of overlapping requests, after any save is written no token issued before it is ever accepted again |
| Draft.TokenIsAcceptedAgainExactlyWhen | veriproof/services/registration_draft_service.py:80-102 | an accepted token lets a second registration in, in any run of overlapping requests, if and only if nothing was written to the row in between: no registration marked as done, no save, no confirmation |
| Approval.ChatSession.PaymentApprovalGate | agents/buyer_agent/payment_approval.py:22-63 | the gate in place: pay, declined, or ask, with the state it leaves |
| Approval.CallIsRefusedOrAsksExactlyWhen | agents/buyer_agent/payment_approval.py:22-63 | at any point of any run a call is refused exactly in approval mode with a declination of that very purchase written last, asks exactly when neither that nor its approval was, and what the gate leaves |
| Approval.ChatSession.StreamChat | agents/buyer_agent/demo.py:585-642 | a message is accepted only if its answer, if it has one, matches the request pending at that moment |
| Approval.MessageIsAcceptedExactlyWhen | agents/buyer_agent/demo.py:585-642 | a message is accepted exactly when it has no answer, or is in approval mode and answers the request written last and still pending |
| Approval.ChatSession.StartRun | agents/buyer_agent/demo.py:529-534 | its mode and answer are written into the state later, when the agent's run starts, whatever the state is by then |
| Approval.EveryPaymentHasItsOwnApproval | agents/buyer_agent/payment_approval.py:27-43 | per asset and method over every run of overlapping messages: payments in approval mode never outnumber the approvals posted, refusals never the declinations, and answers outnumber requests by no more than the answers written late |
| Approval.AnswerIsLateExactlyWhen | agents/buyer_agent/demo.py:613-642 | an accepted answer comes late if and only if the approval state was written between its check and its run, and last with something other than that pending request |
| Approval.TwoPostsAnswerOneRequest | agents/buyer_agent/demo.py:613-642 | two overlapping approvals of one request are both accepted and pay twice |
| Approval.CallIsLetThroughExactlyWhen | agents/buyer_agent/payment_approval.py:22-63 | at any point of any run a call is let through if and only if the last message started was not in approval mode or what was last written into the approval state is an approval of that very purchase |
| Approval.DeclinedNeverPays | agents/buyer_agent/payment_approval.py:45-55 | after a declination no call of that purchase is let through, in any mode, while no approval of it is written and every message started is in approval mode |
| Approval.AutonomousMessageOverridesADeclination | agents/buyer_agent/demo.py:585-592 | a message outside approval mode makes the gate let a declined purchase through |
| EventStream.RegistrationStream | veriproof/apps/ip/views_registration_stream.py:61-88 | the polling loop's stage frames, between the ready and closed frames, are the emitted pages |
| EventStream.EmittedIsAPrefix | veriproof/apps/ip/views_registration_stream.py:78-83 | with ids becoming visible in order, what is emitted is always a prefix of the owner's events after the first cursor, in id order, each poll adding a page of 50 or all that is left |
| EventStream.QuietLogIsDrained | veriproof/apps/ip/views_registration_stream.py:96-107 | a quiet log is completely emitted after one poll per started page |
| EventStream.RowIsEmittedExactlyWhenVisibleInTime | veriproof/apps/ip/views_registration_stream.py:78-107 | whenever rows become visible: a row the cursor moves past at some poll is emitted if and only if it is the feed's and was visible at that poll |
| EventStream.RowIsLostExactlyWhenTheCursorPassedIt | veriproof/apps/ip/views_registration_stream.py:78-107 | a visible row not emitted so far is lost in every continuation if and only if the cursor has reached its id |
| EventStream.LateRowIsLost | veriproof/apps/ip/views_registration_stream.py:78-83 | a concrete row that becomes visible below one already emitted and never arrives |

## Left out

- HTTP, authentication, the ORM, column widths, event fan-out, Firestore, BigQuery, storage and all user interface code.
- The `/settle`, webhook, Solana Pay and agent SOL routes: they appear only as steps that put arbitrary licences into the table.
- Overlapping settlements of one batch order, and a process dying between granting items and saving the order: calls are serial and run to completion.
- Two requests creating the same negotiation session at once: sessions are resolved by a unique id.
- Timestamps and reasons of logged rounds: two rounds with the same offer, verdict and price are the same round here.
- Overlapping agent runs of one chat session: their tool calls act on one shared state, one call at a time.
- Transactions becoming final between settle calls of different batch orders: the chain's content is fixed for such a run.
- Python's Decimal precision, non-finite numbers and float round trips of offers and hash grids: amounts and grey values are exact reals.
- The retry loops around the pricing model: their result is one arbitrary answer or none.
- Parsing of public keys, transaction serialisation, base64 and the blockhash's freshness: messages are compared as values, a signature names its message, and the wallets that must sign are the fee payer and then whoever an instruction spends for.
- Pillow's decoding and resizing, the cosine transform, aHash and dHash: the model starts from pixel or coefficient grids; a comparison takes hashes of pixels as given functions, and cuts tiles at exact fractions of a side.
- Non-ASCII case folding of keys, and objects with a `model_dump`: keys are folded in ASCII, values are already plain.
- Keep-alive comments and timers of the event feed: the number of polls is given by the environment.
- Token account addresses: the one the server pays into is only assumed different from wallet addresses, not derived from the owner.
- Download expiry of a licence and queries for held licences: plain comparisons of one row.
- Changing a work's royalty share or a creator's wallet between retries of one distribution: the terms are fixed per licence.
- Tool calls made without a chat context: the gate lets them through by design.
