/** Settling a quoted batch order, item by item, with replays and partial failure. Prices are
    micro-USDC. */
module BatchSettle {
  import opened Options
  import opened Chain

  type ItemId = string

  /** The idempotency key of one item's licence: the payment and the item. */
  datatype Key = Key(tx: string, item: ItemId)

  datatype Licence = Licence(asset: string, wallet: Wallet, price: int, token: string)

  datatype Item = Item(id: ItemId, asset: string, price: int, licence: Option<Key>)

  datatype OrderStatus = QUOTED | SETTLED | PARTIAL

  datatype Order = Order(status: OrderStatus, tx: Option<string>, total: int, items: seq<Item>)

  datatype Store = Store(order: Order, licences: map<Key, Licence>)

  /** What becomes of one item: the grant raises, or it succeeds and the link from the item to its
      licence is saved or silently lost. */
  datatype Outcome = GrantRaises | Granted(token: string, linked: bool)

  datatype Success = Success(item: ItemId, token: string)

  datatype Reply =
    | Invalid(error: string)
    | Done(status: OrderStatus, successes: seq<Success>, failures: seq<ItemId>)

  /** A settlement under way: the tables, and the two result lists. */
  datatype Progress = Progress(store: Store, successes: seq<Success>, failures: seq<ItemId>)

  function SettleItem(p: Progress, i: nat, tx: string, wallet: Wallet, outcome: Outcome): Progress
    requires i < |p.store.order.items|
  {
    var order, item := p.store.order, p.store.order.items[i];
    match outcome
    case GrantRaises => p.(failures := p.failures + [item.id])
    case Granted(token, linked) =>
      var key := Key(tx, item.id);
      var licence := if key in p.store.licences then p.store.licences[key]
                     else Licence(item.asset, wallet, item.price, token);
      var items := if linked then order.items[i := item.(licence := Some(key))] else order.items;
      Progress(Store(order.(items := items), p.store.licences[key := licence]),
               p.successes + [Success(item.id, licence.token)], p.failures)
  }

  function SettleItems(s: Store, n: nat, tx: string, wallet: Wallet, outcomes: seq<Outcome>): (p: Progress)
    requires n <= |s.order.items| && n <= |outcomes|
    ensures |p.store.order.items| == |s.order.items|
  {
    if n == 0 then Progress(s, [], [])
    else SettleItem(SettleItems(s, n - 1, tx, wallet, outcomes), n - 1, tx, wallet, outcomes[n - 1])
  }

  /** The reply to a replay, read back from the stored links. */
  function RebuiltSuccesses(s: Store, n: nat): seq<Success>
    requires n <= |s.order.items|
  {
    if n == 0 then []
    else
      var item := s.order.items[n - 1];
      RebuiltSuccesses(s, n - 1)
      + if item.licence.Some? && item.licence.value in s.licences
        then [Success(item.id, s.licences[item.licence.value].token)] else []
  }

  function RebuiltFailures(items: seq<Item>, n: nat): seq<ItemId>
    requires n <= |items|
  {
    if n == 0 then []
    else RebuiltFailures(items, n - 1) + if items[n - 1].licence.None? then [items[n - 1].id] else []
  }

  function Rebuild(s: Store): Reply
  {
    var n := |s.order.items|;
    Done(if s.order.status == SETTLED then SETTLED else PARTIAL, RebuiltSuccesses(s, n),
         RebuiltFailures(s.order.items, n))
  }

  /** One settle call: the payment check's sender if it passed, the wallet asked for, and what happens
      to each item. */
  datatype Call = Call(tx: string, sender: Option<Wallet>, wallet: Wallet, outcomes: seq<Outcome>)

  function SettleBatch(s: Store, c: Call): (Store, Reply)
    requires |c.outcomes| >= |s.order.items|
  {
    if s.order.status != QUOTED && s.order.tx == Some(c.tx) then (s, Rebuild(s))
    else if s.order.status != QUOTED then (s, Invalid("already_settled"))
    else if s.order.items == [] || c.sender.None? then (s, Invalid("invalid_settlement"))
    else
      var wallet := if c.wallet != "" then c.wallet else c.sender.value;
      var p := SettleItems(s, |s.order.items|, c.tx, wallet, c.outcomes);
      var status := if p.failures != [] then PARTIAL else SETTLED;
      (p.store.(order := p.store.order.(status := status, tx := Some(c.tx))), Done(status, p.successes, p.failures))
  }

  class BatchStore {
    var order: Order
    var licences: map<Key, Licence>

    function View(): Store
      reads this
    {
      Store(order, licences)
    }

    constructor (order: Order, licences: map<Key, Licence>)
      ensures View() == Store(order, licences)
    {
      this.order, this.licences := order, licences;
    }

    method Settle(c: Call) returns (reply: Reply)
      requires |c.outcomes| >= |order.items|
      modifies this
      ensures (View(), reply) == SettleBatch(old(View()), c)
    {
      if order.status != QUOTED {
        return if order.tx == Some(c.tx) then Rebuild(View()) else Invalid("already_settled");
      }
      if order.items == [] || c.sender.None? {
        return Invalid("invalid_settlement");
      }
      var wallet := if c.wallet != "" then c.wallet else c.sender.value;
      var successes: seq<Success>, failures: seq<ItemId> := [], [];
      ghost var s0 := View();
      for i := 0 to |order.items|
        invariant |order.items| == |s0.order.items|
        invariant Progress(View(), successes, failures) == SettleItems(s0, i, c.tx, wallet, c.outcomes)
      {
        var item := order.items[i];
        var key := Key(c.tx, item.id);
        match c.outcomes[i]
        case GrantRaises =>
          failures := failures + [item.id];
        case Granted(token, linked) =>
          var licence := if key in licences then licences[key] else Licence(item.asset, wallet, item.price, token);
          licences := licences[key := licence];
          if linked {
            order := order.(items := order.items[i := item.(licence := Some(key))]);
          }
          successes := successes + [Success(item.id, licence.token)];
      }
      var status := if failures != [] then PARTIAL else SETTLED;
      order := order.(status := status, tx := Some(c.tx));
      reply := Done(status, successes, failures);
    }
  }

  // ---------- A fresh order ----------

  function SumPrices(items: seq<Item>): int
  {
    if items == [] then 0 else SumPrices(items[..|items| - 1]) + items[|items| - 1].price
  }

  /** As quoted: distinct items with prices adding up to the total, nothing licensed. */
  ghost predicate Fresh(s: Store)
  {
    && s.order.status == QUOTED && s.order.tx.None?
    && s.order.total == SumPrices(s.order.items)
    && (forall i, j :: 0 <= i < j < |s.order.items| ==> s.order.items[i].id != s.order.items[j].id)
    && (forall i :: 0 <= i < |s.order.items| ==> s.order.items[i].licence.None?)
    && (forall k, i :: k in s.licences && 0 <= i < |s.order.items| ==> k.item != s.order.items[i].id)
  }

  /** After its first n items, a settlement of a fresh order has changed exactly the links of the items
      granted and linked so far ... */
  ghost predicate LinksUpTo(s: Store, items: seq<Item>, n: nat, c: Call)
  {
    && n <= |s.order.items| <= |c.outcomes| && |items| == |s.order.items|
    && forall i :: 0 <= i < |items| ==>
         items[i] == s.order.items[i].(licence := if i < n && c.outcomes[i].Granted? && c.outcomes[i].linked
                                                  then Some(Key(c.tx, s.order.items[i].id)) else None)
  }

  ghost predicate GrantedUpTo(s: Store, n: nat, c: Call, k: Key)
    requires n <= |s.order.items| <= |c.outcomes|
  {
    exists i :: 0 <= i < n && c.outcomes[i].Granted? && k == Key(c.tx, s.order.items[i].id)
  }

  /** ... and added exactly one licence for each item granted so far. */
  ghost predicate LicencesUpTo(s: Store, licences: map<Key, Licence>, n: nat, c: Call, wallet: Wallet)
  {
    && n <= |s.order.items| <= |c.outcomes|
    && (forall k :: k in licences <==> k in s.licences || GrantedUpTo(s, n, c, k))
    && (forall k :: k in s.licences ==> licences[k] == s.licences[k])
    && (forall i :: 0 <= i < n && c.outcomes[i].Granted? ==>
          var item := s.order.items[i];
          && Key(c.tx, item.id) in licences
          && licences[Key(c.tx, item.id)] == Licence(item.asset, wallet, item.price, c.outcomes[i].token))
  }

  ghost predicate DoneUpTo(s: Store, p: Progress, n: nat, c: Call, wallet: Wallet)
  {
    && LinksUpTo(s, p.store.order.items, n, c)
    && p.store.order == s.order.(items := p.store.order.items)
    && LicencesUpTo(s, p.store.licences, n, c, wallet)
  }

  lemma ItemStore(p: Progress, i: nat, tx: string, wallet: Wallet, outcome: Outcome)
    requires i < |p.store.order.items| && Key(tx, p.store.order.items[i].id) !in p.store.licences
    ensures var item := p.store.order.items[i];
            var key, order := Key(tx, item.id), p.store.order;
            SettleItem(p, i, tx, wallet, outcome).store
            == Store(order.(items := if outcome.Granted? && outcome.linked
                                     then order.items[i := item.(licence := Some(key))] else order.items),
                     if outcome.Granted?
                     then p.store.licences[key := Licence(item.asset, wallet, item.price, outcome.token)]
                     else p.store.licences)
  {
  }

  lemma {:induction false} SettleItemsDoes(s: Store, n: nat, c: Call, wallet: Wallet)
    requires Fresh(s) && n <= |s.order.items| <= |c.outcomes|
    ensures DoneUpTo(s, SettleItems(s, n, c.tx, wallet, c.outcomes), n, c, wallet)
  {
    if n > 0 {
      SettleItemsDoes(s, n - 1, c, wallet);
      assert s.order.items[n - 1].licence.None?;
      hide LicencesUpTo, LinksUpTo, Fresh, SettleItem;
      var p := SettleItems(s, n - 1, c.tx, wallet, c.outcomes);
      assert SettleItems(s, n, c.tx, wallet, c.outcomes) == SettleItem(p, n - 1, c.tx, wallet, c.outcomes[n - 1]);
      hide SettleItems;
      KeyIsNew(s, p.store.licences, n - 1, c, wallet);
      PendingItem(s, p.store.order.items, n - 1, c);
      ItemStore(p, n - 1, c.tx, wallet, c.outcomes[n - 1]);
      LinksStep(s, p.store.order.items, n, c);
      LicencesStep(s, p.store.licences, n, c, wallet);
    }
  }

  lemma KeyIsNew(s: Store, licences: map<Key, Licence>, n: nat, c: Call, wallet: Wallet)
    requires Fresh(s) && LicencesUpTo(s, licences, n, c, wallet) && n < |s.order.items|
    ensures Key(c.tx, s.order.items[n].id) !in licences
  {
    var key := Key(c.tx, s.order.items[n].id);
    forall k | k in licences
      ensures k != key
    {
      if k in s.licences {
        assert k.item != s.order.items[n].id;
      }
    }
  }

  lemma LinksStep(s: Store, items: seq<Item>, n: nat, c: Call)
    requires 0 < n <= |s.order.items| && LinksUpTo(s, items, n - 1, c) && s.order.items[n - 1].licence.None?
    ensures LinksUpTo(s, if c.outcomes[n - 1].Granted? && c.outcomes[n - 1].linked
                         then items[n - 1 := items[n - 1].(licence := Some(Key(c.tx, items[n - 1].id)))] else items, n, c)
  {
  }

  lemma PendingItem(s: Store, items: seq<Item>, n: nat, c: Call)
    requires Fresh(s) && n < |s.order.items| && LinksUpTo(s, items, n, c)
    ensures items[n] == s.order.items[n]
  {
  }

  lemma GrantedStep(s: Store, n: nat, c: Call, k: Key)
    requires 0 < n <= |s.order.items| <= |c.outcomes|
    ensures GrantedUpTo(s, n, c, k) <==>
            GrantedUpTo(s, n - 1, c, k) || (c.outcomes[n - 1].Granted? && k == Key(c.tx, s.order.items[n - 1].id))
  {
  }

  lemma LicencesStep(s: Store, licences: map<Key, Licence>, n: nat, c: Call, wallet: Wallet)
    requires Fresh(s) && 0 < n <= |s.order.items| && LicencesUpTo(s, licences, n - 1, c, wallet)
    ensures var item, outcome := s.order.items[n - 1], c.outcomes[n - 1];
            LicencesUpTo(s, if outcome.Granted?
                            then licences[Key(c.tx, item.id) := Licence(item.asset, wallet, item.price, outcome.token)]
                            else licences, n, c, wallet)
  {
    KeyIsNew(s, licences, n - 1, c, wallet);
    forall k
      ensures GrantedUpTo(s, n, c, k) <==>
              GrantedUpTo(s, n - 1, c, k) || (c.outcomes[n - 1].Granted? && k == Key(c.tx, s.order.items[n - 1].id))
    {
      GrantedStep(s, n, c, k);
    }
    hide GrantedUpTo, Fresh;
  }

  // ---------- The result lists ----------

  function OutcomeSuccesses(items: seq<Item>, outcomes: seq<Outcome>, n: nat): seq<Success>
    requires n <= |items| && n <= |outcomes|
  {
    if n == 0 then []
    else
      OutcomeSuccesses(items, outcomes, n - 1)
      + if outcomes[n - 1].Granted? then [Success(items[n - 1].id, outcomes[n - 1].token)] else []
  }

  function OutcomeFailures(items: seq<Item>, outcomes: seq<Outcome>, n: nat): seq<ItemId>
    requires n <= |items| && n <= |outcomes|
  {
    if n == 0 then []
    else OutcomeFailures(items, outcomes, n - 1) + if outcomes[n - 1].GrantRaises? then [items[n - 1].id] else []
  }

  function LostLinks(outcomes: seq<Outcome>, n: nat): nat
    requires n <= |outcomes|
  {
    if n == 0 then 0
    else LostLinks(outcomes, n - 1) + if outcomes[n - 1].Granted? && !outcomes[n - 1].linked then 1 else 0
  }

  lemma ItemLists(p: Progress, i: nat, tx: string, wallet: Wallet, outcome: Outcome)
    requires i < |p.store.order.items| && Key(tx, p.store.order.items[i].id) !in p.store.licences
    ensures var q, id := SettleItem(p, i, tx, wallet, outcome), p.store.order.items[i].id;
            && q.successes == p.successes + (if outcome.Granted? then [Success(id, outcome.token)] else [])
            && q.failures == p.failures + (if outcome.GrantRaises? then [id] else [])
  {
  }

  lemma {:induction false} ListsFollowOutcomes(s: Store, n: nat, c: Call, wallet: Wallet)
    requires Fresh(s) && n <= |s.order.items| <= |c.outcomes|
    ensures var p := SettleItems(s, n, c.tx, wallet, c.outcomes);
            && p.successes == OutcomeSuccesses(s.order.items, c.outcomes, n)
            && p.failures == OutcomeFailures(s.order.items, c.outcomes, n)
  {
    if n > 0 {
      hide Fresh, LicencesUpTo, LinksUpTo, SettleItem;
      ListsFollowOutcomes(s, n - 1, c, wallet);
      SettleItemsDoes(s, n - 1, c, wallet);
      var p := SettleItems(s, n - 1, c.tx, wallet, c.outcomes);
      assert SettleItems(s, n, c.tx, wallet, c.outcomes) == SettleItem(p, n - 1, c.tx, wallet, c.outcomes[n - 1]);
      hide SettleItems;
      KeyIsNew(s, p.store.licences, n - 1, c, wallet);
      PendingItem(s, p.store.order.items, n - 1, c);
      ItemLists(p, n - 1, c.tx, wallet, c.outcomes[n - 1]);
    }
  }

  /** What a replay reads back from the final tables. */
  lemma {:induction false} RebuiltFollowsLinks(s: Store, f: Store, n: nat, c: Call, wallet: Wallet)
    requires |s.order.items| <= |c.outcomes| && n <= |s.order.items| == |f.order.items|
    requires forall i :: 0 <= i < |f.order.items| ==>
               && f.order.items[i].id == s.order.items[i].id
               && f.order.items[i].licence == (if c.outcomes[i].Granted? && c.outcomes[i].linked
                                               then Some(Key(c.tx, f.order.items[i].id)) else None)
               && (c.outcomes[i].Granted? ==>
                     && Key(c.tx, f.order.items[i].id) in f.licences
                     && f.licences[Key(c.tx, f.order.items[i].id)].token == c.outcomes[i].token)
    ensures |RebuiltFailures(f.order.items, n)|
         == |OutcomeFailures(s.order.items, c.outcomes, n)| + LostLinks(c.outcomes, n)
    ensures LostLinks(c.outcomes, n) == 0 ==>
              && RebuiltFailures(f.order.items, n) == OutcomeFailures(s.order.items, c.outcomes, n)
              && RebuiltSuccesses(f, n) == OutcomeSuccesses(s.order.items, c.outcomes, n)
  {
    if n > 0 {
      RebuiltFollowsLinks(s, f, n - 1, c, wallet);
    }
  }

  predicate Accepted(s: Store, c: Call)
  {
    s.order.status == QUOTED && s.order.items != [] && c.sender.Some?
  }

  function WalletOf(c: Call): Wallet
    requires c.sender.Some?
  {
    if c.wallet != "" then c.wallet else c.sender.value
  }

  /** Asking again with the same payment returns the same answer exactly when no item lost the link to
      its licence on the way. */
  lemma ReplayReturnsTheSamePartition(s: Store, c: Call, again: Call)
    requires Fresh(s) && Accepted(s, c) && |c.outcomes| >= |s.order.items| && |again.outcomes| >= |s.order.items|
    requires again.tx == c.tx
    ensures var (after, reply) := SettleBatch(s, c);
            && |after.order.items| == |s.order.items|
            && SettleBatch(after, again).0 == after
            && (SettleBatch(after, again).1 == reply <==> LostLinks(c.outcomes, |s.order.items|) == 0)
  {
    var n := |s.order.items|;
    SettleItemsDoes(s, n, c, WalletOf(c));
    ListsFollowOutcomes(s, n, c, WalletOf(c));
    var (after, reply) := SettleBatch(s, c);
    hide SettleItems;
    RebuiltFollowsLinks(s, after, n, c, WalletOf(c));
  }

  /** What one call on a fresh order answers, and whom it licenses: nothing without items or a good payment;
      otherwise every licence it adds is for its item's asset and price and goes to the wallet asked for,
      or to the payer if none was. A decided order refuses any other payment. */
  lemma OneCallAnswers(s: Store, c: Call)
    requires |c.outcomes| >= |s.order.items|
    ensures var (after, reply) := SettleBatch(s, c);
            && (s.order.status != QUOTED && s.order.tx != Some(c.tx) ==> reply == Invalid("already_settled") && after == s)
            && (s.order.status == QUOTED && (s.order.items == [] || c.sender.None?) ==>
                  reply == Invalid("invalid_settlement") && after == s)
            && (Fresh(s) && s.order.items != [] && c.sender.Some? ==>
                  && reply.Done? && reply.status == after.order.status
                  && (forall k :: k in after.licences && k !in s.licences ==>
                        exists i :: 0 <= i < |s.order.items| && c.outcomes[i].Granted?
                          && k == Key(c.tx, s.order.items[i].id)
                          && after.licences[k] == Licence(s.order.items[i].asset,
                                                          if c.wallet != "" then c.wallet else c.sender.value,
                                                          s.order.items[i].price, c.outcomes[i].token)))
  {
    if Fresh(s) && s.order.items != [] && c.sender.Some? {
      var n := |s.order.items|;
      SettleItemsDoes(s, n, c, WalletOf(c));
      var after := SettleBatch(s, c).0;
      assert LicencesUpTo(s, after.licences, n, c, if c.wallet != "" then c.wallet else c.sender.value);
      hide SettleItems, SettleBatch, Fresh;
      forall k | k in after.licences && k !in s.licences
        ensures exists i :: 0 <= i < n && c.outcomes[i].Granted? && k == Key(c.tx, s.order.items[i].id)
      {
        assert GrantedUpTo(s, n, c, k);
      }
    }
  }

  // ---------- Runs ----------

  function RunCalls(s: Store, calls: seq<Call>): Store
    requires forall i :: 0 <= i < |calls| ==> |calls[i].outcomes| >= |s.order.items|
    ensures |RunCalls(s, calls).order.items| == |s.order.items|
    decreases |calls|
  {
    if calls == [] then s
    else SettleBatch(RunCalls(s, calls[..|calls| - 1]), calls[|calls| - 1]).0
  }

  lemma OneCall(s: Store, c: Call)
    requires |c.outcomes| >= |s.order.items|
    ensures !Accepted(s, c) ==> SettleBatch(s, c).0 == s
    ensures Accepted(s, c) ==> SettleBatch(s, c).0.order.status != QUOTED && SettleBatch(s, c).0.order.tx == Some(c.tx)
  {
    hide SettleItems, Rebuild;
  }

  /** However often and with whatever payments an order is settled, the outcome is that of the first
      call whose payment was good - its signature, its licences, its links - and of no other. */
  lemma {:induction false} FirstGoodCallDecides(s: Store, calls: seq<Call>, k: nat)
    requires s.order.status == QUOTED && forall i :: 0 <= i < |calls| ==> |calls[i].outcomes| >= |s.order.items|
    requires k <= |calls| && forall i :: 0 <= i < k ==> !Accepted(s, calls[i])
    requires k < |calls| ==> Accepted(s, calls[k])
    ensures k == |calls| ==> RunCalls(s, calls) == s
    ensures k < |calls| ==>
              && RunCalls(s, calls) == SettleBatch(s, calls[k]).0
              && RunCalls(s, calls).order.status != QUOTED
              && RunCalls(s, calls).order.tx == Some(calls[k].tx)
    decreases |calls|
  {
    hide SettleBatch, Accepted;
    if calls != [] {
      var n := |calls| - 1;
      var front := calls[..n];
      FirstGoodCallDecides(s, front, if k <= n then k else n);
      OneCall(RunCalls(s, front), calls[n]);
      if k < n {
        OneCall(s, calls[k]);
        NotQuotedNotAccepted(RunCalls(s, front), calls[n]);
      }
    }
  }

  lemma NotQuotedNotAccepted(s: Store, c: Call)
    ensures s.order.status != QUOTED ==> !Accepted(s, c)
  {
  }

  ghost predicate Licensed(s: Store, id: ItemId)
  {
    exists k :: k in s.licences && k.item == id
  }

  ghost function LicensedValue(s: Store, n: nat): int
    requires n <= |s.order.items|
  {
    if n == 0 then 0
    else LicensedValue(s, n - 1) + if Licensed(s, s.order.items[n - 1].id) then s.order.items[n - 1].price else 0
  }

  ghost function UnlicensedValue(s: Store, n: nat): int
    requires n <= |s.order.items|
  {
    if n == 0 then 0
    else UnlicensedValue(s, n - 1) + if Licensed(s, s.order.items[n - 1].id) then 0 else s.order.items[n - 1].price
  }

  ghost predicate OwnLicencesOnly(end: Store)
  {
    forall k, i :: k in end.licences && 0 <= i < |end.order.items| && k.item == end.order.items[i].id ==>
      && end.order.tx == Some(k.tx)
      && end.licences[k].price == end.order.items[i].price
      && end.licences[k].asset == end.order.items[i].asset
  }

  /** Over every run: each item has at most one licence, for its own price and this order's payment; the
      order is SETTLED exactly when every item is licensed; and what is licensed plus what is not adds
      up to the total, so that with no negative price the licensed value is the total exactly when
      every item worth anything is licensed. */
  lemma SettledOrdersAreWorthTheirTotal(s: Store, calls: seq<Call>)
    requires Fresh(s) && forall i :: 0 <= i < |calls| ==> |calls[i].outcomes| >= |s.order.items|
    requires s.order.items != []
    ensures var end := RunCalls(s, calls);
            var items, n := end.order.items, |end.order.items|;
            && OwnLicencesOnly(end)
            && (end.order.status == SETTLED <==> forall i :: 0 <= i < n ==> Licensed(end, items[i].id))
            && LicensedValue(end, n) + UnlicensedValue(end, n) == end.order.total
            && ((forall i :: 0 <= i < n ==> items[i].price >= 0) ==>
                  && 0 <= LicensedValue(end, n) <= end.order.total
                  && (LicensedValue(end, n) == end.order.total
                      <==> forall i :: 0 <= i < n && items[i].price > 0 ==> Licensed(end, items[i].id)))
  {
    var n := |s.order.items|;
    var k := FirstAccepted(s, calls);
    FirstGoodCallDecides(s, calls, k);
    var end := RunCalls(s, calls);
    if k < |calls| {
      OneSettlement(s, calls[k]);
    } else {
      assert end == s;
      assert !Licensed(s, s.order.items[0].id);
    }
    ValuesAddUp(end, n);
    assert end.order.items[..n] == end.order.items;
    if forall i :: 0 <= i < n ==> end.order.items[i].price >= 0 {
      ValuesAreNonNegative(end, n);
    }
  }

  lemma {:induction false} ValuesAddUp(s: Store, n: nat)
    requires n <= |s.order.items|
    ensures LicensedValue(s, n) + UnlicensedValue(s, n) == SumPrices(s.order.items[..n])
  {
    if n > 0 {
      ValuesAddUp(s, n - 1);
      assert s.order.items[..n][..n - 1] == s.order.items[..n - 1];
    }
  }

  lemma {:induction false} ValuesAreNonNegative(s: Store, n: nat)
    requires n <= |s.order.items| && forall i :: 0 <= i < n ==> s.order.items[i].price >= 0
    ensures LicensedValue(s, n) >= 0 && UnlicensedValue(s, n) >= 0
    ensures UnlicensedValue(s, n) == 0
            <==> forall i :: 0 <= i < n && s.order.items[i].price > 0 ==> Licensed(s, s.order.items[i].id)
  {
    if n > 0 {
      ValuesAreNonNegative(s, n - 1);
    }
  }

  lemma FirstAccepted(s: Store, calls: seq<Call>) returns (k: nat)
    ensures k <= |calls| && forall i :: 0 <= i < k ==> !Accepted(s, calls[i])
    ensures k < |calls| ==> Accepted(s, calls[k])
  {
    k := 0;
    while k < |calls| && !Accepted(s, calls[k])
      invariant k <= |calls| && forall i :: 0 <= i < k ==> !Accepted(s, calls[i])
    {
      k := k + 1;
    }
  }

  lemma OneSettlement(s: Store, c: Call)
    requires Fresh(s) && Accepted(s, c) && |c.outcomes| >= |s.order.items|
    ensures var end := SettleBatch(s, c).0;
            && |end.order.items| == |s.order.items| && end.order.total == s.order.total == SumPrices(end.order.items)
            && OwnLicencesOnly(end)
            && (end.order.status == SETTLED
                <==> forall i :: 0 <= i < |end.order.items| ==> Licensed(end, end.order.items[i].id))
  {
    hide Fresh, LinksUpTo, LicencesUpTo, Licensed, OutcomeSuccesses, OutcomeFailures, SettleItems;
    var n := |s.order.items|;
    SettleItemsDoes(s, n, c, WalletOf(c));
    ListsFollowOutcomes(s, n, c, WalletOf(c));
    FailuresCount(s.order.items, c.outcomes, n);
    var end := SettleBatch(s, c).0;
    assert LinksUpTo(s, end.order.items, n, c) && LicencesUpTo(s, end.licences, n, c, WalletOf(c));
    assert end.order.status == SETTLED <==> forall i :: 0 <= i < n ==> c.outcomes[i].Granted?;
    assert end.order.total == s.order.total;
    hide SettleBatch;
    assert end.order.tx == Some(c.tx) by { OneCall(s, c); }
    FinalLicences(s, end, c);
    FinalPrices(s, end, c);
  }

  lemma FinalPrices(s: Store, end: Store, c: Call)
    requires Fresh(s) && LinksUpTo(s, end.order.items, |s.order.items|, c)
    ensures |end.order.items| == |s.order.items| && SumPrices(end.order.items) == s.order.total
  {
    SumPricesSame(s.order.items, end.order.items);
  }

  lemma FinalLicences(s: Store, end: Store, c: Call)
    requires Fresh(s) && c.sender.Some? && LinksUpTo(s, end.order.items, |s.order.items|, c)
    requires LicencesUpTo(s, end.licences, |s.order.items|, c, WalletOf(c))
    ensures forall k, i :: k in end.licences && 0 <= i < |end.order.items| && k.item == end.order.items[i].id ==>
                             && k.tx == c.tx
                             && end.licences[k].price == end.order.items[i].price
                             && end.licences[k].asset == end.order.items[i].asset
    ensures forall i :: 0 <= i < |end.order.items| ==> (Licensed(end, end.order.items[i].id) <==> c.outcomes[i].Granted?)
  {
    forall k, i | k in end.licences && 0 <= i < |end.order.items| && k.item == end.order.items[i].id
      ensures k == Key(c.tx, s.order.items[i].id) && c.outcomes[i].Granted?
    {
      OnlyItsOwnKey(s, end.licences, c, WalletOf(c), k, i);
    }
    hide Fresh;
    forall i | 0 <= i < |end.order.items| && c.outcomes[i].Granted?
      ensures Licensed(end, end.order.items[i].id)
    {
      assert Key(c.tx, s.order.items[i].id) in end.licences;
    }
  }

  lemma OnlyItsOwnKey(s: Store, licences: map<Key, Licence>, c: Call, wallet: Wallet, k: Key, i: nat)
    requires Fresh(s) && LicencesUpTo(s, licences, |s.order.items|, c, wallet)
    requires k in licences && i < |s.order.items| && k.item == s.order.items[i].id
    ensures k == Key(c.tx, s.order.items[i].id) && c.outcomes[i].Granted?
  {
    assert k !in s.licences;
    var j :| 0 <= j < |s.order.items| && c.outcomes[j].Granted? && k == Key(c.tx, s.order.items[j].id);
    assert s.order.items[j].id == s.order.items[i].id;
  }

  lemma {:induction false} SumPricesSame(a: seq<Item>, b: seq<Item>)
    requires |a| == |b| && forall i :: 0 <= i < |a| ==> a[i].price == b[i].price
    ensures SumPrices(a) == SumPrices(b)
  {
    if a != [] {
      SumPricesSame(a[..|a| - 1], b[..|b| - 1]);
    }
  }

  lemma {:induction false} FailuresCount(items: seq<Item>, outcomes: seq<Outcome>, n: nat)
    requires n <= |items| && n <= |outcomes|
    ensures OutcomeFailures(items, outcomes, n) == [] <==> forall i :: 0 <= i < n ==> outcomes[i].Granted?
  {
    if n > 0 {
      FailuresCount(items, outcomes, n - 1);
    }
  }

  // ---------- A lost link ----------

  const ONE_ITEM := Store(Order(QUOTED, None, 5, [Item("item", "asset", 5, None)]), map[])
  const UNLINKED := Call("tx", Some("payer"), "", [Granted("token", false)])

  /** An order of one item whose licence is granted but not linked: the first answer hands out the
      licence, the replay reports the item as failed. */
  lemma LostLinkChangesTheAnswer()
    ensures var (after, reply) := SettleBatch(ONE_ITEM, UNLINKED);
            && reply == Done(SETTLED, [Success("item", "token")], [])
            && SettleBatch(after, UNLINKED) == (after, Done(SETTLED, [], ["item"]))
  {
    var p := SettleItems(ONE_ITEM, 1, "tx", "payer", UNLINKED.outcomes);
    assert SettleItems(ONE_ITEM, 0, "tx", "payer", UNLINKED.outcomes) == Progress(ONE_ITEM, [], []);
    assert p == Progress(Store(ONE_ITEM.order, map[Key("tx", "item") := Licence("asset", "payer", 5, "token")]),
                         [Success("item", "token")], []);
    var after := SettleBatch(ONE_ITEM, UNLINKED).0;
    var items := [Item("item", "asset", 5, None)];
    assert after.order == Order(SETTLED, Some("tx"), 5, items);
    assert RebuiltSuccesses(after, 0) == [] && RebuiltFailures(items, 0) == [];
    assert RebuiltSuccesses(after, 1) == [];
    assert RebuiltFailures(items, 1) == ["item"];
    assert Rebuild(after) == Done(SETTLED, [], ["item"]);
  }

  // ---------- Several orders ----------

  type OrderId = string
  type Ledger = map<string, Transaction>

  /** An order with the wallet it is paid to: that of its first item's creator. */
  datatype Booked = Booked(order: Order, payTo: Wallet)

  datatype Books = Books(orders: map<OrderId, Booked>, licences: map<Key, Licence>)

  /** A settle call for one of the orders; what happens to an item is given by its id. */
  datatype OrderCall = OrderCall(id: OrderId, tx: string, wallet: Wallet, outcomes: ItemId -> Outcome)

  /** What the chain says about a payment of the order's total to its payee; a total of nothing is never
      looked up. */
  function PaymentCheck(b: Booked, ledger: Ledger, mint: Mint, tx: string): Option<Wallet>
  {
    if tx != "" && b.order.total > 0 && tx in ledger
    then VerifyUsdcPayment(ledger[tx], b.payTo, b.order.total, mint, None)
    else None
  }

  function CallFor(b: Booked, ledger: Ledger, mint: Mint, c: OrderCall): (call: Call)
    ensures |call.outcomes| == |b.order.items|
  {
    var items := b.order.items;
    Call(c.tx, PaymentCheck(b, ledger, mint, c.tx), c.wallet,
         seq(|items|, i requires 0 <= i < |items| => c.outcomes(items[i].id)))
  }

  function SettleOrder(b: Books, ledger: Ledger, mint: Mint, c: OrderCall): Books
  {
    if c.id !in b.orders then b
    else
      var booked := b.orders[c.id];
      var after := SettleBatch(Store(booked.order, b.licences), CallFor(booked, ledger, mint, c)).0;
      Books(b.orders[c.id := Booked(after.order, booked.payTo)], after.licences)
  }

  function RunOrders(b: Books, ledger: Ledger, mint: Mint, calls: seq<OrderCall>): Books
    decreases |calls|
  {
    if calls == [] then b
    else SettleOrder(RunOrders(b, ledger, mint, calls[..|calls| - 1]), ledger, mint, calls[|calls| - 1])
  }

  ghost predicate DecidedBy(b: Books, id: OrderId, tx: string)
  {
    id in b.orders && b.orders[id].order.status != QUOTED && b.orders[id].order.tx == Some(tx)
  }

  ghost predicate PayableBy(b: Books, ledger: Ledger, mint: Mint, id: OrderId, tx: string)
  {
    && id in b.orders && b.orders[id].order.status == QUOTED && b.orders[id].order.items != []
    && PaymentCheck(b.orders[id], ledger, mint, tx).Some?
  }

  ghost predicate Claims(b: Books, ledger: Ledger, mint: Mint, id: OrderId, tx: string)
  {
    DecidedBy(b, id, tx) || PayableBy(b, ledger, mint, id, tx)
  }

  ghost predicate DecidesAtMostOne(b: Books, tx: string)
  {
    forall i, j :: DecidedBy(b, i, tx) && DecidedBy(b, j, tx) ==> i == j
  }

  /** What a call does to its order. */
  lemma CallDecides(b: Books, ledger: Ledger, mint: Mint, c: OrderCall)
    requires c.id in b.orders
    ensures var after := SettleOrder(b, ledger, mint, c);
            && c.id in after.orders
            && (PayableBy(b, ledger, mint, c.id, c.tx) ==> DecidedBy(after, c.id, c.tx))
            && (!PayableBy(b, ledger, mint, c.id, c.tx) ==> after == b)
            && forall id :: id != c.id ==>
                 (id in after.orders <==> id in b.orders) && (id in b.orders ==> after.orders[id] == b.orders[id])
  {
    var booked := b.orders[c.id];
    OneCall(Store(booked.order, b.licences), CallFor(booked, ledger, mint, c));
    hide SettleBatch, PaymentCheck;
    if !PayableBy(b, ledger, mint, c.id, c.tx) {
      assert b.orders[c.id := booked] == b.orders;
    }
  }

  lemma {:induction false} ClaimsAreNotAdded(b: Books, ledger: Ledger, mint: Mint, calls: seq<OrderCall>, id: OrderId,
                                             tx: string)
    requires Claims(RunOrders(b, ledger, mint, calls), ledger, mint, id, tx)
    ensures Claims(b, ledger, mint, id, tx)
    decreases |calls|
  {
    hide PaymentCheck, SettleOrder;
    if calls != [] {
      var front, c := calls[..|calls| - 1], calls[|calls| - 1];
      var mid := RunOrders(b, ledger, mint, front);
      if c.id in mid.orders {
        CallDecides(mid, ledger, mint, c);
      } else {
        UnknownOrder(mid, ledger, mint, c);
      }
      ClaimsAreNotAdded(b, ledger, mint, front, id, tx);
    }
  }

  lemma UnknownOrder(b: Books, ledger: Ledger, mint: Mint, c: OrderCall)
    requires c.id !in b.orders
    ensures SettleOrder(b, ledger, mint, c) == b
  {
  }

  lemma BothAreDecided(b: Books, ledger: Ledger, mint: Mint, i: OrderId, j: OrderId, tx: string)
    returns (calls: seq<OrderCall>)
    requires i != j && Claims(b, ledger, mint, i, tx) && Claims(b, ledger, mint, j, tx)
    ensures var end := RunOrders(b, ledger, mint, calls); DecidedBy(end, i, tx) && DecidedBy(end, j, tx)
  {
    var first := OrderCall(i, tx, "", _ => GrantRaises);
    var second := OrderCall(j, tx, "", _ => GrantRaises);
    calls := [first, second];
    assert calls[..1] == [first] && calls[..1][..0] == [];
    hide PaymentCheck, SettleOrder;
    CallDecides(b, ledger, mint, first);
    CallDecides(SettleOrder(b, ledger, mint, first), ledger, mint, second);
    assert RunOrders(b, ledger, mint, calls[..1]) == SettleOrder(b, ledger, mint, first);
  }

  /** A payment decides no more than one of several orders - whatever calls are made - exactly when no
      two of them could be settled with it (or are already): its signature is not unique among orders,
      and the licence keys do not stop a second one. */
  lemma PaymentDecidesOneOrderExactlyWhen(b: Books, ledger: Ledger, mint: Mint, tx: string)
    ensures (forall calls: seq<OrderCall> :: DecidesAtMostOne(RunOrders(b, ledger, mint, calls), tx))
            <==> forall i, j :: Claims(b, ledger, mint, i, tx) && Claims(b, ledger, mint, j, tx) ==> i == j
  {
    hide RunOrders, PayableBy;
    if i, j :| Claims(b, ledger, mint, i, tx) && Claims(b, ledger, mint, j, tx) && i != j {
      var calls := BothAreDecided(b, ledger, mint, i, j, tx);
      assert !DecidesAtMostOne(RunOrders(b, ledger, mint, calls), tx);
    } else {
      forall calls: seq<OrderCall>
        ensures DecidesAtMostOne(RunOrders(b, ledger, mint, calls), tx)
      {
        var end := RunOrders(b, ledger, mint, calls);
        forall i, j | DecidedBy(end, i, tx) && DecidedBy(end, j, tx)
          ensures i == j
        {
          ClaimsAreNotAdded(b, ledger, mint, calls, i, tx);
          ClaimsAreNotAdded(b, ledger, mint, calls, j, tx);
        }
      }
    }
  }

  /** The transaction pays the order in full: it did not fail, and the payee's balance changed by exactly the
      total or an instruction transfers exactly the total to it. */
  ghost predicate PaidInFull(b: Booked, ledger: Ledger, mint: Mint, tx: string)
  {
    && tx != "" && tx in ledger && b.payTo != "" && mint != "" && b.order.total > 0
    && !ledger[tx].failed
    && (|| Delta(ledger[tx], mint, b.payTo) == b.order.total
        || exists k :: 0 <= k < |ledger[tx].instructions|
                       && TransfersTo(ledger[tx].instructions[k], b.payTo, b.order.total, mint))
  }

  lemma CheckPassesExactlyWhenPaidInFull(b: Booked, ledger: Ledger, mint: Mint, tx: string)
    ensures PaymentCheck(b, ledger, mint, tx).Some? <==> PaidInFull(b, ledger, mint, tx)
  {
    hide VerifyUsdcPayment, Delta;
    if tx in ledger {
      PaymentIsRecognisedExactlyWhen(ledger[tx], b.payTo, b.order.total, mint, None, "");
    }
    hide Pays;
  }

  lemma {:induction false} DecidedOrdersHaveASignature(b: Books, ledger: Ledger, mint: Mint, calls: seq<OrderCall>, id: OrderId)
    requires id in b.orders && b.orders[id].order.status == QUOTED
    ensures var end := RunOrders(b, ledger, mint, calls);
            id in end.orders && (end.orders[id].order.status != QUOTED ==> end.orders[id].order.tx.Some?)
    decreases |calls|
  {
    hide SettleOrder, PayableBy;
    if calls != [] {
      var front, c := calls[..|calls| - 1], calls[|calls| - 1];
      DecidedOrdersHaveASignature(b, ledger, mint, front, id);
      var mid := RunOrders(b, ledger, mint, front);
      if c.id in mid.orders {
        CallDecides(mid, ledger, mint, c);
      } else {
        UnknownOrder(mid, ledger, mint, c);
      }
    }
  }

  /** Over any calls for several orders: an order is decided only by a payment of exactly its total to its
      payee. */
  lemma OrdersAreDecidedByFullPayments(b: Books, ledger: Ledger, mint: Mint, calls: seq<OrderCall>, id: OrderId)
    requires id in b.orders && b.orders[id].order.status == QUOTED
    ensures var end := RunOrders(b, ledger, mint, calls);
            && id in end.orders
            && (end.orders[id].order.status != QUOTED ==>
                  && end.orders[id].order.tx.Some?
                  && PaidInFull(b.orders[id], ledger, mint, end.orders[id].order.tx.value))
  {
    DecidedOrdersHaveASignature(b, ledger, mint, calls, id);
    var end := RunOrders(b, ledger, mint, calls);
    hide RunOrders, PaidInFull;
    if end.orders[id].order.status != QUOTED {
      var tx := end.orders[id].order.tx.value;
      ClaimsAreNotAdded(b, ledger, mint, calls, id, tx);
      CheckPassesExactlyWhenPaidInFull(b.orders[id], ledger, mint, tx);
    }
    hide PaymentCheck;
  }

  /** A helper: two open orders with the same payee and total can always be settled with the same
      payment, or neither can. */
  lemma EqualOrdersShareTheirPayments(b: Books, ledger: Ledger, mint: Mint, i: OrderId, j: OrderId, tx: string)
    requires i in b.orders && j in b.orders && b.orders[i].payTo == b.orders[j].payTo
    requires b.orders[i].order.total == b.orders[j].order.total
    requires b.orders[i].order.status == b.orders[j].order.status == QUOTED
    requires b.orders[i].order.items != [] && b.orders[j].order.items != []
    ensures PayableBy(b, ledger, mint, i, tx) <==> PayableBy(b, ledger, mint, j, tx)
  {
  }
}
