/** Pricing a batch: reading the model's quotes, enforcing the floors, adding up the order. */
module BatchQuote {
  import opened Options
  import opened Money

  /** One entry of the model's answer; a price that is not a number is None. */
  datatype RawQuote = NotAnObject | Quote(id: string, price: Option<real>)

  /** A requested item with its creator's minimum, already rounded to USDC precision. */
  datatype Item = Item(id: string, minPrice: real)

  function NormalizeItem(id: string, minPrice: Option<real>): Item
  {
    Item(id, if minPrice.Some? then QuantizeUsdc(minPrice.value) else 0.0)
  }

  // ---------- Reading the quotes ----------

  /** The quotes by id; None if an entry is no object or repeats an id. */
  function CollectQuotes(raw: seq<RawQuote>): Option<map<string, Option<real>>>
  {
    if raw == [] then Some(map[])
    else
      var n := |raw| - 1;
      var before := CollectQuotes(raw[..n]);
      if before.None? || raw[n].NotAnObject? || raw[n].id in before.value then None
      else Some(before.value[raw[n].id := raw[n].price])
  }

  function CoerceUnitPrice(price: Option<real>, minPrice: real, floor: real): Option<real>
  {
    if price.None? || price.value < minPrice || price.value < floor then None else Some(QuantizeUsdc(price.value))
  }

  function ItemIds(items: seq<Item>): set<string>
  {
    set i | 0 <= i < |items| :: items[i].id
  }

  function PriceItems(items: seq<Item>, quotes: map<string, Option<real>>, floor: real): Option<seq<real>>
    requires forall i :: 0 <= i < |items| ==> items[i].id in quotes
  {
    if items == [] then Some([])
    else
      var n := |items| - 1;
      var before := PriceItems(items[..n], quotes, floor);
      var unit := CoerceUnitPrice(quotes[items[n].id], items[n].minPrice, floor);
      if before.None? || unit.None? then None else Some(before.value + [unit.value])
  }

  /** The unit prices in request order; None when the answer is refused as a whole. */
  function ParseBatchResponse(raw: seq<RawQuote>, items: seq<Item>, floor: real): Option<seq<real>>
  {
    var quotes := CollectQuotes(raw);
    if quotes.None? || quotes.value.Keys != ItemIds(items) then None
    else
      assert forall i :: 0 <= i < |items| ==> items[i].id in ItemIds(items);
      PriceItems(items, quotes.value, floor)
  }

  lemma {:induction false} CollectPrefixFails(raw: seq<RawQuote>, i: nat)
    requires i <= |raw| && CollectQuotes(raw[..i]).None?
    ensures CollectQuotes(raw).None?
    decreases |raw|
  {
    if i == |raw| {
      assert raw[..i] == raw;
    } else {
      assert raw[..|raw| - 1][..i] == raw[..i];
      CollectPrefixFails(raw[..|raw| - 1], i);
    }
  }

  lemma {:induction false} PricePrefixFails(items: seq<Item>, quotes: map<string, Option<real>>, floor: real, i: nat)
    requires forall j :: 0 <= j < |items| ==> items[j].id in quotes
    requires i <= |items| && PriceItems(items[..i], quotes, floor).None?
    ensures PriceItems(items, quotes, floor).None?
    decreases |items|
  {
    if i == |items| {
      assert items[..i] == items;
    } else {
      assert items[..|items| - 1][..i] == items[..i];
      PricePrefixFails(items[..|items| - 1], quotes, floor, i);
    }
  }

  method ParseBatch(raw: seq<RawQuote>, items: seq<Item>, floor: real) returns (prices: Option<seq<real>>)
    ensures prices == ParseBatchResponse(raw, items, floor)
  {
    var byId: map<string, Option<real>> := map[];
    for i := 0 to |raw|
      invariant CollectQuotes(raw[..i]) == Some(byId)
    {
      assert raw[..i + 1][..i] == raw[..i];
      if raw[i].NotAnObject? || raw[i].id in byId {
        CollectPrefixFails(raw, i + 1);
        return None;
      }
      byId := byId[raw[i].id := raw[i].price];
    }
    assert raw[..|raw|] == raw;
    if byId.Keys != ItemIds(items) {
      return None;
    }
    forall i | 0 <= i < |items|
      ensures items[i].id in byId
    {
      assert items[i].id in ItemIds(items);
    }
    var results := [];
    for i := 0 to |items|
      invariant PriceItems(items[..i], byId, floor) == Some(results)
    {
      assert items[..i + 1][..i] == items[..i];
      var unit := CoerceUnitPrice(byId[items[i].id], items[i].minPrice, floor);
      if unit.None? {
        PricePrefixFails(items, byId, floor, i + 1);
        return None;
      }
      results := results + [unit.value];
    }
    assert items[..|items|] == items;
    return Some(results);
  }

  // ---------- The order of the quotes does not matter ----------

  /** Readable without looking at positions: only objects, no two with one id. */
  ghost predicate Unambiguous(bag: multiset<RawQuote>)
  {
    && NotAnObject !in bag
    && (forall q :: q in bag ==> bag[q] == 1)
    && (forall q, r :: q in bag && r in bag && q.Quote? && r.Quote? && q.id == r.id ==> q == r)
  }

  ghost predicate NewId(bag: multiset<RawQuote>, last: RawQuote)
  {
    last.Quote? && forall q :: q in bag && q.Quote? ==> q.id != last.id
  }

  lemma UnambiguousPlusOne(before: multiset<RawQuote>, last: RawQuote)
    ensures Unambiguous(before + multiset{last}) <==> Unambiguous(before) && NewId(before, last)
  {
    var bag := before + multiset{last};
    assert last in bag;
    if Unambiguous(bag) {
      forall q | q in before
        ensures before[q] == 1 && q in bag && q != last
      {
        assert q in bag && bag[q] == 1;
      }
    }
    if Unambiguous(before) && NewId(before, last) {
      assert last !in before;
      forall q | q in bag
        ensures bag[q] == 1
      {
      }
    }
  }

  lemma {:induction false} CollectedIsTheBag(raw: seq<RawQuote>)
    ensures CollectQuotes(raw).Some? <==> Unambiguous(multiset(raw))
    ensures CollectQuotes(raw).Some? ==>
              forall id, p :: id in CollectQuotes(raw).value && CollectQuotes(raw).value[id] == p
                              <==> Quote(id, p) in multiset(raw)
  {
    if raw != [] {
      var n := |raw| - 1;
      var front, last := raw[..n], raw[n];
      CollectedIsTheBag(front);
      assert raw == front + [last];
      assert multiset(raw) == multiset(front) + multiset{last};
      UnambiguousPlusOne(multiset(front), last);
      hide Unambiguous;
      if CollectQuotes(front).Some? && last.Quote? {
        var before := CollectQuotes(front).value;
        if last.id in before {
          assert Quote(last.id, before[last.id]) in multiset(front);
        } else {
          forall q: RawQuote | q in multiset(front) && q.Quote?
            ensures q.id != last.id
          {
            assert Quote(q.id, q.price) in multiset(front);
          }
        }
      }
    }
  }

  /** Any reordering of the quotes is answered the same way: the same prices, or the same refusal. */
  lemma QuoteOrderIsIrrelevant(raw: seq<RawQuote>, shuffled: seq<RawQuote>, items: seq<Item>, floor: real)
    requires multiset(raw) == multiset(shuffled)
    ensures ParseBatchResponse(raw, items, floor) == ParseBatchResponse(shuffled, items, floor)
  {
    CollectedIsTheBag(raw);
    CollectedIsTheBag(shuffled);
    if CollectQuotes(raw).Some? {
      var a, b := CollectQuotes(raw).value, CollectQuotes(shuffled).value;
      forall id
        ensures id in a <==> id in b
        ensures id in a ==> a[id] == b[id]
      {
        if id in a { assert Quote(id, a[id]) in multiset(shuffled); }
        if id in b { assert Quote(id, b[id]) in multiset(raw); }
      }
      assert a == b;
    }
  }

  // ---------- Floors and totals ----------

  /** Every accepted unit price is a six-decimal amount at or above its creator's minimum and the
      rounded micro floor, and there is one per item. */
  lemma {:induction false} FloorsHoldAfterRounding(items: seq<Item>, quotes: map<string, Option<real>>, floor: real)
    requires forall i :: 0 <= i < |items| ==> items[i].id in quotes && IsSixDecimal(items[i].minPrice)
    requires PriceItems(items, quotes, floor).Some?
    ensures var prices := PriceItems(items, quotes, floor).value;
            && |prices| == |items|
            && forall i :: 0 <= i < |items| ==>
                 IsSixDecimal(prices[i]) && prices[i] >= items[i].minPrice && prices[i] >= QuantizeUsdc(floor)
  {
    if items != [] {
      var n := |items| - 1;
      FloorsHoldAfterRounding(items[..n], quotes, floor);
      var price := quotes[items[n].id].value;
      QuantizeMonotone(USDC, items[n].minPrice, price);
      QuantizeMonotone(USDC, floor, price);
      QuantizeUsdcIsNearest(items[n].minPrice);
      QuantizeUsdcIsNearest(price);
    }
  }

  function ToMinUnits(amount: real): int { HalfEven(MicroUsdc(amount)) }

  function FromMinUnits(units: int): real { QuantizeUsdc(units as real / 1000000.0) }

  function SumUnits(prices: seq<real>): int
  {
    if prices == [] then 0 else SumUnits(prices[..|prices| - 1]) + ToMinUnits(prices[|prices| - 1])
  }

  ghost function SumPrices(prices: seq<real>): real
  {
    if prices == [] then 0.0 else SumPrices(prices[..|prices| - 1]) + prices[|prices| - 1]
  }

  /** The order total, as stored. */
  function OrderTotal(prices: seq<real>): real { FromMinUnits(SumUnits(prices)) }

  lemma {:induction false} UnitsAreExact(prices: seq<real>)
    requires forall i :: 0 <= i < |prices| ==> IsSixDecimal(prices[i])
    ensures SumUnits(prices) as real == MicroUsdc(SumPrices(prices))
  {
    if prices != [] {
      var last := prices[|prices| - 1];
      UnitsAreExact(prices[..|prices| - 1]);
      RoundingsFixIntegers(MicroUsdc(last).Floor);
    }
  }

  /** Minimums as the service normalises them are six-decimal amounts. */
  lemma NormalizedMinimumsAreSixDecimal(id: string, minPrice: Option<real>)
    ensures IsSixDecimal(NormalizeItem(id, minPrice).minPrice)
  {
    if minPrice.Some? {
      QuantizeUsdcIsNearest(minPrice.value);
    }
  }

  /** A requested asset, with its creator's minimum as configured. */
  datatype Requested = Requested(id: string, minPrice: Option<real>)

  function NormalizeItems(requested: seq<Requested>): seq<Item>
  {
    seq(|requested|, i requires 0 <= i < |requested| => NormalizeItem(requested[i].id, requested[i].minPrice))
  }

  /** The least price an asset may be quoted at: its creator's minimum as rounded, or none. */
  function Least(r: Requested): real { if r.minPrice.Some? then QuantizeUsdc(r.minPrice.value) else 0.0 }

  lemma {:induction false} ItemsArePricedAsQuoted(items: seq<Item>, quotes: map<string, Option<real>>, floor: real)
    requires forall i :: 0 <= i < |items| ==> items[i].id in quotes
    ensures PriceItems(items, quotes, floor).Some?
            <==> forall i :: 0 <= i < |items| ==>
                   var quoted := quotes[items[i].id];
                   quoted.Some? && quoted.value >= items[i].minPrice && quoted.value >= floor
    ensures PriceItems(items, quotes, floor).Some? ==>
              && |PriceItems(items, quotes, floor).value| == |items|
              && forall i :: 0 <= i < |items| ==>
                   quotes[items[i].id].Some?
                   && PriceItems(items, quotes, floor).value[i] == QuantizeUsdc(quotes[items[i].id].value)
  {
    hide QuantizeUsdc;
    if items != [] {
      ItemsArePricedAsQuoted(items[..|items| - 1], quotes, floor);
    }
  }

  ghost predicate IsQuoted(bag: multiset<RawQuote>, id: string) { exists p :: Quote(id, p) in bag }

  ghost predicate IsRequested(requested: seq<Requested>, id: string)
  {
    exists i :: 0 <= i < |requested| && requested[i].id == id
  }

  /** The ids quoted are the ids requested. */
  ghost predicate SameIds(bag: multiset<RawQuote>, requested: seq<Requested>)
  {
    forall id :: IsQuoted(bag, id) <==> IsRequested(requested, id)
  }

  /** The asset has a quote that is a number and not below its minimum or the floor. */
  ghost predicate WellQuoted(bag: multiset<RawQuote>, r: Requested, floor: real)
  {
    exists p: real :: Quote(r.id, Some(p)) in bag && p >= Least(r) && p >= floor
  }

  /** Exactly which answers of the model are accepted: those whose entries are all objects with distinct
      ids, the requested ones, each quoting a number not below its asset's rounded minimum or the floor.
      And every price is the quoted one, rounded. */
  lemma AnswerIsAcceptedExactlyWhen(raw: seq<RawQuote>, requested: seq<Requested>, floor: real)
    ensures var answer, bag := ParseBatchResponse(raw, NormalizeItems(requested), floor), multiset(raw);
            && (answer.Some? <==>
                && Unambiguous(bag) && SameIds(bag, requested)
                && forall i :: 0 <= i < |requested| ==> WellQuoted(bag, requested[i], floor))
            && (answer.Some? ==>
                  && |answer.value| == |requested|
                  && forall i, p :: 0 <= i < |requested| && Quote(requested[i].id, Some(p)) in bag ==>
                                      answer.value[i] == QuantizeUsdc(p))
  {
    var items, bag := NormalizeItems(requested), multiset(raw);
    hide QuantizeUsdc, CollectQuotes, PriceItems, Unambiguous, WellQuoted, SameIds;
    CollectedIsTheBag(raw);
    if Unambiguous(bag) {
      var quotes := CollectQuotes(raw).value;
      SameIdsAreKeys(bag, quotes, requested);
      if quotes.Keys == ItemIds(items) {
        PricedAsQuoted(bag, quotes, requested, floor);
      }
    }
  }

  lemma PricedAsQuoted(bag: multiset<RawQuote>, quotes: map<string, Option<real>>, requested: seq<Requested>, floor: real)
    requires forall id, p :: id in quotes && quotes[id] == p <==> Quote(id, p) in bag
    requires quotes.Keys == ItemIds(NormalizeItems(requested))
    ensures forall i :: 0 <= i < |requested| ==> NormalizeItems(requested)[i].id in quotes
    ensures var priced := PriceItems(NormalizeItems(requested), quotes, floor);
            && (priced.Some? <==> forall i :: 0 <= i < |requested| ==> WellQuoted(bag, requested[i], floor))
            && (priced.Some? ==>
                  && |priced.value| == |requested|
                  && forall i, p :: 0 <= i < |requested| && Quote(requested[i].id, Some(p)) in bag ==>
                                      priced.value[i] == QuantizeUsdc(p))
  {
    var items := NormalizeItems(requested);
    hide QuantizeUsdc;
    forall i | 0 <= i < |items|
      ensures items[i].id in quotes && items[i].id == requested[i].id && items[i].minPrice == Least(requested[i])
    {
      assert items[i].id in ItemIds(items);
    }
    ItemsArePricedAsQuoted(items, quotes, floor);
    hide Least, PriceItems, NormalizeItems;
    forall i | 0 <= i < |items|
      ensures WellQuoted(bag, requested[i], floor)
              <==> quotes[items[i].id].Some? && quotes[items[i].id].value >= items[i].minPrice
                   && quotes[items[i].id].value >= floor
    {
      assert Quote(items[i].id, quotes[items[i].id]) in bag;
    }
  }

  lemma SameIdsAreKeys(bag: multiset<RawQuote>, quotes: map<string, Option<real>>, requested: seq<Requested>)
    requires forall id, p :: id in quotes && quotes[id] == p <==> Quote(id, p) in bag
    ensures quotes.Keys == ItemIds(NormalizeItems(requested)) <==> SameIds(bag, requested)
  {
    var ids := ItemIds(NormalizeItems(requested));
    hide QuantizeUsdc;
    forall id
      ensures id in ids <==> IsRequested(requested, id)
      ensures id in quotes <==> IsQuoted(bag, id)
    {
      if i :| 0 <= i < |requested| && requested[i].id == id {
        assert NormalizeItems(requested)[i].id == id;
      }
      if id in quotes {
        assert Quote(id, quotes[id]) in bag;
      }
    }
    hide IsRequested, IsQuoted;
    if SameIds(bag, requested) {
      forall id
        ensures id in quotes.Keys <==> id in ids
      {
        assert IsQuoted(bag, id) <==> IsRequested(requested, id);
      }
    }
    if quotes.Keys == ids {
      forall id
        ensures IsQuoted(bag, id) <==> IsRequested(requested, id)
      {
        assert id in quotes.Keys <==> id in ids;
      }
    }
  }

  /** An accepted quote, for whatever minimums are configured: one price per requested asset, none below
      its creator's minimum as rounded or the rounded micro floor, and a stored total that is exactly
      their sum, with no rounding left in it. */
  lemma AcceptedQuoteAddsUp(raw: seq<RawQuote>, requested: seq<Requested>, floor: real)
    requires ParseBatchResponse(raw, NormalizeItems(requested), floor).Some?
    ensures var prices := ParseBatchResponse(raw, NormalizeItems(requested), floor).value;
            && |prices| == |requested|
            && OrderTotal(prices) == SumPrices(prices)
            && (forall i :: 0 <= i < |requested| ==>
                  && prices[i] >= QuantizeUsdc(floor)
                  && (requested[i].minPrice.Some? ==> prices[i] >= QuantizeUsdc(requested[i].minPrice.value)))
  {
    var items := NormalizeItems(requested);
    var prices := ParseBatchResponse(raw, items, floor).value;
    forall i | 0 <= i < |items|
      ensures items[i].id in ItemIds(items) && IsSixDecimal(items[i].minPrice)
    {
      NormalizedMinimumsAreSixDecimal(requested[i].id, requested[i].minPrice);
    }
    FloorsHoldAfterRounding(items, CollectQuotes(raw).value, floor);
    UnitsAreExact(prices);
    assert SumPrices(prices) == SumUnits(prices) as real / 1000000.0;
    assert MicroUsdc(SumPrices(prices)).Floor == SumUnits(prices);
    QuantizeUsdcIsNearest(SumPrices(prices));
    hide QuantizeUsdc, IsSixDecimal, MicroUsdc, ParseBatchResponse, PriceItems, CollectQuotes, OrderTotal, SumPrices;
  }
}
