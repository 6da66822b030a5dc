/** The paper-trading exchange: what a market order is filled with. */
module MockExchange {
  import opened Arithmetic
  import opened Ledger
  import opened LedgerLaws

  datatype OrderType = Market | Limit | UnknownType
  datatype OrderStatus = Pending | Open | Filled | Cancelled
  datatype Request = Request(symbol: string, side: OrderSide, orderType: OrderType, quantity: real, price: real)
  datatype Params = Params(baseSlippage: real, marketImpact: real, maxSlippage: real)

  const MAX_FILLS := 5
  const DEFAULT_MID := 50000.0
  const DEFAULT_PARAMS := Params(0.0005, 0.0001, 0.003)

  function Mid(prices: map<string, real>, symbol: string): real {
    if symbol in prices then prices[symbol] else DEFAULT_MID
  }

  predicate ValidRequest(req: Request) {
    && req.symbol != ""
    && req.side != UnknownSide
    && req.orderType != UnknownType
    && req.quantity > 0.0
    && (req.orderType == Limit ==> req.price > 0.0)
  }

  function Slippage(m: Params, quantity: real, price: real): real {
    var total := m.baseSlippage + m.marketImpact * (quantity * price / 1000000.0);
    if total > m.maxSlippage then m.maxSlippage else total
  }

  // What the order pays or gets before the variation between its fills.
  function BasePrice(m: Params, side: OrderSide, quantity: real, mid: real): real {
    if side == Buy then mid * (1.0 + Slippage(m, quantity, mid)) else mid * (1.0 - Slippage(m, quantity, mid))
  }

  function Portion(count: nat): real {
    0.2 + 0.2 * (count as real) / (MAX_FILLS as real)
  }

  // How much of what remains the fill number `count` takes.
  function NextQuantity(remaining: real, count: nat): real {
    if count < MAX_FILLS - 1 && remaining * Portion(count) >= 0.01 then remaining * Portion(count) else remaining
  }

  function Variation(count: nat): real {
    0.0001 * (count as real)
  }

  function VariedPrice(side: OrderSide, base: real, count: nat): real {
    if side == Buy then base * (1.0 + Variation(count)) else base * (1.0 - Variation(count))
  }

  // Nanoseconds between fill number `count - 1` and the next.
  function Delay(count: nat): int {
    1000 * (100 + count * 50)
  }

  // What remains of an order before fill number `k`.
  function Remaining(quantity: real, k: nat): real {
    if k == 0 then quantity else Remaining(quantity, k - 1) - NextQuantity(Remaining(quantity, k - 1), k - 1)
  }

  // The time of fill number `k`.
  function Clock(start: int, k: nat): int {
    if k == 0 then start else Clock(start, k - 1) + Delay(k)
  }

  function FillNumber(side: OrderSide, quantity: real, base: real, start: int, k: nat): Fill {
    Fill(VariedPrice(side, base, k), NextQuantity(Remaining(quantity, k), k), Clock(start, k))
  }

  function FirstFills(side: OrderSide, quantity: real, base: real, start: int, k: nat): seq<Fill> {
    if k == 0 then []
    else FirstFills(side, quantity, base, start, k - 1) + [FillNumber(side, quantity, base, start, k - 1)]
  }

  // How many fills there are, `k` of which have been made.
  function NumberOfFills(quantity: real, k: nat): nat
    decreases MAX_FILLS - k, quantity
  {
    if Remaining(quantity, k) <= 0.0 || k >= MAX_FILLS then k else NumberOfFills(quantity, k + 1)
  }

  function SimulatedFills(side: OrderSide, quantity: real, base: real, start: int): seq<Fill> {
    if quantity < 1.0 then [Fill(base, quantity, start)]
    else FirstFills(side, quantity, base, start, NumberOfFills(quantity, 0))
  }

  function MarketFills(m: Params, side: OrderSide, quantity: real, mid: real, start: int): seq<Fill> {
    SimulatedFills(side, quantity, BasePrice(m, side, quantity, mid), start)
  }

  // ----- the fills of an order make up the order -----

  predicate Increasing(fills: seq<Fill>) {
    forall i, j :: 0 <= i < j < |fills| ==> fills[i].timestamp < fills[j].timestamp
  }

  lemma {:induction false} ClockIncreases(start: int, i: nat, j: nat)
    requires i < j
    ensures Clock(start, i) < Clock(start, j)
  {
    if i < j - 1 {
      ClockIncreases(start, i, j - 1);
    }
  }

  lemma NextQuantityInRange(remaining: real, count: nat)
    requires remaining > 0.0 && count < MAX_FILLS
    ensures 0.0 < NextQuantity(remaining, count) <= remaining
    ensures count == MAX_FILLS - 1 ==> NextQuantity(remaining, count) == remaining
    ensures remaining >= 0.05 && count < MAX_FILLS - 1 ==>
      NextQuantity(remaining, count) < remaining && remaining - NextQuantity(remaining, count) >= 0.6 * remaining
  {
    assert 0.2 <= Portion(count) <= 0.4;
    assert 0.2 * remaining <= remaining * Portion(count) <= 0.4 * remaining;
  }

  // At least this much of an order of quantity 1 or more is left for fill number `k`.
  function Left(k: nat): real {
    if k == 0 then 1.0 else 0.6 * Left(k - 1)
  }

  lemma {:induction false} EnoughRemains(quantity: real, k: nat)
    requires quantity >= 1.0 && k < MAX_FILLS
    ensures Remaining(quantity, k) >= Left(k) >= 0.05
  {
    assert Left(0) == 1.0 && Left(1) == 0.6 && Left(2) == 0.36 && Left(3) == 0.216 && Left(4) == 0.1296;
    if k > 0 {
      EnoughRemains(quantity, k - 1);
      NextQuantityInRange(Remaining(quantity, k - 1), k - 1);
    }
  }

  lemma {:induction false} ExactlyFiveFills(quantity: real, k: nat)
    requires quantity >= 1.0 && k <= MAX_FILLS
    ensures NumberOfFills(quantity, k) == MAX_FILLS
    decreases MAX_FILLS - k
  {
    if k < MAX_FILLS {
      EnoughRemains(quantity, k);
      ExactlyFiveFills(quantity, k + 1);
    }
  }

  lemma NothingRemains(quantity: real)
    requires quantity >= 1.0
    ensures Remaining(quantity, MAX_FILLS) == 0.0
  {
    EnoughRemains(quantity, MAX_FILLS - 1);
    NextQuantityInRange(Remaining(quantity, MAX_FILLS - 1), MAX_FILLS - 1);
  }

  lemma {:induction false} FirstFillsAre(side: OrderSide, quantity: real, base: real, start: int, k: nat)
    ensures var fills := FirstFills(side, quantity, base, start, k);
      |fills| == k && forall i :: 0 <= i < k ==> fills[i] == FillNumber(side, quantity, base, start, i)
  {
    if k > 0 {
      FirstFillsAre(side, quantity, base, start, k - 1);
    }
  }

  lemma {:induction false} FirstFillsTotal(side: OrderSide, quantity: real, base: real, start: int, k: nat)
    ensures TotalQty(FirstFills(side, quantity, base, start, k)) == quantity - Remaining(quantity, k)
  {
    if k > 0 {
      FirstFillsTotal(side, quantity, base, start, k - 1);
      TotalQtyAppend(FirstFills(side, quantity, base, start, k - 1), FillNumber(side, quantity, base, start, k - 1));
    }
  }

  lemma TotalQtyAppend(fills: seq<Fill>, f: Fill)
    ensures TotalQty(fills + [f]) == TotalQty(fills) + f.quantity
  {
    assert (fills + [f])[..|fills|] == fills;
  }

  // Whatever its quantity, an order is filled completely by positive fills at increasing
  // times: by one fill below a quantity of 1, by exactly five otherwise.
  lemma PartialFillsConserve(side: OrderSide, quantity: real, base: real, start: int)
    requires quantity > 0.0
    ensures var fills := SimulatedFills(side, quantity, base, start);
      && ValidFills(fills) && TotalQty(fills) == quantity
      && |fills| == (if quantity < 1.0 then 1 else MAX_FILLS)
      && Increasing(fills)
  {
    if quantity < 1.0 {
      assert [Fill(base, quantity, start)][..0] == [];
    } else {
      ExactlyFiveFills(quantity, 0);
      NothingRemains(quantity);
      FirstFillsAre(side, quantity, base, start, MAX_FILLS);
      FirstFillsTotal(side, quantity, base, start, MAX_FILLS);
      forall i | 0 <= i < MAX_FILLS
        ensures NextQuantity(Remaining(quantity, i), i) > 0.0
      {
        EnoughRemains(quantity, i);
        NextQuantityInRange(Remaining(quantity, i), i);
      }
      forall i, j | 0 <= i < j < MAX_FILLS
        ensures Clock(start, i) < Clock(start, j)
      {
        ClockIncreases(start, i, j);
      }
    }
  }

  lemma FillPrices(side: OrderSide, quantity: real, base: real, start: int)
    requires quantity > 0.0
    ensures var fills := SimulatedFills(side, quantity, base, start);
      forall i :: 0 <= i < |fills| ==> i < MAX_FILLS && fills[i].price == VariedPrice(side, base, i)
  {
    if quantity >= 1.0 {
      ExactlyFiveFills(quantity, 0);
      FirstFillsAre(side, quantity, base, start, MAX_FILLS);
    }
  }

  lemma VariedPriceAdverse(side: OrderSide, base: real, count: nat)
    requires base >= 0.0 && count < MAX_FILLS
    ensures if side == Buy then base <= VariedPrice(side, base, count) <= base * 1.0004
      else base * 0.9996 <= VariedPrice(side, base, count) <= base
  {
    if count == 0 {
    } else if count == 1 {
    } else if count == 2 {
    } else if count == 3 {
    } else {
      assert count == 4;
    }
  }

  // The average price is off the base price by at most 0.04%, and against the trader.
  lemma AveragePriceAdverse(side: OrderSide, quantity: real, base: real, start: int)
    requires quantity > 0.0 && base >= 0.0
    ensures var fills := SimulatedFills(side, quantity, base, start);
      TotalQty(fills) == quantity
      && if side == Buy then base <= TotalValue(fills) / quantity <= base * 1.0004
         else base * 0.9996 <= TotalValue(fills) / quantity <= base
  {
    var fills := SimulatedFills(side, quantity, base, start);
    PartialFillsConserve(side, quantity, base, start);
    FillPrices(side, quantity, base, start);
    forall i | 0 <= i < |fills|
      ensures if side == Buy then base <= fills[i].price <= base * 1.0004 else base * 0.9996 <= fills[i].price <= base
    {
      VariedPriceAdverse(side, base, i);
    }
    if side == Buy {
      AverageBetween(fills, base, base * 1.0004);
    } else {
      AverageBetween(fills, base * 0.9996, base);
    }
  }

  lemma AverageBetween(fills: seq<Fill>, lo: real, hi: real)
    requires ValidFills(fills) && forall i :: 0 <= i < |fills| ==> lo <= fills[i].price <= hi
    ensures TotalQty(fills) > 0.0 && lo <= TotalValue(fills) / TotalQty(fills) <= hi
  {
    TotalQtyPositive(fills);
    ValueWithin(fills, lo, hi);
    QuotientWithin(TotalValue(fills), TotalQty(fills), lo, hi);
  }
}
