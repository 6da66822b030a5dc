/** What a market order costs: its fills, their prices and what slippage adds, in figures. */
module OrderCosts {
  import opened Arithmetic
  import opened Ledger
  import opened LedgerLaws
  import opened MockExchange

  // ----- the fills -----

  // An order below 1 is filled at once at the base price.
  lemma SmallOrderFill(side: OrderSide, quantity: real, base: real, start: int)
    requires 0.0 < quantity < 1.0
    ensures SimulatedFills(side, quantity, base, start) == [Fill(base, quantity, start)]
  {}

  // How much is left before each fill of an order of 1 or more.
  lemma RemainingFractions(quantity: real)
    requires quantity >= 1.0
    ensures Remaining(quantity, 1) == 0.8 * quantity && Remaining(quantity, 2) == 0.608 * quantity
    ensures Remaining(quantity, 3) == 0.43776 * quantity && Remaining(quantity, 4) == 0.2976768 * quantity
  {
    assert Portion(0) == 0.2 && Portion(1) == 0.24 && Portion(2) == 0.28 && Portion(3) == 0.32;
    assert Remaining(quantity, 0) == quantity && NextQuantity(quantity, 0) == 0.2 * quantity;
    assert NextQuantity(0.8 * quantity, 1) == 0.192 * quantity;
    assert NextQuantity(0.608 * quantity, 2) == 0.17024 * quantity;
    assert NextQuantity(0.43776 * quantity, 3) == 0.1400832 * quantity;
  }

  // Fill number `k` takes these parts of the order, at these times after the start.
  lemma FillFractions(side: OrderSide, quantity: real, base: real, start: int)
    requires quantity >= 1.0
    ensures var fills := SimulatedFills(side, quantity, base, start);
      && |fills| == 5
      && fills[0].quantity == 0.2 * quantity && fills[0].timestamp == start
      && fills[1].quantity == 0.192 * quantity && fills[1].timestamp == start + 150_000
      && fills[2].quantity == 0.17024 * quantity && fills[2].timestamp == start + 350_000
      && fills[3].quantity == 0.1400832 * quantity && fills[3].timestamp == start + 600_000
      && fills[4].quantity == 0.2976768 * quantity && fills[4].timestamp == start + 900_000
  {
    ExactlyFiveFills(quantity, 0);
    FirstFillsAre(side, quantity, base, start, 5);
    RemainingFractions(quantity);
    assert Portion(0) == 0.2 && Portion(1) == 0.24 && Portion(2) == 0.28 && Portion(3) == 0.32;
    assert Remaining(quantity, 0) == quantity;
    assert Clock(start, 1) == start + 150_000 && Clock(start, 2) == start + 350_000;
    assert Clock(start, 3) == start + 600_000 && Clock(start, 4) == start + 900_000;
  }

  // Each is worse than the one before by a ten-thousandth of the base price, which the first pays.
  lemma FillPriceSteps(side: OrderSide, quantity: real, base: real, start: int)
    requires quantity > 0.0
    ensures var fills := SimulatedFills(side, quantity, base, start);
      && fills != [] && fills[0].price == base
      && forall k :: 0 < k < |fills| ==>
           fills[k].price == fills[k - 1].price + if side == Buy then 0.0001 * base else -0.0001 * base
  {
    PartialFillsConserve(side, quantity, base, start);
    FillPrices(side, quantity, base, start);
    assert VariedPrice(side, base, 0) == base;
    forall k | 0 < k < 5
      ensures VariedPrice(side, base, k) ==
        VariedPrice(side, base, k - 1) + if side == Buy then 0.0001 * base else -0.0001 * base
    {
      PriceStep(side, base, k);
    }
  }

  lemma PriceStep(side: OrderSide, base: real, k: nat)
    requires 0 < k < 5
    ensures VariedPrice(side, base, k) ==
      VariedPrice(side, base, k - 1) + if side == Buy then 0.0001 * base else -0.0001 * base
  {
    if k == 1 {
    } else if k == 2 {
    } else if k == 3 {
    } else {
      assert k == 4;
    }
  }

  // What the later fills add to the price, as a part of the base price.
  function Spread(quantity: real): real {
    if quantity < 1.0 then 0.0 else 0.00021434368
  }

  // What the order pays per unit, given its base price.
  function UnitPrice(side: OrderSide, quantity: real, base: real): real {
    Times(base, if side == Buy then 1.0 + Spread(quantity) else 1.0 - Spread(quantity))
  }

  // All fills together pay the base price, and the spread on top.
  lemma ValueOfFills(side: OrderSide, quantity: real, base: real, start: int)
    requires quantity > 0.0
    ensures TotalValue(SimulatedFills(side, quantity, base, start)) == Times(UnitPrice(side, quantity, base), quantity)
  {
    var fills := SimulatedFills(side, quantity, base, start);
    if quantity < 1.0 {
      SmallOrderFill(side, quantity, base, start);
      assert [Fill(base, quantity, start)][..0] == [];
    } else {
      var step := if side == Buy then 0.0001 * base else -0.0001 * base;
      FillFractions(side, quantity, base, start);
      FillPriceSteps(side, quantity, base, start);
      SteppedValue(fills, base, step, quantity);
      SpreadIsSteps(side, quantity, base, step);
    }
  }

  lemma SpreadIsSteps(side: OrderSide, quantity: real, base: real, step: real)
    requires quantity >= 1.0 && step == if side == Buy then 0.0001 * base else -0.0001 * base
    ensures Times(base, quantity) + 2.1434368 * Times(step, quantity) ==
      Times(UnitPrice(side, quantity, base), quantity)
  {}

  lemma SteppedValue(fills: seq<Fill>, base: real, step: real, quantity: real)
    requires |fills| == 5 && fills[0].price == base
    requires forall k :: 0 < k < 5 ==> fills[k].price == fills[k - 1].price + step
    requires fills[0].quantity == 0.2 * quantity && fills[1].quantity == 0.192 * quantity
    requires fills[2].quantity == 0.17024 * quantity && fills[3].quantity == 0.1400832 * quantity
    requires fills[4].quantity == 0.2976768 * quantity
    ensures TotalValue(fills) == Times(base, quantity) + 2.1434368 * Times(step, quantity)
  {
    FiveValues(fills);
    assert fills[1].price == base + step && fills[2].price == base + 2.0 * step;
    assert fills[3].price == base + 3.0 * step && fills[4].price == base + 4.0 * step;
    FiveProducts(base, step, quantity);
  }

  lemma FiveProducts(base: real, step: real, quantity: real)
    ensures base * (0.2 * quantity) + (base + step) * (0.192 * quantity) + (base + 2.0 * step) * (0.17024 * quantity)
      + (base + 3.0 * step) * (0.1400832 * quantity) + (base + 4.0 * step) * (0.2976768 * quantity)
      == Times(base, quantity) + 2.1434368 * Times(step, quantity)
  {}

  lemma FiveValues(fills: seq<Fill>)
    requires |fills| == 5
    ensures TotalValue(fills) == Value(fills[0]) + Value(fills[1]) + Value(fills[2]) + Value(fills[3]) + Value(fills[4])
  {
    assert fills[..4][..3] == fills[..3] && fills[..3][..2] == fills[..2] && fills[..2][..1] == fills[..1];
    assert fills[..1][..0] == [];
    assert TotalValue(fills[..1]) == Value(fills[0]);
    assert TotalValue(fills[..2]) == TotalValue(fills[..1]) + Value(fills[1]);
    assert TotalValue(fills[..3]) == TotalValue(fills[..2]) + Value(fills[2]);
    assert TotalValue(fills[..4]) == TotalValue(fills[..3]) + Value(fills[3]);
  }

  // ----- slippage -----

  // The slippage an order would have without the cap: the base, and the impact for every million
  // that it is worth at mid.
  function Uncapped(m: Params, quantity: real, mid: real): real {
    m.baseSlippage + m.marketImpact * (quantity * mid / 1000000.0)
  }

  // Where the cap does not bind, a small order pays that part of its worth at mid more than this,
  // or gets that much less; where the cap binds, the cap's part.
  lemma SmallOrderCost(m: Params, side: OrderSide, quantity: real, mid: real, start: int)
    requires 0.0 < quantity < 1.0
    ensures
      var value, worth := TotalValue(MarketFills(m, side, quantity, mid, start)), quantity * mid;
      var extra := if side == Buy then value - worth else worth - value;
      && (Uncapped(m, quantity, mid) <= m.maxSlippage ==> extra == Times(worth, Uncapped(m, quantity, mid)))
      && (Uncapped(m, quantity, mid) >= m.maxSlippage ==> extra == Times(worth, m.maxSlippage))
  {
    var base := BasePrice(m, side, quantity, mid);
    SmallOrderFill(side, quantity, base, start);
    assert [Fill(base, quantity, start)][..0] == [];
    var part := if Uncapped(m, quantity, mid) <= m.maxSlippage then Uncapped(m, quantity, mid) else m.maxSlippage;
    assert Slippage(m, quantity, mid) == part;
    PartOfWorth(mid, quantity, part);
  }

  lemma PartOfWorth(mid: real, quantity: real, part: real)
    ensures mid * (1.0 + part) * quantity == quantity * mid + Times(quantity * mid, part)
    ensures mid * (1.0 - part) * quantity == quantity * mid - Times(quantity * mid, part)
  {}

  // Without slippage a small order is filled at mid.
  lemma NoSlippageNoCost(m: Params, side: OrderSide, quantity: real, mid: real, start: int)
    requires m.baseSlippage == 0.0 && m.marketImpact == 0.0 && m.maxSlippage >= 0.0 && 0.0 < quantity < 1.0
    ensures MarketFills(m, side, quantity, mid, start) == [Fill(mid, quantity, start)]
  {
    assert Uncapped(m, quantity, mid) == 0.0;
    assert BasePrice(m, side, quantity, mid) == mid;
  }

  // However large it is, the first fill of an order is no further from mid than the cap allows.
  lemma FirstFillNearMid(m: Params, side: OrderSide, quantity: real, mid: real, start: int)
    requires m.baseSlippage >= 0.0 && m.marketImpact >= 0.0 && m.maxSlippage >= 0.0
    requires quantity > 0.0 && mid >= 0.0
    ensures
      var fills := MarketFills(m, side, quantity, mid, start);
      fills != [] && mid - Times(m.maxSlippage, mid) <= fills[0].price <= mid + Times(m.maxSlippage, mid)
  {
    FillPriceSteps(side, quantity, BasePrice(m, side, quantity, mid), start);
    SlippageInRange(m, quantity, mid);
    TimesMonotone(Slippage(m, quantity, mid), m.maxSlippage, mid);
    TimesMonotone(0.0, Slippage(m, quantity, mid), mid);
    TimesMonotone(0.0, m.maxSlippage, mid);
  }

  lemma SlippageInRange(m: Params, quantity: real, mid: real)
    requires m.baseSlippage >= 0.0 && m.marketImpact >= 0.0 && m.maxSlippage >= 0.0
    requires quantity >= 0.0 && mid >= 0.0
    ensures 0.0 <= Slippage(m, quantity, mid) <= m.maxSlippage
  {
    TimesMonotone(0.0, quantity, mid);
    TimesMonotone(0.0, m.marketImpact, quantity * mid / 1000000.0);
  }

  // ----- splitting an order -----

  lemma SlippageGrows(m: Params, q: real, r: real, mid: real)
    requires m.marketImpact >= 0.0 && q <= r && mid >= 0.0
    ensures Slippage(m, q, mid) <= Slippage(m, r, mid)
  {
    TimesMonotone(q, r, mid);
    ImpactGrows(m.marketImpact, q * mid / 1000000.0, r * mid / 1000000.0);
  }

  lemma ImpactGrows(impact: real, x: real, y: real)
    requires impact >= 0.0 && x <= y
    ensures impact * x <= impact * y
  {}

  // The price per unit of a market order, all its fills together.
  function MarketPrice(m: Params, side: OrderSide, quantity: real, mid: real): real {
    UnitPrice(side, quantity, BasePrice(m, side, quantity, mid))
  }

  // It gets worse with the quantity. (Selling at more than the whole price off is left aside:
  // then the price is negative, and its spread makes it better.)
  lemma PriceGetsWorse(m: Params, side: OrderSide, q: real, r: real, mid: real)
    requires m.baseSlippage >= 0.0 && m.marketImpact >= 0.0 && m.maxSlippage >= 0.0
    requires 0.0 < q <= r && mid >= 0.0 && (side == Buy || m.maxSlippage <= 1.0)
    ensures if side == Buy then MarketPrice(m, side, q, mid) <= MarketPrice(m, side, r, mid)
      else MarketPrice(m, side, q, mid) >= MarketPrice(m, side, r, mid)
  {
    BaseGetsWorse(m, side, q, r, mid);
    var x, y := BasePrice(m, side, q, mid), BasePrice(m, side, r, mid);
    if side == Buy {
      FactorsGrow(x, y, 1.0 + Spread(q), 1.0 + Spread(r));
    } else {
      FactorsGrow(y, x, 1.0 - Spread(r), 1.0 - Spread(q));
    }
  }

  lemma BaseGetsWorse(m: Params, side: OrderSide, q: real, r: real, mid: real)
    requires m.baseSlippage >= 0.0 && m.marketImpact >= 0.0 && m.maxSlippage >= 0.0
    requires 0.0 < q <= r && mid >= 0.0 && (side == Buy || m.maxSlippage <= 1.0)
    ensures if side == Buy then 0.0 <= BasePrice(m, side, q, mid) <= BasePrice(m, side, r, mid)
      else 0.0 <= BasePrice(m, side, r, mid) <= BasePrice(m, side, q, mid)
  {
    SlippageGrows(m, q, r, mid);
    SlippageInRange(m, q, mid);
    SlippageInRange(m, r, mid);
    BaseIs(m, side, q, mid);
    BaseIs(m, side, r, mid);
    BasesInOrder(side, mid, Slippage(m, q, mid), Slippage(m, r, mid));
  }

  // The base price, given the slippage.
  function Slipped(side: OrderSide, mid: real, slippage: real): real {
    Times(if side == Buy then 1.0 + slippage else 1.0 - slippage, mid)
  }

  lemma BaseIs(m: Params, side: OrderSide, quantity: real, mid: real)
    ensures BasePrice(m, side, quantity, mid) == Slipped(side, mid, Slippage(m, quantity, mid))
  {}

  lemma BasesInOrder(side: OrderSide, mid: real, s: real, t: real)
    requires mid >= 0.0 && 0.0 <= s <= t && (side == Buy || t <= 1.0)
    ensures if side == Buy then 0.0 <= Slipped(side, mid, s) <= Slipped(side, mid, t)
      else 0.0 <= Slipped(side, mid, t) <= Slipped(side, mid, s)
  {
    if side == Buy {
      TimesMonotone(0.0, 1.0 + s, mid);
      TimesMonotone(1.0 + s, 1.0 + t, mid);
    } else {
      TimesMonotone(0.0, 1.0 - t, mid);
      TimesMonotone(1.0 - t, 1.0 - s, mid);
    }
  }

  lemma FactorsGrow(x: real, y: real, f: real, g: real)
    requires 0.0 <= x <= y && 0.0 <= f <= g
    ensures Times(x, f) <= Times(y, g)
  {
    TimesMonotone(x, y, f);
    TimesMonotone(f, g, y);
    assert Times(f, y) == Times(y, f) && Times(g, y) == Times(y, g);
  }

  // Two orders never cost more than one for both, and never bring in less.
  lemma SplittingCostsNoMore(m: Params, side: OrderSide, q: real, r: real, mid: real, start: int)
    requires m.baseSlippage >= 0.0 && m.marketImpact >= 0.0 && m.maxSlippage >= 0.0
    requires q > 0.0 && r > 0.0 && mid >= 0.0 && (side == Buy || m.maxSlippage <= 1.0)
    ensures
      var one := TotalValue(MarketFills(m, side, q, mid, start));
      var two := TotalValue(MarketFills(m, side, r, mid, start));
      var both := TotalValue(MarketFills(m, side, q + r, mid, start));
      if side == Buy then one + two <= both else one + two >= both
  {
    var p1, p2, p := MarketPrice(m, side, q, mid), MarketPrice(m, side, r, mid), MarketPrice(m, side, q + r, mid);
    ValueOfFills(side, q, BasePrice(m, side, q, mid), start);
    ValueOfFills(side, r, BasePrice(m, side, r, mid), start);
    ValueOfFills(side, q + r, BasePrice(m, side, q + r, mid), start);
    PriceGetsWorse(m, side, q, q + r, mid);
    PriceGetsWorse(m, side, r, q + r, mid);
    TimesSum(p, q, r);
    if side == Buy {
      TimesMonotone(p1, p, q);
      TimesMonotone(p2, p, r);
    } else {
      TimesMonotone(p, p1, q);
      TimesMonotone(p, p2, r);
    }
  }

  // Beyond that cap two sales may bring in less: at mid 1 and a slippage of 2, two of a half bring
  // in -1, and one of a whole more.
  lemma SplitSaleMayBringLess(start: int)
    ensures
      var m := Params(2.0, 0.0, 2.0);
      var half := TotalValue(MarketFills(m, Sell, 0.5, 1.0, start));
      var whole := TotalValue(MarketFills(m, Sell, 1.0, 1.0, start));
      half + half == -1.0 && whole == -0.99978565632
  {
    var m := Params(2.0, 0.0, 2.0);
    assert BasePrice(m, Sell, 0.5, 1.0) == -1.0 && BasePrice(m, Sell, 1.0, 1.0) == -1.0;
    ValueOfFills(Sell, 0.5, -1.0, start);
    ValueOfFills(Sell, 1.0, -1.0, start);
  }

  // ----- the default exchange -----

  // With the default parameters a buy of a half at 50000 is filled at 50025.125.
  lemma DefaultBuy(start: int)
    ensures MarketFills(DEFAULT_PARAMS, Buy, 0.5, 50000.0, start) == [Fill(50025.125, 0.5, start)]
  {}

  // A symbol without a price counts as worth 50000.
  lemma PriceOrDefault(prices: map<string, real>, symbol: string)
    ensures Mid(prices, symbol) == if symbol in prices then prices[symbol] else 50000.0
  {}
}
