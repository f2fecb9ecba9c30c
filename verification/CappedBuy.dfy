/** A bet placed from a news post: the price-capped order, the entry price recorded for it,
    the payout advertised on the post and the payout settlement credits. */
module CappedBuy {
  import opened Wrappers
  import opened Economy

  const PRICE_FLOOR := 0.01
  const PRICE_CEILING := 0.99
  const TICK := 0.01

  /** `Capped` fills at its price or better, or not at all; `AtMarket` fills at any price. */
  datatype Order = Capped(price: real, size: real) | AtMarket(amount: real)

  function Clamp(p: real): real {
    var raised := if p < PRICE_FLOOR then PRICE_FLOOR else p;
    if raised < PRICE_CEILING then raised else PRICE_CEILING
  }

  /** The quote with the slippage allowance, as the order intent carries it. */
  function MaxPrice(quote: real, slippage: real): real {
    var p := quote * (1.0 + slippage);
    if p < PRICE_CEILING then p else PRICE_CEILING
  }

  /** Rounded down to the share tick. */
  function FloorToTick(x: real): real { (x * 100.0).Floor as real / 100.0 }

  /** A capped buy is refused when the amount does not buy one tick. */
  function PlaceCappedBuy(amount: real, maxPrice: real): Option<Order> {
    var price := Clamp(maxPrice);
    var size := FloorToTick(amount / price);
    if size <= 0.0 then None else Some(Capped(price, size))
  }

  /** The dispatch of a market buy: the cap counts only if it is present and not zero. */
  function DispatchBuy(amount: real, maxPrice: Option<real>): Option<Order> {
    if maxPrice.Some? && maxPrice.value != 0.0 then PlaceCappedBuy(amount, maxPrice.value)
    else Some(AtMarket(amount))
  }

  /** The entry price recorded with the bet; here a cap of zero counts as present. */
  function RecordedEntry(maxPrice: Option<real>, quote: Option<real>): Option<real> {
    if maxPrice.Some? then Some(Clamp(maxPrice.value)) else quote
  }

  /** The payout printed on the post's button. */
  function Advertised(stake: real, quote: real, slippage: real): real { stake / Clamp(quote * (1.0 + slippage)) }

  function NewsOrder(amount: real, quote: real, slippage: real): Option<Order> {
    DispatchBuy(amount, Some(MaxPrice(quote, slippage)))
  }

  function NewsBet(u: UserId, market: MarketId, token: TokenId, amount: real, quote: real, slippage: real): Bet {
    NewBet(u, market, token, amount, RecordedEntry(Some(MaxPrice(quote, slippage)), Some(quote)))
  }

  /** A clamped price is the nearest one between a cent and ninety-nine cents. */
  lemma ClampInRange(p: real)
    ensures 0.01 <= Clamp(p) <= 0.99
    ensures Clamp(p) < p ==> Clamp(p) == 0.99
    ensures Clamp(p) > p ==> Clamp(p) == 0.01
  {
  }

  /** Capping the quote first and clamping it later is the same as clamping it once. */
  lemma OneClamp(quote: real, slippage: real)
    ensures Clamp(MaxPrice(quote, slippage)) == Clamp(quote * (1.0 + slippage))
  {
  }

  // ── the order ────────────────────────────────────────────────────────────

  lemma TimesAtMost(a: real, b: real, price: real)
    requires a <= b && price > 0.0
    ensures a * price <= b * price
  {
    assert (b - a) * price >= 0.0;
  }

  lemma TimesBelow(a: real, b: real, price: real)
    requires a < b && price > 0.0
    ensures a * price < b * price
  {
    assert (b - a) * price > 0.0;
  }

  lemma Quotient(amount: real, price: real) returns (q: real)
    requires price > 0.0
    ensures q == amount / price && q * price == amount
  {
    q := amount / price;
  }

  lemma FloorIsBelow(x: real)
    ensures FloorToTick(x) <= x < FloorToTick(x) + TICK
    ensures FloorToTick(x) > 0.0 <==> x >= TICK
  {
  }

  lemma CostsAtMost(size: real, shares: real, price: real, amount: real)
    requires price > 0.0 && size <= shares && shares * price == amount
    ensures size * price <= amount
  {
    TimesAtMost(size, shares, price);
  }

  lemma CostsMore(size: real, shares: real, price: real, amount: real)
    requires price > 0.0 && shares < size && shares * price == amount
    ensures amount < size * price
  {
    TimesBelow(shares, size, price);
  }

  lemma Affordable(size: real, shares: real, price: real, amount: real)
    requires price > 0.0 && shares * price == amount
    ensures size <= shares <==> size * price <= amount
  {
    if size <= shares {
      CostsAtMost(size, shares, price, amount);
    } else {
      CostsMore(size, shares, price, amount);
    }
  }

  lemma FloorIsWholeTicks(x: real)
    ensures FloorToTick(x) * 100.0 == (FloorToTick(x) * 100.0).Floor as real
  {
    assert FloorToTick(x) * 100.0 == (x * 100.0).Floor as real;
  }

  /** An accepted order is for a whole number of ticks at the clamped price. It costs no more
      than the stake, and less than one tick's worth of the stake stays unspent; an order is
      refused exactly when the stake is worth less than a tick. */
  lemma CappedBuySpends(amount: real, maxPrice: real)
    ensures PlaceCappedBuy(amount, maxPrice).Some? <==> amount >= 0.01 * Clamp(maxPrice)
    ensures PlaceCappedBuy(amount, maxPrice).Some? ==>
              var order := PlaceCappedBuy(amount, maxPrice).value;
              order.Capped? && order.price == Clamp(maxPrice) &&
              order.size * 100.0 == (order.size * 100.0).Floor as real &&
              order.size * order.price <= amount < (order.size + 0.01) * order.price
  {
    var price := Clamp(maxPrice);
    ClampInRange(maxPrice);
    FloorIsBelow(amount / price);
    FloorIsWholeTicks(amount / price);
    var shares := Quotient(amount, price);
    Affordable(TICK, shares, price, amount);
    CostsAtMost(FloorToTick(shares), shares, price, amount);
    CostsMore(FloorToTick(shares) + TICK, shares, price, amount);
  }

  lemma FloorIsLargest(ticks: int, x: real)
    requires ticks as real / 100.0 <= x
    ensures ticks as real / 100.0 <= FloorToTick(x)
  {
    var y := x * 100.0;
    assert ticks as real <= y;
    assert ticks <= y.Floor;
  }

  /** No greater whole number of ticks is affordable at the cap. */
  lemma LargestAffordableSize(amount: real, maxPrice: real, ticks: int)
    requires ticks as real / 100.0 * Clamp(maxPrice) <= amount
    ensures ticks as real / 100.0 <= FloorToTick(amount / Clamp(maxPrice))
  {
    var size := ticks as real / 100.0;
    ClampInRange(maxPrice);
    var shares := Quotient(amount, Clamp(maxPrice));
    Affordable(size, shares, Clamp(maxPrice), amount);
    FloorIsLargest(ticks, amount / Clamp(maxPrice));
  }

  // ── the recorded bet ─────────────────────────────────────────────────────

  /** A news order goes out without a cap exactly when its allowed price is zero, whatever the
      stake: a quote of zero slips through to an order at any price. */
  lemma CappedExactlyWhenQuoted(amount: real, quote: real, slippage: real)
    ensures NewsOrder(amount, quote, slippage) == Some(AtMarket(amount)) <==> quote * (1.0 + slippage) == 0.0
    ensures NewsOrder(amount, quote, slippage).Some? ==>
              (NewsOrder(amount, quote, slippage).value.Capped? <==> quote * (1.0 + slippage) != 0.0)
    ensures NewsOrder(amount, quote, slippage).None? <==>
              quote * (1.0 + slippage) != 0.0 && amount < 0.01 * Clamp(quote * (1.0 + slippage))
  {
    OneClamp(quote, slippage);
    CappedBuySpends(amount, MaxPrice(quote, slippage));
  }

  lemma ZeroQuoteIsUncapped(amount: real, slippage: real)
    ensures NewsOrder(amount, 0.0, slippage) == Some(AtMarket(amount))
    ensures RecordedEntry(Some(MaxPrice(0.0, slippage)), Some(0.0)) == Some(0.01)
  {
    assert 0.0 * (1.0 + slippage) == 0.0;
  }

  /** Whenever a capped order is accepted, the bet is recorded at the order's own price; a win
      credits the shares bought, to within a tick, and exactly what the post advertised. */
  lemma RecordedAsOrdered(u: UserId, market: MarketId, token: TokenId, amount: real, quote: real, slippage: real)
    requires quote * (1.0 + slippage) != 0.0 && NewsOrder(amount, quote, slippage).Some?
    ensures var order := NewsOrder(amount, quote, slippage).value;
            var bet := NewsBet(u, market, token, amount, quote, slippage);
            var win := SettleBetValues(bet, Resolution(true, Some(token), false));
            order.Capped? && order.price == Clamp(quote * (1.0 + slippage)) &&
            bet.entryPrice == Some(order.price) && win.status == Won &&
            order.size <= win.payout < order.size + 0.01 && bet.shares == Some(win.payout) &&
            win.payout == Advertised(amount, quote, slippage)
  {
    OneClamp(quote, slippage);
    ClampInRange(MaxPrice(quote, slippage));
  }

  lemma QuotientGrows(amount: real, price: real)
    requires amount > 0.0 && 0.0 < price < 1.0
    ensures amount / price > amount
  {
    var q := Quotient(amount, price);
    TimesBelow(price, 1.0, amount);
    if q <= amount {
      TimesAtMost(q, amount, price);
    }
  }

  /** A win is never a loss: at a price below a dollar the stake comes back with more. */
  lemma WinningPays(u: UserId, market: MarketId, token: TokenId, amount: real, quote: real, slippage: real)
    requires amount > 0.0
    ensures SettleBetValues(NewsBet(u, market, token, amount, quote, slippage),
                            Resolution(true, Some(token), false)).pnl > 0.0
  {
    ClampInRange(MaxPrice(quote, slippage));
    QuotientGrows(amount, Clamp(MaxPrice(quote, slippage)));
  }
}
