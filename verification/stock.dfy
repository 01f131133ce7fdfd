/**
 One symbol's position keeper (the `Stock` class): the latest bid and ask and
 a FIFO queue of open lots. A fill either opens/extends the position (queue
 empty, or same side as the front lot) or closes against the queue oldest lot
 first, emitting one paired trade per match and reversing the position when
 the fill is larger than everything open.
 */
module Stocks {
  import opened Messages

  /** An open lot (the `Trade` record): a fill together with the quote and liquidity at its arrival. */
  datatype Lot = Lot(time: int, price: int, quantity: int, side: Side, bid: int, ask: int, liquidity: Liquidity)

  /** A paired trade: one match of an open lot against a closing fill. `pnl` is in cents. */
  datatype PairedTrade = PairedTrade(
    openTime: int, closeTime: int, symbol: string, quantity: int, pnl: int,
    openSide: Side, closeSide: Side, openPrice: int, closePrice: int,
    openBid: int, closeBid: int, openAsk: int, closeAsk: int,
    openLiquidity: Liquidity, closeLiquidity: Liquidity)

  /** The state of one symbol; `lots` is the FIFO queue, oldest lot at index 0. */
  datatype Stock = Stock(symbol: string, lots: seq<Lot>, bid: int, ask: int)

  /** What one fill produces: the new state and the paired trades, oldest match first. */
  datatype Outcome = Outcome(stock: Stock, pairs: seq<PairedTrade>)

  /** A symbol seen for the first time: no quote yet (bid = ask = 0) and nothing open. */
  function NewStock(symbol: string): (s: Stock)
    ensures s.symbol == symbol && s.lots == [] && s.bid == 0 && s.ask == 0
  {
    Stock(symbol, [], 0, 0)
  }

  /* ---------------------------------------------------------------------- */
  /* Queue bookkeeping                                                       */

  /** Sum of the open quantities. */
  function Total(lots: seq<Lot>): (t: int)
    ensures Positive(lots) ==> t >= |lots|
  {
    if |lots| == 0 then 0 else lots[0].quantity + Total(lots[1..])
  }

  /** Net signed position: Buy lots count up, Sell lots count down. */
  function Net(lots: seq<Lot>): int {
    if |lots| == 0 then 0 else Signed(lots[0].side, lots[0].quantity) + Net(lots[1..])
  }

  /** Sum of the matched quantities of some paired trades. */
  function Matched(pairs: seq<PairedTrade>): int {
    if |pairs| == 0 then 0 else pairs[0].quantity + Matched(pairs[1..])
  }

  predicate Positive(lots: seq<Lot>) {
    forall i :: 0 <= i < |lots| ==> lots[i].quantity > 0
  }

  predicate OnSide(lots: seq<Lot>, side: Side) {
    forall i :: 0 <= i < |lots| ==> lots[i].side == side
  }

  /** The queue invariant: one direction only, and no empty lot. */
  predicate Valid(lots: seq<Lot>) {
    Positive(lots) && (|lots| == 0 || OnSide(lots, lots[0].side))
  }

  /** A fill on `side` opens or extends the position rather than closing it. */
  predicate Opens(lots: seq<Lot>, side: Side) {
    |lots| == 0 || lots[0].side == side
  }

  /* ---------------------------------------------------------------------- */
  /* Quotes and liquidity                                                    */

  /** `handle_quote_update`: both prices are replaced, nothing else changes. */
  function HandleQuoteUpdate(s: Stock, bid: int, ask: int): (r: Stock)
    ensures r.bid == bid && r.ask == ask
    ensures r.symbol == s.symbol && r.lots == s.lots
  {
    s.(bid := bid, ask := ask)
  }

  /**
   `compute_liquidity`: a fill that rests on its own side of the quote is
   passive, one that reaches the other side is aggressive; the passive test
   is made first, so it wins when the quote is locked or crossed.
   */
  function ComputeLiquidity(side: Side, price: int, bid: int, ask: int): (r: Liquidity)
    // the passive test is made first
    ensures r == Passive <==> (side == Buy && price <= bid) || (side == Sell && price >= ask)
    // failing that, a fill that reaches the far side of the quote is aggressive
    ensures r == Aggressive <==> if side == Buy then bid < price && ask <= price else price < ask && price <= bid
    // whatever the side, n/a means strictly between bid and ask
    ensures r == NotApplicable <==> bid < price < ask
  {
    if (side == Buy && price <= bid) || (side == Sell && price >= ask) then Passive
    else if (side == Sell && price <= bid) || (side == Buy && price >= ask) then Aggressive
    else
      // a side is one or the other, which the solver needs to be told
      assert side == Buy || side == Sell;
      NotApplicable
  }

  /* ---------------------------------------------------------------------- */
  /* Paired trades                                                           */

  /** Realized pnl of `quantity` opened at `openPrice` on `openSide` and closed at `closePrice`. */
  function Pnl(openSide: Side, openPrice: int, closePrice: int, quantity: int): (p: int)
    // a long gains as the price rises, a short as it falls
    ensures openSide == Buy ==> p == quantity * (closePrice - openPrice)
    ensures openSide == Sell ==> p == quantity * (openPrice - closePrice)
  {
    var gain := quantity * (closePrice - openPrice);
    if openSide == Sell then -gain else gain
  }

  /** The record `create_paired_trades` emits for `quantity` of `open` matched by `close`. */
  function CreatePairedTrade(symbol: string, open: Lot, close: Lot, quantity: int): (p: PairedTrade)
    ensures p.symbol == symbol && p.quantity == quantity && p.pnl == Pnl(open.side, open.price, close.price, quantity)
    // the open half comes from the open lot, the close half from the closing fill
    ensures p.openTime == open.time && p.openSide == open.side && p.openPrice == open.price
      && p.openBid == open.bid && p.openAsk == open.ask && p.openLiquidity == open.liquidity
    ensures p.closeTime == close.time && p.closeSide == close.side && p.closePrice == close.price
      && p.closeBid == close.bid && p.closeAsk == close.ask && p.closeLiquidity == close.liquidity
  {
    PairedTrade(open.time, close.time, symbol, quantity, Pnl(open.side, open.price, close.price, quantity),
                open.side, close.side, open.price, close.price, open.bid, close.bid, open.ask, close.ask,
                open.liquidity, close.liquidity)
  }

  /* ---------------------------------------------------------------------- */
  /* Fills                                                                   */

  /** The closing loop's result: the queue left, the pairs emitted, the quantity still unmatched. */
  datatype Settlement = Settlement(lots: seq<Lot>, pairs: seq<PairedTrade>, remaining: int)

  /**
   The `while` loop of `process_trade`: consume `remaining` of the closing
   `fill` from the front of `queue`. A front lot larger than what remains is
   cut down and stays in front; otherwise it is removed whole.
   */
  function Settle(symbol: string, queue: seq<Lot>, fill: Lot, remaining: int): (r: Settlement)
    ensures |r.pairs| <= |queue|
    // what was matched is no longer owed
    ensures r.remaining == remaining - Matched(r.pairs)
    ensures r.remaining > 0 ==> r.lots == [] && |r.pairs| == |queue|
    ensures remaining > 0 && |queue| > 0 ==> |r.pairs| > 0
    decreases |queue|
  {
    if |queue| == 0 || remaining <= 0 then
      Settlement(queue, [], remaining)
    else if queue[0].quantity > remaining then
      Settlement([queue[0].(quantity := queue[0].quantity - remaining)] + queue[1..],
                 [CreatePairedTrade(symbol, queue[0], fill, remaining)], 0)
    else
      var rest := Settle(symbol, queue[1..], fill, remaining - queue[0].quantity);
      Settlement(rest.lots, [CreatePairedTrade(symbol, queue[0], fill, queue[0].quantity)] + rest.pairs, rest.remaining)
  }

  /** The i-th pair the closing loop emits matches the i-th oldest lot against the fill. */
  lemma {:induction false} SettleFifo(symbol: string, queue: seq<Lot>, fill: Lot, remaining: int)
    ensures var r := Settle(symbol, queue, fill, remaining);
      forall i :: 0 <= i < |r.pairs| ==> r.pairs[i] == CreatePairedTrade(symbol, queue[i], fill, r.pairs[i].quantity)
    decreases |queue|
  {
    if |queue| > 0 && remaining > 0 && queue[0].quantity <= remaining {
      var rest := Settle(symbol, queue[1..], fill, remaining - queue[0].quantity);
      SettleFifo(symbol, queue[1..], fill, remaining - queue[0].quantity);
      var r := Settle(symbol, queue, fill, remaining);
      assert r.pairs == [CreatePairedTrade(symbol, queue[0], fill, queue[0].quantity)] + rest.pairs;
      forall i | 1 <= i < |r.pairs|
        ensures r.pairs[i] == CreatePairedTrade(symbol, queue[i], fill, r.pairs[i].quantity)
      {
        assert r.pairs[i] == rest.pairs[i - 1];
        assert queue[i] == queue[1..][i - 1];
      }
    }
  }

  /** Quantity is conserved: what the closing loop matched leaves the queue. */
  lemma {:induction false} SettleConserves(symbol: string, queue: seq<Lot>, fill: Lot, remaining: int)
    ensures var r := Settle(symbol, queue, fill, remaining);
      Total(r.lots) == Total(queue) - Matched(r.pairs)
    decreases |queue|
  {
    if |queue| > 0 && remaining > 0 && queue[0].quantity <= remaining {
      SettleConserves(symbol, queue[1..], fill, remaining - queue[0].quantity);
    } else if |queue| > 0 && remaining > 0 {
      var r := Settle(symbol, queue, fill, remaining);
      assert r.lots[1..] == queue[1..];
    }
  }

  /** The lot a fill would open, carrying the quote and liquidity in force before it. */
  function EntryLot(s: Stock, time: int, side: Side, price: int, quantity: int): Lot {
    Lot(time, price, quantity, side, s.bid, s.ask, ComputeLiquidity(side, price, s.bid, s.ask))
  }

  /** `process_trade`: apply one fill to the symbol's state. */
  function ProcessTrade(s: Stock, time: int, side: Side, price: int, quantity: int): (r: Outcome)
    ensures r.stock.symbol == s.symbol && r.stock.bid == s.bid && r.stock.ask == s.ask
    ensures quantity == 0 ==> r.stock == s && r.pairs == []
    ensures quantity != 0 && Opens(s.lots, side) ==>
      r.pairs == [] && r.stock.lots == s.lots + [EntryLot(s, time, side, price, quantity)]
    ensures forall i :: 0 <= i < |r.pairs| ==>
      r.pairs[i].symbol == s.symbol && r.pairs[i].closeTime == time && r.pairs[i].closeSide == side
  {
    if quantity == 0 then
      Outcome(s, [])
    else
      var fill := EntryLot(s, time, side, price, quantity);
      if Opens(s.lots, side) then
        Outcome(s.(lots := s.lots + [fill]), [])
      else
        var settled := Settle(s.symbol, s.lots, fill, quantity);
        SettleFifo(s.symbol, s.lots, fill, quantity);
        var lots := if settled.remaining > 0 then settled.lots + [fill.(quantity := settled.remaining)] else settled.lots;
        Outcome(s.(lots := lots), settled.pairs)
  }
}
